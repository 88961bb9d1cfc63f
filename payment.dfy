/**
 * A payment: total the tendered cash, work out the change, check that the
 * register and the customer can cover it, pick the change greedily from a
 * snapshot of the till, then put the tendered cash in and take the change out.
 *
 * The greedy step takes the first record of the snapshot (largest
 * denomination first) whose denomination fits the remainder and whose
 * quantity is positive, and withdraws `remaining / d` units of it. That count
 * is not capped by the record's quantity, and the snapshot is never
 * decremented while the change is being picked.
 */
module Payment {
  import opened Values
  import opened Ledger

  datatype PaymentError = RegisterShort | TenderShort | NoChange

  /** The message of the error Payment.create throws. */
  function ErrorMessage(e: PaymentError): string
  {
    match e
    case RegisterShort => "Insufficient cash in register"
    case TenderShort => "Insufficient cash"
    case NoChange => "Not change for this value"
  }

  /** What a successful payment returns: the change list, the tendered total and the change owed. */
  datatype Receipt = Receipt(cashDetails: seq<Cash>, cash: int, change: int)

  ghost predicate Positive(snap: seq<Cash>)
  {
    forall i :: 0 <= i < |snap| ==> snap[i].denomination > 0
  }

  /** A record can pay towards the remainder: it is no larger and the snapshot shows some in stock. */
  predicate Fits(c: Cash, remaining: int)
  {
    remaining >= c.denomination && c.quantity > 0
  }

  /** Some record of the snapshot has denomination `d` and a positive quantity. */
  ghost predicate Stocked(snap: seq<Cash>, d: int)
  {
    exists k :: 0 <= k < |snap| && snap[k].denomination == d && snap[k].quantity > 0
  }

  /** `find` over the snapshot: the index of the first record that fits the remainder, if any. */
  function FirstFit(snap: seq<Cash>, remaining: int): (k: Option<nat>)
    ensures k.Some? ==>
      && k.value < |snap| && Fits(snap[k.value], remaining)
      && forall j :: 0 <= j < k.value ==> !Fits(snap[j], remaining)
    ensures k.None? ==> forall j :: 0 <= j < |snap| ==> !Fits(snap[j], remaining)
  {
    if snap == [] then None
    else if Fits(snap[0], remaining) then Some(0)
    else
      match FirstFit(snap[1..], remaining)
      case None => None
      case Some(k) => Some(k + 1)
  }

  lemma DivStep(r: int, d: int)
    requires 0 < d <= r
    ensures r / d >= 1 && 0 <= r - d * (r / d) < d
  {
  }

  function Then(chosen: seq<Cash>, rest: Option<seq<Cash>>): Option<seq<Cash>>
  {
    match rest
    case None => None
    case Some(r) => Some(chosen + r)
  }

  lemma ThenNil(rest: Option<seq<Cash>>)
    ensures Then([], rest) == rest
  {
    if rest.Some? {
      assert [] + rest.value == rest.value;
    }
  }

  /**
   * The change list the greedy loop builds for `remaining`, or `None` when it
   * reaches a remainder no record fits.
   */
  function Greedy(snap: seq<Cash>, remaining: int): Option<seq<Cash>>
    requires Positive(snap)
    decreases if remaining > 0 then remaining else 0
  {
    if remaining <= 0 then Some([])
    else
      match FirstFit(snap, remaining)
      case None => None
      case Some(k) =>
        var d := snap[k].denomination;
        var count := remaining / d;
        DivStep(remaining, d);
        Then([Cash(d, -count)], Greedy(snap, remaining - d * count))
  }

  /**
   * `cs` is change for `amount` drawn from `snap`: it pays out exactly
   * `amount`, every quantity is a withdrawal, every denomination is no larger
   * than `amount` and was in stock in the snapshot, and the denominations
   * strictly decrease, so none appears twice.
   */
  ghost predicate ChangeFor(snap: seq<Cash>, cs: seq<Cash>, amount: int)
  {
    && -Balance(cs) == amount
    && (forall i :: 0 <= i < |cs| ==>
          cs[i].quantity < 0 && 0 < cs[i].denomination <= amount && Stocked(snap, cs[i].denomination))
    && (forall i, j :: 0 <= i < j < |cs| ==> cs[i].denomination > cs[j].denomination)
  }

  /** Whatever the greedy loop returns is change for the amount it was asked for. */
  lemma {:induction false} GreedyChange(snap: seq<Cash>, remaining: int)
    requires Positive(snap) && remaining >= 0 && Greedy(snap, remaining).Some?
    ensures ChangeFor(snap, Greedy(snap, remaining).value, remaining)
    decreases remaining
  {
    if remaining > 0 {
      var k := FirstFit(snap, remaining).value;
      var d := snap[k].denomination;
      var count := remaining / d;
      DivStep(remaining, d);
      var next := remaining - d * count;
      GreedyChange(snap, next);
      var rest := Greedy(snap, next).value;
      var cs := [Cash(d, -count)] + rest;
      assert Greedy(snap, remaining).value == cs;
      BalanceCons(Cash(d, -count), rest);
      assert Worth(Cash(d, -count)) == -(d * count);
      assert forall i :: 1 <= i < |cs| ==> cs[i] == rest[i - 1];
    }
  }

  /**
   * With every denomination a multiple of 50 and a 50 coin in stock, the
   * greedy loop finds change for every multiple of 50: "Not change for this
   * value" then only arises for change that is not a multiple of 50.
   */
  lemma {:induction false} GreedyCompletes(snap: seq<Cash>, remaining: int)
    requires Positive(snap) && Stocked(snap, 50)
    requires forall i :: 0 <= i < |snap| ==> snap[i].denomination % 50 == 0
    requires remaining % 50 == 0
    ensures Greedy(snap, remaining).Some?
    decreases if remaining > 0 then remaining else 0
  {
    if remaining > 0 {
      var j :| 0 <= j < |snap| && snap[j].denomination == 50 && snap[j].quantity > 0;
      assert Fits(snap[j], remaining);
      var k := FirstFit(snap, remaining).value;
      var d := snap[k].denomination;
      var count := remaining / d;
      DivStep(remaining, d);
      var next := remaining - d * count;
      assert next % 50 == 0 by {
        var a, b := remaining / 50, d / 50;
        assert next == 50 * (a - b * count);
      }
      GreedyCompletes(snap, next);
    }
  }

  /** One turn of the greedy loop, seen from the change already chosen. */
  lemma GreedyStep(snap: seq<Cash>, remaining: int, chosen: seq<Cash>)
    requires Positive(snap) && remaining > 0 && FirstFit(snap, remaining).Some?
    ensures var d := snap[FirstFit(snap, remaining).value].denomination;
            var count := remaining / d;
            && 0 <= remaining - d * count < remaining
            && Then(chosen, Greedy(snap, remaining))
               == Then(chosen + [Cash(d, -count)], Greedy(snap, remaining - d * count))
  {
    var d := snap[FirstFit(snap, remaining).value].denomination;
    var count := remaining / d;
    DivStep(remaining, d);
    var rest := Greedy(snap, remaining - d * count);
    if rest.Some? {
      assert chosen + ([Cash(d, -count)] + rest.value) == (chosen + [Cash(d, -count)]) + rest.value;
    }
  }

  /** The greedy loop of Payment.create, picking change for `change` from the snapshot. */
  method SelectChange(snapshot: seq<Cash>, change: int) returns (picked: Option<seq<Cash>>)
    requires Positive(snapshot)
    ensures picked == Greedy(snapshot, change)
    ensures change == 0 ==> picked == Some([])
    ensures picked.Some? && change >= 0 ==> ChangeFor(snapshot, picked.value, change)
  {
    var remaining := change;
    var chosen: seq<Cash> := [];
    ThenNil(Greedy(snapshot, change));
    while remaining > 0
      invariant Greedy(snapshot, change) == Then(chosen, Greedy(snapshot, remaining))
      decreases remaining
    {
      var k := FirstFit(snapshot, remaining);
      if k.None? {
        return None;
      }
      var bill := snapshot[k.value];
      // Both branches of the source divide two positive integers and keep the integer part.
      var count := remaining / bill.denomination;
      var next := remaining - bill.denomination * count;
      GreedyStep(snapshot, remaining, chosen);
      remaining := next;
      chosen := chosen + [Cash(bill.denomination, -count)];
    }
    assert chosen + [] == chosen;
    picked := Some(chosen);
    if change >= 0 {
      GreedyChange(snapshot, change);
    }
  }

  /** The till after the tendered cash is put in and the change list is taken out. */
  function Settled(snap: seq<Cash>, cash: seq<Detail>, cs: seq<Cash>): seq<Cash>
    requires AllWhole(cash)
  {
    WholeApplicable(cash, PAYMENT);
    AsDetailsWhole(cs);
    WholeApplicable(AsDetails(cs), CHANGE);
    Applied(Applied(snap, cash, PAYMENT), AsDetails(cs), CHANGE)
  }

  /** The outcome of Payment.create against the till `snap`. */
  function PaymentOf(snap: seq<Cash>, amount: int, cash: seq<Detail>): Result<Receipt, PaymentError>
    requires ValidTill(snap) && AllWhole(cash)
  {
    var total := Tendered(cash);
    var change := total - amount;
    if Balance(snap) < change then Failure(RegisterShort)
    else if total < amount then Failure(TenderShort)
    else
      match Greedy(snap, change)
      case None => Failure(NoChange)
      case Some(cs) => Success(Receipt(cs, total, change))
  }

  /**
   * A successful payment returns the tendered total, change equal to that total
   * less the amount, no more change than the register's balance, and a change
   * list that pays out exactly the change; no change means an empty list.
   */
  lemma PaymentReceipt(snap: seq<Cash>, amount: int, cash: seq<Detail>)
    requires ValidTill(snap) && AllWhole(cash) && PaymentOf(snap, amount, cash).Success?
    ensures var rc := PaymentOf(snap, amount, cash).value;
      && rc.cash == Tendered(cash) && rc.change == rc.cash - amount
      && 0 <= rc.change <= Balance(snap)
      && ChangeFor(snap, rc.cashDetails, rc.change)
      && (rc.change == 0 ==> rc.cashDetails == [])
  {
    GreedyChange(snap, Tendered(cash) - amount);
  }

  /**
   * The register check comes first: it fails whenever the change exceeds the
   * balance, even when the tender is short. A short tender is reported as such
   * whenever the balance is not negative.
   */
  lemma PaymentErrors(snap: seq<Cash>, amount: int, cash: seq<Detail>)
    requires ValidTill(snap) && AllWhole(cash)
    ensures Balance(snap) < Tendered(cash) - amount ==> PaymentOf(snap, amount, cash) == Failure(RegisterShort)
    ensures Balance(snap) >= 0 && Tendered(cash) < amount ==> PaymentOf(snap, amount, cash) == Failure(TenderShort)
    ensures PaymentOf(snap, amount, cash) == Failure(NoChange) ==> Greedy(snap, Tendered(cash) - amount).None?
  {
  }

  /**
   * When every tendered entry passes the checks and names a denomination the
   * till holds, a payment grows the balance by exactly the amount owed: the
   * tendered cash comes in and the change goes out.
   */
  lemma PaymentNetsAmount(snap: seq<Cash>, amount: int, cash: seq<Detail>)
    requires ValidTill(snap) && AllWhole(cash) && PaymentOf(snap, amount, cash).Success?
    requires forall i :: 0 <= i < |cash| ==> Accepted(cash[i], PAYMENT) && Holds(snap, cash[i].denomination.n)
    ensures Balance(Settled(snap, cash, PaymentOf(snap, amount, cash).value.cashDetails)) == Balance(snap) + amount
  {
    var rc := PaymentOf(snap, amount, cash).value;
    PaymentReceipt(snap, amount, cash);
    WholeApplicable(cash, PAYMENT);
    var mid := Applied(snap, cash, PAYMENT);
    AppliedBalance(snap, cash, PAYMENT);
    CreditedAll(snap, cash, PAYMENT);
    AppliedAt(snap, cash, PAYMENT);
    var ch := AsDetails(rc.cashDetails);
    AsDetailsWhole(rc.cashDetails);
    forall i | 0 <= i < |ch| ensures Accepted(ch[i], CHANGE) && Holds(mid, ch[i].denomination.n) {
      var d := rc.cashDetails[i].denomination;
      var k :| 0 <= k < |snap| && snap[k].denomination == d && snap[k].quantity > 0;
      assert Denominations(snap)[k] == d;
    }
    WholeApplicable(ch, CHANGE);
    AppliedBalance(mid, ch, CHANGE);
    CreditedAll(mid, ch, CHANGE);
  }

  /**
   * The payment scenario of the repository's tests: one 50000 and one 10000
   * bill in the till, 40000 owed and one 50000 bill tendered. The change is one
   * 10000 bill and the till ends with two 50000 bills and no 10000 bill.
   */
  lemma PaymentExample()
    ensures var till := [Cash(50000, 1), Cash(10000, 1)];
            var cash := [Detail(Whole(50000), Whole(1))];
            && PaymentOf(till, 40000, cash) == Success(Receipt([Cash(10000, -1)], 50000, 10000))
            && Settled(till, cash, [Cash(10000, -1)]) == [Cash(50000, 2), Cash(10000, 0)]
  {
    var till := [Cash(50000, 1), Cash(10000, 1)];
    var cash := [Detail(Whole(50000), Whole(1))];
    assert till[..1] == [Cash(50000, 1)];
    assert AsCash(cash) == [Cash(50000, 1)];
    assert FirstFit(till, 10000) == Some(1);
    assert Greedy(till, 0) == Some([]);
    assert [Cash(10000, -1)] + [] == [Cash(10000, -1)];
    assert Greedy(till, 10000) == Some([Cash(10000, -1)]);
    assert AsDetails([Cash(10000, -1)]) == [Detail(Whole(10000), Whole(-1))];
    assert Applied(till, cash, PAYMENT) == [Cash(50000, 2), Cash(10000, 1)];
  }

  /**
   * The count withdrawn is not capped by stock: with a single 10000 bill in the
   * till, change of 20000 takes two of them and leaves that record at -1.
   */
  lemma UncappedWithdrawal()
    ensures var till := [Cash(50000, 0), Cash(10000, 1), Cash(5000, 2)];
            var cash := [Detail(Whole(50000), Whole(1))];
            && PaymentOf(till, 30000, cash) == Success(Receipt([Cash(10000, -2)], 50000, 20000))
            && Settled(till, cash, [Cash(10000, -2)]) == [Cash(50000, 1), Cash(10000, -1), Cash(5000, 2)]
  {
    var till := [Cash(50000, 0), Cash(10000, 1), Cash(5000, 2)];
    var cash := [Detail(Whole(50000), Whole(1))];
    assert till[..2] == [Cash(50000, 0), Cash(10000, 1)];
    assert till[..2][..1] == [Cash(50000, 0)];
    assert AsCash(cash) == [Cash(50000, 1)];
    assert FirstFit(till, 20000) == Some(1);
    assert Greedy(till, 0) == Some([]);
    assert [Cash(10000, -2)] + [] == [Cash(10000, -2)];
    assert Greedy(till, 20000) == Some([Cash(10000, -2)]);
    assert AsDetails([Cash(10000, -2)]) == [Detail(Whole(10000), Whole(-2))];
    assert Balance(till[..2][..1]) == 0;
    assert Balance(till[..2]) == 10000;
    assert Balance(till) == 20000;
    assert PaymentOf(till, 30000, cash) == Success(Receipt([Cash(10000, -2)], 50000, 20000));
    var mid := Applied(till, cash, PAYMENT);
    assert mid == [Cash(50000, 1), Cash(10000, 1), Cash(5000, 2)];
    var ch := AsDetails([Cash(10000, -2)]);
    assert ch[..0] == [];
    assert Applied(mid, ch, CHANGE) == Inc(mid, 10000, -2);
    assert Inc(mid, 10000, -2) == [Cash(50000, 1), Cash(10000, -1), Cash(5000, 2)];
  }

  /**
   * Payment.create: reads the till, totals the tendered cash, runs the two
   * checks and the greedy loop, and only then updates the till twice. Every
   * failure leaves the till as it was.
   */
  method CreatePayment(till: Till, amount: int, cash: seq<Detail>) returns (r: Result<Receipt, PaymentError>)
    requires till.Valid() && AllWhole(cash)
    modifies till
    ensures till.Valid()
    ensures r == PaymentOf(old(till.entries), amount, cash)
    ensures r.Failure? ==> till.entries == old(till.entries)
    ensures r.Success? ==> till.entries == Settled(old(till.entries), cash, r.value.cashDetails)
  {
    var balance, snapshot := till.GetState();
    var total := Tally(cash);
    var change := total - amount;
    if balance < change {
      return Failure(RegisterShort);
    }
    if total < amount {
      return Failure(TenderShort);
    }
    var picked := SelectChange(snapshot, change);
    if picked.None? {
      return Failure(NoChange);
    }
    WholeApplicable(cash, PAYMENT);
    till.UpdateQuantity(cash, PAYMENT);
    AsDetailsWhole(picked.value);
    WholeApplicable(AsDetails(picked.value), CHANGE);
    till.UpdateQuantity(AsDetails(picked.value), CHANGE);
    r := Success(Receipt(picked.value, total, change));
  }
}
