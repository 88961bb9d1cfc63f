/**
 * The register's request handlers. Each one runs its guards in order, answers
 * with a status code and a body, and only then writes to the till and to the
 * transaction log, in that order. The current time each handler stamps a
 * record with is a parameter.
 *
 * A request field that is missing and one that is an empty list get the same
 * answer from every handler, so both are modelled by the empty sequence.
 */
module Routes {
  import opened Values
  import opened Ledger
  import opened Payment
  import opened Journal

  datatype Body = Message(message: string) | Error(error: string) | State(balance: int, details: seq<Cash>)

  datatype Response = Response(status: int, body: Body)

  /** Every tendered denomination is, with strict equality, one of the legal tender. */
  ghost predicate AllLegal(cash: seq<Detail>)
  {
    forall i :: 0 <= i < |cash| ==> cash[i].denomination.Whole? && cash[i].denomination.n in LegalTender
  }

  /** The till holds a record for every legal denomination. */
  ghost predicate Seeded(t: seq<Cash>)
  {
    forall d :: d in LegalTender ==> Holds(t, d)
  }

  /**
   * POST /charge. The update never fails on a bad entry (it is skipped), so
   * after the guard the handler always records a `CHARGE` of the worth of all
   * the details, the skipped ones included.
   */
  method Charge(till: Till, log: TransactionLog, details: seq<Detail>, now: Moment) returns (res: Response)
    requires till.Valid() && AllWhole(details)
    modifies till, log
    ensures till.Valid()
    ensures details == [] ==>
      && res == Response(400, Error("Details param must be provided"))
      && till.entries == old(till.entries) && log.records == old(log.records)
    ensures details != [] ==>
      && res == Response(200, Message("Success"))
      && till.entries == Applied(old(till.entries), details, CHARGE)
      && log.records == old(log.records) + [Transaction(now, Tendered(details), CHARGE)]
  {
    if details == [] {
      return Response(400, Error("Details param must be provided"));
    }
    till.UpdateQuantity(details, CHARGE);
    var total := Tally(details);
    log.Create(Transaction(now, total, CHARGE));
    res := Response(200, Message("Success"));
  }

  /**
   * When the till holds every legal denomination and every detail passes the
   * checks, a charge adds to the balance exactly the amount it records.
   */
  lemma ChargeCredits(t: seq<Cash>, details: seq<Detail>)
    requires ValidTill(t) && Seeded(t) && AllWhole(details)
    requires forall i :: 0 <= i < |details| ==> Accepted(details[i], CHARGE)
    ensures Balance(Applied(t, details, CHARGE)) == Balance(t) + Tendered(details)
  {
    AppliedBalance(t, details, CHARGE);
    CreditedAll(t, details, CHARGE);
  }

  /**
   * The charge scenario of the repository's tests: one 10000 and one 50000
   * bill into an empty till give one of each and a `CHARGE` of 60000.
   */
  lemma ChargeExample()
    ensures var till := [Cash(50000, 0), Cash(10000, 0)];
            var details := [Detail(Whole(10000), Whole(1)), Detail(Whole(50000), Whole(1))];
            && Applied(till, details, CHARGE) == [Cash(50000, 1), Cash(10000, 1)]
            && Tendered(details) == 60000
  {
    var details := [Detail(Whole(10000), Whole(1)), Detail(Whole(50000), Whole(1))];
    assert details[..1] == [details[0]];
    assert details[..1][..0] == [];
    assert AsCash(details) == [Cash(10000, 1), Cash(50000, 1)];
    assert AsCash(details)[..1] == [Cash(10000, 1)];
    assert Balance(AsCash(details)[..1]) == 10000;
    var till := [Cash(50000, 0), Cash(10000, 0)];
    assert Applied(till, details[..1], CHARGE) == [Cash(50000, 0), Cash(10000, 1)];
  }

  /**
   * A detail the checks reject is left out of the till but still counted in
   * the recorded amount: a denomination of 3 adds nothing to the till and 3 to
   * the `CHARGE` record.
   */
  lemma ChargeCountsSkipped()
    ensures var till := [Cash(50000, 0), Cash(10000, 0)];
            var details := [Detail(Whole(50000), Whole(1)), Detail(Whole(3), Whole(1))];
            && Applied(till, details, CHARGE) == [Cash(50000, 1), Cash(10000, 0)]
            && Tendered(details) == 50003
  {
    var details := [Detail(Whole(50000), Whole(1)), Detail(Whole(3), Whole(1))];
    assert !Accepted(details[1], CHARGE);
    assert details[..1] == [details[0]];
    assert details[..1][..0] == [];
    assert AsCash(details) == [Cash(50000, 1), Cash(3, 1)];
    assert AsCash(details)[..1] == [Cash(50000, 1)];
    assert Balance(AsCash(details)[..1]) == 50000;
    var till := [Cash(50000, 0), Cash(10000, 0)];
    assert Applied(till, details[..1], CHARGE) == [Cash(50000, 1), Cash(10000, 0)];
  }

  /**
   * POST /empty. A zero balance writes nothing; any other balance zeroes the
   * till and records an `EMPTY` of minus that balance.
   */
  method EmptyRegister(till: Till, log: TransactionLog, now: Moment) returns (res: Response)
    requires till.Valid()
    modifies till, log
    ensures till.Valid()
    ensures Balance(old(till.entries)) == 0 ==>
      && res == Response(200, Message("Cash register is already empty"))
      && till.entries == old(till.entries) && log.records == old(log.records)
    ensures Balance(old(till.entries)) != 0 ==>
      && res == Response(200, Message("Success"))
      && till.entries == Zeroed(old(till.entries)) && Balance(till.entries) == 0
      && log.records == old(log.records) + [Transaction(now, -Balance(old(till.entries)), EMPTY)]
  {
    var balance, details := till.GetState();
    if balance == 0 {
      return Response(200, Message("Cash register is already empty"));
    }
    till.Empty();
    log.Create(Transaction(now, -balance, EMPTY));
    res := Response(200, Message("Success"));
  }

  /** GET /status: the till's records in descending order of denomination and its balance; nothing is written. */
  method Status(till: Till) returns (res: Response)
    requires till.Valid()
    ensures res == Response(200, State(Balance(till.entries), till.entries))
    ensures Descending(res.body.details)
  {
    var balance, details := till.GetState();
    res := Response(200, State(balance, details));
  }

  /**
   * POST /pay. The guards run in order (amount, cash, legal tender) before
   * anything is written. A failed payment answers 500 with its message and
   * writes nothing; a successful one records a `PAYMENT` of the tendered total
   * and then a `CHANGE` of minus the change.
   */
  method Pay(till: Till, log: TransactionLog, amount: Num, cash: seq<Detail>, paidAt: Moment, changedAt: Moment)
    returns (res: Response)
    requires till.Valid() && !amount.Fraction?
    requires forall i :: 0 <= i < |cash| ==> cash[i].quantity.Whole?
    modifies till, log
    ensures till.Valid()
    ensures Falsy(amount) ==>
      && res == Response(400, Error("Amount must be provided"))
      && till.entries == old(till.entries) && log.records == old(log.records)
    ensures !Falsy(amount) && cash == [] ==>
      && res == Response(400, Error("Cash must be provided"))
      && till.entries == old(till.entries) && log.records == old(log.records)
    ensures !Falsy(amount) && cash != [] && !AllLegal(cash) ==>
      && res == Response(400, Error(TenderMessage))
      && till.entries == old(till.entries) && log.records == old(log.records)
    ensures !Falsy(amount) && cash != [] && AllLegal(cash) ==>
      match PaymentOf(old(till.entries), amount.n, cash)
      case Failure(e) =>
        && res == Response(500, Error(ErrorMessage(e)))
        && till.entries == old(till.entries) && log.records == old(log.records)
      case Success(rc) =>
        && res == Response(200, Message("Success"))
        && till.entries == Settled(old(till.entries), cash, rc.cashDetails)
        && log.records == old(log.records)
             + [Transaction(paidAt, rc.cash, PAYMENT), Transaction(changedAt, -rc.change, CHANGE)]
  {
    if Falsy(amount) {
      return Response(400, Error("Amount must be provided"));
    }
    if cash == [] {
      return Response(400, Error("Cash must be provided"));
    }
    var i := 0;
    while i < |cash|
      invariant 0 <= i <= |cash|
      invariant AllLegal(cash[..i])
    {
      if !(cash[i].denomination.Whole? && cash[i].denomination.n in LegalTender) {
        return Response(400, Error(TenderMessage));
      }
      i := i + 1;
    }
    assert cash[..i] == cash;
    var outcome := CreatePayment(till, amount.n, cash);
    if outcome.Failure? {
      return Response(500, Error(ErrorMessage(outcome.error)));
    }
    log.Create(Transaction(paidAt, outcome.value.cash, PAYMENT));
    log.Create(Transaction(changedAt, -outcome.value.change, CHANGE));
    res := Response(200, Message("Success"));
  }

  /**
   * When the till holds every legal denomination and every tendered quantity
   * is positive, a successful payment grows the balance by exactly the amount
   * owed, and the two records it writes sum to that amount.
   */
  lemma PayNetsAmount(t: seq<Cash>, amount: int, cash: seq<Detail>)
    requires ValidTill(t) && Seeded(t) && AllLegal(cash)
    requires forall i :: 0 <= i < |cash| ==> cash[i].quantity.Whole? && cash[i].quantity.n > 0
    requires PaymentOf(t, amount, cash).Success?
    ensures var rc := PaymentOf(t, amount, cash).value;
            && rc.cash + -rc.change == amount
            && Balance(Settled(t, cash, rc.cashDetails)) == Balance(t) + amount
  {
    PaymentReceipt(t, amount, cash);
    PaymentNetsAmount(t, amount, cash);
  }
}
