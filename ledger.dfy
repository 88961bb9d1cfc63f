/**
 * The till: one record per denomination holding the number of bills or coins
 * of that value in the register. The till is kept as a sequence sorted by
 * descending denomination, which is the order every snapshot of it is read in.
 *
 * The per-entry checks of an update run inside an `async` callback, so a check
 * that throws only rejects that callback's own promise: the update as a whole
 * still succeeds, the failing entry is skipped and every passing entry is
 * applied. `Accepted` is that per-entry check and `Applied` applies exactly the
 * entries it passes.
 */
module Ledger {
  import opened Values

  /** A stored till record. */
  datatype Cash = Cash(denomination: int, quantity: int)

  /** One `{denomination, quantity}` element of a request body or of a change list. */
  datatype Detail = Detail(denomination: Num, quantity: Num)

  /** `parseInt(x, 10)` of a numeric field: the integer part, or NaN (`None`) when absent. */
  function ParseDecimal(x: Num): Option<int>
  {
    match x
    case Missing => None
    case Whole(n) => Some(n)
    case Fraction(f) => Some(if f >= 0 then f else f + 1)
  }

  /**
   * The four checks of an update, with JavaScript's precedence: `&&` binds
   * tighter than `||`, so the denomination half of each check applies to every
   * kind and only the quantity half and the legal-tender check are skipped for
   * `CHANGE`.
   */
  function Accepted(e: Detail, kind: Kind): (ok: bool)
    ensures kind != CHANGE ==>
      (ok <==> && e.denomination.Whole? && e.quantity.Whole?
               && e.denomination.n in LegalTender && e.quantity.n > 0)
    ensures kind == CHANGE ==> (ok <==> e.denomination.Whole? && e.denomination.n > 0)
  {
    var strict := kind != CHANGE;
    var parsed := ParseDecimal(e.denomination);
    && !(Falsy(e.denomination) || (Falsy(e.quantity) && strict))
    && !(Negative(e.denomination) || (Negative(e.quantity) && strict))
    && !(!(parsed.Some? && parsed.value in LegalTender) && strict)
    && !(!e.denomination.Whole? || (!e.quantity.Whole? && strict))
  }

  /** The money a record stands for. */
  function Worth(c: Cash): int
  {
    c.denomination * c.quantity
  }

  /** The register's balance: the sum of denomination times quantity over all records. */
  function Balance(t: seq<Cash>): int
  {
    if t == [] then 0 else Balance(t[..|t| - 1]) + Worth(t[|t| - 1])
  }

  function Denominations(t: seq<Cash>): seq<int>
  {
    seq(|t|, i requires 0 <= i < |t| => t[i].denomination)
  }

  /** Some record of the till has denomination `d`. */
  ghost predicate Holds(t: seq<Cash>, d: int)
  {
    d in Denominations(t)
  }

  ghost predicate Descending(t: seq<Cash>)
  {
    forall i, j :: 0 <= i < j < |t| ==> t[i].denomination > t[j].denomination
  }

  /** Denominations are positive and strictly descending, hence unique. */
  ghost predicate ValidTill(t: seq<Cash>)
  {
    Descending(t) && forall i :: 0 <= i < |t| ==> t[i].denomination > 0
  }

  /**
   * `$inc` of `q` on the record whose denomination is `d`. It is not an upsert:
   * when no record has denomination `d` nothing changes.
   */
  function Inc(t: seq<Cash>, d: int, q: int): seq<Cash>
  {
    seq(|t|, i requires 0 <= i < |t| => if t[i].denomination == d then Cash(d, t[i].quantity + q) else t[i])
  }

  /**
   * Every entry the checks accept carries a whole quantity. This always holds
   * for the strict kinds; for `CHANGE` it holds of the change lists the
   * register itself builds.
   */
  ghost predicate Applicable(ds: seq<Detail>, kind: Kind)
  {
    forall e :: e in ds && Accepted(e, kind) ==> e.quantity.Whole?
  }

  /** The till after applying, in order, exactly the entries of `ds` that pass the checks. */
  function Applied(t: seq<Cash>, ds: seq<Detail>, kind: Kind): seq<Cash>
    requires Applicable(ds, kind)
  {
    if ds == [] then t
    else
      var e := ds[|ds| - 1];
      var before := Applied(t, ds[..|ds| - 1], kind);
      if Accepted(e, kind) then Inc(before, e.denomination.n, e.quantity.n) else before
  }

  /** What a batch adds to the quantity of denomination `d`: the quantities of its accepted entries for `d`. */
  function CreditFor(ds: seq<Detail>, kind: Kind, d: int): int
    requires Applicable(ds, kind)
  {
    if ds == [] then 0
    else
      var e := ds[|ds| - 1];
      CreditFor(ds[..|ds| - 1], kind, d)
        + (if Accepted(e, kind) && e.denomination.n == d then e.quantity.n else 0)
  }

  /** What a batch adds to the balance: the worth of its accepted entries whose denomination the till holds. */
  ghost function Credited(t: seq<Cash>, ds: seq<Detail>, kind: Kind): int
    requires Applicable(ds, kind)
  {
    if ds == [] then 0
    else
      var e := ds[|ds| - 1];
      Credited(t, ds[..|ds| - 1], kind)
        + (if Accepted(e, kind) && Holds(t, e.denomination.n) then e.denomination.n * e.quantity.n else 0)
  }

  ghost predicate AllWhole(ds: seq<Detail>)
  {
    forall i :: 0 <= i < |ds| ==> ds[i].denomination.Whole? && ds[i].quantity.Whole?
  }

  function AsCash(ds: seq<Detail>): seq<Cash>
    requires AllWhole(ds)
  {
    seq(|ds|, i requires 0 <= i < |ds| => Cash(ds[i].denomination.n, ds[i].quantity.n))
  }

  function AsDetails(cs: seq<Cash>): seq<Detail>
  {
    seq(|cs|, i requires 0 <= i < |cs| => Detail(Whole(cs[i].denomination), Whole(cs[i].quantity)))
  }

  /** The total a list of bills and coins is worth, as the routes and the payment compute it. */
  function Tendered(ds: seq<Detail>): int
    requires AllWhole(ds)
  {
    Balance(AsCash(ds))
  }

  /** The till after `$set: {quantity: 0}` on every record. */
  function Zeroed(t: seq<Cash>): seq<Cash>
  {
    seq(|t|, i requires 0 <= i < |t| => Cash(t[i].denomination, 0))
  }

  lemma PrefixApplicable(ds: seq<Detail>, k: nat, kind: Kind)
    requires Applicable(ds, kind) && k <= |ds|
    ensures Applicable(ds[..k], kind)
  {
    forall e | e in ds[..k] ensures e in ds {
      var i :| 0 <= i < k && ds[..k][i] == e;
      assert ds[i] == e;
    }
  }

  lemma WholeApplicable(ds: seq<Detail>, kind: Kind)
    requires AllWhole(ds)
    ensures Applicable(ds, kind)
  {
    forall e | e in ds ensures e.quantity.Whole? {
      var i :| 0 <= i < |ds| && ds[i] == e;
    }
  }

  lemma AsDetailsWhole(cs: seq<Cash>)
    ensures AllWhole(AsDetails(cs)) && AsCash(AsDetails(cs)) == cs
  {
  }

  /** The balance read front to back: the first record's worth plus the balance of the rest. */
  lemma {:induction false} BalanceCons(c: Cash, r: seq<Cash>)
    ensures Balance([c] + r) == Worth(c) + Balance(r)
  {
    if r == [] {
      assert [c] + r == [c];
      assert [c][..0] == [];
    } else {
      var n := |r| - 1;
      assert ([c] + r)[..|r|] == [c] + r[..n];
      BalanceCons(c, r[..n]);
    }
  }

  /**
   * Each accepted entry raises the quantity of its own denomination by exactly
   * its quantity; no record changes otherwise, so an entry whose denomination
   * the till does not hold changes nothing. The denominations, and with them
   * the till's order, stay as they were.
   */
  lemma {:induction false} AppliedAt(t: seq<Cash>, ds: seq<Detail>, kind: Kind)
    requires Applicable(ds, kind)
    ensures |Applied(t, ds, kind)| == |t|
    ensures forall i :: 0 <= i < |t| ==>
      Applied(t, ds, kind)[i] == Cash(t[i].denomination, t[i].quantity + CreditFor(ds, kind, t[i].denomination))
    ensures Denominations(Applied(t, ds, kind)) == Denominations(t)
    ensures ValidTill(t) ==> ValidTill(Applied(t, ds, kind))
  {
    if ds != [] {
      PrefixApplicable(ds, |ds| - 1, kind);
      AppliedAt(t, ds[..|ds| - 1], kind);
    }
  }

  /** Adding `q` to the record of denomination `d` adds `d * q` to the balance, and nothing when `d` is not held. */
  lemma {:induction false} BalanceInc(t: seq<Cash>, d: int, q: int)
    requires Descending(t)
    ensures Balance(Inc(t, d, q)) == Balance(t) + (if Holds(t, d) then d * q else 0)
  {
    if t != [] {
      var n := |t| - 1;
      assert Inc(t, d, q)[..n] == Inc(t[..n], d, q);
      assert Denominations(t) == Denominations(t[..n]) + [t[n].denomination];
      BalanceInc(t[..n], d, q);
      if t[n].denomination == d {
        assert !Holds(t[..n], d);
        assert Worth(Cash(d, t[n].quantity + q)) == Worth(t[n]) + d * q by {
          assert d * (t[n].quantity + q) == d * t[n].quantity + d * q;
        }
      }
    }
  }

  /** An update adds to the balance exactly the worth of the accepted entries the till holds a record for. */
  lemma {:induction false} AppliedBalance(t: seq<Cash>, ds: seq<Detail>, kind: Kind)
    requires ValidTill(t) && Applicable(ds, kind)
    ensures Balance(Applied(t, ds, kind)) == Balance(t) + Credited(t, ds, kind)
  {
    if ds != [] {
      var p := ds[..|ds| - 1];
      PrefixApplicable(ds, |ds| - 1, kind);
      AppliedBalance(t, p, kind);
      AppliedAt(t, p, kind);
      var e := ds[|ds| - 1];
      if Accepted(e, kind) {
        BalanceInc(Applied(t, p, kind), e.denomination.n, e.quantity.n);
      }
    }
  }

  /** When every entry passes and names a held denomination, the update adds the batch's whole worth. */
  lemma {:induction false} CreditedAll(t: seq<Cash>, ds: seq<Detail>, kind: Kind)
    requires AllWhole(ds)
    requires forall i :: 0 <= i < |ds| ==> Accepted(ds[i], kind) && Holds(t, ds[i].denomination.n)
    ensures Applicable(ds, kind) && Credited(t, ds, kind) == Tendered(ds)
  {
    if ds != [] {
      var n := |ds| - 1;
      assert AsCash(ds)[..n] == AsCash(ds[..n]);
      CreditedAll(t, ds[..n], kind);
    }
  }

  lemma {:induction false} CreditSplit(a: seq<Detail>, b: seq<Detail>, kind: Kind, d: int)
    requires Applicable(a + b, kind)
    ensures Applicable(a, kind) && Applicable(b, kind)
    ensures CreditFor(a + b, kind, d) == CreditFor(a, kind, d) + CreditFor(b, kind, d)
  {
    if b == [] {
      assert a + b == a;
    } else {
      var n := |b| - 1;
      assert (a + b)[..|a + b| - 1] == a + b[..n];
      PrefixApplicable(b, n, kind);
      CreditSplit(a, b[..n], kind, d);
    }
  }

  /** The credit a batch gives a denomination depends only on which entries it holds, not on their order. */
  lemma {:induction false} CreditPermutation(ds: seq<Detail>, es: seq<Detail>, kind: Kind, d: int)
    requires Applicable(ds, kind) && multiset(ds) == multiset(es)
    ensures Applicable(es, kind) && CreditFor(ds, kind, d) == CreditFor(es, kind, d)
    decreases |ds|
  {
    assert forall e :: e in es ==> e in multiset(ds);
    if ds == [] {
      assert |es| == |multiset(es)| == 0;
    } else {
      var n := |ds| - 1;
      var x := ds[n];
      assert x in multiset(es);
      var j :| 0 <= j < |es| && es[j] == x;
      var rest := es[..j] + es[j + 1..];
      assert es == es[..j] + [x] + es[j + 1..];
      assert ds == ds[..n] + [x];
      assert multiset(es) == multiset(es[..j]) + multiset{x} + multiset(es[j + 1..]);
      assert multiset(ds) == multiset(ds[..n]) + multiset{x};
      assert multiset(rest) == multiset(es[..j]) + multiset(es[j + 1..]);
      assert multiset(rest) == multiset(es) - multiset{x};
      assert multiset(ds[..n]) == multiset(ds) - multiset{x};
      PrefixApplicable(ds, n, kind);
      CreditPermutation(ds[..n], rest, kind, d);
      CreditSplit(es[..j] + [x], es[j + 1..], kind, d);
      CreditSplit(es[..j], [x], kind, d);
      CreditSplit(es[..j], es[j + 1..], kind, d);
      CreditSplit(ds[..n], [x], kind, d);
    }
  }

  /** The increments commute: applying the same entries in any order leaves the same till. */
  lemma AppliedOrderFree(t: seq<Cash>, ds: seq<Detail>, es: seq<Detail>, kind: Kind)
    requires Applicable(ds, kind) && multiset(ds) == multiset(es)
    ensures Applicable(es, kind) && Applied(t, ds, kind) == Applied(t, es, kind)
  {
    CreditPermutation(ds, es, kind, 0);
    AppliedAt(t, ds, kind);
    AppliedAt(t, es, kind);
    forall i | 0 <= i < |t| ensures Applied(t, ds, kind)[i] == Applied(t, es, kind)[i] {
      CreditPermutation(ds, es, kind, t[i].denomination);
    }
  }

  /** Emptying keeps every denomination, sets every quantity to zero and leaves a zero balance. */
  lemma {:induction false} ZeroedBalance(t: seq<Cash>)
    ensures Denominations(Zeroed(t)) == Denominations(t)
    ensures forall i :: 0 <= i < |t| ==> Zeroed(t)[i].quantity == 0
    ensures Balance(Zeroed(t)) == 0
  {
    if t != [] {
      assert Zeroed(t)[..|t| - 1] == Zeroed(t[..|t| - 1]);
      ZeroedBalance(t[..|t| - 1]);
    }
  }

  /** The status scenario of the repository's tests: five 50000 bills and five 10000 bills are worth 300000. */
  lemma StatusExample()
    ensures Balance([Cash(50000, 5), Cash(10000, 5)]) == 300000
  {
    assert [Cash(50000, 5), Cash(10000, 5)][..1] == [Cash(50000, 5)];
  }

  /** The sum of denomination times quantity of a list of whole-number entries, accumulated entry by entry. */
  method Tally(details: seq<Detail>) returns (total: int)
    requires AllWhole(details)
    ensures total == Tendered(details)
  {
    total := 0;
    var i := 0;
    while i < |details|
      invariant 0 <= i <= |details|
      invariant total == Balance(AsCash(details)[..i])
    {
      assert AsCash(details)[..i + 1][..i] == AsCash(details)[..i];
      total := total + details[i].denomination.n * details[i].quantity.n;
      i := i + 1;
    }
    assert AsCash(details)[..i] == AsCash(details);
  }

  /** The `cash` collection: the till, updated in place. */
  class Till {
    var entries: seq<Cash>

    ghost predicate Valid()
      reads this
    {
      ValidTill(entries)
    }

    /** A till seeded with one record per denomination. */
    constructor (seed: seq<Cash>)
      requires ValidTill(seed)
      ensures Valid() && entries == seed
    {
      entries := seed;
    }

    /** Checks each entry and increments the matching record by the quantity of each entry that passes. */
    method UpdateQuantity(details: seq<Detail>, kind: Kind)
      requires Valid() && Applicable(details, kind)
      modifies this
      ensures Valid()
      ensures entries == Applied(old(entries), details, kind)
    {
      var i := 0;
      while i < |details|
        invariant 0 <= i <= |details|
        invariant Applicable(details[..i], kind)
        invariant entries == Applied(old(entries), details[..i], kind)
      {
        var e := details[i];
        assert details[..i + 1][..i] == details[..i];
        PrefixApplicable(details, i + 1, kind);
        if Accepted(e, kind) {
          entries := Inc(entries, e.denomination.n, e.quantity.n);
        }
        i := i + 1;
      }
      assert details[..i] == details;
      AppliedAt(old(entries), details, kind);
    }

    /** Sets every quantity to zero. */
    method Empty()
      requires Valid()
      modifies this
      ensures Valid()
      ensures entries == Zeroed(old(entries))
      ensures Balance(entries) == 0
    {
      entries := Zeroed(entries);
      ZeroedBalance(old(entries));
    }

    /** The records in descending order of denomination, and the balance accumulated over them. */
    method GetState() returns (balance: int, details: seq<Cash>)
      requires Valid()
      ensures details == entries && Descending(details)
      ensures balance == Balance(entries)
    {
      details := entries;
      balance := 0;
      var i := 0;
      while i < |details|
        invariant 0 <= i <= |details|
        invariant balance == Balance(details[..i])
      {
        assert details[..i + 1][..i] == details[..i];
        balance := balance + details[i].denomination * details[i].quantity;
        i := i + 1;
      }
      assert details[..i] == details;
    }
  }
}
