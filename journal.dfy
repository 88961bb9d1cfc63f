/**
 * The transaction log: an append-only list of `{create_at, amount, type}`
 * records, listed whole or filtered by day and hour.
 *
 * The log's store formats `create_at` itself (`%d/%m/%Y` and the hour of the
 * day); a `Moment` holds those two formatted values, so every record carries
 * the date string and the hour the store would compute for it.
 */
module Journal {
  import opened Values

  /** The formatted `%d/%m/%Y` date and the hour of a record's `create_at`. */
  datatype Moment = Moment(day: string, hour: int)

  /** A stored record: `create_at` is the date the caller passed, `amount` and `type` are copied unchanged. */
  datatype Transaction = Transaction(createAt: Moment, amount: int, kind: Kind)

  /** A listed record: `{date, hour, amount, type}`. */
  datatype LogLine = LogLine(date: string, hour: int, amount: int, kind: Kind)

  function Line(t: Transaction): LogLine
  {
    LogLine(t.createAt.day, t.createAt.hour, t.amount, t.kind)
  }

  /** The projection of every record, in log order. */
  function Lines(records: seq<Transaction>): seq<LogLine>
  {
    seq(|records|, i requires 0 <= i < |records| => Line(records[i]))
  }

  /** The signed sum of the listed amounts. */
  function Total(lines: seq<LogLine>): int
  {
    if lines == [] then 0 else Total(lines[..|lines| - 1]) + lines[|lines| - 1].amount
  }

  // ---------------------------------------------------------------------------
  // JavaScript's parseInt(s) without a radix

  /** The white space parseInt skips: space, tab, line feed, carriage return, vertical tab, form feed. */
  predicate IsSpace(c: char)
  {
    c == ' ' || c == '\t' || c == '\n' || c == '\r' || c as int == 11 || c as int == 12
  }

  /** The value of a digit in bases up to 36, or 36 for a character that is no digit. */
  function DigitValue(c: char): int
  {
    if '0' <= c <= '9' then c as int - '0' as int
    else if 'a' <= c <= 'z' then c as int - 'a' as int + 10
    else if 'A' <= c <= 'Z' then c as int - 'A' as int + 10
    else 36
  }

  function TrimStart(s: string): string
  {
    if s != [] && IsSpace(s[0]) then TrimStart(s[1..]) else s
  }

  /** The longest prefix of `s` made of digits of `base`. */
  function LeadingDigits(s: string, base: nat): string
  {
    if s != [] && DigitValue(s[0]) < base then [s[0]] + LeadingDigits(s[1..], base) else []
  }

  function DigitsValue(ds: string, base: nat): int
  {
    if ds == [] then 0 else DigitsValue(ds[..|ds| - 1], base) * base + DigitValue(ds[|ds| - 1])
  }

  /**
   * parseInt(s): skip leading white space, take an optional sign, read
   * hexadecimal digits after a `0x` or `0X` prefix and decimal digits
   * otherwise, and stop at the first character that is not a digit. `None`
   * is NaN: no digit was read.
   */
  function ParseInt(s: string): Option<int>
  {
    Signed(TrimStart(s))
  }

  /** An optional sign, then the unsigned part; a minus negates it. */
  function Signed(t: string): Option<int>
  {
    if t != [] && t[0] == '-' then
      Negated(Magnitude(t[1..]))
    else if t != [] && t[0] == '+' then Magnitude(t[1..])
    else Magnitude(t)
  }

  function Negated(m: Option<int>): Option<int>
  {
    match m
    case None => None
    case Some(v) => Some(-v)
  }

  /** The unsigned part: hexadecimal after a `0x` or `0X` prefix, decimal otherwise. */
  function Magnitude(u: string): Option<int>
  {
    var hex := |u| >= 2 && u[0] == '0' && (u[1] == 'x' || u[1] == 'X');
    var base := if hex then 16 else 10;
    var digits := LeadingDigits(if hex then u[2..] else u, base);
    if digits == [] then None else Some(DigitsValue(digits, base))
  }

  function DigitChar(d: nat): char
    requires d < 10
  {
    ('0' as int + d) as char
  }

  /** The decimal numeral of `n`, as `String(n)` writes an integer. */
  function DecimalDigits(n: nat): string
  {
    if n < 10 then [DigitChar(n)] else DecimalDigits(n / 10) + [DigitChar(n % 10)]
  }

  function Decimal(n: int): string
  {
    if n < 0 then "-" + DecimalDigits(-n) else DecimalDigits(n)
  }

  lemma {:induction false} DecimalDigitsValue(n: nat)
    ensures DecimalDigits(n) != []
    ensures forall i :: 0 <= i < |DecimalDigits(n)| ==> DigitValue(DecimalDigits(n)[i]) < 10
    ensures DigitsValue(DecimalDigits(n), 10) == n
  {
    if n >= 10 {
      DecimalDigitsValue(n / 10);
      var ds := DecimalDigits(n);
      assert ds[..|ds| - 1] == DecimalDigits(n / 10);
    }
  }

  lemma {:induction false} LeadingDigitsAll(s: string, base: nat)
    requires forall i :: 0 <= i < |s| ==> DigitValue(s[i]) < base
    ensures LeadingDigits(s, base) == s
  {
    if s != [] {
      LeadingDigitsAll(s[1..], base);
      assert [s[0]] + s[1..] == s;
    }
  }

  /** A non-empty run of decimal digits, which cannot start a hexadecimal prefix, is read in base 10. */
  lemma MagnitudeDigits(ds: string)
    requires ds != [] && forall i :: 0 <= i < |ds| ==> DigitValue(ds[i]) < 10
    ensures Magnitude(ds) == Some(DigitsValue(ds, 10))
  {
    LeadingDigitsAll(ds, 10);
    assert |ds| >= 2 ==> DigitValue(ds[1]) < 10;
  }

  /** A string that starts with a decimal digit is read as it stands. */
  lemma ParseDigits(u: string)
    requires u != [] && DigitValue(u[0]) < 10
    ensures ParseInt(u) == Magnitude(u)
  {
    assert TrimStart(u) == u;
  }

  /** A leading minus negates what follows it. */
  lemma ParseNegated(u: string)
    requires u != [] && DigitValue(u[0]) < 10
    ensures ParseInt("-" + u) == Negated(Magnitude(u))
  {
    var s := "-" + u;
    assert TrimStart(s) == s;
    assert s[1..] == u;
  }

  /** parseInt reads back every integer written in decimal, so an hour given as "22" means 22. */
  lemma ParseIntDecimal(n: int)
    ensures ParseInt(Decimal(n)) == Some(n)
  {
    var m := if n < 0 then -n else n;
    DecimalDigitsValue(m);
    var ds := DecimalDigits(m);
    MagnitudeDigits(ds);
    if n < 0 {
      ParseNegated(ds);
    } else {
      ParseDigits(ds);
    }
  }

  /**
   * The records whose formatted date equals `date` and whose hour equals
   * `hour`, in log order, each as often as it was logged. An hour that did not
   * parse matches nothing.
   */
  function Matching(records: seq<Transaction>, date: string, hour: Option<int>): (lines: seq<LogLine>)
    ensures forall l :: l in lines <==> l in Lines(records) && l.date == date && hour == Some(l.hour)
  {
    if records == [] then []
    else
      var n := |records| - 1;
      var rest := Matching(records[..n], date, hour);
      var l := Line(records[n]);
      assert Lines(records) == Lines(records[..n]) + [l];
      if l.date == date && hour == Some(l.hour) then rest + [l] else rest
  }

  /**
   * The filter drops no duplicate: a matching line is listed exactly as many
   * times as it was logged, and a line that does not match is not listed.
   */
  lemma {:induction false} MatchingCounts(records: seq<Transaction>, date: string, hour: Option<int>)
    ensures forall l :: multiset(Matching(records, date, hour))[l]
                        == (if l.date == date && hour == Some(l.hour) then multiset(Lines(records))[l] else 0)
  {
    if records != [] {
      var n := |records| - 1;
      MatchingCounts(records[..n], date, hour);
      assert Lines(records) == Lines(records[..n]) + [Line(records[n])];
    }
  }

  /**
   * The filter is an equality on the day and the hour, not a range: a record
   * from an earlier hour of the same day is not listed.
   */
  lemma ExactHourExample()
    ensures var records := [Transaction(Moment("25/02/2021", 21), 60000, CHARGE),
                            Transaction(Moment("25/02/2021", 22), -10000, CHANGE)];
            var lines := Matching(records, "25/02/2021", ParseInt("22"));
            lines == [LogLine("25/02/2021", 22, -10000, CHANGE)] && Total(lines) == -10000
  {
    assert ParseInt("22") == Some(22) by {
      ParseIntDecimal(22);
      assert Decimal(22) == "22";
    }
    var records := [Transaction(Moment("25/02/2021", 21), 60000, CHARGE),
                    Transaction(Moment("25/02/2021", 22), -10000, CHANGE)];
    assert records[..1][..0] == [];
    assert records[..1] == [records[0]];
    assert Matching(records[..1], "25/02/2021", Some(22)) == [];
    assert [] + [LogLine("25/02/2021", 22, -10000, CHANGE)] == [LogLine("25/02/2021", 22, -10000, CHANGE)];
  }

  /** Two identical matching records are both listed and both summed. */
  lemma DuplicatesSummed()
    ensures var r := Transaction(Moment("25/02/2021", 21), 60000, CHARGE);
            var lines := Matching([r, r], "25/02/2021", Some(21));
            lines == [Line(r), Line(r)] && Total(lines) == 120000
  {
    var r := Transaction(Moment("25/02/2021", 21), 60000, CHARGE);
    assert [r, r][..1] == [r];
    assert [r][..0] == [];
    assert Matching([r], "25/02/2021", Some(21)) == [Line(r)];
    assert [Line(r), Line(r)][..1] == [Line(r)];
    assert [Line(r)][..0] == [];
    assert Total([Line(r)]) == 60000;
  }

  /** The `transactions` collection. */
  class TransactionLog {
    var records: seq<Transaction>

    constructor ()
      ensures records == []
    {
      records := [];
    }

    /** Appends one record; earlier records are never changed. */
    method Create(t: Transaction)
      modifies this
      ensures records == old(records) + [t]
    {
      records := records + [t];
    }

    /** One listed item per stored record, carrying that record's date, hour, amount and type. */
    function GetAll(): (lines: seq<LogLine>)
      reads this
      ensures |lines| == |records|
      ensures forall i :: 0 <= i < |records| ==>
        && lines[i].amount == records[i].amount && lines[i].kind == records[i].kind
        && lines[i].date == records[i].createAt.day && lines[i].hour == records[i].createAt.hour
    {
      Lines(records)
    }

    /**
     * The records of one day and hour, with the sum of their amounts
     * accumulated one by one; the sum is 0 when nothing matches.
     */
    method GetByDate(date: string, hour: string) returns (balance: int, lines: seq<LogLine>)
      ensures lines == Matching(records, date, ParseInt(hour))
      ensures forall l :: l in lines <==> l in GetAll() && l.date == date && ParseInt(hour) == Some(l.hour)
      ensures forall l :: multiset(lines)[l]
                          == (if l.date == date && ParseInt(hour) == Some(l.hour) then multiset(GetAll())[l] else 0)
      ensures balance == Total(lines)
      ensures lines == [] ==> balance == 0
    {
      lines := Matching(records, date, ParseInt(hour));
      MatchingCounts(records, date, ParseInt(hour));
      balance := 0;
      var i := 0;
      while i < |lines|
        invariant 0 <= i <= |lines|
        invariant balance == Total(lines[..i])
      {
        assert lines[..i + 1][..i] == lines[..i];
        balance := balance + lines[i].amount;
        i := i + 1;
      }
      assert lines[..i] == lines;
    }
  }
}
