/**
 * The textual forms of a date: the `DD-MM-YYYY` string built for the sample
 * data, the `YYYY-MM-DD` form (the calendar date complete representation,
 * extended format, of ISO 8601, section 5.2.1.1) that the ledger stores,
 * `String.prototype.split('-')`, and the rewrite from the first form to the
 * second.
 */
module DateText {
  import opened Wrappers
  import opened Dates

  predicate IsDigit(c: char) {
    '0' <= c <= '9'
  }

  predicate AllDigits(s: string) {
    forall i :: 0 <= i < |s| ==> IsDigit(s[i])
  }

  function DigitChar(d: nat): (c: char)
    requires d < 10
    ensures IsDigit(c) && DigitValue(c) == d
  {
    ('0' as int + d) as char
  }

  function DigitValue(c: char): nat
    requires IsDigit(c)
  {
    c as int - '0' as int
  }

  /** The number a string of decimal digits spells, most significant digit first. */
  function DigitsValue(s: string): nat
    requires AllDigits(s)
    decreases |s|
  {
    if s == [] then 0 else DigitsValue(s[..|s| - 1]) * 10 + DigitValue(s[|s| - 1])
  }

  /** `String(n)` for a non-negative integer: its decimal digits, no leading zero. */
  function DecimalString(n: nat): (s: string)
    ensures 1 <= |s| && AllDigits(s)
    ensures |s| > 1 ==> s[0] != '0'
    decreases n
  {
    if n < 10 then [DigitChar(n)] else DecimalString(n / 10) + [DigitChar(n % 10)]
  }

  /** `s.padStart(width, fill)`. */
  function PadStart(s: string, width: nat, fill: char): (r: string)
    ensures |r| == if |s| < width then width else |s|
    ensures r[|r| - |s|..] == s
    ensures forall i :: 0 <= i < |r| - |s| ==> r[i] == fill
  {
    if |s| < width then seq(width - |s|, _ => fill) + s else s
  }

  /** `String(n).padStart(2, '0')`. */
  function TwoDigits(n: nat): string {
    PadStart(DecimalString(n), 2, '0')
  }

  /** The sample-data date string: `${day}-${month}-${year}`, day and month padded to two digits. */
  function DmyString(d: Date): string {
    TwoDigits(d.day) + "-" + TwoDigits(d.month) + "-" + DecimalString(d.year)
  }

  /** The stored date string: `${year}-${month}-${day}`. */
  function IsoString(d: Date): string {
    DecimalString(d.year) + "-" + TwoDigits(d.month) + "-" + TwoDigits(d.day)
  }

  /** Joins non-empty lists of fields with `-`; the inverse of `Split`. */
  function Join(parts: seq<string>): string
    requires |parts| >= 1
    decreases |parts|
  {
    if |parts| == 1 then parts[0] else parts[0] + "-" + Join(parts[1..])
  }

  predicate NoDash(s: string) {
    '-' !in s
  }

  /** `s.split('-')`: the dash-free fields of `s`, which rejoined with dashes give `s` back. */
  function Split(s: string): (parts: seq<string>)
    ensures |parts| >= 1
    ensures forall i :: 0 <= i < |parts| ==> NoDash(parts[i])
    ensures Join(parts) == s
    decreases |s|
  {
    if s == [] then [""]
    else if s[0] == '-' then
      var rest := Split(s[1..]);
      assert ([""] + rest)[1..] == rest;
      assert s == "-" + s[1..];
      [""] + rest
    else
      var rest := Split(s[1..]);
      var parts := [[s[0]] + rest[0]] + rest[1..];
      assert parts[1..] == rest[1..];
      assert s == [s[0]] + s[1..];
      assert |rest| > 1 ==> Join(rest) == rest[0] + "-" + Join(rest[1..]);
      parts
  }

  /** Field `i` of a destructuring `const [day, month, year] = parts`; a missing one prints as `undefined`. */
  function Field(parts: seq<string>, i: nat): string {
    if i < |parts| then parts[i] else "undefined"
  }

  /** The sample-data rewrite: `const [day, month, year] = s.split('-')` then `${year}-${month}-${day}`. */
  function RewriteDate(s: string): string {
    var parts := Split(s);
    Field(parts, 2) + "-" + Field(parts, 1) + "-" + Field(parts, 0)
  }

  /**
   * Reads a `YYYY-MM-DD` string as a calendar date: four, two and two
   * digits, dash separated, naming a day that exists.
   */
  function ParseIso(s: string): (r: Option<Date>)
    ensures r.Some? ==> ValidDate(r.value)
  {
    if |s| == 10 && s[4] == '-' && s[7] == '-'
       && AllDigits(s[..4]) && AllDigits(s[5..7]) && AllDigits(s[8..])
    then
      var d := Date(DigitsValue(s[..4]), DigitsValue(s[5..7]), DigitsValue(s[8..]));
      if ValidDate(d) then Some(d) else None
    else None
  }

  lemma {:induction false} NoDashInDigits(s: string)
    requires AllDigits(s)
    ensures NoDash(s)
  {
  }

  lemma JoinThree(a: string, b: string, c: string)
    ensures Join([a, b, c]) == a + "-" + b + "-" + c
  {
    assert [a, b, c][1..] == [b, c];
    assert [b, c][1..] == [c];
    assert Join([b, c]) == b + "-" + c;
    assert a + "-" + (b + "-" + c) == a + "-" + b + "-" + c;
  }

  /** Splitting a dash-free field followed by a dash peels that field off. */
  lemma {:induction false} SplitField(a: string, rest: string)
    requires NoDash(a)
    ensures Split(a + "-" + rest) == [a] + Split(rest)
    decreases |a|
  {
    if a == [] {
      assert a + "-" + rest == "-" + rest;
      assert ("-" + rest)[1..] == rest;
    } else {
      var s := a + "-" + rest;
      assert s[1..] == a[1..] + "-" + rest;
      SplitField(a[1..], rest);
      assert [a[0]] + a[1..] == a;
    }
  }

  /** A dash-free string is a single field. */
  lemma {:induction false} SplitSingle(a: string)
    requires NoDash(a)
    ensures Split(a) == [a]
    decreases |a|
  {
    if a != [] {
      SplitSingle(a[1..]);
      assert [a[0]] + a[1..] == a;
    }
  }

  /** Splitting what `Join` built recovers the fields. */
  lemma {:induction false} SplitJoin(parts: seq<string>)
    requires |parts| >= 1
    requires forall i :: 0 <= i < |parts| ==> NoDash(parts[i])
    ensures Split(Join(parts)) == parts
    decreases |parts|
  {
    if |parts| == 1 {
      SplitSingle(parts[0]);
    } else {
      SplitJoin(parts[1..]);
      SplitField(parts[0], Join(parts[1..]));
      assert [parts[0]] + parts[1..] == parts;
    }
  }

  /** A padded two-digit field is made of digits only. */
  lemma PaddedDigits(n: nat)
    ensures AllDigits(TwoDigits(n))
  {
    var s, r := DecimalString(n), TwoDigits(n);
    forall i | 0 <= i < |r|
      ensures IsDigit(r[i])
    {
      if i >= |r| - |s| {
        assert r[i] == r[|r| - |s|..][i - (|r| - |s|)];
      }
    }
  }

  /** Three dash-free fields joined by dashes split back into those three fields. */
  lemma SplitThree(a: string, b: string, c: string)
    requires NoDash(a) && NoDash(b) && NoDash(c)
    ensures Split(a + "-" + b + "-" + c) == [a, b, c]
  {
    JoinThree(a, b, c);
    SplitJoin([a, b, c]);
  }

  /** The rewrite turns the sample-data form of a date into its stored form. */
  lemma RewriteDmyIsIso(d: Date)
    ensures RewriteDate(DmyString(d)) == IsoString(d)
  {
    var dd, mm, yyyy := TwoDigits(d.day), TwoDigits(d.month), DecimalString(d.year);
    PaddedDigits(d.day);
    PaddedDigits(d.month);
    NoDashInDigits(dd);
    NoDashInDigits(mm);
    NoDashInDigits(yyyy);
    SplitThree(dd, mm, yyyy);
  }

  /** Swapping the first and third of three fields twice is the identity. */
  lemma RewriteTwiceIsIdentity(s: string)
    requires |Split(s)| == 3
    ensures RewriteDate(RewriteDate(s)) == s
  {
    var p := Split(s);
    JoinThree(p[2], p[1], p[0]);
    SplitJoin([p[2], p[1], p[0]]);
    JoinThree(p[0], p[1], p[2]);
    assert p == [p[0], p[1], p[2]];
  }

  /** Reading back a decimal string gives the number. */
  lemma {:induction false} DecimalRoundTrip(n: nat)
    ensures DigitsValue(DecimalString(n)) == n
    decreases n
  {
    if n >= 10 {
      DecimalRoundTrip(n / 10);
      var s := DecimalString(n);
      assert s[..|s| - 1] == DecimalString(n / 10);
    } else {
      assert DecimalString(n)[..0] == [];
    }
  }

  /** A number below 100 padded to two digits has two digits and reads back as itself. */
  lemma TwoDigitsRoundTrip(n: nat)
    requires n < 100
    ensures |TwoDigits(n)| == 2 && AllDigits(TwoDigits(n))
    ensures DigitsValue(TwoDigits(n)) == n
  {
    var s := TwoDigits(n);
    if n < 10 {
      assert s == ['0', DigitChar(n)];
      assert s[..1] == ['0'];
      assert ['0'][..0] == [];
    } else {
      assert DecimalString(n / 10) == [DigitChar(n / 10)];
      DecimalRoundTrip(n);
    }
  }

  /** A year from 1000 to 9999 is written with exactly four digits. */
  lemma FourDigitYear(y: nat)
    requires 1000 <= y <= 9999
    ensures |DecimalString(y)| == 4
  {
    assert |DecimalString(y / 1000)| == 1;
    assert |DecimalString(y / 100)| == |DecimalString(y / 1000)| + 1;
    assert |DecimalString(y / 10)| == |DecimalString(y / 100)| + 1;
  }

  /** Where the fields of a `YYYY-MM-DD`-shaped string lie. */
  lemma IsoLayout(y: string, m: string, d: string)
    requires |y| == 4 && |m| == 2 && |d| == 2
    ensures var s := y + "-" + m + "-" + d;
      && |s| == 10 && s[4] == '-' && s[7] == '-'
      && s[..4] == y && s[5..7] == m && s[8..] == d
  {
    var s := y + "-" + m + "-" + d;
    assert s == y + ("-" + m + "-" + d);
    assert s[5..] == m + "-" + d;
  }

  /** A string laid out as `YYYY-MM-DD` in digits is read field by field. */
  lemma ParseLaidOut(y: string, m: string, d: string)
    requires |y| == 4 && |m| == 2 && |d| == 2
    requires AllDigits(y) && AllDigits(m) && AllDigits(d)
    ensures var t := Date(DigitsValue(y), DigitsValue(m), DigitsValue(d));
      ParseIso(y + "-" + m + "-" + d) == if ValidDate(t) then Some(t) else None
  {
    IsoLayout(y, m, d);
  }

  /** The fields of the stored form of a four-digit-year date: digits that read back as the year, month and day. */
  lemma IsoFields(d: Date)
    requires ValidDate(d) && 1000 <= d.year <= 9999
    ensures var y, m, dd := DecimalString(d.year), TwoDigits(d.month), TwoDigits(d.day);
      && |y| == 4 && |m| == 2 && |dd| == 2
      && AllDigits(y) && AllDigits(m) && AllDigits(dd)
      && DigitsValue(y) == d.year && DigitsValue(m) == d.month && DigitsValue(dd) == d.day
  {
    FourDigitYear(d.year);
    DecimalRoundTrip(d.year);
    TwoDigitsRoundTrip(d.month);
    assert d.day <= 31;
    TwoDigitsRoundTrip(d.day);
  }

  /** The stored form of a four-digit-year date reads back as that date. */
  lemma IsoRoundTrip(d: Date)
    requires ValidDate(d) && 1000 <= d.year <= 9999
    ensures ParseIso(IsoString(d)) == Some(d)
  {
    IsoFields(d);
    ParseLaidOut(DecimalString(d.year), TwoDigits(d.month), TwoDigits(d.day));
  }

  /** A sample-data date, once rewritten, names exactly the day it was computed from. */
  lemma RewrittenSampleDate(d: Date)
    requires ValidDate(d) && 1000 <= d.year <= 9999
    ensures ParseIso(RewriteDate(DmyString(d))) == Some(d)
  {
    RewriteDmyIsIso(d);
    IsoRoundTrip(d);
  }

  /** Distinct four-digit-year dates have distinct stored forms, so comparing the strings compares the dates. */
  lemma IsoInjective(a: Date, b: Date)
    requires ValidDate(a) && 1000 <= a.year <= 9999
    requires ValidDate(b) && 1000 <= b.year <= 9999
    ensures IsoString(a) == IsoString(b) <==> a == b
  {
    IsoRoundTrip(a);
    IsoRoundTrip(b);
  }
}
