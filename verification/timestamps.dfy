/**
 * Calendar timestamps as the database column `tanggal_mulai` holds them, with
 * the two textual forms the application meets: MySQL's `YYYY-MM-DD HH:MM:SS`
 * and the ISO-8601 form `YYYY-MM-DDTHH:MM:SS.000Z` that a JSON-serialised
 * JavaScript `Date` takes. Time zones are not modelled: every time is UTC.
 */
module Timestamps {
  import opened Wrappers
  import opened Text

  datatype Date = Date(year: nat, month: nat, day: nat)

  datatype Timestamp = Timestamp(date: Date, hour: nat, minute: nat, second: nat)

  predicate LeapYear(y: nat) {
    y % 4 == 0 && (y % 100 != 0 || y % 400 == 0)
  }

  function DaysInMonth(y: nat, m: nat): nat
    requires 1 <= m <= 12
  {
    if m == 2 then (if LeapYear(y) then 29 else 28)
    else if m == 4 || m == 6 || m == 9 || m == 11 then 30
    else 31
  }

  /** A date the DATETIME column can hold: four-digit year, real month and day. */
  predicate ValidDate(d: Date) {
    d.year <= 9999 && 1 <= d.month <= 12 && 1 <= d.day <= DaysInMonth(d.year, d.month)
  }

  predicate Valid(t: Timestamp) {
    ValidDate(t.date) && t.hour < 24 && t.minute < 60 && t.second < 60
  }

  // ---------------------------------------------------------------------------
  // Order (the `ORDER BY` and `BETWEEN` comparisons)

  /** Calendar order on dates: year, then month, then day. */
  predicate DateLe(a: Date, b: Date) {
    a.year < b.year
    || (a.year == b.year && a.month < b.month)
    || (a.year == b.year && a.month == b.month && a.day <= b.day)
  }

  /** Chronological order on timestamps: date, then hour, minute, second. */
  predicate Le(a: Timestamp, b: Timestamp) {
    if a.date != b.date then DateLe(a.date, b.date)
    else (a.hour < b.hour
          || (a.hour == b.hour && a.minute < b.minute)
          || (a.hour == b.hour && a.minute == b.minute && a.second <= b.second))
  }

  lemma LeTotal(a: Timestamp, b: Timestamp)
    ensures Le(a, b) || Le(b, a)
  {
  }

  lemma LeTransitive(a: Timestamp, b: Timestamp, c: Timestamp)
    requires Le(a, b) && Le(b, c)
    ensures Le(a, c)
  {
  }

  // ---------------------------------------------------------------------------
  // Text forms

  function DateText(d: Date): (s: string)
    requires ValidDate(d)
    ensures |s| == 10
  {
    Pad4(d.year) + "-" + Pad2(d.month) + "-" + Pad2(d.day)
  }

  function ClockText(t: Timestamp): (s: string)
    requires Valid(t)
    ensures |s| == 8
  {
    Pad2(t.hour) + ":" + Pad2(t.minute) + ":" + Pad2(t.second)
  }

  /** MySQL's canonical DATETIME text, `YYYY-MM-DD HH:MM:SS`. */
  function Canonical(t: Timestamp): (s: string)
    requires Valid(t)
    ensures |s| == 19
  {
    DateText(t.date) + " " + ClockText(t)
  }

  /** `Date.prototype.toISOString()` of a whole-second UTC time. */
  function Iso(t: Timestamp): (s: string)
    requires Valid(t)
    ensures |s| == 24
  {
    DateText(t.date) + "T" + ClockText(t) + ".000Z"
  }

  /** The date text holds digits and dashes only, so in particular no `T`. */
  lemma NoLetterInDateText(d: Date)
    requires ValidDate(d)
    ensures 'T' !in DateText(d)
  {
    var s := DateText(d);
    forall i | 0 <= i < 10
      ensures s[i] != 'T'
    {
      if i < 4 {
        assert s[i] == Pad4(d.year)[i];
      } else if 5 <= i < 7 {
        assert s[i] == Pad2(d.month)[i - 5];
      } else if 8 <= i {
        assert s[i] == Pad2(d.day)[i - 8];
      }
    }
  }

  /** Reads `YYYY-MM-DD`; `None` unless the text has that shape and names a real date. */
  function ParseDate(s: string): (r: Option<Date>)
    ensures r.Some? ==> ValidDate(r.value)
  {
    if |s| == 10 && s[4] == '-' && s[7] == '-'
       && AllDigits(s[0..4]) && AllDigits(s[5..7]) && AllDigits(s[8..10])
    then
      var d := Date(DigitsValue(s[0..4]), DigitsValue(s[5..7]), DigitsValue(s[8..10]));
      if ValidDate(d) then Some(d) else None
    else None
  }

  /** Reads `YYYY-MM-DD HH:MM:SS`, as the DATETIME column does on insert. */
  function ParseCanonical(s: string): (r: Option<Timestamp>)
    ensures r.Some? ==> Valid(r.value)
  {
    if |s| == 19 && s[10] == ' ' && s[13] == ':' && s[16] == ':'
       && AllDigits(s[11..13]) && AllDigits(s[14..16]) && AllDigits(s[17..19])
    then
      match ParseDate(s[..10])
      case None => None
      case Some(d) =>
        var t := Timestamp(d, DigitsValue(s[11..13]), DigitsValue(s[14..16]), DigitsValue(s[17..19]));
        if Valid(t) then Some(t) else None
    else None
  }

  lemma ParseDateText(d: Date)
    requires ValidDate(d)
    ensures ParseDate(DateText(d)) == Some(d)
  {
    var s := DateText(d);
    assert s[0..4] == Pad4(d.year);
    assert s[5..7] == Pad2(d.month);
    assert s[8..10] == Pad2(d.day);
    Pad4Value(d.year);
    Pad2Value(d.month);
    Pad2Value(d.day);
  }

  /** Printing a valid timestamp in MySQL's form and reading it back gives the timestamp. */
  lemma ParseCanonicalRoundTrip(t: Timestamp)
    requires Valid(t)
    ensures ParseCanonical(Canonical(t)) == Some(t)
  {
    var s := Canonical(t);
    assert s[..10] == DateText(t.date);
    ParseDateText(t.date);
    assert s[11..13] == Pad2(t.hour);
    assert s[14..16] == Pad2(t.minute);
    assert s[17..19] == Pad2(t.second);
    Pad2Value(t.hour);
    Pad2Value(t.minute);
    Pad2Value(t.second);
  }

  lemma Pad2OfDigits(s: string)
    requires |s| == 2 && AllDigits(s)
    ensures DigitsValue(s) < 100 && Pad2(DigitsValue(s)) == s
  {
    DigitsOfTwo(s);
    var a, b := DigitValue(s[0]), DigitValue(s[1]);
    assert (a * 10 + b) / 10 == a;
    assert (a * 10 + b) % 10 == b;
  }

  lemma HundredsSplit(hi: nat, lo: nat)
    requires lo < 100
    ensures (hi * 100 + lo) / 100 == hi && (hi * 100 + lo) % 100 == lo
  {
  }

  lemma Pad4OfDigits(s: string)
    requires |s| == 4 && AllDigits(s)
    ensures DigitsValue(s) < 10000 && Pad4(DigitsValue(s)) == s
  {
    var front, back := s[..2], s[2..];
    DigitsOfFour(s);
    Pad2OfDigits(front);
    Pad2OfDigits(back);
    var hi, lo := DigitsValue(front), DigitsValue(back);
    var n := DigitsValue(s);
    assert n == hi * 100 + lo;
    HundredsSplit(hi, lo);
    assert Pad4(n) == Pad2(hi) + Pad2(lo);
    assert front + back == s;
  }

  /** Conversely, a text the column accepts is exactly the canonical text of what it read. */
  lemma CanonicalOfParse(s: string)
    requires ParseCanonical(s).Some?
    ensures Canonical(ParseCanonical(s).value) == s
  {
    var t := ParseCanonical(s).value;
    var ds := s[..10];
    Pad4OfDigits(ds[0..4]);
    Pad2OfDigits(ds[5..7]);
    Pad2OfDigits(ds[8..10]);
    Pad2OfDigits(s[11..13]);
    Pad2OfDigits(s[14..16]);
    Pad2OfDigits(s[17..19]);
    assert DateText(t.date) == ds;
    assert ClockText(t) == s[11..19];
    assert s == ds + " " + s[11..19];
  }
}
