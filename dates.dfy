/** Calendar dates of the proleptic Gregorian calendar, as Python's
    `datetime.date` has them: ordering, the one-day step of
    `+= timedelta(days=1)` and the `strftime('%Y%m%d')` rendering. */
module Dates {

  import opened Text

  datatype Date = Date(year: int, month: int, day: int)

  predicate IsLeap(y: int) {
    y % 4 == 0 && (y % 100 != 0 || y % 400 == 0)
  }

  function DaysInMonth(y: int, m: int): (n: int)
    requires 1 <= m <= 12
    ensures 28 <= n <= 31
    ensures n == 29 <==> m == 2 && IsLeap(y)
  {
    if m == 2 then (if IsLeap(y) then 29 else 28)
    else if m == 4 || m == 6 || m == 9 || m == 11 then 30
    else 31
  }

  predicate Valid(d: Date) {
    1 <= d.year && 1 <= d.month <= 12 && 1 <= d.day <= DaysInMonth(d.year, d.month)
  }

  /** `a < b` on dates: year, then month, then day. */
  predicate Before(a: Date, b: Date) {
    a.year < b.year
    || (a.year == b.year && a.month < b.month)
    || (a.year == b.year && a.month == b.month && a.day < b.day)
  }

  /** `a <= b` on dates. */
  predicate AtMost(a: Date, b: Date) {
    !Before(b, a)
  }

  /** The first day the spot-price source has data for: 2011-01-04. */
  const FirstDataDate := Date(2011, 1, 4)

  /** `d + timedelta(days=1)`: the next calendar day. */
  function NextDay(d: Date): (r: Date)
    requires Valid(d)
    ensures Valid(r) && Before(d, r)
  {
    if d.day < DaysInMonth(d.year, d.month) then Date(d.year, d.month, d.day + 1)
    else if d.month < 12 then Date(d.year, d.month + 1, 1)
    else Date(d.year + 1, 1, 1)
  }

  /** No valid date lies strictly between a date and the next day: stepping
      by `NextDay` visits every calendar day. */
  lemma NextDayImmediate(d: Date, x: Date)
    requires Valid(d) && Valid(x) && Before(d, x)
    ensures AtMost(NextDay(d), x)
  {
  }

  /** `strftime('%Y%m%d')`: year padded to four digits, month and day to two. */
  function Yyyymmdd(d: Date): (s: string)
    requires Valid(d)
    ensures AllDigits(s)
  {
    PadZeros(DecimalString(d.year), 4) + PadZeros(DecimalString(d.month), 2)
      + PadZeros(DecimalString(d.day), 2)
  }

  /** A number below `10^k` renders in at most `k` digits. */
  lemma {:induction false} DecimalWidth(n: nat, k: nat)
    requires 1 <= k && n < Pow10(k)
    ensures |DecimalString(n)| <= k
  {
    assert Pow10(1) == 10;
    if n >= 10 {
      DecimalWidth(n / 10, k - 1);
    }
  }

  /** A number rendered and padded reads back as itself. */
  lemma ParsePadded(n: nat, w: nat)
    ensures AllDigits(PadZeros(DecimalString(n), w))
    ensures ParseDigits(PadZeros(DecimalString(n), w)) == ParseDigits(DecimalString(n)) == n
  {
    var s := DecimalString(n);
    var r := PadZeros(s, w);
    var z := r[..|r| - |s|];
    assert r == z + s;
    ParseSkipsZeros(z, s);
    ParseDecimal(n);
  }

  /** A number below `10^w` padded to width `w` is exactly `w` digits wide. */
  lemma PaddedWidth(n: nat, w: nat)
    requires 1 <= w && n < Pow10(w)
    ensures |PadZeros(DecimalString(n), w)| == w
  {
    DecimalWidth(n, w);
  }

  /** The three padded fields of a rendering read back as the numbers they render. */
  lemma ReadFields(y: string, m: string, dd: string, year: nat, month: nat, day: nat)
    requires y == PadZeros(DecimalString(year), 4) && |y| == 4
    requires m == PadZeros(DecimalString(month), 2) && |m| == 2
    requires dd == PadZeros(DecimalString(day), 2) && |dd| == 2
    ensures ParseDigits((y + m + dd)[..4]) == year
    ensures ParseDigits((y + m + dd)[4..6]) == month
    ensures ParseDigits((y + m + dd)[6..]) == day
  {
    assert (y + m + dd)[..4] == y && (y + m + dd)[4..6] == m && (y + m + dd)[6..] == dd;
    ParsePadded(year, 4);
    ParsePadded(month, 2);
    ParsePadded(day, 2);
  }

  /** Reads an eight-digit `YYYYMMDD` text back as a date. */
  function ReadYyyymmdd(s: string): Date
    requires |s| == 8 && AllDigits(s)
  {
    Date(ParseDigits(s[..4]), ParseDigits(s[4..6]), ParseDigits(s[6..]))
  }

  /** For years up to 9999 the rendering is eight digits and reads back as the date. */
  lemma YyyymmddRoundTrip(d: Date)
    requires Valid(d) && d.year <= 9999
    ensures |Yyyymmdd(d)| == 8 && ReadYyyymmdd(Yyyymmdd(d)) == d
  {
    var y := PadZeros(DecimalString(d.year), 4);
    var m := PadZeros(DecimalString(d.month), 2);
    var dd := PadZeros(DecimalString(d.day), 2);
    assert Yyyymmdd(d) == y + m + dd;
    assert Pow10(2) == 100;
    assert Pow10(4) == 10000;
    PaddedWidth(d.year, 4);
    PaddedWidth(d.month, 2);
    PaddedWidth(d.day, 2);
    ReadFields(y, m, dd, d.year, d.month, d.day);
  }

  /** Different dates render differently, so a page whose echoed date equals
      the rendering of the requested date is a page for that date. */
  lemma YyyymmddInjective(a: Date, b: Date)
    requires Valid(a) && Valid(b) && a.year <= 9999 && b.year <= 9999
    requires Yyyymmdd(a) == Yyyymmdd(b)
    ensures a == b
  {
    YyyymmddRoundTrip(a);
    YyyymmddRoundTrip(b);
  }
}
