/** Character classes, Python-style slicing and decimal text, as the basis
    pipeline uses them on the scraped cells. Digits are the ASCII digits; the
    CJK class is the range U+4E00..U+9FA5 of the pattern `[一-龥]`. */
module Text {

  import opened Wrappers

  predicate IsDigit(c: char) {
    '0' <= c <= '9'
  }

  /** The character class `[一-龥]`. */
  predicate IsCjk(c: char) {
    '\U{4E00}' <= c <= '\U{9FA5}'
  }

  predicate IsUpper(c: char) {
    'A' <= c <= 'Z'
  }

  predicate AllDigits(s: string) {
    forall i :: 0 <= i < |s| ==> IsDigit(s[i])
  }

  predicate AllCjk(s: string) {
    forall i :: 0 <= i < |s| ==> IsCjk(s[i])
  }

  /** `''.join(re.findall(r'[一-龥]', s))`: the CJK characters of `s`, in order. */
  function CjkOnly(s: string): (r: string)
    ensures AllCjk(r)
    ensures |r| <= |s|
  {
    if s == [] then []
    else (if IsCjk(s[0]) then [s[0]] else []) + CjkOnly(s[1..])
  }

  /** `''.join(re.findall(r'[0-9]', s))`: the ASCII digits of `s`, in order. */
  function DigitsOnly(s: string): (r: string)
    ensures AllDigits(r)
    ensures |r| <= |s|
  {
    if s == [] then []
    else (if IsDigit(s[0]) then [s[0]] else []) + DigitsOnly(s[1..])
  }

  /** Extraction keeps a string made only of CJK characters as it is. */
  lemma {:induction false} CjkOnlyOfCjk(s: string)
    requires AllCjk(s)
    ensures CjkOnly(s) == s
  {
    if s != [] {
      CjkOnlyOfCjk(s[1..]);
    }
  }

  /** A string with no CJK character extracts to the empty string. */
  lemma {:induction false} CjkOnlyOfNonCjk(s: string)
    requires forall i :: 0 <= i < |s| ==> !IsCjk(s[i])
    ensures CjkOnly(s) == []
  {
    if s != [] {
      CjkOnlyOfNonCjk(s[1..]);
    }
  }

  /** Extraction works piece by piece. */
  lemma {:induction false} CjkOnlyAppend(a: string, b: string)
    ensures CjkOnly(a + b) == CjkOnly(a) + CjkOnly(b)
  {
    if a == [] {
      assert a + b == b;
    } else {
      assert (a + b)[1..] == a[1..] + b;
      CjkOnlyAppend(a[1..], b);
    }
  }

  /** `str.lower()` restricted to ASCII letters; every other character is kept. */
  function LowerChar(c: char): (r: char)
    ensures IsUpper(c) ==> r as int == c as int + 32
    ensures !IsUpper(c) ==> r == c
  {
    if IsUpper(c) then (c as int + 32) as char else c
  }

  function Lower(s: string): (r: string)
    ensures |r| == |s|
  {
    if s == [] then [] else [LowerChar(s[0])] + Lower(s[1..])
  }

  /** Each character is lowered on its own. */
  lemma {:induction false} LowerAt(s: string, i: nat)
    requires i < |s|
    ensures Lower(s)[i] == LowerChar(s[i])
  {
    if i > 0 {
      LowerAt(s[1..], i - 1);
    }
  }

  lemma {:induction false} LowerAppend(a: string, b: string)
    ensures Lower(a + b) == Lower(a) + Lower(b)
  {
    if a == [] {
      assert a + b == b;
    } else {
      assert (a + b)[1..] == a[1..] + b;
      LowerAppend(a[1..], b);
    }
  }

  lemma {:induction false} LowerOfDigits(s: string)
    requires AllDigits(s)
    ensures Lower(s) == s
  {
    if s != [] {
      LowerOfDigits(s[1..]);
    }
  }

  /** Python `s[:-n]` for `n > 0`: all but the last `n` characters, or "" when `s` is shorter. */
  function DropLast(s: string, n: nat): (r: string)
  {
    if |s| >= n then s[..|s| - n] else []
  }

  /** Python `s[-n:]` for `n > 0`: the last `n` characters, or all of `s` when it is shorter. */
  function TakeLast(s: string, n: nat): (r: string)
  {
    if |s| >= n then s[|s| - n..] else s
  }

  /** Python `s[lo:hi]` for non-negative bounds: both are clamped to `|s|`. */
  function Slice(s: string, lo: nat, hi: nat): (r: string)
    ensures hi <= |s| && lo <= hi ==> r == s[lo..hi]
    ensures |r| <= hi - lo || hi < lo
    ensures hi > |s| ==> r == Slice(s, lo, |s|)
  {
    var l := if lo < |s| then lo else |s|;
    var h := if hi < |s| then hi else |s|;
    if l <= h then s[l..h] else []
  }

  function DigitChar(d: nat): (c: char)
    requires d < 10
    ensures IsDigit(c)
  {
    ('0' as int + d) as char
  }

  function DigitValue(c: char): (d: nat)
    requires IsDigit(c)
    ensures d < 10 && DigitChar(d) == c
  {
    c as int - '0' as int
  }

  /** `str(n)` for a non-negative integer: decimal digits, no leading zero. */
  function DecimalString(n: nat): (s: string)
    ensures s != [] && AllDigits(s)
    ensures s[0] == '0' ==> n == 0
  {
    if n < 10 then [DigitChar(n)] else DecimalString(n / 10) + [DigitChar(n % 10)]
  }

  /** The value of a string of decimal digits (the empty string reads as 0). */
  function ParseDigits(s: string): nat
    requires AllDigits(s)
  {
    if s == [] then 0 else 10 * ParseDigits(s[..|s| - 1]) + DigitValue(s[|s| - 1])
  }

  function Pow10(k: nat): (p: nat)
    ensures p >= 1
  {
    if k == 0 then 1 else 10 * Pow10(k - 1)
  }

  /** The largest value of numpy's `int64`, which `astype('int')` stores. */
  const Int64Max: nat := 0x7FFF_FFFF_FFFF_FFFF

  /** `astype('int')` on the text the contract-label regex leaves: defined
      exactly when the text is a non-empty run of ASCII digits whose value
      fits an `int64`; a larger value raises OverflowError. */
  function ParseInt(s: string): (r: Option<nat>)
    ensures r.Some? <==> s != [] && AllDigits(s) && ParseDigits(s) <= Int64Max
    ensures r.Some? ==> r.value <= Int64Max
  {
    if s != [] && AllDigits(s) && ParseDigits(s) <= Int64Max then Some(ParseDigits(s)) else None
  }

  /** A digit string without a leading zero is worth at least `10^(|t|-1)`. */
  lemma {:induction false} ParseAtLeast(t: string)
    requires t != [] && AllDigits(t) && t[0] != '0'
    ensures ParseDigits(t) >= Pow10(|t| - 1)
  {
    if |t| > 1 {
      ParseAtLeast(t[..|t| - 1]);
    }
  }

  lemma {:induction false} Pow10Grows(a: nat, b: nat)
    requires a <= b
    ensures Pow10(a) <= Pow10(b)
    decreases b
  {
    if a < b {
      Pow10Grows(a, b - 1);
    }
  }

  /** Twenty or more digits without a leading zero overflow an `int64`. */
  lemma LongRunOverflows(t: string)
    requires AllDigits(t) && |t| >= 20 && t[0] != '0'
    ensures ParseInt(t) == None
  {
    ParseAtLeast(t);
    Pow10Grows(19, |t| - 1);
    assert Pow10(10) == 10_000_000_000;
    assert Pow10(19) == 10_000_000_000_000_000_000;
  }

  /** `s` without its leading '0' characters. */
  function StripZeros(s: string): (r: string)
    ensures |r| <= |s| && s == s[..|s| - |r|] + r
    ensures r == [] || r[0] != '0'
    ensures forall i :: 0 <= i < |s| - |r| ==> s[i] == '0'
  {
    if s != [] && s[0] == '0' then StripZeros(s[1..]) else s
  }

  /** Rendering then parsing gives the number back. */
  lemma {:induction false} ParseDecimal(n: nat)
    ensures ParseDigits(DecimalString(n)) == n
  {
    if n >= 10 {
      var s := DecimalString(n);
      assert s[..|s| - 1] == DecimalString(n / 10);
      ParseDecimal(n / 10);
    }
  }

  lemma {:induction false} ParseOfZeros(z: string)
    requires forall i :: 0 <= i < |z| ==> z[i] == '0'
    ensures AllDigits(z) && ParseDigits(z) == 0
  {
    if z != [] {
      ParseOfZeros(z[..|z| - 1]);
    }
  }

  /** Leading zeros do not change the value of a digit string. */
  lemma {:induction false} ParseSkipsZeros(z: string, t: string)
    requires forall i :: 0 <= i < |z| ==> z[i] == '0'
    requires AllDigits(t)
    ensures AllDigits(z + t) && ParseDigits(z + t) == ParseDigits(t)
  {
    if t == [] {
      assert z + t == z;
      ParseOfZeros(z);
    } else {
      var t' := t[..|t| - 1];
      assert (z + t)[..|z + t| - 1] == z + t';
      ParseSkipsZeros(z, t');
    }
  }

  lemma {:induction false} ParsePositive(t: string)
    requires t != [] && AllDigits(t) && t[0] != '0'
    ensures ParseDigits(t) >= 1
  {
    if |t| > 1 {
      ParsePositive(t[..|t| - 1]);
    }
  }

  /** Parsing then rendering gives back a digit string that has no leading zero. */
  lemma {:induction false} DecimalOfParse(t: string)
    requires t != [] && AllDigits(t) && t[0] != '0'
    ensures DecimalString(ParseDigits(t)) == t
  {
    if |t| > 1 {
      var t' := t[..|t| - 1];
      ParsePositive(t');
      DecimalOfParse(t');
      var v := DigitValue(t[|t| - 1]);
      var a := ParseDigits(t');
      assert ParseDigits(t) == 10 * a + v;
      assert (10 * a + v) / 10 == a && (10 * a + v) % 10 == v;
      assert t == t' + [t[|t| - 1]];
    }
  }

  /** `str(int(s))` for a digit string: its leading zeros are dropped, and an
      all-zero string renders as "0". */
  lemma DecimalOfDigits(s: string)
    requires s != [] && AllDigits(s)
    ensures DecimalString(ParseDigits(s)) == if StripZeros(s) == [] then "0" else StripZeros(s)
  {
    var t := StripZeros(s);
    var z := s[..|s| - |t|];
    assert s == z + t;
    ParseSkipsZeros(z, t);
    if t == [] {
      assert ParseDigits(t) == 0;
    } else {
      DecimalOfParse(t);
    }
  }

  /** A four-digit number renders as four characters. */
  lemma DecimalFourDigits(n: nat)
    requires 1000 <= n <= 9999
    ensures |DecimalString(n)| == 4
  {
    assert DecimalString(n / 1000) == [DigitChar(n / 1000)];
    assert |DecimalString(n / 100)| == 2;
    assert |DecimalString(n / 10)| == 3;
  }

  /** `n` characters '0'. */
  function Zeros(n: nat): (z: string)
    ensures |z| == n && forall i :: 0 <= i < n ==> z[i] == '0'
  {
    seq(n, i => '0')
  }

  /** `s` padded on the left with '0' up to width `w`. */
  function PadZeros(s: string, w: nat): (r: string)
    ensures |r| == if |s| >= w then |s| else w
    ensures r[|r| - |s|..] == s
    ensures forall i :: 0 <= i < |r| - |s| ==> r[i] == '0'
  {
    if |s| >= w then s else Zeros(w - |s|) + s
  }
}
