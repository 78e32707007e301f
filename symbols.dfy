/** The per-cell transforms of the basis table: which label rows are
    commodities, the spot-unit correction, the contract code built from a
    scraped contract label, and the basis figures. */
module Symbols {

  import opened Wrappers
  import opened Text

  /** The header and metadata labels of the scraped table: "commodity",
      "price" and the names of the Shanghai, Zhengzhou and Dalian exchanges. */
  const Boilerplate: set<string> :=
    {"商品", "价格", "上海期货交易所", "郑州商品交易所", "大连商品交易所"}

  /** The label of the one commodity quoted in Latin letters. */
  const Pta := "PTA"

  /** The key a row label is looked up under in the name map, or None when
      the row is not a commodity row and is skipped. "PTA" is kept as it is;
      any other cell keeps only its CJK characters. */
  function LabelKey(cell: string): (r: Option<string>)
    ensures r.Some? ==> r.value != [] && r.value !in Boilerplate
    ensures r.Some? ==> r.value == Pta || (AllCjk(r.value) && |r.value| <= |cell|)
    ensures r == None <==> cell != Pta && (CjkOnly(cell) == [] || CjkOnly(cell) in Boilerplate)
    ensures cell == Pta ==> r == Some(Pta)
    ensures cell != Pta && r.Some? ==> r.value == CjkOnly(cell)
  {
    var key := if cell == Pta then Pta else CjkOnly(cell);
    if key == [] || key in Boilerplate then None else Some(key)
  }

  /** A header label is skipped whatever digits, letters, spaces or
      punctuation surround it. */
  lemma BoilerplateSkipped(before: string, header: string, after: string)
    requires header in Boilerplate
    requires forall i :: 0 <= i < |before| ==> !IsCjk(before[i])
    requires forall i :: 0 <= i < |after| ==> !IsCjk(after[i])
    ensures LabelKey(before + header + after) == None
  {
    HeaderIsCjk(header);
    CjkOnlyOfCjk(header);
    CjkOnlyOfNonCjk(before);
    CjkOnlyOfNonCjk(after);
    CjkOnlyAppend(before, header);
    CjkOnlyAppend(before + header, after);
    assert CjkOnly(before + header + after) == header;
    PtaKept();
  }

  /** The header labels are made of CJK characters only. */
  lemma HeaderIsCjk(cell: string)
    requires cell in Boilerplate
    ensures AllCjk(cell) && cell != []
  {
    assert AllCjk("商品") && AllCjk("价格") && AllCjk("上海期货交易所")
      && AllCjk("郑州商品交易所") && AllCjk("大连商品交易所");
  }

  /** Each header label, as it stands, is skipped. */
  lemma HeaderLabelsSkipped(cell: string)
    requires cell in Boilerplate
    ensures LabelKey(cell) == None
  {
    BoilerplateSkipped([], cell, []);
    assert [] + cell + [] == cell;
  }

  /** A label with no CJK character (a blank cell, a bare number, a code in
      Latin letters) is skipped, except "PTA". */
  lemma NonCjkSkipped(cell: string)
    requires cell != Pta
    requires forall i :: 0 <= i < |cell| ==> !IsCjk(cell[i])
    ensures LabelKey(cell) == None
  {
    CjkOnlyOfNonCjk(cell);
  }

  /** "PTA" is looked up as "PTA", although it has no CJK character, which the
      general rule would have dropped. */
  lemma PtaKept()
    ensures LabelKey(Pta) == Some(Pta)
    ensures CjkOnly(Pta) == []
  {
    CjkOnlyOfNonCjk(Pta);
  }

  /** The factor the scraped spot price is multiplied by: the egg spot is
      quoted per kilogram against a 500 kg futures lot, the glass spot per
      square metre against a futures price per ton (80 square metres). */
  function NormalizeSpot(symbol: string, spot: real): (r: real)
    ensures symbol == "JD" ==> r == 500.0 * spot
    ensures symbol == "FG" ==> r == 80.0 * spot
    ensures symbol != "JD" && symbol != "FG" ==> r == spot
    ensures r == 0.0 <==> spot == 0.0
    ensures spot > 0.0 ==> r >= spot
  {
    if symbol == "JD" then spot * 500.0
    else if symbol == "FG" then spot * 80.0
    else spot
  }

  // ---- Contract codes ----

  /** The per-exchange symbol lists that decide a contract code's case and
      suffix width. */
  datatype Exchanges = Exchanges(shfe: set<string>, dce: set<string>, czce: set<string>)

  /** Start of the run of digits at the end of `s`. */
  function DigitRunStart(s: string): (q: nat)
    ensures q <= |s| && AllDigits(s[q..])
    ensures q == 0 || !IsDigit(s[q - 1])
  {
    if s != [] && IsDigit(s[|s| - 1]) then DigitRunStart(s[..|s| - 1]) else |s|
  }

  /** Start of the run of non-digits of `s` that ends at `q`. */
  function NonDigitRunStart(s: string, q: nat): (p: nat)
    requires q <= |s|
    ensures p <= q
    ensures forall i :: p <= i < q ==> !IsDigit(s[i])
    ensures p == 0 || IsDigit(s[p - 1])
  {
    if q > 0 && !IsDigit(s[q - 1]) then NonDigitRunStart(s, q - 1) else q
  }

  /** `t` matches `[^0-9]*\d*`: no digit comes before a non-digit. */
  predicate NonDigitsThenDigits(t: string) {
    forall i, j :: 0 <= i < j < |t| && IsDigit(t[i]) ==> IsDigit(t[j])
  }

  /** Where `re.sub` finds its match of `[^0-9]*(\d*)$`: the start of the
      run of non-digits before the trailing run of digits. */
  function MatchStart(s: string): (p: nat)
    ensures p <= |s|
  {
    NonDigitRunStart(s, DigitRunStart(s))
  }

  /** The match starts at the leftmost position from which the rest of `s`
      matches the pattern. */
  lemma MatchStartIsLeftmost(s: string)
    ensures NonDigitsThenDigits(s[MatchStart(s)..])
    ensures forall p' :: 0 <= p' < MatchStart(s) ==> !NonDigitsThenDigits(s[p'..])
  {
    var q := DigitRunStart(s);
    var p := NonDigitRunStart(s, q);
    assert NonDigitsThenDigits(s[p..]) by {
      forall i, j | 0 <= i < j < |s[p..]| && IsDigit(s[p..][i])
        ensures IsDigit(s[p..][j])
      {
        assert s[p..][i] == s[p + i] && s[p..][j] == s[p + j];
        assert s[q..][p + j - q] == s[p + j];
      }
    }
    forall p' | 0 <= p' < p
      ensures !NonDigitsThenDigits(s[p'..])
    {
      assert p < q;
      assert IsDigit(s[p'..][p - 1 - p']) && !IsDigit(s[p'..][p - p']);
    }
  }

  /** `re.sub(r'[^0-9]*(\d*)$', r'\g<1>', label)`: the matched tail is replaced
      by its digit group, and the text before the match is kept. */
  function ContractDigits(cell: string): string {
    cell[..MatchStart(cell)] + cell[DigitRunStart(cell)..]
  }

  /** The trailing digit run of non-digits followed by digits starts after the non-digits. */
  lemma {:induction false} DigitRunAfter(a: string, b: string)
    requires a == [] || !IsDigit(a[|a| - 1])
    requires AllDigits(b)
    ensures DigitRunStart(a + b) == |a|
  {
    if b == [] {
      assert a + b == a;
    } else {
      assert (a + b)[..|a + b| - 1] == a + b[..|b| - 1];
      DigitRunAfter(a, b[..|b| - 1]);
    }
  }

  /** For a label of non-digits followed by digits the regex leaves exactly the digits. */
  lemma ContractDigitsOfLabel(a: string, b: string)
    requires forall i :: 0 <= i < |a| ==> !IsDigit(a[i])
    requires AllDigits(b)
    ensures ContractDigits(a + b) == b
  {
    var s := a + b;
    var q := DigitRunStart(s);
    assert s[|a|..] == b;
    DigitRunAfter(a, b);
    MatchStartIsLeftmost(s);
    assert NonDigitsThenDigits(s[0..]) by {
      assert s[0..] == s;
    }
    assert MatchStart(s) == 0;
  }

  /** The case rule: the code is lower-cased when the code minus its last four
      characters is a Shanghai or Dalian symbol. */
  function CaseRule(x: string, ex: Exchanges): string
  {
    if DropLast(x, 4) in ex.shfe + ex.dce then Lower(x) else x
  }

  /** The Zhengzhou rule: the fourth character from the end is cut out when the
      code minus its last four characters is a Zhengzhou symbol. */
  function CzceRule(x: string, ex: Exchanges): string
  {
    if DropLast(x, 4) in ex.czce then DropLast(x, 4) + TakeLast(x, 3) else x
  }

  /** The case rule keeps the code's length and every character that is not
      a capital letter, digits included; when it applies, every character is
      lower-cased and no capital letter is left, and otherwise the code is
      unchanged. */
  lemma CaseRulePreservesShape(x: string, ex: Exchanges)
    ensures |CaseRule(x, ex)| == |x|
    ensures forall i :: 0 <= i < |x| && !IsUpper(x[i]) ==> CaseRule(x, ex)[i] == x[i]
    ensures DropLast(x, 4) in ex.shfe + ex.dce ==> forall i :: 0 <= i < |x| ==> CaseRule(x, ex)[i] == LowerChar(x[i])
    ensures DropLast(x, 4) !in ex.shfe + ex.dce ==> CaseRule(x, ex) == x
    ensures DropLast(x, 4) in ex.shfe + ex.dce ==> forall i :: 0 <= i < |x| ==> !IsUpper(CaseRule(x, ex)[i])
  {
    forall i | 0 <= i < |x|
      ensures CaseRule(x, ex)[i] == LowerChar(x[i]) || CaseRule(x, ex)[i] == x[i]
      ensures DropLast(x, 4) in ex.shfe + ex.dce ==> CaseRule(x, ex)[i] == LowerChar(x[i])
    {
      LowerAt(x, i);
    }
  }

  /** When the Zhengzhou rule applies to a code of at least four characters,
      it removes the fourth character from the end and nothing else. */
  lemma CzceRuleCutsOne(x: string, ex: Exchanges)
    requires |x| >= 4 && x[..|x| - 4] in ex.czce
    ensures |CzceRule(x, ex)| == |x| - 1
    ensures forall i :: 0 <= i < |x| - 4 ==> CzceRule(x, ex)[i] == x[i]
    ensures forall i :: |x| - 4 <= i < |x| - 1 ==> CzceRule(x, ex)[i] == x[i + 1]
  {
  }

  /** The text the regex leaves reads as an `int64`: a non-empty run of
      digits whose value fits. */
  predicate ContractReads(cell: string) {
    var d := ContractDigits(cell);
    d != [] && AllDigits(d) && ParseDigits(d) <= Int64Max
  }

  /** The contract code of a commodity row: the symbol followed by the
      cell's remaining digits read as an integer, then the two exchange
      rules. None when the digits do not read as an `int64`. */
  function ContractCode(symbol: string, cell: string, ex: Exchanges): (r: Option<string>)
    ensures r.Some? <==> ContractReads(cell)
  {
    match ParseInt(ContractDigits(cell))
    case None => None
    case Some(n) => Some(CzceRule(CaseRule(symbol + DecimalString(n), ex), ex))
  }

  /** For a label such as "rb1901" or "SR0901", the code is the symbol followed
      by the label's digits without their leading zeros (a label of zeros
      gives "0"), before the exchange rules, when the digits fit in an
      `int64`. */
  lemma ContractCodeOfLabel(symbol: string, a: string, b: string, ex: Exchanges)
    requires forall i :: 0 <= i < |a| ==> !IsDigit(a[i])
    requires b != [] && AllDigits(b) && ParseDigits(b) <= Int64Max
    ensures ContractCode(symbol, a + b, ex)
         == Some(CzceRule(CaseRule(symbol + (if StripZeros(b) == [] then "0" else StripZeros(b)), ex), ex))
  {
    ContractDigitsOfLabel(a, b);
    assert ParseInt(b) == Some(ParseDigits(b));
    DecimalOfDigits(b);
  }

  /** Label digits worth more than an `int64` holds give no code. */
  lemma ContractCodeOfLabelTooLarge(symbol: string, a: string, b: string, ex: Exchanges)
    requires forall i :: 0 <= i < |a| ==> !IsDigit(a[i])
    requires AllDigits(b) && ParseDigits(b) > Int64Max
    ensures ContractCode(symbol, a + b, ex) == None
  {
    ContractDigitsOfLabel(a, b);
  }

  /** A label ending in twenty or more digits without a leading zero gives no code. */
  lemma ContractCodeOverflow(symbol: string, a: string, b: string, ex: Exchanges)
    requires forall i :: 0 <= i < |a| ==> !IsDigit(a[i])
    requires AllDigits(b) && |b| >= 20 && b[0] != '0'
    ensures ContractCode(symbol, a + b, ex) == None
  {
    ContractDigitsOfLabel(a, b);
    LongRunOverflows(b);
  }

  /** For a four-digit year-month number the prefix both rules test is the
      symbol itself: a Shanghai or Dalian code is lower-cased whole, a
      Zhengzhou code keeps three digits, and any other code is left as built. */
  lemma ExchangeRulesOnFourDigits(symbol: string, n: nat, ex: Exchanges)
    requires 1000 <= n <= 9999
    ensures var code := CzceRule(CaseRule(symbol + DecimalString(n), ex), ex);
      && ((symbol in ex.shfe + ex.dce && Lower(symbol) !in ex.czce)
          ==> code == Lower(symbol) + DecimalString(n))
      && ((symbol !in ex.shfe + ex.dce && symbol in ex.czce)
          ==> (code == symbol + DecimalString(n)[1..] && |code| == |symbol| + 3
               && AllDigits(code[|symbol|..])))
      && ((symbol !in ex.shfe + ex.dce && symbol !in ex.czce)
          ==> code == symbol + DecimalString(n))
  {
    var digits := DecimalString(n);
    DecimalFourDigits(n);
    var x := symbol + digits;
    assert DropLast(x, 4) == symbol;
    LowerAppend(symbol, digits);
    LowerOfDigits(digits);
    var lowered := Lower(symbol) + digits;
    assert DropLast(lowered, 4) == Lower(symbol);
    assert TakeLast(x, 3) == digits[1..];
    assert (symbol + digits[1..])[|symbol|..] == digits[1..];
  }

  // ---- Basis ----

  /** Settlement price minus spot price. */
  function Basis(price: real, spot: real): (b: real)
    ensures spot + b == price
  {
    price - spot
  }

  /** Settlement price over spot price, minus one. */
  function BasisRate(price: real, spot: real): real
    requires spot != 0.0
  {
    price / spot - 1.0
  }

  /** The basis rate is the basis relative to the spot. */
  lemma RateTimesSpot(price: real, spot: real)
    requires spot != 0.0
    ensures BasisRate(price, spot) * spot == Basis(price, spot)
  {
    calc {
      BasisRate(price, spot) * spot;
      (price / spot) * spot - spot;
      price - spot;
    }
  }

  /** A basis rate as the float division gives it: finite, or an infinity or
      NaN when the spot price is zero. */
  datatype Rate = Finite(value: real) | NonFinite

  function RateOf(price: real, spot: real): (r: Rate)
    ensures r.Finite? <==> spot != 0.0
    ensures r.Finite? ==> r.value == BasisRate(price, spot)
  {
    if spot != 0.0 then Finite(BasisRate(price, spot)) else NonFinite
  }

  /** Over a positive spot the basis and its rate have the same sign. */
  lemma RateSign(price: real, spot: real)
    requires spot > 0.0
    ensures BasisRate(price, spot) > 0.0 <==> Basis(price, spot) > 0.0
    ensures BasisRate(price, spot) == 0.0 <==> price == spot
  {
    RateTimesSpot(price, spot);
  }
}
