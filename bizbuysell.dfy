/**
 * The search-results side of the BizBuySell parser: the summary fields read off one
 * listing card, the de-duplication of the cards of a results page, and the choice of
 * the next results page. A card is the record of texts the HTML selectors would find.
 */
module BizBuySell {
  import opened Wrappers
  import opened Text
  import opened Sorting

  const RetirementKeywords: seq<string> := [
    "retire", "retiring", "retirement", "ready to retire", "planning to retire",
    "owner ready to retire", "ready to sell", "owner retiring", "seller retiring",
    "owner is retiring", "retirement sale", "selling due to retirement",
    "exit due to retirement", "owner seeking retirement", "retirement plans",
    "sell due to retirement", "owners retiring", "retire and move"
  ]

  const Categories: seq<string> := [
    "Restaurant", "Liquor Store", "Convenience Store", "Gas Station", "Retail",
    "Auto Repair", "Dental Practice", "Medical Practice", "Manufacturing", "Distribution",
    "Service", "Technology", "E-commerce", "Online Business", "Franchise", "Cafe", "Bar",
    "Hotel", "Motel", "Storage", "Laundromat", "Car Wash", "Fitness", "Gym", "Salon", "Spa",
    "Construction", "Landscaping"
  ]

  // ---------------------------------------------------------------- price

  predicate IsNumChar(c: char) {
    IsDigit(c) || c == '.'
  }

  predicate NoNumChar(s: string) {
    forall i :: 0 <= i < |s| ==> !IsNumChar(s[i])
  }

  /** The length of the run of digits and dots that starts `t`. */
  function NumRunLength(t: string): (n: nat)
    ensures n <= |t|
    ensures forall i :: 0 <= i < n ==> IsNumChar(t[i])
    ensures n < |t| ==> !IsNumChar(t[n])
  {
    if t == [] || !IsNumChar(t[0]) then 0 else 1 + NumRunLength(t[1..])
  }

  /** `re.search(r"[\d.]+", s)`: the leftmost maximal run of digits and dots. */
  function FirstNumericRun(s: string): (r: Option<string>)
    ensures r.None? <==> NoNumChar(s)
    ensures r.Some? ==> r.value != [] && forall i :: 0 <= i < |r.value| ==> IsNumChar(r.value[i])
  {
    if s == [] then None
    else if IsNumChar(s[0]) then Some(s[..NumRunLength(s)])
    else
      assert NoNumChar(s[1..]) ==> NoNumChar(s) by {
        if NoNumChar(s[1..]) {
          forall i | 1 <= i < |s| ensures !IsNumChar(s[i]) { assert s[i] == s[1..][i - 1]; }
        }
      }
      FirstNumericRun(s[1..])
  }

  /** `re.sub(r"[^\d.]", "", s)`: only the digits and dots, in order. */
  function KeepNumChars(s: string): (r: string)
    ensures forall i :: 0 <= i < |r| ==> IsNumChar(r[i])
    ensures r == [] <==> NoNumChar(s)
  {
    if s == [] then []
    else if IsNumChar(s[0]) then [s[0]] + KeepNumChars(s[1..])
    else
      assert NoNumChar(s[1..]) ==> NoNumChar(s) by {
        if NoNumChar(s[1..]) {
          forall i | 1 <= i < |s| ensures !IsNumChar(s[i]) { assert s[i] == s[1..][i - 1]; }
        }
      }
      KeepNumChars(s[1..])
  }

  /** The exact decimal `units / 10^scale`. */
  datatype Decimal = Decimal(units: nat, scale: nat)

  function Pow10(n: nat): (r: nat)
    ensures r >= 1
  {
    if n == 0 then 1 else 10 * Pow10(n - 1)
  }

  predicate HasDigit(d: string) {
    exists i | 0 <= i < |d| :: IsDigit(d[i])
  }

  predicate AtMostOneDot(d: string) {
    forall i, j :: 0 <= i < j < |d| && d[i] == '.' ==> d[j] != '.'
  }

  /** Without a dot, a text of digits and dots is all digits. */
  lemma NoDotAllDigits(d: string)
    requires forall i :: 0 <= i < |d| ==> IsNumChar(d[i])
    requires '.' !in d
    ensures AllDigits(d) && AtMostOneDot(d)
    ensures HasDigit(d) <==> d != []
  {
    forall k | 0 <= k < |d| ensures IsDigit(d[k]) {
      assert d[k] in d;
    }
    assert d != [] ==> IsDigit(d[0]);
  }

  /** `d.find(".")` is the position of the first dot. */
  lemma FirstDot(d: string, i: nat)
    requires IndexOf(d, ".") == i
    ensures i < |d| && d[i] == '.' && forall k :: 0 <= k < i ==> d[k] != '.'
  {
    assert d[i..i + 1] == ".";
    forall k | 0 <= k < i ensures d[k] != '.' {
      assert !OccursAt(d, ".", k);
      assert d[k..k + 1] == [d[k]];
    }
  }

  /** Removing the first dot: the rest is all digits exactly when no second dot occurs. */
  lemma OneDotLeft(d: string, i: nat)
    requires forall k :: 0 <= k < |d| ==> IsNumChar(d[k])
    requires i < |d| && d[i] == '.' && forall k :: 0 <= k < i ==> d[k] != '.'
    ensures AtMostOneDot(d) <==> AllDigits(d[..i] + d[i + 1..])
  {
    var digits := d[..i] + d[i + 1..];
    forall k | 0 <= k < |digits| ensures digits[k] == (if k < i then d[k] else d[k + 1]) {
    }
    if AllDigits(digits) {
      forall a, b | 0 <= a < b < |d| && d[a] == '.' ensures d[b] != '.' {
        assert b > i;
        assert d[b] == digits[b - 1];
      }
    }
    if AtMostOneDot(d) {
      forall k | 0 <= k < |digits| ensures IsDigit(digits[k]) {
        if k >= i {
          assert d[k + 1] == digits[k] && i < k + 1;
        }
      }
    }
  }

  /** With the first dot removed and the rest all digits, some digit occurs iff the rest is not empty. */
  lemma OneDotDigits(d: string, i: nat)
    requires i < |d| && d[i] == '.'
    ensures AllDigits(d[..i] + d[i + 1..]) ==> (HasDigit(d) <==> d[..i] + d[i + 1..] != [])
  {
    var digits := d[..i] + d[i + 1..];
    if digits != [] && AllDigits(digits) {
      assert IsDigit(digits[0]);
      if i > 0 { assert d[0] == digits[0]; } else { assert d[1] == digits[0]; }
    }
    if HasDigit(d) {
      var k :| 0 <= k < |d| && IsDigit(d[k]);
      assert k != i;
    }
  }

  /**
   * `float(d)` on a text of digits and dots: it is a number exactly when it has at most
   * one dot and at least one digit; otherwise `float` raises ValueError (None here).
   */
  function FloatOf(d: string): (r: Option<Decimal>)
    requires forall i :: 0 <= i < |d| ==> IsNumChar(d[i])
    ensures r.Some? <==> HasDigit(d) && AtMostOneDot(d)
  {
    ContainsChar(d, '.');
    var i := IndexOf(d, ".");
    if i < 0 then
      NoDotAllDigits(d);
      if d != [] && AllDigits(d) then Some(Decimal(DigitsValue(d), 0)) else None
    else
      FirstDot(d, i);
      var whole := d[..i];
      var frac := d[i + 1..];
      OneDotLeft(d, i);
      OneDotDigits(d, i);
      var digits := whole + frac;
      if digits != [] && AllDigits(digits) then Some(Decimal(DigitsValue(digits), |frac|)) else None
  }

  /** `int(x * factor)` for a non-negative decimal `x`: the product truncated toward zero. */
  function Scale(x: Decimal, factor: nat): int {
    x.units * factor / Pow10(x.scale)
  }

  /** A "million"/"k" amount: `float` of the first numeric run, whose ValueError escapes. */
  function ScaledPrice(run: string, factor: nat): (r: Result<Option<int>>)
    requires forall i :: 0 <= i < |run| ==> IsNumChar(run[i])
  {
    match FloatOf(run)
    case Some(x) => Ok(Some(Scale(x, factor)))
    case None => Err("ValueError")
  }

  /**
   * `_parse_price`. `Err` is the ValueError of `float` in the "million" and "k" branches,
   * which is not caught there; in the last branch it is caught and gives None.
   */
  function ParsePrice(text: string): (r: Result<Option<int>>)
    ensures text == [] ==> r == Ok(None)
    ensures NoNumChar(text) ==> r == Ok(None)
    ensures r.Err? ==> Contains(Lower(Strip(text)), "million") || Contains(Lower(Strip(text)), "k")
  {
    if text == [] then Ok(None)
    else
      var t := Strip(text);
      assert NoNumChar(text) ==> NoNumChar(t) by {
        if t != [] {
          forall i | 0 <= i < |t| ensures t[i] == text[LeadingSpace(text) + i] { }
        }
      }
      var lower := Lower(t);
      var run := FirstNumericRun(t);
      if Contains(lower, "million") && run.Some? then ScaledPrice(run.value, 1000000)
      else if Contains(lower, "k") && run.Some? then ScaledPrice(run.value, 1000)
      else
        var cleaned := KeepNumChars(t);
        if cleaned == [] then Ok(None)
        else
          match FloatOf(cleaned)
          case Some(x) => Ok(Some(Scale(x, 1)))
          case None => Ok(None)
  }

  /** `float` of a decimal numeral reads its value. */
  lemma FloatOfNatToString(n: nat)
    ensures FloatOf(NatToString(n)) == Some(Decimal(n, 0))
  {
    var d := NatToString(n);
    NotContainsByFirstChar(d, ".");
    DigitsValueOfNatToString(n);
  }

  /** A text none of whose characters starts `p` does not contain `p`. */
  lemma NotContainsByFirstChar(s: string, p: string)
    requires p != [] && forall i :: 0 <= i < |s| ==> s[i] != p[0]
    ensures !Contains(s, p)
  {
    forall j | 0 <= j <= |s| - |p| ensures !OccursAt(s, p, j) {
      assert s[j..j + |p|][0] == s[j];
    }
  }

  /** The leading numeric run of `d + rest` is `d` when `rest` does not continue it. */
  lemma {:induction false} NumRunOfPrefix(d: string, rest: string)
    requires forall i :: 0 <= i < |d| ==> IsNumChar(d[i])
    requires rest == [] || !IsNumChar(rest[0])
    ensures NumRunLength(d + rest) == |d|
  {
    if d != [] {
      assert (d + rest)[1..] == d[1..] + rest;
      NumRunOfPrefix(d[1..], rest);
    }
  }

  /**
   * A text whose stripped, lower-cased form has neither "million" nor "k" reads the
   * digits and dots left in it, truncated toward zero.
   */
  lemma ParsePricePlainBranch(text: string, x: Decimal)
    requires text != []
    requires !Contains(Lower(Strip(text)), "million") && !Contains(Lower(Strip(text)), "k")
    requires FloatOf(KeepNumChars(Strip(text))) == Some(x)
    ensures ParsePrice(text) == Ok(Some(Scale(x, 1)))
  {
  }

  /** In the last branch, digits and dots that `float` rejects ("1.2.3") give None: the ValueError is caught. */
  lemma ParsePricePlainUnreadable(text: string)
    requires text != []
    requires !Contains(Lower(Strip(text)), "million") && !Contains(Lower(Strip(text)), "k")
    requires FloatOf(KeepNumChars(Strip(text))).None?
    ensures ParsePrice(text) == Ok(None)
  {
  }

  /** A plain amount such as "$350,000": the digits, read as a whole number. */
  lemma PricePlain(text: string, n: nat)
    requires forall i :: 0 <= i < |text| ==> IsDigit(text[i]) || text[i] == '$' || text[i] == ','
    requires KeepNumChars(text) == NatToString(n)
    ensures ParsePrice(text) == Ok(Some(n))
  {
    PlainPriceText(text, n);
    FloatOfNatToString(n);
    ParsePricePlainBranch(text, Decimal(n, 0));
    ScaleWhole(n, 1);
  }

  /** Such a text is already stripped and lower-case, and names no "million" or "k". */
  lemma PlainPriceText(text: string, n: nat)
    requires forall i :: 0 <= i < |text| ==> IsDigit(text[i]) || text[i] == '$' || text[i] == ','
    requires KeepNumChars(text) == NatToString(n)
    ensures text != [] && Strip(text) == text
    ensures !Contains(Lower(text), "million") && !Contains(Lower(text), "k")
  {
    assert text != [] && IsStripped(text);
    StripStripped(text);
    LowerIdentity(text);
    NotContainsByFirstChar(text, "million");
    NotContainsByFirstChar(text, "k");
  }

  /** A whole number is scaled exactly. */
  lemma ScaleWhole(n: nat, factor: nat)
    ensures Scale(Decimal(n, 0), factor) == n * factor
  {
    assert Pow10(0) == 1;
  }

  /**
   * A text whose stripped, lower-cased form has "k" but not "million" scales the first
   * numeric run of the stripped text by 1000 ("$45K" and " 45k " alike).
   */
  lemma ParsePriceThousandBranch(text: string, run: string)
    requires text != []
    requires !Contains(Lower(Strip(text)), "million") && Contains(Lower(Strip(text)), "k")
    requires FirstNumericRun(Strip(text)) == Some(run)
    ensures ParsePrice(text) == ScaledPrice(run, 1000)
  {
  }

  /** `run + "k"` for a numeric run meets every condition of the thousands branch. */
  lemma ThousandText(run: string)
    requires run != [] && forall i :: 0 <= i < |run| ==> IsNumChar(run[i])
    ensures var text := run + "k";
      IsStripped(text) && Lower(text) == text && !Contains(text, "million")
      && Contains(text, "k") && FirstNumericRun(text) == Some(run)
  {
    var text := run + "k";
    assert text[0] == run[0] && text[|text| - 1] == 'k';
    LowerIdentity(text);
    assert forall i :: 0 <= i < |text| ==> text[i] != 'm';
    NotContainsByFirstChar(text, "million");
    assert OccursAt(text, "k", |run|);
    NumRunOfPrefix(run, "k");
    assert text[..|run|] == run;
  }

  /** "45k": thousands. */
  lemma PriceThousands(n: nat)
    ensures ParsePrice(NatToString(n) + "k") == Ok(Some(n * 1000))
  {
    var d := NatToString(n);
    ThousandText(d);
    StripStripped(d + "k");
    ParsePriceThousandBranch(d + "k", d);
    FloatOfNatToString(n);
    ScaleWhole(n, 1000);
  }

  /**
   * A text whose stripped, lower-cased form has "million" scales the first numeric run
   * of the stripped text by 1,000,000 ("$1.2 Million" and " 3 million " alike).
   */
  lemma ParsePriceMillionBranch(text: string, run: string)
    requires text != []
    requires Contains(Lower(Strip(text)), "million") && FirstNumericRun(Strip(text)) == Some(run)
    ensures ParsePrice(text) == ScaledPrice(run, 1000000)
  {
  }

  /** `run + " million"` for a numeric run meets every condition of the millions branch. */
  lemma MillionText(run: string)
    requires run != [] && forall i :: 0 <= i < |run| ==> IsNumChar(run[i])
    ensures var text := run + " million";
      IsStripped(text) && Lower(text) == text
      && Contains(text, "million") && FirstNumericRun(text) == Some(run)
  {
    var text := run + " million";
    assert text[0] == run[0];
    forall i | 0 <= i < |text| ensures !('A' <= text[i] <= 'Z') {
      if i >= |run| { assert text[i] == " million"[i - |run|]; }
    }
    LowerIdentity(text);
    assert OccursAt(text, "million", |run| + 1);
    NumRunOfPrefix(run, " million");
    assert text[..|run|] == run;
  }

  /** "3 million": millions. */
  lemma PriceMillions(n: nat)
    ensures ParsePrice(NatToString(n) + " million") == Ok(Some(n * 1000000))
  {
    var d := NatToString(n);
    MillionText(d);
    StripStripped(d + " million");
    ParsePriceMillionBranch(d + " million", d);
    FloatOfNatToString(n);
    ScaleWhole(n, 1000000);
  }

  /** `float` of "whole.frac" is the exact decimal with |frac| places. */
  lemma FloatOfDecimal(whole: string, frac: string)
    requires AllDigits(whole) && AllDigits(frac) && whole + frac != []
    ensures FloatOf(whole + "." + frac) == Some(Decimal(DigitsValue(whole + frac), |frac|))
  {
    var d := whole + "." + frac;
    assert OccursAt(d, ".", |whole|);
    forall j | 0 <= j < |whole| ensures !OccursAt(d, ".", j) {
      assert d[j..j + 1][0] == whole[j];
    }
    assert IndexOf(d, ".") == |whole|;
    assert d[..|whole|] == whole && d[|whole| + 1..] == frac;
  }

  /** "1.25 million": the decimals are kept, then the product is truncated. */
  lemma PriceMillionsDecimal(whole: string, frac: string)
    requires AllDigits(whole) && AllDigits(frac) && whole + frac != []
    ensures ParsePrice(whole + "." + frac + " million")
      == Ok(Some(DigitsValue(whole + frac) * 1000000 / Pow10(|frac|)))
  {
    var run := whole + "." + frac;
    assert forall i :: 0 <= i < |run| ==> IsNumChar(run[i]);
    MillionText(run);
    StripStripped(run + " million");
    ParsePriceMillionBranch(run + " million", run);
    FloatOfDecimal(whole, frac);
  }

  // ---------------------------------------------------------------- location

  /**
   * `_parse_location`: the stripped text before the first comma and the stripped text
   * between the first and the second comma; without a comma, the stripped whole.
   */
  function ParseLocation(text: string): (r: (string, string))
    ensures IsStripped(r.0) && IsStripped(r.1)
    ensures !Contains(text, ",") ==> r == (Strip(text), "")
    ensures Contains(text, ",") ==> r == (Strip(Before(text, ",")), Strip(Before(After(text, ","), ",")))
  {
    ContainsChar(text, ',');
    if text == [] then ("", "")
    else
      var parts := Split(text, ',');
      if |parts| >= 2 then (Strip(parts[0]), Strip(parts[1])) else (Strip(text), "")
  }

  /** A "City, ST" text splits back into its city and state. */
  lemma LocationRoundTrip(city: string, state: string)
    requires IsStripped(city) && IsStripped(state)
    requires !Contains(city, ",") && !Contains(state, ",")
    ensures ParseLocation(city + ", " + state) == (city, state)
  {
    var text := city + ", " + state;
    assert text == city + [','] + (" " + state);
    ContainsChar(city, ',');
    BeforeChar(city, ',', " " + state);
    NotContainsAfterCons(' ', state, ",");
    StripStripped(city);
    StripPadded(" ", state, []);
    assert " " + state + [] == " " + state;
  }

  // ---------------------------------------------------------------- cash flow

  const CashFlowLabel: string := "Cash Flow:"

  /**
   * `_extract_cash_flow`: `str.replace` of every "Cash Flow:" label by "", then `strip`;
   * a text without the label is only stripped.
   */
  function CashFlow(text: string): (r: string)
    ensures IsStripped(r)
    ensures |r| <= |text|
    ensures r == Strip(RemoveAll(text, CashFlowLabel))
    ensures !Contains(text, CashFlowLabel) ==> r == Strip(text)
  {
    if text == [] then []
    else
      var r := Strip(RemoveAll(text, CashFlowLabel));
      assert !Contains(text, CashFlowLabel) ==> r == Strip(text) by {
        if !Contains(text, CashFlowLabel) {
          RemoveAllAbsent(text, CashFlowLabel);
        }
      }
      r
  }

  /** The label and the space after it are dropped. */
  lemma CashFlowOfLabelled(v: string)
    requires IsStripped(v) && !Contains(v, CashFlowLabel)
    ensures CashFlow("Cash Flow: " + v) == v
  {
    var p := CashFlowLabel;
    var text := "Cash Flow: " + v;
    assert text[..|p|] == p && text[|p|..] == " " + v;
    NotContainsAfterCons(' ', v, p);
    RemoveAllAbsent(" " + v, p);
    StripPadded(" ", v, []);
    assert " " + v + [] == " " + v;
  }

  // ---------------------------------------------------------------- retirement

  /** Whether some text of `ks` occurs in `s`. */
  function AnyContained(s: string, ks: seq<string>): (r: bool)
    ensures r <==> exists i | 0 <= i < |ks| :: Contains(s, ks[i])
  {
    if ks == [] then false
    else
      assert forall i | 1 <= i < |ks| :: ks[i] == ks[1..][i - 1];
      Contains(s, ks[0]) || AnyContained(s, ks[1..])
  }

  /** `_detect_retirement_keywords`: some keyword occurs in the lower-cased text. */
  function DetectRetirement(text: string): (r: bool)
    ensures r <==> text != [] && exists i | 0 <= i < |RetirementKeywords| :: Contains(Lower(text), RetirementKeywords[i])
  {
    text != [] && AnyContained(Lower(text), RetirementKeywords)
  }

  /** The keyword contains "retire" or "retiring", or is "ready to sell". */
  predicate HasCore(k: string) {
    Contains(k, "retire") || Contains(k, "retiring") || Contains(k, "ready to sell")
  }

  /** A keyword built around one of the three cores has that core. */
  lemma CoreInside(k: string, a: string, p: string, b: string)
    requires p == "retire" || p == "retiring" || p == "ready to sell"
    requires k == a + p + b
    ensures HasCore(k)
  {
    assert k[|a|..|a| + |p|] == p;
    assert OccursAt(k, p, |a|);
  }

  lemma KeywordCoreFirst(i: nat)
    requires i < 6
    ensures HasCore(RetirementKeywords[i])
  {
    if i == 0 {
      CoreInside(RetirementKeywords[i], "", "retire", "");
    } else if i == 1 {
      CoreInside(RetirementKeywords[i], "", "retiring", "");
    } else if i == 2 {
      CoreInside(RetirementKeywords[i], "", "retire", "ment");
    } else if i == 3 {
      CoreInside(RetirementKeywords[i], "ready to ", "retire", "");
    } else if i == 4 {
      CoreInside(RetirementKeywords[i], "planning to ", "retire", "");
    } else {
      CoreInside(RetirementKeywords[i], "owner ready to ", "retire", "");
    }
  }

  lemma KeywordCoreSecond(i: nat)
    requires 6 <= i < 12
    ensures HasCore(RetirementKeywords[i])
  {
    if i == 6 {
      CoreInside(RetirementKeywords[i], "", "ready to sell", "");
    } else if i == 7 {
      CoreInside(RetirementKeywords[i], "owner ", "retiring", "");
    } else if i == 8 {
      CoreInside(RetirementKeywords[i], "seller ", "retiring", "");
    } else if i == 9 {
      CoreInside(RetirementKeywords[i], "owner is ", "retiring", "");
    } else if i == 10 {
      CoreInside(RetirementKeywords[i], "", "retire", "ment sale");
    } else {
      CoreInside(RetirementKeywords[i], "selling due to ", "retire", "ment");
    }
  }

  lemma KeywordCoreThird(i: nat)
    requires 12 <= i < 18
    ensures HasCore(RetirementKeywords[i])
  {
    if i == 12 {
      CoreInside(RetirementKeywords[i], "exit due to ", "retire", "ment");
    } else if i == 13 {
      CoreInside(RetirementKeywords[i], "owner seeking ", "retire", "ment");
    } else if i == 14 {
      CoreInside(RetirementKeywords[i], "", "retire", "ment plans");
    } else if i == 15 {
      CoreInside(RetirementKeywords[i], "sell due to ", "retire", "ment");
    } else if i == 16 {
      CoreInside(RetirementKeywords[i], "owners ", "retiring", "");
    } else {
      CoreInside(RetirementKeywords[i], "", "retire", " and move");
    }
  }

  /** Every keyword contains "retire" or "retiring", or is "ready to sell". */
  lemma KeywordCore(i: nat)
    requires i < |RetirementKeywords|
    ensures HasCore(RetirementKeywords[i])
  {
    if i < 6 {
      KeywordCoreFirst(i);
    } else if i < 12 {
      KeywordCoreSecond(i);
    } else {
      KeywordCoreThird(i);
    }
  }

  /**
   * The eighteen keywords reduce to three: a text is flagged exactly when it contains
   * "retire", "retiring" or "ready to sell", ignoring case.
   */
  lemma RetirementCore(text: string)
    ensures var l := Lower(text);
      DetectRetirement(text) <==> Contains(l, "retire") || Contains(l, "retiring") || Contains(l, "ready to sell")
  {
    var l := Lower(text);
    if DetectRetirement(text) {
      var i :| 0 <= i < |RetirementKeywords| && Contains(l, RetirementKeywords[i]);
      KeywordCore(i);
      var k := RetirementKeywords[i];
      if Contains(k, "retire") {
        ContainsTransitive(l, k, "retire");
      } else if Contains(k, "retiring") {
        ContainsTransitive(l, k, "retiring");
      } else {
        ContainsTransitive(l, k, "ready to sell");
      }
    }
    if Contains(l, "retire") || Contains(l, "retiring") || Contains(l, "ready to sell") {
      assert text != [];
      if Contains(l, "retire") {
        assert Contains(l, RetirementKeywords[0]);
      } else if Contains(l, "retiring") {
        assert Contains(l, RetirementKeywords[1]);
      } else {
        assert Contains(l, RetirementKeywords[6]);
      }
    }
  }

  // ---------------------------------------------------------------- category

  /** Whether category `i`, lower-cased, occurs in the lower-cased title. */
  predicate CategoryMatches(lowerTitle: string, i: nat)
    requires i < |Categories|
  {
    Contains(lowerTitle, Lower(Categories[i]))
  }

  /** The first category from index `k` on that matches. */
  function FirstCategoryFrom(lowerTitle: string, k: nat): (r: Option<nat>)
    requires k <= |Categories|
    decreases |Categories| - k
    ensures r.Some? ==> k <= r.value < |Categories| && CategoryMatches(lowerTitle, r.value)
    ensures r.Some? ==> forall j :: k <= j < r.value ==> !CategoryMatches(lowerTitle, j)
    ensures r.None? ==> forall j :: k <= j < |Categories| ==> !CategoryMatches(lowerTitle, j)
  {
    if k == |Categories| then None
    else if CategoryMatches(lowerTitle, k) then Some(k)
    else FirstCategoryFrom(lowerTitle, k + 1)
  }

  /**
   * `_extract_category_from_title`: the first category in list order that occurs in the
   * title, ignoring case; otherwise the first two words joined by a space, or "".
   */
  function Category(title: string): (r: string)
    ensures (exists i | 0 <= i < |Categories| :: CategoryMatches(Lower(title), i)) ==>
      exists i | 0 <= i < |Categories| :: r == Categories[i] && CategoryMatches(Lower(title), i)
        && forall j :: 0 <= j < i ==> !CategoryMatches(Lower(title), j)
    ensures (forall i | 0 <= i < |Categories| :: !CategoryMatches(Lower(title), i)) ==>
      r == (var ws := Words(title); if |ws| >= 2 then ws[0] + " " + ws[1] else "")
  {
    match FirstCategoryFrom(Lower(title), 0)
    case Some(i) => Categories[i]
    case None =>
      var ws := Words(title);
      if |ws| >= 2 then ws[0] + " " + ws[1] else ""
  }

  lemma CategoryExample()
    ensures Category("Profitable Pizza Restaurant") == "Restaurant"
  {
    var a, b := "Profitable Pizza ", Categories[0];
    assert a + b == "Profitable Pizza Restaurant";
    LowerOfConcat(a, b);
    var l := Lower(a + b);
    assert l[|a|..|a| + |b|] == Lower(b);
    assert OccursAt(l, Lower(b), |a|);
    assert FirstCategoryFrom(l, 0) == Some(0);
  }

  // ---------------------------------------------------------------- id from url

  /** `/digits/` at index `i` of `url`, with `n` digits. */
  predicate IdSegmentAt(url: string, i: int, n: int) {
    && 0 <= i && 1 <= n && i + n + 1 < |url|
    && url[i] == '/' && url[i + n + 1] == '/'
    && forall k :: i < k <= i + n ==> IsDigit(url[k])
  }

  function DigitRunLength(t: string): (n: nat)
    ensures n <= |t|
    ensures forall i :: 0 <= i < n ==> IsDigit(t[i])
    ensures n < |t| ==> !IsDigit(t[n])
  {
    if t == [] || !IsDigit(t[0]) then 0 else 1 + DigitRunLength(t[1..])
  }

  /** The digit count of a segment is the length of the digit run after its slash. */
  lemma IdSegmentLength(url: string, k: nat, m: int)
    requires IdSegmentAt(url, k, m)
    ensures m == DigitRunLength(url[k + 1..])
  {
    var t := url[k + 1..];
    forall x | 0 <= x <= m ensures t[x] == url[k + 1 + x] { }
  }

  /** The first `/digits/` segment at or after index `k`, as (index, digit count). */
  function IdSegmentFrom(url: string, k: nat): (r: Option<(nat, nat)>)
    decreases |url| - k
    ensures r.Some? ==> k <= r.value.0 && IdSegmentAt(url, r.value.0, r.value.1)
    ensures r.Some? ==> forall j, n :: k <= j < r.value.0 ==> !IdSegmentAt(url, j, n)
    ensures r.None? ==> forall j, n :: k <= j ==> !IdSegmentAt(url, j, n)
  {
    if k >= |url| then None
    else
      var n := DigitRunLength(url[k + 1..]);
      assert forall m :: IdSegmentAt(url, k, m) ==> m == n by {
        forall m | IdSegmentAt(url, k, m) ensures m == n {
          IdSegmentLength(url, k, m);
        }
      }
      if url[k] == '/' && 1 <= n && k + n + 1 < |url| && url[k + n + 1] == '/' then
        assert forall x :: k < x <= k + n ==> url[x] == url[k + 1..][x - k - 1];
        Some((k, n))
      else IdSegmentFrom(url, k + 1)
  }

  /**
   * `_extract_id_from_url`: the digits of the leftmost `/digits/` segment
   * (`re.search(r"/(\d+)/", url)`), or "" when there is none.
   */
  function IdFromUrl(url: string): (r: string)
    ensures r == [] <==> forall i, n :: !IdSegmentAt(url, i, n)
    ensures r != [] ==> exists i ::
      && IdSegmentAt(url, i, |r|) && r == url[i + 1..i + 1 + |r|]
      && forall j, n :: 0 <= j < i ==> !IdSegmentAt(url, j, n)
  {
    match IdSegmentFrom(url, 0)
    case Some((i, n)) => url[i + 1..i + 1 + n]
    case None => []
  }

  /** The id is read back from a listing URL built around it. */
  lemma IdFromListingUrl(prefix: string, n: nat, rest: string)
    requires '/' !in prefix
    ensures IdFromUrl(prefix + "/" + NatToString(n) + "/" + rest) == NatToString(n)
  {
    var d := NatToString(n);
    var url := prefix + "/" + d + "/" + rest;
    var i := |prefix|;
    assert url[i] == '/' && url[i + |d| + 1] == '/';
    assert forall k :: i < k <= i + |d| ==> url[k] == d[k - i - 1];
    assert IdSegmentAt(url, i, |d|);
    forall j, m | 0 <= j < i ensures !IdSegmentAt(url, j, m) {
      assert url[j] == prefix[j];
    }
    var found := IdSegmentFrom(url, 0);
    assert found.Some? && found.value.0 == i;
    IdSegmentLength(url, i, |d|);
    IdSegmentLength(url, i, found.value.1);
    assert found == Some((i, |d|));
    assert url[i + 1..i + 1 + |d|] == d;
    assert IdFromUrl(url) == url[i + 1..i + 1 + |d|];
  }

  // ---------------------------------------------------------------- one card

  /**
   * A listing card (`a.diamond`, `a.showcase` or `a.basic`): its `id` and `href`
   * attributes ("" when absent) and the stripped text of each sub-element it has.
   */
  datatype Card = Card(
    id: string,
    href: string,
    title: Option<string>,
    price: Option<string>,
    location: Option<string>,
    cashFlow: Option<string>,
    description: Option<string>)

  /** The summary dictionary `_extract_listing_from_element` returns. */
  datatype Summary = Summary(
    externalId: string,
    title: string,
    category: string,
    askingPrice: Option<int>,
    askingPriceRaw: string,
    city: string,
    state: string,
    locationRaw: string,
    revenue: string,
    cashFlow: string,
    sellerReasonRaw: string,
    url: string,
    isRetirement: bool)

  /**
   * `_extract_listing_from_element`; `resolve` is `urljoin` against the page's base URL.
   * A card without href gives None, and so does the ValueError of the price parse, which
   * the function's `except` turns into None.
   */
  function ExtractListing(card: Card, resolve: string -> string): (r: Option<Summary>)
    ensures r.None? <==> card.href == [] || (card.price.Some? && ParsePrice(card.price.value).Err?)
    ensures r.Some? ==> var url := resolve(card.href);
      && r.value.url == url
      && r.value.externalId == (if card.id != [] then card.id else if IdFromUrl(url) != [] then IdFromUrl(url) else url)
      && r.value.title == card.title.GetOr([])
      && r.value.category == Category(r.value.title)
      && r.value.askingPriceRaw == card.price.GetOr([])
      && r.value.askingPrice == (if card.price.Some? then ParsePrice(card.price.value).value else None)
      && r.value.locationRaw == card.location.GetOr([])
      && (r.value.city, r.value.state) == (if card.location.Some? then ParseLocation(card.location.value) else ([], []))
      && r.value.revenue == []
      && r.value.cashFlow == (if card.cashFlow.Some? then CashFlow(card.cashFlow.value) else [])
      && r.value.sellerReasonRaw == card.description.GetOr([])
      && r.value.isRetirement == ((card.description.Some? && DetectRetirement(card.description.value))
                                  || DetectRetirement(r.value.title))
  {
    if card.href == [] then None
    else
      var url := resolve(card.href);
      var id := if card.id != [] then card.id else IdFromUrl(url);
      var title := card.title.GetOr([]);
      var price := if card.price.Some? then ParsePrice(card.price.value) else Ok(None);
      if price.Err? then None
      else
        var location := if card.location.Some? then ParseLocation(card.location.value) else ([], []);
        var described := card.description.Some? && DetectRetirement(card.description.value);
        Some(Summary(
          externalId := if id != [] then id else url,
          title := title,
          category := Category(title),
          askingPrice := price.value,
          askingPriceRaw := card.price.GetOr([]),
          city := location.0,
          state := location.1,
          locationRaw := card.location.GetOr([]),
          revenue := [],
          cashFlow := if card.cashFlow.Some? then CashFlow(card.cashFlow.value) else [],
          sellerReasonRaw := card.description.GetOr([]),
          url := url,
          isRetirement := described || DetectRetirement(title)))
  }

  // ---------------------------------------------------------------- one page

  /** The de-duplication key of a card: its id, else its href. */
  function CardKey(card: Card): string {
    if card.id != [] then card.id else card.href
  }

  /** Card `i` has a key, and no earlier card has the same key. */
  predicate IsFirstOccurrence(cards: seq<Card>, i: nat)
    requires i < |cards|
  {
    CardKey(cards[i]) != [] && forall j :: 0 <= j < i ==> CardKey(cards[j]) != CardKey(cards[i])
  }

  /** The cards among the first `n` that are first occurrences of their key, in order. */
  function FirstOccurrences(cards: seq<Card>, n: nat): (r: seq<Card>)
    requires n <= |cards|
    ensures |r| <= n
  {
    if n == 0 then []
    else FirstOccurrences(cards, n - 1) + (if IsFirstOccurrence(cards, n - 1) then [cards[n - 1]] else [])
  }

  /** Every kept card is the first occurrence of its key. */
  lemma {:induction false} FirstOccurrencesAreFirst(cards: seq<Card>, n: nat, k: nat)
    requires n <= |cards| && k < |FirstOccurrences(cards, n)|
    ensures exists j :: 0 <= j < n && IsFirstOccurrence(cards, j) && FirstOccurrences(cards, n)[k] == cards[j]
  {
    var prev := FirstOccurrences(cards, n - 1);
    var last := if IsFirstOccurrence(cards, n - 1) then [cards[n - 1]] else [];
    assert FirstOccurrences(cards, n) == prev + last;
    if k < |prev| {
      FirstOccurrencesAreFirst(cards, n - 1, k);
      assert FirstOccurrences(cards, n)[k] == prev[k];
    } else {
      assert FirstOccurrences(cards, n)[k] == cards[n - 1];
    }
  }

  /** The kept cards keep the order of the page. */
  lemma {:induction false} FirstOccurrencesInOrder(cards: seq<Card>, n: nat)
    requires n <= |cards|
    ensures Subsequence(FirstOccurrences(cards, n), cards[..n])
  {
    if n > 0 {
      FirstOccurrencesInOrder(cards, n - 1);
      FirstOccurrencesInOrderStep(cards, n);
    }
  }

  lemma FirstOccurrencesInOrderStep(cards: seq<Card>, n: nat)
    requires 0 < n <= |cards|
    requires Subsequence(FirstOccurrences(cards, n - 1), cards[..n - 1])
    ensures Subsequence(FirstOccurrences(cards, n), cards[..n])
  {
    var init, last := cards[..n - 1], cards[n - 1];
    SubsequenceSnocIf(FirstOccurrences(cards, n - 1), init, last, IsFirstOccurrence(cards, n - 1));
    assert cards[..n] == init + [last];
  }

  /** The non-empty keys of the first `n` cards. */
  function KeysSeen(cards: seq<Card>, n: nat): set<string>
    requires n <= |cards|
  {
    set j | 0 <= j < n && CardKey(cards[j]) != [] :: CardKey(cards[j])
  }

  lemma KeysSeenStep(cards: seq<Card>, i: nat)
    requires i < |cards|
    ensures var key := CardKey(cards[i]);
      KeysSeen(cards, i + 1) == KeysSeen(cards, i) + (if key != [] then {key} else {})
  {
  }

  /** A card is a first occurrence exactly when its key is new. */
  lemma KeysSeenFirst(cards: seq<Card>, i: nat)
    requires i < |cards|
    ensures IsFirstOccurrence(cards, i) <==> CardKey(cards[i]) != [] && CardKey(cards[i]) !in KeysSeen(cards, i)
  {
    var key := CardKey(cards[i]);
    if key in KeysSeen(cards, i) {
      var j :| 0 <= j < i && CardKey(cards[j]) != [] && CardKey(cards[j]) == key;
    }
    if key != [] && !IsFirstOccurrence(cards, i) {
      var j :| 0 <= j < i && CardKey(cards[j]) == key;
      assert key in KeysSeen(cards, i);
    }
  }

  /** Every card has a key and no two cards share one. */
  predicate DistinctKeys(cards: seq<Card>) {
    && (forall a :: 0 <= a < |cards| ==> CardKey(cards[a]) != [])
    && (forall a, b :: 0 <= a < b < |cards| ==> CardKey(cards[a]) != CardKey(cards[b]))
  }

  /** A card kept among the first `n` has a key other than a first occurrence at `n`. */
  lemma KeptBeforeNew(cards: seq<Card>, n: nat, a: nat)
    requires n < |cards| && IsFirstOccurrence(cards, n) && a < |FirstOccurrences(cards, n)|
    ensures CardKey(FirstOccurrences(cards, n)[a]) != CardKey(cards[n])
  {
    var r := FirstOccurrences(cards, n);
    FirstOccurrencesAreFirst(cards, n, a);
    var j :| 0 <= j < n && IsFirstOccurrence(cards, j) && r[a] == cards[j];
  }

  /** Appending a card whose key is new and non-empty keeps the keys distinct. */
  lemma AppendDistinct(cs: seq<Card>, c: Card)
    requires DistinctKeys(cs) && CardKey(c) != []
    requires forall a :: 0 <= a < |cs| ==> CardKey(cs[a]) != CardKey(c)
    ensures DistinctKeys(cs + [c])
  {
    var r := cs + [c];
    forall a, b | 0 <= a < b < |r| ensures CardKey(r[a]) != CardKey(r[b]) {
      assert r[a] == cs[a];
      if b < |cs| { assert r[b] == cs[b]; }
    }
  }

  /** No two kept cards share a key, and every kept key is non-empty. */
  lemma {:induction false} FirstOccurrencesUnique(cards: seq<Card>, n: nat)
    requires n <= |cards|
    ensures DistinctKeys(FirstOccurrences(cards, n))
  {
    if n > 0 {
      FirstOccurrencesUnique(cards, n - 1);
      var prev := FirstOccurrences(cards, n - 1);
      var r := FirstOccurrences(cards, n);
      if IsFirstOccurrence(cards, n - 1) {
        assert r == prev + [cards[n - 1]];
        forall a | 0 <= a < |prev| ensures CardKey(prev[a]) != CardKey(cards[n - 1]) {
          KeptBeforeNew(cards, n - 1, a);
        }
        AppendDistinct(prev, cards[n - 1]);
      } else {
        assert r == prev;
      }
    }
  }

  /** Every card with a key has the first card of that key among the kept cards. */
  lemma {:induction false} FirstOccurrencesCover(cards: seq<Card>, n: nat, i: nat)
    requires i < n <= |cards| && CardKey(cards[i]) != []
    ensures exists k :: 0 <= k < |FirstOccurrences(cards, n)| && CardKey(FirstOccurrences(cards, n)[k]) == CardKey(cards[i])
    decreases i
  {
    var r := FirstOccurrences(cards, n);
    if IsFirstOccurrence(cards, i) {
      FirstOccurrencesKeep(cards, i, n);
      var k :| 0 <= k < |r| && r[k] == cards[i];
    } else {
      var j :| 0 <= j < i && CardKey(cards[j]) == CardKey(cards[i]);
      FirstOccurrencesCover(cards, n, j);
    }
  }

  /** A first occurrence below `n` is kept. */
  lemma {:induction false} FirstOccurrencesKeep(cards: seq<Card>, i: nat, n: nat)
    requires i < n <= |cards| && IsFirstOccurrence(cards, i)
    ensures cards[i] in FirstOccurrences(cards, n)
  {
    var prev := FirstOccurrences(cards, n - 1);
    var last := if IsFirstOccurrence(cards, n - 1) then [cards[n - 1]] else [];
    assert FirstOccurrences(cards, n) == prev + last;
    if i == n - 1 {
      assert cards[i] in last;
    } else {
      FirstOccurrencesKeep(cards, i, n - 1);
    }
  }

  /** The summaries of the cards that yield one, in order. */
  function ExtractAll(cards: seq<Card>, resolve: string -> string): (r: seq<Summary>)
    ensures |r| <= |cards|
  {
    if cards == [] then []
    else
      var last := ExtractListing(cards[|cards| - 1], resolve);
      ExtractAll(cards[..|cards| - 1], resolve) + (if last.Some? then [last.value] else [])
  }

  lemma ExtractAllStep(cards: seq<Card>, j: nat, resolve: string -> string)
    requires j < |cards|
    ensures var last := ExtractListing(cards[j], resolve);
      ExtractAll(cards[..j + 1], resolve) == ExtractAll(cards[..j], resolve) + (if last.Some? then [last.value] else [])
  {
    assert cards[..j + 1][..j] == cards[..j] && cards[..j + 1][j] == cards[j];
  }

  /** The de-duplication loop of `parse_search_results`: a set of the keys seen so far. */
  method UniqueCards(cards: seq<Card>) returns (unique: seq<Card>)
    ensures unique == FirstOccurrences(cards, |cards|)
  {
    var seen: set<string> := {};
    unique := [];
    var i := 0;
    while i < |cards|
      invariant 0 <= i <= |cards|
      invariant seen == KeysSeen(cards, i)
      invariant unique == FirstOccurrences(cards, i)
    {
      var key := CardKey(cards[i]);
      KeysSeenFirst(cards, i);
      KeysSeenStep(cards, i);
      if key != [] && key !in seen {
        seen := seen + {key};
        unique := unique + [cards[i]];
      }
      i := i + 1;
    }
  }

  /** The extraction loop of `parse_search_results`: cards that yield nothing are skipped. */
  method ExtractCards(unique: seq<Card>, resolve: string -> string) returns (listings: seq<Summary>)
    ensures listings == ExtractAll(unique, resolve)
  {
    listings := [];
    var j := 0;
    while j < |unique|
      invariant 0 <= j <= |unique|
      invariant listings == ExtractAll(unique[..j], resolve)
    {
      ExtractAllStep(unique, j, resolve);
      var listing := ExtractListing(unique[j], resolve);
      if listing.Some? {
        listings := listings + [listing.value];
      }
      j := j + 1;
    }
    assert unique[..|unique|] == unique;
  }

  /**
   * `parse_search_results` after the selectors: keeps the first card of each key, in
   * order, then the summaries of those cards that yield one.
   */
  method ParseSearchResults(cards: seq<Card>, resolve: string -> string) returns (listings: seq<Summary>)
    ensures listings == ExtractAll(FirstOccurrences(cards, |cards|), resolve)
  {
    var unique := UniqueCards(cards);
    listings := ExtractCards(unique, resolve);
  }

  // ---------------------------------------------------------------- pagination

  /**
   * A results URL: everything but the `page` query parameter, and the first non-blank
   * value of that parameter if there is one.
   */
  datatype Url = Url(address: string, page: Option<string>)

  datatype NextPage = Next(url: Url) | NoNext | PageParamError

  /**
   * `find_next_page_url`. `nextHref` is the `href` of the first pagination link found
   * ("" when it has none), `resolve` is `urljoin` against the site's base URL.
   * Without a usable link the page parameter (default 1) is incremented; `int` raising
   * ValueError on it is `PageParamError`.
   */
  function FindNextPage(nextHref: Option<string>, current: Url, resolve: string -> Url): (r: NextPage)
    ensures !r.NoNext?
    ensures nextHref.Some? && nextHref.value != [] ==> r == Next(resolve(nextHref.value))
    ensures (nextHref.None? || nextHref.value == []) ==>
      && (r.PageParamError? <==> ParseInt(current.page.GetOr("1")).None?)
      && (r.Next? ==>
            && r.url != current && r.url.address == current.address && r.url.page.Some?
            && ParseInt(r.url.page.value) == Some(ParseInt(current.page.GetOr("1")).value + 1))
  {
    if nextHref.Some? && nextHref.value != [] then Next(resolve(nextHref.value))
    else
      match ParseInt(current.page.GetOr("1"))
      case None => PageParamError
      case Some(p) =>
        ParseIntOfIntToString(p + 1);
        var next := Url(current.address, Some(IntToString(p + 1)));
        if next != current then Next(next) else NoNext
  }
}
