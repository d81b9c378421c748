/**
 * The Python string builtins the parsers rely on, over ASCII:
 * `lower`/`upper`, `strip`, `in`/`find`, `split`, `replace` with "",
 * `int` and `str` on integers, and decimal-digit runs.
 */
module Text {
  import opened Wrappers

  // ---------------------------------------------------------------- characters

  /** The ASCII characters `str.isspace` accepts (tab to carriage return, 0x1C to space). */
  predicate IsSpace(c: char) {
    ('\t' <= c <= '\r') || ('\U{1C}' <= c <= ' ')
  }

  predicate IsDigit(c: char) {
    '0' <= c <= '9'
  }

  function LowerChar(c: char): char {
    if 'A' <= c <= 'Z' then (c as int + 32) as char else c
  }

  function UpperChar(c: char): char {
    if 'a' <= c <= 'z' then (c as int - 32) as char else c
  }

  /** `s.lower()` */
  function Lower(s: string): (r: string)
    ensures |r| == |s|
    ensures forall i :: 0 <= i < |s| ==> r[i] == LowerChar(s[i])
  {
    seq(|s|, i requires 0 <= i < |s| => LowerChar(s[i]))
  }

  /** `s.upper()` */
  function Upper(s: string): (r: string)
    ensures |r| == |s|
    ensures forall i :: 0 <= i < |s| ==> r[i] == UpperChar(s[i])
  {
    seq(|s|, i requires 0 <= i < |s| => UpperChar(s[i]))
  }

  lemma LowerOfUpper(s: string)
    ensures Lower(Upper(s)) == Lower(s)
  {
  }

  /** Text without upper-case letters is its own lower-case form. */
  lemma LowerIdentity(s: string)
    requires forall i :: 0 <= i < |s| ==> !('A' <= s[i] <= 'Z')
    ensures Lower(s) == s
  {
  }

  lemma LowerOfConcat(a: string, b: string)
    ensures Lower(a + b) == Lower(a) + Lower(b)
  {
  }

  // ---------------------------------------------------------------- substrings

  predicate OccursAt(s: string, p: string, i: int) {
    0 <= i && i + |p| <= |s| && s[i..i + |p|] == p
  }

  /** Python's `p in s`. */
  predicate Contains(s: string, p: string) {
    exists i | 0 <= i <= |s| - |p| :: OccursAt(s, p, i)
  }

  function IndexFrom(s: string, p: string, k: nat): (r: int)
    decreases |s| - k
    ensures r == -1 || (k <= r && OccursAt(s, p, r))
    ensures r == -1 ==> forall j :: k <= j ==> !OccursAt(s, p, j)
    ensures r >= 0 ==> forall j :: k <= j < r ==> !OccursAt(s, p, j)
  {
    if k + |p| > |s| then -1
    else if s[k..k + |p|] == p then k
    else IndexFrom(s, p, k + 1)
  }

  /** Python's `s.find(p)`: the first index where `p` occurs, or -1. */
  function IndexOf(s: string, p: string): (r: int)
    ensures r >= 0 <==> Contains(s, p)
    ensures r >= 0 ==> OccursAt(s, p, r)
    ensures r >= 0 ==> forall j :: 0 <= j < r ==> !OccursAt(s, p, j)
  {
    IndexFrom(s, p, 0)
  }

  lemma ContainsWitness(s: string, p: string, i: int)
    requires OccursAt(s, p, i)
    ensures Contains(s, p)
  {
  }

  /** Substring containment is transitive. */
  lemma {:induction false} ContainsTransitive(s: string, m: string, p: string)
    requires Contains(s, m) && Contains(m, p)
    ensures Contains(s, p)
  {
    var i :| 0 <= i <= |s| - |m| && OccursAt(s, m, i);
    var j :| 0 <= j <= |m| - |p| && OccursAt(m, p, j);
    var t := s[i + j..i + j + |p|];
    forall k | 0 <= k < |p| ensures t[k] == p[k] {
      assert p[k] == m[j + k];
      assert m[j + k] == s[i + j + k];
    }
    assert t == p;
    assert OccursAt(s, p, i + j);
  }

  lemma {:induction false} ContainsInExtension(a: string, s: string, b: string, p: string)
    requires Contains(s, p)
    ensures Contains(a + s + b, p)
  {
    var i :| 0 <= i <= |s| - |p| && OccursAt(s, p, i);
    assert (a + s + b)[|a| + i..|a| + i + |p|] == s[i..i + |p|];
    assert OccursAt(a + s + b, p, |a| + i);
  }

  /** A character that cannot start `p` adds no occurrence of it. */
  lemma NotContainsAfterCons(c: char, s: string, p: string)
    requires p != [] && p[0] != c && !Contains(s, p)
    ensures !Contains([c] + s, p)
  {
    var t := [c] + s;
    forall j | 0 <= j <= |t| - |p| ensures !OccursAt(t, p, j) {
      if j == 0 {
        assert t[0..|p|][0] == c;
      } else {
        assert t[j..j + |p|] == s[j - 1..j - 1 + |p|];
        assert !OccursAt(s, p, j - 1);
      }
    }
  }

  /** Whether `p` occurs at `j` is decided by any prefix that covers that occurrence. */
  lemma OccursInPrefix(s: string, m: nat, p: string, j: int)
    requires 0 <= j && j + |p| <= m <= |s|
    ensures OccursAt(s, p, j) <==> OccursAt(s[..m], p, j)
  {
    assert s[..m][j..j + |p|] == s[j..j + |p|];
  }

  /** A suffix of a text without `p` has no `p` either. */
  lemma NotContainsSuffix(s: string, m: nat, p: string)
    requires m <= |s| && !Contains(s, p)
    ensures !Contains(s[m..], p)
  {
    forall j | 0 <= j <= |s[m..]| - |p| ensures !OccursAt(s[m..], p, j) {
      assert s[m..][j..j + |p|] == s[m + j..m + j + |p|];
      assert !OccursAt(s, p, m + j);
    }
  }

  // ---------------------------------------------------------------- ordering

  /** Python's `<` on strings: code point by code point, a proper prefix first. */
  predicate LexLess(a: string, b: string) {
    if a == [] then b != []
    else if b == [] then false
    else if a[0] != b[0] then a[0] < b[0]
    else LexLess(a[1..], b[1..])
  }

  lemma {:induction false} LexLessAsymmetric(a: string, b: string)
    ensures LexLess(a, b) ==> !LexLess(b, a)
  {
    if a != [] && b != [] && a[0] == b[0] {
      LexLessAsymmetric(a[1..], b[1..]);
    }
  }

  lemma {:induction false} LexLessTransitive(a: string, b: string, c: string)
    ensures LexLess(a, b) && LexLess(b, c) ==> LexLess(a, c)
  {
    if a != [] && b != [] && c != [] && a[0] == b[0] && b[0] == c[0] {
      LexLessTransitive(a[1..], b[1..], c[1..]);
    }
  }

  lemma {:induction false} LexLessTotal(a: string, b: string)
    ensures a != b ==> LexLess(a, b) || LexLess(b, a)
  {
    if a != [] && b != [] && a[0] == b[0] {
      LexLessTotal(a[1..], b[1..]);
      assert a == [a[0]] + a[1..] && b == [b[0]] + b[1..];
    }
  }

  /** Not coming after is transitive, which is what sorting by this order needs. */
  lemma LexLessNotAfterTransitive(a: string, b: string, c: string)
    ensures LexLess(a, c) ==> LexLess(a, b) || LexLess(b, c)
  {
    LexLessTotal(a, b);
    LexLessTotal(b, c);
    LexLessTransitive(c, b, a);
    LexLessAsymmetric(a, c);
  }

  // ---------------------------------------------------------------- strip

  function LeadingSpace(s: string): (n: nat)
    ensures n <= |s|
    ensures forall i :: 0 <= i < n ==> IsSpace(s[i])
    ensures n < |s| ==> !IsSpace(s[n])
  {
    if s == [] || !IsSpace(s[0]) then 0 else 1 + LeadingSpace(s[1..])
  }

  function TrailingStart(s: string): (n: nat)
    ensures n <= |s|
    ensures forall i :: n <= i < |s| ==> IsSpace(s[i])
    ensures n > 0 ==> !IsSpace(s[n - 1])
  {
    if s == [] || !IsSpace(s[|s| - 1]) then |s| else TrailingStart(s[..|s| - 1])
  }

  /** No white space at either end. */
  predicate IsStripped(s: string) {
    s == [] || (!IsSpace(s[0]) && !IsSpace(s[|s| - 1]))
  }

  predicate AllSpace(s: string) {
    forall i :: 0 <= i < |s| ==> IsSpace(s[i])
  }

  /** `s.strip()`: drops white space at both ends. */
  function Strip(s: string): (r: string)
    ensures IsStripped(r)
    ensures |r| <= |s|
    ensures r == [] <==> AllSpace(s)
    ensures r != [] ==> r == s[LeadingSpace(s)..TrailingStart(s)]
  {
    var a := LeadingSpace(s);
    if a == |s| then [] else s[a..TrailingStart(s)]
  }

  /** The two bounds are fixed by the positions of white space alone. */
  lemma {:induction false} StripBoundsUnique(s: string, a: nat, b: nat)
    requires a <= |s| && (forall i :: 0 <= i < a ==> IsSpace(s[i])) && (a < |s| ==> !IsSpace(s[a]))
    requires b <= |s| && (forall i :: b <= i < |s| ==> IsSpace(s[i])) && (b > 0 ==> !IsSpace(s[b - 1]))
    ensures a == LeadingSpace(s) && b == TrailingStart(s)
  {
  }

  /** Stripping a stripped text padded with white space gives the text back. */
  lemma {:induction false} StripPadded(u: string, t: string, v: string)
    requires AllSpace(u) && AllSpace(v) && IsStripped(t)
    ensures Strip(u + t + v) == t
  {
    var s := u + t + v;
    if t == [] {
      assert AllSpace(s);
    } else {
      StripBoundsUnique(s, |u|, |u| + |t|);
      assert s[|u|..|u| + |t|] == t;
    }
  }

  lemma StripStripped(t: string)
    requires IsStripped(t)
    ensures Strip(t) == t
  {
    StripPadded([], t, []);
    assert [] + t + [] == t;
  }

  /** Some character is not white space: the kept part is not empty. */
  lemma BoundsOrdered(s: string)
    requires LeadingSpace(s) < |s|
    ensures LeadingSpace(s) < TrailingStart(s)
  {
  }

  /** A character mapping that keeps white space where it is keeps the strip bounds. */
  lemma SameSpaceBounds(s: string, l: string)
    requires |l| == |s| && forall i :: 0 <= i < |s| ==> (IsSpace(l[i]) <==> IsSpace(s[i]))
    ensures LeadingSpace(l) == LeadingSpace(s) && TrailingStart(l) == TrailingStart(s)
  {
    StripBoundsUnique(l, LeadingSpace(s), TrailingStart(s));
  }

  /** Case mapping turns white space into white space and nothing else into it. */
  lemma LowerKeepsSpace(s: string)
    ensures forall i :: 0 <= i < |s| ==> (IsSpace(Lower(s)[i]) <==> IsSpace(s[i]))
  {
  }

  lemma UpperKeepsSpace(s: string)
    ensures forall i :: 0 <= i < |s| ==> (IsSpace(Upper(s)[i]) <==> IsSpace(s[i]))
  {
  }

  lemma LowerSlice(s: string, a: nat, b: nat)
    requires a <= b <= |s|
    ensures Lower(s[a..b]) == Lower(s)[a..b]
  {
  }

  lemma UpperSlice(s: string, a: nat, b: nat)
    requires a <= b <= |s|
    ensures Upper(s[a..b]) == Upper(s)[a..b]
  {
  }

  /** Lower-casing and stripping commute: case mapping keeps white space where it is. */
  lemma {:induction false} LowerOfStrip(s: string)
    ensures Lower(Strip(s)) == Strip(Lower(s))
  {
    var l := Lower(s);
    LowerKeepsSpace(s);
    SameSpaceBounds(s, l);
    var a, b := LeadingSpace(s), TrailingStart(s);
    if a < |s| {
      BoundsOrdered(s);
      LowerSlice(s, a, b);
    }
  }

  lemma {:induction false} UpperOfStrip(s: string)
    ensures Upper(Strip(s)) == Strip(Upper(s))
  {
    var l := Upper(s);
    UpperKeepsSpace(s);
    SameSpaceBounds(s, l);
    var a, b := LeadingSpace(s), TrailingStart(s);
    if a < |s| {
      BoundsOrdered(s);
      UpperSlice(s, a, b);
    }
  }

  // ---------------------------------------------------------------- split

  /** A one-character text occurs exactly when the character does. */
  lemma ContainsChar(s: string, c: char)
    ensures Contains(s, [c]) <==> c in s
  {
    if Contains(s, [c]) {
      var j :| 0 <= j <= |s| - 1 && OccursAt(s, [c], j);
      assert s[j] == s[j..j + 1][0];
    }
    if c in s {
      var j :| 0 <= j < |s| && s[j] == c;
      assert OccursAt(s, [c], j);
    }
  }

  /** The text before the first occurrence of `p`, or all of `s` when there is none. */
  function Before(s: string, p: string): (r: string)
    ensures !Contains(s, p) ==> r == s
    ensures Contains(s, p) ==> |r| + |p| <= |s| && r == s[..|r|] && OccursAt(s, p, |r|)
    ensures Contains(s, p) ==> forall j :: 0 <= j < |r| ==> !OccursAt(s, p, j)
    ensures p != [] ==> !Contains(r, p)
  {
    var i := IndexOf(s, p);
    if i < 0 then s
    else
      var r := s[..i];
      assert p != [] ==> !Contains(r, p) by {
        forall j | 0 <= j <= |r| - |p| && p != [] ensures !OccursAt(r, p, j) {
          assert !OccursAt(s, p, j);
          assert r[j..j + |p|] == s[j..j + |p|];
        }
      }
      r
  }

  /** The text after the first occurrence of `p`. */
  function After(s: string, p: string): (r: string)
    requires Contains(s, p)
    ensures s == Before(s, p) + p + r
  {
    var i := |Before(s, p)|;
    assert s == s[..i] + s[i..i + |p|] + s[i + |p|..];
    s[i + |p|..]
  }

  lemma ConcatAssoc(a: string, b: string, c: string)
    ensures a + (b + c) == a + b + c
  {
  }

  /** The first `c` of `a + [c] + rest`, when `a` has none, is the one after `a`. */
  lemma BeforeChar(a: string, c: char, rest: string)
    requires c !in a
    ensures Contains(a + [c] + rest, [c])
    ensures Before(a + [c] + rest, [c]) == a
    ensures After(a + [c] + rest, [c]) == rest
  {
    var s := a + [c] + rest;
    assert OccursAt(s, [c], |a|);
    forall j | 0 <= j < |a| ensures !OccursAt(s, [c], j) {
      assert s[j..j + 1][0] == a[j];
    }
    var b := Before(s, [c]);
    assert |b| == |a|;
    assert s[..|a|] == a;
    assert s[|a| + 1..] == rest;
  }

  /** The parts joined back with the separator. */
  function Join(parts: seq<string>, c: char): string
    requires parts != []
  {
    if |parts| == 1 then parts[0] else parts[0] + [c] + Join(parts[1..], c)
  }

  /** `s.split(c)` for a one-character separator. */
  function Split(s: string, c: char): (parts: seq<string>)
    decreases |s|
    ensures parts != [] && parts[0] == Before(s, [c])
    ensures |parts| >= 2 <==> c in s
    ensures forall i :: 0 <= i < |parts| ==> c !in parts[i]
    ensures Join(parts, c) == s
  {
    ContainsChar(s, c);
    if c !in s then [s]
    else
      var first := Before(s, [c]);
      var rest := After(s, [c]);
      ContainsChar(first, c);
      [first] + Split(rest, c)
  }

  /** `str.split()` with no argument: the maximal runs of non-white-space. */
  predicate IsWord(w: string) {
    w != [] && forall i :: 0 <= i < |w| ==> !IsSpace(w[i])
  }

  function WordLength(t: string): (n: nat)
    ensures n <= |t|
    ensures forall i :: 0 <= i < n ==> !IsSpace(t[i])
    ensures n < |t| ==> IsSpace(t[n])
  {
    if t == [] || IsSpace(t[0]) then 0 else 1 + WordLength(t[1..])
  }

  function Words(s: string): (ws: seq<string>)
    decreases |s|
    ensures forall i :: 0 <= i < |ws| ==> IsWord(ws[i])
  {
    var a := LeadingSpace(s);
    if a == |s| then []
    else
      var t := s[a..];
      var n := WordLength(t);
      [t[..n]] + Words(t[n..])
  }

  /** Words joined by single spaces. */
  function Unwords(ws: seq<string>): string {
    if ws == [] then [] else if |ws| == 1 then ws[0] else ws[0] + " " + Unwords(ws[1..])
  }

  lemma {:induction false} WordsAfterSpace(r: string)
    ensures Words(" " + r) == Words(r)
  {
    var s := " " + r;
    assert s[1..] == r;
    assert LeadingSpace(s) == 1 + LeadingSpace(r);
    assert s[LeadingSpace(s)..] == r[LeadingSpace(r)..];
  }

  lemma {:induction false} WordsOfWordThenRest(w: string, r: string)
    requires IsWord(w)
    requires r == [] || IsSpace(r[0])
    ensures Words(w + r) == [w] + Words(r)
  {
    var s := w + r;
    assert LeadingSpace(s) == 0;
    assert s[0..] == s;
    var n := WordLength(s);
    assert forall i :: 0 <= i < |w| ==> s[i] == w[i];
    if r != [] { assert s[|w|] == r[0]; }
    assert n == |w|;
    assert s[..|w|] == w;
    assert s[|w|..] == r;
  }

  /** Splitting words joined by single spaces gives the words back. */
  lemma {:induction false} WordsOfUnwords(ws: seq<string>)
    requires forall i :: 0 <= i < |ws| ==> IsWord(ws[i])
    ensures Words(Unwords(ws)) == ws
  {
    if ws == [] {
    } else if |ws| == 1 {
      WordsOfWordThenRest(ws[0], []);
      assert ws[0] + [] == ws[0];
      assert Words([]) == [];
    } else {
      var r := Unwords(ws[1..]);
      assert ws[0] + " " + r == ws[0] + (" " + r);
      WordsOfWordThenRest(ws[0], " " + r);
      WordsAfterSpace(r);
      WordsOfUnwords(ws[1..]);
      assert ws == [ws[0]] + ws[1..];
    }
  }

  // ---------------------------------------------------------------- replace

  /** `s.replace(p, "")`: every non-overlapping occurrence, scanning left to right, is removed. */
  function RemoveAll(s: string, p: string): (r: string)
    requires p != []
    decreases |s|
    ensures |r| <= |s|
  {
    if |s| < |p| then s
    else if s[..|p|] == p then RemoveAll(s[|p|..], p)
    else [s[0]] + RemoveAll(s[1..], p)
  }

  /** Removing a text that does not occur changes nothing. */
  lemma {:induction false} RemoveAllAbsent(s: string, p: string)
    requires p != [] && !Contains(s, p)
    ensures RemoveAll(s, p) == s
  {
    if |s| < |p| {
    } else {
      assert !OccursAt(s, p, 0);
      assert !Contains(s[1..], p) by {
        if Contains(s[1..], p) {
          var j :| 0 <= j <= |s[1..]| - |p| && OccursAt(s[1..], p, j);
          assert s[1..][j..j + |p|] == s[j + 1..j + 1 + |p|];
          assert OccursAt(s, p, j + 1);
        }
      }
      RemoveAllAbsent(s[1..], p);
      assert s == [s[0]] + s[1..];
    }
  }

  // ---------------------------------------------------------------- numbers

  predicate AllDigits(s: string) {
    forall i :: 0 <= i < |s| ==> IsDigit(s[i])
  }

  /** The value of a run of decimal digits ("" reads as 0). */
  function DigitsValue(s: string): nat
    requires AllDigits(s)
  {
    if s == [] then 0 else DigitsValue(s[..|s| - 1]) * 10 + (s[|s| - 1] as int - '0' as int)
  }

  function DigitChar(d: nat): (c: char)
    requires d < 10
    ensures IsDigit(c) && c as int - '0' as int == d
  {
    ('0' as int + d) as char
  }

  /** `str(n)` for a natural number. */
  function NatToString(n: nat): (s: string)
    ensures s != [] && AllDigits(s)
  {
    if n < 10 then [DigitChar(n)] else NatToString(n / 10) + [DigitChar(n % 10)]
  }

  lemma {:induction false} DigitsValueOfNatToString(n: nat)
    ensures DigitsValue(NatToString(n)) == n
  {
    if n >= 10 {
      var s := NatToString(n);
      assert s[..|s| - 1] == NatToString(n / 10);
      DigitsValueOfNatToString(n / 10);
    }
  }

  /** `str(i)` for an integer. */
  function IntToString(i: int): string {
    if i < 0 then "-" + NatToString(-i) else NatToString(i)
  }

  /**
   * `int(s)` on a string: surrounding white space, an optional sign and at least one
   * decimal digit; anything else raises ValueError, modelled as None.
   */
  function ParseInt(s: string): (r: Option<int>)
  {
    var t := Strip(s);
    if t != [] && (t[0] == '-' || t[0] == '+') then
      var d := t[1..];
      if d != [] && AllDigits(d) then Some(if t[0] == '-' then 0 - DigitsValue(d) else DigitsValue(d)) else None
    else if t != [] && AllDigits(t) then Some(DigitsValue(t))
    else None
  }

  /**
   * The message of the ValueError `int(s)` raises: the fixed text and the string's
   * `repr`, written here with single quotes.
   */
  function IntLiteralError(s: string): string {
    "invalid literal for int() with base 10: '" + s + "'"
  }

  /** `int(str(i)) == i`. */
  lemma {:induction false} ParseIntOfIntToString(i: int)
    ensures ParseInt(IntToString(i)) == Some(i)
  {
    var s := IntToString(i);
    assert !IsSpace(s[0]) && !IsSpace(s[|s| - 1]);
    StripStripped(s);
    if i < 0 {
      var d := NatToString(-i);
      assert s[0] == '-' && s[1..] == d;
      DigitsValueOfNatToString(-i);
      assert ParseInt(s) == Some(0 - DigitsValue(d));
    } else {
      var d := NatToString(i);
      assert s == d && IsDigit(d[0]);
      DigitsValueOfNatToString(i);
      assert ParseInt(s) == Some(DigitsValue(d));
    }
  }
}
