/**
 * Character classes, ASCII case mapping, trimming, splitting and digit parsing,
 * with the meaning ECMAScript gives them. The scrapers' regular expressions are
 * written by hand on top of these.
 */
module Text {
  import opened Wrappers

  predicate IsDigit(c: char) { '0' <= c <= '9' }

  predicate IsUpperAscii(c: char) { 'A' <= c <= 'Z' }

  predicate IsLowerAscii(c: char) { 'a' <= c <= 'z' }

  /** `\w`: the characters that `\b` tells apart from all others */
  predicate IsWordChar(c: char) { IsDigit(c) || IsUpperAscii(c) || IsLowerAscii(c) || c == '_' }

  /** The characters that `.` does not match */
  predicate IsLineTerminator(c: char) {
    c == '\n' || c == '\r' || c == '\U{2028}' || c == '\U{2029}'
  }

  /** `\s`, which is also what `String.prototype.trim` removes */
  predicate IsSpace(c: char) {
    c == '\t' || c == '\n' || c == '\U{B}' || c == '\U{C}' || c == '\r' || c == ' ' ||
    c == '\U{A0}' || c == '\U{1680}' || ('\U{2000}' <= c <= '\U{200A}') ||
    c == '\U{2028}' || c == '\U{2029}' || c == '\U{202F}' || c == '\U{205F}' ||
    c == '\U{3000}' || c == '\U{FEFF}'
  }

  predicate IsNewline(c: char) { c == '\n' }

  /** The separators of `split(/\n|,/)` */
  predicate IsNewlineOrComma(c: char) { c == '\n' || c == ',' }

  predicate IsSlash(c: char) { c == '/' }

  predicate IsHyphen(c: char) { c == '-' }

  function LowerChar(c: char): (r: char)
    ensures !IsUpperAscii(r)
    ensures IsWordChar(r) <==> IsWordChar(c)
    ensures IsDigit(r) <==> IsDigit(c)
  {
    if IsUpperAscii(c) then (c as int + 32) as char else c
  }

  function UpperChar(c: char): (r: char)
    ensures !IsLowerAscii(r)
    ensures IsWordChar(r) <==> IsWordChar(c)
    ensures IsLowerAscii(c) ==> IsUpperAscii(r)
    ensures !IsLowerAscii(c) ==> r == c
  {
    if IsLowerAscii(c) then (c as int - 32) as char else c
  }

  /** `toLowerCase`, on ASCII letters */
  function Lower(s: string): (r: string)
    ensures |r| == |s|
    ensures forall i :: 0 <= i < |s| ==> r[i] == LowerChar(s[i])
  {
    seq(|s|, i requires 0 <= i < |s| => LowerChar(s[i]))
  }

  /** `toUpperCase`, on ASCII letters */
  function Upper(s: string): (r: string)
    ensures |r| == |s|
    ensures forall i :: 0 <= i < |s| ==> r[i] == UpperChar(s[i])
  {
    seq(|s|, i requires 0 <= i < |s| => UpperChar(s[i]))
  }

  predicate StartsWith(s: string, p: string) {
    |p| <= |s| && s[..|p|] == p
  }

  predicate EndsWith(s: string, t: string) {
    |t| <= |s| && s[|s| - |t|..] == t
  }

  lemma StartsWithAppend(s: string, t: string, p: string)
    requires StartsWith(s, p)
    ensures StartsWith(s + t, p)
  {
    assert (s + t)[..|p|] == s[..|p|];
  }

  /** `p` occurs in `s` starting at index `i` */
  predicate OccursAt(s: string, p: string, i: int) {
    0 <= i && i + |p| <= |s| && s[i..i + |p|] == p
  }

  /** `p` occurs in `s` at index `i` or after it */
  predicate ContainsFrom(s: string, p: string, i: nat)
    decreases |s| - i
  {
    i + |p| <= |s| && (OccursAt(s, p, i) || ContainsFrom(s, p, i + 1))
  }

  /** `String.prototype.includes` */
  predicate Contains(s: string, p: string) {
    ContainsFrom(s, p, 0)
  }

  lemma {:induction false} ContainsFromIff(s: string, p: string, i: nat)
    ensures ContainsFrom(s, p, i) <==> exists j :: i <= j <= |s| - |p| && OccursAt(s, p, j)
    decreases |s| - i
  {
    if i + |p| <= |s| {
      ContainsFromIff(s, p, i + 1);
    }
  }

  /** `includes` holds exactly when the pattern occurs at some index */
  lemma ContainsIff(s: string, p: string)
    ensures Contains(s, p) <==> exists i :: 0 <= i <= |s| - |p| && OccursAt(s, p, i)
  {
    ContainsFromIff(s, p, 0);
  }

  lemma ContainsWitness(s: string, p: string, i: int)
    requires OccursAt(s, p, i)
    ensures Contains(s, p)
  {
    ContainsIff(s, p);
  }

  lemma {:induction false} StartsWithContains(s: string, p: string)
    requires StartsWith(s, p)
    ensures Contains(s, p)
  {
    ContainsWitness(s, p, 0);
  }

  function TrimStart(s: string): (r: string)
    ensures |r| <= |s| && r == s[|s| - |r|..]
    ensures r == [] || !IsSpace(r[0])
    ensures forall i :: 0 <= i < |s| - |r| ==> IsSpace(s[i])
    decreases |s|
  {
    if |s| > 0 && IsSpace(s[0]) then TrimStart(s[1..]) else s
  }

  function TrimEnd(s: string): (r: string)
    ensures |r| <= |s| && r == s[..|r|]
    ensures r == [] || !IsSpace(r[|r| - 1])
    ensures forall i :: |r| <= i < |s| ==> IsSpace(s[i])
    decreases |s|
  {
    if |s| > 0 && IsSpace(s[|s| - 1]) then TrimEnd(s[..|s| - 1]) else s
  }

  /** `String.prototype.trim` */
  function Trim(s: string): (r: string)
    ensures |r| <= |s|
    ensures r == [] || (!IsSpace(r[0]) && !IsSpace(r[|r| - 1]))
  {
    TrimEnd(TrimStart(s))
  }

  /** `split` on every character that satisfies `sep`, keeping empty pieces */
  function SplitOn(s: string, sep: char -> bool): (r: seq<string>)
    ensures |r| == CountWhere(s, sep) + 1
    decreases |s|
  {
    if |s| == 0 then [""]
    else
      var rest := SplitOn(s[1..], sep);
      if sep(s[0]) then [""] + rest
      else [[s[0]] + rest[0]] + rest[1..]
  }

  /** A text with no separator is one piece */
  lemma {:induction false} SplitOnWhole(s: string, sep: char -> bool)
    requires forall i :: 0 <= i < |s| ==> !sep(s[i])
    ensures SplitOn(s, sep) == [s]
    decreases |s|
  {
    if |s| > 0 {
      SplitOnWhole(s[1..], sep);
      assert [s[0]] + s[1..] == s;
    }
  }

  /** After the last separator, the last piece of a split is the separator-free rest */
  lemma {:induction false} SplitOnLastPiece(x: string, t: string, sep: char -> bool)
    requires |x| > 0 && sep(x[|x| - 1])
    requires forall i :: 0 <= i < |t| ==> !sep(t[i])
    ensures |SplitOn(x + t, sep)| >= 2
    ensures SplitOn(x + t, sep)[|SplitOn(x + t, sep)| - 1] == t
    decreases |x|
  {
    var s := x + t;
    assert s[1..] == x[1..] + t;
    if |x| == 1 {
      SplitOnWhole(t, sep);
      assert s[1..] == t;
    } else {
      SplitOnLastPiece(x[1..], t, sep);
    }
  }

  /**
   * The pieces of a split hold no separator and only characters of the text,
   * and a text with a character that is no separator has a non-empty piece.
   */
  lemma {:induction false} SplitOnPieces(s: string, sep: char -> bool)
    ensures var r := SplitOn(s, sep);
      forall k, i :: 0 <= k < |r| && 0 <= i < |r[k]| ==> !sep(r[k][i]) && r[k][i] in s
    ensures (exists i :: 0 <= i < |s| && !sep(s[i])) ==>
      exists k :: 0 <= k < |SplitOn(s, sep)| && SplitOn(s, sep)[k] != ""
    decreases |s|
  {
    if |s| > 0 {
      SplitOnPieces(s[1..], sep);
      var rest := SplitOn(s[1..], sep);
      var r := SplitOn(s, sep);
      assert [s[0]] + s[1..] == s;
      assert forall c :: c in s[1..] ==> c in s;
      if sep(s[0]) {
        assert r == [""] + rest;
        assert forall k :: 1 <= k < |r| ==> r[k] == rest[k - 1];
        if exists i :: 0 <= i < |s| && !sep(s[i]) {
          var i :| 0 <= i < |s| && !sep(s[i]);
          assert !sep(s[1..][i - 1]);
          var k :| 0 <= k < |rest| && rest[k] != "";
          assert r[k + 1] != "";
        }
      } else {
        assert r == [[s[0]] + rest[0]] + rest[1..];
        assert r[0] != "";
        assert forall k :: 1 <= k < |r| ==> r[k] == rest[k];
        assert forall i :: 1 <= i < |r[0]| ==> r[0][i] == rest[0][i - 1];
      }
    }
  }

  /** `s.replace(/-/g, ' ')` */
  function HyphensToSpaces(s: string): (r: string)
    ensures |r| == |s|
    ensures forall k :: 0 <= k < |s| ==> r[k] == (if s[k] == '-' then ' ' else s[k])
  {
    seq(|s|, k requires 0 <= k < |s| => if s[k] == '-' then ' ' else s[k])
  }

  /** The value of the first entry of an association list keyed `name`, from index `k` on */
  function LookupFrom(map_: seq<(string, string)>, name: string, k: nat): (r: Option<string>)
    ensures r.Some? ==> exists j :: k <= j < |map_| && map_[j] == (name, r.value)
    ensures r.None? ==> forall j :: k <= j < |map_| ==> map_[j].0 != name
    decreases |map_| - k
  {
    if k >= |map_| then None
    else if map_[k].0 == name then Some(map_[k].1)
    else LookupFrom(map_, name, k + 1)
  }

  /** The first entry with a given name is the one looked up, from any index not past it */
  lemma {:induction false} LookupFirst(map_: seq<(string, string)>, j: nat, k: nat)
    requires k <= j < |map_|
    requires forall i :: k <= i < j ==> map_[i].0 != map_[j].0
    ensures LookupFrom(map_, map_[j].0, k) == Some(map_[j].1)
    decreases j - k
  {
    if k < j {
      LookupFirst(map_, j, k + 1);
    }
  }

  /** Lower-casing a text with no upper-case letter changes nothing */
  lemma LowerWithoutCapitals(s: string)
    requires forall i :: 0 <= i < |s| ==> !IsUpperAscii(s[i])
    ensures Lower(s) == s
  {
  }

  /** Lower-casing commutes with taking a slice */
  lemma LowerSlice(s: string, i: int, j: int)
    requires 0 <= i <= j <= |s|
    ensures Lower(s[i..j]) == Lower(s)[i..j]
  {
  }

  lemma LowerIdempotent(s: string)
    ensures Lower(Lower(s)) == Lower(s)
  {
    LowerWithoutCapitals(Lower(s));
  }

  /** Splitting at one separator splits the two sides apart */
  lemma {:induction false} SplitOnSeparator(a: string, c: char, b: string, sep: char -> bool)
    requires sep(c)
    ensures SplitOn(a + ([c] + b), sep) == SplitOn(a, sep) + SplitOn(b, sep)
    decreases |a|
  {
    var s := a + ([c] + b);
    if a == [] {
      assert s == [c] + b && s[1..] == b;
      assert SplitOn(s, sep) == [""] + SplitOn(b, sep);
    } else {
      assert s[0] == a[0] && s[1..] == a[1..] + ([c] + b);
      SplitOnSeparator(a[1..], c, b, sep);
      var front := SplitOn(a[1..], sep);
      var rest := SplitOn(s[1..], sep);
      assert rest == front + SplitOn(b, sep);
      if sep(a[0]) {
        assert SplitOn(s, sep) == [""] + rest;
        assert SplitOn(a, sep) == [""] + front;
        ConcatAssociative([""], front, SplitOn(b, sep));
      } else {
        assert SplitOn(s, sep) == [[a[0]] + rest[0]] + rest[1..];
        assert SplitOn(a, sep) == [[a[0]] + front[0]] + front[1..];
        ConcatHeadTail(front, SplitOn(b, sep));
        ConcatAssociative([[a[0]] + front[0]], front[1..], SplitOn(b, sep));
      }
    }
  }

  /** Splitting at three separators splits the four sides apart */
  lemma SplitOnThree(a: string, b: string, d: string, e: string, c: char, sep: char -> bool)
    requires sep(c)
    ensures SplitOn(a + ([c] + (b + ([c] + (d + ([c] + e))))), sep) ==
      SplitOn(a, sep) + (SplitOn(b, sep) + (SplitOn(d, sep) + SplitOn(e, sep)))
  {
    SplitOnSeparator(a, c, b + ([c] + (d + ([c] + e))), sep);
    SplitOnSeparator(b, c, d + ([c] + e), sep);
    SplitOnSeparator(d, c, e, sep);
  }

  /** Behind elements that all fail `p`, the first one satisfying it is found further on */
  lemma {:induction false} FirstWhereBehind<T>(xs: seq<T>, ys: seq<T>, p: T -> bool)
    requires forall j :: 0 <= j < |xs| ==> !p(xs[j])
    ensures FirstWhere(xs + ys, p) == if FirstWhere(ys, p).Some? then Some(|xs| + FirstWhere(ys, p).value) else None
    decreases |xs|
  {
    if xs != [] {
      FirstWhereBehind(xs[1..], ys, p);
      assert (xs + ys)[1..] == xs[1..] + ys;
    } else {
      assert xs + ys == ys;
    }
  }

  lemma ConcatAssociative<T>(f: seq<T>, g: seq<T>, h: seq<T>)
    ensures (f + g) + h == f + (g + h)
  {
  }

  lemma ConcatHeadTail<T>(f: seq<T>, g: seq<T>)
    requires |f| >= 1
    ensures (f + g)[0] == f[0] && (f + g)[1..] == f[1..] + g
  {
  }

  /** How many characters of `s` satisfy `p` */
  function CountWhere(s: string, p: char -> bool): (n: nat)
    ensures n <= |s|
    decreases |s|
  {
    if s == [] then 0 else (if p(s[0]) then 1 else 0) + CountWhere(s[1..], p)
  }

  /** Every element trimmed, as `.map(line => line.trim())` */
  function TrimAll(lines: seq<string>): (r: seq<string>)
    ensures |r| == |lines|
    ensures forall i :: 0 <= i < |lines| ==> r[i] == Trim(lines[i])
  {
    seq(|lines|, i requires 0 <= i < |lines| => Trim(lines[i]))
  }

  /** Index of the first element satisfying `p`, as a `for … of` loop with an early return finds it */
  function FirstWhere<T>(xs: seq<T>, p: T -> bool): (r: Option<nat>)
    ensures r.Some? ==> r.value < |xs| && p(xs[r.value])
    ensures r.Some? ==> forall j :: 0 <= j < r.value ==> !p(xs[j])
    ensures r.None? ==> forall j :: 0 <= j < |xs| ==> !p(xs[j])
    decreases |xs|
  {
    if |xs| == 0 then None
    else if p(xs[0]) then Some(0)
    else match FirstWhere(xs[1..], p)
      case None => None
      case Some(k) => Some(k + 1)
  }

  /** The first element satisfying `p`, if any */
  function FirstSatisfying<T>(xs: seq<T>, p: T -> bool): (r: Option<T>)
    ensures r.Some? <==> exists j :: 0 <= j < |xs| && p(xs[j])
    ensures r.Some? ==> p(r.value) && exists j :: 0 <= j < |xs| && xs[j] == r.value && forall i :: 0 <= i < j ==> !p(xs[i])
  {
    match FirstWhere(xs, p)
    case None => None
    case Some(k) => Some(xs[k])
  }

  /** End of the run of characters satisfying `p` that starts at `i` */
  function RunEnd(s: string, i: nat, p: char -> bool): (j: nat)
    requires i <= |s|
    ensures i <= j <= |s|
    ensures forall k :: i <= k < j ==> p(s[k])
    ensures j == |s| || !p(s[j])
    decreases |s| - i
  {
    if i == |s| || !p(s[i]) then i else RunEnd(s, i + 1, p)
  }

  /** A run of `p` that holds from `i` to `j` and stops there ends at `j` */
  lemma RunEndAt(s: string, i: nat, j: nat, p: char -> bool)
    requires i <= j <= |s|
    requires forall k :: i <= k < j ==> p(s[k])
    requires j == |s| || !p(s[j])
    ensures RunEnd(s, i, p) == j
    decreases j - i
  {
    if i < j {
      RunEndAt(s, i + 1, j, p);
    }
  }

  predicate AllDigits(s: string) {
    forall i :: 0 <= i < |s| ==> IsDigit(s[i])
  }

  /** The decimal value of a string of digits */
  function DigitsValue(s: string): nat
    requires AllDigits(s)
    decreases |s|
  {
    if s == [] then 0 else DigitsValue(s[..|s| - 1]) * 10 + (s[|s| - 1] as int - '0' as int)
  }

  /** `s.replace(/[^0-9]/g, '')` */
  function KeepDigits(s: string): (r: string)
    ensures AllDigits(r)
    ensures |r| <= |s|
    ensures AllDigits(s) ==> r == s
    ensures r == "" <==> forall i :: 0 <= i < |s| ==> !IsDigit(s[i])
    decreases |s|
  {
    if s == [] then []
    else (if IsDigit(s[0]) then [s[0]] else []) + KeepDigits(s[1..])
  }

  /** `s.replace(/,/g, '')` */
  function RemoveCommas(s: string): (r: string)
    ensures |r| <= |s|
    ensures forall i :: 0 <= i < |r| ==> r[i] != ','
    ensures (forall i :: 0 <= i < |s| ==> s[i] != ',') ==> r == s
    ensures (forall i :: 0 <= i < |s| ==> IsDigit(s[i]) || s[i] == ',') ==> AllDigits(r)
    decreases |s|
  {
    if s == [] then []
    else (if s[0] == ',' then [] else [s[0]]) + RemoveCommas(s[1..])
  }

  /**
   * `parseInt` of a string made of digits only: NaN (None) for the empty
   * string, otherwise the decimal value.
   */
  function ParseDigits(s: string): (r: Option<nat>)
    requires AllDigits(s)
    ensures r.None? <==> s == ""
  {
    if s == "" then None else Some(DigitsValue(s))
  }

  function DigitChar(d: nat): (c: char)
    requires d < 10
    ensures IsDigit(c) && c as int - '0' as int == d
  {
    ('0' as int + d) as char
  }

  /** Decimal text of a natural number, as `String(n)` writes it */
  function NatToString(n: nat): (s: string)
    ensures |s| >= 1 && AllDigits(s)
    ensures DigitsValue(s) == n
    decreases n
  {
    if n < 10 then [DigitChar(n)] else NatToString(n / 10) + [DigitChar(n % 10)]
  }

  /** Decimal text of an integer, as `String(i)` or a template literal writes it */
  function IntToString(i: int): (s: string)
    ensures |s| >= 1
    ensures i >= 0 ==> AllDigits(s) && DigitsValue(s) == i
    ensures i < 0 ==> s[0] == '-' && AllDigits(s[1..]) && DigitsValue(s[1..]) == -i
  {
    if i < 0 then "-" + NatToString(-i) else NatToString(i)
  }

  /**
   * `\b w \b` at index `i` of `s`, for a keyword `w` that starts and ends with a
   * word character: `w` occurs at `i` and no word character touches it.
   */
  predicate WordAt(s: string, w: string, i: int) {
    && OccursAt(s, w, i)
    && (i == 0 || !IsWordChar(s[i - 1]))
    && (i + |w| == |s| || !IsWordChar(s[i + |w|]))
  }

  /** Some alternative of `\b(w0|w1|…)\b` matches at `i` */
  predicate AnyWordAt(s: string, words: seq<string>, i: int) {
    exists m :: 0 <= m < |words| && WordAt(s, words[m], i)
  }

  /** `/\b(w0|w1|…)\b/.test(s)` */
  predicate HasWord(s: string, words: seq<string>) {
    exists i :: 0 <= i <= |s| && AnyWordAt(s, words, i)
  }

  /** The first alternative, in the written order, that matches at `i` */
  function FirstWordAt(s: string, words: seq<string>, i: int, m: nat): (r: Option<nat>)
    requires m <= |words|
    ensures r.Some? ==> m <= r.value < |words| && WordAt(s, words[r.value], i)
    ensures r.Some? ==> forall k :: m <= k < r.value ==> !WordAt(s, words[k], i)
    ensures r.None? ==> forall k :: m <= k < |words| ==> !WordAt(s, words[k], i)
    decreases |words| - m
  {
    if m == |words| then None
    else if WordAt(s, words[m], i) then Some(m)
    else FirstWordAt(s, words, i, m + 1)
  }

  /**
   * The leftmost match of `\b(w0|w1|…)\b` at or after `from`: its index and
   * the alternative that matched there.
   */
  function FindWord(s: string, words: seq<string>, from: nat): (r: Option<(nat, nat)>)
    ensures r.Some? ==> from <= r.value.0 <= |s| && r.value.1 < |words|
    ensures r.Some? ==> WordAt(s, words[r.value.1], r.value.0)
    ensures r.Some? ==> forall k :: 0 <= k < r.value.1 ==> !WordAt(s, words[k], r.value.0)
    ensures r.Some? ==> forall i :: from <= i < r.value.0 ==> !AnyWordAt(s, words, i)
    ensures r.None? ==> forall i :: from <= i <= |s| ==> !AnyWordAt(s, words, i)
    decreases |s| + 1 - from
  {
    if from > |s| then None
    else match FirstWordAt(s, words, from, 0)
      case Some(m) => Some((from, m))
      case None => FindWord(s, words, from + 1)
  }

  lemma {:induction false} FindWordFindsAny(s: string, words: seq<string>)
    ensures FindWord(s, words, 0).Some? <==> HasWord(s, words)
  {
    var r := FindWord(s, words, 0);
    if r.Some? {
      assert AnyWordAt(s, words, r.value.0);
    }
  }
}
