/** String primitives shared by the news pipeline. They model, over ASCII,
    Python's str.lower(), the regular-expression classes \w and \s,
    re.sub(r'[^\w\s]', ' ', ...), re.sub(r'\s+', ' ', ...), str.strip(),
    str.split(), str.join(), str.startswith() and the substring test `in`. */
module Text {

  // ---------------------------------------------------------------------
  // Character classes
  // ---------------------------------------------------------------------

  predicate IsUpper(c: char) { 'A' <= c <= 'Z' }

  /** str.lower() on one character (ASCII letters only). */
  function LowerChar(c: char): (r: char)
    ensures !IsUpper(r)
    ensures !IsUpper(c) ==> r == c
  {
    if IsUpper(c) then (c as int + 32) as char else c
  }

  /** The regular-expression class \s: space, \t \n \v \f \r and \x1c-\x1f. */
  predicate IsSpace(c: char) {
    c == ' ' || 9 <= c as int <= 13 || 28 <= c as int <= 31
  }

  /** The regular-expression class \w: letters, digits and underscore. */
  predicate IsWordChar(c: char) {
    'a' <= c <= 'z' || 'A' <= c <= 'Z' || '0' <= c <= '9' || c == '_'
  }

  // ---------------------------------------------------------------------
  // Character-wise maps
  // ---------------------------------------------------------------------

  /** str.lower() */
  function Lower(s: string): (r: string)
    ensures |r| == |s|
    ensures forall i :: 0 <= i < |s| ==> r[i] == LowerChar(s[i])
  {
    seq(|s|, i requires 0 <= i < |s| => LowerChar(s[i]))
  }

  /** Lower-casing works character by character. */
  lemma LowerConcat(a: string, b: string)
    ensures Lower(a + b) == Lower(a) + Lower(b)
  {
  }

  /** re.sub(r'[^\w\s]', ' ', s): every character that is neither a word
      character nor whitespace becomes a space. */
  function ReplaceNonWord(s: string): (r: string)
    ensures |r| == |s|
    ensures forall i :: 0 <= i < |s| ==>
      r[i] == (if IsWordChar(s[i]) || IsSpace(s[i]) then s[i] else ' ')
  {
    seq(|s|, i requires 0 <= i < |s| =>
      if IsWordChar(s[i]) || IsSpace(s[i]) then s[i] else ' ')
  }

  lemma LowerOfLower(s: string)
    requires forall i :: 0 <= i < |s| ==> !IsUpper(s[i])
    ensures Lower(s) == s
  {
  }

  lemma ReplaceNonWordKeeps(s: string)
    requires forall i :: 0 <= i < |s| ==> IsWordChar(s[i]) || IsSpace(s[i])
    ensures ReplaceNonWord(s) == s
  {
  }

  // ---------------------------------------------------------------------
  // Whitespace runs
  // ---------------------------------------------------------------------

  /** re.sub(r'\s+', ' ', s): every maximal run of whitespace becomes one
      space. CollapseFrom scans left to right; inRun says whether the
      previous character was whitespace. */
  function CollapseFrom(inRun: bool, s: string): string
    decreases |s|
  {
    if s == [] then []
    else if IsSpace(s[0]) then (if inRun then [] else [' ']) + CollapseFrom(true, s[1..])
    else [s[0]] + CollapseFrom(false, s[1..])
  }

  function Collapse(s: string): string {
    CollapseFrom(false, s)
  }

  /** No two adjacent spaces. */
  ghost predicate NoDoubleSpace(t: string) {
    forall i :: 0 <= i < |t| - 1 ==> !(t[i] == ' ' && t[i + 1] == ' ')
  }

  /** The collapsed text has no two adjacent spaces, and inside a run it
      does not start with one. */
  lemma {:induction false} CollapseNoDoubleSpace(inRun: bool, s: string)
    ensures NoDoubleSpace(CollapseFrom(inRun, s))
    ensures inRun && CollapseFrom(inRun, s) != [] ==> CollapseFrom(inRun, s)[0] != ' '
    decreases |s|
  {
    if s != [] {
      var rest := CollapseFrom(IsSpace(s[0]), s[1..]);
      CollapseNoDoubleSpace(IsSpace(s[0]), s[1..]);
      var head := if IsSpace(s[0]) then (if inRun then [] else [' ']) else [s[0]];
      var r := head + rest;
      assert r == CollapseFrom(inRun, s);
      forall i | 0 <= i < |r| - 1 ensures !(r[i] == ' ' && r[i + 1] == ' ') {
        if i >= |head| {
          assert r[i] == rest[i - |head|] && r[i + 1] == rest[i + 1 - |head|];
        }
      }
    }
  }

  /** Collapsing keeps the class of every non-whitespace character: when
      each character of s is whitespace or satisfies p, each character of
      the result is a space or satisfies p. */
  lemma {:induction false} CollapseKeeps(inRun: bool, s: string, p: char -> bool)
    requires forall i :: 0 <= i < |s| ==> IsSpace(s[i]) || p(s[i])
    ensures forall i :: 0 <= i < |CollapseFrom(inRun, s)| ==>
      CollapseFrom(inRun, s)[i] == ' ' || p(CollapseFrom(inRun, s)[i])
    decreases |s|
  {
    if s != [] {
      var t := s[1..];
      assert forall i :: 0 <= i < |t| ==> t[i] == s[i + 1];
      CollapseKeeps(IsSpace(s[0]), t, p);
    }
  }

  /** Collapsing a text that is already single-spaced changes nothing. */
  lemma {:induction false} CollapseIdentity(inRun: bool, t: string)
    requires forall i :: 0 <= i < |t| ==> IsSpace(t[i]) ==> t[i] == ' '
    requires NoDoubleSpace(t)
    requires inRun && t != [] ==> t[0] != ' '
    ensures CollapseFrom(inRun, t) == t
    decreases |t|
  {
    if t != [] {
      var u := t[1..];
      assert forall i :: 0 <= i < |u| ==> u[i] == t[i + 1];
      assert u != [] ==> !(t[0] == ' ' && t[1] == ' ');
      CollapseIdentity(IsSpace(t[0]), u);
      assert t == [t[0]] + u;
    }
  }

  /** The string without its leading whitespace (str.lstrip()). */
  function DropSpaces(s: string): (r: string)
    ensures |r| <= |s| && r == s[|s| - |r|..]
    ensures forall i :: 0 <= i < |s| - |r| ==> IsSpace(s[i])
    ensures r == [] || !IsSpace(r[0])
    ensures s != [] && IsSpace(s[0]) ==> |r| < |s|
    decreases |s|
  {
    if s != [] && IsSpace(s[0]) then DropSpaces(s[1..]) else s
  }

  /** The string without its trailing whitespace (str.rstrip()). */
  function DropTrailingSpaces(s: string): (r: string)
    ensures |r| <= |s| && r == s[..|r|]
    ensures forall i :: |r| <= i < |s| ==> IsSpace(s[i])
    ensures r == [] || !IsSpace(r[|r| - 1])
    decreases |s|
  {
    if s != [] && IsSpace(s[|s| - 1]) then DropTrailingSpaces(s[..|s| - 1]) else s
  }

  /** str.strip() */
  function Strip(s: string): (r: string)
    ensures r == [] || (!IsSpace(r[0]) && !IsSpace(r[|r| - 1]))
  {
    DropTrailingSpaces(DropSpaces(s))
  }

  /** str.strip() returns a slice of its argument. */
  lemma StripSlice(t: string) returns (lo: nat)
    ensures lo + |Strip(t)| <= |t| && Strip(t) == t[lo..lo + |Strip(t)|]
  {
    var a := DropSpaces(t);
    lo := |t| - |a|;
    assert Strip(t) == a[..|Strip(t)|];
  }

  /** Stripping a text without leading or trailing whitespace changes
      nothing. */
  lemma StripTrimmed(t: string)
    requires t == [] || (!IsSpace(t[0]) && !IsSpace(t[|t| - 1]))
    ensures Strip(t) == t
  {
  }

  // ---------------------------------------------------------------------
  // Splitting and joining
  // ---------------------------------------------------------------------

  /** The number of leading non-whitespace characters. */
  function WordLength(s: string): (n: nat)
    ensures n <= |s|
    ensures forall i :: 0 <= i < n ==> !IsSpace(s[i])
    ensures n < |s| ==> IsSpace(s[n])
    decreases |s|
  {
    if s == [] || IsSpace(s[0]) then 0 else 1 + WordLength(s[1..])
  }

  /** A word as str.split() produces it: non-empty and without whitespace. */
  ghost predicate IsWord(w: string) {
    w != [] && forall i :: 0 <= i < |w| ==> !IsSpace(w[i])
  }

  /** str.split() with no argument: the maximal runs of non-whitespace
      characters, in order. */
  function Split(s: string): seq<string>
    decreases |s|
  {
    var t := DropSpaces(s);
    if t == [] then []
    else
      var n := WordLength(t);
      [t[..n]] + Split(t[n..])
  }

  /** Every item of str.split() is a word. */
  lemma {:induction false} SplitWords(s: string)
    ensures forall k :: 0 <= k < |Split(s)| ==> IsWord(Split(s)[k])
    decreases |s|
  {
    var t := DropSpaces(s);
    if t != [] {
      var n := WordLength(t);
      var w := t[..n];
      LeadingWord(t);
      SplitWords(t[n..]);
      var rest := Split(t[n..]);
      var r := [w] + rest;
      forall k | 0 <= k < |r| ensures IsWord(r[k]) {
        if k > 0 {
          assert r[k] == rest[k - 1];
        }
      }
    }
  }

  /** A text that starts with a non-whitespace character starts with a word. */
  lemma LeadingWord(t: string)
    requires t != [] && !IsSpace(t[0])
    ensures IsWord(t[..WordLength(t)])
  {
    var w := t[..WordLength(t)];
    assert forall i :: 0 <= i < |w| ==> w[i] == t[i];
  }

  /** Every character of w passes p. */
  ghost predicate AllChars(w: string, p: char -> bool) {
    forall i :: 0 <= i < |w| ==> p(w[i])
  }

  /** Every non-whitespace character of s passes p. */
  ghost predicate NonSpacePass(s: string, p: char -> bool) {
    forall i :: 0 <= i < |s| ==> IsSpace(s[i]) || p(s[i])
  }

  lemma NonSpacePassSuffix(s: string, p: char -> bool, j: nat)
    requires NonSpacePass(s, p) && j <= |s|
    ensures NonSpacePass(s[j..], p)
  {
    assert forall i :: 0 <= i < |s| - j ==> s[j..][i] == s[j + i];
  }

  lemma NonSpacePassWord(t: string, p: char -> bool, n: nat)
    requires NonSpacePass(t, p) && n <= |t|
    requires forall i :: 0 <= i < n ==> !IsSpace(t[i])
    ensures AllChars(t[..n], p)
  {
    assert forall i :: 0 <= i < n ==> t[..n][i] == t[i];
  }

  /** Every character of every word of str.split() passes p when every
      non-whitespace character of the text does. */
  lemma {:induction false} SplitKeeps(s: string, p: char -> bool)
    requires NonSpacePass(s, p)
    ensures forall k :: 0 <= k < |Split(s)| ==> AllChars(Split(s)[k], p)
    decreases |s|
  {
    var t := DropSpaces(s);
    if t != [] {
      var n := WordLength(t);
      NonSpacePassSuffix(s, p, |s| - |t|);
      NonSpacePassWord(t, p, n);
      NonSpacePassSuffix(t, p, n);
      SplitKeeps(t[n..], p);
      var rest := Split(t[n..]);
      var r := [t[..n]] + rest;
      assert Split(s) == r;
      forall k | 0 < k < |r| ensures AllChars(r[k], p) {
        assert r[k] == rest[k - 1];
      }
    }
  }

  /** sep.join(parts) */
  function Join(parts: seq<string>, sep: string): string {
    if parts == [] then []
    else if |parts| == 1 then parts[0]
    else parts[0] + sep + Join(parts[1..], sep)
  }

  /** All but the last item (Python's xs[:-1]). */
  function Init<T>(xs: seq<T>): seq<T>
    requires xs != []
  {
    xs[..|xs| - 1]
  }

  /** The first n items (Python's xs[:n] for n >= 0). */
  function Take<T>(xs: seq<T>, n: nat): (r: seq<T>)
    ensures |r| <= n && |r| <= |xs|
    ensures |r| == if |xs| < n then |xs| else n
    ensures r == xs[..|r|]
  {
    if |xs| <= n then xs else xs[..n]
  }

  /** [x for x in xs if keep(x)] */
  function Filter<T>(xs: seq<T>, keep: T -> bool): (r: seq<T>)
    ensures |r| <= |xs|
    decreases |xs|
  {
    if xs == [] then []
    else (if keep(xs[0]) then [xs[0]] else []) + Filter(xs[1..], keep)
  }

  /** An item survives the filter exactly when it occurs and is kept. */
  lemma {:induction false} FilterMembers<T>(xs: seq<T>, keep: T -> bool, x: T)
    ensures x in Filter(xs, keep) <==> x in xs && keep(x)
    decreases |xs|
  {
    if xs != [] {
      FilterMembers(xs[1..], keep, x);
      assert xs == [xs[0]] + xs[1..];
    }
  }

  /** The filter keeps the input order. */
  lemma {:induction false} FilterOrder<T>(xs: seq<T>, keep: T -> bool) returns (idx: seq<int>)
    ensures SubsequenceAt(idx, Filter(xs, keep), xs)
    decreases |xs|
  {
    if xs == [] {
      idx := [];
    } else {
      var tail := FilterOrder(xs[1..], keep);
      var rest := Filter(xs[1..], keep);
      var shifted := Shift(tail);
      assert SubsequenceAt(shifted, rest, xs) by {
        forall k | 0 <= k < |shifted| ensures rest[k] == xs[shifted[k]] {
          assert xs[1..][tail[k]] == xs[tail[k] + 1];
        }
      }
      if keep(xs[0]) {
        idx := [0] + shifted;
        ConsSubsequence(shifted, rest, xs);
      } else {
        idx := shifted;
      }
    }
  }

  /** Putting xs[0] in front of a subsequence of xs that avoids index 0. */
  lemma ConsSubsequence<T>(idx: seq<int>, sub: seq<T>, xs: seq<T>)
    requires xs != [] && SubsequenceAt(idx, sub, xs)
    requires forall k :: 0 <= k < |idx| ==> idx[k] > 0
    ensures SubsequenceAt([0] + idx, [xs[0]] + sub, xs)
  {
    var r := [xs[0]] + sub;
    var j := [0] + idx;
    forall k | 0 < k < |j| ensures 0 <= j[k] < |xs| && r[k] == xs[j[k]] {
      assert r[k] == sub[k - 1] && j[k] == idx[k - 1];
    }
  }

  /** Every index one further on. */
  function Shift(idx: seq<int>): (r: seq<int>)
    ensures |r| == |idx| && forall k :: 0 <= k < |r| ==> r[k] == idx[k] + 1
  {
    seq(|idx|, k requires 0 <= k < |idx| => idx[k] + 1)
  }

  /** A subset is no larger than its superset. */
  lemma {:induction false} SubsetCard<T>(a: set<T>, b: set<T>)
    requires a <= b
    ensures |a| <= |b|
    decreases |b|
  {
    if a != {} {
      var x :| x in a;
      SubsetCard(a - {x}, b - {x});
    }
  }

  /** sub is xs[idx[0]], xs[idx[1]], ... with idx strictly increasing. */
  ghost predicate SubsequenceAt<T>(idx: seq<int>, sub: seq<T>, xs: seq<T>) {
    && |idx| == |sub|
    && (forall k :: 0 <= k < |idx| ==> 0 <= idx[k] < |xs| && sub[k] == xs[idx[k]])
    && (forall k, l :: 0 <= k < l < |idx| ==> idx[k] < idx[l])
  }

  // ---------------------------------------------------------------------
  // Substrings and prefixes
  // ---------------------------------------------------------------------

  /** s.startswith(p) */
  predicate StartsWith(s: string, p: string) {
    |p| <= |s| && s[..|p|] == p
  }

  /** Python's `needle in hay` for strings. */
  predicate Contains(hay: string, needle: string)
    decreases |hay|
  {
    StartsWith(hay, needle) || (hay != [] && Contains(hay[1..], needle))
  }

  /** The needle occurs in hay starting at position i. */
  predicate OccursAt(hay: string, needle: string, i: int) {
    0 <= i <= |hay| - |needle| && hay[i..i + |needle|] == needle
  }

  /** `needle in hay` holds exactly when the needle occurs at some position. */
  lemma {:induction false} ContainsIff(hay: string, needle: string)
    ensures Contains(hay, needle) <==> exists i :: OccursAt(hay, needle, i)
    decreases |hay|
  {
    if StartsWith(hay, needle) {
      assert OccursAt(hay, needle, 0);
    }
    if hay != [] {
      ContainsIff(hay[1..], needle);
      if Contains(hay[1..], needle) {
        var i :| OccursAt(hay[1..], needle, i);
        assert hay[i + 1..i + 1 + |needle|] == hay[1..][i..i + |needle|];
        assert OccursAt(hay, needle, i + 1);
      }
      if exists i :: OccursAt(hay, needle, i) {
        var i :| OccursAt(hay, needle, i);
        if i > 0 {
          assert hay[1..][i - 1..i - 1 + |needle|] == hay[i..i + |needle|];
          assert OccursAt(hay[1..], needle, i - 1);
        }
      }
    }
  }

  /** No character of hay is c. */
  ghost predicate Lacks(hay: string, c: char) {
    forall i :: 0 <= i < |hay| ==> hay[i] != c
  }

  /** Nowhere in hay does x stand right before y. */
  ghost predicate NoPair(hay: string, x: char, y: char) {
    forall i :: 0 <= i < |hay| - 1 ==> !(hay[i] == x && hay[i + 1] == y)
  }

  /** A needle holding a character that hay lacks does not occur in it. */
  lemma AbsentChar(hay: string, needle: string, j: nat, c: char)
    requires j < |needle| && needle[j] == c && Lacks(hay, c)
    ensures !Contains(hay, needle)
  {
    forall i | 0 <= i <= |hay| - |needle| ensures !OccursAt(hay, needle, i) {
      assert hay[i..i + |needle|][j] == hay[i + j];
    }
    ContainsIff(hay, needle);
  }

  /** A needle holding two adjacent characters that never stand side by
      side in hay does not occur in it. */
  lemma AbsentPair(hay: string, needle: string, j: nat, x: char, y: char)
    requires j + 1 < |needle| && needle[j] == x && needle[j + 1] == y && NoPair(hay, x, y)
    ensures !Contains(hay, needle)
  {
    forall i | 0 <= i <= |hay| - |needle| ensures !OccursAt(hay, needle, i) {
      assert hay[i..i + |needle|][j] == hay[i + j] && hay[i..i + |needle|][j + 1] == hay[i + j + 1];
    }
    ContainsIff(hay, needle);
  }

  /** A substring of a part is a substring of the whole. */
  lemma ContainsInfix(a: string, b: string, c: string, needle: string)
    requires Contains(b, needle)
    ensures Contains(a + b + c, needle)
  {
    ContainsIff(b, needle);
    var i :| OccursAt(b, needle, i);
    var h := a + b + c;
    assert h[|a| + i..|a| + i + |needle|] == b[i..i + |needle|];
    assert OccursAt(h, needle, |a| + i);
    ContainsIff(h, needle);
  }
}
