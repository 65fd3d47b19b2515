/**
 * The string operations the source applies to model replies and scraped text:
 * Python's `str.strip()`, `str.lower()`, `str.split(sep)` and its inverse `sep.join`.
 */
module Text {
  import opened Wrappers

  /** The characters Python's `str.isspace()` accepts, which `str.strip()` removes. */
  predicate IsSpace(c: char) {
    c in {' ', '\t', '\n', '\r', '\U{000B}', '\U{000C}', '\U{001C}', '\U{001D}', '\U{001E}', '\U{001F}',
          '\U{0085}', '\U{00A0}', '\U{1680}', '\U{2028}', '\U{2029}', '\U{202F}', '\U{205F}', '\U{3000}'}
    || ('\U{2000}' <= c <= '\U{200A}')
  }

  predicate AllSpace(s: string) {
    forall i :: 0 <= i < |s| ==> IsSpace(s[i])
  }

  function TrimLeft(s: string): (r: string)
    ensures |r| <= |s|
    ensures r == [] || !IsSpace(r[0])
  {
    if |s| > 0 && IsSpace(s[0]) then TrimLeft(s[1..]) else s
  }

  function TrimRight(s: string): (r: string)
    ensures |r| <= |s| && r == s[..|r|]
    ensures r == [] || !IsSpace(r[|r| - 1])
  {
    if |s| > 0 && IsSpace(s[|s| - 1]) then TrimRight(s[..|s| - 1]) else s
  }

  /** Python's `s.strip()`: whitespace removed at both ends, nothing else touched. */
  function Strip(s: string): (r: string)
    ensures r == [] || (!IsSpace(r[0]) && !IsSpace(r[|r| - 1]))
  {
    TrimRight(TrimLeft(s))
  }

  /** A string that neither starts nor ends with whitespace is its own `strip()`. */
  lemma StripUnpadded(s: string)
    requires s == [] || (!IsSpace(s[0]) && !IsSpace(s[|s| - 1]))
    ensures Strip(s) == s
  {
    assert TrimLeft(s) == s;
  }

  function LowerChar(c: char): char {
    if 'A' <= c <= 'Z' then (c as int + 32) as char else c
  }

  /** Python's `s.lower()` on the ASCII letters; every other character is kept. */
  function Lower(s: string): (r: string)
    ensures |r| == |s|
    ensures forall i :: 0 <= i < |s| ==> r[i] == LowerChar(s[i])
  {
    seq(|s|, i requires 0 <= i < |s| => LowerChar(s[i]))
  }

  lemma {:induction false} TrimLeftSpacePrefix(pre: string, s: string)
    requires AllSpace(pre)
    ensures TrimLeft(pre + s) == TrimLeft(s)
  {
    if pre == [] {
      assert pre + s == s;
    } else {
      var ps := pre + s;
      assert ps[0] == pre[0] && IsSpace(ps[0]);
      assert ps[1..] == pre[1..] + s;
      assert TrimLeft(ps) == TrimLeft(ps[1..]);
      TrimLeftSpacePrefix(pre[1..], s);
    }
  }

  lemma {:induction false} TrimRightSpaceSuffix(s: string, post: string)
    requires AllSpace(post)
    ensures TrimRight(s + post) == TrimRight(s)
  {
    if post == [] {
      assert s + post == s;
    } else {
      var n := |post| - 1;
      var sp := s + post;
      assert sp[|sp| - 1] == post[n] && IsSpace(sp[|sp| - 1]);
      assert sp[..|sp| - 1] == s + post[..n];
      assert TrimRight(sp) == TrimRight(sp[..|sp| - 1]);
      TrimRightSpaceSuffix(s, post[..n]);
    }
  }

  lemma {:induction false} TrimBothSpaceSuffix(s: string, post: string)
    requires AllSpace(post)
    ensures TrimRight(TrimLeft(s + post)) == TrimRight(TrimLeft(s))
  {
    if s == [] {
      assert s + post == post;
      TrimLeftSpacePrefix(post, []);
      assert post + [] == post;
    } else if IsSpace(s[0]) {
      assert (s + post)[1..] == s[1..] + post;
      TrimBothSpaceSuffix(s[1..], post);
    } else {
      TrimRightSpaceSuffix(s, post);
    }
  }

  /** Surrounding whitespace never changes what `strip()` returns. */
  lemma StripIgnoresPadding(pre: string, s: string, post: string)
    requires AllSpace(pre) && AllSpace(post)
    ensures Strip(pre + s + post) == Strip(s)
  {
    assert pre + s + post == pre + (s + post);
    TrimLeftSpacePrefix(pre, s + post);
    TrimBothSpaceSuffix(s, post);
  }

  lemma LowerCharKeepsSpace(c: char)
    ensures IsSpace(LowerChar(c)) == IsSpace(c)
  {
  }

  lemma {:induction false} TrimLeftLower(s: string)
    ensures TrimLeft(Lower(s)) == Lower(TrimLeft(s))
  {
    if |s| > 0 {
      LowerCharKeepsSpace(s[0]);
      if IsSpace(s[0]) {
        assert Lower(s)[1..] == Lower(s[1..]);
        TrimLeftLower(s[1..]);
      }
    }
  }

  lemma {:induction false} TrimRightLower(s: string)
    ensures TrimRight(Lower(s)) == Lower(TrimRight(s))
  {
    if |s| > 0 {
      var n := |s| - 1;
      var ls := Lower(s);
      LowerCharKeepsSpace(s[n]);
      assert ls[n] == LowerChar(s[n]);
      if IsSpace(s[n]) {
        assert ls[..n] == Lower(s[..n]);
        assert TrimRight(ls) == TrimRight(ls[..n]);
        TrimRightLower(s[..n]);
      } else {
        assert TrimRight(ls) == ls;
      }
    }
  }

  /** Lower-casing and stripping commute, since no letter is whitespace. */
  lemma StripLowerCommute(s: string)
    ensures Strip(Lower(s)) == Lower(Strip(s))
  {
    TrimLeftLower(s);
    TrimRightLower(TrimLeft(s));
  }

  lemma LowerIdempotent(s: string)
    ensures Lower(Lower(s)) == Lower(s)
  {
  }

  /* ---------------------------------------------------------------- split */

  predicate OccursAt(s: string, sep: string, i: nat) {
    i + |sep| <= |s| && s[i..i + |sep|] == sep
  }

  ghost predicate Contains(s: string, sep: string) {
    exists i: nat :: OccursAt(s, sep, i)
  }

  /** Index of the first occurrence of `sep` in `s` at or after `from`. */
  function FindFrom(s: string, sep: string, from: nat): (r: Option<nat>)
    requires |sep| > 0
    ensures r.Some? ==> from <= r.value && OccursAt(s, sep, r.value)
    ensures r.Some? ==> forall j: nat :: from <= j < r.value ==> !OccursAt(s, sep, j)
    ensures r.None? ==> forall j: nat :: from <= j ==> !OccursAt(s, sep, j)
    decreases |s| - from
  {
    if from + |sep| > |s| then None
    else if s[from..from + |sep|] == sep then Some(from)
    else FindFrom(s, sep, from + 1)
  }

  function Find(s: string, sep: string): (r: Option<nat>)
    requires |sep| > 0
    ensures r.Some? ==> OccursAt(s, sep, r.value) && forall j: nat :: j < r.value ==> !OccursAt(s, sep, j)
    ensures r.None? <==> !Contains(s, sep)
  {
    FindFrom(s, sep, 0)
  }

  /** Python's `s.split(sep)` for a non-empty separator: the pieces between the
      non-overlapping occurrences of `sep`, found from left to right. */
  function Split(s: string, sep: string): (parts: seq<string>)
    requires |sep| > 0
    ensures |parts| >= 1
    decreases |s|
  {
    match Find(s, sep)
    case None => [s]
    case Some(i) => [s[..i]] + Split(s[i + |sep|..], sep)
  }

  /** Python's `sep.join(parts)`. */
  function Join(parts: seq<string>, sep: string): string {
    if |parts| == 0 then ""
    else if |parts| == 1 then parts[0]
    else parts[0] + sep + Join(parts[1..], sep)
  }

  lemma JoinCons(p: string, tail: seq<string>, sep: string)
    requires |tail| >= 1
    ensures Join([p] + tail, sep) == p + sep + Join(tail, sep)
  {
    assert ([p] + tail)[0] == p;
    assert ([p] + tail)[1..] == tail;
  }

  lemma SliceThree(s: string, i: nat, j: nat)
    requires i <= j <= |s|
    ensures s == s[..i] + s[i..j] + s[j..]
  {
  }

  /** Splitting and joining back gives the original string. */
  lemma {:induction false} JoinSplit(s: string, sep: string)
    requires |sep| > 0
    ensures Join(Split(s, sep), sep) == s
    decreases |s|
  {
    var f := Find(s, sep);
    if f.Some? {
      var i := f.value;
      var rest := s[i + |sep|..];
      var tail := Split(rest, sep);
      assert Split(s, sep) == [s[..i]] + tail;
      JoinSplit(rest, sep);
      JoinCons(s[..i], tail, sep);
      SliceThree(s, i, i + |sep|);
    }
  }

  /** No piece of a split contains the separator. */
  lemma {:induction false} SplitPiecesFree(s: string, sep: string)
    requires |sep| > 0
    ensures forall k :: 0 <= k < |Split(s, sep)| ==> !Contains(Split(s, sep)[k], sep)
    decreases |s|
  {
    match Find(s, sep)
    case None =>
    case Some(i) =>
      SplitPiecesFree(s[i + |sep|..], sep);
      var p := s[..i];
      forall j: nat ensures !OccursAt(p, sep, j) {
        if j + |sep| <= |p| {
          assert p[j..j + |sep|] == s[j..j + |sep|];
          assert !OccursAt(s, sep, j);
        }
      }
  }

  /** When a character `c` occurs in `sep` exactly once, at `k`, and not in `a`,
      the first occurrence of `sep` in `a + sep + rest` is the one after `a`. */
  lemma FirstOccurrenceAfter(a: string, sep: string, rest: string, c: char, k: nat)
    requires |sep| > 0 && k < |sep| && sep[k] == c
    requires forall m :: 0 <= m < |sep| && m != k ==> sep[m] != c
    requires c !in a
    ensures Find(a + sep + rest, sep) == Some(|a|)
  {
    var s := a + sep + rest;
    assert s[|a|..|a| + |sep|] == sep;
    assert OccursAt(s, sep, |a|);
    forall j: nat | j < |a| ensures !OccursAt(s, sep, j) {
      if j + |sep| <= |s| {
        assert s[j..j + |sep|][k] == s[j + k];
        if j + k < |a| {
          assert s[j + k] == a[j + k];
        } else {
          assert s[j + k] == sep[j + k - |a|];
        }
        assert s[j + k] != c;
      }
    }
  }

  lemma NotContainsMarker(a: string, sep: string, c: char)
    requires c in sep && c !in a
    ensures !Contains(a, sep)
  {
    var k :| 0 <= k < |sep| && sep[k] == c;
    forall j: nat ensures !OccursAt(a, sep, j) {
      if j + |sep| <= |a| {
        assert a[j..j + |sep|][k] == a[j + k];
      }
    }
  }

  /** `s.split(sep)` recovers pieces joined by `sep`, as long as some character
      occurs in `sep` exactly once and in none of the pieces. */
  lemma {:induction false} SplitJoin(parts: seq<string>, sep: string, c: char, k: nat)
    requires |parts| >= 1 && |sep| > 0 && k < |sep| && sep[k] == c
    requires forall m :: 0 <= m < |sep| && m != k ==> sep[m] != c
    requires forall p :: p in parts ==> c !in p
    ensures Split(Join(parts, sep), sep) == parts
  {
    if |parts| == 1 {
      NotContainsMarker(parts[0], sep, c);
    } else {
      var rest := Join(parts[1..], sep);
      FirstOccurrenceAfter(parts[0], sep, rest, c, k);
      var s := parts[0] + sep + rest;
      assert s[|parts[0]| + |sep|..] == rest;
      assert s[..|parts[0]|] == parts[0];
      SplitJoin(parts[1..], sep, c, k);
    }
  }

  /** Two pieces joined by the separator split back into those two pieces. */
  lemma SplitPair(a: string, b: string, sep: string, c: char, k: nat)
    requires |sep| > 0 && k < |sep| && sep[k] == c
    requires forall m :: 0 <= m < |sep| && m != k ==> sep[m] != c
    requires c !in a && c !in b
    ensures Split(a + sep + b, sep) == [a, b]
  {
    assert [a, b][1..] == [b];
    assert Join([a, b], sep) == a + sep + b;
    SplitJoin([a, b], sep, c, k);
  }

  /** A string whose first occurrence of the separator follows `x`, and whose
      rest `y` holds no further occurrence, splits into `x` and `y`. */
  lemma SplitAtFirst(x: string, y: string, sep: string)
    requires |sep| > 0
    requires forall j: nat :: j < |x| ==> !OccursAt(x + sep + y, sep, j)
    requires !Contains(y, sep)
    ensures Split(x + sep + y, sep) == [x, y]
  {
    var s := x + sep + y;
    assert s[|x|..|x| + |sep|] == sep;
    assert OccursAt(s, sep, |x|);
    assert Find(s, sep) == Some(|x|);
    assert s[..|x|] == x && s[|x| + |sep|..] == y;
    SplitAbsent(y, sep);
  }

  /** A string without the separator splits into itself alone. */
  lemma SplitAbsent(s: string, sep: string)
    requires |sep| > 0 && !Contains(s, sep)
    ensures Split(s, sep) == [s]
  {
  }
}
