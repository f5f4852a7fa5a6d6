/**
 * The few Python string operations the two scripts rely on, written out:
 * `str.strip()`, `str.find`, `str.split(sep, maxsplit)`, `str.startswith`,
 * the substring test `a in b` and ASCII lower-casing.
 */
module Text {

  /** The characters Python's `str.isspace` accepts, which `str.strip()` removes. */
  const WHITESPACE: set<char> := {
    ' ', '\t', '\n', '\r', '\U{0B}', '\U{0C}', '\U{1C}', '\U{1D}', '\U{1E}', '\U{1F}',
    '\U{85}', '\U{A0}', '\U{1680}',
    '\U{2000}', '\U{2001}', '\U{2002}', '\U{2003}', '\U{2004}', '\U{2005}',
    '\U{2006}', '\U{2007}', '\U{2008}', '\U{2009}', '\U{200A}',
    '\U{2028}', '\U{2029}', '\U{202F}', '\U{205F}', '\U{3000}'
  }

  predicate IsSpace(c: char) {
    c in WHITESPACE
  }

  predicate AllSpace(s: string) {
    forall i :: 0 <= i < |s| ==> IsSpace(s[i])
  }

  /** No whitespace at either end: what `strip` leaves behind. */
  predicate Unpadded(s: string) {
    s == [] || (!IsSpace(s[0]) && !IsSpace(s[|s| - 1]))
  }

  function StripStart(s: string): (r: string)
    ensures |r| <= |s| && r == s[|s| - |r|..]
    ensures AllSpace(s[..|s| - |r|])
    ensures r == [] || !IsSpace(r[0])
  {
    if s == [] || !IsSpace(s[0]) then s
    else
      var r := StripStart(s[1..]);
      StripStartStep(s, r);
      r
  }

  lemma StripStartStep(s: string, r: string)
    requires s != [] && IsSpace(s[0])
    requires |r| <= |s| - 1 && r == s[1..][|s| - 1 - |r|..] && AllSpace(s[1..][..|s| - 1 - |r|])
    ensures r == s[|s| - |r|..] && AllSpace(s[..|s| - |r|])
  {
    var k := |s| - 1 - |r|;
    assert s[1..][k..] == s[k + 1..];
    assert s[..k + 1] == [s[0]] + s[1..][..k];
  }

  function StripEnd(s: string): (r: string)
    ensures |r| <= |s| && r == s[..|r|]
    ensures AllSpace(s[|r|..])
    ensures r == [] || !IsSpace(r[|r| - 1])
  {
    if s == [] || !IsSpace(s[|s| - 1]) then s
    else
      var r := StripEnd(s[..|s| - 1]);
      StripEndStep(s, r);
      r
  }

  lemma StripEndStep(s: string, r: string)
    requires s != [] && IsSpace(s[|s| - 1])
    requires |r| <= |s| - 1 && r == s[..|s| - 1][..|r|] && AllSpace(s[..|s| - 1][|r|..])
    ensures r == s[..|r|] && AllSpace(s[|r|..])
  {
    assert s[..|s| - 1][..|r|] == s[..|r|];
    assert s[|r|..] == s[..|s| - 1][|r|..] + [s[|s| - 1]];
  }

  /** `r` is the slice `s[i..i + |r|]` and only whitespace lies around it. */
  predicate TrimmedAt(s: string, i: int, r: string) {
    0 <= i <= |s| - |r| && s[i..i + |r|] == r && AllSpace(s[..i]) && AllSpace(s[i + |r|..])
  }

  /**
   * Python's `s.strip()`: `s` with its leading and trailing whitespace removed.
   * The result is the piece of `s` that sits between two all-whitespace margins
   * and does not itself start or end with whitespace.
   */
  function Strip(s: string): (r: string)
    ensures Unpadded(r)
    ensures exists i :: TrimmedAt(s, i, r)
  {
    var a := StripStart(s);
    var r := StripEnd(a);
    StripTrimmed(s, a, r);
    r
  }

  /** Cutting whitespace off the front and then off the back leaves a trimmed slice. */
  lemma StripTrimmed(s: string, a: string, r: string)
    requires |a| <= |s| && a == s[|s| - |a|..] && AllSpace(s[..|s| - |a|])
    requires |r| <= |a| && r == a[..|r|] && AllSpace(a[|r|..])
    ensures TrimmedAt(s, |s| - |a|, r)
  {
    var i := |s| - |a|;
    assert s[i..i + |r|] == r;
    assert s[i + |r|..] == a[|r|..];
  }

  /** A string that has no whitespace at its ends is its own `strip()`. */
  lemma StripUnpadded(s: string)
    requires Unpadded(s)
    ensures Strip(s) == s
  {
  }

  /** `strip()` is idempotent. */
  lemma StripIdempotent(s: string)
    ensures Strip(Strip(s)) == Strip(s)
  {
    StripUnpadded(Strip(s));
  }

  /** Python's `s.startswith(p)`. */
  predicate StartsWith(s: string, p: string) {
    |p| <= |s| && s[..|p|] == p
  }

  /** Python's `needle in hay` on strings: `needle` occurs somewhere in `hay`. */
  predicate Contains(hay: string, needle: string) {
    exists i :: 0 <= i <= |hay| && StartsWith(hay[i..], needle)
  }

  /** The empty string occurs in every string. */
  lemma ContainsEmpty(hay: string)
    ensures Contains(hay, "")
  {
    assert StartsWith(hay[0..], "");
  }

  /** A string occurs in any string that has it in the middle. */
  lemma ContainsMiddle(a: string, b: string, c: string)
    ensures Contains(a + b + c, b)
  {
    assert (a + b + c)[|a|..][..|b|] == b;
    assert StartsWith((a + b + c)[|a|..], b);
  }

  /** Python's `s.find(c)`: the first index of `c` in `s`, or -1. */
  function Find(s: string, c: char): (r: int)
    ensures -1 <= r < |s|
    ensures r == -1 <==> c !in s
    ensures r >= 0 ==> s[r] == c && c !in s[..r]
  {
    if s == [] then -1
    else if s[0] == c then 0
    else
      var k := Find(s[1..], c);
      if k == -1 then -1
      else
        assert s[..k + 1] == [s[0]] + s[1..][..k];
        k + 1
  }

  /** `Find` returns the position of the first occurrence, wherever that is. */
  lemma {:induction false} FindFirst(s: string, c: char, k: int)
    requires 0 <= k < |s| && s[k] == c && c !in s[..k]
    ensures Find(s, c) == k
  {
    if k > 0 {
      assert s[1..][..k - 1] == s[1..k];
      assert s[0] == s[..k][0];
      FindFirst(s[1..], c, k - 1);
    }
  }

  /** How many times `c` occurs in `s`. */
  function Count(s: string, c: char): nat {
    if s == [] then 0 else (if s[0] == c then 1 else 0) + Count(s[1..], c)
  }

  lemma {:induction false} CountAbsent(s: string, c: char)
    requires c !in s
    ensures Count(s, c) == 0
  {
    if s != [] {
      CountAbsent(s[1..], c);
    }
  }

  /** The text before the first `sep` in `s`. */
  function Before(s: string, sep: char): string
    requires sep in s
  {
    if s[0] == sep then [] else [s[0]] + Before(s[1..], sep)
  }

  /** The text after the first `sep` in `s`. */
  function After(s: string, sep: char): string
    requires sep in s
  {
    if s[0] == sep then s[1..] else After(s[1..], sep)
  }

  /** Cutting at the first separator splits the string into the text before, the separator and the text after. */
  lemma {:induction false} Cut(s: string, sep: char)
    requires sep in s
    ensures s == Before(s, sep) + [sep] + After(s, sep)
    ensures sep !in Before(s, sep)
    ensures Count(s, sep) == Count(After(s, sep), sep) + 1
  {
    if s[0] == sep {
      assert s == [sep] + s[1..];
    } else {
      Cut(s[1..], sep);
      CutConsJoin(s, sep);
      CutConsRest(s, sep);
    }
  }

  lemma CutConsJoin(s: string, sep: char)
    requires sep in s && s[0] != sep
    requires s[1..] == Before(s[1..], sep) + [sep] + After(s[1..], sep)
    ensures s == Before(s, sep) + [sep] + After(s, sep)
  {
    assert s == [s[0]] + s[1..];
    ConcatAssoc([s[0]], Before(s[1..], sep) + [sep], After(s[1..], sep));
    ConcatAssoc([s[0]], Before(s[1..], sep), [sep]);
  }

  /** String concatenation is associative. */
  lemma ConcatAssoc(x: string, y: string, z: string)
    ensures x + (y + z) == x + y + z
  {
  }

  lemma CutConsRest(s: string, sep: char)
    requires sep in s && s[0] != sep
    requires sep !in Before(s[1..], sep)
    requires Count(s[1..], sep) == Count(After(s[1..], sep), sep) + 1
    ensures sep !in Before(s, sep)
    ensures Count(s, sep) == Count(After(s, sep), sep) + 1
  {
  }

  /** The first separator of `head + [sep] + tail`, when `head` has none, is the one after `head`. */
  lemma {:induction false} CutAt(head: string, tail: string, sep: char)
    requires sep !in head
    ensures sep in head + [sep] + tail
    ensures Before(head + [sep] + tail, sep) == head && After(head + [sep] + tail, sep) == tail
  {
    var s := head + [sep] + tail;
    assert s[|head|] == sep;
    if head == [] {
      assert s[1..] == tail;
    } else {
      assert s[1..] == head[1..] + [sep] + tail;
      CutAt(head[1..], tail, sep);
      assert head == [head[0]] + head[1..];
    }
  }

  /**
   * Python's `s.split(sep, maxsplit)` for a one-character separator: cut at the
   * first `maxsplit` occurrences of `sep`, left to right, keeping empty pieces.
   */
  function Split(s: string, sep: char, maxsplit: nat): (parts: seq<string>)
    ensures 1 <= |parts| <= maxsplit + 1
    decreases maxsplit
  {
    if maxsplit == 0 || sep !in s then [s]
    else [Before(s, sep)] + Split(After(s, sep), sep, maxsplit - 1)
  }

  /** Python's `sep.join(parts)`: the inverse of `Split`. */
  function Join(parts: seq<string>, sep: char): string {
    if parts == [] then ""
    else if |parts| == 1 then parts[0]
    else parts[0] + [sep] + Join(parts[1..], sep)
  }

  lemma JoinCons(head: string, rest: seq<string>, sep: char)
    requires rest != []
    ensures Join([head] + rest, sep) == head + [sep] + Join(rest, sep)
  {
    assert ([head] + rest)[1..] == rest;
  }

  /** Without a cut to make, `split` returns the whole string. */
  lemma SplitWhole(s: string, sep: char, maxsplit: nat)
    requires maxsplit == 0 || sep !in s
    ensures Split(s, sep, maxsplit) == [s]
  {
  }

  /** With a cut to make, `split` cuts at the first separator and splits the rest with one cut fewer. */
  lemma SplitOnce(s: string, sep: char, maxsplit: nat)
    requires maxsplit > 0 && sep in s
    ensures Split(s, sep, maxsplit) == [Before(s, sep)] + Split(After(s, sep), sep, maxsplit - 1)
  {
  }

  /** Every piece but the last is free of the separator. */
  predicate SepFree(parts: seq<string>, sep: char) {
    forall i :: 0 <= i < |parts| - 1 ==> sep !in parts[i]
  }

  /** Joining the pieces of a split gives back the original string. */
  lemma {:induction false} JoinSplit(s: string, sep: char, maxsplit: nat)
    ensures Join(Split(s, sep, maxsplit), sep) == s
    decreases maxsplit, 1
  {
    if maxsplit > 0 && sep in s {
      JoinSplitStep(s, sep, maxsplit);
    } else {
      SplitWhole(s, sep, maxsplit);
    }
  }

  lemma {:induction false} JoinSplitStep(s: string, sep: char, maxsplit: nat)
    requires maxsplit > 0 && sep in s
    ensures Join(Split(s, sep, maxsplit), sep) == s
    decreases maxsplit, 0
  {
    JoinSplit(After(s, sep), sep, maxsplit - 1);
    JoinSplitCut(s, sep, maxsplit);
  }

  lemma JoinSplitCut(s: string, sep: char, maxsplit: nat)
    requires maxsplit > 0 && sep in s
    requires Join(Split(After(s, sep), sep, maxsplit - 1), sep) == After(s, sep)
    ensures Join(Split(s, sep, maxsplit), sep) == s
  {
    SplitOnce(s, sep, maxsplit);
    JoinCons(Before(s, sep), Split(After(s, sep), sep, maxsplit - 1), sep);
    Cut(s, sep);
  }

  /** Python's `split` with `maxsplit` makes one cut per separator, up to `maxsplit` cuts. */
  lemma {:induction false} SplitLength(s: string, sep: char, maxsplit: nat)
    ensures |Split(s, sep, maxsplit)| == Cuts(s, sep, maxsplit) + 1
    decreases maxsplit
  {
    if maxsplit > 0 && sep in s {
      SplitLength(After(s, sep), sep, maxsplit - 1);
      SplitLengthStep(s, sep, maxsplit);
    } else {
      SplitLengthWhole(s, sep, maxsplit);
    }
  }

  /** The number of cuts `split(sep, maxsplit)` makes: one per separator, at most `maxsplit`. */
  function Cuts(s: string, sep: char, maxsplit: nat): nat {
    if Count(s, sep) < maxsplit then Count(s, sep) else maxsplit
  }

  lemma SplitLengthStep(s: string, sep: char, maxsplit: nat)
    requires maxsplit > 0 && sep in s
    requires |Split(After(s, sep), sep, maxsplit - 1)| == Cuts(After(s, sep), sep, maxsplit - 1) + 1
    ensures |Split(s, sep, maxsplit)| == Cuts(s, sep, maxsplit) + 1
  {
    SplitOnce(s, sep, maxsplit);
    Cut(s, sep);
  }

  lemma SplitLengthWhole(s: string, sep: char, maxsplit: nat)
    requires maxsplit == 0 || sep !in s
    ensures |Split(s, sep, maxsplit)| == Cuts(s, sep, maxsplit) + 1
  {
    SplitWhole(s, sep, maxsplit);
    if sep !in s {
      CountAbsent(s, sep);
    }
  }

  /** Every piece of a split but the last is free of the separator. */
  lemma {:induction false} SplitPieces(s: string, sep: char, maxsplit: nat)
    ensures SepFree(Split(s, sep, maxsplit), sep)
    decreases maxsplit
  {
    if maxsplit > 0 && sep in s {
      SplitPieces(After(s, sep), sep, maxsplit - 1);
      SplitPiecesStep(s, sep, maxsplit);
    } else {
      SplitWhole(s, sep, maxsplit);
    }
  }

  lemma SplitPiecesStep(s: string, sep: char, maxsplit: nat)
    requires maxsplit > 0 && sep in s
    requires SepFree(Split(After(s, sep), sep, maxsplit - 1), sep)
    ensures SepFree(Split(s, sep, maxsplit), sep)
  {
    var rest := Split(After(s, sep), sep, maxsplit - 1);
    SplitOnce(s, sep, maxsplit);
    Cut(s, sep);
    forall i | 0 <= i < |rest|
      ensures sep !in ([Before(s, sep)] + rest)[i]
    {
      if i > 0 {
        assert ([Before(s, sep)] + rest)[i] == rest[i - 1];
      }
    }
  }

  /**
   * Splitting a joined string with one cut fewer than there are pieces recovers the
   * pieces, provided all but the last are free of the separator (the last piece may
   * hold separators: the cuts run out before it).
   */
  lemma {:induction false} SplitJoin(parts: seq<string>, sep: char)
    requires |parts| >= 1 && SepFree(parts, sep)
    ensures Split(Join(parts, sep), sep, |parts| - 1) == parts
  {
    if |parts| > 1 {
      SepFreeTail(parts, sep);
      SplitJoin(parts[1..], sep);
      SplitJoinStep(parts, sep);
    } else {
      SplitJoinOne(parts, sep);
    }
  }

  lemma SepFreeTail(parts: seq<string>, sep: char)
    requires |parts| > 1 && SepFree(parts, sep)
    ensures sep !in parts[0] && SepFree(parts[1..], sep)
  {
    assert forall i :: 0 <= i < |parts| - 2 ==> parts[1..][i] == parts[i + 1];
  }

  lemma SplitJoinOne(parts: seq<string>, sep: char)
    requires |parts| == 1
    ensures Split(Join(parts, sep), sep, 0) == parts
  {
    assert parts == [parts[0]];
  }

  lemma SplitJoinStep(parts: seq<string>, sep: char)
    requires |parts| > 1 && sep !in parts[0]
    requires Split(Join(parts[1..], sep), sep, |parts[1..]| - 1) == parts[1..]
    ensures Split(Join(parts, sep), sep, |parts| - 1) == parts
  {
    JoinCut(parts, sep);
    SplitOnce(Join(parts, sep), sep, |parts| - 1);
    assert parts == [parts[0]] + parts[1..];
  }

  /** In a join whose first piece is separator-free, the first separator is the one after that piece. */
  lemma JoinCut(parts: seq<string>, sep: char)
    requires |parts| > 1 && sep !in parts[0]
    ensures sep in Join(parts, sep)
    ensures Before(Join(parts, sep), sep) == parts[0] && After(Join(parts, sep), sep) == Join(parts[1..], sep)
  {
    assert Join(parts, sep) == parts[0] + [sep] + Join(parts[1..], sep);
    CutAt(parts[0], Join(parts[1..], sep), sep);
  }

  function LowerChar(c: char): char {
    if 'A' <= c <= 'Z' then (c as int + 32) as char else c
  }

  /** Python's `str.lower()` restricted to ASCII letters. */
  function AsciiLower(s: string): (r: string)
    ensures |r| == |s|
    ensures forall i :: 0 <= i < |s| ==> r[i] == LowerChar(s[i])
  {
    if s == [] then [] else [LowerChar(s[0])] + AsciiLower(s[1..])
  }
}
