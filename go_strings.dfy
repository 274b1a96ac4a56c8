/**
 * The handful of Go `strings` functions the two programs call, on `seq<char>`.
 * Each one is stated by what it promises about its result, and the lemmas at the
 * end are the round trips the callers rely on.
 */
module GoStrings {
  import opened Wrappers

  predicate HasPrefix(s: string, p: string) {
    |p| <= |s| && s[..|p|] == p
  }

  predicate HasSuffix(s: string, p: string) {
    |p| <= |s| && s[|s| - |p|..] == p
  }

  /** strings.TrimPrefix: drops `p` once from the front when it is there. */
  function TrimPrefix(s: string, p: string): (r: string)
    ensures HasPrefix(s, p) ==> s == p + r
    ensures !HasPrefix(s, p) ==> r == s
  {
    if HasPrefix(s, p) then s[|p|..] else s
  }

  /** strings.TrimSuffix: drops `p` once from the end when it is there. */
  function TrimSuffix(s: string, p: string): (r: string)
    ensures HasSuffix(s, p) ==> s == r + p
    ensures !HasSuffix(s, p) ==> r == s
  {
    if HasSuffix(s, p) then s[..|s| - |p|] else s
  }

  /** unicode.IsSpace: the Latin-1 spaces plus the other White_Space code points. */
  predicate IsSpace(c: char) {
    c == '\t' || c == '\n' || c == '\U{000B}' || c == '\U{000C}' || c == '\r' || c == ' '
    || c == '\U{0085}' || c == '\U{00A0}' || c == '\U{1680}'
    || ('\U{2000}' <= c <= '\U{200A}')
    || c == '\U{2028}' || c == '\U{2029}' || c == '\U{202F}' || c == '\U{205F}' || c == '\U{3000}'
  }

  predicate AllSpace(s: string) {
    forall i :: 0 <= i < |s| ==> IsSpace(s[i])
  }

  /** The suffix of `s` that starts at its first non-space character. */
  function TrimLeftSpace(s: string): (r: string)
    ensures |r| <= |s| && r == s[|s| - |r|..]
    ensures AllSpace(s[..|s| - |r|])
    ensures r != [] ==> !IsSpace(r[0])
  {
    if s != [] && IsSpace(s[0]) then TrimLeftSpace(s[1..]) else s
  }

  /** The prefix of `s` that ends at its last non-space character. */
  function TrimRightSpace(s: string): (r: string)
    ensures |r| <= |s| && r == s[..|r|]
    ensures AllSpace(s[|r|..])
    ensures r != [] ==> !IsSpace(r[|r| - 1])
  {
    if s != [] && IsSpace(s[|s| - 1]) then TrimRightSpace(s[..|s| - 1]) else s
  }

  /**
   * strings.TrimSpace: what is left of `s` after removing the white space at
   * both ends; it is empty exactly when `s` is all white space.
   */
  function TrimSpace(s: string): (r: string)
    ensures r != [] ==> !IsSpace(r[0]) && !IsSpace(r[|r| - 1])
    ensures r == [] <==> AllSpace(s)
  {
    var l := TrimLeftSpace(s);
    var r := TrimRightSpace(l);
    r
  }

  /** `t` sits in `s` at position `i` with only white space before and after it. */
  predicate PaddedAt(s: string, t: string, i: int) {
    0 <= i <= |s| - |t| && s[i..i + |t|] == t && AllSpace(s[..i]) && AllSpace(s[i + |t|..])
  }

  /** TrimSpace removes only white space: the result is an infix of `s` with white space around it. */
  lemma TrimSpaceInfix(s: string)
    ensures exists i :: PaddedAt(s, TrimSpace(s), i)
  {
    var l := TrimLeftSpace(s);
    var r := TrimRightSpace(l);
    assert TrimSpace(s) == r;
    var i := |s| - |l|;
    assert AllSpace(s[..i]);
    assert s[i..i + |r|] == r by {
      assert s[i..] == l;
      assert s[i..i + |r|] == l[..|r|];
    }
    assert AllSpace(s[i + |r|..]) by {
      assert s[i..] == l;
      assert s[i + |r|..] == l[|r|..];
    }
    assert PaddedAt(s, r, i);
  }

  /** `t` occurs in `s` starting at position `j`. */
  predicate OccursAt(s: string, t: string, j: int) {
    0 <= j && j + |t| <= |s| && s[j..j + |t|] == t
  }

  /** strings.Contains: `t` occurs somewhere in `s`. */
  predicate Contains(s: string, t: string) {
    exists j :: 0 <= j <= |s| && OccursAt(s, t, j)
  }

  /** strings.Index: the first position at which `t` occurs in `s`. */
  function IndexOf(s: string, t: string): (r: Option<nat>)
    ensures r.Some? ==> OccursAt(s, t, r.value)
    ensures r.Some? ==> forall j :: 0 <= j < r.value ==> !OccursAt(s, t, j)
    ensures r.None? ==> forall j :: !OccursAt(s, t, j)
    decreases |s|
  {
    if |s| < |t| then None
    else if s[..|t|] == t then Some(0)
    else
      match IndexOf(s[1..], t)
      case None =>
        assert forall j :: 1 <= j ==> (OccursAt(s, t, j) <==> OccursAt(s[1..], t, j - 1));
        None
      case Some(k) =>
        assert forall j :: 1 <= j ==> (OccursAt(s, t, j) <==> OccursAt(s[1..], t, j - 1));
        Some(k + 1)
  }

  /** The first position of character `c` in `s`. */
  function IndexOfChar(s: string, c: char): (r: Option<nat>)
    ensures r.Some? ==> r.value < |s| && s[r.value] == c && c !in s[..r.value]
    ensures r.None? <==> c !in s
  {
    if s == [] then None
    else if s[0] == c then Some(0)
    else
      match IndexOfChar(s[1..], c)
      case None => None
      case Some(k) =>
        assert s[..k + 1] == [s[0]] + s[1..][..k];
        Some(k + 1)
  }

  /**
   * strings.SplitN(s, [c], 2): the text before the first `c` and the text after
   * it, or None when `c` does not occur (SplitN then returns one part).
   */
  function SplitFirst(s: string, c: char): (r: Option<(string, string)>)
    ensures r.Some? ==> s == r.value.0 + [c] + r.value.1 && c !in r.value.0
    ensures r.None? <==> c !in s
  {
    match IndexOfChar(s, c)
    case None => None
    case Some(i) =>
      assert s == s[..i] + [c] + s[i + 1..];
      Some((s[..i], s[i + 1..]))
  }

  /** Joins pieces with a one-character separator (strings.Join). */
  function Join(parts: seq<string>, c: char): string {
    if parts == [] then []
    else if |parts| == 1 then parts[0]
    else parts[0] + [c] + Join(parts[1..], c)
  }

  /** strings.Split(s, [c]): the maximal `c`-free pieces of `s`, in order. */
  function Split(s: string, c: char): (r: seq<string>)
    ensures |r| >= 1
    ensures forall i :: 0 <= i < |r| ==> c !in r[i]
    ensures Join(r, c) == s
    ensures |r| == 1 <==> c !in s
    decreases |s|
  {
    match SplitFirst(s, c)
    case None => [s]
    case Some((before, after)) =>
      var rest := Split(after, c);
      assert ([before] + rest)[1..] == rest;
      [before] + rest
  }

  /**
   * strings.Replace(s, old, new, 1): replaces the first occurrence of `pat` by
   * `rep`; without an occurrence the text is returned as it is.
   */
  function ReplaceFirst(s: string, pat: string, rep: string): (r: string)
    ensures !Contains(s, pat) ==> r == s
    ensures Contains(s, pat) ==> |r| == |s| - |pat| + |rep|
  {
    match IndexOf(s, pat)
    case None => s
    case Some(i) => s[..i] + rep + s[i + |pat|..]
  }

  // ---- Round trips and consequences ----

  lemma {:induction false} SplitFirstOfJoin(k: string, v: string, c: char)
    requires c !in k
    ensures SplitFirst(k + [c] + v, c) == Some((k, v))
  {
    var s := k + [c] + v;
    var r := SplitFirst(s, c);
    assert c in s by { assert s[|k|] == c; }
    assert r.Some?;
    var (a, b) := r.value;
    assert forall i :: 0 <= i < |k| ==> s[i] == k[i];
    assert forall j :: |k| < j <= |s| ==> s[..j][|k|] == c;
    assert forall j :: |a| < j <= |s| ==> s[..j][|a|] == c;
    assert |a| == |k|;
    assert a == s[..|a|] == k;
    assert b == s[|a| + 1..] == v;
  }

  /** The first piece of Split is the text before the first separator. */
  lemma {:induction false} SplitFields(s: string, c: char)
    ensures c !in s ==> Split(s, c) == [s]
    ensures c in s ==>
      && |Split(s, c)| >= 2
      && Split(s, c)[0] == SplitFirst(s, c).value.0
      && Split(s, c)[1] == Split(SplitFirst(s, c).value.1, c)[0]
  {
  }

  /**
   * When the first character of a non-empty `pat` does not occur in `x`, the
   * first occurrence of `pat` in `x + pat + y` is right after `x`.
   */
  lemma ReplaceFirstAfter(x: string, pat: string, y: string, rep: string)
    requires |pat| > 0 && pat[0] !in x
    ensures ReplaceFirst(x + pat + y, pat, rep) == x + rep + y
  {
    var s := x + pat + y;
    assert OccursAt(s, pat, |x|);
    var r := IndexOf(s, pat);
    assert s[r.value] == s[r.value..r.value + |pat|][0] == pat[0];
    assert forall i :: 0 <= i < |x| ==> s[i] == x[i];
    assert r.value == |x|;
    assert s[..|x|] == x;
    assert s[|x| + |pat|..] == y;
  }

  lemma TrimPrefixOfConcat(p: string, s: string)
    ensures TrimPrefix(p + s, p) == s
  {
    assert (p + s)[..|p|] == p;
  }

  lemma TrimSuffixOfConcat(s: string, p: string)
    ensures TrimSuffix(s + p, p) == s
  {
    assert (s + p)[|s + p| - |p|..] == p;
  }

  /** A string with no white space at either end is its own TrimSpace. */
  lemma {:induction false} TrimSpaceOfTrimmed(s: string)
    requires s != [] ==> !IsSpace(s[0]) && !IsSpace(s[|s| - 1])
    ensures TrimSpace(s) == s
  {
  }

  lemma TrimSpaceIdempotent(s: string)
    ensures TrimSpace(TrimSpace(s)) == TrimSpace(s)
  {
    TrimSpaceOfTrimmed(TrimSpace(s));
  }

  /** White space after the last non-space character is all TrimRightSpace removes. */
  lemma {:induction false} TrimRightOfSpace(line: string, ws: string)
    requires line != [] && !IsSpace(line[|line| - 1]) && AllSpace(ws)
    ensures TrimRightSpace(line + ws) == line
    decreases |ws|
  {
    if ws == [] {
      assert line + ws == line;
    } else {
      var s := line + ws;
      assert s[..|s| - 1] == line + ws[..|ws| - 1];
      TrimRightOfSpace(line, ws[..|ws| - 1]);
    }
  }

  /** A line with no white space at its ends, followed by white space, trims back to the line. */
  lemma TrimSpaceOfTrimmedPlusSpace(line: string, ws: string)
    requires line != [] && !IsSpace(line[0]) && !IsSpace(line[|line| - 1]) && AllSpace(ws)
    ensures TrimSpace(line + ws) == line
  {
    assert (line + ws)[0] == line[0];
    TrimRightOfSpace(line, ws);
  }

  /** `pat` starts nowhere inside `x` when `x` is followed by `t`. */
  predicate NoStartIn(x: string, t: string, pat: string) {
    forall j :: 0 <= j < |x| ==> !OccursAt(x + t, pat, j)
  }

  /** A text without the pattern's first character holds no start of it. */
  lemma NoStartWithoutHead(x: string, t: string, pat: string)
    requires |pat| > 0 && pat[0] !in x
    ensures NoStartIn(x, t, pat)
  {
    forall j | 0 <= j < |x|
      ensures !OccursAt(x + t, pat, j)
    {
      assert (x + t)[j] == x[j] != pat[0];
    }
  }

  /**
   * A text free of the pattern holds no start of it either, when what follows
   * begins with a character the pattern lacks: an occurrence would have to run
   * into that character.
   */
  lemma NoStartBeforeStop(w: string, t: string, pat: string)
    requires |pat| > 0 && !Contains(w, pat) && t != [] && t[0] !in pat
    ensures NoStartIn(w, t, pat)
  {
    var s := w + t;
    forall j | 0 <= j < |w|
      ensures !OccursAt(s, pat, j)
    {
      if j + |pat| <= |w| {
        assert w[j..j + |pat|] == s[j..j + |pat|];
        assert !OccursAt(w, pat, j);
      } else if j + |pat| <= |s| {
        assert s[|w|] == t[0] != pat[|w| - j];
        assert s[j..j + |pat|][|w| - j] == s[|w|];
      }
    }
  }

  lemma NoStartConcat(x1: string, x2: string, t: string, pat: string)
    requires NoStartIn(x1, x2 + t, pat) && NoStartIn(x2, t, pat)
    ensures NoStartIn(x1 + x2, t, pat)
  {
    var s := x1 + x2 + t;
    assert s == x1 + (x2 + t);
    forall j | |x1| <= j < |x1| + |x2|
      ensures !OccursAt(s, pat, j)
    {
      assert s[|x1|..] == x2 + t;
      assert !OccursAt(x2 + t, pat, j - |x1|);
      if j + |pat| <= |s| {
        assert s[j..j + |pat|] == (x2 + t)[j - |x1|..j - |x1| + |pat|];
      }
    }
  }

  /** When `pat` starts nowhere before it, the first occurrence replaced is the one right after `x`. */
  lemma ReplaceFirstAt(x: string, pat: string, y: string, rep: string)
    requires NoStartIn(x, pat + y, pat)
    ensures ReplaceFirst(x + pat + y, pat, rep) == x + rep + y
  {
    var s := x + pat + y;
    assert s == x + (pat + y);
    assert OccursAt(s, pat, |x|);
    var r := IndexOf(s, pat);
    assert r.value == |x|;
    assert s[..|x|] == x;
    assert s[|x| + |pat|..] == y;
  }

  /**
   * Three placeholders, each starting with '{', replaced in order. The fixed
   * parts hold no '{', the second and third start with a character no later
   * placeholder has, and no inserted text holds a placeholder still to come.
   */
  lemma ReplaceFirstChain(a: string, b: string, c: string, p1: string, p2: string, p3: string,
                          r1: string, r2: string, r3: string)
    requires |p1| > 0 && |p2| > 0 && |p3| > 0 && p1[0] == '{' && p2[0] == '{' && p3[0] == '{'
    requires '{' !in a && '{' !in b && '{' !in c
    requires b != [] && b[0] !in p2 && b[0] !in p3 && c != [] && c[0] !in p3
    requires !Contains(r1, p2) && !Contains(r1, p3) && !Contains(r2, p3)
    ensures ReplaceFirst(ReplaceFirst(ReplaceFirst(a + p1 + b + p2 + c + p3, p1, r1), p2, r2), p3, r3)
         == a + r1 + b + r2 + c + r3
  {
    assert a + p1 + b + p2 + c + p3 == a + p1 + (b + p2 + c + p3);
    ReplaceFirstAfter(a, p1, b + p2 + c + p3, r1);
    assert a + r1 + (b + p2 + c + p3) == a + r1 + b + p2 + c + p3;
    ChainSecond(a, b, c, p2, p3, r1, r2);
    ChainThird(a, b, c, p3, r1, r2, r3);
  }

  /** The second replacement of the chain lands right after `a + r1 + b`. */
  lemma ChainSecond(a: string, b: string, c: string, p2: string, p3: string, r1: string, r2: string)
    requires |p2| > 0 && p2[0] !in a && p2[0] !in b
    requires !Contains(r1, p2) && b != [] && b[0] !in p2
    ensures ReplaceFirst(a + r1 + b + p2 + c + p3, p2, r2) == a + r1 + b + r2 + c + p3
  {
    var x, y := a + (r1 + b), c + p3;
    assert a + r1 + b + p2 + c + p3 == x + p2 + y by {
      assert a + r1 + b == x;
    }
    assert ReplaceFirst(x + p2 + y, p2, r2) == x + r2 + y by {
      FreeAround(a, r1, b, p2 + y, p2);
      ReplaceFirstAt(x, p2, y, r2);
    }
    assert x + r2 + y == a + r1 + b + r2 + c + p3 by {
      assert a + r1 + b == x;
    }
  }

  /** The third replacement of the chain lands right after `a + r1 + b + r2 + c`. */
  lemma ChainThird(a: string, b: string, c: string, p3: string, r1: string, r2: string, r3: string)
    requires |p3| > 0 && p3[0] !in a && p3[0] !in b && p3[0] !in c
    requires !Contains(r1, p3) && !Contains(r2, p3)
    requires b != [] && b[0] !in p3 && c != [] && c[0] !in p3
    ensures ReplaceFirst(a + r1 + b + r2 + c + p3, p3, r3) == a + r1 + b + r2 + c + r3
  {
    var x1, x2 := a + (r1 + b), r2 + c;
    FreeAround(a, r1, b, x2 + (p3 + ""), p3);
    FreeThenStop(r2, c, p3 + "", p3);
    NoStartConcat(x1, x2, p3 + "", p3);
    assert a + r1 + b + r2 + c + p3 == (x1 + x2) + p3 + "";
    ReplaceFirstAt(x1 + x2, p3, "", r3);
    assert (x1 + x2) + r3 + "" == a + r1 + b + r2 + c + r3;
  }

  /** No start of `pat` in `w + b` before `t`: `w` lacks it whole, `b` lacks its head and opens with a character it lacks. */
  lemma FreeThenStop(w: string, b: string, t: string, pat: string)
    requires |pat| > 0 && pat[0] !in b && !Contains(w, pat) && b != [] && b[0] !in pat
    ensures NoStartIn(w + b, t, pat)
  {
    NoStartWithoutHead(b, t, pat);
    assert (b + t)[0] == b[0];
    NoStartBeforeStop(w, b + t, pat);
    assert w + (b + t) == w + b + t;
    NoStartConcat(w, b, t, pat);
  }

  /** No start of `pat` in `a + (w + b)` before `t`, when `a` lacks its head too. */
  lemma FreeAround(a: string, w: string, b: string, t: string, pat: string)
    requires |pat| > 0 && pat[0] !in a && pat[0] !in b
    requires !Contains(w, pat) && b != [] && b[0] !in pat
    ensures NoStartIn(a + (w + b), t, pat)
  {
    FreeThenStop(w, b, t, pat);
    assert a + ((w + b) + t) == a + (w + b) + t;
    NoStartWithoutHead(a, (w + b) + t, pat);
    NoStartConcat(a, w + b, t, pat);
  }


}
