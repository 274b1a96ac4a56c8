/**
 * The key-path scanner of `jo` (jo/cmd/root.go, parseKeyPath): it turns
 * `users[123][name]` into ["users", "123", "name"] in one pass, keeping a
 * "inside brackets" flag and an accumulator for the segment being read.
 *
 * `Step`, `Run` and `Finish` state the scan one character at a time;
 * `Tokenize` is the whole scan, and the method `ParseKeyPath` is the loop the
 * program runs, proved equal to it. The lemmas characterise `Tokenize` by an
 * independent description of key paths: layouts of bare text and bracketed
 * groups (`Piece`, `Render`).
 */
module KeyPath {
  import opened Wrappers

  /** The five ways a key path can be malformed, one per `return nil, err` of the scan. */
  datatype PathError =
    | NestedBracket    // a '[' while a bracket is already open
    | UnmatchedClose   // a ']' with no bracket open
    | EmptyBrackets    // "[]"
    | UnclosedBracket  // the input ends inside a bracket
    | NoKeys           // no segment at all

  predicate BracketFree(s: string) {
    '[' !in s && ']' !in s
  }

  /** What every segment of a parsed path satisfies: non-empty and free of brackets. */
  predicate ValidSegments(keys: seq<string>) {
    forall i :: 0 <= i < |keys| ==> keys[i] != "" && BracketFree(keys[i])
  }

  /** The scanner's state: the segments emitted so far, the accumulator and the flag. */
  datatype Scanner = Scanner(keys: seq<string>, current: string, inBracket: bool)

  const Start := Scanner([], "", false)

  /** The accumulator as a list of segments: emitted only when non-empty. */
  function Flush(current: string): seq<string> {
    if current == "" then [] else [current]
  }

  /** The scanner reading one character. */
  function Step(st: Scanner, c: char): Result<Scanner, PathError> {
    if c == '[' then
      if st.inBracket then Err(NestedBracket)
      else Ok(Scanner(st.keys + Flush(st.current), "", true))
    else if c == ']' then
      if !st.inBracket then Err(UnmatchedClose)
      else if st.current == "" then Err(EmptyBrackets)
      else Ok(Scanner(st.keys + [st.current], "", false))
    else
      Ok(st.(current := st.current + [c]))
  }

  /** The scanner reading a whole string; the first error stops it. */
  function Run(st: Scanner, s: string): Result<Scanner, PathError>
    decreases |s|
  {
    if s == [] then Ok(st)
    else
      match Step(st, s[0])
      case Err(e) => Err(e)
      case Ok(next) => Run(next, s[1..])
  }

  /** The checks after the last character. */
  function Finish(st: Scanner): Result<seq<string>, PathError> {
    if st.inBracket then Err(UnclosedBracket)
    else
      var keys := st.keys + Flush(st.current);
      if keys == [] then Err(NoKeys) else Ok(keys)
  }

  /** The segments of a key path, or the reason it is malformed. */
  function Tokenize(s: string): Result<seq<string>, PathError> {
    match Run(Start, s)
    case Err(e) => Err(e)
    case Ok(st) => Finish(st)
  }

  /** The scan as the program runs it: a loop over the characters. */
  method ParseKeyPath(keyPath: string) returns (r: Result<seq<string>, PathError>)
    ensures r == Tokenize(keyPath)
    ensures r.Ok? ==> |r.value| > 0 && ValidSegments(r.value)
  {
    TokenizeWellFormed(keyPath);
    var keys: seq<string> := [];
    var current: string := "";
    var inBracket := false;
    var i := 0;
    while i < |keyPath|
      invariant 0 <= i <= |keyPath|
      invariant Run(Scanner(keys, current, inBracket), keyPath[i..]) == Run(Start, keyPath)
    {
      var c := keyPath[i];
      ghost var before := Scanner(keys, current, inBracket);
      assert keyPath[i..][0] == c && keyPath[i..][1..] == keyPath[i + 1..];
      if c == '[' {
        if inBracket {
          return Err(NestedBracket);
        }
        assert keys + Flush(current) == if current != "" then keys + [current] else keys;
        if current != "" {
          keys := keys + [current];
          current := "";
        }
        inBracket := true;
      } else if c == ']' {
        if !inBracket {
          return Err(UnmatchedClose);
        }
        if current == "" {
          return Err(EmptyBrackets);
        }
        keys := keys + [current];
        current := "";
        inBracket := false;
      } else {
        current := current + [c];
      }
      assert Step(before, c) == Ok(Scanner(keys, current, inBracket));
      i := i + 1;
    }
    assert keyPath[i..] == [];
    assert Run(Start, keyPath) == Ok(Scanner(keys, current, inBracket));
    ghost var final := Scanner(keys, current, inBracket);
    if inBracket {
      return Err(UnclosedBracket);
    }
    if current != "" {
      keys := keys + [current];
    }
    assert keys == final.keys + Flush(final.current);
    if |keys| == 0 {
      return Err(NoKeys);
    }
    return Ok(keys);
  }

  // ---- The scan keeps its segments well formed ----

  lemma {:induction false} RunKeepsSegmentsValid(st: Scanner, s: string)
    requires ValidSegments(st.keys) && BracketFree(st.current)
    ensures Run(st, s).Ok? ==> ValidSegments(Run(st, s).value.keys) && BracketFree(Run(st, s).value.current)
    decreases |s|
  {
    if s != [] {
      match Step(st, s[0])
      case Err(_) =>
      case Ok(next) => RunKeepsSegmentsValid(next, s[1..]);
    }
  }

  /** On success the path is a non-empty list of non-empty, bracket-free segments. */
  lemma TokenizeWellFormed(s: string)
    ensures Tokenize(s).Ok? ==> |Tokenize(s).value| > 0 && ValidSegments(Tokenize(s).value)
  {
    RunKeepsSegmentsValid(Start, s);
  }

  /** Scanning a concatenation is scanning its halves one after the other. */
  lemma {:induction false} RunAppend(st: Scanner, a: string, b: string)
    ensures Run(st, a + b) == match Run(st, a) case Err(e) => Err(e) case Ok(mid) => Run(mid, b)
    decreases |a|
  {
    if a == [] {
      assert a + b == b;
    } else {
      assert (a + b)[0] == a[0];
      assert (a + b)[1..] == a[1..] + b;
      match Step(st, a[0])
      case Err(_) =>
      case Ok(next) => RunAppend(next, a[1..], b);
    }
  }

  /** Bracket-free text only grows the accumulator. */
  lemma {:induction false} RunPlain(st: Scanner, t: string)
    requires BracketFree(t)
    ensures Run(st, t) == Ok(st.(current := st.current + t))
    decreases |t|
  {
    if t != [] {
      assert t[0] in t;
      assert Step(st, t[0]) == Ok(st.(current := st.current + [t[0]]));
      assert forall x :: x in t[1..] ==> x in t;
      assert st.current + [t[0]] + t[1..] == st.current + t;
      RunPlain(st.(current := st.current + [t[0]]), t[1..]);
    } else {
      assert st.current + t == st.current;
    }
  }

  // ---- Key paths described by their layout ----

  /** A piece of a key path: text outside brackets, or the text of one bracket pair. */
  datatype Piece = Bare(text: string) | Group(text: string)

  function RenderPiece(p: Piece): string {
    match p
    case Bare(t) => t
    case Group(t) => "[" + t + "]"
  }

  function Render(layout: seq<Piece>): string {
    if layout == [] then "" else RenderPiece(layout[0]) + Render(layout[1..])
  }

  function Texts(layout: seq<Piece>): seq<string> {
    if layout == [] then [] else [layout[0].text] + Texts(layout[1..])
  }

  /**
   * The layouts of well-formed key paths: every text non-empty and free of
   * brackets, and no two bare texts side by side (they would read as one).
   */
  predicate WellFormedLayout(layout: seq<Piece>) {
    && (forall i :: 0 <= i < |layout| ==> layout[i].text != "" && BracketFree(layout[i].text))
    && (forall i :: 0 <= i < |layout| - 1 ==> !(layout[i].Bare? && layout[i + 1].Bare?))
  }

  lemma RunGroup(st: Scanner, t: string)
    requires !st.inBracket && t != "" && BracketFree(t)
    ensures Run(st, "[" + t + "]") == Ok(Scanner(st.keys + Flush(st.current) + [t], "", false))
  {
    var s := "[" + t + "]";
    var open := Scanner(st.keys + Flush(st.current), "", true);
    assert s[0] == '[' && s[1..] == t + "]";
    assert Step(st, '[') == Ok(open);
    assert Run(st, s) == Run(open, t + "]");
    RunAppend(open, t, "]");
    RunPlain(open, t);
    var filled := open.(current := "" + t);
    assert "" + t == t;
    assert Step(filled, ']') == Ok(Scanner(st.keys + Flush(st.current) + [t], "", false));
    assert Run(filled, "]") == Ok(Scanner(st.keys + Flush(st.current) + [t], "", false));
  }

  /** The scanner after one piece of a layout. */
  function AfterPiece(st: Scanner, p: Piece): Scanner {
    if p.Bare? then st.(current := st.current + p.text) else Scanner(st.keys + Flush(st.current) + [p.text], "", false)
  }

  /** Reading the first piece of a layout leaves a scanner from which the rest reads the same way. */
  lemma RunFirstPiece(st: Scanner, layout: seq<Piece>)
    requires !st.inBracket && BracketFree(st.current)
    requires WellFormedLayout(layout) && |layout| > 0
    requires layout[0].Bare? ==> st.current == ""
    ensures Run(st, Render(layout)) == Run(AfterPiece(st, layout[0]), Render(layout[1..]))
    ensures !AfterPiece(st, layout[0]).inBracket && BracketFree(AfterPiece(st, layout[0]).current)
    ensures |layout| > 1 && layout[1].Bare? ==> AfterPiece(st, layout[0]).current == ""
    ensures AfterPiece(st, layout[0]).keys + Flush(AfterPiece(st, layout[0]).current)
         == st.keys + Flush(st.current) + [layout[0].text]
  {
    var head := layout[0];
    var mid := AfterPiece(st, head);
    if head.Bare? {
      RunPlain(st, head.text);
      assert mid.current == head.text && Flush(st.current) == [];
    } else {
      RunGroup(st, head.text);
    }
    assert Render(layout) == RenderPiece(head) + Render(layout[1..]);
    RunAppend(st, RenderPiece(head), Render(layout[1..]));
  }

  /** A scan that ended outside brackets, having collected `base + texts` once its last text is flushed. */
  predicate ReadOut(r: Result<Scanner, PathError>, base: seq<string>, texts: seq<string>) {
    && r.Ok? && !r.value.inBracket && BracketFree(r.value.current)
    && r.value.keys + Flush(r.value.current) == base + texts
  }

  lemma WellFormedTail(layout: seq<Piece>)
    requires WellFormedLayout(layout) && |layout| > 0
    ensures WellFormedLayout(layout[1..])
  {
  }

  lemma ReadOutCons(r: Result<Scanner, PathError>, base: seq<string>, t: string, texts: seq<string>)
    requires ReadOut(r, base + [t], texts)
    ensures ReadOut(r, base, [t] + texts)
  {
    assert base + [t] + texts == base + ([t] + texts);
  }

  lemma {:induction false} RunRender(st: Scanner, layout: seq<Piece>)
    requires !st.inBracket && BracketFree(st.current)
    requires WellFormedLayout(layout)
    requires |layout| > 0 && layout[0].Bare? ==> st.current == ""
    ensures ReadOut(Run(st, Render(layout)), st.keys + Flush(st.current), Texts(layout))
    decreases |layout|
  {
    if layout == [] {
      assert Render(layout) == "";
      assert Texts(layout) == [];
      assert st.keys + Flush(st.current) + [] == st.keys + Flush(st.current);
    } else {
      var rest := layout[1..];
      WellFormedTail(layout);
      RunFirstPiece(st, layout);
      var mid := AfterPiece(st, layout[0]);
      RunRender(mid, rest);
      ReadOutCons(Run(mid, Render(rest)), st.keys + Flush(st.current), layout[0].text, Texts(rest));
    }
  }

  lemma {:induction false} TextsLength(layout: seq<Piece>)
    ensures |Texts(layout)| == |layout|
  {
    if layout != [] {
      TextsLength(layout[1..]);
    }
  }

  /** A well-formed layout reads back as exactly its texts, in order. */
  lemma TokenizeRender(layout: seq<Piece>)
    requires WellFormedLayout(layout) && |layout| > 0
    ensures Tokenize(Render(layout)) == Ok(Texts(layout))
  {
    RunRender(Start, layout);
    TextsLength(layout);
    var st := Run(Start, Render(layout)).value;
    assert Start.keys + Flush(Start.current) + Texts(layout) == Texts(layout);
    assert Finish(st) == Ok(Texts(layout));
  }

  // ---- The round trip for the usual `k0[k1][k2]` form ----

  function Groups(keys: seq<string>): seq<Piece> {
    if keys == [] then [] else [Group(keys[0])] + Groups(keys[1..])
  }

  /** `k0[k1]...[kn]`, the key path that names the segments `keys`. */
  function Brackets(keys: seq<string>): string {
    if keys == [] then "" else "[" + keys[0] + "]" + Brackets(keys[1..])
  }

  lemma {:induction false} GroupsProperties(keys: seq<string>)
    requires ValidSegments(keys)
    ensures |Groups(keys)| == |keys|
    ensures forall i :: 0 <= i < |keys| ==> Groups(keys)[i] == Group(keys[i])
    ensures WellFormedLayout(Groups(keys))
    ensures Render(Groups(keys)) == Brackets(keys)
    ensures Texts(Groups(keys)) == keys
  {
    if keys != [] {
      GroupsProperties(keys[1..]);
      assert Brackets(keys) == "[" + keys[0] + "]" + Brackets(keys[1..]);
    }
  }

  /** Joining non-empty, bracket-free segments as `k0[k1]...[kn]` and parsing gives them back. */
  lemma TokenizeRoundTrip(keys: seq<string>)
    requires |keys| > 0 && ValidSegments(keys)
    ensures Tokenize(keys[0] + Brackets(keys[1..])) == Ok(keys)
  {
    var rest := keys[1..];
    GroupsProperties(rest);
    var layout := [Bare(keys[0])] + Groups(rest);
    assert layout[1..] == Groups(rest);
    assert WellFormedLayout(layout);
    assert Render(layout) == keys[0] + Brackets(rest);
    assert Texts(layout) == keys;
    TokenizeRender(layout);
  }

  /** An empty text before the first bracket is dropped: `[a][b]` parses as ["a", "b"]. */
  lemma TokenizeBracketsOnly(keys: seq<string>)
    requires |keys| > 0 && ValidSegments(keys)
    ensures Tokenize(Brackets(keys)) == Ok(keys)
  {
    GroupsProperties(keys);
    TokenizeRender(Groups(keys));
  }

  // ---- The five malformed shapes ----

  /** After a well-formed prefix the scan is outside brackets and goes on with the rest. */
  lemma TokenizeAfter(layout: seq<Piece>, tail: string)
    requires WellFormedLayout(layout)
    ensures Run(Start, Render(layout)).Ok?
    ensures !Run(Start, Render(layout)).value.inBracket
    ensures Tokenize(Render(layout) + tail)
         == match Run(Run(Start, Render(layout)).value, tail)
            case Err(e) => Err(e)
            case Ok(st) => Finish(st)
  {
    RunRender(Start, layout);
    RunAppend(Start, Render(layout), tail);
  }

  /** A second '[' before the first is closed. */
  lemma TokenizeNested(layout: seq<Piece>, w: string, z: string)
    requires WellFormedLayout(layout) && BracketFree(w)
    ensures Tokenize(Render(layout) + "[" + w + "[" + z) == Err(NestedBracket)
  {
    var tail := "[" + w + "[" + z;
    assert Render(layout) + "[" + w + "[" + z == Render(layout) + tail;
    TokenizeAfter(layout, tail);
    var mid := Run(Start, Render(layout)).value;
    var open := Scanner(mid.keys + Flush(mid.current), "", true);
    assert tail[0] == '[' && tail[1..] == w + ("[" + z);
    assert Run(mid, tail) == Run(open, w + ("[" + z));
    RunAppend(open, w, "[" + z);
    RunPlain(open, w);
    var filled := open.(current := open.current + w);
    assert ("[" + z)[0] == '[';
    assert Run(filled, "[" + z) == Err(NestedBracket);
  }

  /** A ']' with no bracket open. */
  lemma TokenizeUnmatchedClose(layout: seq<Piece>, w: string, z: string)
    requires WellFormedLayout(layout) && BracketFree(w)
    ensures Tokenize(Render(layout) + w + "]" + z) == Err(UnmatchedClose)
  {
    var tail := w + ("]" + z);
    assert Render(layout) + w + "]" + z == Render(layout) + tail;
    TokenizeAfter(layout, tail);
    var mid := Run(Start, Render(layout)).value;
    RunAppend(mid, w, "]" + z);
    RunPlain(mid, w);
    var filled := mid.(current := mid.current + w);
    assert ("]" + z)[0] == ']';
    assert Run(filled, "]" + z) == Err(UnmatchedClose);
  }

  /** An empty pair of brackets. */
  lemma TokenizeEmptyBrackets(layout: seq<Piece>, z: string)
    requires WellFormedLayout(layout)
    ensures Tokenize(Render(layout) + "[]" + z) == Err(EmptyBrackets)
  {
    var tail := "[]" + z;
    assert Render(layout) + "[]" + z == Render(layout) + tail;
    TokenizeAfter(layout, tail);
    var mid := Run(Start, Render(layout)).value;
    var open := Scanner(mid.keys + Flush(mid.current), "", true);
    assert tail[0] == '[' && tail[1..] == "]" + z;
    assert Run(mid, tail) == Run(open, "]" + z);
    assert ("]" + z)[0] == ']';
    assert Run(open, "]" + z) == Err(EmptyBrackets);
  }

  /** The input ends with a bracket still open. */
  lemma TokenizeUnclosed(layout: seq<Piece>, w: string)
    requires WellFormedLayout(layout) && BracketFree(w)
    ensures Tokenize(Render(layout) + "[" + w) == Err(UnclosedBracket)
  {
    var tail := "[" + w;
    assert Render(layout) + "[" + w == Render(layout) + tail;
    TokenizeAfter(layout, tail);
    var mid := Run(Start, Render(layout)).value;
    var open := Scanner(mid.keys + Flush(mid.current), "", true);
    assert tail[0] == '[' && tail[1..] == w;
    assert Run(mid, tail) == Run(open, w);
    RunPlain(open, w);
  }

  /** Something was read: a segment, a pending accumulator or an open bracket. */
  predicate Progress(st: Scanner) {
    st.keys != [] || st.current != "" || st.inBracket
  }

  lemma {:induction false} RunProgress(st: Scanner, s: string)
    requires s != [] || Progress(st)
    ensures Run(st, s).Ok? ==> Progress(Run(st, s).value)
    ensures Run(st, s).Err? ==> Run(st, s).error != NoKeys
    decreases |s|
  {
    if s != [] {
      match Step(st, s[0])
      case Err(_) =>
      case Ok(next) => RunProgress(next, s[1..]);
    }
  }

  /** "No keys found" is reported for the empty key path and for no other. */
  lemma TokenizeNoKeys(s: string)
    ensures Tokenize(s) == Err(NoKeys) <==> s == ""
  {
    if s != "" {
      RunProgress(Start, s);
    }
  }
}
