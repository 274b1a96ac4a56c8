/**
 * The ProcessArgs, nested-override and ReadStdinArgs cases of
 * jo/cmd/root_test.go and the malformed key paths, stated as lemmas about the
 * model of ProcessArgs and ReadStdinArgs. Keys and values are mostly left as
 * parameters: each case then holds for every value, including values that
 * contain '=' or brackets.
 */
module JoExamples {
  import opened Wrappers
  import opened GoStrings
  import opened KeyPath
  import opened Document
  import opened Jo

  lemma ApplyFlat(doc: Doc, key: string, value: string)
    requires '=' !in key && !Routed(key)
    ensures ApplyArg(doc, key + "=" + value) == Ok(doc[key := Str(value)])
  {
    SplitArg(key, value);
  }

  lemma ApplyRouted(doc: Doc, key: string, value: string, path: seq<string>)
    requires '=' !in key && Routed(key) && Tokenize(key) == Ok(path)
    ensures ApplyArg(doc, key + "=" + value) == Ok(SetPath(doc, path, value))
  {
    SplitArg(key, value);
  }

  lemma ApplyBadPath(doc: Doc, key: string, value: string, e: PathError)
    requires '=' !in key && Routed(key) && Tokenize(key) == Err(e)
    ensures ApplyArg(doc, key + "=" + value) == Err(InvalidKeyPath(key, e))
  {
    SplitArg(key, value);
  }

  lemma ProcessOne(a: string)
    ensures Process([a]) == ApplyArg(map[], a)
  {
    assert [a][0] == a && [a][1..] == [];
    match ApplyArg(map[], a)
    case Err(_) =>
    case Ok(d) => assert ProcessFrom(d, []) == Ok(d);
  }

  lemma ProcessTwo(a: string, b: string)
    ensures Process([a, b]) == match ApplyArg(map[], a) case Err(e) => Err(e) case Ok(d) => ApplyArg(d, b)
  {
    assert [a, b][0] == a && [a, b][1..] == [b];
    match ApplyArg(map[], a)
    case Err(_) =>
    case Ok(d) => ProcessOneFrom(d, b);
  }

  lemma ProcessThen(a: string, b: string, d: Doc)
    requires ApplyArg(map[], a) == Ok(d)
    ensures Process([a, b]) == ApplyArg(d, b)
  {
    ProcessTwo(a, b);
  }

  lemma ProcessOneFrom(doc: Doc, b: string)
    ensures ProcessFrom(doc, [b]) == ApplyArg(doc, b)
  {
    assert [b][0] == b && [b][1..] == [];
    match ApplyArg(doc, b)
    case Err(_) =>
    case Ok(d) => assert ProcessFrom(d, []) == Ok(d);
  }

  /** `url=<v>` gives {"url": v}: only the first '=' splits. */
  lemma ValueWithEquals(v: string)
    ensures Process(["url" + "=" + v]) == Ok(map["url" := Str(v)])
  {
    ProcessOne("url" + "=" + v);
    ApplyFlat(map[], "url", v);
  }

  /** A two-level key `k1[k2]` routes its value to the path [k1, k2]. */
  lemma ApplyTwoLevel(doc: Doc, k1: string, k2: string, v: string)
    requires k1 != "" && k2 != "" && BracketFree(k1) && BracketFree(k2)
    requires '=' !in k1 && '=' !in k2
    ensures ApplyArg(doc, k1 + "[" + k2 + "]" + "=" + v) == Ok(SetPath(doc, [k1, k2], v))
  {
    var key := k1 + "[" + k2 + "]";
    assert Brackets([k2]) == "[" + k2 + "]" + Brackets([]);
    assert [k1, k2][1..] == [k2];
    assert key == [k1, k2][0] + Brackets([k1, k2][1..]);
    TokenizeRoundTrip([k1, k2]);
    assert key[|k1|] == '[' && key[|key| - 1] == ']';
    assert forall i :: 0 <= i < |key| ==> key[i] != '=' by {
      forall i | 0 <= i < |key|
        ensures key[i] != '='
      {
        if i < |k1| { assert key[i] == k1[i]; }
        else if |k1| < i < |k1| + 1 + |k2| { assert key[i] == k2[i - |k1| - 1]; }
      }
    }
    ApplyRouted(doc, key, v, [k1, k2]);
  }

  lemma ApplyUserName(doc: Doc, n: string)
    ensures ApplyArg(doc, "user[name]" + "=" + n) == Ok(SetPath(doc, ["user", "name"], n))
  {
    assert "user[name]" == "user" + "[" + "name" + "]";
    ApplyTwoLevel(doc, "user", "name", n);
  }

  lemma ApplyUserAge(doc: Doc, a: string)
    ensures ApplyArg(doc, "user[age]" + "=" + a) == Ok(SetPath(doc, ["user", "age"], a))
  {
    assert "user[age]" == "user" + "[" + "age" + "]";
    ApplyTwoLevel(doc, "user", "age", a);
  }

  /** Two arguments that both apply: the document after the second. */
  lemma ProcessPair(a: string, b: string, d1: Doc, d2: Doc)
    requires ApplyArg(map[], a) == Ok(d1) && ApplyArg(d1, b) == Ok(d2)
    ensures Process([a, b]) == Ok(d2)
  {
    ProcessThen(a, b, d1);
  }

  lemma MultipleNestedKeysRun(n: string, a: string)
    ensures Process(["user[name]" + "=" + n, "user[age]" + "=" + a])
         == Ok(SetPath(SetPath(map[], ["user", "name"], n), ["user", "age"], a))
  {
    var d1 := SetPath(map[], ["user", "name"], n);
    ApplyUserName(map[], n);
    ApplyUserAge(d1, a);
    ProcessPair("user[name]" + "=" + n, "user[age]" + "=" + a, d1, SetPath(d1, ["user", "age"], a));
  }

  lemma MultipleNestedKeysShape(n: string, a: string)
    ensures SetPath(SetPath(map[], ["user", "name"], n), ["user", "age"], a)
         == map["user" := Obj(map["name" := Str(n), "age" := Str(a)])]
  {
  }

  /** `user[name]=<n>` then `user[age]=<a>` fill one nested map. */
  lemma MultipleNestedKeys(n: string, a: string)
    ensures Process(["user[name]" + "=" + n, "user[age]" + "=" + a])
         == Ok(map["user" := Obj(map["name" := Str(n), "age" := Str(a)])])
  {
    MultipleNestedKeysRun(n, a);
    MultipleNestedKeysShape(n, a);
  }

  /** An argument without '=' is rejected as a whole, whatever it holds. */
  lemma InvalidFormatFails(a: string)
    requires '=' !in a
    ensures Process([a]) == Err(InvalidFormat(a))
  {
    ProcessOne(a);
  }

  /** A key usable both flat and as one level of a path: non-empty, no brackets, no '='. */
  predicate PlainKey(k: string) {
    k != "" && BracketFree(k) && '=' !in k
  }

  lemma SimpleKeyBecomesNestedRun(k1: string, k2: string, s: string, n: string)
    requires PlainKey(k1) && PlainKey(k2)
    ensures Process([k1 + "=" + s, k1 + "[" + k2 + "]" + "=" + n]) == Ok(SetPath(map[k1 := Str(s)], [k1, k2], n))
  {
    var d1 := map[k1 := Str(s)];
    ApplyFlat(map[], k1, s);
    ApplyTwoLevel(d1, k1, k2, n);
    ProcessPair(k1 + "=" + s, k1 + "[" + k2 + "]" + "=" + n, d1, SetPath(d1, [k1, k2], n));
  }

  lemma SimpleKeyBecomesNestedShape(k1: string, k2: string, s: string, n: string)
    ensures SetPath(map[k1 := Str(s)], [k1, k2], n) == map[k1 := Obj(map[k2 := Str(n)])]
  {
    var d1 := map[k1 := Str(s)];
    assert [k1, k2][1..] == [k2];
    assert ChildMap(d1, k1) == map[];
    assert SetPath(map[], [k2], n) == map[k2 := Str(n)];
    assert d1[k1 := Obj(map[k2 := Str(n)])] == map[k1 := Obj(map[k2 := Str(n)])];
  }

  /** `k1=<s>` then `k1[k2]=<n>`: the string is replaced by a map. */
  lemma SimpleKeyBecomesNested(k1: string, k2: string, s: string, n: string)
    requires PlainKey(k1) && PlainKey(k2)
    ensures Process([k1 + "=" + s, k1 + "[" + k2 + "]" + "=" + n]) == Ok(map[k1 := Obj(map[k2 := Str(n)])])
  {
    SimpleKeyBecomesNestedRun(k1, k2, s, n);
    SimpleKeyBecomesNestedShape(k1, k2, s, n);
  }

  lemma NestedBecomesSimpleKeyRun(k1: string, k2: string, s: string, n: string)
    requires PlainKey(k1) && PlainKey(k2)
    ensures Process([k1 + "[" + k2 + "]" + "=" + n, k1 + "=" + s]) == Ok(SetPath(map[], [k1, k2], n)[k1 := Str(s)])
  {
    var d1 := SetPath(map[], [k1, k2], n);
    ApplyTwoLevel(map[], k1, k2, n);
    ApplyFlat(d1, k1, s);
    ProcessPair(k1 + "[" + k2 + "]" + "=" + n, k1 + "=" + s, d1, d1[k1 := Str(s)]);
  }

  lemma NestedBecomesSimpleKeyShape(k1: string, k2: string, s: string, n: string)
    ensures SetPath(map[], [k1, k2], n)[k1 := Str(s)] == map[k1 := Str(s)]
  {
    var d1 := SetPath(map[], [k1, k2], n);
    assert d1.Keys == {k1};
  }

  /** `k1[k2]=<n>` then `k1=<s>`: the map is replaced by the string. */
  lemma NestedBecomesSimpleKey(k1: string, k2: string, s: string, n: string)
    requires PlainKey(k1) && PlainKey(k2)
    ensures Process([k1 + "[" + k2 + "]" + "=" + n, k1 + "=" + s]) == Ok(map[k1 := Str(s)])
  {
    NestedBecomesSimpleKeyRun(k1, k2, s, n);
    NestedBecomesSimpleKeyShape(k1, k2, s, n);
  }

  /** `a[b` holds only one of the two brackets, so it is stored as a flat key. */
  lemma HalfBracketIsFlat(v: string)
    ensures Process(["a[b" + "=" + v]) == Ok(map["a[b" := Str(v)])
  {
    assert ']' !in "a[b";
    ProcessOne("a[b" + "=" + v);
    ApplyFlat(map[], "a[b", v);
  }

  lemma CloseBeforeOpenFails(v: string)
    ensures Process(["a]b[" + "=" + v]) == Err(InvalidKeyPath("a]b[", UnmatchedClose))
  {
    assert "a]b[" == Render([]) + "a" + "]" + "b[";
    TokenizeUnmatchedClose([], "a", "b[");
    assert "a]b["[1] == ']' && "a]b["[3] == '[';
    ApplyBadPath(map[], "a]b[", v, UnmatchedClose);
  }

  lemma EmptyBracketsFail(v: string)
    ensures Process(["a[]" + "=" + v]) == Err(InvalidKeyPath("a[]", EmptyBrackets))
  {
    assert "a[]" == Render([Bare("a")]) + "[]" + "";
    assert WellFormedLayout([Bare("a")]);
    TokenizeEmptyBrackets([Bare("a")], "");
    assert "a[]"[1] == '[' && "a[]"[2] == ']';
    ApplyBadPath(map[], "a[]", v, EmptyBrackets);
  }

  lemma UnclosedSecondBracketFails(v: string)
    ensures Process(["a[b][" + "=" + v]) == Err(InvalidKeyPath("a[b][", UnclosedBracket))
  {
    var layout := [Bare("a"), Group("b")];
    assert WellFormedLayout(layout);
    assert Render(layout) == "a[b]";
    assert "a[b][" == Render(layout) + "[" + "";
    TokenizeUnclosed(layout, "");
    assert "a[b]["[1] == '[' && "a[b]["[3] == ']';
    ApplyBadPath(map[], "a[b][", v, UnclosedBracket);
  }

  lemma ApplyUsers123(doc: Doc, leaf: string, v: string)
    requires leaf != "" && '[' !in leaf && ']' !in leaf && '=' !in leaf
    ensures ApplyArg(doc, "users[123][" + leaf + "]" + "=" + v) == Ok(SetPath(doc, ["users", "123", leaf], v))
  {
    var path := ["users", "123", leaf];
    assert ValidSegments(path);
    assert path[1..] == ["123", leaf] && path[1..][1..] == [leaf] && [leaf][1..] == [];
    assert Brackets([leaf]) == "[" + leaf + "]";
    assert Brackets(path[1..]) == "[123]" + ("[" + leaf + "]");
    assert "users[123][" + leaf + "]" == "users" + Brackets(path[1..]);
    TokenizeRoundTrip(path);
    assert '=' !in "users[123][" + leaf + "]";
    assert ("users[123][" + leaf + "]")[5] == '[';
    ApplyRouted(doc, "users[123][" + leaf + "]", v, path);
  }

  lemma DeepNestingMergesRun(n: string, a: string)
    ensures Process(["users[123][" + "name" + "]" + "=" + n, "users[123][" + "age" + "]" + "=" + a])
         == Ok(SetPath(SetPath(map[], ["users", "123", "name"], n), ["users", "123", "age"], a))
  {
    var d1 := SetPath(map[], ["users", "123", "name"], n);
    ApplyUsers123(map[], "name", n);
    ApplyUsers123(d1, "age", a);
    ProcessPair("users[123][" + "name" + "]" + "=" + n, "users[123][" + "age" + "]" + "=" + a,
                d1, SetPath(d1, ["users", "123", "age"], a));
  }

  /** SetPath along a three-key path, unfolded. */
  lemma SetPathThree(m: Doc, k1: string, k2: string, k3: string, v: string)
    ensures SetPath(m, [k1, k2, k3], v)
         == m[k1 := Obj(ChildMap(m, k1)[k2 := Obj(ChildMap(ChildMap(m, k1), k2)[k3 := Str(v)])])]
  {
    var p := [k1, k2, k3];
    assert p[1..] == [k2, k3] && p[1..][1..] == [k3];
    var c1 := ChildMap(m, k1);
    var c2 := ChildMap(c1, k2);
    assert SetPath(c2, [k3], v) == c2[k3 := Str(v)];
    assert SetPath(c1, [k2, k3], v) == c1[k2 := Obj(SetPath(c2, [k3], v))];
  }

  /** The first leaf into an empty document builds the whole chain of maps. */
  lemma FirstLeaf(k1: string, k2: string, l1: string, x: string)
    ensures SetPath(map[], [k1, k2, l1], x) == map[k1 := Obj(map[k2 := Obj(map[l1 := Str(x)])])]
  {
    SetPathThree(map[], k1, k2, l1, x);
  }

  /** A second leaf under an existing two-key parent joins the first. */
  lemma SecondLeaf(k1: string, k2: string, l1: string, l2: string, x: string, y: string)
    ensures SetPath(map[k1 := Obj(map[k2 := Obj(map[l1 := Str(x)])])], [k1, k2, l2], y)
         == map[k1 := Obj(map[k2 := Obj(map[l1 := Str(x), l2 := Str(y)])])]
  {
    var inner := map[l1 := Str(x)];
    var c1 := map[k2 := Obj(inner)];
    var d1 := map[k1 := Obj(c1)];
    SetPathThree(d1, k1, k2, l2, y);
    assert ChildMap(d1, k1) == c1;
    assert ChildMap(c1, k2) == inner;
    var leaves := map[l1 := Str(x), l2 := Str(y)];
    assert c1[k2 := Obj(leaves)] == map[k2 := Obj(leaves)];
    assert d1[k1 := Obj(map[k2 := Obj(leaves)])] == map[k1 := Obj(map[k2 := Obj(leaves)])];
  }

  lemma DeepNestingMergesShape(n: string, a: string)
    ensures SetPath(SetPath(map[], ["users", "123", "name"], n), ["users", "123", "age"], a)
         == map["users" := Obj(map["123" := Obj(map["name" := Str(n), "age" := Str(a)])])]
  {
    FirstLeaf("users", "123", "name", n);
    SecondLeaf("users", "123", "name", "age", n, a);
  }

  /** Two assignments under the same parent path merge; only the leaf is overwritten. */
  lemma DeepNestingMerges(n: string, a: string)
    ensures Process(["users[123][" + "name" + "]" + "=" + n, "users[123][" + "age" + "]" + "=" + a])
         == Ok(map["users" := Obj(map["123" := Obj(map["name" := Str(n), "age" := Str(a)])])])
  {
    DeepNestingMergesRun(n, a);
    DeepNestingMergesShape(n, a);
  }

  /** Blank lines are dropped and the others kept in order. */
  lemma EmptyLinesIgnored(a: string, b: string)
    requires a != "" && !IsSpace(a[0]) && !IsSpace(a[|a| - 1])
    requires b != "" && !IsSpace(b[0]) && !IsSpace(b[|b| - 1])
    ensures NormalizeLines([a, "", b, ""]) == [a, b]
  {
    TrimSpaceOfTrimmed(a);
    TrimSpaceOfTrimmed(b);
    assert TrimSpace("") == "";
    var lines := [a, "", b, ""];
    assert lines[..3] == [a, "", b] && lines[3] == "";
    assert [a, "", b][..2] == [a, ""] && [a, "", b][2] == b;
    assert [a, ""][..1] == [a] && [a, ""][1] == "";
    assert [a][..0] == [] && [a][0] == a;
    assert NormalizeLines([a]) == [a];
    assert NormalizeLines([a, ""]) == [a];
    assert NormalizeLines([a, "", b]) == [a, b];
  }

  // ---- The remaining ProcessArgs cases ----

  /** `name=value`: one flat key. */
  lemma SimpleKeyValue(k: string, v: string)
    requires PlainKey(k)
    ensures Process([k + "=" + v]) == Ok(map[k := Str(v)])
  {
    ProcessOne(k + "=" + v);
    ApplyFlat(map[], k, v);
  }

  /** `name=value age=30`: two flat keys side by side. */
  lemma MultipleSimpleKeyValues(k1: string, v1: string, k2: string, v2: string)
    requires PlainKey(k1) && PlainKey(k2)
    ensures Process([k1 + "=" + v1, k2 + "=" + v2]) == Ok(map[k1 := Str(v1), k2 := Str(v2)])
  {
    var d1 := map[k1 := Str(v1)];
    ApplyFlat(map[], k1, v1);
    ApplyFlat(d1, k2, v2);
    ProcessPair(k1 + "=" + v1, k2 + "=" + v2, d1, d1[k2 := Str(v2)]);
  }

  /** `user[name]=John`: one nested key builds a map inside a map. */
  lemma NestedKey(k1: string, k2: string, v: string)
    requires PlainKey(k1) && PlainKey(k2)
    ensures Process([k1 + "[" + k2 + "]" + "=" + v]) == Ok(map[k1 := Obj(map[k2 := Str(v)])])
  {
    ProcessOne(k1 + "[" + k2 + "]" + "=" + v);
    ApplyTwoLevel(map[], k1, k2, v);
    assert [k1, k2][1..] == [k2];
    assert ChildMap(map[], k1) == map[];
  }

  /** SetPath along a two-key path, unfolded. */
  lemma SetPathTwo(m: Doc, k1: string, k2: string, v: string)
    ensures SetPath(m, [k1, k2], v) == m[k1 := Obj(ChildMap(m, k1)[k2 := Str(v)])]
  {
    assert [k1, k2][1..] == [k2];
  }

  lemma MixedSimpleAndNestedRun(n: string, k1: string, k2: string, k3: string, a: string, b: string, c: string)
    requires PlainKey(n) && PlainKey(k1) && PlainKey(k2) && PlainKey(k3)
    ensures Process([n + "=" + a, k1 + "[" + k2 + "]" + "=" + b, k1 + "[" + k3 + "]" + "=" + c])
         == Ok(SetPath(SetPath(map[n := Str(a)], [k1, k2], b), [k1, k3], c))
  {
    var x, y, z := n + "=" + a, k1 + "[" + k2 + "]" + "=" + b, k1 + "[" + k3 + "]" + "=" + c;
    var d1 := map[n := Str(a)];
    ApplyFlat(map[], n, a);
    ApplyTwoLevel(d1, k1, k2, b);
    var d2 := SetPath(d1, [k1, k2], b);
    ProcessPair(x, y, d1, d2);
    ApplyTwoLevel(d2, k1, k3, c);
    ProcessFromAppend(map[], [x, y], [z]);
    assert [x, y] + [z] == [x, y, z];
    ProcessOneFrom(d2, z);
  }

  /** A nested key next to a different flat key adds its map beside it. */
  lemma NestedBesideFlat(n: string, k1: string, k2: string, a: string, b: string)
    requires n != k1
    ensures SetPath(map[n := Str(a)], [k1, k2], b) == map[n := Str(a), k1 := Obj(map[k2 := Str(b)])]
  {
    var d1 := map[n := Str(a)];
    SetPathTwo(d1, k1, k2, b);
    assert ChildMap(d1, k1) == map[];
  }

  /** A second leaf under the same parent key joins the first one. */
  lemma SecondNestedLeaf(n: string, k1: string, k2: string, k3: string, a: string, b: string, c: string)
    requires n != k1
    ensures SetPath(map[n := Str(a), k1 := Obj(map[k2 := Str(b)])], [k1, k3], c)
         == map[n := Str(a), k1 := Obj(map[k2 := Str(b), k3 := Str(c)])]
  {
    var d2 := map[n := Str(a), k1 := Obj(map[k2 := Str(b)])];
    SetPathTwo(d2, k1, k3, c);
    assert ChildMap(d2, k1) == map[k2 := Str(b)];
    var inner := map[k2 := Str(b), k3 := Str(c)];
    assert map[k2 := Str(b)][k3 := Str(c)] == inner;
  }

  lemma MixedSimpleAndNestedShape(n: string, k1: string, k2: string, k3: string, a: string, b: string, c: string)
    requires n != k1
    ensures SetPath(SetPath(map[n := Str(a)], [k1, k2], b), [k1, k3], c)
         == map[n := Str(a), k1 := Obj(map[k2 := Str(b), k3 := Str(c)])]
  {
    NestedBesideFlat(n, k1, k2, a, b);
    SecondNestedLeaf(n, k1, k2, k3, a, b, c);
  }

  /**
   * `name=John address[city]=New York address[zip]=10001`: a flat key next to
   * a nested map filled by two arguments.
   */
  lemma MixedSimpleAndNested(n: string, k1: string, k2: string, k3: string, a: string, b: string, c: string)
    requires PlainKey(n) && PlainKey(k1) && PlainKey(k2) && PlainKey(k3) && n != k1
    ensures Process([n + "=" + a, k1 + "[" + k2 + "]" + "=" + b, k1 + "[" + k3 + "]" + "=" + c])
         == Ok(map[n := Str(a), k1 := Obj(map[k2 := Str(b), k3 := Str(c)])])
  {
    MixedSimpleAndNestedRun(n, k1, k2, k3, a, b, c);
    MixedSimpleAndNestedShape(n, k1, k2, k3, a, b, c);
  }

  // ---- The remaining ReadStdinArgs cases ----

  /**
   * `name=John\nage=30\n` and `user[name]=John\nuser[age]=30\n`: two lines
   * without surrounding white space come out as they are, in order.
   */
  lemma TwoLinesKept(a: string, b: string)
    requires a != "" && !IsSpace(a[0]) && !IsSpace(a[|a| - 1])
    requires b != "" && !IsSpace(b[0]) && !IsSpace(b[|b| - 1])
    ensures NormalizeLines([a, b]) == [a, b]
  {
    var both := [a] + [b];
    assert NormalizeLines(both) == both by {
      NormalizeAppend([a], [b]);
      OneLineKept(a);
      OneLineKept(b);
    }
    assert both == [a, b];
  }

  /** A single line without surrounding white space is one argument. */
  lemma OneLineKept(a: string)
    requires a != "" && !IsSpace(a[0]) && !IsSpace(a[|a| - 1])
    ensures NormalizeLines([a]) == [a]
  {
    assert [a][..0] == [] && [a][0] == a;
    TrimSpaceOfTrimmed(a);
  }

  /** Empty input: the scanner yields no line, and no argument is read. */
  lemma EmptyInput()
    ensures NormalizeLines([]) == []
  {
  }
}
