/**
 * The document `jo` builds (jo/cmd/root.go, setNestedValue): nested maps from
 * string keys to either a string or another map, and the assignment of a
 * string at a key path with last-write-wins at every level.
 *
 * `SetPath` states the assignment recursively; `Lookup` follows a path
 * through the nested maps, and the lemmas say what every path looks up to
 * after an assignment. `SetNestedValue` is the program's loop, which walks
 * down the path rebinding its `current` map.
 */
module Document {
  import opened Wrappers
  import KeyPath

  /** A value of the document: a string, or a nested map. */
  datatype Node = Str(text: string) | Obj(fields: map<string, Node>)

  type Doc = map<string, Node>

  /** The map the walk descends into at key `k`: the one there, or a fresh empty one. */
  function ChildMap(m: Doc, k: string): Doc {
    if k in m && m[k].Obj? then m[k].fields else map[]
  }

  /**
   * `m` with `v` stored at `path`: maps are created where missing and replace
   * a string found at an intermediate key; the last key is overwritten.
   */
  function SetPath(m: Doc, path: seq<string>, v: string): (r: Doc)
    requires |path| > 0
    ensures r.Keys == m.Keys + {path[0]}
    ensures forall k :: k in m && k != path[0] ==> r[k] == m[k]
    decreases |path|
  {
    if |path| == 1 then m[path[0] := Str(v)]
    else m[path[0] := Obj(SetPath(ChildMap(m, path[0]), path[1..], v))]
  }

  /** The node reached by following `path` through the nested maps, if any. */
  function Lookup(m: Doc, path: seq<string>): Option<Node>
    requires |path| > 0
    decreases |path|
  {
    if path[0] !in m then None
    else if |path| == 1 then Some(m[path[0]])
    else
      match m[path[0]]
      case Str(_) => None
      case Obj(child) => Lookup(child, path[1..])
  }

  /** Below the first key, a lookup in `m` is a lookup in the map the walk would descend into. */
  lemma LookupThroughChild(m: Doc, q: seq<string>)
    requires |q| > 1
    ensures Lookup(m, q) == Lookup(ChildMap(m, q[0]), q[1..])
  {
    if !(q[0] in m && m[q[0]].Obj?) {
      LookupEmpty(q[1..]);
    }
  }

  lemma LookupEmpty(q: seq<string>)
    requires |q| > 0
    ensures Lookup(map[], q) == None
  {
  }

  // ---- What an assignment does to every path ----

  /** After the assignment, the path leads to the string stored. */
  lemma {:induction false} SetPathReaches(m: Doc, path: seq<string>, v: string)
    requires |path| > 0
    ensures Lookup(SetPath(m, path, v), path) == Some(Str(v))
    decreases |path|
  {
    if |path| > 1 {
      SetPathReaches(ChildMap(m, path[0]), path[1..], v);
    }
  }

  /** Two paths diverge when they differ at some position both have. */
  predicate Diverge(p: seq<string>, q: seq<string>) {
    exists i :: 0 <= i < |p| && i < |q| && p[i] != q[i]
  }

  /** Every path that leaves the assigned path somewhere keeps what it looked up to. */
  lemma {:induction false} SetPathFrame(m: Doc, path: seq<string>, q: seq<string>, v: string)
    requires |path| > 0 && |q| > 0 && Diverge(path, q)
    ensures Lookup(SetPath(m, path, v), q) == Lookup(m, q)
    decreases |path|
  {
    if path[0] == q[0] {
      var i :| 0 <= i < |path| && i < |q| && path[i] != q[i];
      assert path[1..][i - 1] == path[i] && q[1..][i - 1] == q[i];
      SetPathFrame(ChildMap(m, path[0]), path[1..], q[1..], v);
      LookupThroughChild(m, q);
      LookupThroughChild(SetPath(m, path, v), q);
    }
  }

  /** Every proper prefix of the assigned path now leads to a map. */
  lemma {:induction false} SetPathPrefix(m: Doc, path: seq<string>, n: nat, v: string)
    requires 0 < n < |path|
    ensures Lookup(SetPath(m, path, v), path[..n]).Some?
    ensures Lookup(SetPath(m, path, v), path[..n]).value.Obj?
    decreases |path|
  {
    if n > 1 {
      assert path[..n][1..] == path[1..][..n - 1];
      SetPathPrefix(ChildMap(m, path[0]), path[1..], n - 1, v);
    }
  }

  /** Nothing is found below the assigned path: the string replaced whatever was there. */
  lemma {:induction false} SetPathBelow(m: Doc, path: seq<string>, q: seq<string>, v: string)
    requires |path| > 0 && |path| < |q| && q[..|path|] == path
    ensures Lookup(SetPath(m, path, v), q) == None
    decreases |path|
  {
    if |path| > 1 {
      assert q[1..][..|path| - 1] == path[1..];
      SetPathBelow(ChildMap(m, path[0]), path[1..], q[1..], v);
    }
  }

  /**
   * A string found at an intermediate key is replaced by a map holding only
   * the rest of the path. This is one step of SetPath, stated on its own
   * because it is the promise a reader looks for.
   */
  lemma ScalarReplacedByMap(m: Doc, path: seq<string>, v: string)
    requires |path| > 1 && path[0] in m && m[path[0]].Str?
    ensures SetPath(m, path, v)[path[0]] == Obj(SetPath(map[], path[1..], v))
  {
  }

  /** Assigning the same string at the same path twice is assigning it once. */
  lemma {:induction false} SetPathIdempotent(m: Doc, path: seq<string>, v: string)
    requires |path| > 0
    ensures SetPath(SetPath(m, path, v), path, v) == SetPath(m, path, v)
    decreases |path|
  {
    if |path| > 1 {
      var once := SetPath(m, path, v);
      assert ChildMap(once, path[0]) == SetPath(ChildMap(m, path[0]), path[1..], v);
      SetPathIdempotent(ChildMap(m, path[0]), path[1..], v);
    }
  }

  // ---- The walk as the program runs it ----

  /** A map the walk has left, and the key under which it went down. */
  datatype Frame = Frame(parent: Doc, key: string)

  /** Puts `m` back under the frames, innermost last: what the shared maps look like from the root. */
  function Plug(frames: seq<Frame>, m: Doc): Doc
    decreases |frames|
  {
    if frames == [] then m
    else
      var f := frames[|frames| - 1];
      Plug(frames[..|frames| - 1], f.parent[f.key := Obj(m)])
  }

  lemma PlugPush(frames: seq<Frame>, f: Frame, m: Doc)
    ensures Plug(frames + [f], m) == Plug(frames, f.parent[f.key := Obj(m)])
  {
    assert (frames + [f])[..|frames|] == frames;
  }

  /**
   * Parses `keyPath` and stores `value` there; on a malformed path the map is
   * returned unchanged with the scanner's error.
   */
  method SetNestedValue(output: Doc, keyPath: string, value: string) returns (updated: Doc, err: Option<KeyPath.PathError>)
    ensures KeyPath.Tokenize(keyPath).Err? ==> err == Some(KeyPath.Tokenize(keyPath).error) && updated == output
    ensures KeyPath.Tokenize(keyPath).Ok? ==> err == None && updated == SetPath(output, KeyPath.Tokenize(keyPath).value, value)
  {
    var parsed := KeyPath.ParseKeyPath(keyPath);
    if parsed.Err? {
      return output, Some(parsed.error);
    }
    var keys := parsed.value;
    var frames: seq<Frame> := [];
    var current := output;
    assert keys[0..] == keys;
    for i := 0 to |keys|
      invariant i < |keys| ==> Plug(frames, SetPath(current, keys[i..], value)) == SetPath(output, keys, value)
      invariant i == |keys| ==> Plug(frames, current) == SetPath(output, keys, value)
    {
      var key := keys[i];
      if i == |keys| - 1 {
        current := current[key := Str(value)];
      } else {
        assert keys[i..][1..] == keys[i + 1..];
        PlugPush(frames, Frame(current, key), SetPath(ChildMap(current, key), keys[i + 1..], value));
        if key in current {
          if current[key].Obj? {
            frames := frames + [Frame(current, key)];
            current := current[key].fields;
          } else {
            frames := frames + [Frame(current, key)];
            current := map[];
          }
        } else {
          frames := frames + [Frame(current, key)];
          current := map[];
        }
      }
    }
    updated, err := Plug(frames, current), None;
  }
}
