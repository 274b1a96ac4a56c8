/**
 * How `jo` turns its arguments into one document (jo/cmd/root.go):
 * ProcessArgs folds `key=value` arguments into a map in order, ReadStdinArgs
 * normalises the lines read from standard input, and the command's RunE puts
 * standard input before the command line and drops entries without '='.
 */
module Jo {
  import opened Wrappers
  import opened GoStrings
  import opened KeyPath
  import opened Document

  /** Why ProcessArgs gave up: the first argument it could not use. */
  datatype ArgError =
    | InvalidFormat(arg: string)                        // no '=' in the argument
    | InvalidKeyPath(keyPath: string, reason: PathError) // a bracketed key that does not parse

  /** Keys holding both a '[' and a ']' go to the path parser; all others are stored as they are. */
  predicate Routed(key: string) {
    '[' in key && ']' in key
  }

  /** The path a key stands for when its argument is accepted. */
  function PathOf(key: string): seq<string>
    requires Routed(key) ==> Tokenize(key).Ok?
  {
    if Routed(key) then Tokenize(key).value else [key]
  }

  /** One argument applied to the document. */
  function ApplyArg(doc: Doc, arg: string): Result<Doc, ArgError> {
    match SplitFirst(arg, '=')
    case None => Err(InvalidFormat(arg))
    case Some((key, value)) =>
      if Routed(key) then
        match Tokenize(key)
        case Err(e) => Err(InvalidKeyPath(key, e))
        case Ok(path) => Ok(SetPath(doc, path, value))
      else Ok(doc[key := Str(value)])
  }

  /** The arguments applied in order to `doc`; the first failure ends the fold. */
  function ProcessFrom(doc: Doc, args: seq<string>): Result<Doc, ArgError>
    decreases |args|
  {
    if args == [] then Ok(doc)
    else
      match ApplyArg(doc, args[0])
      case Err(e) => Err(e)
      case Ok(next) => ProcessFrom(next, args[1..])
  }

  /** The document the arguments describe, built from an empty map. */
  function Process(args: seq<string>): Result<Doc, ArgError> {
    ProcessFrom(map[], args)
  }

  /** ProcessArgs as the program runs it: one loop over the arguments, updating `output`. */
  method ProcessArgs(args: seq<string>) returns (r: Result<Doc, ArgError>)
    ensures r == Process(args)
  {
    var output: Doc := map[];
    for i := 0 to |args|
      invariant ProcessFrom(output, args[i..]) == Process(args)
    {
      var arg := args[i];
      assert args[i..][0] == arg && args[i..][1..] == args[i + 1..];
      var parts := SplitFirst(arg, '=');
      if parts.None? {
        return Err(InvalidFormat(arg));
      }
      var (keyPart, value) := parts.value;
      if '[' in keyPart && ']' in keyPart {
        var updated, err := SetNestedValue(output, keyPart, value);
        if err.Some? {
          return Err(InvalidKeyPath(keyPart, err.value));
        }
        output := updated;
      } else {
        output := output[keyPart := Str(value)];
      }
    }
    assert args[|args|..] == [];
    return Ok(output);
  }

  // ---- Properties of the fold ----

  /** An argument is accepted when it has an '=' and its key, if bracketed, parses. */
  predicate ArgValid(arg: string) {
    match SplitFirst(arg, '=')
    case None => false
    case Some((key, _)) => Routed(key) ==> Tokenize(key).Ok?
  }

  /** Whether an argument is accepted does not depend on the document so far. */
  lemma ApplyArgOk(doc: Doc, arg: string)
    ensures ApplyArg(doc, arg).Ok? <==> ArgValid(arg)
    ensures ApplyArg(doc, arg).Err? ==> ApplyArg(doc, arg) == ApplyArg(map[], arg)
  {
  }

  lemma {:induction false} ProcessFromAppend(doc: Doc, a: seq<string>, b: seq<string>)
    ensures ProcessFrom(doc, a + b) == match ProcessFrom(doc, a) case Err(e) => Err(e) case Ok(mid) => ProcessFrom(mid, b)
    decreases |a|
  {
    if a == [] {
      assert a + b == b;
    } else {
      assert (a + b)[0] == a[0] && (a + b)[1..] == a[1..] + b;
      match ApplyArg(doc, a[0])
      case Err(_) =>
      case Ok(next) => ProcessFromAppend(next, a[1..], b);
    }
  }

  /** Fail fast: once an argument fails, later arguments change nothing. */
  lemma ProcessFailFast(a: seq<string>, b: seq<string>)
    requires Process(a).Err?
    ensures Process(a + b) == Process(a)
  {
    ProcessFromAppend(map[], a, b);
  }

  lemma {:induction false} ProcessFromOk(doc: Doc, args: seq<string>)
    ensures ProcessFrom(doc, args).Ok? <==> forall i :: 0 <= i < |args| ==> ArgValid(args[i])
    decreases |args|
  {
    if args != [] {
      ApplyArgOk(doc, args[0]);
      match ApplyArg(doc, args[0])
      case Err(_) =>
      case Ok(next) =>
        ProcessFromOk(next, args[1..]);
        assert forall i :: 1 <= i < |args| ==> args[i] == args[1..][i - 1];
    }
  }

  /** The fold succeeds exactly when every argument is accepted. */
  lemma ProcessOk(args: seq<string>)
    ensures Process(args).Ok? <==> forall i :: 0 <= i < |args| ==> ArgValid(args[i])
  {
    ProcessFromOk(map[], args);
  }

  /** On failure the error is the one of the first argument that is not accepted. */
  lemma ProcessFirstError(args: seq<string>, i: nat)
    requires i < |args| && !ArgValid(args[i])
    requires forall j :: 0 <= j < i ==> ArgValid(args[j])
    ensures Process(args) == ApplyArg(map[], args[i])
  {
    assert args == args[..i] + args[i..];
    ProcessFromAppend(map[], args[..i], args[i..]);
    ProcessOk(args[..i]);
    assert forall j :: 0 <= j < i ==> args[..i][j] == args[j];
    var mid := Process(args[..i]).value;
    ApplyArgOk(mid, args[i]);
    assert args[i..][0] == args[i];
  }

  /** The argument `key=value` split back on its first '=': the value may hold more '='. */
  lemma SplitArg(key: string, value: string)
    requires '=' !in key
    ensures SplitFirst(key + "=" + value, '=') == Some((key, value))
  {
    SplitFirstOfJoin(key, value, '=');
  }

  /**
   * Last write wins: after `key=value` the key's path leads to `value`,
   * whatever was stored before and whatever shape it had.
   */
  lemma LastWriteWins(args: seq<string>, key: string, value: string)
    requires Process(args).Ok? && '=' !in key && (Routed(key) ==> Tokenize(key).Ok?)
    ensures Process(args + [key + "=" + value]).Ok?
    ensures Lookup(Process(args + [key + "=" + value]).value, PathOf(key)) == Some(Str(value))
  {
    SplitArg(key, value);
    ProcessFromAppend(map[], args, [key + "=" + value]);
    var d := Process(args).value;
    if Routed(key) {
      TokenizeWellFormed(key);
      SetPathReaches(d, Tokenize(key).value, value);
    }
  }

  /**
   * A later argument leaves every path that diverges from its own as it was:
   * the other entries of the maps it descends into keep their values.
   */
  lemma LaterArgKeepsOthers(args: seq<string>, key: string, value: string, q: seq<string>)
    requires Process(args).Ok? && '=' !in key && (Routed(key) ==> Tokenize(key).Ok?)
    requires |q| > 0 && Diverge(PathOf(key), q)
    ensures Process(args + [key + "=" + value]).Ok?
    ensures Lookup(Process(args + [key + "=" + value]).value, q) == Lookup(Process(args).value, q)
  {
    SplitArg(key, value);
    ProcessFromAppend(map[], args, [key + "=" + value]);
    var d := Process(args).value;
    if Routed(key) {
      TokenizeWellFormed(key);
    }
    SetPathFrame(d, PathOf(key), q, value);
  }

  /** A key without both brackets, such as `a[b`, is stored as one flat key, exactly as written. */
  lemma FlatKeyVerbatim(args: seq<string>, key: string, value: string)
    requires Process(args).Ok? && '=' !in key && !Routed(key)
    ensures Process(args + [key + "=" + value]) == Ok(Process(args).value[key := Str(value)])
  {
    SplitArg(key, value);
    ProcessFromAppend(map[], args, [key + "=" + value]);
  }

  /** Repeating an argument right away changes nothing. */
  lemma RepeatArg(args: seq<string>, arg: string)
    ensures Process(args + [arg, arg]) == Process(args + [arg])
  {
    assert args + [arg, arg] == (args + [arg]) + [arg];
    ProcessFromAppend(map[], args + [arg], [arg]);
    ProcessFromAppend(map[], args, [arg]);
    match Process(args)
    case Err(_) =>
    case Ok(d) =>
      match SplitFirst(arg, '=')
      case None =>
      case Some((key, value)) =>
        if Routed(key) && Tokenize(key).Ok? {
          TokenizeWellFormed(key);
          SetPathIdempotent(d, Tokenize(key).value, value);
        }
        assert d[key := Str(value)][key := Str(value)] == d[key := Str(value)];
  }

  // ---- The lines read from standard input ----

  /** The input lines trimmed of white space, blank ones dropped, in order. */
  function NormalizeLines(lines: seq<string>): seq<string>
    decreases |lines|
  {
    if lines == [] then []
    else
      var line := TrimSpace(lines[|lines| - 1]);
      NormalizeLines(lines[..|lines| - 1]) + (if line != "" then [line] else [])
  }

  /** ReadStdinArgs once the scanner has split the input into lines. */
  method ReadStdinArgs(lines: seq<string>) returns (args: seq<string>)
    ensures args == NormalizeLines(lines)
  {
    args := [];
    for i := 0 to |lines|
      invariant args == NormalizeLines(lines[..i])
    {
      assert lines[..i + 1][..i] == lines[..i];
      var line := TrimSpace(lines[i]);
      if line != "" {
        args := args + [line];
      }
    }
    assert lines[..|lines|] == lines;
  }

  /** Normalising keeps the order of the lines: it distributes over concatenation. */
  lemma {:induction false} NormalizeAppend(a: seq<string>, b: seq<string>)
    ensures NormalizeLines(a + b) == NormalizeLines(a) + NormalizeLines(b)
    decreases |b|
  {
    if b == [] {
      assert a + b == a;
    } else {
      var b' := b[..|b| - 1];
      assert (a + b)[..|a + b| - 1] == a + b';
      assert (a + b)[|a + b| - 1] == b[|b| - 1];
      NormalizeAppend(a, b');
    }
  }

  /** No white space at either end, and not empty. */
  predicate TrimmedArg(x: string) {
    x != "" && !IsSpace(x[0]) && !IsSpace(x[|x| - 1])
  }

  /** Every argument read is non-empty and has no white space at either end. */
  lemma {:induction false} NormalizeLinesTrimmed(lines: seq<string>)
    ensures forall x :: x in NormalizeLines(lines) ==> TrimmedArg(x)
    decreases |lines|
  {
    if lines != [] {
      var init := lines[..|lines| - 1];
      var last := TrimSpace(lines[|lines| - 1]);
      NormalizeLinesTrimmed(init);
      var out := NormalizeLines(lines);
      assert out == NormalizeLines(init) + (if last != "" then [last] else []);
      forall x | x in out ensures TrimmedArg(x) {
        if x !in NormalizeLines(init) {
          assert x == last;
        }
      }
    }
  }

  /** At most one argument per line. */
  lemma {:induction false} NormalizeLinesLength(lines: seq<string>)
    ensures |NormalizeLines(lines)| <= |lines|
    decreases |lines|
  {
    if lines != [] {
      NormalizeLinesLength(lines[..|lines| - 1]);
    }
  }

  /** Every argument read is the trim of one of the lines. */
  lemma {:induction false} NormalizeLinesFromLines(lines: seq<string>)
    ensures forall x :: x in NormalizeLines(lines) ==> exists j :: 0 <= j < |lines| && TrimSpace(lines[j]) == x
    decreases |lines|
  {
    if lines != [] {
      var init := lines[..|lines| - 1];
      var last := TrimSpace(lines[|lines| - 1]);
      NormalizeLinesFromLines(init);
      var out := NormalizeLines(lines);
      assert out == NormalizeLines(init) + (if last != "" then [last] else []);
      forall x | x in out
        ensures exists j :: 0 <= j < |lines| && TrimSpace(lines[j]) == x
      {
        if x in NormalizeLines(init) {
          var j :| 0 <= j < |init| && TrimSpace(init[j]) == x;
          assert init[j] == lines[j];
        } else {
          assert TrimSpace(lines[|lines| - 1]) == x;
        }
      }
    }
  }

  /** No line with text is lost. */
  lemma {:induction false} NormalizeLinesComplete(lines: seq<string>)
    ensures forall l :: l in lines && TrimSpace(l) != "" ==> TrimSpace(l) in NormalizeLines(lines)
    decreases |lines|
  {
    if lines != [] {
      var init := lines[..|lines| - 1];
      NormalizeLinesComplete(init);
      assert lines == init + [lines[|lines| - 1]];
      assert forall l :: l in lines ==> l in init || l == lines[|lines| - 1];
    }
  }

  // ---- The command: standard input first, then the command line ----

  /** What the command ends with: help text, an error, or the document to print. */
  datatype Outcome = ShowHelp | Failed(error: ArgError) | Printed(doc: Doc)

  /** All arguments in the order the command sees them. */
  function AllArgs(stdinLines: Option<seq<string>>, cliArgs: seq<string>): seq<string> {
    (if stdinLines.Some? then NormalizeLines(stdinLines.value) else []) + cliArgs
  }

  /** The arguments that hold an '=' (ValidArgs) and the ones warned about and skipped. */
  function ValidArgs(all: seq<string>): seq<string>
    decreases |all|
  {
    if all == [] then []
    else ValidArgs(all[..|all| - 1]) + (if '=' in all[|all| - 1] then [all[|all| - 1]] else [])
  }

  function SkippedArgs(all: seq<string>): seq<string>
    decreases |all|
  {
    if all == [] then []
    else SkippedArgs(all[..|all| - 1]) + (if '=' in all[|all| - 1] then [] else [all[|all| - 1]])
  }

  function Command(stdinLines: Option<seq<string>>, cliArgs: seq<string>): Outcome {
    var all := AllArgs(stdinLines, cliArgs);
    if all == [] then ShowHelp
    else
      match Process(ValidArgs(all))
      case Err(e) => Failed(e)
      case Ok(doc) => Printed(doc)
  }

  /** The filtering loop of RunE: arguments with an '=' are kept, the others skipped, both in order. */
  method FilterArgs(allArgs: seq<string>) returns (validArgs: seq<string>, skipped: seq<string>)
    ensures validArgs == ValidArgs(allArgs) && skipped == SkippedArgs(allArgs)
  {
    validArgs, skipped := [], [];
    for i := 0 to |allArgs|
      invariant validArgs == ValidArgs(allArgs[..i])
      invariant skipped == SkippedArgs(allArgs[..i])
    {
      assert allArgs[..i + 1][..i] == allArgs[..i];
      var arg := allArgs[i];
      if '=' !in arg {
        skipped := skipped + [arg];
        continue;
      }
      validArgs := validArgs + [arg];
    }
    assert allArgs[..|allArgs|] == allArgs;
  }

  /**
   * RunE without the terminal: `stdinLines` is None when standard input is a
   * terminal, and the skipped arguments, which the program warns about on
   * standard error, are returned in order.
   */
  method RunE(stdinLines: Option<seq<string>>, cliArgs: seq<string>) returns (out: Outcome, skipped: seq<string>)
    ensures out == Command(stdinLines, cliArgs)
    ensures skipped == if AllArgs(stdinLines, cliArgs) == [] then [] else SkippedArgs(AllArgs(stdinLines, cliArgs))
  {
    var allArgs: seq<string> := [];
    if stdinLines.Some? {
      var stdinArgs := ReadStdinArgs(stdinLines.value);
      allArgs := allArgs + stdinArgs;
    }
    allArgs := allArgs + cliArgs;
    assert allArgs == AllArgs(stdinLines, cliArgs);
    if |allArgs| == 0 {
      return ShowHelp, [];
    }
    var validArgs;
    validArgs, skipped := FilterArgs(allArgs);
    var r := ProcessArgs(validArgs);
    if r.Err? {
      return Failed(r.error), skipped;
    }
    return Printed(r.value), skipped;
  }

  /** The filter keeps exactly the arguments with an '=', in order. */
  lemma {:induction false} ValidArgsShape(all: seq<string>)
    ensures forall x :: x in ValidArgs(all) <==> x in all && '=' in x
    ensures forall x :: x in SkippedArgs(all) <==> x in all && '=' !in x
    ensures |ValidArgs(all)| + |SkippedArgs(all)| == |all|
    ensures (forall i :: 0 <= i < |all| ==> '=' !in all[i]) ==> ValidArgs(all) == []
    decreases |all|
  {
    if all != [] {
      var init := all[..|all| - 1];
      ValidArgsShape(init);
      assert all == init + [all[|all| - 1]];
      assert forall i :: 0 <= i < |init| ==> init[i] == all[i];
      assert forall l :: l in all <==> l in init || l == all[|all| - 1];
    }
  }

  lemma {:induction false} ValidArgsAppend(a: seq<string>, b: seq<string>)
    ensures ValidArgs(a + b) == ValidArgs(a) + ValidArgs(b)
    decreases |b|
  {
    if b == [] {
      assert a + b == a;
    } else {
      var b' := b[..|b| - 1];
      assert (a + b)[..|a + b| - 1] == a + b';
      assert (a + b)[|a + b| - 1] == b[|b| - 1];
      ValidArgsAppend(a, b');
    }
  }

  /** After the filter no argument can fail for want of an '='. */
  lemma CommandNeverInvalidFormat(stdinLines: Option<seq<string>>, cliArgs: seq<string>)
    ensures !(Command(stdinLines, cliArgs).Failed? && Command(stdinLines, cliArgs).error.InvalidFormat?)
  {
    var valid := ValidArgs(AllArgs(stdinLines, cliArgs));
    ValidArgsShape(AllArgs(stdinLines, cliArgs));
    NoInvalidFormat(map[], valid);
  }

  lemma {:induction false} NoInvalidFormat(doc: Doc, args: seq<string>)
    requires forall i :: 0 <= i < |args| ==> '=' in args[i]
    ensures ProcessFrom(doc, args).Err? ==> !ProcessFrom(doc, args).error.InvalidFormat?
    decreases |args|
  {
    if args != [] {
      assert '=' in args[0];
      match ApplyArg(doc, args[0])
      case Err(_) =>
      case Ok(next) =>
        assert forall i :: 1 <= i < |args| ==> args[i] == args[1..][i - 1];
        NoInvalidFormat(next, args[1..]);
    }
  }

  /**
   * Standard input comes first, so the last command-line argument has the last
   * word on its path, over anything read from standard input.
   */
  lemma CommandLineWins(stdinLines: Option<seq<string>>, cliArgs: seq<string>, key: string, value: string)
    requires '=' !in key && (Routed(key) ==> Tokenize(key).Ok?)
    requires Command(stdinLines, cliArgs + [key + "=" + value]).Printed?
    ensures Lookup(Command(stdinLines, cliArgs + [key + "=" + value]).doc, PathOf(key)) == Some(Str(value))
  {
    var arg := key + "=" + value;
    var all := AllArgs(stdinLines, cliArgs);
    assert AllArgs(stdinLines, cliArgs + [arg]) == all + [arg];
    assert '=' in arg by { assert arg[|key|] == '='; }
    ValidArgsAppend(all, [arg]);
    assert ValidArgs([arg]) == [arg];
    ProcessFromAppend(map[], ValidArgs(all), [arg]);
    LastWriteWins(ValidArgs(all), key, value);
  }

  /** Help is shown only when there are no arguments at all; when all are skipped the document is empty. */
  lemma CommandAllSkipped(stdinLines: Option<seq<string>>, cliArgs: seq<string>)
    requires AllArgs(stdinLines, cliArgs) != []
    requires forall i :: 0 <= i < |AllArgs(stdinLines, cliArgs)| ==> '=' !in AllArgs(stdinLines, cliArgs)[i]
    ensures Command(stdinLines, cliArgs) == Printed(map[])
  {
    var all := AllArgs(stdinLines, cliArgs);
    ValidArgsShape(all);

  }
}
