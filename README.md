# jo and repo in Dafny

This project models two small Go command-line tools and proves properties of the model.

- **jo** (`jo/cmd/root.go`) turns `key=value` arguments into one JSON document. The arguments come from standard input and from the command line.
  - A key with both a `[` and a `]` is a key path such as `users[123][name]`. It is split into segments, and the value is stored in nested maps. Missing maps are created, and a string found in the way is replaced by a map.
  - Any other key is stored as it is.
  - An argument without `=` is skipped with a warning. The first argument whose key path is malformed stops the whole run.
- **repo** (`repo/main.go`) opens the web page of the current git checkout.
  - It recognises the forge (GitHub, GitLab, Codeberg, Gitea) from the host of the `origin` remote.
  - At the top of the checkout it opens the repository's home page.
  - Inside a subdirectory it fills in the forge's tree-view template with the repository path, the default branch and the subdirectory.

Files:

- `wrappers.dfy`: the `Option` and `Result` types.
- `go_strings.dfy` (module `GoStrings`): the parts of Go's `strings` package the tools use. These are `TrimSpace` with Go's white-space set, `TrimPrefix`/`TrimSuffix`, `SplitN(s, sep, 2)`, `Split` on one character, and `Replace(s, pat, rep, 1)`. The file also holds the lemmas the rest of the model uses about them.
- `jo_keypath.dfy` (module `KeyPath`): `parseKeyPath`.
  - `ParseKeyPath` is the character loop of the source.
  - `Tokenize` is a character-by-character scanner function that specifies it.
  - A small layout model (bare texts and bracketed groups) states which strings parse and to what, and which malformed shapes give which error.
- `jo_document.dfy` (module `Document`): `setNestedValue`.
  - `SetPath` is the value-level meaning of a nested write.
  - `Lookup` reads a path back.
  - `SetNestedValue` is the loop of the source. It keeps, as frames, the maps it walks through, and then rebuilds the document from them.
- `jo_args.dfy` (module `Jo`):
  - `ProcessArgs` is a loop, proved equal to the fold `Process`;
  - `ReadStdinArgs` works on the lines the scanner produces;
  - `RunE` puts the standard-input arguments first and filters out entries without `=`.
- `jo_examples.dfy` (module `JoExamples`): the `ProcessArgs`, nested-override and `ReadStdinArgs` cases of `jo/cmd/root_test.go` and the malformed key paths, stated as lemmas. Keys and values are mostly parameters, so each case holds for every value.
- `repo_forge.dfy` (module `Repo`):
  - the forge table, `detectForge`, the template expansion, the subdirectory and branch trims;
  - `OpenTarget`, the whole of `main` once the git commands have answered, with the branch trim as written;
  - `OpenTargetFixed`, the same with the corrected branch trim of the finding below.

The model follows the code where it differs from the documented behaviour:

- Only a key containing both `[` and `]` goes to the path parser. `a[b=v` is stored under the flat key `a[b` and is not rejected.
- `jo` shows its help only when it gets no arguments at all. When every argument lacks `=`, all are skipped and the output is the empty document `{}`.

## Model

| member | source | states |
|---|---|---|
| KeyPath.ParseKeyPath | jo/cmd/root.go:88-132 | The loop returns exactly the scanner specification's result. On success the segments are at least one, each non-empty and free of brackets. |
| KeyPath.TokenizeWellFormed | jo/cmd/root.go:93-131 | Every successful parse gives a non-empty list of non-empty, bracket-free segments. |
| KeyPath.RunAppend | jo/cmd/root.go:93-117 | Scanning `a + b` is scanning `b` from the state after `a`. An error in `a` stops the scan. |
| KeyPath.TokenizeRender | jo/cmd/root.go:93-131 | A key path of bare texts and `[text]` groups parses to the list of its texts, in order. Texts must be non-empty and bracket-free, with no two bare texts adjacent. |
| KeyPath.TokenizeRoundTrip | jo/cmd/root.go:93-131 | `k0[k1]...[kn]` parses back to exactly `[k0, ..., kn]` for any non-empty, bracket-free segments. |
| KeyPath.TokenizeBracketsOnly | jo/cmd/root.go:93-131 | `[k0][k1]...[kn]` parses to `[k0, ..., kn]` too. |
| KeyPath.TokenizeNested | jo/cmd/root.go:95-98 | A second `[` before the open group is closed gives the nested-bracket error. |
| KeyPath.TokenizeUnmatchedClose | jo/cmd/root.go:104-107 | A `]` with no open group gives the unmatched-close error. |
| KeyPath.TokenizeEmptyBrackets | jo/cmd/root.go:108-110 | `[]` gives the empty-brackets error. |
| KeyPath.TokenizeUnclosed | jo/cmd/root.go:119-121 | A group still open at the end gives the unclosed-bracket error. |
| KeyPath.TokenizeNoKeys | jo/cmd/root.go:127-129 | The no-keys error happens exactly for the empty key path. |
| KeyPath.RunProgress | jo/cmd/root.go:93-129 | A scan of a non-empty string never ends in the no-keys error. |
| Document.SetPath | jo/cmd/root.go:59-82 | The write adds the path's first key at the top level and leaves every other top-level entry as it was. |
| Document.SetNestedValue | jo/cmd/root.go:51-85 | A key path that does not parse returns its error and the document unchanged. Otherwise the result is the document with the value written at the parsed path. |
| Document.SetPathReaches | jo/cmd/root.go:60-63 | After the write, looking up the path gives the value. |
| Document.SetPathFrame | jo/cmd/root.go:60-82 | Every path that leaves the written path before either ends looks up to what it did before. |
| Document.SetPathPrefix | jo/cmd/root.go:64-80 | Every proper prefix of the written path looks up to a map. |
| Document.SetPathBelow | jo/cmd/root.go:61-63 | Nothing is found below the written value. |
| Document.ScalarReplacedByMap | jo/cmd/root.go:69-74 | A string in the way of a longer path is replaced by a new map holding only the rest of the path. |
| Document.SetPathIdempotent | jo/cmd/root.go:51-85 | Writing the same value at the same path twice has the effect of writing it once. |
| Jo.ProcessArgs | jo/cmd/root.go:17-48 | The loop returns the in-order fold of the arguments over an empty map, stopping at the first failure. |
| Jo.SplitArg | jo/cmd/root.go:24-33 | Only the first `=` splits: the key has no `=`, and the value keeps all of its own. |
| Jo.ApplyArgOk | jo/cmd/root.go:24-44 | One argument applies exactly when it has an `=` and its key, if routed to the parser, parses. The error does not depend on the document. |
| Jo.ProcessFromAppend | jo/cmd/root.go:20-45 | Processing `a + b` is processing `b` from the document `a` built. |
| Jo.ProcessFailFast | jo/cmd/root.go:28-40 | After a failure, later arguments change nothing. |
| Jo.ProcessOk | jo/cmd/root.go:17-48 | The arguments succeed exactly when each one is valid. |
| Jo.ProcessFirstError | jo/cmd/root.go:20-40 | The error reported is the one of the first invalid argument. |
| Jo.LastWriteWins | jo/cmd/root.go:36-44 | After a later `key=value`, the key's path looks up to that value. |
| Jo.LaterArgKeepsOthers | jo/cmd/root.go:36-44 | A later argument leaves every path diverging from its own as it was. |
| Jo.FlatKeyVerbatim | jo/cmd/root.go:36-44 | A key without both brackets is stored under the key text itself. |
| Jo.RepeatArg | jo/cmd/root.go:17-48 | Repeating an argument straight away has no further effect. |
| Jo.ReadStdinArgs | jo/cmd/root.go:139-144 | The loop keeps the trimmed non-blank lines in order. |
| Jo.NormalizeAppend | jo/cmd/root.go:139-144 | Normalising distributes over concatenation of the input, so the order is kept. |
| Jo.NormalizeLinesTrimmed | jo/cmd/root.go:140-142 | Every argument read is non-empty, with no white space at either end. |
| Jo.NormalizeLinesLength | jo/cmd/root.go:139-144 | There are never more arguments than lines. |
| Jo.NormalizeLinesFromLines | jo/cmd/root.go:139-144 | Every argument read is the trimmed text of some input line. |
| Jo.NormalizeLinesComplete | jo/cmd/root.go:139-144 | Every line that is not blank gives an argument. |
| Jo.RunE | jo/cmd/root.go:181-222 | The command's outcome is help for no arguments at all; else the result of processing the arguments that hold `=`. It also reports, in order, the arguments skipped with a warning. |
| Jo.ValidArgsShape | jo/cmd/root.go:208-216 | The arguments kept are exactly those with `=`, and the skipped ones exactly those without. Together they account for all arguments. |
| Jo.FilterArgs | jo/cmd/root.go:208-216 | The loop keeps the arguments holding `=` and collects the others, both in input order, as the filter specification says. |
| Jo.ValidArgsAppend | jo/cmd/root.go:208-216 | The filter keeps the order: standard-input arguments stay before command-line ones. |
| Jo.NoInvalidFormat | jo/cmd/root.go:28-30 | Arguments that each hold `=` never fail with the invalid-format error. |
| Jo.CommandNeverInvalidFormat | jo/cmd/root.go:208-222 | Because of the filter, the command never fails with the invalid-format error. |
| Jo.CommandLineWins | jo/cmd/root.go:190-200 | A command-line argument overrides a standard-input one for the same key. |
| Jo.CommandAllSkipped | jo/cmd/root.go:203-219 | When there are arguments but none holds `=`, the output is the empty document. |
| JoExamples.SimpleKeyValue | jo/cmd/root_test.go:18-23 | For a plain key `k`, `k=<v>` gives `{k: v}`. |
| JoExamples.MultipleSimpleKeyValues | jo/cmd/root_test.go:24-29 | For plain keys, `k1=<v1> k2=<v2>` gives `{k1: v1, k2: v2}` (the second wins if the keys are equal). |
| JoExamples.NestedKey | jo/cmd/root_test.go:30-35 | For plain keys, `k1[k2]=<v>` gives `{k1: {k2: v}}`. |
| JoExamples.MixedSimpleAndNested | jo/cmd/root_test.go:48-59 | For plain keys with `n != k1`, `n=<a> k1[k2]=<b> k1[k3]=<c>` gives `{n: a, k1: {k2: b, k3: c}}`. |
| JoExamples.TwoLinesKept | jo/cmd/root_test.go:149-160 | Two lines without surrounding white space, such as `name=John` and `age=30` or `user[name]=John` and `user[age]=30`, give exactly those two arguments. |
| JoExamples.EmptyInput | jo/cmd/root_test.go:167-172 | No input lines give no arguments. |
| JoExamples.ValueWithEquals | jo/cmd/root_test.go:42-47 | `url=<v>` gives `{"url": v}` for any `v`, including values with `=`. |
| JoExamples.MultipleNestedKeys | jo/cmd/root_test.go:36-41 | `user[name]=<n> user[age]=<a>` gives one nested map with both fields. |
| JoExamples.InvalidFormatFails | jo/cmd/root_test.go:60-65 | Any argument without `=`, such as `invalid`, fails with the invalid-format error naming that argument. |
| JoExamples.SimpleKeyBecomesNested | jo/cmd/root_test.go:104-112 | For plain keys such as `user` and `name`, `k1=<s>` then `k1[k2]=<n>` gives `{k1: {k2: n}}`: the string is replaced by the map. |
| JoExamples.NestedBecomesSimpleKey | jo/cmd/root_test.go:113-119 | For plain keys, `k1[k2]=<n>` then `k1=<s>` gives `{k1: s}`: the later flat key replaces the whole map. |
| JoExamples.EmptyLinesIgnored | jo/cmd/root_test.go:161-166 | Lines `a`, blank, `b`, blank give the arguments `a`, `b`. |
| JoExamples.HalfBracketIsFlat | jo/cmd/root.go:36-44 | `a[b=<v>` is stored under the flat key `a[b`. |
| JoExamples.CloseBeforeOpenFails | jo/cmd/root.go:104-107 | `a]b[=<v>` fails with the unmatched-close error. |
| JoExamples.EmptyBracketsFail | jo/cmd/root.go:108-110 | `a[]=<v>` fails with the empty-brackets error. |
| JoExamples.UnclosedSecondBracketFails | jo/cmd/root.go:119-121 | `a[b][=<v>` fails with the unclosed-bracket error. |
| JoExamples.DeepNestingMerges | jo/cmd/root.go:60-82 | `users[123][name]` then `users[123][age]` merge under the same parent maps. |
| GoStrings.TrimSpace | jo/cmd/root.go:140 | The result has no white space at either end, and it is empty exactly when the input is all white space. |
| GoStrings.TrimSpaceInfix | jo/cmd/root.go:140 | The result is a piece of the input with only white space around it. |
| GoStrings.TrimSpaceIdempotent | jo/cmd/root.go:140 | Trimming twice is trimming once. |
| GoStrings.TrimPrefix | repo/main.go:55-56 | With the prefix present, the input is the prefix followed by the result. Without it, the input is returned unchanged. |
| GoStrings.TrimSuffix | repo/main.go:124 | With the suffix present, the input is the result followed by the suffix. Without it, the input is returned unchanged. |
| GoStrings.SplitFirst | jo/cmd/root.go:24 | The input is the key, the separator and the rest, and the key has no separator. There is no split exactly when the separator is absent. |
| GoStrings.Split | repo/main.go:121-122 | The pieces hold no separator and joined back give the input. There is a single piece exactly when the separator is absent. |
| GoStrings.IndexOf | repo/main.go:67-69 | The index found is the first occurrence of the pattern, and there is none when the pattern does not occur. |
| GoStrings.ReplaceFirst | repo/main.go:67-69 | Without an occurrence the text is unchanged. With one, the length changes by the difference of the two lengths. ReplaceFirstAt pins down where the replacement goes. |
| GoStrings.ReplaceFirstAt | repo/main.go:67-69 | When the pattern starts nowhere inside `x`, the replacement lands right after `x`. |
| GoStrings.ReplaceFirstAfter | repo/main.go:67-69 | When nothing before the pattern can start it, the first occurrence replaced is the one right after that text. |
| GoStrings.ReplaceFirstChain | repo/main.go:67-69 | Three placeholders replaced in order land in their own places. |
| Repo.HostAndPath | repo/main.go:118-131 | No contract of its own. It is characterised by DetectSsh, DetectSshGit, DetectFailsIff, DetectHttps, DetectHttpsPlain, DetectHttpsUnparsed and DetectOther. |
| Repo.DetectForge | repo/main.go:117-140 | A successful detection always returns a forge of the table. It fails exactly when extracting the host and path fails; DetectFailsIff says when that is. |
| Repo.LookupForge | repo/main.go:134-139 | A host in the table gives its forge, and any other host gives the Codeberg entry. The result is always a table entry. |
| Repo.LookupForgeNames | repo/main.go:17-34 | Each table host has its own forge name. The Codeberg name is given exactly to `codeberg.org` and to unknown hosts. |
| Repo.DetectSshGit | repo/main.go:120-124 | `git@<host>:<o>.git` gives the repository path `<host>/<o>` on the host's forge. |
| Repo.DetectSsh | repo/main.go:120-124 | For `git@<host>:<path>[:...]` with no `@` in the host, the host is the text between `git@` and the first `:`. The repository path is `<host>/` plus the next field with one `.git` removed. (With more `@`s, `HostAndPath` takes the second `@`-field, as the code does.) |
| Repo.DetectFailsIff | repo/main.go:120-124 | Detection fails exactly for a `git@` remote without `:`, where the program indexes past the end. |
| Repo.DetectHttps | repo/main.go:125-131 | A parsed `https://` path `/<o>.git` gives the repository path `<host>/<o>`. |
| Repo.DetectHttpsPlain | repo/main.go:125-131 | A parsed path `/<o>` not ending in `.git` gives `<host>/<o>`. |
| Repo.DetectHttpsUnparsed | repo/main.go:125-139 | An `https://` remote that does not parse gives the path `/` on Codeberg. |
| Repo.DetectOther | repo/main.go:118-139 | A remote with neither prefix gives the path `/` on Codeberg. |
| Repo.ExpandTemplateParts | repo/main.go:67-69 | A template `a{repo}b{branch}c{path}` expands to `a + repo + b + branch + c + subDir`. This needs fixed parts without `{`, with `b` and `c` starting with `/` as in every table template. It also needs the repository path to hold neither `{branch}` nor `{path}`, and the branch not to hold `{path}`. Other braces, as in a branch `v{2}`, are allowed. |
| Repo.WebURLTree | repo/main.go:61-69 | Inside a subdirectory, GitHub gives `https://<repo>/tree/<branch>/<dir>`. GitLab gives `.../-/tree/...`, and every other host gives `.../src/branch/...`. This holds whenever the repository path and the branch hold no placeholder that is replaced after them. |
| Repo.ExpandTemplate | repo/main.go:67-69 | No contract of its own. It is characterised by ExpandTemplateParts and WebURLTree. |
| Repo.WebURL | repo/main.go:61-72 | No contract of its own. It is characterised by WebURLTree inside a subdirectory and by WebURLAtRoot at the top. |
| Repo.WebURLAtRoot | repo/main.go:61-72 | At the top of the checkout the page is `https://<repoPath>` on every forge. |
| Repo.SubDir | repo/main.go:55-56 | The subdirectory is a suffix of the working directory. It is the working directory itself when neither the top nor `/` prefixes it. SubDirBelow and SubDirAtTop give its two main cases. |
| Repo.SubDirBelow | repo/main.go:55-56 | A directory `<top>/<rel>` gives the subdirectory `<rel>`. |
| Repo.SubDirAtTop | repo/main.go:55-56 | The top itself gives the empty subdirectory. |
| Repo.DefaultBranchName | repo/main.go:112-113 | No contract of its own. It is characterised by DefaultBranchSymbolicRef and DefaultBranchFallbackAsWritten. |
| Repo.DefaultBranchNameFixed | repo/main.go:104-113 | No contract of its own. It is characterised by DefaultBranchSymbolicRef and DefaultBranchFallbackFixed. |
| Repo.DefaultBranchSymbolicRef | repo/main.go:101-113 | The `git symbolic-ref` output `refs/remotes/origin/<b>` plus a newline gives `<b>`. |
| Repo.DefaultBranchFallbackAsWritten | repo/main.go:104-113 | As written, the fallback output `origin/<b>` plus a newline gives `origin/<b>`, not `<b>`. |
| Repo.DefaultBranchFallbackFixed | repo/main.go:104-113 | With the corrected trim the fallback output gives `<b>`. |
| Repo.OpenTarget | repo/main.go:36-72 | No contract of its own. It is characterised by OpenSshAtRoot, OpenHttpsInSubDir and OpenHttpsFallback. |
| Repo.OpenTargetFixed | repo/main.go:36-72 | No contract of its own. It is characterised by OpenSshAtRoot and OpenHttpsFallback. |
| Repo.OpenSshAtRoot | repo/main.go:55-72 | `git@<host>:<o>.git` opened at the top of the checkout gives `https://<host>/<o>`. |
| Repo.OpenHttpsInSubDir | repo/main.go:55-72 | An `https://` remote with parsed path `/<o>.git`, opened in `<top>/<rel>`, gives the forge's page for `<host>/<o>`. The page is for subdirectory `<rel>` and for the branch that getDefaultBranch's trim, as written, makes of the git output. |
| Repo.OpenHttpsFallback | repo/main.go:104-113 | When git prints the fallback `origin/<b>`, the page as written names the branch `origin/<b>`. With the corrected trim it names `<b>`. |

## Left out

- `ConvertToJSON` (jo/cmd/root.go:154-160) is not modelled. It is `encoding/json` pretty-printing, and key order and escaping are that library's behaviour.
- Reading standard input is not modelled: the `bufio.Scanner` line splitting, its 64 KiB line limit and its read errors (jo/cmd/root.go:137-150). `ReadStdinArgs` takes the lines the scanner yields.
- The `os.Stdin.Stat` terminal test (jo/cmd/root.go:184-189) is a parameter: `RunE` takes `None` for a terminal and the lines otherwise. The error return of `Stat` (jo/cmd/root.go:185-187) is not modelled.
- The Cobra/fang command wiring is not modelled: help text, `Execute` and jo/main.go.
- The warning text written to standard error (jo/cmd/root.go:212) is not modelled. `RunE` returns the skipped arguments in their order instead.
- The error message texts are not modelled. The errors are modelled as the datatypes `ArgError`, `PathError` and `DetectError`.
- Go's `range` over a string decodes UTF-8 runes. The model iterates over Dafny characters, so invalid UTF-8, which Go reads as U+FFFD, is not modelled.
- Document.SetNestedValue: Go writes through aliases of nested maps. The model works on map values instead: it walks down, keeping the parent maps as frames, and rebuilds the document on the way up. Sharing between maps is not captured, and jo never shares a map between two places.
- Document.Node: Go's `map[string]any` holds any values. The model holds only strings and maps, the only two kinds `ProcessArgs` stores.
- The git commands are not modelled: `getRemoteURL`, `getGitToplevel`, the two commands in `getDefaultBranch`, and their failures. Neither are `os.Getwd`, `openURL` (repo/open_*.go), printing and `os.Exit`. `OpenTarget` takes their results as parameters, and the remote and top directory are taken as already trimmed (repo/main.go:89, 98).
- `url.Parse` is not modelled. Its outcome is the parameter `parsed` (host and path, or `None` on failure).
- Repo.DetectError: the program panics on a `git@` remote without `:`. The model returns `Err(IndexOutOfRange)` instead.
- Repo.OpenTargetFixed is not the program: it uses the corrected branch trim `DefaultBranchNameFixed` of the finding below. `OpenTarget` keeps the trim as written.
- The repository's other programs (hex, nibs, obs, slow, urlencode) are not part of this model.

## Findings

| source | as written | input that shows it | evidently intended | confidence | as-written member | corrected member |
|---|---|---|---|---|---|---|
| repo/main.go:104-113 | Both the symbolic-ref output and the fallback output are trimmed only of `refs/remotes/origin/`. | `git symbolic-ref` fails and `git rev-parse --abbrev-ref origin/HEAD` prints `origin/main\n`. The branch is then `origin/main`, and the page is `.../tree/origin/main/<dir>`. | The branch name `main` from either command. | not executed; medium, since it rests on git printing the fallback as `origin/<branch>` | Repo.DefaultBranchFallbackAsWritten | Repo.DefaultBranchFallbackFixed |
