# hatchkit, modelled in Dafny

hatchkit is a command-line tool with two jobs. `hatchkit init` scaffolds a
project for AI-assisted development, and `hatchkit check` reports which
developer tools are installed. `hatchkit pr …` wraps the GitHub CLI (`gh`)
and its GraphQL bridge to list, resolve and answer pull-request review
threads and to show CI checks. This project models the decision logic of
those commands and proves what they promise.

The model has five modules:

- `Py` (`py.dfy`) holds the Python semantics the code relies on. It has a
  JSON value type (`Json`) for parsed `gh` output, a `Failure` type for how
  a command ends, truthiness, `dict.get`, `[]`, `in`, iteration, `str`,
  `repr`, `strip`, `upper`, `join` and slicing. It also has `Collect`,
  which runs a fallible per-item step over a list, numbering items from 1
  as `enumerate(…, 1)` does.
- `GhRemote` (`gh_remote.dfy`) is `get_repo_info`'s URL recogniser. It is a
  hand-written matcher equivalent to the two anchored regular expressions.
- `Gh` (`gh.dfy`) models the rest of `gh.py`:
  - `_run_command` maps the process outcome of a call.
  - `require_gh` gating.
  - `_run_graphql` builds the argv and checks for `errors`.
  - The review-thread filter.
  - The five public calls.

  The process runner and `json.loads` are a `Host` value with three parts:
  whether `gh` is on PATH, a function from argv to process outcome, and a
  partial parse function. Every call returns the list of argvs it spawned
  together with its result.
- `Pr` (`pr.dfy`) models the `info`, `threads`, `resolve`, `reply` and
  `checks` commands as functions. Each returns a `Run`: the spawned argvs,
  the emitted output (markup lines, tables with their cells, JSON
  documents) and the failure, if any. The two table loops and the
  thread-ID listing are methods with loop invariants, proved equal to the
  functions that specify them.
- `Cli` (`cli.dfy`) models `init` and `check`. The filesystem is a
  `FileSystem` class with two fields: `files`, a map from path to content,
  and `dirs`, the set of existing directories. Its invariant `Valid()`
  says the directory tree is closed under parents and that files and
  directories never share a path. `mkdir`, `mkdir(parents=True)` and
  `write_text` are methods with full frame conditions. `_write_file`,
  `_write_ai_config`, `_write_project_files`, `init` and `check` are
  methods over that state.

Template bodies are not quoted in the model:

- The AGENTS.md text, the agent-command text and the Copilot text come in
  through a `Templates` parameter. `AgentCommandMd` splices the agent name
  between a head and a tail, as the f-string does.
- The three GraphQL documents come in through a `Documents` parameter.
- `Gh.SourceDocuments` holds the three documents verbatim.
- The `.gitignore` additions are concrete, because the patch's idempotence
  depends on them.

## Behaviour worth noting

- **Failing resolve after `reply --resolve`.** When the resolve mutation
  fails, the command exits with that failure and prints nothing. The reply
  result is not printed either, because printing happens only after both
  calls (`Pr.Reply`).
- **Empty `errors` list.** Any `errors` key in a GraphQL response is fatal,
  even an empty list (`Gh.EmptyErrorsFatal`), because the test is `"errors"
  in data`, not the truthiness of the list.
- **Skip message for short paths.** The skip message of `_write_file` reads
  `path.parents[2]`. That raises `IndexError` for a path with fewer than
  three components, such as `/.hatchkit/AGENTS.md` when the target is the
  filesystem root. The model makes this a crash (`Cli.WriteFile`).
- **`init --ai claude` writes one command file.** `_write_ai_config`
  writes only `.claude/commands/hatchkit.md` for `claude`. The test suite
  also expects `.claude/commands/hatchkit.prfix.md` (tests/test_cli.py:63-79),
  which this code never writes. The model follows the code (`Cli.AgentTable`).

## Model

| member | source | states |
|---|---|---|
| Py.Lookup | src/hatchkit/gh.py:86 | a key is absent iff no field carries it; a found value is stored under that key |
| Py.GetOr | src/hatchkit/pr.py:85-90 | `.get` succeeds exactly on dicts (AttributeError otherwise), giving the stored value when the key is present and the default when it is absent |
| Py.Subscript | src/hatchkit/gh.py:86 | `v[key]` succeeds iff `v` is a dict holding `key` (KeyError/TypeError otherwise), and then gives the value stored under `key` |
| Py.Iterate | src/hatchkit/gh.py:89 | iterating a list yields its items, a dict its keys as texts in order, a string its characters as one-character texts; anything else raises |
| Py.Collect | src/hatchkit/gh.py:172 | the comprehension succeeds iff every item's step succeeds; then it has one entry per item, in order, numbered from 1 |
| Py.CollectStep | src/hatchkit/pr.py:82-93 | one more loop iteration appends exactly the new item's result, or fails |
| Py.CollectPrefix | src/hatchkit/pr.py:82-93 | a failure on a prefix of the list is a failure of the whole loop |
| Py.SlashIndex | src/hatchkit/gh.py:34 | the index of the first `/`, or the length when there is none |
| Py.OccurrencesAt | src/hatchkit/cli.py:206 | the marker count is positive iff the marker occurs at some position (the `in` test) |
| Py.OccurrencesSplit | src/hatchkit/cli.py:207 | counts add across a separator character that the marker does not contain |
| Py.OccurrencesNone | src/hatchkit/cli.py:207 | a text without the marker's first character contains no marker |
| Py.OccurrencesSelf | src/hatchkit/cli.py:189 | the marker occurs exactly once in itself |
| Py.NatToString | src/hatchkit/pr.py:88 | `str(i)` is a non-empty run of decimal digits with no leading zero |
| Py.NatToStringRoundTrip | src/hatchkit/pr.py:88 | the digits of `str(i)` read back as `i` |
| Py.IntToString | src/hatchkit/gh.py:164 | `str` of an int is non-empty and starts with `-` iff the int is negative |
| Py.CharRepr | src/hatchkit/gh.py:172 | `repr` escapes the quote and the backslash |
| Py.StrRepr | src/hatchkit/gh.py:172 | `repr` of a string is enclosed in a matching pair of quotes |
| Py.LeadingSpace | src/hatchkit/gh.py:31 | the length of the leading whitespace run |
| Py.TrailingStart | src/hatchkit/gh.py:31 | the start of the trailing whitespace run |
| Py.Strip | src/hatchkit/gh.py:31 | the stripped text is empty or begins and ends with non-whitespace, and is no longer than the input |
| Py.StripSlice | src/hatchkit/gh.py:141 | the stripped text is the input minus a whitespace prefix and a whitespace suffix |
| Py.TrailingPadded | src/hatchkit/gh.py:31 | trailing whitespace after a non-space character starts exactly at the padding |
| Py.StripPadded | src/hatchkit/gh.py:31 | stripping a trimmed text followed by whitespace gives the text back |
| Py.UpperChar | src/hatchkit/pr.py:165 | upper-casing one character gives at least one character |
| Py.Upper | src/hatchkit/pr.py:165 | upper-casing never shortens a text |
| Py.UpperAscii | src/hatchkit/pr.py:165-167 | on ASCII text, `upper()` keeps the length and maps exactly `a`–`z` to `A`–`Z`, character by character |
| Py.Join | src/hatchkit/gh.py:173 | joining no parts is empty; joining one part is that part |
| Py.JoinAppend | src/hatchkit/gh.py:173 | joining one more part adds the separator and that part at the end, so the parts appear in order with one separator between neighbours |
| Py.UpperEquals | src/hatchkit/pr.py:165-167 | on ASCII text, `s.upper() == t` holds iff `t` has the length of `s` and each of its characters is the upper case of the matching character of `s` |
| Py.Take | src/hatchkit/pr.py:86 | `s[:n]` is the prefix of length min(n, len s) |
| GhRemote.RepoGroup | src/hatchkit/gh.py:34 | the lazy repository group drops a trailing `.git` only if something is left, and never contains `/` |
| GhRemote.ParseRemote | src/hatchkit/gh.py:30-44 | success gives a non-empty, slash-free owner and repository; failure is exit 1 with the stripped URL in the message |
| GhRemote.SlashIndexOf | src/hatchkit/gh.py:34 | in `O/T` with a slash-free owner O, the first slash follows O |
| GhRemote.MatchTail | src/hatchkit/gh.py:34 | `prefix O/T` matches with owner O and the repository group of T |
| GhRemote.MatchForms | src/hatchkit/gh.py:34-41 | `prefix O/R` and `prefix O/R.git` both match as (O, R) |
| GhRemote.GitSuffix | src/hatchkit/gh.py:34 | the optional `.git` group gives back the name that preceded it |
| GhRemote.SshIsNotHttps | src/hatchkit/gh.py:33-41 | an SSH-shaped URL cannot also be HTTPS-shaped, so the order of the two tries does not matter |
| GhRemote.SshRemote | src/hatchkit/gh.py:31-36 | SSH URLs with or without `.git`, followed by whitespace, give the same (O, R) |
| GhRemote.HttpsRemote | src/hatchkit/gh.py:31-41 | HTTPS URLs with or without `.git`, followed by whitespace, give the same (O, R) |
| GhRemote.MatchShape | src/hatchkit/gh.py:34 | a match is exactly `prefix owner/repo`, with or without `.git` |
| GhRemote.RepoForms | src/hatchkit/gh.py:34 | a split `owner/tail` is one of the two forms of its repository group |
| GhRemote.ParseRemoteSound | src/hatchkit/gh.py:31-41 | every accepted URL, once stripped, is one of the four remote forms of its pair and does not end in `/` |
| GhRemote.LastIsNotSlash | src/hatchkit/gh.py:34 | a matched text starts with the prefix and does not end with `/` |
| GhRemote.ParseRemoteRejects | src/hatchkit/gh.py:43-44 | another host, a trailing slash, or a text that is no remote form of any pair fails with exit 1 |
| GhRemote.SshExample | tests/test_gh.py:55-72 | `git@github.com:bob/cool-project[.git]\n` parses as (bob, cool-project) |
| GhRemote.HttpsExample | tests/test_gh.py:35-52 | `https://github.com/alice/my-repo[.git]\n` parses as (alice, my-repo) |
| GhRemote.OtherHostExample | tests/test_gh.py:75-81 | the GitLab URL is rejected |
| Gh.ExitCodeMessage | src/hatchkit/gh.py:142 | the default failure message is non-empty |
| Gh.RunCommand | src/hatchkit/gh.py:132-144 | spawns exactly the argv; exit 0 returns stdout unchanged; another code raises GhError with the stripped stderr, or the exit-code message when that is blank; a missing executable exits 1 |
| Gh.RunGh | src/hatchkit/gh.py:18-22 | without `gh` on PATH nothing is spawned and the result is exit 1; otherwise it is the command prefixed with `gh` |
| Gh.Parsed | src/hatchkit/gh.py:50 | the parse succeeds iff the command and `json.loads` both do; failures pass through unchanged |
| Gh.VarArgsStep | src/hatchkit/gh.py:162-166 | each variable appends its flag and `key=value` pair |
| Gh.VarArgsShape | src/hatchkit/gh.py:162-166 | two arguments per variable, in insertion order: the flag (`-F` exactly for int and bool values, `-f` otherwise), then `key=value` with the value's `str` |
| Gh.GraphqlArgvShape | src/hatchkit/gh.py:160-166 | the argv is `gh api graphql -f query=Q` followed by the variables' pairs, 5 + 2·n long |
| Gh.BuildGraphqlArgv | src/hatchkit/gh.py:160-166 | the imperative `extend` loop builds exactly that argv |
| Gh.ErrorMessage | src/hatchkit/gh.py:172 | an error's message is its `message` text, or `str(e)` when the key is absent; a non-dict or a non-text message raises |
| Gh.ErrorMessages | src/hatchkit/gh.py:172 | one message per error, in order, or a raise |
| Gh.GraphqlErrors | src/hatchkit/gh.py:171-176 | a dict passes unchanged iff it has no `errors` key; otherwise the result is exit 1 (or an exception) |
| Gh.GraphqlErrorsReported | src/hatchkit/gh.py:171-174 | with an `errors` list, the exit message is the errors' messages joined by `; `, each one the `message` or `str(e)` |
| Gh.EmptyErrorsFatal | src/hatchkit/gh.py:171-174 | even an empty `errors` list is fatal |
| Gh.RunGraphql | src/hatchkit/gh.py:153-176 | no `gh` means nothing is spawned; otherwise the built argv runs once: a failed run passes its failure through, unparseable output crashes, and parsed output is judged by `GraphqlErrors`; a success is that zero-exit output with no `errors` |
| Gh.RunGraphqlReturnsData | src/hatchkit/gh.py:168-176 | a clean response without `errors` is returned as parsed after one spawn |
| Gh.ThreadsArgv | src/hatchkit/gh.py:83 | the threads variables become `-f owner=…`, `-f repo=…`, `-F pr=…` |
| Gh.UnresolvedOnly | src/hatchkit/gh.py:89 | the comprehension succeeds iff every thread has a readable `isResolved` |
| Gh.UnresolvedOnlyKeepsOpen | src/hatchkit/gh.py:89 | the filter keeps exactly the open threads: none invented, none open dropped |
| Gh.UnresolvedOnlyCons | src/hatchkit/gh.py:89 | the first thread is kept iff open; a thread without a flag makes it raise |
| Gh.UnresolvedOnlyAppend | src/hatchkit/gh.py:89 | the filter distributes over concatenation, so it preserves order |
| Gh.UnresolvedOnlySingle | src/hatchkit/gh.py:89 | one thread stays iff it is open |
| Gh.UnresolvedOnlyAllOpen | src/hatchkit/gh.py:89 | a list of open threads passes unchanged |
| Gh.UnresolvedOnlyIdempotent | src/hatchkit/gh.py:89 | filtering twice is filtering once |
| Gh.FilterThreads | src/hatchkit/gh.py:88-91 | with `--all` the nodes pass unchanged; without it the result holds exactly the open threads of the nodes list and nothing else, or raises when some thread lacks `isResolved` |
| Gh.FetchReviewThreads | src/hatchkit/gh.py:53-91 | spawns just the threads query; a query failure passes through, a response without the `nodes` path raises, and otherwise the result is the filter applied to that path's value |
| Gh.FetchReviewThreadsOpenOfAll | src/hatchkit/gh.py:88-91 | on the same responses the default fetch returns exactly the open threads of the `--all` listing |
| Gh.ResolveThread | src/hatchkit/gh.py:94-103 | spawns the resolve mutation with `-f threadId=…`; a failed run passes through, unparseable output crashes, a parsed response gives `GraphqlErrors` of it; a success has no `errors` |
| Gh.ReplyToThread | src/hatchkit/gh.py:106-118 | spawns the reply mutation with the id and the body as `-f` variables; a failed run passes through, unparseable output crashes, a parsed response gives `GraphqlErrors` of it; a success has no `errors` |
| Gh.GetPrInfo | src/hatchkit/gh.py:47-50 | spawns `gh pr view --json number,url,headRefName`; it succeeds iff the exit is 0 and the output parses, and then gives the parsed value; without `gh` it is the missing-gh exit with nothing spawned, a non-zero exit passes the run's failure through, and unparseable output is a crash |
| Gh.GetPrChecks | src/hatchkit/gh.py:121-124 | the same, success and each failure, for `gh pr checks --json name,state,conclusion,link` |
| Gh.GetRepoInfo | src/hatchkit/gh.py:25-44 | spawns `git remote get-url origin`; a failed run passes its failure through, a zero exit gives exactly `ParseRemote` of the output; success iff exit 0 and the URL parses, then an owner/repo pair whose remote form the stripped URL is |
| Gh.GetRepoInfoDropsGit | src/hatchkit/gh.py:30-41 | an HTTPS or SSH `origin` printed with or without `.git` and a newline gives the same owner and repository, `.git` removed |
| Pr.Cell | src/hatchkit/pr.py:87-93 | a table cell can be a string (itself) or None (blank); anything else is refused |
| Pr.InfoLines | src/hatchkit/pr.py:41-43 | the three pretty lines are printed iff `number`, `url` and `headRefName` all exist, each line only after its field was read; they show `#number`, the URL as a link to itself, and the branch |
| Pr.Info | src/hatchkit/pr.py:34-45 | a failed lookup prints nothing; JSON mode prints the parsed info unchanged; pretty mode prints the three lines of `InfoLines` for it |
| Pr.DetectRepo | src/hatchkit/pr.py:59-62 | detection runs iff owner or repo is missing; given truthy values are kept |
| Pr.DetectPr | src/hatchkit/pr.py:64-66 | an explicit PR number is passed through without a call; otherwise it is the `number` of the PR info, a failed PR view passes its failure through, and PR info without `number` is a crash |
| Pr.FirstComment | src/hatchkit/pr.py:84-86 | at most 60 characters; empty when there are no comments; a thread that is not a dict raises |
| Pr.FirstCommentCases | src/hatchkit/pr.py:84-86 | comments that are not a dict raise; absent or falsy `nodes` give a blank cell; truthy `nodes` that are not a list raise |
| Pr.FirstCommentBody | src/hatchkit/pr.py:84-86 | with a non-empty nodes list, a first node that is not a dict raises, a missing body gives a blank, a text body gives its first 60 characters, and any other body raises |
| Pr.ThreadRowOf | src/hatchkit/pr.py:83-93 | a row has five cells, of which the first is its number; a row exists iff the thread is a dict with `isResolved`, its first comment can be read, and its `path` is absent, falsy or a text |
| Pr.ThreadRowCells | src/hatchkit/pr.py:83-93 | path and line fall back to `–` when missing or falsy; the status is Resolved iff `isResolved` is truthy; the comment cell is the first comment's value |
| Pr.LinesUntil | src/hatchkit/pr.py:97-98 | the listing prints lines up to the first thread that raises, each item's own line, numbered from 1 |
| Pr.LinesStep | src/hatchkit/pr.py:97-98 | one more iteration prints the next line or stops |
| Pr.LinesUntilPrefix | src/hatchkit/pr.py:97-98 | once the listing has stopped, later threads print nothing |
| Pr.ThreadRows | src/hatchkit/pr.py:82-93 | one row per thread in list order, numbered from 1, or a raise |
| Pr.BuildThreadRows | src/hatchkit/pr.py:82-93 | the `add_row` loop computes exactly those rows |
| Pr.IdLine | src/hatchkit/pr.py:98 | a thread's ID line exists iff the thread has an `id` |
| Pr.IdLines | src/hatchkit/pr.py:97-98 | the listing is complete iff every thread has an `id`; otherwise it stops at the first one without |
| Pr.PrintIdLines | src/hatchkit/pr.py:97-98 | the printing loop computes exactly that listing |
| Pr.IdLinesMatchRows | src/hatchkit/pr.py:82-98 | each ID line carries the same number as its thread's table row |
| Pr.Markups | src/hatchkit/pr.py:98 | one printed markup line per listing line, in order |
| Pr.ThreadsPretty | src/hatchkit/pr.py:70-98 | an empty list prints only "No unresolved threads."; a list that cannot be iterated or tabled raises before printing; otherwise the table of the thread rows, the IDs heading and the ID lines, ending in a raise iff some thread lacks an `id` |
| Pr.FetchForThreads | src/hatchkit/pr.py:59-68 | a failed repository detection stops before any other call; a failed PR lookup stops before the fetch; otherwise the result is the fetch with the detected owner, repository and number, and the spawns are those of the three steps in order |
| Pr.FetchForThreadsGiven | src/hatchkit/pr.py:59-68 | with `--owner`, `--repo` and `--pr` given, the fetch is the only call and uses them as given |
| Pr.Threads | src/hatchkit/pr.py:48-100 | failures print nothing; JSON mode prints the fetched list unchanged; pretty mode renders it |
| Pr.GhCallsStartWithGh | src/hatchkit/gh.py:147-160 | every argv of the `gh` paths starts with `gh` |
| Pr.ThreadsDetectsRepoIff | src/hatchkit/pr.py:59-62 | `git remote` is the first call iff owner or repo is missing |
| Pr.ThreadsQueryTarget | src/hatchkit/pr.py:59-68 | with an explicit PR the query follows detection directly and uses the given non-empty owner and repo |
| Pr.ThreadsLooksUpPr | src/hatchkit/pr.py:64-68 | without `--pr` the PR view runs first and its `number` is the query's `pr` |
| Pr.ThreadsEmptyMessage | src/hatchkit/pr.py:70-73 | in pretty mode an empty list prints only the message, with or without `--all` |
| Pr.Resolve | src/hatchkit/pr.py:103-114 | prints the confirmation or the mutation result exactly when the mutation succeeds; on failure prints nothing and fails with the mutation's own failure |
| Pr.GraphqlValueNotNull | src/hatchkit/pr.py:139-140 | a successful mutation result is never None, so `--resolve` always adds its key |
| Pr.Reply | src/hatchkit/pr.py:117-141 | the reply mutation runs first; the resolve mutation runs only with `--resolve` after a successful reply, on the same id; the command succeeds iff the reply and (with `--resolve`) the resolve succeed, and otherwise ends with the first failure; failures print nothing |
| Pr.ReplyOutputKeys | src/hatchkit/pr.py:137-141 | the JSON output always has `reply` first, and has `resolve` iff `--resolve` |
| Pr.CheckRowOf | src/hatchkit/pr.py:163-174 | a check row has four cells; it exists iff the check is a dict whose `state` and `name` are absent, null or a text and whose `conclusion` and `link` are absent, falsy or a text |
| Pr.CheckRowState | src/hatchkit/pr.py:164-171 | the state cell is blank for a missing or null state and is the state itself for a text |
| Pr.CheckRowName | src/hatchkit/pr.py:170 | a missing name is `–`, a null one blank, a text itself |
| Pr.CheckRowConclusion | src/hatchkit/pr.py:164-168 | a missing or empty conclusion is `–`; any other is a text, coloured by `ConclusionCell` |
| Pr.CheckRowLink | src/hatchkit/pr.py:173 | a missing or empty link is `–`; any other is a text shown as it is |
| Pr.ConclusionCaseInsensitive | src/hatchkit/pr.py:165-168 | an ASCII conclusion that spells SUCCESS in any letter case is wrapped green, one that spells FAILURE red, and every other one is shown unchanged |
| Pr.CheckRows | src/hatchkit/pr.py:162-174 | one row per check in order, or a raise |
| Pr.BuildCheckRows | src/hatchkit/pr.py:162-174 | the `add_row` loop computes exactly those rows |
| Pr.Checks | src/hatchkit/pr.py:144-178 | a failure prints nothing; JSON mode prints the list and succeeds; an empty list prints only "No checks found."; otherwise one table of the check rows, or a crash printing nothing when the list cannot be iterated or a row cannot be built |
| Cli.Parts | src/hatchkit/cli.py:128 | a name's path components are non-empty, not `.` and slash-free |
| Cli.PartsOfPiece | src/hatchkit/cli.py:128 | a slash-free name is one component, or none when it is empty or `.` |
| Cli.PartsOfSplit | src/hatchkit/cli.py:128 | the components of `a/b` are those of `a` followed by those of `b`, so a name's components are its slash-separated pieces in order |
| Cli.Ancestry | src/hatchkit/cli.py:132 | a path's ancestors are exactly its prefixes, itself and the root included: every member is a prefix and every prefix is a member |
| Cli.FileSystem.MakeDirs | src/hatchkit/cli.py:132 | `mkdir(parents=True, exist_ok=True)` succeeds iff no ancestor is a file, and then adds exactly the ancestors; files unchanged |
| Cli.FileSystem.MakeDir | src/hatchkit/cli.py:195 | `mkdir(exist_ok=True)` succeeds iff the directory exists or its parent does and no file is in the way |
| Cli.FileSystem.WriteText | src/hatchkit/cli.py:253 | `write_text` succeeds iff the path is not a directory and its parent is; it sets exactly that file |
| Cli.AgentCommandMdInjective | src/hatchkit/cli.py:261-281 | different agent names give different command texts, so a written command file identifies its agent |
| Cli.AgentConfigOf | src/hatchkit/cli.py:211-245 | an agent's directory is a non-empty path outside `.hatchkit` and `.gitignore` |
| Cli.AgentTable | src/hatchkit/cli.py:211-245 | exactly the six supported agents have a configuration, at the paths of the table |
| Cli.SortedAgentsSorted | src/hatchkit/cli.py:138-142 | the list in the error message is the supported set in strictly increasing order |
| Cli.ForceRule | src/hatchkit/cli.py:250-253 | without `--force` an existing file keeps its content; otherwise it becomes the template; no other file changes |
| Cli.WriteFile | src/hatchkit/cli.py:248-258 | the new state follows the force rule; the write fails exactly when the path is blocked, or on the skip path when it has fewer than three components |
| Cli.WriteAiConfig | src/hatchkit/cli.py:211-245 | an unknown agent changes nothing; a known one creates exactly its directories and writes only its file, whose content follows the force rule; it succeeds iff no file lies along the agent's directory and the file can be written there |
| Cli.NewlineSplits | src/hatchkit/cli.py:207 | a one-line marker cannot straddle the joining newline |
| Cli.MarkedOnce | src/hatchkit/cli.py:186-189 | a block that starts with the marker line holds one marker |
| Cli.AdditionsMarkedOnce | src/hatchkit/cli.py:186-189 | the additions hold the marker exactly once |
| Cli.AppendMarkedOnce | src/hatchkit/cli.py:207 | appending the block to unmarked content gives exactly one marker |
| Cli.PatchMarksOnce | src/hatchkit/cli.py:206-207 | after a patch the marker is present, exactly once if the patch appended |
| Cli.PatchIdempotent | src/hatchkit/cli.py:203-207 | patching twice is patching once |
| Cli.UpdateGitignore | src/hatchkit/cli.py:203-208 | an existing `.gitignore` is patched, an absent one is never created, and nothing else changes |
| Cli.WriteAgentsMd | src/hatchkit/cli.py:194-196 | `.hatchkit` is made and AGENTS.md written under the force rule; succeeds iff `.hatchkit` can be made and the file written; only `.hatchkit` may appear |
| Cli.WriteScaffold | src/hatchkit/cli.py:194-200 | succeeds iff `.hatchkit` can be made, AGENTS.md written and the agent's file written; fails changing nothing when the target is not a directory; creates only `.hatchkit` and the agent's directories; AGENTS.md and the agent file get their texts under the force rule; no other file changes |
| Cli.WriteProjectFiles | src/hatchkit/cli.py:192-208 | as the scaffold step, and an existing `.gitignore` is patched, never created; succeeds iff the scaffold succeeds and `.gitignore` is not a directory |
| Cli.FreshTargetSucceeds | src/hatchkit/cli.py:192-245 | a directory with no file along or below it and no subdirectory accepts the whole scaffold, for every agent and either `--force` |
| Cli.AgentPathsDistinct | src/hatchkit/cli.py:197-245 | the agent file is neither AGENTS.md nor `.gitignore` |
| Cli.Init | src/hatchkit/cli.py:123-146 | succeeds iff the agent is known or absent, a missing target has no file along it, and the project files can then be written; an unknown truthy agent exits 1 with the sorted list after creating a missing target, or crashes when a file blocks it, and writes no file; on success the target and `.hatchkit` are directories, AGENTS.md and the agent file follow the force rule and `.gitignore` is patched; only the project files change, and directories appear only along the target (when it was missing) and the scaffold |
| Cli.InitInEmptyDirectory | tests/test_cli.py:49-106 | `init --here` and `init .` in an empty directory target that directory and succeed, with no agent or any supported one |
| Cli.ToolRow | src/hatchkit/cli.py:82-87 | the row shows the tool and its description, `found` iff the tool is found and `missing` otherwise, and the details or `–` when they are empty |
| Cli.Check | src/hatchkit/cli.py:79-97 | one row per entry of `TOOLS_TO_CHECK` in order, showing the tool, `found` iff found, the details or `–`, and the description; `all_found` iff every tool is found, and the matching closing message |

## Left out

- Process spawning, `shutil.which` and the timeouts are not modelled. They
  are the `Host` parameter of the `gh` layer and the tool-status parameter
  of `check`. Such a parameter is a fixed function, so the model cannot
  express a host whose answers change between two identical calls.
- The version-string extraction of `_tool_status` is not modelled. It is
  munging of foreign output behind a broad `except`, and `check` receives
  its result as a parameter.
- The `version` command is not modelled. It only prints a constant.
- JSON text is not modelled. `json.loads` is the `Host.parse` function,
  and `_json_out`'s `json.dumps(indent=2)` is represented by the emitted
  value (`JsonOut`) rather than by its text.
- Rich rendering is not modelled: colours, column styles, table layout,
  `console.print` and the closing panel of `init`. Rows are modelled as
  their cell texts, given exactly as handed to `add_row`. Markup lines are
  the strings handed to `rprint`.
- The progress lines of `init`, `_write_file` and `_write_ai_config` are
  not modelled: "Created directory", "Wrote: …", "Skipped …", "Wrote
  Claude Code commands …" and "Updated .gitignore". They are display only.
  The `path.relative_to(Path.cwd())` fallback is display only for the same
  reason.
- The template bodies and GraphQL documents are not quoted in the model.
  They are the `Templates` and `Documents` parameters; `Gh.SourceDocuments`
  holds the verbatim documents.
- Typer option parsing and help text are not modelled.
- `Cli.PathJoin`: does not resolve `..` or symbolic links, and treats the
  cwd as an absolute path given as a parameter.
- `Py.CharRepr`: escapes only the non-printable characters up to U+00FF
  (controls, U+007F–U+00A0 and U+00AD). Python's `repr` also escapes the
  non-printable characters above U+00FF, such as U+200B, by its Unicode
  tables, which are not modelled.
- `Pr.ConclusionCaseInsensitive`: is stated for ASCII conclusions only,
  because `upper()` is modelled exactly only on ASCII text.
- Floating-point JSON numbers are not modelled. `Json` has no float case,
  because the core only reads numbers that `gh` reports as integers.
- `Host.parse` is an arbitrary partial function. Nothing stops it from
  producing a dict with a repeated key; the model then reads the first field
  with that key.
- Rich's `MarkupError` is not modelled. Rich raises it for a printed text
  holding a stray closing tag such as `[/x]`, for instance in an error
  message or a thread ID.
- `Py.Upper`: states only that the result is no shorter than its input.
  Exact character mapping is proved only for ASCII input
  (`Py.UpperAscii`), because Unicode case tables are not modelled.
- The filesystem is not modelled beyond files and directories. There are
  no permissions, no symbolic links, and no I/O errors other than a file or
  directory in the way. Each such error is a `Crash` of `init`.
