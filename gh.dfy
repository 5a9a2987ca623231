/**
 * The GitHub CLI layer (src/hatchkit/gh.py): running a command, the `gh`
 * gate, the GraphQL argument vector, the `errors` check, the review-thread
 * query and its filter.
 *
 * The outside world is a `Host`: whether `gh` is on PATH, what running an
 * argument vector produces, and what `json.loads` makes of a text. Every
 * call returns the argument vectors it spawned, in order, with its result.
 */
module Gh {
  import opened Py
  import opened GhRemote

  type Argv = seq<string>

  /** What `subprocess.run(args, capture_output=True, text=True, timeout=30)` does. */
  datatype ProcOutcome =
    | NotFound                                        // FileNotFoundError: no such executable
    | SpawnError                                      // any other error raised by `run`, such as the timeout
    | Exited(code: int, stdout: string, stderr: string)

  datatype Host = Host(
    ghOnPath: bool,                  // `shutil.which("gh") is not None`
    run: Argv -> ProcOutcome,
    parse: string -> Option<Json>)   // `json.loads`; None when it raises

  /** The argument vectors a call spawned, in order, and how it ended. */
  datatype Call<T> = Call(spawned: seq<Argv>, result: Result<T>)

  const GhMissing := "[red]Error:[/red] 'gh' CLI not found. Install it from https://cli.github.com/"

  function CommandNotFound(exe: string): string {
    "[red]Error:[/red] Command not found: " + exe
  }

  function ExitCodeMessage(code: int): (m: string)
    ensures m != ""
  {
    "Command failed with exit code " + IntToString(code)
  }

  // ---------------------------------------------------------------------------
  // Running commands
  // ---------------------------------------------------------------------------

  /** `_run_command(args)`: the process runs once; a zero status yields its
      standard output unchanged, any other status a `GhError` carrying the
      stripped standard error or, when that is blank, the status; a missing
      executable exits with status 1. */
  function RunCommand(h: Host, args: Argv): (c: Call<string>)
    requires args != []
    ensures c.spawned == [args]
    ensures c.result.Ok? <==> h.run(args).Exited? && h.run(args).code == 0
    ensures c.result.Ok? ==> c.result.value == h.run(args).stdout
    ensures h.run(args).NotFound? ==> c.result == Err(Exit(1, CommandNotFound(args[0])))
    ensures h.run(args).SpawnError? ==> c.result == Err(Crash)
    ensures h.run(args).Exited? && h.run(args).code != 0 ==>
      && c.result.Err? && c.result.failure.GhError? && c.result.failure.message != ""
      && (Strip(h.run(args).stderr) != "" ==> c.result.failure.message == Strip(h.run(args).stderr))
      && (Strip(h.run(args).stderr) == "" ==> c.result.failure.message == ExitCodeMessage(h.run(args).code))
  {
    match h.run(args)
    case NotFound => Call([args], Err(Exit(1, CommandNotFound(args[0]))))
    case SpawnError => Call([args], Err(Crash))
    case Exited(code, out, err) =>
      if code != 0 then
        var e := Strip(err);
        Call([args], Err(GhError(if e != "" then e else ExitCodeMessage(code))))
      else Call([args], Ok(out))
  }

  /** `require_gh()`, then `_run_command(["gh", *args])`: with no `gh` on
      PATH nothing is spawned and the command exits with status 1. */
  function RunGh(h: Host, args: Argv): (c: Call<string>)
    ensures !h.ghOnPath ==> c == Call([], Err(Exit(1, GhMissing)))
    ensures h.ghOnPath ==> c == RunCommand(h, ["gh"] + args)
    ensures forall i :: 0 <= i < |c.spawned| ==> c.spawned[i] != [] && c.spawned[i][0] == "gh"
  {
    if !h.ghOnPath then Call([], Err(Exit(1, GhMissing)))
    else RunCommand(h, ["gh"] + args)
  }

  /** `json.loads` on the output of a call that succeeded; a text it
      refuses raises JSONDecodeError. */
  function Parsed(h: Host, c: Call<string>): (d: Call<Json>)
    ensures d.spawned == c.spawned
    ensures d.result.Ok? <==> c.result.Ok? && h.parse(c.result.value).Some?
    ensures c.result.Err? ==> d.result == Err(c.result.failure)
  {
    match c.result
    case Err(f) => Call(c.spawned, Err(f))
    case Ok(out) =>
      match h.parse(out)
      case None => Call(c.spawned, Err(Crash))
      case Some(v) => Call(c.spawned, Ok(v))
  }

  // ---------------------------------------------------------------------------
  // GraphQL
  // ---------------------------------------------------------------------------

  /** `-F` (typed) for an int value, which in Python includes a bool, and `-f` (string) otherwise. */
  function Flag(v: Json): (f: string)
    ensures f == "-F" <==> v.JInt? || v.JBool?
    ensures f == "-f" <==> !(v.JInt? || v.JBool?)
  {
    if v.JInt? || v.JBool? then "-F" else "-f"
  }

  /** The two arguments one variable contributes: `cmd.extend([flag, f"{key}={value}"])`. */
  function VarPair(key: string, value: Json): Argv {
    [Flag(value), key + "=" + Str(value)]
  }

  /** The arguments the variables contribute, in insertion order. */
  function VarArgs(vars: seq<(string, Json)>): Argv
    decreases |vars|
  {
    if vars == [] then []
    else VarArgs(vars[..|vars| - 1]) + VarPair(vars[|vars| - 1].0, vars[|vars| - 1].1)
  }

  /** One more variable appends its pair. */
  lemma VarArgsStep(vars: seq<(string, Json)>, n: nat)
    requires n < |vars|
    ensures VarArgs(vars[..n + 1]) == VarArgs(vars[..n]) + VarPair(vars[n].0, vars[n].1)
  {
    var p := vars[..n + 1];
    assert p[..|p| - 1] == vars[..n] && p[|p| - 1] == vars[n];
  }

  function GraphqlHead(query: string): Argv {
    ["gh", "api", "graphql", "-f", "query=" + query]
  }

  /** The argument vector `_run_graphql` hands to `_run_command`. */
  function GraphqlArgv(query: string, vars: seq<(string, Json)>): Argv {
    GraphqlHead(query) + VarArgs(vars)
  }

  /** Variable `i` contributes exactly arguments `2i` and `2i + 1`. */
  lemma {:induction false} VarArgsShape(vars: seq<(string, Json)>)
    ensures |VarArgs(vars)| == 2 * |vars|
    ensures forall i :: 0 <= i < |vars| ==>
      VarArgs(vars)[2 * i] == Flag(vars[i].1) && VarArgs(vars)[2 * i + 1] == vars[i].0 + "=" + Str(vars[i].1)
    decreases |vars|
  {
    if vars != [] {
      var init := vars[..|vars| - 1];
      VarArgsShape(init);
      var a, p := VarArgs(init), VarPair(vars[|vars| - 1].0, vars[|vars| - 1].1);
      var v := VarArgs(vars);
      assert v == a + p && |a| == 2 * |init|;
      forall i | 0 <= i < |vars|
        ensures v[2 * i] == Flag(vars[i].1)
        ensures v[2 * i + 1] == vars[i].0 + "=" + Str(vars[i].1)
      {
        if i < |init| {
          assert init[i] == vars[i];
          assert 2 * i + 1 < |a|;
          assert v[2 * i] == a[2 * i] && v[2 * i + 1] == a[2 * i + 1];
        } else {
          assert i == |init| && 2 * i == |a|;
          assert v[2 * i] == p[0] && v[2 * i + 1] == p[1];
        }
      }
    }
  }

  /** The whole vector: the five fixed arguments, then two per variable in
      order, `-F` exactly for int and bool values. */
  lemma GraphqlArgvShape(query: string, vars: seq<(string, Json)>)
    ensures var argv := GraphqlArgv(query, vars);
      && |argv| == 5 + 2 * |vars|
      && argv[..5] == ["gh", "api", "graphql", "-f", "query=" + query]
      && forall i :: 0 <= i < |vars| ==>
           && argv[5 + 2 * i] == (if vars[i].1.JInt? || vars[i].1.JBool? then "-F" else "-f")
           && argv[6 + 2 * i] == vars[i].0 + "=" + Str(vars[i].1)
  {
    VarArgsShape(vars);
    var argv := GraphqlArgv(query, vars);
    assert forall i :: 0 <= i < |vars| ==> argv[5 + 2 * i] == VarArgs(vars)[2 * i];
    assert forall i :: 0 <= i < |vars| ==> argv[6 + 2 * i] == VarArgs(vars)[2 * i + 1];
  }

  /** The loop of `_run_graphql` that builds `cmd`. */
  method BuildGraphqlArgv(query: string, vars: seq<(string, Json)>) returns (cmd: Argv)
    ensures cmd == GraphqlArgv(query, vars)
  {
    cmd := ["gh", "api", "graphql", "-f", "query=" + query];
    var i := 0;
    while i < |vars|
      invariant 0 <= i <= |vars|
      invariant cmd == GraphqlHead(query) + VarArgs(vars[..i])
    {
      var (key, value) := vars[i];
      if value.JInt? || value.JBool? {
        cmd := cmd + ["-F", key + "=" + Str(value)];
      } else {
        cmd := cmd + ["-f", key + "=" + Str(value)];
      }
      VarArgsStep(vars, i);
      i := i + 1;
    }
    assert vars[..i] == vars;
  }

  /** `e.get("message", str(e))` when it yields a text; None when `e` is not
      a dict (AttributeError) or the message is not a text (the join raises TypeError). */
  function ErrorMessage(e: Json): (m: Option<string>)
    ensures !e.JObj? ==> m.None?
    ensures e.JObj? && Lookup(e.fields, "message").None? ==> m == Some(Repr(e))
    ensures e.JObj? && Lookup(e.fields, "message").Some? ==>
      (m.Some? <==> Lookup(e.fields, "message").value.JStr?)
    ensures m.Some? && Lookup(e.fields, "message").Some? ==> Lookup(e.fields, "message").value == JStr(m.value)
  {
    match GetOr(e, "message", JStr(Str(e)))
    case Some(JStr(s)) => Some(s)
    case _ => None
  }

  function ErrorMessageAt(k: nat, e: Json): Option<string> {
    ErrorMessage(e)
  }

  /** The list comprehension `msgs`: one message per error, in order. */
  function ErrorMessages(errors: seq<Json>): (ms: Option<seq<string>>)
    ensures ms.Some? <==> forall i :: 0 <= i < |errors| ==> ErrorMessage(errors[i]).Some?
    ensures ms.Some? ==> |ms.value| == |errors|
    ensures ms.Some? ==> forall i :: 0 <= i < |errors| ==> ErrorMessage(errors[i]) == Some(ms.value[i])
  {
    assert forall i :: 0 <= i < |errors| ==> ErrorMessageAt(i + 1, errors[i]) == ErrorMessage(errors[i]);
    Collect(ErrorMessageAt, errors)
  }

  function GraphqlErrorText(msgs: seq<string>): string {
    "[red]GraphQL error:[/red] " + Join(msgs, "; ")
  }

  /** The `"errors" in data` check of `_run_graphql`. */
  function GraphqlErrors(data: Json): (r: Result<Json>)
    ensures r.Ok? ==> r.value == data && Contains(data, "errors") == Some(false)
    ensures data.JObj? ==> (r.Ok? <==> Lookup(data.fields, "errors").None?)
    ensures r.Err? ==> r.failure == Crash || r.failure.Exit?
    ensures r.Err? && r.failure.Exit? ==> r.failure.code == 1
  {
    match Contains(data, "errors")
    case None => Err(Crash)
    case Some(false) => Ok(data)
    case Some(true) =>
      match Subscript(data, "errors")
      case None => Err(Crash)
      case Some(errs) =>
        match Iterate(errs)
        case None => Err(Crash)
        case Some(es) =>
          match ErrorMessages(es)
          case None => Err(Crash)
          case Some(msgs) => Err(Exit(1, GraphqlErrorText(msgs)))
  }

  /** A list of errors is reported as its messages joined by `"; "`, each
      error's `message` or, without one, the error printed as a dict; this
      holds whatever else the response carries, `data` included. */
  lemma GraphqlErrorsReported(fields: seq<(string, Json)>, errors: seq<Json>)
    requires Lookup(fields, "errors") == Some(JArr(errors))
    requires forall i :: 0 <= i < |errors| ==>
      errors[i].JObj? && (Lookup(errors[i].fields, "message").None? || Lookup(errors[i].fields, "message").value.JStr?)
    ensures ErrorMessages(errors).Some?
    ensures var ms := ErrorMessages(errors).value;
      && GraphqlErrors(JObj(fields)) == Err(Exit(1, GraphqlErrorText(ms)))
      && forall i :: 0 <= i < |errors| ==>
           ms[i] == (if Lookup(errors[i].fields, "message").Some?
                     then Lookup(errors[i].fields, "message").value.s else Repr(errors[i]))
  {
  }

  /** An empty `errors` list still ends the command. */
  lemma EmptyErrorsFatal(fields: seq<(string, Json)>)
    requires Lookup(fields, "errors") == Some(JArr([]))
    ensures GraphqlErrors(JObj(fields)) == Err(Exit(1, "[red]GraphQL error:[/red] "))
  {
  }

  /** `_run_graphql(query, variables)`. */
  function RunGraphql(h: Host, query: string, vars: seq<(string, Json)>): (c: Call<Json>)
    ensures !h.ghOnPath ==> c == Call([], Err(Exit(1, GhMissing)))
    ensures h.ghOnPath ==> c.spawned == [GraphqlArgv(query, vars)]
    ensures c.result.Ok? ==>
      && h.run(GraphqlArgv(query, vars)).Exited?
      && h.run(GraphqlArgv(query, vars)).code == 0
      && h.parse(h.run(GraphqlArgv(query, vars)).stdout) == Some(c.result.value)
      && Contains(c.result.value, "errors") == Some(false)
    ensures var argv := GraphqlArgv(query, vars);
      h.ghOnPath && !(h.run(argv).Exited? && h.run(argv).code == 0) ==>
        c.result == Err(RunCommand(h, argv).result.failure)
    ensures var argv := GraphqlArgv(query, vars);
      h.ghOnPath && h.run(argv).Exited? && h.run(argv).code == 0 ==>
        && (h.parse(h.run(argv).stdout).None? ==> c.result == Err(Crash))
        && (h.parse(h.run(argv).stdout).Some? ==> c.result == GraphqlErrors(h.parse(h.run(argv).stdout).value))
  {
    if !h.ghOnPath then Call([], Err(Exit(1, GhMissing)))
    else
      var p := Parsed(h, RunCommand(h, GraphqlArgv(query, vars)));
      match p.result
      case Err(f) => p
      case Ok(data) => Call(p.spawned, GraphqlErrors(data))
  }

  /** A clean response without an `errors` key is returned as parsed,
      after exactly one spawn. */
  lemma RunGraphqlReturnsData(h: Host, query: string, vars: seq<(string, Json)>, fields: seq<(string, Json)>)
    requires h.ghOnPath
    requires var argv := GraphqlArgv(query, vars);
      && h.run(argv).Exited? && h.run(argv).code == 0 && h.parse(h.run(argv).stdout) == Some(JObj(fields))
    requires Lookup(fields, "errors").None?
    ensures RunGraphql(h, query, vars) == Call([GraphqlArgv(query, vars)], Ok(JObj(fields)))
  {
  }

  // ---------------------------------------------------------------------------
  // Review threads
  // ---------------------------------------------------------------------------

  const ThreadsQuery := @"
    query($owner: String!, $repo: String!, $pr: Int!) {
      repository(owner: $owner, name: $repo) {
        pullRequest(number: $pr) {
          reviewThreads(first: 100) {
            nodes {
              id
              isResolved
              path
              line
              comments(first: 10) {
                nodes {
                  author { login }
                  body
                  createdAt
                }
              }
            }
          }
        }
      }
    }"

  const ResolveMutation := @"
    mutation($threadId: ID!) {
      resolveReviewThread(input: { threadId: $threadId }) {
        thread { id isResolved }
      }
    }"

  const ReplyMutation := @"
    mutation($threadId: ID!, $body: String!) {
      addPullRequestReviewThreadReply(input: {
        pullRequestReviewThreadId: $threadId
        body: $body
      }) {
        comment { id body }
      }
    }"

  /** The GraphQL documents the review-thread calls send. The calls take
      them as a parameter; `SourceDocuments` holds the texts above. */
  datatype Documents = Documents(threads: string, resolve: string, reply: string)

  const SourceDocuments := Documents(ThreadsQuery, ResolveMutation, ReplyMutation)

  /** `{"owner": owner, "repo": repo, "pr": pr}` */
  function ThreadsVars(owner: string, repo: string, pr: Json): seq<(string, Json)> {
    [("owner", JStr(owner)), ("repo", JStr(repo)), ("pr", pr)]
  }

  /** With an int PR number the vector ends `-f owner=O -f repo=R -F pr=N`. */
  lemma ThreadsArgv(docs: Documents, owner: string, repo: string, pr: int)
    ensures GraphqlArgv(docs.threads, ThreadsVars(owner, repo, JInt(pr)))[5..]
      == ["-f", "owner=" + owner, "-f", "repo=" + repo, "-F", "pr=" + IntToString(pr)]
  {
    var vars := ThreadsVars(owner, repo, JInt(pr));
    GraphqlArgvShape(docs.threads, vars);
    var argv := GraphqlArgv(docs.threads, vars);
    assert vars[0] == ("owner", JStr(owner)) && vars[1] == ("repo", JStr(repo)) && vars[2] == ("pr", JInt(pr));
    assert argv[5] == "-f" && argv[6] == "owner=" + owner;
    assert argv[7] == "-f" && argv[8] == "repo=" + repo;
    assert argv[9] == "-F" && argv[10] == "pr=" + IntToString(pr);
  }

  /** `v[k0][k1]...`; None on the first KeyError or TypeError. */
  function SubscriptPath(v: Json, keys: seq<string>): Option<Json>
    decreases |keys|
  {
    if keys == [] then Some(v)
    else
      match Subscript(v, keys[0])
      case None => None
      case Some(w) => SubscriptPath(w, keys[1..])
  }

  const NodesPath := ["data", "repository", "pullRequest", "reviewThreads", "nodes"]

  /** The thread carries an `isResolved` entry that `t["isResolved"]` can read. */
  predicate HasResolvedFlag(t: Json) {
    Subscript(t, "isResolved").Some?
  }

  /** `not t["isResolved"]` */
  predicate IsOpen(t: Json) {
    HasResolvedFlag(t) && !Truthy(Subscript(t, "isResolved").value)
  }

  /** `[t for t in threads if not t["isResolved"]]`; None when some thread
      has no readable `isResolved`. */
  function UnresolvedOnly(threads: seq<Json>): (r: Option<seq<Json>>)
    ensures r.Some? <==> forall i :: 0 <= i < |threads| ==> HasResolvedFlag(threads[i])
  {
    if threads == [] then Some([])
    else
      var t := threads[0];
      assert forall i :: 1 <= i < |threads| ==> threads[i] == threads[1..][i - 1];
      match UnresolvedOnly(threads[1..])
      case None => None
      case Some(rest) =>
        if !HasResolvedFlag(t) then None
        else Some(if IsOpen(t) then [t] + rest else rest)
  }

  /** The filter keeps exactly the open threads: every thread it keeps is
      open and came from the input, and every open input thread is kept. */
  lemma {:induction false} UnresolvedOnlyKeepsOpen(threads: seq<Json>)
    requires UnresolvedOnly(threads).Some?
    ensures var r := UnresolvedOnly(threads).value;
      && |r| <= |threads|
      && (forall t :: t in r ==> t in threads && IsOpen(t))
      && (forall i :: 0 <= i < |threads| && IsOpen(threads[i]) ==> threads[i] in r)
    decreases |threads|
  {
    if threads != [] {
      assert forall i :: 1 <= i < |threads| ==> threads[i] == threads[1..][i - 1];
      UnresolvedOnlyKeepsOpen(threads[1..]);
    }
  }

  /** One thread in front: it is kept when open, and a thread without a
      readable flag makes the filter raise. */
  lemma UnresolvedOnlyCons(t: Json, rest: seq<Json>)
    ensures UnresolvedOnly([t] + rest)
      == if !HasResolvedFlag(t) || UnresolvedOnly(rest).None? then None
         else Some((if IsOpen(t) then [t] else []) + UnresolvedOnly(rest).value)
  {
    var s := [t] + rest;
    assert s[0] == t && s[1..] == rest;
    if UnresolvedOnly(rest).Some? {
      assert [] + UnresolvedOnly(rest).value == UnresolvedOnly(rest).value;
    }
  }

  /** The filter distributes over concatenation, so with its action on one
      thread it keeps exactly the open threads, in their original order. */
  lemma {:induction false} UnresolvedOnlyAppend(a: seq<Json>, b: seq<Json>)
    ensures UnresolvedOnly(a + b).Some? <==> UnresolvedOnly(a).Some? && UnresolvedOnly(b).Some?
    ensures UnresolvedOnly(a + b).Some? ==>
      UnresolvedOnly(a + b).value == UnresolvedOnly(a).value + UnresolvedOnly(b).value
    decreases |a|
  {
    if a == [] {
      assert a + b == b;
    } else {
      var t, m := a[0], a[1..];
      assert a == [t] + m;
      assert a + b == [t] + (m + b);
      UnresolvedOnlyCons(t, m);
      UnresolvedOnlyCons(t, m + b);
      UnresolvedOnlyAppend(m, b);
      var r1, rb := UnresolvedOnly(m), UnresolvedOnly(b);
      if HasResolvedFlag(t) && r1.Some? && rb.Some? {
        var k: seq<Json> := if IsOpen(t) then [t] else [];
        assert UnresolvedOnly(m + b) == Some(r1.value + rb.value);
        assert UnresolvedOnly(a) == Some(k + r1.value);
        assert UnresolvedOnly(a + b) == Some(k + (r1.value + rb.value));
        assert (k + r1.value) + rb.value == k + (r1.value + rb.value);
      }
    }
  }

  /** One thread: it stays when open, goes when resolved. */
  lemma UnresolvedOnlySingle(t: Json)
    requires HasResolvedFlag(t)
    ensures UnresolvedOnly([t]) == Some(if IsOpen(t) then [t] else [])
  {
    assert [t][1..] == [] && [t] + [] == [t];
    assert UnresolvedOnly([]) == Some([]);
  }

  /** A list of open threads passes unchanged. */
  lemma {:induction false} UnresolvedOnlyAllOpen(threads: seq<Json>)
    requires forall i :: 0 <= i < |threads| ==> IsOpen(threads[i])
    ensures UnresolvedOnly(threads) == Some(threads)
    decreases |threads|
  {
    if threads != [] {
      assert forall i :: 1 <= i < |threads| ==> threads[1..][i - 1] == threads[i];
      UnresolvedOnlyAllOpen(threads[1..]);
      assert [threads[0]] + threads[1..] == threads;
    }
  }

  /** Filtering twice is filtering once. */
  lemma UnresolvedOnlyIdempotent(threads: seq<Json>)
    requires UnresolvedOnly(threads).Some?
    ensures UnresolvedOnly(UnresolvedOnly(threads).value) == UnresolvedOnly(threads)
  {
    var r := UnresolvedOnly(threads).value;
    UnresolvedOnlyKeepsOpen(threads);
    assert forall i :: 0 <= i < |r| ==> r[i] in r;
    UnresolvedOnlyAllOpen(r);
  }

  /** `if not all_threads: threads = [...]`: with `--all` the nodes pass as
      they are, whatever they are; otherwise they are iterated and filtered. */
  function FilterThreads(nodes: Json, all: bool): (r: Result<Json>)
    ensures all ==> r == Ok(nodes)
    ensures !all && r.Ok? ==> r.value.JArr? && forall t :: t in r.value.items ==> IsOpen(t)
    ensures !all && nodes.JArr? ==> (r.Ok? <==> forall i :: 0 <= i < |nodes.items| ==> HasResolvedFlag(nodes.items[i]))
    ensures !all && nodes.JArr? && r.Ok? ==>
      forall i :: 0 <= i < |nodes.items| && IsOpen(nodes.items[i]) ==> nodes.items[i] in r.value.items
    ensures !all && nodes.JArr? && r.Ok? ==> forall t :: t in r.value.items ==> t in nodes.items
    ensures r.Err? ==> r.failure == Crash
  {
    if all then Ok(nodes)
    else
      match Iterate(nodes)
      case None => Err(Crash)
      case Some(ts) =>
        match UnresolvedOnly(ts)
        case None => Err(Crash)
        case Some(open) => UnresolvedOnlyKeepsOpen(ts); Ok(JArr(open))
  }

  /** `fetch_review_threads(owner, repo, pr, all_threads=all)`. */
  function FetchReviewThreads(h: Host, docs: Documents, owner: string, repo: string, pr: Json, all: bool): (c: Call<Json>)
    ensures c.spawned == if h.ghOnPath then [GraphqlArgv(docs.threads, ThreadsVars(owner, repo, pr))] else []
    ensures c.result.Ok? ==> RunGraphql(h, docs.threads, ThreadsVars(owner, repo, pr)).result.Ok?
    ensures c.result.Ok? ==> SubscriptPath(RunGraphql(h, docs.threads, ThreadsVars(owner, repo, pr)).result.value, NodesPath).Some?
    ensures c.result.Ok? && all ==>
      c.result.value == SubscriptPath(RunGraphql(h, docs.threads, ThreadsVars(owner, repo, pr)).result.value, NodesPath).value
    ensures c.result.Ok? && !all ==> c.result.value.JArr? && forall t :: t in c.result.value.items ==> IsOpen(t)
    ensures var g := RunGraphql(h, docs.threads, ThreadsVars(owner, repo, pr)).result;
      && (g.Err? ==> c.result == Err(g.failure))
      && (g.Ok? && SubscriptPath(g.value, NodesPath).None? ==> c.result == Err(Crash))
      && (g.Ok? && SubscriptPath(g.value, NodesPath).Some? ==>
            c.result == FilterThreads(SubscriptPath(g.value, NodesPath).value, all))
  {
    var g := RunGraphql(h, docs.threads, ThreadsVars(owner, repo, pr));
    match g.result
    case Err(f) => Call(g.spawned, Err(f))
    case Ok(data) =>
      match SubscriptPath(data, NodesPath)
      case None => Call(g.spawned, Err(Crash))
      case Some(nodes) => Call(g.spawned, FilterThreads(nodes, all))
  }

  /** With the same responses, the default fetch returns exactly the open
      threads of the full listing: each one it returns is open and listed,
      and each open listed thread is returned. */
  lemma FetchReviewThreadsOpenOfAll(h: Host, docs: Documents, owner: string, repo: string, pr: Json)
    requires FetchReviewThreads(h, docs, owner, repo, pr, false).result.Ok?
    ensures var every := FetchReviewThreads(h, docs, owner, repo, pr, true).result;
      var open := FetchReviewThreads(h, docs, owner, repo, pr, false).result.value;
      && every.Ok? && open.JArr?
      && (every.value.JArr? ==>
            && (forall t :: t in open.items ==> t in every.value.items && IsOpen(t))
            && (forall i :: 0 <= i < |every.value.items| && IsOpen(every.value.items[i]) ==>
                  every.value.items[i] in open.items))
  {
  }

  /** `resolve_thread(thread_id)`: one mutation, the id passed as a string variable. */
  function ResolveThread(h: Host, docs: Documents, threadId: string): (c: Call<Json>)
    ensures h.ghOnPath ==> c.spawned == [GraphqlHead(docs.resolve) + ["-f", "threadId=" + threadId]]
    ensures !h.ghOnPath ==> c == Call([], Err(Exit(1, GhMissing)))
    ensures c.result.Ok? ==> Contains(c.result.value, "errors") == Some(false)
    ensures var argv := GraphqlHead(docs.resolve) + ["-f", "threadId=" + threadId];
      && (h.ghOnPath && !(h.run(argv).Exited? && h.run(argv).code == 0) ==>
            c.result == Err(RunCommand(h, argv).result.failure))
      && (h.ghOnPath && h.run(argv).Exited? && h.run(argv).code == 0 ==>
            && (h.parse(h.run(argv).stdout).None? ==> c.result == Err(Crash))
            && (h.parse(h.run(argv).stdout).Some? ==> c.result == GraphqlErrors(h.parse(h.run(argv).stdout).value)))
  {
    var vars := [("threadId", JStr(threadId))];
    assert vars[..0] == [] && VarArgs([]) == [];
    assert "threadId" + "=" == "threadId=";
    assert VarPair("threadId", JStr(threadId)) == ["-f", "threadId=" + threadId];
    assert VarArgs(vars) == [] + VarPair("threadId", JStr(threadId));
    assert GraphqlArgv(docs.resolve, vars) == GraphqlHead(docs.resolve) + ["-f", "threadId=" + threadId];
    RunGraphql(h, docs.resolve, vars)
  }

  /** `reply_to_thread(thread_id, body)`: one mutation with both as string variables. */
  function ReplyToThread(h: Host, docs: Documents, threadId: string, body: string): (c: Call<Json>)
    ensures h.ghOnPath ==>
      c.spawned == [GraphqlHead(docs.reply) + ["-f", "threadId=" + threadId, "-f", "body=" + body]]
    ensures !h.ghOnPath ==> c == Call([], Err(Exit(1, GhMissing)))
    ensures c.result.Ok? ==> Contains(c.result.value, "errors") == Some(false)
    ensures var argv := GraphqlHead(docs.reply) + ["-f", "threadId=" + threadId, "-f", "body=" + body];
      && (h.ghOnPath && !(h.run(argv).Exited? && h.run(argv).code == 0) ==>
            c.result == Err(RunCommand(h, argv).result.failure))
      && (h.ghOnPath && h.run(argv).Exited? && h.run(argv).code == 0 ==>
            && (h.parse(h.run(argv).stdout).None? ==> c.result == Err(Crash))
            && (h.parse(h.run(argv).stdout).Some? ==> c.result == GraphqlErrors(h.parse(h.run(argv).stdout).value)))
  {
    var vars := [("threadId", JStr(threadId)), ("body", JStr(body))];
    assert vars[..1] == [("threadId", JStr(threadId))] && vars[..1][..0] == [] && VarArgs([]) == [];
    assert "threadId" + "=" == "threadId=" && "body" + "=" == "body=";
    assert VarPair("threadId", JStr(threadId)) == ["-f", "threadId=" + threadId];
    assert VarPair("body", JStr(body)) == ["-f", "body=" + body];
    assert VarArgs(vars[..1]) == [] + VarPair("threadId", JStr(threadId));
    assert VarArgs(vars) == VarArgs(vars[..1]) + VarPair("body", JStr(body));
    assert GraphqlArgv(docs.reply, vars)
      == GraphqlHead(docs.reply) + ["-f", "threadId=" + threadId, "-f", "body=" + body];
    RunGraphql(h, docs.reply, vars)
  }

  const PrViewArgs := ["pr", "view", "--json", "number,url,headRefName"]
  const PrChecksArgs := ["pr", "checks", "--json", "name,state,conclusion,link"]
  const GitRemoteArgv := ["git", "remote", "get-url", "origin"]

  /** `get_pr_info()`: `gh pr view` and the JSON it prints. */
  function GetPrInfo(h: Host): (c: Call<Json>)
    ensures c.spawned == if h.ghOnPath then [["gh"] + PrViewArgs] else []
    ensures c.result.Ok? <==>
      && h.ghOnPath && h.run(["gh"] + PrViewArgs).Exited? && h.run(["gh"] + PrViewArgs).code == 0
      && h.parse(h.run(["gh"] + PrViewArgs).stdout).Some?
    ensures c.result.Ok? ==> Some(c.result.value) == h.parse(h.run(["gh"] + PrViewArgs).stdout)
    ensures !h.ghOnPath ==> c == Call([], Err(Exit(1, GhMissing)))
    ensures var argv := ["gh"] + PrViewArgs;
      && (h.ghOnPath && !(h.run(argv).Exited? && h.run(argv).code == 0) ==>
            c.result == Err(RunCommand(h, argv).result.failure))
      && (h.ghOnPath && h.run(argv).Exited? && h.run(argv).code == 0 && h.parse(h.run(argv).stdout).None? ==>
            c.result == Err(Crash))
  {
    Parsed(h, RunGh(h, PrViewArgs))
  }

  /** `get_pr_checks()`: `gh pr checks` and the JSON it prints. */
  function GetPrChecks(h: Host): (c: Call<Json>)
    ensures c.spawned == if h.ghOnPath then [["gh"] + PrChecksArgs] else []
    ensures c.result.Ok? <==>
      && h.ghOnPath && h.run(["gh"] + PrChecksArgs).Exited? && h.run(["gh"] + PrChecksArgs).code == 0
      && h.parse(h.run(["gh"] + PrChecksArgs).stdout).Some?
    ensures c.result.Ok? ==> Some(c.result.value) == h.parse(h.run(["gh"] + PrChecksArgs).stdout)
    ensures !h.ghOnPath ==> c == Call([], Err(Exit(1, GhMissing)))
    ensures var argv := ["gh"] + PrChecksArgs;
      && (h.ghOnPath && !(h.run(argv).Exited? && h.run(argv).code == 0) ==>
            c.result == Err(RunCommand(h, argv).result.failure))
      && (h.ghOnPath && h.run(argv).Exited? && h.run(argv).code == 0 && h.parse(h.run(argv).stdout).None? ==>
            c.result == Err(Crash))
  {
    Parsed(h, RunGh(h, PrChecksArgs))
  }

  /** `get_repo_info()`: `git remote get-url origin`, which needs no `gh`,
      and the pair read from what it prints. */
  function GetRepoInfo(h: Host): (c: Call<RemoteRef>)
    ensures c.spawned == [GitRemoteArgv]
    ensures c.result.Ok? <==>
      && h.run(GitRemoteArgv).Exited? && h.run(GitRemoteArgv).code == 0
      && ParseRemote(h.run(GitRemoteArgv).stdout).Ok?
    ensures c.result.Ok? ==> IsRemoteForm(Strip(h.run(GitRemoteArgv).stdout), c.result.value)
    ensures c.result.Ok? ==> IsSegment(c.result.value.owner) && IsSegment(c.result.value.repo)
    ensures !(h.run(GitRemoteArgv).Exited? && h.run(GitRemoteArgv).code == 0) ==>
      c.result == Err(RunCommand(h, GitRemoteArgv).result.failure)
    ensures h.run(GitRemoteArgv).Exited? && h.run(GitRemoteArgv).code == 0 ==>
      c.result == ParseRemote(h.run(GitRemoteArgv).stdout)
  {
    var r := RunCommand(h, GitRemoteArgv);
    match r.result
    case Err(f) => Call(r.spawned, Err(f))
    case Ok(out) =>
      ParseRemoteSound(out);
      Call(r.spawned, ParseRemote(out))
  }

  /** An `origin` printed with or without `.git` and a trailing newline
      names the same repository, over HTTPS and over SSH alike. */
  lemma GetRepoInfoDropsGit(h: Host, owner: string, repo: string, suffix: string, ssh: bool, err: string)
    requires IsSegment(owner) && IsPlainRepo(repo) && !IsSpace(repo[|repo| - 1])
    requires suffix == ".git\n" || suffix == "\n"
    requires h.run(GitRemoteArgv) == Exited(0, (if ssh then SshPrefix else HttpsPrefix) + owner + "/" + repo + suffix, err)
    ensures GetRepoInfo(h) == Call([GitRemoteArgv], Ok(RemoteRef(owner, repo)))
  {
    var prefix := if ssh then SshPrefix else HttpsPrefix;
    assert forall i :: 0 <= i < |"\n"| ==> IsSpace("\n"[i]);
    if suffix == ".git\n" {
      assert prefix + owner + "/" + repo + suffix == prefix + owner + "/" + repo + ".git" + "\n";
    }
    if ssh {
      SshRemote(owner, repo, "\n");
    } else {
      HttpsRemote(owner, repo, "\n");
    }
  }
}
