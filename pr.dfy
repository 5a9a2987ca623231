/**
 * The `hatchkit pr` subcommands (src/hatchkit/pr.py): which GitHub calls
 * each one makes, in which order, and what it shows.
 *
 * What a command shows is a sequence of emissions: a line handed to rich's
 * `print` (markup kept as written), a rich table (its title, its column
 * headings and its cell texts), or a value printed as JSON. A command that
 * stops early keeps what it had already shown.
 */
module Pr {
  import opened Py
  import opened GhRemote
  import opened Gh

  datatype Emission =
    | Markup(text: string)
    | TableOut(title: string, columns: seq<string>, rows: seq<seq<string>>)
    | JsonOut(value: Json)

  /** One command invocation: what it spawned, what it showed, and the
      failure that ended it, if any. */
  datatype Run = Run(spawned: seq<Argv>, emitted: seq<Emission>, failure: Option<Failure>)

  /** `v or fallback` */
  function OrElse(v: Json, fallback: Json): (r: Json)
    ensures Truthy(v) ==> r == v
    ensures !Truthy(v) ==> r == fallback
  {
    if Truthy(v) then v else fallback
  }

  /** The text rich's `Table.add_row` makes of a cell: `None` is blank, a
      string is itself, anything else is refused (NotRenderableError). */
  function Cell(v: Json): (r: Option<string>)
    ensures r.Some? <==> v.JNull? || v.JStr?
    ensures v.JNull? ==> r == Some("")
    ensures v.JStr? ==> r == Some(v.s)
  {
    match v
    case JNull => Some("")
    case JStr(s) => Some(s)
    case _ => None
  }

  // ---------------------------------------------------------------------------
  // info
  // ---------------------------------------------------------------------------

  /** The three lines of `info --pretty`; each is shown before the next
      field is read, so a missing field ends the command after the lines
      before it. */
  function InfoLines(spawned: seq<Argv>, data: Json): (r: Run)
    ensures r.spawned == spawned && |r.emitted| <= 3
    ensures r.failure.None? <==>
      Subscript(data, "number").Some? && Subscript(data, "url").Some? && Subscript(data, "headRefName").Some?
    ensures r.failure.Some? ==> r.failure == Some(Crash)
    ensures r.failure.None? ==> |r.emitted| == 3
    ensures |r.emitted| >= 1 ==> Subscript(data, "number").Some? && r.emitted[0] == Markup("  PR  : [bold cyan]#" + Str(Subscript(data, "number").value) + "[/bold cyan]")
    ensures |r.emitted| >= 2 ==>
      && Subscript(data, "url").Some?
      && var u := Str(Subscript(data, "url").value);
         r.emitted[1] == Markup("  URL : [link=" + u + "]" + u + "[/link]")
    ensures |r.emitted| == 3 ==>
      && Subscript(data, "headRefName").Some?
      && r.emitted[2] == Markup("  Branch: " + Str(Subscript(data, "headRefName").value))
  {
    match Subscript(data, "number")
    case None => Run(spawned, [], Some(Crash))
    case Some(n) =>
      var l1 := Markup("  PR  : [bold cyan]#" + Str(n) + "[/bold cyan]");
      match Subscript(data, "url")
      case None => Run(spawned, [l1], Some(Crash))
      case Some(u) =>
        var l2 := Markup("  URL : [link=" + Str(u) + "]" + Str(u) + "[/link]");
        match Subscript(data, "headRefName")
        case None => Run(spawned, [l1, l2], Some(Crash))
        case Some(b) => Run(spawned, [l1, l2, Markup("  Branch: " + Str(b))], None)
  }

  /** `hatchkit pr info [--pretty]` */
  function Info(h: Host, pretty: bool): (r: Run)
    ensures r.spawned == GetPrInfo(h).spawned
    ensures GetPrInfo(h).result.Err? ==> r.emitted == [] && r.failure == Some(GetPrInfo(h).result.failure)
    ensures GetPrInfo(h).result.Ok? && !pretty ==>
      r.emitted == [JsonOut(GetPrInfo(h).result.value)] && r.failure.None?
    ensures GetPrInfo(h).result.Ok? && pretty ==>
      r == InfoLines(GetPrInfo(h).spawned, GetPrInfo(h).result.value)
  {
    var c := GetPrInfo(h);
    match c.result
    case Err(f) => Run(c.spawned, [], Some(f))
    case Ok(data) => if pretty then InfoLines(c.spawned, data) else Run(c.spawned, [JsonOut(data)], None)
  }

  // ---------------------------------------------------------------------------
  // threads: target detection
  // ---------------------------------------------------------------------------

  /** `given or detected` for an optional text. */
  function Prefer(given: Option<string>, detected: string): (s: string)
    ensures given.Some? && given.value != "" ==> s == given.value
    ensures !(given.Some? && given.value != "") ==> s == detected
  {
    if given.Some? && given.value != "" then given.value else detected
  }

  /** Lines 59-62: the remote is read only when `--owner` or `--repo` is
      missing; a non-empty value given on the command line wins over it. */
  function DetectRepo(h: Host, owner: Option<string>, repo: Option<string>): (c: Call<(string, string)>)
    ensures owner.Some? && repo.Some? ==> c == Call([], Ok((owner.value, repo.value)))
    ensures owner.None? || repo.None? ==> c.spawned == [GitRemoteArgv]
    ensures (owner.None? || repo.None?) ==> (c.result.Ok? <==> GetRepoInfo(h).result.Ok?)
    ensures (owner.None? || repo.None?) && c.result.Ok? ==>
      var detected := GetRepoInfo(h).result.value;
      c.result.value == (Prefer(owner, detected.owner), Prefer(repo, detected.repo))
    ensures c.result.Err? ==> c.result.failure == GetRepoInfo(h).result.failure
  {
    if owner.Some? && repo.Some? then Call([], Ok((owner.value, repo.value)))
    else
      var g := GetRepoInfo(h);
      match g.result
      case Err(f) => Call(g.spawned, Err(f))
      case Ok(ref) => Call(g.spawned, Ok((Prefer(owner, ref.owner), Prefer(repo, ref.repo))))
  }

  /** Lines 64-66: the PR is looked up only when `--pr` is missing, and its
      number is read from what `gh pr view` prints, whatever its type. */
  function DetectPr(h: Host, pr: Option<int>): (c: Call<Json>)
    ensures pr.Some? ==> c == Call([], Ok(JInt(pr.value)))
    ensures pr.None? ==> c.spawned == GetPrInfo(h).spawned
    ensures pr.None? && c.result.Ok? ==>
      GetPrInfo(h).result.Ok? && Subscript(GetPrInfo(h).result.value, "number") == Some(c.result.value)
    ensures pr.None? && GetPrInfo(h).result.Err? ==> c.result == Err(GetPrInfo(h).result.failure)
    ensures pr.None? && GetPrInfo(h).result.Ok? && Subscript(GetPrInfo(h).result.value, "number").None? ==>
      c.result == Err(Crash)
  {
    if pr.Some? then Call([], Ok(JInt(pr.value)))
    else
      var p := GetPrInfo(h);
      match p.result
      case Err(f) => Call(p.spawned, Err(f))
      case Ok(info) =>
        match Subscript(info, "number")
        case None => Call(p.spawned, Err(Crash))
        case Some(n) => Call(p.spawned, Ok(n))
  }

  // ---------------------------------------------------------------------------
  // threads: the table and the id listing
  // ---------------------------------------------------------------------------

  const ResolvedStatus := "[green]Resolved[/green]"
  const OpenStatus := "[yellow]Open[/yellow]"
  const NoThreads := "[green]No unresolved threads.[/green]"
  const IdsHeading := "\n  [dim]Thread IDs (for resolve/reply):[/dim]"
  const ThreadColumns := ["#", "File", "Line", "Status", "Comment"]

  /** Lines 84-86: the first 60 characters of the first comment's body, or
      `""` when the thread has no comment nodes. None where the source
      raises: a thread that is not a dict, comments that are not a dict,
      truthy nodes that are not a list, or a body that is not a text. */
  function FirstComment(t: Json): (r: Option<string>)
    ensures r.Some? ==> |r.value| <= 60
    ensures !t.JObj? ==> r.None?
    ensures t.JObj? && Lookup(t.fields, "comments").None? ==> r == Some("")
  {
    match GetOr(t, "comments", JObj([]))
    case None => None
    case Some(cs) =>
      match GetOr(cs, "nodes", JNull)
      case None => None
      case Some(nodes) =>
        if !Truthy(nodes) then Some("")
        else
          match nodes
          case JArr(items) =>
            (match GetOr(items[0], "body", JStr(""))
             case Some(JStr(b)) => Some(Take(b, 60))
             case _ => None)
          case _ => None
  }

  /** The comment cell, case by case: no comments or no (truthy) nodes
      give a blank, a first node with a text body gives its first 60
      characters, and any other shape raises. */
  lemma FirstCommentCases(t: Json)
    requires t.JObj?
    ensures var cs := Lookup(t.fields, "comments");
      && (cs.Some? && !cs.value.JObj? ==> FirstComment(t).None?)
      && (cs.Some? && cs.value.JObj? ==>
            var nodes := Lookup(cs.value.fields, "nodes");
            && (nodes.None? || !Truthy(nodes.value) ==> FirstComment(t) == Some(""))
            && (nodes.Some? && Truthy(nodes.value) && !nodes.value.JArr? ==> FirstComment(t).None?))
  {
  }

  /** The comment cell of a thread whose first comment node is present. */
  lemma FirstCommentBody(t: Json)
    requires t.JObj? && Lookup(t.fields, "comments").Some?
    requires var cs := Lookup(t.fields, "comments").value;
      cs.JObj? && Lookup(cs.fields, "nodes").Some? && Lookup(cs.fields, "nodes").value.JArr?
      && Lookup(cs.fields, "nodes").value.items != []
    ensures var first := Lookup(Lookup(t.fields, "comments").value.fields, "nodes").value.items[0];
      var body := if first.JObj? then Lookup(first.fields, "body") else None;
      && (!first.JObj? ==> FirstComment(t).None?)
      && (first.JObj? && body.None? ==> FirstComment(t) == Some(""))
      && (body.Some? && body.value.JStr? ==> FirstComment(t) == Some(Take(body.value.s, 60)))
      && (body.Some? && !body.value.JStr? ==> FirstComment(t).None?)
  {
  }

  /** The row `add_row` receives for thread `t` at position `i`; None where
      the source raises. */
  function ThreadRowOf(i: nat, t: Json): (r: Option<seq<string>>)
    ensures r.Some? ==> |r.value| == 5 && r.value[0] == NatToString(i)
    ensures r.Some? ==> t.JObj? && Subscript(t, "isResolved").Some?
    ensures r.Some? <==>
      && t.JObj? && Subscript(t, "isResolved").Some? && FirstComment(t).Some?
      && var path := Lookup(t.fields, "path");
         path.None? || !Truthy(path.value) || path.value.JStr?
  {
    match Subscript(t, "isResolved")
    case None => None
    case Some(flag) =>
      var status := if Truthy(flag) then ResolvedStatus else OpenStatus;
      match FirstComment(t)
      case None => None
      case Some(comment) =>
        match Cell(OrElse(GetOr(t, "path", JNull).value, JStr("–")))
        case None => None
        case Some(path) =>
          var line := Str(OrElse(GetOr(t, "line", JNull).value, JStr("–")));
          Some([NatToString(i), path, line, status, comment])
  }

  /** What the cells of a row mean. */
  lemma ThreadRowCells(i: nat, t: Json)
    requires ThreadRowOf(i, t).Some?
    ensures var row := ThreadRowOf(i, t).value;
      var path := Lookup(t.fields, "path");
      var line := Lookup(t.fields, "line");
      && (path.None? || !Truthy(path.value) ==> row[1] == "–")
      && (path.Some? && Truthy(path.value) ==> path.value.JStr? && row[1] == path.value.s)
      && (line.None? || !Truthy(line.value) ==> row[2] == "–")
      && (line.Some? && Truthy(line.value) ==> row[2] == Str(line.value))
      && (row[3] == ResolvedStatus <==> Truthy(Subscript(t, "isResolved").value))
      && (row[3] == OpenStatus <==> !Truthy(Subscript(t, "isResolved").value))
      && Some(row[4]) == FirstComment(t)
  {
  }

  /** The lines a loop over `items` prints one by one, item `k` giving
      `line(k + 1, items[k])`, and whether it ran to its end: it stops at the
      first item whose line raises, after the lines before it. */
  function LinesUntil(line: (nat, Json) -> Option<string>, items: seq<Json>): (r: (seq<string>, bool))
    ensures |r.0| <= |items|
    ensures r.1 <==> forall k :: 0 <= k < |items| ==> line(k + 1, items[k]).Some?
    ensures r.1 ==> |r.0| == |items|
    ensures !r.1 ==> |r.0| < |items| && line(|r.0| + 1, items[|r.0|]).None?
    ensures forall k :: 0 <= k < |r.0| ==> line(k + 1, items[k]) == Some(r.0[k])
    decreases |items|
  {
    if items == [] then ([], true)
    else
      var init := items[..|items| - 1];
      assert forall k :: 0 <= k < |init| ==> init[k] == items[k];
      var (lines, complete) := LinesUntil(line, init);
      if !complete then (lines, false)
      else
        match line(|items|, items[|items| - 1])
        case None => (lines, false)
        case Some(l) => (lines + [l], true)
  }

  /** One more item: its line is printed if the loop is still running and
      the line does not raise. */
  lemma LinesStep(line: (nat, Json) -> Option<string>, items: seq<Json>, n: nat)
    requires n < |items| && LinesUntil(line, items[..n]).1
    ensures LinesUntil(line, items[..n + 1])
      == if line(n + 1, items[n]).Some?
         then (LinesUntil(line, items[..n]).0 + [line(n + 1, items[n]).value], true)
         else (LinesUntil(line, items[..n]).0, false)
  {
    var p := items[..n + 1];
    assert p[..|p| - 1] == items[..n] && p[|p| - 1] == items[n];
  }

  /** Once the printing stops within a prefix, the rest is never reached. */
  lemma {:induction false} LinesUntilPrefix(line: (nat, Json) -> Option<string>, items: seq<Json>, n: nat)
    requires n <= |items| && !LinesUntil(line, items[..n]).1
    ensures LinesUntil(line, items) == LinesUntil(line, items[..n])
    decreases |items|
  {
    if n == |items| {
      assert items[..n] == items;
    } else {
      var init := items[..|items| - 1];
      assert init[..n] == items[..n];
      LinesUntilPrefix(line, init, n);
    }
  }

  /** The rows of the threads table, numbered from 1 in list order. */
  function ThreadRows(ts: seq<Json>): (rows: Option<seq<seq<string>>>)
    ensures rows.Some? <==> forall k :: 0 <= k < |ts| ==> ThreadRowOf(k + 1, ts[k]).Some?
    ensures rows.Some? ==> |rows.value| == |ts|
    ensures rows.Some? ==> forall k :: 0 <= k < |ts| ==> rows.value[k] == ThreadRowOf(k + 1, ts[k]).value
    ensures rows.Some? ==> forall k :: 0 <= k < |ts| ==> rows.value[k][0] == NatToString(k + 1)
  {
    Collect(ThreadRowOf, ts)
  }

  /** The loop of lines 82-93. */
  method BuildThreadRows(ts: seq<Json>) returns (rows: Option<seq<seq<string>>>)
    ensures rows == ThreadRows(ts)
  {
    var acc: seq<seq<string>> := [];
    var i := 0;
    while i < |ts|
      invariant 0 <= i <= |ts|
      invariant Collect(ThreadRowOf, ts[..i]) == Some(acc)
    {
      var row := ThreadRowOf(i + 1, ts[i]);
      CollectStep(ThreadRowOf, ts, i);
      if row.None? {
        CollectPrefix(ThreadRowOf, ts, i + 1);
        return None;
      }
      acc := acc + [row.value];
      i := i + 1;
    }
    assert ts[..i] == ts;
    return Some(acc);
  }

  /** One line of the id listing, `    {i}. {t['id']}`. */
  function IdLine(i: nat, t: Json): (l: Option<string>)
    ensures l.Some? <==> Subscript(t, "id").Some?
  {
    match Subscript(t, "id")
    case None => None
    case Some(id) => Some("    " + NatToString(i) + ". " + Str(id))
  }

  /** Lines 97-98: the id lines printed and whether the listing ran to its end. */
  function IdLines(ts: seq<Json>): (r: (seq<string>, bool))
    ensures r.1 <==> forall k :: 0 <= k < |ts| ==> Subscript(ts[k], "id").Some?
    ensures !r.1 ==> |r.0| < |ts| && Subscript(ts[|r.0|], "id").None?
    ensures r.1 ==> |r.0| == |ts|
  {
    LinesUntil(IdLine, ts)
  }

  /** The loop of lines 97-98. */
  method PrintIdLines(ts: seq<Json>) returns (lines: seq<string>, complete: bool)
    ensures (lines, complete) == IdLines(ts)
  {
    lines := [];
    var i := 0;
    while i < |ts|
      invariant 0 <= i <= |ts|
      invariant LinesUntil(IdLine, ts[..i]) == (lines, true)
    {
      LinesStep(IdLine, ts, i);
      var l := IdLine(i + 1, ts[i]);
      if l.None? {
        LinesUntilPrefix(IdLine, ts, i + 1);
        return lines, false;
      }
      lines := lines + [l.value];
      i := i + 1;
    }
    assert ts[..i] == ts;
    return lines, true;
  }

  /** Line `k` of the listing carries the number row `k` of the table shows. */
  lemma IdLinesMatchRows(ts: seq<Json>)
    requires ThreadRows(ts).Some?
    ensures var (lines, _) := IdLines(ts);
      forall k :: 0 <= k < |lines| ==>
        lines[k] == "    " + ThreadRows(ts).value[k][0] + ". " + Str(Subscript(ts[k], "id").value)
  {
    var (lines, _) := IdLines(ts);
    forall k | 0 <= k < |lines|
      ensures lines[k] == "    " + ThreadRows(ts).value[k][0] + ". " + Str(Subscript(ts[k], "id").value)
    {
      assert IdLine(k + 1, ts[k]) == Some(lines[k]);
    }
  }

  function Markups(lines: seq<string>): (es: seq<Emission>)
    ensures |es| == |lines| && forall k :: 0 <= k < |lines| ==> es[k] == Markup(lines[k])
  {
    if lines == [] then [] else [Markup(lines[0])] + Markups(lines[1..])
  }

  /** Lines 70-98: an empty result shows only the message; otherwise the
      table, the heading, and the id lines. */
  function ThreadsPretty(spawned: seq<Argv>, threads: Json): (r: Run)
    ensures r.spawned == spawned
    ensures !Truthy(threads) ==> r == Run(spawned, [Markup(NoThreads)], None)
    ensures Truthy(threads) && (Iterate(threads).None? || ThreadRows(Iterate(threads).value).None?) ==>
      r == Run(spawned, [], Some(Crash))
    ensures Truthy(threads) && Iterate(threads).Some? && ThreadRows(Iterate(threads).value).Some? ==>
      var ts := Iterate(threads).value;
      && r.emitted == [TableOut("Review Threads", ThreadColumns, ThreadRows(ts).value), Markup(IdsHeading)]
                      + Markups(IdLines(ts).0)
      && (r.failure.None? <==> forall k :: 0 <= k < |ts| ==> Subscript(ts[k], "id").Some?)
      && (r.failure.Some? ==> r.failure == Some(Crash))
  {
    if !Truthy(threads) then Run(spawned, [Markup(NoThreads)], None)
    else
      match Iterate(threads)
      case None => Run(spawned, [], Some(Crash))
      case Some(ts) =>
        match ThreadRows(ts)
        case None => Run(spawned, [], Some(Crash))
        case Some(rows) =>
          var (lines, complete) := IdLines(ts);
          Run(spawned, [TableOut("Review Threads", ThreadColumns, rows), Markup(IdsHeading)] + Markups(lines),
              if complete then None else Some(Crash))
  }

  /** Lines 59-68: detect what is missing, then fetch the threads. */
  function FetchForThreads(h: Host, docs: Documents, owner: Option<string>, repo: Option<string>, pr: Option<int>, all: bool): (c: Call<Json>)
    ensures var dr := DetectRepo(h, owner, repo);
      dr.result.Err? ==> c == Call(dr.spawned, Err(dr.result.failure))
    ensures var dr := DetectRepo(h, owner, repo);
      var p := DetectPr(h, pr);
      dr.result.Ok? ==>
        && (p.result.Err? ==> c == Call(dr.spawned + p.spawned, Err(p.result.failure)))
        && (p.result.Ok? ==>
              var f := FetchReviewThreads(h, docs, dr.result.value.0, dr.result.value.1, p.result.value, all);
              c == Call(dr.spawned + p.spawned + f.spawned, f.result))
  {
    var dr := DetectRepo(h, owner, repo);
    match dr.result
    case Err(f) => Call(dr.spawned, Err(f))
    case Ok((o, rp)) =>
      var p := DetectPr(h, pr);
      match p.result
      case Err(f) => Call(dr.spawned + p.spawned, Err(f))
      case Ok(n) =>
        var c := FetchReviewThreads(h, docs, o, rp, n, all);
        Call(dr.spawned + p.spawned + c.spawned, c.result)
  }

  /** With `--owner`, `--repo` and `--pr` all given nothing is detected:
      the fetch is the only call, with the values as given. */
  lemma FetchForThreadsGiven(h: Host, docs: Documents, owner: string, repo: string, pr: int, all: bool)
    ensures FetchForThreads(h, docs, Some(owner), Some(repo), Some(pr), all)
      == FetchReviewThreads(h, docs, owner, repo, JInt(pr), all)
  {
    assert [] + [] + FetchReviewThreads(h, docs, owner, repo, JInt(pr), all).spawned
      == FetchReviewThreads(h, docs, owner, repo, JInt(pr), all).spawned;
  }

  /** `hatchkit pr threads [--owner O] [--repo R] [--pr N] [--all] [--pretty]` */
  function Threads(h: Host, docs: Documents, owner: Option<string>, repo: Option<string>, pr: Option<int>, all: bool, pretty: bool): (r: Run)
    ensures r.spawned == FetchForThreads(h, docs, owner, repo, pr, all).spawned
    ensures FetchForThreads(h, docs, owner, repo, pr, all).result.Err? ==>
      r.emitted == [] && r.failure == Some(FetchForThreads(h, docs, owner, repo, pr, all).result.failure)
    ensures FetchForThreads(h, docs, owner, repo, pr, all).result.Ok? && !pretty ==>
      r.emitted == [JsonOut(FetchForThreads(h, docs, owner, repo, pr, all).result.value)] && r.failure.None?
    ensures FetchForThreads(h, docs, owner, repo, pr, all).result.Ok? && pretty ==>
      r == ThreadsPretty(r.spawned, FetchForThreads(h, docs, owner, repo, pr, all).result.value)
  {
    var c := FetchForThreads(h, docs, owner, repo, pr, all);
    match c.result
    case Err(f) => Run(c.spawned, [], Some(f))
    case Ok(threads) => if pretty then ThreadsPretty(c.spawned, threads) else Run(c.spawned, [JsonOut(threads)], None)
  }

  /** Every argument vector a gh-layer call spawns starts with `gh`. */
  lemma GhCallsStartWithGh(h: Host, docs: Documents, owner: string, repo: string, n: Json, all: bool)
    ensures forall a :: a in GetPrInfo(h).spawned ==> a != [] && a[0] == "gh"
    ensures forall a :: a in FetchReviewThreads(h, docs, owner, repo, n, all).spawned ==> a != [] && a[0] == "gh"
  {
  }

  /** The remote is read, as the first spawned command, exactly when
      `--owner` or `--repo` is missing. */
  lemma ThreadsDetectsRepoIff(h: Host, docs: Documents, owner: Option<string>, repo: Option<string>, pr: Option<int>, all: bool, pretty: bool)
    ensures var r := Threads(h, docs, owner, repo, pr, all, pretty);
      (owner.None? || repo.None?) <==> (r.spawned != [] && r.spawned[0] == GitRemoteArgv)
  {
    var spawned := FetchForThreads(h, docs, owner, repo, pr, all).spawned;
    if owner.Some? && repo.Some? && spawned != [] {
      var p := DetectPr(h, pr);
      GhCallsStartWithGh(h, docs, owner.value, repo.value, if p.result.Ok? then p.result.value else JNull, all);
      if p.spawned != [] {
        assert spawned[0] == p.spawned[0];
        assert p.spawned[0] in GetPrInfo(h).spawned;
      } else {
        var c := FetchReviewThreads(h, docs, owner.value, repo.value, p.result.value, all);
        assert spawned == c.spawned;
        assert spawned[0] in c.spawned;
      }
    }
  }

  /** With `--pr N` no PR lookup is spawned and the query carries `-F pr=N`;
      the owner and repository sent are the given ones when non-empty, the
      detected ones otherwise. */
  lemma ThreadsQueryTarget(h: Host, docs: Documents, owner: Option<string>, repo: Option<string>, n: int, all: bool, pretty: bool)
    requires h.ghOnPath && DetectRepo(h, owner, repo).result.Ok?
    ensures var (o, rp) := DetectRepo(h, owner, repo).result.value;
      && Threads(h, docs, owner, repo, Some(n), all, pretty).spawned
           == DetectRepo(h, owner, repo).spawned + [GraphqlArgv(docs.threads, ThreadsVars(o, rp, JInt(n)))]
      && (owner.Some? && owner.value != "" ==> o == owner.value)
      && (repo.Some? && repo.value != "" ==> rp == repo.value)
  {
    assert DetectRepo(h, owner, repo).spawned + [] == DetectRepo(h, owner, repo).spawned;
  }

  /** Without `--pr` the PR is looked up with `gh pr view` before the query,
      which carries the number exactly as that printed it. */
  lemma ThreadsLooksUpPr(h: Host, docs: Documents, o: string, rp: string, all: bool, pretty: bool)
    requires h.ghOnPath
    ensures var info := GetPrInfo(h).result;
      var spawned := Threads(h, docs, Some(o), Some(rp), None, all, pretty).spawned;
      && spawned[0] == ["gh"] + PrViewArgs
      && (info.Ok? && Subscript(info.value, "number").Some? ==>
            spawned == [["gh"] + PrViewArgs, GraphqlArgv(docs.threads, ThreadsVars(o, rp, Subscript(info.value, "number").value))])
  {
    var dr := DetectRepo(h, Some(o), Some(rp));
    var p := DetectPr(h, None);
    assert dr == Call([], Ok((o, rp)));
    assert p.spawned == [["gh"] + PrViewArgs];
    var info := GetPrInfo(h).result;
    if info.Ok? && Subscript(info.value, "number").Some? {
      var f := FetchReviewThreads(h, docs, o, rp, Subscript(info.value, "number").value, all);
      assert p.result == Ok(Subscript(info.value, "number").value);
      assert FetchForThreads(h, docs, Some(o), Some(rp), None, all).spawned == [] + p.spawned + f.spawned;
    }
  }

  /** In pretty mode an empty result shows the same single message with or
      without `--all`. */
  lemma ThreadsEmptyMessage(h: Host, docs: Documents, owner: Option<string>, repo: Option<string>, pr: Option<int>, all: bool)
    requires var c := FetchForThreads(h, docs, owner, repo, pr, all); c.result.Ok? && !Truthy(c.result.value)
    ensures Threads(h, docs, owner, repo, pr, all, true).emitted == [Markup(NoThreads)]
    ensures Threads(h, docs, owner, repo, pr, all, true).failure.None?
  {
  }

  // ---------------------------------------------------------------------------
  // resolve, reply
  // ---------------------------------------------------------------------------

  function ResolveArgv(docs: Documents, threadId: string): Argv {
    GraphqlHead(docs.resolve) + ["-f", "threadId=" + threadId]
  }

  function ReplyArgv(docs: Documents, threadId: string, body: string): Argv {
    GraphqlHead(docs.reply) + ["-f", "threadId=" + threadId, "-f", "body=" + body]
  }

  /** `hatchkit pr resolve THREAD_ID [--pretty]` */
  function Resolve(h: Host, docs: Documents, threadId: string, pretty: bool): (r: Run)
    ensures r.spawned == if h.ghOnPath then [ResolveArgv(docs, threadId)] else []
    ensures r.failure.None? <==> ResolveThread(h, docs, threadId).result.Ok?
    ensures r.failure.None? && pretty ==> r.emitted == [Markup("[green]Resolved thread[/green] " + threadId)]
    ensures r.failure.None? && !pretty ==> r.emitted == [JsonOut(ResolveThread(h, docs, threadId).result.value)]
    ensures r.failure.Some? ==> r.emitted == []
    ensures r.failure.Some? ==> r.failure == Some(ResolveThread(h, docs, threadId).result.failure)
  {
    var c := ResolveThread(h, docs, threadId);
    match c.result
    case Err(f) => Run(c.spawned, [], Some(f))
    case Ok(v) =>
      if pretty then Run(c.spawned, [Markup("[green]Resolved thread[/green] " + threadId)], None)
      else Run(c.spawned, [JsonOut(v)], None)
  }

  /** A successful GraphQL call never yields JSON `null`, so `resolve_result
      is not None` holds exactly when the resolve call was made. */
  lemma GraphqlValueNotNull(h: Host, query: string, vars: seq<(string, Json)>)
    requires RunGraphql(h, query, vars).result.Ok?
    ensures RunGraphql(h, query, vars).result.value != JNull
  {
  }

  /** `hatchkit pr reply THREAD_ID BODY [--resolve] [--pretty]`: the reply
      first, then, with `--resolve`, the resolve mutation on the same id.
      The JSON output holds `reply`, and `resolve` when the resolve result
      is not `None`. A failing call ends the command before anything is shown. */
  function Reply(h: Host, docs: Documents, threadId: string, body: string, resolve: bool, pretty: bool): (r: Run)
    ensures !h.ghOnPath ==> r == Run([], [], Some(Exit(1, GhMissing)))
    ensures h.ghOnPath ==>
      r.spawned == [ReplyArgv(docs, threadId, body)]
                   + (if resolve && ReplyToThread(h, docs, threadId, body).result.Ok? then [ResolveArgv(docs, threadId)] else [])
    ensures r.failure.Some? ==> r.emitted == []
    ensures r.failure.None? <==>
      ReplyToThread(h, docs, threadId, body).result.Ok? && (resolve ==> ResolveThread(h, docs, threadId).result.Ok?)
    ensures ReplyToThread(h, docs, threadId, body).result.Err? ==>
      r.failure == Some(ReplyToThread(h, docs, threadId, body).result.failure)
    ensures ReplyToThread(h, docs, threadId, body).result.Ok? && resolve && ResolveThread(h, docs, threadId).result.Err? ==>
      r.failure == Some(ResolveThread(h, docs, threadId).result.failure)
    ensures r.failure.None? && pretty ==>
      r.emitted == [Markup("[green]Replied to thread[/green] " + threadId)]
                   + (if resolve then [Markup("[green]Resolved thread[/green] " + threadId)] else [])
  {
    var c1 := ReplyToThread(h, docs, threadId, body);
    match c1.result
    case Err(f) => Run(c1.spawned, [], Some(f))
    case Ok(v1) =>
      var c2 := if resolve then ResolveThread(h, docs, threadId) else Call([], Ok(JNull));
      match c2.result
      case Err(f) => Run(c1.spawned + c2.spawned, [], Some(f))
      case Ok(v2) =>
        if pretty then
          Run(c1.spawned + c2.spawned,
              [Markup("[green]Replied to thread[/green] " + threadId)]
              + (if resolve then [Markup("[green]Resolved thread[/green] " + threadId)] else []),
              None)
        else
          var output := [("reply", v1)] + (if v2 != JNull then [("resolve", v2)] else []);
          Run(c1.spawned + c2.spawned, [JsonOut(JObj(output))], None)
  }

  /** The JSON output of `reply`: `reply` always, `resolve` exactly with `--resolve`. */
  lemma ReplyOutputKeys(h: Host, docs: Documents, threadId: string, body: string, resolve: bool)
    requires Reply(h, docs, threadId, body, resolve, false).failure.None?
    ensures var r := Reply(h, docs, threadId, body, resolve, false);
      && |r.emitted| == 1 && r.emitted[0].JsonOut? && r.emitted[0].value.JObj?
      && var fields := r.emitted[0].value.fields;
         && fields[0] == ("reply", ReplyToThread(h, docs, threadId, body).result.value)
         && (resolve ==> fields == [fields[0], ("resolve", ResolveThread(h, docs, threadId).result.value)])
         && (!resolve ==> fields == [fields[0]])
  {
    if resolve {
      GraphqlValueNotNull(h, docs.resolve, [("threadId", JStr(threadId))]);
    }
  }

  // ---------------------------------------------------------------------------
  // checks
  // ---------------------------------------------------------------------------

  const CheckColumns := ["Name", "State", "Conclusion", "Link"]

  /** Lines 165-168: SUCCESS wraps green and FAILURE red, compared after
      `upper()`; anything else is shown as it is. */
  function ConclusionCell(s: string): (r: string)
    ensures Upper(s) == "SUCCESS" ==> r == "[green]" + s + "[/green]"
    ensures Upper(s) == "FAILURE" ==> r == "[red]" + s + "[/red]"
    ensures Upper(s) != "SUCCESS" && Upper(s) != "FAILURE" ==> r == s
  {
    if Upper(s) == "SUCCESS" then "[green]" + s + "[/green]"
    else if Upper(s) == "FAILURE" then "[red]" + s + "[/red]"
    else s
  }

  /** The row `add_row` receives for check `c`; None where the source
      raises: a check that is not a dict, a truthy conclusion that is not a
      text, or a cell rich cannot render. */
  function CheckRowOf(c: Json): (r: Option<seq<string>>)
    ensures r.Some? ==> c.JObj? && |r.value| == 4
    ensures r.Some? <==>
      && c.JObj?
      && var state, name := Lookup(c.fields, "state"), Lookup(c.fields, "name");
         var conclusion, link := Lookup(c.fields, "conclusion"), Lookup(c.fields, "link");
         && (state.None? || state.value.JNull? || state.value.JStr?)
         && (name.None? || name.value.JNull? || name.value.JStr?)
         && (conclusion.None? || !Truthy(conclusion.value) || conclusion.value.JStr?)
         && (link.None? || !Truthy(link.value) || link.value.JStr?)
  {
    match GetOr(c, "state", JStr(""))
    case None => None
    case Some(state) =>
      match OrElse(GetOr(c, "conclusion", JStr("")).value, JStr("–"))
      case JStr(conclusion) =>
        (match (Cell(GetOr(c, "name", JStr("–")).value), Cell(state), Cell(OrElse(GetOr(c, "link", JStr("")).value, JStr("–"))))
         case (Some(name), Some(st), Some(link)) => Some([name, st, ConclusionCell(conclusion), link])
         case _ => None)
      case _ => None
  }

  /** The name cell: a missing name shows as a dash, a null one as blank. */
  lemma CheckRowName(c: Json)
    requires CheckRowOf(c).Some?
    ensures var name := Lookup(c.fields, "name");
      && (name.None? ==> CheckRowOf(c).value[0] == "–")
      && (name == Some(JNull) ==> CheckRowOf(c).value[0] == "")
      && (name.Some? && name.value.JStr? ==> CheckRowOf(c).value[0] == name.value.s)
  {
  }

  /** The state cell: a missing or null state is blank, a text is itself. */
  lemma CheckRowState(c: Json)
    requires CheckRowOf(c).Some?
    ensures var state := Lookup(c.fields, "state");
      && (state.None? || state == Some(JNull) ==> CheckRowOf(c).value[1] == "")
      && (state.Some? && state.value.JStr? ==> CheckRowOf(c).value[1] == state.value.s)
  {
  }

  /** The conclusion cell: a missing or empty conclusion shows as a dash,
      any other is a text and goes through the colouring. */
  lemma CheckRowConclusion(c: Json)
    requires CheckRowOf(c).Some?
    ensures var conclusion := Lookup(c.fields, "conclusion");
      && (conclusion.None? || !Truthy(conclusion.value) ==> CheckRowOf(c).value[2] == "–")
      && (conclusion.Some? && Truthy(conclusion.value) ==>
            conclusion.value.JStr? && CheckRowOf(c).value[2] == ConclusionCell(conclusion.value.s))
  {
  }

  /** The link cell: a missing or empty link shows as a dash, any other is
      a text shown as it is. */
  lemma CheckRowLink(c: Json)
    requires CheckRowOf(c).Some?
    ensures var link := Lookup(c.fields, "link");
      && (link.None? || !Truthy(link.value) ==> CheckRowOf(c).value[3] == "–")
      && (link.Some? && Truthy(link.value) ==> link.value.JStr? && CheckRowOf(c).value[3] == link.value.s)
  {
  }

  /** An ASCII conclusion is classified letter by letter, whatever its
      letter case: green when it spells "SUCCESS", red when it spells
      "FAILURE", and shown as it is otherwise. */
  lemma ConclusionCaseInsensitive(s: string)
    requires forall i :: 0 <= i < |s| ==> s[i] as int < 128
    ensures SameUpperAscii(s, "SUCCESS") ==> ConclusionCell(s) == "[green]" + s + "[/green]"
    ensures SameUpperAscii(s, "FAILURE") ==> ConclusionCell(s) == "[red]" + s + "[/red]"
    ensures !SameUpperAscii(s, "SUCCESS") && !SameUpperAscii(s, "FAILURE") ==> ConclusionCell(s) == s
  {
    UpperEquals(s, "SUCCESS");
    UpperEquals(s, "FAILURE");
  }

  /** A check's row does not depend on its position. */
  function CheckRowAt(k: nat, c: Json): Option<seq<string>> {
    CheckRowOf(c)
  }

  /** The rows of the checks table, one per check in list order. */
  function CheckRows(cs: seq<Json>): (rows: Option<seq<seq<string>>>)
    ensures rows.Some? <==> forall k :: 0 <= k < |cs| ==> CheckRowOf(cs[k]).Some?
    ensures rows.Some? ==> |rows.value| == |cs|
    ensures rows.Some? ==> forall k :: 0 <= k < |cs| ==> rows.value[k] == CheckRowOf(cs[k]).value
  {
    Collect(CheckRowAt, cs)
  }

  /** The loop of lines 162-174. */
  method BuildCheckRows(cs: seq<Json>) returns (rows: Option<seq<seq<string>>>)
    ensures rows == CheckRows(cs)
  {
    var acc: seq<seq<string>> := [];
    var i := 0;
    while i < |cs|
      invariant 0 <= i <= |cs|
      invariant Collect(CheckRowAt, cs[..i]) == Some(acc)
    {
      var row := CheckRowOf(cs[i]);
      CollectStep(CheckRowAt, cs, i);
      if row.None? {
        CollectPrefix(CheckRowAt, cs, i + 1);
        return None;
      }
      acc := acc + [row.value];
      i := i + 1;
    }
    assert cs[..i] == cs;
    return Some(acc);
  }

  const NoChecks := "[dim]No checks found.[/dim]"

  /** `hatchkit pr checks [--pretty]` */
  function Checks(h: Host, pretty: bool): (r: Run)
    ensures r.spawned == GetPrChecks(h).spawned
    ensures GetPrChecks(h).result.Err? ==> r == Run(r.spawned, [], Some(GetPrChecks(h).result.failure))
    ensures GetPrChecks(h).result.Ok? && !pretty ==> r.emitted == [JsonOut(GetPrChecks(h).result.value)] && r.failure.None?
    ensures GetPrChecks(h).result.Ok? && pretty && !Truthy(GetPrChecks(h).result.value) ==>
      r == Run(r.spawned, [Markup(NoChecks)], None)
    ensures pretty && r.failure.None? && GetPrChecks(h).result.Ok? && Truthy(GetPrChecks(h).result.value) ==>
      var cs := Iterate(GetPrChecks(h).result.value);
      cs.Some? && CheckRows(cs.value).Some? && r.emitted == [TableOut("PR Checks", CheckColumns, CheckRows(cs.value).value)]
    ensures GetPrChecks(h).result.Ok? && pretty && Truthy(GetPrChecks(h).result.value) ==>
      var cs := Iterate(GetPrChecks(h).result.value);
      r == if cs.Some? && CheckRows(cs.value).Some?
           then Run(r.spawned, [TableOut("PR Checks", CheckColumns, CheckRows(cs.value).value)], None)
           else Run(r.spawned, [], Some(Crash))
  {
    var c := GetPrChecks(h);
    match c.result
    case Err(f) => Run(c.spawned, [], Some(f))
    case Ok(list) =>
      if !pretty then Run(c.spawned, [JsonOut(list)], None)
      else if !Truthy(list) then Run(c.spawned, [Markup(NoChecks)], None)
      else
        match Iterate(list)
        case None => Run(c.spawned, [], Some(Crash))
        case Some(cs) =>
          match CheckRows(cs)
          case None => Run(c.spawned, [], Some(Crash))
          case Some(rows) => Run(c.spawned, [TableOut("PR Checks", CheckColumns, rows)], None)
  }
}
