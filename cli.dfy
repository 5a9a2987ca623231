/**
 * The top-level commands (src/hatchkit/cli.py): `check`, which reports the
 * tools found on the system, and `init`, which scaffolds a project.
 *
 * The filesystem is a `FileSystem` object: a map from paths to file
 * contents and a set of directories, a path being its list of components
 * from the root. `init` and its helpers change it step by step, as the
 * source does through `mkdir` and `write_text`.
 */
module Cli {
  import opened Py

  type Path = seq<string>

  // ---------------------------------------------------------------------------
  // Paths
  // ---------------------------------------------------------------------------

  /** The components pathlib keeps of a relative name: the texts between
      slashes, without empty ones and without `.`. */
  function Parts(name: string): (ps: seq<string>)
    ensures forall i :: 0 <= i < |ps| ==> ps[i] != "" && ps[i] != "." && '/' !in ps[i]
    decreases |name|
  {
    var k := SlashIndex(name);
    var head := name[..k];
    assert forall i :: 0 <= i < |head| ==> head[i] == name[i];
    var rest := if k < |name| then Parts(name[k + 1..]) else [];
    (if head == "" || head == "." then [] else [head]) + rest
  }

  /** A name without a slash is one component, unless it is empty or `.`. */
  lemma PartsOfPiece(name: string)
    requires '/' !in name
    ensures Parts(name) == if name == "" || name == "." then [] else [name]
  {
    var k := SlashIndex(name);
    assert k == |name|;
    assert name[..k] == name;
  }

  /** A name splits at its first slash: the components before it come
      first, in order, then those after it. */
  lemma PartsOfSplit(a: string, b: string)
    requires '/' !in a
    ensures Parts(a + "/" + b) == Parts(a) + Parts(b)
  {
    var name := a + "/" + b;
    var k := SlashIndex(name);
    assert name[|a|] == '/';
    assert k == |a|;
    assert name[..k] == a && name[k + 1..] == b;
    PartsOfPiece(a);
  }

  /** `base / name`: an absolute name replaces the base. */
  function PathJoin(base: Path, name: string): (p: Path)
    ensures name != "" && name[0] == '/' ==> p == Parts(name)
    ensures !(name != "" && name[0] == '/') ==> p == base + Parts(name)
  {
    if name != "" && name[0] == '/' then Parts(name) else base + Parts(name)
  }

  /** The parent of a non-root path. */
  function Parent(p: Path): Path
    requires p != []
  {
    p[..|p| - 1]
  }

  /** The directories `mkdir(parents=True)` needs for `p`: `p` and every
      ancestor. */
  function Ancestry(p: Path): (s: set<Path>)
    ensures p in s && [] in s
    ensures forall q :: q in s ==> |q| <= |p| && q == p[..|q|]
    ensures forall j :: 0 <= j <= |p| ==> p[..j] in s
  {
    assert p[..|p|] == p && p[..0] == [];
    set j | 0 <= j <= |p| :: p[..j]
  }

  // ---------------------------------------------------------------------------
  // The filesystem
  // ---------------------------------------------------------------------------

  class FileSystem {
    var files: map<Path, string>
    var dirs: set<Path>

    /** The root is a directory, every other directory and every file sits
        in a directory, and nothing is both a file and a directory. */
    ghost predicate Valid()
      reads this
    {
      && [] in dirs
      && (forall d :: d in dirs && d != [] ==> Parent(d) in dirs)
      && (forall p :: p in files ==> p != [] && Parent(p) in dirs && p !in dirs)
    }

    constructor ()
      ensures Valid() && files == map[] && dirs == {[]}
    {
      files := map[];
      dirs := {[]};
    }

    /** `p.exists()` */
    predicate Exists(p: Path)
      reads this
    {
      p in files || p in dirs
    }

    /** `p.mkdir(parents=True, exist_ok=True)`: fails, changing nothing,
        when `p` or an ancestor is a file; otherwise every missing
        directory on the way is created. */
    method MakeDirs(p: Path) returns (ok: bool)
      requires Valid()
      modifies this
      ensures Valid()
      ensures ok <==> forall q :: q in Ancestry(p) ==> q !in old(files)
      ensures files == old(files)
      ensures dirs == if ok then old(dirs) + Ancestry(p) else old(dirs)
    {
      if exists q :: q in Ancestry(p) && q in files {
        ok := false;
      } else {
        forall d | d in Ancestry(p) && d != []
          ensures Parent(d) in Ancestry(p)
        {
          assert Parent(d) == p[..|d| - 1];
        }
        dirs := dirs + Ancestry(p);
        ok := true;
      }
    }

    /** `p.mkdir(exist_ok=True)`: an existing directory is kept; a file in
        the way or a missing parent directory fails. */
    method MakeDir(p: Path) returns (ok: bool)
      requires Valid() && p != []
      modifies this
      ensures Valid()
      ensures ok <==> p in old(dirs) || (p !in old(files) && Parent(p) in old(dirs))
      ensures files == old(files)
      ensures dirs == if ok then old(dirs) + {p} else old(dirs)
    {
      if p in dirs {
        ok := true;
      } else if p in files || Parent(p) !in dirs {
        ok := false;
      } else {
        dirs := dirs + {p};
        ok := true;
      }
    }

    /** `p.write_text(content)`: fails on a directory or when the parent
        directory is missing. */
    method WriteText(p: Path, content: string) returns (ok: bool)
      requires Valid() && p != []
      modifies this
      ensures Valid()
      ensures ok <==> p !in old(dirs) && Parent(p) in old(dirs)
      ensures dirs == old(dirs)
      ensures files == if ok then old(files)[p := content] else old(files)
    {
      if p in dirs || Parent(p) !in dirs {
        ok := false;
      } else {
        files := files[p := content];
        ok := true;
      }
    }
  }

  // ---------------------------------------------------------------------------
  // Templates and the agent table
  // ---------------------------------------------------------------------------

  /** The constant texts the project files receive: `_AGENTS_MD_TEMPLATE`,
      the text of `_agent_command_md` around the agent's name, and
      `_copilot_instructions_md()`. */
  datatype Templates = Templates(agentsMd: string, commandHead: string, commandTail: string, copilotMd: string)

  /** `_agent_command_md(agent_name)` */
  function AgentCommandMd(t: Templates, agentName: string): string {
    t.commandHead + agentName + t.commandTail
  }

  /** Different agents get different command files: the agent's name is
      spliced into the file it receives, so the written file tells which
      `--ai` value produced it. */
  lemma AgentCommandMdInjective(t: Templates, a: string, b: string)
    requires AgentCommandMd(t, a) == AgentCommandMd(t, b)
    ensures a == b
  {
    var n := |t.commandHead|;
    var x, y := AgentCommandMd(t, a), AgentCommandMd(t, b);
    assert |a| == |b|;
    assert a == x[n..n + |a|];
    assert b == y[n..n + |b|];
  }

  const SupportedAgents := {"claude", "copilot", "cursor", "gemini", "codex", "generic"}

  /** What `_write_ai_config` writes for an agent: the directory to create
      under the target, the file in it, and the agent's name in the text. */
  datatype AgentConfig = AgentConfig(dir: seq<string>, file: string, text: AgentText)

  /** The file's text: the command file naming the agent, or the Copilot
      instructions. */
  datatype AgentText = CommandFor(agentName: string) | CopilotInstructions

  function TextOf(t: Templates, k: AgentText): string {
    match k
    case CommandFor(name) => AgentCommandMd(t, name)
    case CopilotInstructions => t.copilotMd
  }

  /** The branches of `_write_ai_config`; None for a name it ignores. */
  function AgentConfigOf(ai: string): (c: Option<AgentConfig>)
    ensures c.Some? ==> c.value.dir != [] && c.value.dir[0] != ".hatchkit" && c.value.dir[0] != ".gitignore"
  {
    if ai == "claude" then Some(AgentConfig([".claude", "commands"], "hatchkit.md", CommandFor("Claude Code")))
    else if ai == "copilot" then Some(AgentConfig([".github"], "copilot-instructions.md", CopilotInstructions))
    else if ai == "cursor" then Some(AgentConfig([".cursor", "rules"], "hatchkit.mdc", CommandFor("Cursor")))
    else if ai == "gemini" then Some(AgentConfig([".gemini"], "GEMINI.md", CommandFor("Gemini CLI")))
    else if ai == "codex" then Some(AgentConfig([".ai", "commands"], "hatchkit.md", CommandFor("Codex")))
    else if ai == "generic" then Some(AgentConfig([".ai", "commands"], "hatchkit.md", CommandFor("Generic")))
    else None
  }

  /** The text of the agent's file. */
  function AgentFileText(t: Templates, ai: string): string {
    match AgentConfigOf(ai)
    case None => ""
    case Some(c) => TextOf(t, c.text)
  }

  /** The path of the agent file relative to the project. */
  function AgentFile(ai: string): Option<seq<string>> {
    match AgentConfigOf(ai)
    case None => None
    case Some(c) => Some(c.dir + [c.file])
  }

  /** The table and the set `init` validates against name the same agents,
      and they map to these files. */
  lemma AgentTable(ai: string)
    ensures AgentConfigOf(ai).Some? <==> ai in SupportedAgents
    ensures ai == "claude" ==> AgentFile(ai) == Some([".claude", "commands", "hatchkit.md"])
    ensures ai == "copilot" ==> AgentFile(ai) == Some([".github", "copilot-instructions.md"])
    ensures ai == "cursor" ==> AgentFile(ai) == Some([".cursor", "rules", "hatchkit.mdc"])
    ensures ai == "gemini" ==> AgentFile(ai) == Some([".gemini", "GEMINI.md"])
    ensures ai in {"codex", "generic"} ==> AgentFile(ai) == Some([".ai", "commands", "hatchkit.md"])
  {
    assert [".claude", "commands"] + ["hatchkit.md"] == [".claude", "commands", "hatchkit.md"];
    assert [".github"] + ["copilot-instructions.md"] == [".github", "copilot-instructions.md"];
    assert [".cursor", "rules"] + ["hatchkit.mdc"] == [".cursor", "rules", "hatchkit.mdc"];
    assert [".gemini"] + ["GEMINI.md"] == [".gemini", "GEMINI.md"];
    assert [".ai", "commands"] + ["hatchkit.md"] == [".ai", "commands", "hatchkit.md"];
  }

  /** The error `init` prints for an agent outside the table: the supported
      names in sorted order. */
  function UnknownAgentMessage(ai: string): string {
    "[red]Unknown AI agent:[/red] '" + ai + "'. Supported: " + Join(SortedAgents, ", ")
  }

  const SortedAgents := ["claude", "codex", "copilot", "cursor", "gemini", "generic"]

  /** Strict lexicographic order on texts, as Python compares strings. */
  predicate LexLess(a: string, b: string)
    decreases |a|
  {
    b != [] && (a == [] || a[0] < b[0] || (a[0] == b[0] && LexLess(a[1..], b[1..])))
  }

  /** The message lists exactly the supported agents, in `sorted` order. */
  lemma SortedAgentsSorted()
    ensures (set i | 0 <= i < |SortedAgents| :: SortedAgents[i]) == SupportedAgents
    ensures forall i :: 0 <= i < |SortedAgents| - 1 ==> LexLess(SortedAgents[i], SortedAgents[i + 1])
  {
    var s := SortedAgents;
    assert LexLess(s[0], s[1]) && LexLess(s[1], s[2]) && LexLess(s[2], s[3]);
    assert LexLess(s[3], s[4]) && LexLess(s[4], s[5]);
    assert forall a :: a in SupportedAgents ==> a in s;
  }

  // ---------------------------------------------------------------------------
  // Writing files
  // ---------------------------------------------------------------------------

  /** The file map after `_write_file(path, content, force)`: an existing
      path is left alone without `force`; otherwise the file holds exactly
      `content`. */
  function AfterWrite(files: map<Path, string>, dirs: set<Path>, path: Path, content: string, force: bool): map<Path, string> {
    if (path in files || path in dirs) && !force then files else files[path := content]
  }

  /** The force rule for a file written at `p`, from the files and
      directories before to the files after: with `force`, or when `p` did
      not exist, the file holds `content`; an existing file is kept
      without `force`. */
  predicate Written(files: map<Path, string>, dirs: set<Path>, after: map<Path, string>, p: Path, content: string, force: bool) {
    && (force || !(p in files || p in dirs) ==> p in after && after[p] == content)
    && (!force && p in files ==> p in after && after[p] == files[p])
  }

  /** The force rule of `_write_file`. */
  lemma ForceRule(files: map<Path, string>, dirs: set<Path>, path: Path, content: string, force: bool)
    ensures var after := AfterWrite(files, dirs, path, content, force);
      && ((path in files || path in dirs) && !force ==> after == files)
      && (force || !(path in files || path in dirs) ==> path in after && after[path] == content)
      && (forall p :: p in files && p != path ==> p in after && after[p] == files[p])
      && (forall p :: p in after ==> p in files || p == path)
  {
  }

  /** When `_write_file(path, content, force)` completes, on the files and
      directories before it: on the skip path when the path has at least
      three components, and otherwise when `write_text` can write it. */
  predicate WriteSucceeds(files: map<Path, string>, dirs: set<Path>, path: Path, force: bool)
    requires path != []
  {
    if (path in files || path in dirs) && !force then |path| >= 3
    else path !in dirs && Parent(path) in dirs
  }

  /** `_write_file(path, content, force)`. It fails where `write_text`
      does, and on the skip path when the path has fewer than three
      components, where `path.parents[2]` raises IndexError. */
  method WriteFile(fs: FileSystem, path: Path, content: string, force: bool) returns (ok: bool)
    requires fs.Valid() && path != []
    modifies fs
    ensures fs.Valid() && fs.dirs == old(fs.dirs)
    ensures ok ==> fs.files == AfterWrite(old(fs.files), old(fs.dirs), path, content, force)
    ensures !ok ==> fs.files == old(fs.files)
    ensures !ok <==> if old(fs.Exists(path)) && !force then |path| < 3
                     else path in old(fs.dirs) || Parent(path) !in old(fs.dirs)
    ensures ok <==> WriteSucceeds(old(fs.files), old(fs.dirs), path, force)
  {
    if fs.Exists(path) && !force {
      return |path| >= 3;
    }
    ok := fs.WriteText(path, content);
  }

  /** When `_write_ai_config(target, ai, force)` completes: a name outside
      the table always does; a known agent needs its directories to be
      creatable and then its file to be written. */
  predicate AiConfigSucceeds(files: map<Path, string>, dirs: set<Path>, target: Path, ai: string, force: bool) {
    match AgentConfigOf(ai)
    case None => true
    case Some(c) =>
      && !Blocked(files, target + c.dir)
      && WriteSucceeds(files, dirs + Ancestry(target + c.dir), target + c.dir + [c.file], force)
  }

  /** `_write_ai_config(target, ai, force)`: the agent's directories, then
      its file; a name outside the table writes nothing. */
  method WriteAiConfig(fs: FileSystem, target: Path, ai: string, t: Templates, force: bool) returns (ok: bool)
    requires fs.Valid()
    modifies fs
    ensures fs.Valid()
    ensures ok <==> AiConfigSucceeds(old(fs.files), old(fs.dirs), target, ai, force)
    ensures AgentConfigOf(ai).None? ==> ok && fs.files == old(fs.files) && fs.dirs == old(fs.dirs)
    ensures AgentConfigOf(ai).Some? && ok ==>
      var c := AgentConfigOf(ai).value;
      && fs.dirs == old(fs.dirs) + Ancestry(target + c.dir)
      && fs.files == AfterWrite(old(fs.files), fs.dirs, target + c.dir + [c.file], TextOf(t, c.text), force)
    ensures forall p :: p in old(fs.files) && (AgentFile(ai).None? || p != target + AgentFile(ai).value) ==>
      p in fs.files && fs.files[p] == old(fs.files[p])
    ensures forall p :: p in fs.files ==> p in old(fs.files) || (AgentFile(ai).Some? && p == target + AgentFile(ai).value)
    ensures old(fs.dirs) <= fs.dirs
    ensures forall d :: d in fs.dirs ==> d in old(fs.dirs) || (AgentConfigOf(ai).Some? && d in Ancestry(target + AgentConfigOf(ai).value.dir))
    ensures AgentConfigOf(ai).Some? && ok ==>
      Written(old(fs.files), old(fs.dirs), fs.files, target + AgentFile(ai).value, AgentFileText(t, ai), force)
  {
    match AgentConfigOf(ai)
    case None => return true;
    case Some(c) =>
      var dir := target + c.dir;
      ok := fs.MakeDirs(dir);
      if !ok {
        return;
      }
      var path := dir + [c.file];
      assert Parent(path) == dir;
      assert path !in Ancestry(dir);
      ok := WriteFile(fs, path, TextOf(t, c.text), force);
      assert path == target + AgentFile(ai).value;
  }

  const GitignoreMarker := "# hatchkit"
  const GitignoreAdditions := "# hatchkit\n.hatchkit/cache/\n"

  /** The `.gitignore` read-modify-write: the additions are appended after a
      newline unless the marker is already there. */
  function PatchGitignore(content: string): (r: string)
    ensures InStr(GitignoreMarker, content) ==> r == content
    ensures !InStr(GitignoreMarker, content) ==> r == content + "\n" + GitignoreAdditions
  {
    if InStr(GitignoreMarker, content) then content else content + "\n" + GitignoreAdditions
  }

  /** A newline cannot be part of a one-line marker, so it splits the
      count of markers in `a + "\n" + b`. */
  lemma NewlineSplits(marker: string, a: string, b: string)
    requires marker != "" && '\n' !in marker
    ensures Occurrences(marker, a + "\n" + b) == Occurrences(marker, a) + Occurrences(marker, b)
  {
    assert a + "\n" + b == a + ['\n'] + b;
    OccurrencesSplit(marker, a, '\n', b);
  }

  /** A marker followed by a line without its first character holds the
      marker once. */
  lemma MarkedOnce(marker: string, rest: string)
    requires marker != "" && '\n' !in marker && marker[0] !in rest
    ensures Occurrences(marker, marker + "\n" + rest) == 1
  {
    NewlineSplits(marker, marker, rest);
    OccurrencesSelf(marker);
    OccurrencesNone(marker, rest);
  }

  /** The additions hold the marker once. */
  lemma AdditionsMarkedOnce()
    ensures Occurrences(GitignoreMarker, GitignoreAdditions) == 1
  {
    var rest := ".hatchkit/cache/\n";
    assert GitignoreAdditions == GitignoreMarker + "\n" + rest;
    MarkedOnce(GitignoreMarker, rest);
  }

  /** Appending a marker line to a text without the marker leaves exactly
      one marker. */
  lemma AppendMarkedOnce(marker: string, rest: string, content: string)
    requires marker != "" && '\n' !in marker && marker[0] !in rest
    ensures !InStr(marker, content) ==> Occurrences(marker, content + "\n" + (marker + "\n" + rest)) == 1
  {
    if !InStr(marker, content) {
      MarkedOnce(marker, rest);
      NewlineSplits(marker, content, marker + "\n" + rest);
    }
  }

  /** After a patch the file holds the marker; if it held none before, it
      now holds exactly one. */
  lemma PatchMarksOnce(content: string)
    ensures InStr(GitignoreMarker, PatchGitignore(content))
    ensures !InStr(GitignoreMarker, content) ==> Occurrences(GitignoreMarker, PatchGitignore(content)) == 1
  {
    var rest := ".hatchkit/cache/\n";
    assert GitignoreAdditions == GitignoreMarker + "\n" + rest;
    AppendMarkedOnce(GitignoreMarker, rest, content);
  }

  /** Patching twice is patching once. */
  lemma PatchIdempotent(content: string)
    ensures PatchGitignore(PatchGitignore(content)) == PatchGitignore(content)
  {
    PatchMarksOnce(content);
  }

  /** The files `_write_project_files` may write under `target`. */
  function ProjectFiles(target: Path, ai: Option<string>): set<Path> {
    {target + [".hatchkit", "AGENTS.md"], target + [".gitignore"]}
    + (if ai.Some? && ai.value != "" && AgentFile(ai.value).Some? then {target + AgentFile(ai.value).value} else {})
  }

  /** The directories `_write_project_files` may create under `target`:
      `.hatchkit` and the agent's directories. */
  function ScaffoldDirs(target: Path, ai: Option<string>): set<Path> {
    {target + [".hatchkit"]}
    + (if ai.Some? && ai.value != "" && AgentConfigOf(ai.value).Some? then Ancestry(target + AgentConfigOf(ai.value).value.dir) else {})
  }

  /** When `_write_project_files` runs through the `.hatchkit` directory,
      AGENTS.md and the agent's files: `.hatchkit` exists or can be made,
      AGENTS.md can be written in it, and the agent's files can be written. */
  predicate ScaffoldSucceeds(files: map<Path, string>, dirs: set<Path>, target: Path, ai: Option<string>, force: bool) {
    var hatchkit := target + [".hatchkit"];
    && (hatchkit in dirs || (hatchkit !in files && Parent(hatchkit) in dirs))
    && WriteSucceeds(files, dirs + {hatchkit}, hatchkit + ["AGENTS.md"], force)
    && (KnownAgent(ai) ==> AiConfigSucceeds(files, dirs, target, ai.value, force))
  }

  /** When `_write_project_files` completes: the scaffold is written and
      `.gitignore` is not a directory. */
  predicate ProjectFilesSucceed(files: map<Path, string>, dirs: set<Path>, target: Path, ai: Option<string>, force: bool) {
    ScaffoldSucceeds(files, dirs, target, ai, force) && target + [".gitignore"] !in dirs
  }

  /** A directory with no file in, at or above it and no subdirectory
      accepts the whole scaffold, for every agent and either value of
      `--force`. */
  lemma FreshTargetSucceeds(files: map<Path, string>, dirs: set<Path>, target: Path, ai: Option<string>, force: bool)
    requires target != [] && target in dirs
    requires forall d :: d in dirs ==> !(target < d)
    requires forall p :: p in files ==> !(target <= p) && p !in Ancestry(target)
    ensures ProjectFilesSucceed(files, dirs, target, ai, force)
  {
    var hatchkit := target + [".hatchkit"];
    assert target < hatchkit && target < hatchkit + ["AGENTS.md"] && target < target + [".gitignore"];
    assert Parent(hatchkit) == target && Parent(hatchkit + ["AGENTS.md"]) == hatchkit;
    if KnownAgent(ai) {
      var c := AgentConfigOf(ai.value).value;
      var dir := target + c.dir;
      var path := dir + [c.file];
      forall q | q in Ancestry(dir)
        ensures q !in files
      {
        if |q| <= |target| {
          assert q == target[..|q|];
        } else {
          assert target <= q;
        }
      }
      assert target < path && Parent(path) == dir && path !in Ancestry(dir);
    }
  }

  /** An agent is named and the table knows it. */
  predicate KnownAgent(ai: Option<string>) {
    ai.Some? && ai.value != "" && AgentConfigOf(ai.value).Some?
  }

  /** The `.gitignore` step: an existing file is patched in place, a
      missing one is left missing, and a directory in its place fails
      (`read_text` raises IsADirectoryError). */
  method UpdateGitignore(fs: FileSystem, path: Path) returns (ok: bool)
    requires fs.Valid() && path != []
    modifies fs
    ensures fs.Valid() && fs.dirs == old(fs.dirs)
    ensures ok <==> path !in old(fs.dirs)
    ensures path in old(fs.files) ==> fs.files == old(fs.files)[path := PatchGitignore(old(fs.files[path]))]
    ensures path !in old(fs.files) ==> fs.files == old(fs.files)
  {
    if path in fs.files {
      var content := fs.files[path];
      if !InStr(GitignoreMarker, content) {
        ok := fs.WriteText(path, content + "\n" + GitignoreAdditions);
      } else {
        assert fs.files[path := content] == fs.files;
        ok := true;
      }
    } else {
      ok := path !in fs.dirs;
    }
  }

  /** Lines 194-197: the `.hatchkit` directory, then AGENTS.md in it. */
  method WriteAgentsMd(fs: FileSystem, target: Path, t: Templates, force: bool) returns (ok: bool)
    requires fs.Valid()
    modifies fs
    ensures fs.Valid()
    ensures var hatchkit := target + [".hatchkit"];
      ok <==> && (hatchkit in old(fs.dirs) || (hatchkit !in old(fs.files) && Parent(hatchkit) in old(fs.dirs)))
              && WriteSucceeds(old(fs.files), old(fs.dirs) + {hatchkit}, hatchkit + ["AGENTS.md"], force)
    ensures old(fs.dirs) <= fs.dirs <= old(fs.dirs) + {target + [".hatchkit"]}
    ensures ok ==> fs.dirs == old(fs.dirs) + {target + [".hatchkit"]}
    ensures ok ==> fs.files == AfterWrite(old(fs.files), old(fs.dirs), target + [".hatchkit", "AGENTS.md"], t.agentsMd, force)
    ensures !ok ==> fs.files == old(fs.files)
    ensures target !in old(fs.dirs) ==> !ok && fs.dirs == old(fs.dirs)
  {
    var hatchkit := target + [".hatchkit"];
    var agents := hatchkit + ["AGENTS.md"];
    assert agents == target + [".hatchkit", "AGENTS.md"];
    assert Parent(hatchkit) == target;
    ok := fs.MakeDir(hatchkit);
    if !ok {
      return;
    }
    assert Parent(agents) == hatchkit;
    ok := WriteFile(fs, agents, t.agentsMd, force);
  }

  /** Lines 195-200: `.hatchkit/AGENTS.md`, then the agent's file when an
      agent is named. `.gitignore` is not touched. */
  method WriteScaffold(fs: FileSystem, target: Path, ai: Option<string>, t: Templates, force: bool) returns (ok: bool)
    requires fs.Valid()
    modifies fs
    ensures fs.Valid()
    ensures ok <==> ScaffoldSucceeds(old(fs.files), old(fs.dirs), target, ai, force)
    ensures forall p :: p in old(fs.files) && p !in ProjectFiles(target, ai) ==> p in fs.files && fs.files[p] == old(fs.files[p])
    ensures forall p :: p in fs.files ==> p in old(fs.files) || p in ProjectFiles(target, ai)
    ensures ok ==> target + [".hatchkit"] in fs.dirs
    ensures var gitignore := target + [".gitignore"];
      && (gitignore in fs.files <==> gitignore in old(fs.files))
      && (gitignore in old(fs.files) ==> fs.files[gitignore] == old(fs.files[gitignore]))
    ensures target !in old(fs.dirs) ==> !ok && fs.files == old(fs.files) && fs.dirs == old(fs.dirs)
    ensures old(fs.dirs) <= fs.dirs
    ensures forall d :: d in fs.dirs ==> d in old(fs.dirs) || d in ScaffoldDirs(target, ai)
    ensures ok ==> Written(old(fs.files), old(fs.dirs), fs.files, target + [".hatchkit", "AGENTS.md"], t.agentsMd, force)
    ensures ok && KnownAgent(ai) ==>
      Written(old(fs.files), old(fs.dirs), fs.files, target + AgentFile(ai.value).value, AgentFileText(t, ai.value), force)
  {
    var agents := target + [".hatchkit", "AGENTS.md"];
    ok := WriteAgentsMd(fs, target, t, force);
    if !ok {
      return;
    }
    assert agents != target + [".gitignore"] by {
      assert agents[|target|] != (target + [".gitignore"])[|target|];
    }
    if ai.Some? && ai.value != "" {
      if AgentFile(ai.value).Some? {
        AgentsMdLeavesAgentAlone(old(fs.files), old(fs.dirs), target, ai.value, t, force);
      }
      ok := WriteAiConfig(fs, target, ai.value, t, force);
    }
    assert target + [".hatchkit"] != agents;
  }

  /** `_write_project_files(target, ai, force)`: `.hatchkit/AGENTS.md`, the
      agent's file when an agent is named, and the `.gitignore` patch when
      that file exists. */
  method WriteProjectFiles(fs: FileSystem, target: Path, ai: Option<string>, t: Templates, force: bool) returns (ok: bool)
    requires fs.Valid()
    modifies fs
    ensures fs.Valid()
    ensures ok <==> ProjectFilesSucceed(old(fs.files), old(fs.dirs), target, ai, force)
    ensures forall p :: p in old(fs.files) && p !in ProjectFiles(target, ai) ==> p in fs.files && fs.files[p] == old(fs.files[p])
    ensures forall p :: p in fs.files ==> p in old(fs.files) || p in ProjectFiles(target, ai)
    ensures ok ==> target + [".hatchkit"] in fs.dirs
    ensures var gitignore := target + [".gitignore"];
      && (gitignore !in old(fs.files) ==> gitignore !in fs.files)
      && (ok && gitignore in old(fs.files) ==> gitignore in fs.files && fs.files[gitignore] == PatchGitignore(old(fs.files[gitignore])))
    ensures target !in old(fs.dirs) ==> !ok && fs.files == old(fs.files) && fs.dirs == old(fs.dirs)
    ensures old(fs.dirs) <= fs.dirs
    ensures forall d :: d in fs.dirs ==> d in old(fs.dirs) || d in ScaffoldDirs(target, ai)
    ensures ok ==> Written(old(fs.files), old(fs.dirs), fs.files, target + [".hatchkit", "AGENTS.md"], t.agentsMd, force)
    ensures ok && KnownAgent(ai) ==>
      Written(old(fs.files), old(fs.dirs), fs.files, target + AgentFile(ai.value).value, AgentFileText(t, ai.value), force)
  {
    ok := WriteScaffold(fs, target, ai, t, force);
    if ok {
      if KnownAgent(ai) {
        AgentPathsDistinct(target, ai.value);
      }
      ok := UpdateGitignore(fs, target + [".gitignore"]);
    }
  }

  /** The agent's file is neither AGENTS.md nor `.gitignore`, and neither
      they nor `.hatchkit` lie on the agent's directory path. */
  lemma AgentPathsDistinct(target: Path, ai: string)
    requires AgentFile(ai).Some?
    ensures target + AgentFile(ai).value != target + [".hatchkit", "AGENTS.md"]
    ensures target + AgentFile(ai).value != target + [".gitignore"]
    ensures target + AgentFile(ai).value != target + [".hatchkit"]
    ensures var d := target + AgentConfigOf(ai).value.dir;
      && target + [".hatchkit", "AGENTS.md"] !in Ancestry(d)
      && target + [".hatchkit"] !in Ancestry(d)
      && target + [".gitignore"] !in Ancestry(d)
      && target + AgentFile(ai).value !in Ancestry(d)
  {
    var c := AgentConfigOf(ai).value;
    var p := target + AgentFile(ai).value;
    var d := target + c.dir;
    assert p[|target|] == c.dir[0] && d[|target|] == c.dir[0];
    forall q | q in Ancestry(d) && |q| > |target|
      ensures q[|target|] == c.dir[0]
    {
      assert q == d[..|q|];
    }
  }

  /** Whether the agent's files can be written depends only on the paths
      along its directory and on its file. */
  lemma AiConfigSucceedsFrame(files: map<Path, string>, dirs: set<Path>, files2: map<Path, string>, dirs2: set<Path>, target: Path, ai: string, force: bool)
    requires AgentConfigOf(ai).Some?
    requires var d := target + AgentConfigOf(ai).value.dir;
      var p := d + [AgentConfigOf(ai).value.file];
      && (forall q :: q in Ancestry(d) ==> (q in files <==> q in files2))
      && (p in files <==> p in files2) && (p in dirs <==> p in dirs2)
    ensures AiConfigSucceeds(files, dirs, target, ai, force) == AiConfigSucceeds(files2, dirs2, target, ai, force)
  {
    var d := target + AgentConfigOf(ai).value.dir;
    assert Blocked(files, d) == Blocked(files2, d);
  }

  /** Writing AGENTS.md touches nothing the agent's step reads or writes:
      its success, its file and that file's place among the directories are
      as they were. */
  lemma AgentsMdLeavesAgentAlone(files: map<Path, string>, dirs: set<Path>, target: Path, ai: string, t: Templates, force: bool)
    requires AgentConfigOf(ai).Some?
    ensures var agents := target + [".hatchkit", "AGENTS.md"];
      var files1 := AfterWrite(files, dirs, agents, t.agentsMd, force);
      var dirs1 := dirs + {target + [".hatchkit"]};
      var p := target + AgentFile(ai).value;
      && p != agents
      && AiConfigSucceeds(files1, dirs1, target, ai, force) == AiConfigSucceeds(files, dirs, target, ai, force)
      && (p in files1 <==> p in files) && (p in files ==> files1[p] == files[p])
      && (p in dirs1 <==> p in dirs)
  {
    var agents := target + [".hatchkit", "AGENTS.md"];
    var files1 := AfterWrite(files, dirs, agents, t.agentsMd, force);
    AgentPathsDistinct(target, ai);
    ForceRule(files, dirs, agents, t.agentsMd, force);
    var c := AgentConfigOf(ai).value;
    assert target + AgentFile(ai).value == target + c.dir + [c.file];
    AiConfigSucceedsFrame(files1, dirs + {target + [".hatchkit"]}, files, dirs, target, ai, force);
  }

  // ---------------------------------------------------------------------------
  // init
  // ---------------------------------------------------------------------------

  /** Lines 124-129: the target directory, and whether `init` creates it;
      with `--here`, no name or `.`, it is the current directory as it is. */
  function TargetDir(fs: FileSystem, cwd: Path, projectName: Option<string>, here: bool): (r: (Path, bool))
    reads fs
    ensures here || projectName.None? || projectName == Some(".") ==> r == (cwd, false)
    ensures !(here || projectName.None? || projectName == Some(".")) ==>
      r.0 == PathJoin(cwd, projectName.value) && (r.1 <==> !fs.Exists(r.0))
  {
    if here || projectName.None? || projectName == Some(".") then (cwd, false)
    else
      var target := PathJoin(cwd, projectName.value);
      (target, !fs.Exists(target))
  }

  /** Some ancestor of `p`, or `p` itself, is a file, so `mkdir(parents=True)`
      cannot create `p`. */
  predicate Blocked(files: map<Path, string>, p: Path) {
    exists q :: q in Ancestry(p) && q in files
  }

  /** When `init` completes: the agent is known or absent, a missing
      target can be created, and the project files can then be written. */
  predicate InitSucceeds(files: map<Path, string>, dirs: set<Path>, target: Path, created: bool, ai: Option<string>, force: bool) {
    && !(ai.Some? && ai.value != "" && ai.value !in SupportedAgents)
    && !(created && Blocked(files, target))
    && ProjectFilesSucceed(files, dirs + (if created then Ancestry(target) else {}), target, ai, force)
  }

  /** `hatchkit init [NAME] [--here] [--force] [--ai AGENT]`. How it ends:
      None when it completes, `Exit(1, ...)` for an unknown agent, `Crash`
      when the filesystem refuses a step. */
  method Init(fs: FileSystem, cwd: Path, projectName: Option<string>, here: bool, force: bool, ai: Option<string>, t: Templates)
    returns (failure: Option<Failure>, ghost target: Path, ghost created: bool)
    requires fs.Valid()
    modifies fs
    ensures fs.Valid()
    ensures (target, created) == old(TargetDir(fs, cwd, projectName, here))
    ensures failure.None? <==> InitSucceeds(old(fs.files), old(fs.dirs), target, created, ai, force)
    ensures failure.None? || failure == Some(Crash) || (ai.Some? && failure == Some(Exit(1, UnknownAgentMessage(ai.value))))
    ensures failure.Some? && failure.value.Exit? ==> ai.Some? && ai.value != "" && ai.value !in SupportedAgents
    ensures ai.Some? && ai.value != "" && ai.value !in SupportedAgents ==>
      && fs.files == old(fs.files)
      && failure == (if created && Blocked(old(fs.files), target) then Some(Crash)
                     else Some(Exit(1, UnknownAgentMessage(ai.value))))
      && (failure == Some(Exit(1, UnknownAgentMessage(ai.value))) ==>
            fs.dirs == old(fs.dirs) + (if created then Ancestry(target) else {}))
    ensures forall p :: p in old(fs.files) && p !in ProjectFiles(target, ai) ==> p in fs.files && fs.files[p] == old(fs.files[p])
    ensures forall p :: p in fs.files ==> p in old(fs.files) || p in ProjectFiles(target, ai)
    ensures failure.None? ==> target in fs.dirs && target + [".hatchkit"] in fs.dirs
    ensures old(fs.dirs) <= fs.dirs
    ensures forall d :: d in fs.dirs ==> d in old(fs.dirs) || (created && d in Ancestry(target)) || d in ScaffoldDirs(target, ai)
    ensures !created && target !in old(fs.dirs) ==> failure.Some? && fs.files == old(fs.files) && fs.dirs == old(fs.dirs)
    ensures failure.None? ==>
      var gitignore := target + [".gitignore"];
      && Written(old(fs.files), old(fs.dirs), fs.files, target + [".hatchkit", "AGENTS.md"], t.agentsMd, force)
      && (KnownAgent(ai) ==>
            Written(old(fs.files), old(fs.dirs), fs.files, target + AgentFile(ai.value).value, AgentFileText(t, ai.value), force))
      && (gitignore !in old(fs.files) ==> gitignore !in fs.files)
      && (gitignore in old(fs.files) ==> gitignore in fs.files && fs.files[gitignore] == PatchGitignore(old(fs.files[gitignore])))
  {
    var (dir, create) := TargetDir(fs, cwd, projectName, here);
    target, created := dir, create;
    var agents, gitignore := dir + [".hatchkit", "AGENTS.md"], dir + [".gitignore"];
    assert agents !in Ancestry(dir) && gitignore !in Ancestry(dir);
    if KnownAgent(ai) {
      assert dir + AgentFile(ai.value).value !in Ancestry(dir);
    }
    ghost var dirs1 := fs.dirs + (if create then Ancestry(dir) else {});
    if create {
      var made := fs.MakeDirs(dir);
      if !made {
        return Some(Crash), target, created;
      }
    }
    assert fs.files == old(fs.files) && fs.dirs == dirs1;
    if ai.Some? && ai.value != "" && ai.value !in SupportedAgents {
      return Some(Exit(1, UnknownAgentMessage(ai.value))), target, created;
    }
    var ok := WriteProjectFiles(fs, dir, ai, t, force);
    assert ok <==> ProjectFilesSucceed(old(fs.files), dirs1, dir, ai, force);
    assert ok <==> InitSucceeds(old(fs.files), old(fs.dirs), dir, create, ai, force);
    if !ok {
      return Some(Crash), target, created;
    }
    assert dir == Parent(dir + [".hatchkit"]);
    return None, target, created;
  }

  /** `init --here` or `init .` in an empty directory with no file along
      its path: the target is that directory and `init` succeeds, with no
      agent or with any supported one. */
  lemma InitInEmptyDirectory(fs: FileSystem, cwd: Path, dot: bool, ai: Option<string>, force: bool)
    requires fs.Valid()
    requires cwd != [] && cwd in fs.dirs
    requires forall d :: d in fs.dirs ==> !(cwd < d)
    requires forall p :: p in fs.files ==> !(cwd <= p) && p !in Ancestry(cwd)
    requires ai.None? || ai.value in SupportedAgents
    ensures TargetDir(fs, cwd, if dot then Some(".") else None, !dot) == (cwd, false)
    ensures InitSucceeds(fs.files, fs.dirs, cwd, false, ai, force)
  {
    FreshTargetSucceeds(fs.files, fs.dirs, cwd, ai, force);
    assert fs.dirs + {} == fs.dirs;
  }

  // ---------------------------------------------------------------------------
  // check
  // ---------------------------------------------------------------------------

  /** `TOOLS_TO_CHECK`, in its order. */
  const Tools: seq<(string, string)> := [
    ("git", "Version control – required for most workflows"),
    ("uv", "Python package/environment manager"),
    ("claude", "Anthropic Claude Code agent"),
    ("gemini", "Google Gemini CLI agent"),
    ("code", "Visual Studio Code"),
    ("cursor", "Cursor AI editor"),
    ("codex", "OpenAI Codex CLI")
  ]

  const Found := "[green]✔ found[/green]"
  const Missing := "[red]✘ missing[/red]"
  const AllFoundMessage := "\n[green]All tools found![/green]"
  const SomeMissingMessage := "\n[yellow]Some tools are missing. Install them to unlock full functionality.[/yellow]"

  /** One row of the tool table: name, status, details or `–`, description. */
  function ToolRow(tool: (string, string), status: (bool, string)): (row: seq<string>)
    ensures |row| == 4 && row[0] == tool.0 && row[3] == tool.1
    ensures row[1] == Found <==> status.0
    ensures !status.0 ==> row[1] == Missing
    ensures row[2] == if status.1 == "" then "–" else status.1
  {
    [tool.0, if status.0 then Found else Missing, if status.1 == "" then "–" else status.1, tool.1]
  }

  /** `hatchkit check`, over `TOOLS_TO_CHECK` in order. `toolStatus` stands
      for `_tool_status`: whether the tool is on PATH, and its version line
      or path. */
  method Check(toolStatus: string -> (bool, string))
    returns (rows: seq<seq<string>>, allFound: bool, summary: string)
    ensures |rows| == |Tools|
    ensures forall i :: 0 <= i < |Tools| ==> rows[i] == ToolRow(Tools[i], toolStatus(Tools[i].0))
    ensures allFound <==> forall i :: 0 <= i < |Tools| ==> toolStatus(Tools[i].0).0
    ensures summary == if allFound then AllFoundMessage else SomeMissingMessage
  {
    rows := [];
    allFound := true;
    var i := 0;
    while i < |Tools|
      invariant 0 <= i <= |Tools|
      invariant |rows| == i
      invariant forall k :: 0 <= k < i ==> rows[k] == ToolRow(Tools[k], toolStatus(Tools[k].0))
      invariant allFound <==> forall k :: 0 <= k < i ==> toolStatus(Tools[k].0).0
    {
      var (tool, description) := Tools[i];
      var (found, details) := toolStatus(tool);
      var status: string;
      if found {
        status := Found;
      } else {
        status := Missing;
        allFound := false;
      }
      rows := rows + [[tool, status, if details == "" then "–" else details, description]];
      i := i + 1;
    }
    summary := if allFound then AllFoundMessage else SomeMissingMessage;
  }
}
