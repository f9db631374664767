/**
 The installer's files: releases, staging areas, version files and launcher
 stubs of the three components; every single write to them; and the checks
 that only read. SHA-256, manifest parsing and version parsing are parameters.
 */
module InstallerDisk {
  import opened Prelude

  datatype Name = InstallerName | AgentName | ServerName

  datatype File = File(content: Bytes, launchable: bool)

  /** A directory tree as its regular files, by relative path. */
  type Dir = map<string, File>

  const MANIFEST: string := "META/manifest.json"
  const LAUNCHER: string := "bin/zfleet_launcher"

  datatype ManifestFile = ManifestFile(source: string, target: string, size: nat, sha256: string, launchable: bool)

  datatype Manifest = Manifest(component: Name, version: string, minInstaller: string, files: seq<ManifestFile>)

  datatype Semver = Semver(major: nat, minor: nat, patch: nat)

  datatype Env = Env(sha256: Bytes -> string, load: Bytes -> Option<Manifest>, semver: string -> Option<Semver>)

  // ------------------------------------------------------- names and texts

  predicate SegmentChar(c: char) {
    'a' <= c <= 'z' || 'A' <= c <= 'Z' || '0' <= c <= '9' || c == '.' || c == '_' || c == '-'
  }

  predicate PathSegment(s: string) {
    s != [] && s != "." && s != ".." && forall i :: 0 <= i < |s| ==> SegmentChar(s[i])
  }

  predicate IsSafeVersionString(s: string) {
    s != [] && s != "." && s != ".." && '/' !in s && '\\' !in s
  }

  predicate UnderMeta(target: string) {
    target == "META" || (|target| >= 5 && target[..5] == "META/")
  }

  /** What the manifest parser lets through. */
  predicate Formed(m: Manifest) {
    && PathSegment(m.version)
    && (forall f :: f in m.files ==> !UnderMeta(f.target))
    && (forall i, j :: 0 <= i < j < |m.files| ==> m.files[i].target != m.files[j].target)
  }

  ghost predicate StrictLoader(env: Env) {
    forall content :: env.load(content).Some? ==> Formed(env.load(content).value)
  }

  predicate IsSpace(c: char) {
    c == ' ' || c == '\t' || c == '\n' || c == '\r' || c == '\U{b}' || c == '\U{c}'
  }

  function TrimEnd(s: string): (r: string) {
    if s != [] && IsSpace(s[|s| - 1]) then TrimEnd(s[..|s| - 1]) else s
  }

  function TrimStart(s: string): (r: string) {
    if s != [] && IsSpace(s[0]) then TrimStart(s[1..]) else s
  }

  function Trimmed(s: string): (r: string) { TrimStart(TrimEnd(s)) }

  /** A version written to a version file reads back as itself. */
  lemma VersionReadsBack(v: string)
    requires PathSegment(v)
    ensures Trimmed(v + "\n") == v && IsSafeVersionString(v)
  {
    assert (v + "\n")[..|v|] == v;
    assert TrimEnd(v + "\n") == TrimEnd(v) == v;
  }

  lemma {:induction false} TrimEndMeans(s: string)
    ensures TrimEnd(s) <= s && forall k :: |TrimEnd(s)| <= k < |s| ==> IsSpace(s[k])
    ensures TrimEnd(s) != [] ==> !IsSpace(TrimEnd(s)[|TrimEnd(s)| - 1])
  {
    if s != [] && IsSpace(s[|s| - 1]) {
      TrimEndMeans(s[..|s| - 1]);
    }
  }

  lemma {:induction false} TrimStartMeans(s: string)
    ensures |TrimStart(s)| <= |s| && TrimStart(s) == s[|s| - |TrimStart(s)|..]
    ensures forall k :: 0 <= k < |s| - |TrimStart(s)| ==> IsSpace(s[k])
    ensures TrimStart(s) != [] ==> !IsSpace(TrimStart(s)[0])
  {
    if s != [] && IsSpace(s[0]) {
      var rest := s[1..];
      TrimStartMeans(rest);
      hide IsSpace;
      var n := |rest| - |TrimStart(rest)|;
      assert TrimStart(s) == TrimStart(rest) && rest[n..] == s[n + 1..];
      forall k | 0 <= k < n + 1 ensures IsSpace(s[k]) {
        assert k > 0 ==> s[k] == rest[k - 1];
      }
    }
  }

  /** Trimming leaves a piece of the text with only white space before and after
      it, and none at its own ends. */
  lemma TrimmedMeans(s: string) returns (i: nat, j: nat)
    ensures i <= j <= |s| && Trimmed(s) == s[i..j]
    ensures forall k :: 0 <= k < i || j <= k < |s| ==> s[k] in " \t\n\r\U{b}\U{c}"
    ensures i < j ==> s[i] !in " \t\n\r\U{b}\U{c}" && s[j - 1] !in " \t\n\r\U{b}\U{c}"
  {
    TrimEndMeans(s);
    TrimStartMeans(TrimEnd(s));
    j := |TrimEnd(s)|;
    i := j - |Trimmed(s)|;
  }

  method ReadTrimmed(text: string) returns (value: string)
    ensures value == Trimmed(text)
  {
    value := text;
    while value != [] && IsSpace(value[|value| - 1])
      invariant TrimEnd(value) == TrimEnd(text)
      decreases |value|
    {
      value := value[..|value| - 1];
    }
    while value != [] && IsSpace(value[0])
      invariant TrimStart(value) == Trimmed(text)
      decreases |value|
    {
      value := value[1..];
    }
  }

  // ------------------------------------------------------- the disk

  datatype Which = ActiveVersion | PreviousVersion

  /** One component's root. Version files are texts; `stub` is its launcher stub. */
  datatype Tree = Tree(
    releases: map<string, Dir>,
    staging: map<string, Dir>,
    active: Option<string>,
    previous: Option<string>,
    activeTmp: Option<string>,
    previousTmp: Option<string>,
    stub: Option<File>)

  datatype Root = Root(installer: Tree, agent: Tree, server: Tree) {
    function At(c: Name): (t: Tree) {
      match c
      case InstallerName => installer
      case AgentName => agent
      case ServerName => server
    }

    function With(c: Name, t: Tree): (r: Root)
      ensures r.At(c) == t && forall d :: d != c ==> r.At(d) == At(d)
    {
      match c
      case InstallerName => this.(installer := t)
      case AgentName => this.(agent := t)
      case ServerName => this.(server := t)
    }
  }

  /** The single writes. A text or a copied file is first created empty. */
  datatype Op =
    | DropStagedFile(c: Name, v: string, path: string)
    | DropStaging(c: Name, v: string)
    | MakeStaging(c: Name, v: string)
    | PutStaged(c: Name, v: string, path: string, file: File)
    | Promote(c: Name, v: string)
    | PutTmp(c: Name, which: Which, text: string)
    | Replace(c: Name, which: Which)
    | Unlink(c: Name, which: Which)
    | PutStub(c: Name, file: File)

  function DoTree(t: Tree, op: Op): (r: Tree) {
    match op
    case DropStagedFile(_, v, path) =>
      if v in t.staging then t.(staging := t.staging[v := t.staging[v] - {path}]) else t
    case DropStaging(_, v) => t.(staging := t.staging - {v})
    case MakeStaging(_, v) => if v in t.staging then t else t.(staging := t.staging[v := map[]])
    case PutStaged(_, v, path, file) =>
      if v in t.staging then t.(staging := t.staging[v := t.staging[v][path := file]]) else t
    case Promote(_, v) =>
      if v in t.staging then t.(releases := t.releases[v := t.staging[v]], staging := t.staging - {v}) else t
    case PutTmp(_, which, text) =>
      if which.ActiveVersion? then t.(activeTmp := Some(text)) else t.(previousTmp := Some(text))
    case Replace(_, which) =>
      if which.ActiveVersion? then t.(active := t.activeTmp, activeTmp := None)
      else t.(previous := t.previousTmp, previousTmp := None)
    case Unlink(_, which) => if which.ActiveVersion? then t.(active := None) else t.(previous := None)
    case PutStub(_, file) => t.(stub := Some(file))
  }

  function Do(r: Root, op: Op): (r': Root) { r.With(op.c, DoTree(r.At(op.c), op)) }

  /** The disk after a sequence of writes; a crash leaves it after a prefix. */
  function Exec(r: Root, ops: seq<Op>): (r': Root)
    decreases |ops|
  {
    if ops == [] then r else Do(Exec(r, ops[..|ops| - 1]), ops[|ops| - 1])
  }

  lemma {:induction false} ExecConcat(r: Root, a: seq<Op>, b: seq<Op>)
    ensures Exec(r, a + b) == Exec(Exec(r, a), b)
    decreases |b|
  {
    if b == [] {
      assert a + b == a;
    } else {
      assert (a + b)[..|a + b| - 1] == a + b[..|b| - 1];
      ExecConcat(r, a, b[..|b| - 1]);
    }
  }

  lemma ExecSnoc(r: Root, ops: seq<Op>, op: Op)
    ensures Exec(r, ops + [op]) == Do(Exec(r, ops), op)
  {
    assert (ops + [op])[..|ops|] == ops;
  }

  // ------------------------------------------------------- validation

  datatype Problem =
    | ManifestMissing | ManifestInvalid | ComponentMismatch | VersionMismatch
    | FileMissing | SizeMismatch | ShaMismatch | LaunchableMismatch
    | LauncherMissing | LauncherNotLaunchable
    | VersionInvalid | ReleaseMissing

  function FileProblem(env: Env, dir: Dir, f: ManifestFile): (r: Option<Problem>) {
    if f.target !in dir then Some(FileMissing)
    else if |dir[f.target].content| != f.size then Some(SizeMismatch)
    else if env.sha256(dir[f.target].content) != f.sha256 then Some(ShaMismatch)
    else if f.launchable && !dir[f.target].launchable then Some(LaunchableMismatch)
    else None
  }

  function FilesProblem(env: Env, dir: Dir, files: seq<ManifestFile>): (r: Option<Problem>)
    ensures r.None? <==> forall f :: f in files ==> FileProblem(env, dir, f).None?
  {
    if files == [] then None
    else
      var first := FileProblem(env, dir, files[0]);
      assert files == [files[0]] + files[1..];
      if first.Some? then first else FilesProblem(env, dir, files[1..])
  }

  function LauncherProblem(dir: Dir): (r: Option<Problem>) {
    if LAUNCHER !in dir then Some(LauncherMissing)
    else if !dir[LAUNCHER].launchable then Some(LauncherNotLaunchable)
    else None
  }

  function ReleaseProblem(env: Env, c: Name, v: string, dir: Dir): (r: Option<Problem>) {
    if MANIFEST !in dir then Some(ManifestMissing)
    else
      var loaded := env.load(dir[MANIFEST].content);
      if loaded.None? then Some(ManifestInvalid)
      else if loaded.value.component != c then Some(ComponentMismatch)
      else if loaded.value.version != v then Some(VersionMismatch)
      else
        var files := FilesProblem(env, dir, loaded.value.files);
        if files.Some? then files
        else if c.InstallerName? then LauncherProblem(dir) else None
  }

  predicate Healthy(env: Env, c: Name, v: string, dir: Dir) { ReleaseProblem(env, c, v, dir).None? }

  /** The file is there with its size, its hash and, where asked for, its
      launchable bit. */
  predicate FileMatches(env: Env, dir: Dir, f: ManifestFile) {
    && f.target in dir
    && |dir[f.target].content| == f.size && env.sha256(dir[f.target].content) == f.sha256
    && (f.launchable ==> dir[f.target].launchable)
  }

  /** The directory is release `v` of component `c`: its manifest says so, lists
      only files that match, and an installer brings a launchable launcher. */
  ghost predicate IsRelease(env: Env, c: Name, v: string, dir: Dir) {
    && MANIFEST in dir && env.load(dir[MANIFEST].content).Some?
    && var m := env.load(dir[MANIFEST].content).value;
       && m.component == c && m.version == v
       && (forall f :: f in m.files ==> FileMatches(env, dir, f))
       && (c == InstallerName ==> LAUNCHER in dir && dir[LAUNCHER].launchable)
  }

  /** What a file failed, after passing the checks before it. */
  predicate FileFails(env: Env, dir: Dir, f: ManifestFile, problem: Problem) {
    var there := f.target in dir;
    var sized := there && |dir[f.target].content| == f.size;
    var hashed := sized && env.sha256(dir[f.target].content) == f.sha256;
    match problem
    case FileMissing => !there
    case SizeMismatch => there && !sized
    case ShaMismatch => sized && !hashed
    case LaunchableMismatch => hashed && f.launchable && !dir[f.target].launchable
    case _ => false
  }

  /** What the first file that does not match failed. */
  ghost predicate FirstFileFails(env: Env, dir: Dir, files: seq<ManifestFile>, problem: Problem) {
    exists k ::
      && 0 <= k < |files| && FileFails(env, dir, files[k], problem)
      && forall j :: 0 <= j < k ==> FileMatches(env, dir, files[j])
  }

  /** The check that failed, and that those before it passed. */
  ghost predicate FailsFirst(env: Env, c: Name, v: string, dir: Dir, problem: Problem) {
    var loaded := if MANIFEST in dir then env.load(dir[MANIFEST].content) else None;
    var named := loaded.Some? && loaded.value.component == c && loaded.value.version == v;
    match problem
    case ManifestMissing => MANIFEST !in dir
    case ManifestInvalid => MANIFEST in dir && loaded.None?
    case ComponentMismatch => loaded.Some? && loaded.value.component != c
    case VersionMismatch => loaded.Some? && loaded.value.component == c && loaded.value.version != v
    case LauncherMissing =>
      && named && (forall f :: f in loaded.value.files ==> FileMatches(env, dir, f))
      && c == InstallerName && LAUNCHER !in dir
    case LauncherNotLaunchable =>
      && named && (forall f :: f in loaded.value.files ==> FileMatches(env, dir, f))
      && c == InstallerName && LAUNCHER in dir && !dir[LAUNCHER].launchable
    case _ => named && FirstFileFails(env, dir, loaded.value.files, problem)
  }

  lemma {:induction false} FilesProblemMeans(env: Env, dir: Dir, files: seq<ManifestFile>)
    ensures match FilesProblem(env, dir, files)
      case None => forall f :: f in files ==> FileMatches(env, dir, f)
      case Some(problem) =>
        && FirstFileFails(env, dir, files, problem)
        && problem in {FileMissing, SizeMismatch, ShaMismatch, LaunchableMismatch}
        && exists f :: f in files && !FileMatches(env, dir, f)
  {
    if files != [] {
      var first, rest := files[0], files[1..];
      assert files == [first] + rest;
      if FileProblem(env, dir, first).None? {
        FilesProblemMeans(env, dir, rest);
        assert FileMatches(env, dir, first) && FilesProblem(env, dir, files) == FilesProblem(env, dir, rest);
        hide FilesProblem, FileProblem, FileFails, FileMatches;
        if FilesProblem(env, dir, rest).Some? {
          FirstFailsLater(env, dir, first, rest, FilesProblem(env, dir, rest).value);
        }
      } else {
        assert FileFails(env, dir, first, FileProblem(env, dir, first).value) && !FileMatches(env, dir, first);
        hide FileMatches, FileFails;
      }
    }
  }

  lemma FirstFailsLater(env: Env, dir: Dir, first: ManifestFile, rest: seq<ManifestFile>, problem: Problem)
    requires FirstFileFails(env, dir, rest, problem) && FileMatches(env, dir, first)
    ensures FirstFileFails(env, dir, [first] + rest, problem)
  {
    var k :| 0 <= k < |rest| && FileFails(env, dir, rest[k], problem)
      && forall j :: 0 <= j < k ==> FileMatches(env, dir, rest[j]);
    hide FileMatches, FileFails;
    var files := [first] + rest;
    assert files[k + 1] == rest[k];
    forall j | 0 <= j < k + 1 ensures FileMatches(env, dir, files[j]) {
      assert j > 0 ==> files[j] == rest[j - 1];
    }
  }

  /** A directory validates exactly if it is the release it is taken for;
      otherwise the first failing check is reported. */
  lemma ValidatesExactly(env: Env, c: Name, v: string, dir: Dir)
    ensures ReleaseProblem(env, c, v, dir).None? <==> IsRelease(env, c, v, dir)
    ensures ReleaseProblem(env, c, v, dir).Some? ==> FailsFirst(env, c, v, dir, ReleaseProblem(env, c, v, dir).value)
  {
    if MANIFEST in dir && env.load(dir[MANIFEST].content).Some? {
      FilesProblemMeans(env, dir, env.load(dir[MANIFEST].content).value.files);
    }
    hide FilesProblem, FirstFileFails, FileMatches;
  }

  method ValidateReleaseDirectory(env: Env, c: Name, v: string, dir: Dir) returns (r: Option<Problem>)
    ensures r == ReleaseProblem(env, c, v, dir)
    ensures r.None? <==> IsRelease(env, c, v, dir)
    ensures r.Some? ==> FailsFirst(env, c, v, dir, r.value)
  {
    ValidatesExactly(env, c, v, dir);
    hide IsRelease, FailsFirst;
    if MANIFEST !in dir {
      return Some(ManifestMissing);
    }
    var loaded := env.load(dir[MANIFEST].content);
    if loaded.None? {
      return Some(ManifestInvalid);
    }
    var m := loaded.value;
    if m.component != c {
      return Some(ComponentMismatch);
    }
    if m.version != v {
      return Some(VersionMismatch);
    }
    for i := 0 to |m.files|
      invariant FilesProblem(env, dir, m.files) == FilesProblem(env, dir, m.files[i..])
    {
      var f := m.files[i];
      assert m.files[i..][0] == f && m.files[i..][1..] == m.files[i + 1..];
      if f.target !in dir {
        return Some(FileMissing);
      }
      if |dir[f.target].content| != f.size {
        return Some(SizeMismatch);
      }
      if env.sha256(dir[f.target].content) != f.sha256 {
        return Some(ShaMismatch);
      }
      if f.launchable && !dir[f.target].launchable {
        return Some(LaunchableMismatch);
      }
    }
    if c.InstallerName? {
      return LauncherProblem(dir);
    }
    return None;
  }

  /** What the active version file of a component leads to. */
  datatype Active = Missing | Installed(version: string) | Corrupt(problem: Problem)

  function Inspect(env: Env, c: Name, t: Tree): (r: Active) {
    if t.active.None? then Missing
    else
      var v := Trimmed(t.active.value);
      if !IsSafeVersionString(v) then Corrupt(VersionInvalid)
      else if v !in t.releases then Corrupt(ReleaseMissing)
      else
        var problem := ReleaseProblem(env, c, v, t.releases[v]);
        if problem.Some? then Corrupt(problem.value) else Installed(v)
  }

  /** What the active version file holds decides: nothing, a name no release can
      have, one that no release has, or a release that validates or does not. */
  lemma InspectsExactly(env: Env, c: Name, t: Tree)
    ensures Inspect(env, c, t) == Missing <==> t.active.None?
    ensures t.active.Some? ==>
      var v := Trimmed(t.active.value);
      var safe := v != "" && v != "." && v != ".." && '/' !in v && '\\' !in v;
      && (Inspect(env, c, t) == Corrupt(VersionInvalid) <==> !safe)
      && (Inspect(env, c, t) == Corrupt(ReleaseMissing) <==> safe && v !in t.releases)
      && (Inspect(env, c, t) == Installed(v) <==> safe && v in t.releases && IsRelease(env, c, v, t.releases[v]))
      && (Inspect(env, c, t).Installed? ==> Inspect(env, c, t) == Installed(v))
      && (safe && v in t.releases && Inspect(env, c, t).Corrupt? ==>
            FailsFirst(env, c, v, t.releases[v], Inspect(env, c, t).problem))
  {
    if t.active.Some? && Trimmed(t.active.value) in t.releases {
      ValidatesExactly(env, c, Trimmed(t.active.value), t.releases[Trimmed(t.active.value)]);
    }
    hide Trimmed, ReleaseProblem, IsRelease;
  }

  method InspectActiveRelease(env: Env, c: Name, t: Tree) returns (r: Active)
    ensures r == Inspect(env, c, t)
  {
    if t.active.None? {
      return Missing;
    }
    var version := ReadTrimmed(t.active.value);
    if !IsSafeVersionString(version) {
      return Corrupt(VersionInvalid);
    }
    if version !in t.releases {
      return Corrupt(ReleaseMissing);
    }
    var problem := ValidateReleaseDirectory(env, c, version, t.releases[version]);
    if problem.Some? {
      return Corrupt(problem.value);
    }
    return Installed(version);
  }
}
