/**
 Apply and rollback. Each is a plan: the writes it makes on a given disk, in
 order, and how it ends; the `Disk` object carries the plans out one write at
 a time.
 */
module InstallerOperations {
  import opened Prelude
  import opened InstallerDisk

  datatype Failure =
    | PackageInvalid
    | InstallerNotInstalled | InstallerCorrupt(problem: Problem) | InstallerVersionInvalid
    | MinimumInvalid | InstallerTooOld
    | ExistingUnhealthy(problem: Problem)
    | SourceMissing | SourceSize | SourceSha | TargetBlocked
    | LauncherRejected(problem: Problem) | AssetMissing
    | ActiveMissing | ActiveCorrupt(problem: Problem)
    | PreviousMissing | PreviousInvalid | PreviousIsActive | PreviousReleaseMissing
    | PreviousUnhealthy(problem: Problem)

  datatype Plan = Plan(error: Option<Failure>, ops: seq<Op>)

  /** What the file system leaves open: the order in which a staging directory
      is emptied, and whether a rename over a version file is refused, so that
      the file is removed and the rename repeated. */
  datatype Luck = Luck(order: seq<string>, previousRefused: bool, activeRefused: bool)

  const ALL_NAMES: seq<Name> := [InstallerName, AgentName, ServerName]

  // ------------------------------------------------------- version files

  function WriteVersionOps(c: Name, which: Which, version: string, refused: bool): (ops: seq<Op>) {
    [PutTmp(c, which, ""), PutTmp(c, which, version + "\n")]
    + if refused then [Unlink(c, which), Replace(c, which)] else [Replace(c, which)]
  }

  predicate ShouldRecordPreviousVersion(active: Active, next: string) {
    active.Installed? && active.version != next
  }

  function RecordOps(c: Name, active: Active, next: string, refused: bool): (ops: seq<Op>) {
    if ShouldRecordPreviousVersion(active, next) then WriteVersionOps(c, PreviousVersion, active.version, refused)
    else []
  }

  function SwitchOps(c: Name, active: Active, next: string, luck: Luck): (ops: seq<Op>) {
    RecordOps(c, active, next, luck.previousRefused) + WriteVersionOps(c, ActiveVersion, next, luck.activeRefused)
  }

  // ------------------------------------------------------- staging

  function DropFiles(c: Name, v: string, order: seq<string>, k: nat): (ops: seq<Op>)
    requires k <= |order|
  {
    if k == 0 then [] else DropFiles(c, v, order, k - 1) + [DropStagedFile(c, v, order[k - 1])]
  }

  function DropOps(c: Name, v: string, order: seq<string>): (ops: seq<Op>) {
    DropFiles(c, v, order, |order|) + [DropStaging(c, v)]
  }

  /** A file stands where the target needs a directory, or the other way round. */
  predicate Blocked(dir: Dir, target: string) {
    exists p :: p in dir && (p + "/" <= target || target + "/" <= p)
  }

  function CopyFailure(env: Env, pkg: Dir, dir: Dir, f: ManifestFile): (r: Option<Failure>) {
    if f.source !in pkg then Some(SourceMissing)
    else if |pkg[f.source].content| != f.size then Some(SourceSize)
    else if env.sha256(pkg[f.source].content) != f.sha256 then Some(SourceSha)
    else if Blocked(dir, f.target) then Some(TargetBlocked)
    else None
  }

  /** The staged files after the first `k` copies. */
  function StagedDir(pkg: Dir, files: seq<ManifestFile>, k: nat): (d: Dir)
    requires k <= |files|
  {
    if k == 0 then map[]
    else if files[k - 1].source !in pkg then StagedDir(pkg, files, k - 1)
    else
      var last := files[k - 1];
      StagedDir(pkg, files, k - 1)[last.target := File(pkg[last.source].content, last.launchable)]
  }

  /** A copy creates the file, fills it with the source's mode, then sets the mode. */
  function CopyOps(c: Name, v: string, target: string, source: File, launchable: bool): (ops: seq<Op>) {
    [PutStaged(c, v, target, File([], source.launchable)),
     PutStaged(c, v, target, source),
     PutStaged(c, v, target, File(source.content, launchable))]
  }

  function CopiesOps(c: Name, v: string, pkg: Dir, files: seq<ManifestFile>, k: nat): (ops: seq<Op>)
    requires k <= |files|
  {
    if k == 0 then []
    else if files[k - 1].source !in pkg then CopiesOps(c, v, pkg, files, k - 1)
    else CopiesOps(c, v, pkg, files, k - 1)
         + CopyOps(c, v, files[k - 1].target, pkg[files[k - 1].source], files[k - 1].launchable)
  }

  /** The first file from `i` on that cannot be copied, with the reason. */
  function FirstFailure(env: Env, pkg: Dir, files: seq<ManifestFile>, i: nat): (r: (nat, Option<Failure>))
    requires i <= |files|
    ensures r.0 <= |files| && (r.1.None? ==> r.0 == |files|)
    decreases |files| - i
  {
    if i == |files| then (i, None)
    else
      var failure := CopyFailure(env, pkg, StagedDir(pkg, files, i), files[i]);
      if failure.Some? then (i, failure) else FirstFailure(env, pkg, files, i + 1)
  }

  function ManifestOps(c: Name, v: string, manifest: File): (ops: seq<Op>) {
    [PutStaged(c, v, MANIFEST, File([], manifest.launchable)), PutStaged(c, v, MANIFEST, manifest)]
  }

  function StagePlan(env: Env, pkg: Dir, m: Manifest, order: seq<string>): (p: Plan)
    requires MANIFEST in pkg
  {
    var (n, failure) := FirstFailure(env, pkg, m.files, 0);
    var ops := DropOps(m.component, m.version, order) + [MakeStaging(m.component, m.version)]
               + CopiesOps(m.component, m.version, pkg, m.files, n);
    if failure.Some? then Plan(failure, ops)
    else Plan(None, ops + ManifestOps(m.component, m.version, pkg[MANIFEST]))
  }

  // ------------------------------------------------------- the installer in charge

  predicate Older(a: Semver, b: Semver) {
    a.major < b.major || (a.major == b.major && (a.minor < b.minor || (a.minor == b.minor && a.patch < b.patch)))
  }

  function ResolveInstaller(env: Env, r: Root, c: Name, version: string, minimum: string)
    : (res: Result<string, Failure>)
  {
    if c.InstallerName? then Ok(version)
    else
      match Inspect(env, InstallerName, r.installer)
      case Missing => Err(InstallerNotInstalled)
      case Corrupt(problem) => Err(InstallerCorrupt(problem))
      case Installed(v) =>
        if env.semver(v).None? then Err(InstallerVersionInvalid)
        else if env.semver(minimum).None? then Err(MinimumInvalid)
        else if Older(env.semver(v).value, env.semver(minimum).value) then Err(InstallerTooOld)
        else Ok(v)
  }

  // ------------------------------------------------------- stubs

  function Asset(r: Root, installerVersion: string): (f: Option<File>) {
    if installerVersion in r.installer.releases && LAUNCHER in r.installer.releases[installerVersion]
    then Some(r.installer.releases[installerVersion][LAUNCHER]) else None
  }

  function StubOps(c: Name, asset: File): (ops: seq<Op>) {
    [PutStub(c, File([], asset.launchable)), PutStub(c, asset), PutStub(c, File(asset.content, true))]
  }

  function StubsPlan(r: Root, installerVersion: string, components: seq<Name>): (p: Plan)
    decreases |components|
  {
    if components == [] then Plan(None, [])
    else if Asset(r, installerVersion).None? then Plan(Some(AssetMissing), [])
    else
      var ops := StubOps(components[0], Asset(r, installerVersion).value);
      var rest := StubsPlan(Exec(r, ops), installerVersion, components[1..]);
      Plan(rest.error, ops + rest.ops)
  }

  function StubOwners(c: Name): (components: seq<Name>) { if c.InstallerName? then ALL_NAMES else [c] }

  // ------------------------------------------------------- apply

  /** The common end of both branches: switch versions, then refresh stubs. */
  function FinishPlan(r: Root, c: Name, v: string, active: Active, installerVersion: string, luck: Luck): (p: Plan) {
    var switch := SwitchOps(c, active, v, luck);
    var stubs := StubsPlan(Exec(r, switch), installerVersion, StubOwners(c));
    Plan(stubs.error, switch + stubs.ops)
  }

  /** After staging: promote and finish; a failure empties the staging area. */
  function PromotePlan(r: Root, m: Manifest, active: Active, installerVersion: string, luck: Luck): (p: Plan)
    requires m.version in r.At(m.component).staging
  {
    var c, v := m.component, m.version;
    var launcher := LauncherProblem(r.At(c).staging[v]);
    if c.InstallerName? && launcher.Some? then Plan(Some(LauncherRejected(launcher.value)), DropOps(c, v, luck.order))
    else
      var finish := FinishPlan(Do(r, Promote(c, v)), c, v, active, installerVersion, luck);
      Plan(finish.error, [Promote(c, v)] + finish.ops + if finish.error.Some? then DropOps(c, v, luck.order) else [])
  }

  function NewReleasePlan(env: Env, r: Root, pkg: Dir, m: Manifest, active: Active, installerVersion: string,
                          luck: Luck): (p: Plan)
    requires MANIFEST in pkg
  {
    var stage := StagePlan(env, pkg, m, luck.order);
    var staged := Exec(r, stage.ops);
    if stage.error.Some? || m.version !in staged.At(m.component).staging
    then Plan(stage.error, stage.ops + DropOps(m.component, m.version, luck.order))
    else
      var promote := PromotePlan(staged, m, active, installerVersion, luck);
      Plan(promote.error, stage.ops + promote.ops)
  }

  function ApplyPlan(env: Env, r: Root, pkg: Dir, luck: Luck): (p: Plan) {
    if MANIFEST !in pkg || env.load(pkg[MANIFEST].content).None? then Plan(Some(PackageInvalid), [])
    else
      var m := env.load(pkg[MANIFEST].content).value;
      var t := r.At(m.component);
      var active := Inspect(env, m.component, t);
      var installer := ResolveInstaller(env, r, m.component, m.version, m.minInstaller);
      if installer.Err? then Plan(Some(installer.error), [])
      else if m.version in t.releases then
        var problem := ReleaseProblem(env, m.component, m.version, t.releases[m.version]);
        if problem.Some? then Plan(Some(ExistingUnhealthy(problem.value)), [])
        else FinishPlan(r, m.component, m.version, active, installer.value, luck)
      else NewReleasePlan(env, r, pkg, m, active, installer.value, luck)
  }

  // ------------------------------------------------------- rollback

  /** The version a rollback goes back to, or why there is none. */
  function RollbackTarget(env: Env, c: Name, t: Tree): (res: Result<string, Failure>) {
    match Inspect(env, c, t)
    case Missing => Err(ActiveMissing)
    case Corrupt(problem) => Err(ActiveCorrupt(problem))
    case Installed(version) =>
      if t.previous.None? then Err(PreviousMissing)
      else
        var previous := Trimmed(t.previous.value);
        if !IsSafeVersionString(previous) then Err(PreviousInvalid)
        else if previous == version then Err(PreviousIsActive)
        else if previous !in t.releases then Err(PreviousReleaseMissing)
        else
          var problem := ReleaseProblem(env, c, previous, t.releases[previous]);
          if problem.Some? then Err(PreviousUnhealthy(problem.value)) else Ok(previous)
  }

  function SwapOps(c: Name, from: string, to: string, luck: Luck): (ops: seq<Op>) {
    WriteVersionOps(c, PreviousVersion, from, luck.previousRefused) +
        WriteVersionOps(c, ActiveVersion, to, luck.activeRefused)
  }

  /** The versions are switched before the installer in charge is looked up. */
  function RollbackPlan(env: Env, r: Root, c: Name, luck: Luck): (p: Plan) {
    var target := RollbackTarget(env, c, r.At(c));
    if target.Err? then Plan(Some(target.error), [])
    else
      var swap := SwapOps(c, Inspect(env, c, r.At(c)).version, target.value, luck);
      var swapped := Exec(r, swap);
      var installer := ResolveInstaller(env, swapped, c, target.value, "0.0.0");
      if installer.Err? then Plan(Some(installer.error), swap)
      else
        var stubs := StubsPlan(swapped, installer.value, StubOwners(c));
        Plan(stubs.error, swap + stubs.ops)
  }

  // ------------------------------------------------------- carrying the plans out

  lemma Compose(r: Root, w: seq<Op>, a: seq<Op>, b: seq<Op>)
    ensures Exec(Exec(r, a), b) == Exec(r, a + b) && (w + a) + b == w + (a + b)
  {
    ExecConcat(r, a, b);
    AppendAssociates(w, a, b);
    hide Exec;
  }

  class Disk {
    var root: Root
    ghost var written: seq<Op>

    constructor (initial: Root)
      ensures root == initial && written == []
    {
      root, written := initial, [];
    }

    ghost predicate Wrote(r: Root, w: seq<Op>, ops: seq<Op>)
      reads this
    {
      root == Exec(r, ops) && written == w + ops
    }

    method Write(op: Op)
      modifies this
      ensures Wrote(old(root), old(written), [op])
    {
      root := Do(root, op);
      written := written + [op];
      ExecSnoc(old(root), [], op);
      assert [] + [op] == [op];
    }

    method WriteVersionFile(c: Name, which: Which, version: string, refused: bool)
      modifies this
      ensures Wrote(old(root), old(written), WriteVersionOps(c, which, version, refused))
      ensures written == old(written) +
        if refused
        then [PutTmp(c, which, ""), PutTmp(c, which, version + "\n"), Unlink(c, which), Replace(c, which)]
        else [PutTmp(c, which, ""), PutTmp(c, which, version + "\n"), Replace(c, which)]
    {
      hide Exec;
      Write(PutTmp(c, which, ""));
      Write(PutTmp(c, which, version + "\n"));
      Compose(old(root), old(written), [PutTmp(c, which, "")], [PutTmp(c, which, version + "\n")]);
      ghost var first := [PutTmp(c, which, "")] + [PutTmp(c, which, version + "\n")];
      if refused {
        Write(Unlink(c, which));
        Compose(old(root), old(written), first, [Unlink(c, which)]);
        Write(Replace(c, which));
        Compose(old(root), old(written), first + [Unlink(c, which)], [Replace(c, which)]);
        assert WriteVersionOps(c, which, version, refused) == first + [Unlink(c, which)] + [Replace(c, which)];
      } else {
        Write(Replace(c, which));
        Compose(old(root), old(written), first, [Replace(c, which)]);
        assert WriteVersionOps(c, which, version, refused) == first + [Replace(c, which)];
      }
    }

    method SwitchActiveVersion(c: Name, active: Active, next: string, luck: Luck)
      modifies this
      ensures Wrote(old(root), old(written), SwitchOps(c, active, next, luck))
    {
      hide Exec, WriteVersionOps;
      if ShouldRecordPreviousVersion(active, next) {
        WriteVersionFile(c, PreviousVersion, active.version, luck.previousRefused);
      } else {
        Nothing(old(root), old(written));
      }
      WriteVersionFile(c, ActiveVersion, next, luck.activeRefused);
      Compose(old(root), old(written), RecordOps(c, active, next, luck.previousRefused),
              WriteVersionOps(c, ActiveVersion, next, luck.activeRefused));
    }

    method RemoveStaging(c: Name, v: string, order: seq<string>)
      modifies this
      ensures Wrote(old(root), old(written), DropOps(c, v, order))
      ensures |written| == old(|written|) + |order| + 1 && written[|written| - 1] == DropStaging(c, v)
      ensures forall k :: 0 <= k < |order| ==> written[old(|written|) + k] == DropStagedFile(c, v, order[k])
    {
      hide Exec;
      Nothing(root, written);
      for k := 0 to |order|
        invariant Wrote(old(root), old(written), DropFiles(c, v, order, k))
        invariant |written| == old(|written|) + k
        invariant forall i :: 0 <= i < k ==> written[old(|written|) + i] == DropStagedFile(c, v, order[i])
      {
        Write(DropStagedFile(c, v, order[k]));
        Compose(old(root), old(written), DropFiles(c, v, order, k), [DropStagedFile(c, v, order[k])]);
      }
      Write(DropStaging(c, v));
      Compose(old(root), old(written), DropFiles(c, v, order, |order|), [DropStaging(c, v)]);
    }

    method CopyStaged(c: Name, v: string, target: string, source: File, launchable: bool)
      modifies this
      ensures Wrote(old(root), old(written), CopyOps(c, v, target, source, launchable))
      ensures written == old(written) +
        [PutStaged(c, v, target, File([], source.launchable)), PutStaged(c, v, target, source),
         PutStaged(c, v, target, File(source.content, launchable))]
    {
      hide Exec;
      ghost var a, b, d := PutStaged(c, v, target, File([], source.launchable)), PutStaged(c, v, target, source),
                           PutStaged(c, v, target, File(source.content, launchable));
      Write(PutStaged(c, v, target, File([], source.launchable)));
      Write(PutStaged(c, v, target, source));
      Compose(old(root), old(written), [a], [b]);
      Write(PutStaged(c, v, target, File(source.content, launchable)));
      Compose(old(root), old(written), [a] + [b], [d]);
      assert CopyOps(c, v, target, source, launchable) == [a] + [b] + [d];
    }

    method CopyManifest(c: Name, v: string, manifest: File)
      modifies this
      ensures Wrote(old(root), old(written), ManifestOps(c, v, manifest))
      ensures written == old(written) +
        [PutStaged(c, v, MANIFEST, File([], manifest.launchable)), PutStaged(c, v, MANIFEST, manifest)]
    {
      hide Exec;
      Write(PutStaged(c, v, MANIFEST, File([], manifest.launchable)));
      Write(PutStaged(c, v, MANIFEST, manifest));
      Compose(old(root), old(written), [PutStaged(c, v, MANIFEST, File([], manifest.launchable))],
          [PutStaged(c, v, MANIFEST, manifest)]);
      assert ManifestOps(c, v, manifest)
          == [PutStaged(c, v, MANIFEST, File([], manifest.launchable))] + [PutStaged(c, v, MANIFEST, manifest)];
    }

    /** Empties the staging area and copies the package's files into it, each
        checked against the manifest. */
    method StageRelease(env: Env, pkg: Dir, m: Manifest, order: seq<string>) returns (error: Option<Failure>)
      requires MANIFEST in pkg
      modifies this
      ensures Wrote(old(root), old(written), StagePlan(env, pkg, m, order).ops)
      ensures error == StagePlan(env, pkg, m, order).error
    {
      hide Exec, DropOps, CopyOps, ManifestOps;
      var c, v := m.component, m.version;
      RemoveStaging(c, v, order);
      Write(MakeStaging(c, v));
      ghost var start := DropOps(c, v, order) + [MakeStaging(c, v)];
      Compose(old(root), old(written), DropOps(c, v, order), [MakeStaging(c, v)]);
      assert start + [] == start;
      var dir: Dir := map[];
      for i := 0 to |m.files|
        invariant dir == StagedDir(pkg, m.files, i)
        invariant FirstFailure(env, pkg, m.files, 0) == FirstFailure(env, pkg, m.files, i)
        invariant Wrote(old(root), old(written), start + CopiesOps(c, v, pkg, m.files, i))
      {
        var f := m.files[i];
        error := CopyFailure(env, pkg, dir, f);
        if error.Some? {
          return;
        }
        CopyStaged(c, v, f.target, pkg[f.source], f.launchable);
        dir := dir[f.target := File(pkg[f.source].content, f.launchable)];
        ghost var done, copy := CopiesOps(c, v, pkg, m.files, i), CopyOps(c, v, f.target, pkg[f.source], f.launchable);
        Compose(old(root), old(written), start + done, copy);
        AppendAssociates(start, done, copy);
      }
      CopyManifest(c, v, pkg[MANIFEST]);
      Compose(old(root), old(written), start + CopiesOps(c, v, pkg, m.files, |m.files|),
          ManifestOps(c, v, pkg[MANIFEST]));
      error := None;
    }

    method EnsureLauncherStub(c: Name, asset: File)
      modifies this
      ensures Wrote(old(root), old(written), StubOps(c, asset))
      ensures written == old(written) +
        [PutStub(c, File([], asset.launchable)), PutStub(c, asset), PutStub(c, File(asset.content, true))]
    {
      hide Exec;
      ghost var a, b, d := PutStub(c, File([], asset.launchable)), PutStub(c, asset),
          PutStub(c, File(asset.content, true));
      Write(PutStub(c, File([], asset.launchable)));
      Write(PutStub(c, asset));
      Compose(old(root), old(written), [a], [b]);
      Write(PutStub(c, File(asset.content, true)));
      Compose(old(root), old(written), [a] + [b], [d]);
      assert StubOps(c, asset) == [a] + [b] + [d];
    }

    method EnsureLauncherStubs(installerVersion: string, components: seq<Name>) returns (error: Option<Failure>)
      modifies this
      ensures Wrote(old(root), old(written), StubsPlan(old(root), installerVersion, components).ops)
      ensures error == StubsPlan(old(root), installerVersion, components).error
    {
      hide Exec, StubOps, Asset;
      ghost var plan := StubsPlan(root, installerVersion, components);
      ghost var done: seq<Op> := [];
      Nothing(root, written);
      for i := 0 to |components|
        invariant Wrote(old(root), old(written), done)
        invariant var rest := StubsPlan(root, installerVersion, components[i..]);
          plan == Plan(rest.error, done + rest.ops)
      {
        assert components[i..][0] == components[i] && components[i..][1..] == components[i + 1..];
        var asset := Asset(root, installerVersion);
        if asset.None? {
          assert done + [] == done;
          return Some(AssetMissing);
        }
        ghost var ops, before := StubOps(components[i], asset.value), root;
        EnsureLauncherStub(components[i], asset.value);
        Compose(old(root), old(written), done, ops);
        AppendAssociates(done, ops, StubsPlan(Exec(before, ops), installerVersion, components[i + 1..]).ops);
        done := done + ops;
      }
      assert done + [] == done;
      return None;
    }

    method FinishApply(c: Name, v: string, active: Active, installerVersion: string, luck: Luck)
      returns (error: Option<Failure>)
      modifies this
      ensures Wrote(old(root), old(written), FinishPlan(old(root), c, v, active, installerVersion, luck).ops)
      ensures error == FinishPlan(old(root), c, v, active, installerVersion, luck).error
    {
      hide Exec, SwitchOps, StubsPlan;
      SwitchActiveVersion(c, active, v, luck);
      ghost var middle := root;
      error := EnsureLauncherStubs(installerVersion, StubOwners(c));
      Compose(old(root), old(written), SwitchOps(c, active, v, luck),
          StubsPlan(middle, installerVersion, StubOwners(c)).ops);
    }

    method PromoteRelease(m: Manifest, active: Active, installerVersion: string, luck: Luck)
      returns (error: Option<Failure>)
      requires m.version in root.At(m.component).staging
      modifies this
      ensures Wrote(old(root), old(written), PromotePlan(old(root), m, active, installerVersion, luck).ops)
      ensures error == PromotePlan(old(root), m, active, installerVersion, luck).error
    {
      hide Exec, FinishPlan, DropOps, LauncherProblem;
      var c, v := m.component, m.version;
      if c.InstallerName? {
        var launcher := LauncherProblem(root.At(c).staging[v]);
        if launcher.Some? {
          RemoveStaging(c, v, luck.order);
          return Some(LauncherRejected(launcher.value));
        }
      }
      ghost var promoted := Do(root, Promote(c, v));
      SingleWrite(root, Promote(c, v));
      Write(Promote(c, v));
      ghost var finish := FinishPlan(promoted, c, v, active, installerVersion, luck);
      error := FinishApply(c, v, active, installerVersion, luck);
      Compose(old(root), old(written), [Promote(c, v)], finish.ops);
      assert [Promote(c, v)] + finish.ops + [] == [Promote(c, v)] + finish.ops;
      if error.Some? {
        RemoveStaging(c, v, luck.order);
        Compose(old(root), old(written), [Promote(c, v)] + finish.ops, DropOps(c, v, luck.order));
      }
    }

    method InstallRelease(env: Env, pkg: Dir, m: Manifest, active: Active, installerVersion: string, luck: Luck)
      returns (error: Option<Failure>)
      requires MANIFEST in pkg
      modifies this
      ensures Wrote(old(root), old(written), NewReleasePlan(env, old(root), pkg, m, active, installerVersion, luck).ops)
      ensures error == NewReleasePlan(env, old(root), pkg, m, active, installerVersion, luck).error
    {
      hide Exec, StagePlan, PromotePlan, DropOps;
      ghost var stage := StagePlan(env, pkg, m, luck.order);
      error := StageRelease(env, pkg, m, luck.order);
      if error.Some? || m.version !in root.At(m.component).staging {
        RemoveStaging(m.component, m.version, luck.order);
        Compose(old(root), old(written), stage.ops, DropOps(m.component, m.version, luck.order));
        return;
      }
      ghost var promote := PromotePlan(root, m, active, installerVersion, luck);
      error := PromoteRelease(m, active, installerVersion, luck);
      Compose(old(root), old(written), stage.ops, promote.ops);
    }

    method ApplyPackageDirectory(env: Env, pkg: Dir, luck: Luck) returns (error: Option<Failure>)
      modifies this
      ensures Wrote(old(root), old(written), ApplyPlan(env, old(root), pkg, luck).ops)
      ensures error == ApplyPlan(env, old(root), pkg, luck).error
    {
      hide Exec, Inspect, ResolveInstaller, ReleaseProblem, FinishPlan, NewReleasePlan;
      Nothing(root, written);
      if MANIFEST !in pkg {
        return Some(PackageInvalid);
      }
      var loaded := env.load(pkg[MANIFEST].content);
      if loaded.None? {
        return Some(PackageInvalid);
      }
      var m := loaded.value;
      var active := InspectActiveRelease(env, m.component, root.At(m.component));
      var installer := ResolveInstaller(env, root, m.component, m.version, m.minInstaller);
      if installer.Err? {
        return Some(installer.error);
      }
      if m.version in root.At(m.component).releases {
        var problem := ValidateReleaseDirectory(env, m.component, m.version, root.At(m.component).releases[m.version]);
        if problem.Some? {
          return Some(ExistingUnhealthy(problem.value));
        }
        error := FinishApply(m.component, m.version, active, installer.value, luck);
      } else {
        error := InstallRelease(env, pkg, m, active, installer.value, luck);
      }
    }

    method RollbackComponent(env: Env, c: Name, luck: Luck) returns (error: Option<Failure>)
      modifies this
      ensures Wrote(old(root), old(written), RollbackPlan(env, old(root), c, luck).ops)
      ensures error == RollbackPlan(env, old(root), c, luck).error
    {
      hide Exec, ResolveInstaller, ReleaseProblem, StubsPlan, WriteVersionOps, Trimmed;
      Nothing(root, written);
      var t := root.At(c);
      var active := InspectActiveRelease(env, c, t);
      if active.Missing? {
        return Some(ActiveMissing);
      }
      if active.Corrupt? {
        return Some(ActiveCorrupt(active.problem));
      }
      if t.previous.None? {
        return Some(PreviousMissing);
      }
      var previous := ReadTrimmed(t.previous.value);
      if !IsSafeVersionString(previous) {
        return Some(PreviousInvalid);
      }
      if previous == active.version {
        return Some(PreviousIsActive);
      }
      if previous !in t.releases {
        return Some(PreviousReleaseMissing);
      }
      var problem := ValidateReleaseDirectory(env, c, previous, t.releases[previous]);
      if problem.Some? {
        return Some(PreviousUnhealthy(problem.value));
      }
      ghost var swap := SwapOps(c, active.version, previous, luck);
      WriteVersionFile(c, PreviousVersion, active.version, luck.previousRefused);
      WriteVersionFile(c, ActiveVersion, previous, luck.activeRefused);
      Compose(old(root), old(written), WriteVersionOps(c, PreviousVersion, active.version, luck.previousRefused),
              WriteVersionOps(c, ActiveVersion, previous, luck.activeRefused));
      var installer := ResolveInstaller(env, root, c, previous, "0.0.0");
      if installer.Err? {
        return Some(installer.error);
      }
      ghost var stubs := StubsPlan(root, installer.value, StubOwners(c));
      error := EnsureLauncherStubs(installer.value, StubOwners(c));
      Compose(old(root), old(written), swap, stubs.ops);
    }
  }

  lemma Nothing(r: Root, w: seq<Op>)
    ensures Exec(r, []) == r && w + [] == w
  {
  }

  lemma SingleWrite(r: Root, op: Op)
    ensures Exec(r, [op]) == Do(r, op)
  {
    ExecSnoc(r, [], op);
    assert [] + [op] == [op];
  }
}
