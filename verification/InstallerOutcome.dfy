/**
 What an apply and a rollback come to, told from the files on disk alone: when
 they succeed, what they leave, why they fail, and that a rollback undoes an
 apply.
 */
module InstallerOutcome {
  import opened Prelude
  import opened InstallerDisk
  import opened InstallerOperations
  import opened InstallerSafety
  import opened InstallerRetry
  import opened InstallerStubs

  /** The active version file names release `v`, which is there and in order. */
  ghost predicate Runs(env: Env, c: Name, t: Tree, v: string) {
    && t.active.Some? && Trimmed(t.active.value) == v && NamesRelease(env, c, t, v)
  }

  ghost predicate NamesRelease(env: Env, c: Name, t: Tree, v: string) {
    && v != "" && v != "." && v != ".." && '/' !in v && '\\' !in v
    && v in t.releases && IsRelease(env, c, v, t.releases[v])
  }

  /** `a` is not an older version than `b`. */
  predicate AtLeast(a: Semver, b: Semver) {
    if a.major != b.major then a.major > b.major
    else if a.minor != b.minor then a.minor > b.minor
    else a.patch >= b.patch
  }

  /** The installer's own package needs no installer; any other needs one that
      is in order and not older than asked for. */
  ghost predicate Supported(env: Env, r: Root, c: Name, minimum: string) {
    c == InstallerName
    || (r.installer.active.Some?
        && var v := Trimmed(r.installer.active.value);
           && Runs(env, InstallerName, r.installer, v)
           && env.semver(v).Some? && env.semver(minimum).Some?
           && AtLeast(env.semver(v).value, env.semver(minimum).value))
  }

  lemma InspectedRuns(env: Env, c: Name, t: Tree)
    ensures Inspect(env, c, t).Installed? <==> t.active.Some? && Runs(env, c, t, Trimmed(t.active.value))
    ensures Inspect(env, c, t).Installed? ==> Inspect(env, c, t).version == Trimmed(t.active.value)
  {
    InspectsExactly(env, c, t);
    hide Trimmed, Inspect, IsRelease, FailsFirst;
  }

  /** What the installer lacks to support another component's package. */
  ghost predicate Lacks(env: Env, r: Root, minimum: string, x: Failure) {
    var v := if r.installer.active.Some? then Trimmed(r.installer.active.value) else "";
    var runs := Runs(env, InstallerName, r.installer, v);
    match x
    case InstallerNotInstalled => r.installer.active.None?
    case InstallerCorrupt(problem) =>
      r.installer.active.Some? && !runs && Inspect(env, InstallerName, r.installer) == Corrupt(problem)
    case InstallerVersionInvalid => runs && env.semver(v).None?
    case MinimumInvalid => runs && env.semver(v).Some? && env.semver(minimum).None?
    case InstallerTooOld =>
      && runs && env.semver(v).Some? && env.semver(minimum).Some?
      && !AtLeast(env.semver(v).value, env.semver(minimum).value)
    case _ => false
  }

  lemma ResolvesExactly(env: Env, r: Root, c: Name, version: string, minimum: string)
    ensures match ResolveInstaller(env, r, c, version, minimum)
      case Ok(v) =>
        && Supported(env, r, c, minimum)
        && v == if c == InstallerName then version else Trimmed(r.installer.active.value)
      case Err(x) => !Supported(env, r, c, minimum) && c != InstallerName && Lacks(env, r, minimum, x)
  {
    InspectedRuns(env, InstallerName, r.installer);
    InspectsExactly(env, InstallerName, r.installer);
    hide Inspect, Runs, Trimmed, IsRelease, FailsFirst;
  }

  // ------------------------------------------------------- when an apply succeeds

  predicate FileIsThere(env: Env, pkg: Dir, f: ManifestFile) {
    && f.source in pkg
    && |pkg[f.source].content| == f.size && env.sha256(pkg[f.source].content) == f.sha256
  }

  /** No target is a directory on the way to another. */
  predicate Separate(files: seq<ManifestFile>) {
    forall i, j :: 0 <= i < |files| && 0 <= j < |files| ==> !(files[i].target + "/" <= files[j].target)
  }

  lemma {:induction false} StagedTargets(pkg: Dir, files: seq<ManifestFile>, k: nat)
    requires k <= |files| && forall i :: 0 <= i < k ==> files[i].source in pkg
    ensures forall p :: p in StagedDir(pkg, files, k) <==> exists i :: 0 <= i < k && files[i].target == p
  {
    if k > 0 {
      StagedTargets(pkg, files, k - 1);
    }
  }

  lemma {:induction false} FirstFailureFound(env: Env, pkg: Dir, files: seq<ManifestFile>, i: nat)
    requires i <= |files|
    ensures var (k, failure) := FirstFailure(env, pkg, files, i);
      && i <= k
      && (forall j :: i <= j < k ==> CopyFailure(env, pkg, StagedDir(pkg, files, j), files[j]).None?)
      && (failure.Some? ==> k < |files| && CopyFailure(env, pkg, StagedDir(pkg, files, k), files[k]) == failure)
    decreases |files| - i
  {
    hide CopyFailure;
    if i < |files| && CopyFailure(env, pkg, StagedDir(pkg, files, i), files[i]).None? {
      FirstFailureFound(env, pkg, files, i + 1);
    }
  }

  lemma CopyBlocked(env: Env, pkg: Dir, files: seq<ManifestFile>, k: nat)
    requires k < |files| && forall i :: 0 <= i < k ==> files[i].source in pkg
    ensures Blocked(StagedDir(pkg, files, k), files[k].target) <==>
      exists i :: 0 <= i < k
        && (files[i].target + "/" <= files[k].target || files[k].target + "/" <= files[i].target)
  {
    StagedTargets(pkg, files, k);
    var dir, target := StagedDir(pkg, files, k), files[k].target;
    hide StagedDir;
    if Blocked(dir, target) {
      var p :| p in dir && (p + "/" <= target || target + "/" <= p);
      var i :| 0 <= i < k && files[i].target == p;
    }
    if i :| 0 <= i < k && (files[i].target + "/" <= target || target + "/" <= files[i].target) {
      assert files[i].target in dir;
    }
  }

  /** Everything can be staged exactly if every file is there as the manifest
      says and no target stands in the way of another. */
  lemma StagesExactly(env: Env, pkg: Dir, files: seq<ManifestFile>)
    ensures FirstFailure(env, pkg, files, 0).1.None? <==>
      (forall i :: 0 <= i < |files| ==> FileIsThere(env, pkg, files[i])) && Separate(files)
  {
    FirstFailureFound(env, pkg, files, 0);
    var (k, failure) := FirstFailure(env, pkg, files, 0);
    hide FirstFailure, StagedDir, Blocked;
    forall j | 0 <= j < k ensures FileIsThere(env, pkg, files[j]) {
      assert CopyFailure(env, pkg, StagedDir(pkg, files, j), files[j]).None?;
    }
    forall j | 0 <= j <= k && j < |files|
      ensures Blocked(StagedDir(pkg, files, j), files[j].target) <==>
        exists i :: 0 <= i < j
          && (files[i].target + "/" <= files[j].target || files[j].target + "/" <= files[i].target)
    {
      CopyBlocked(env, pkg, files, j);
    }
    if failure.None? {
      forall i, j | 0 <= i < |files| && 0 <= j < |files| ensures !(files[i].target + "/" <= files[j].target) {
        var late, early := if i < j then j else i, if i < j then i else j;
        assert CopyFailure(env, pkg, StagedDir(pkg, files, late), files[late]).None?;
        assert !Blocked(StagedDir(pkg, files, late), files[late].target);
      }
    }
  }

  /** A file is to become the launcher, and is marked launchable or not. */
  ghost predicate ShipsLauncher(files: seq<ManifestFile>, launchable: bool) {
    exists i :: 0 <= i < |files| && files[i].target == LAUNCHER && files[i].launchable == launchable
  }

  lemma LauncherStaged(pkg: Dir, m: Manifest)
    requires MANIFEST in pkg && Formed(m) && forall i :: 0 <= i < |m.files| ==> m.files[i].source in pkg
    ensures LauncherProblem(StagedRelease(pkg, m)).None? <==> ShipsLauncher(m.files, true)
  {
    StagedTargets(pkg, m.files, |m.files|);
    forall i | 0 <= i < |m.files|
      ensures m.files[i].target in StagedDir(pkg, m.files, |m.files|)
      ensures StagedDir(pkg, m.files, |m.files|)[m.files[i].target]
           == File(pkg[m.files[i].source].content, m.files[i].launchable)
    {
      StagedAt(pkg, m.files, |m.files|, i);
    }
    hide StagedDir, PathSegment, UnderMeta;
  }

  /** The package can be applied. */
  ghost predicate Applies(env: Env, r: Root, pkg: Dir) {
    && MANIFEST in pkg && env.load(pkg[MANIFEST].content).Some?
    && var m := env.load(pkg[MANIFEST].content).value;
       var t := r.At(m.component);
       && Supported(env, r, m.component, m.minInstaller)
       && (m.version in t.releases ==> IsRelease(env, m.component, m.version, t.releases[m.version]))
       && (m.version !in t.releases ==>
             && (forall i :: 0 <= i < |m.files| ==> FileIsThere(env, pkg, m.files[i]))
             && Separate(m.files)
             && (m.component == InstallerName ==> ShipsLauncher(m.files, true)))
  }

  /** An apply succeeds exactly if an installer in order supports the package and
      its release is there in order, or else all its files are in the package as
      the manifest says, none in the way of another, with a launchable launcher
      if it is the installer's. */
  lemma AppliesExactly(env: Env, r: Root, pkg: Dir, luck: Luck)
    requires StrictLoader(env)
    ensures ApplyPlan(env, r, pkg, luck).error.None? <==> Applies(env, r, pkg)
  {
    ApplyExactly(env, r, pkg, luck);
    hide ApplyPlan;
    if MANIFEST in pkg && env.load(pkg[MANIFEST].content).Some? {
      var m := env.load(pkg[MANIFEST].content).value;
      var t := r.At(m.component);
      ResolvesExactly(env, r, m.component, m.version, m.minInstaller);
      StagesExactly(env, pkg, m.files);
      assert Formed(m);
      if m.version in t.releases {
        ValidatesExactly(env, m.component, m.version, t.releases[m.version]);
      } else if forall i :: 0 <= i < |m.files| ==> FileIsThere(env, pkg, m.files[i]) {
        LauncherStaged(pkg, m);
      }
      hide Supported, IsRelease, Separate, StagedRelease, FirstFailure, ResolveInstaller, ReleaseProblem,
           LauncherProblem, Formed;
    }
  }

  /** Why a file cannot be copied over those before it. */
  predicate CannotCopy(env: Env, pkg: Dir, files: seq<ManifestFile>, k: nat, x: Failure)
    requires k < |files|
  {
    var f := files[k];
    var sized := f.source in pkg && |pkg[f.source].content| == f.size;
    match x
    case SourceMissing => f.source !in pkg
    case SourceSize => f.source in pkg && !sized
    case SourceSha => sized && env.sha256(pkg[f.source].content) != f.sha256
    case TargetBlocked =>
      && FileIsThere(env, pkg, f)
      && exists i :: 0 <= i < k && (files[i].target + "/" <= f.target || f.target + "/" <= files[i].target)
    case _ => false
  }

  /** The first file that cannot be copied, and why. */
  ghost predicate StopsStaging(env: Env, pkg: Dir, files: seq<ManifestFile>, x: Failure) {
    exists k ::
      && 0 <= k < |files| && CannotCopy(env, pkg, files, k, x)
      && forall j, y :: 0 <= j < k ==> !CannotCopy(env, pkg, files, j, y)
  }

  lemma CopiesExactly(env: Env, pkg: Dir, files: seq<ManifestFile>, k: nat)
    requires k < |files| && forall i :: 0 <= i < k ==> files[i].source in pkg
    ensures match CopyFailure(env, pkg, StagedDir(pkg, files, k), files[k])
      case None => forall y :: !CannotCopy(env, pkg, files, k, y)
      case Some(x) => CannotCopy(env, pkg, files, k, x)
  {
    CopyBlocked(env, pkg, files, k);
    hide Blocked, StagedDir;
  }

  lemma StagingStops(env: Env, pkg: Dir, files: seq<ManifestFile>)
    requires FirstFailure(env, pkg, files, 0).1.Some?
    ensures StopsStaging(env, pkg, files, FirstFailure(env, pkg, files, 0).1.value)
  {
    FirstFailureFound(env, pkg, files, 0);
    var (k, failure) := FirstFailure(env, pkg, files, 0);
    forall j | 0 <= j < k ensures files[j].source in pkg {
      assert CopyFailure(env, pkg, StagedDir(pkg, files, j), files[j]).None?;
    }
    hide FirstFailure, CopyFailure, CannotCopy, StagedDir;
    forall j | 0 <= j <= k
      ensures match CopyFailure(env, pkg, StagedDir(pkg, files, j), files[j])
        case None => forall y :: !CannotCopy(env, pkg, files, j, y)
        case Some(x) => CannotCopy(env, pkg, files, j, x)
    {
      CopiesExactly(env, pkg, files, j);
    }
  }

  /** Why an apply fails, after the checks before had passed. */
  ghost predicate StopsApply(env: Env, r: Root, pkg: Dir, x: Failure) {
    var loaded := if MANIFEST in pkg then env.load(pkg[MANIFEST].content) else None;
    if loaded.None? then x == PackageInvalid
    else
      var m := loaded.value;
      var t := r.At(m.component);
      if !Supported(env, r, m.component, m.minInstaller) then Lacks(env, r, m.minInstaller, x)
      else if m.version in t.releases then
        && x.ExistingUnhealthy? && !IsRelease(env, m.component, m.version, t.releases[m.version])
        && FailsFirst(env, m.component, m.version, t.releases[m.version], x.problem)
      else
        || StopsStaging(env, pkg, m.files, x)
        || (m.component == InstallerName && x == LauncherRejected(LauncherMissing)
            && forall i :: 0 <= i < |m.files| ==> m.files[i].target != LAUNCHER)
        || (m.component == InstallerName && x == LauncherRejected(LauncherNotLaunchable)
            && ShipsLauncher(m.files, false))
  }

  lemma LauncherRefused(pkg: Dir, m: Manifest)
    requires MANIFEST in pkg && Formed(m) && forall i :: 0 <= i < |m.files| ==> m.files[i].source in pkg
    requires LauncherProblem(StagedRelease(pkg, m)).Some?
    ensures match LauncherProblem(StagedRelease(pkg, m)).value
      case LauncherMissing => forall i :: 0 <= i < |m.files| ==> m.files[i].target != LAUNCHER
      case LauncherNotLaunchable => ShipsLauncher(m.files, false)
      case _ => false
  {
    StagedTargets(pkg, m.files, |m.files|);
    forall i | 0 <= i < |m.files|
      ensures m.files[i].target in StagedDir(pkg, m.files, |m.files|)
      ensures StagedDir(pkg, m.files, |m.files|)[m.files[i].target]
           == File(pkg[m.files[i].source].content, m.files[i].launchable)
    {
      StagedAt(pkg, m.files, |m.files|, i);
    }
    hide StagedDir, PathSegment, UnderMeta;
  }

  lemma NewReleaseStops(env: Env, r: Root, pkg: Dir, m: Manifest, active: Active, resolved: string, luck: Luck)
    requires MANIFEST in pkg && Formed(m) && m.version !in r.At(m.component).releases
    requires ResolveInstaller(env, r, m.component, m.version, m.minInstaller) == Ok(resolved)
    ensures var error := NewReleasePlan(env, r, pkg, m, active, resolved, luck).error;
      FirstFailure(env, pkg, m.files, 0).1.Some? ==> error == FirstFailure(env, pkg, m.files, 0).1
    ensures var error := NewReleasePlan(env, r, pkg, m, active, resolved, luck).error;
      error.Some? && FirstFailure(env, pkg, m.files, 0).1.None? ==>
        && m.component == InstallerName && LauncherProblem(StagedRelease(pkg, m)).Some?
        && error == Some(LauncherRejected(LauncherProblem(StagedRelease(pkg, m)).value))
  {
    var staged := Exec(r, StagePlan(env, pkg, m, luck.order).ops);
    if FirstFailure(env, pkg, m.files, 0).1.None? {
      StagePromoted(env, r, pkg, m, luck.order);
      if !m.component.InstallerName? {
        InChargeThere(env, r, m);
        assert Asset(staged, resolved) == Asset(r, resolved);
      }
      hide Exec, StagePlan, StagedRelease, Inspect, DropOps, LauncherProblem;
      if !m.component.InstallerName? || LauncherProblem(staged.At(m.component).staging[m.version]).None? {
        PromoteOutcome(staged, m, active, resolved, luck);
      }
      hide FinishPlan;
    }
  }

  lemma ExistingStops(env: Env, r: Root, pkg: Dir, m: Manifest, luck: Luck)
    requires MANIFEST in pkg && env.load(pkg[MANIFEST].content) == Some(m) && Formed(m)
    requires ResolveInstaller(env, r, m.component, m.version, m.minInstaller).Ok?
    requires m.version in r.At(m.component).releases && ApplyPlan(env, r, pkg, luck).error.Some?
    ensures var dir := r.At(m.component).releases[m.version];
      var x := ApplyPlan(env, r, pkg, luck).error.value;
      && x.ExistingUnhealthy? && !IsRelease(env, m.component, m.version, dir)
      && FailsFirst(env, m.component, m.version, dir, x.problem)
  {
    var dir := r.At(m.component).releases[m.version];
    ValidatesExactly(env, m.component, m.version, dir);
    if Healthy(env, m.component, m.version, dir) {
      hide ApplyPlan, Outcome, IsRelease, FailsFirst, ResolveInstaller, ReleaseProblem, Formed;
      ApplyOutcome(env, r, pkg, m, luck);
    } else {
      hide Inspect, IsRelease, FailsFirst, ResolveInstaller, ReleaseProblem, FinishPlan, Formed;
    }
  }

  lemma NewStops(env: Env, r: Root, pkg: Dir, m: Manifest, luck: Luck)
    requires MANIFEST in pkg && env.load(pkg[MANIFEST].content) == Some(m) && Formed(m)
    requires ResolveInstaller(env, r, m.component, m.version, m.minInstaller).Ok?
    requires m.version !in r.At(m.component).releases && ApplyPlan(env, r, pkg, luck).error.Some?
    ensures var x := ApplyPlan(env, r, pkg, luck).error.value;
      || StopsStaging(env, pkg, m.files, x)
      || (m.component == InstallerName && x == LauncherRejected(LauncherMissing)
          && forall i :: 0 <= i < |m.files| ==> m.files[i].target != LAUNCHER)
      || (m.component == InstallerName && x == LauncherRejected(LauncherNotLaunchable)
          && ShipsLauncher(m.files, false))
  {
    var active := Inspect(env, m.component, r.At(m.component));
    var resolved := ResolveInstaller(env, r, m.component, m.version, m.minInstaller).value;
    NewReleaseStops(env, r, pkg, m, active, resolved, luck);
    assert ApplyPlan(env, r, pkg, luck) == NewReleasePlan(env, r, pkg, m, active, resolved, luck);
    hide ApplyPlan, NewReleasePlan, Inspect, ResolveInstaller, StagedRelease, FirstFailure, LauncherProblem, Formed,
         StopsStaging;
    if FirstFailure(env, pkg, m.files, 0).1.Some? {
      StagingStops(env, pkg, m.files);
    } else {
      StagesExactly(env, pkg, m.files);
      LauncherRefused(pkg, m);
    }
  }

  /** A failing apply reports the first check that failed. */
  lemma ApplyStops(env: Env, r: Root, pkg: Dir, luck: Luck)
    requires StrictLoader(env) && ApplyPlan(env, r, pkg, luck).error.Some?
    ensures StopsApply(env, r, pkg, ApplyPlan(env, r, pkg, luck).error.value)
  {
    if MANIFEST in pkg && env.load(pkg[MANIFEST].content).Some? {
      var m := env.load(pkg[MANIFEST].content).value;
      assert Formed(m);
      ResolvesExactly(env, r, m.component, m.version, m.minInstaller);
      var installer := ResolveInstaller(env, r, m.component, m.version, m.minInstaller);
      assert installer.Err? ==> ApplyPlan(env, r, pkg, luck) == Plan(Some(installer.error), []);
      hide ApplyPlan, ResolveInstaller, Supported, Lacks, IsRelease, FailsFirst, StopsStaging, ShipsLauncher, Formed;
      if installer.Ok? && m.version in r.At(m.component).releases {
        ExistingStops(env, r, pkg, m, luck);
      } else if installer.Ok? {
        NewStops(env, r, pkg, m, luck);
      }
    }
  }

  // ------------------------------------------------------- what an apply leaves

  /** The directory holds the manifest and the listed files of the package, and
      nothing else. */
  ghost predicate CopiedFrom(pkg: Dir, m: Manifest, dir: Dir) {
    && MANIFEST in pkg && MANIFEST in dir && dir[MANIFEST] == pkg[MANIFEST]
    && (forall p :: p in dir ==> p == MANIFEST || exists i :: 0 <= i < |m.files| && m.files[i].target == p)
    && (forall i :: 0 <= i < |m.files| ==>
          var f := m.files[i];
          && f.source in pkg && f.target in dir
          && dir[f.target] == File(pkg[f.source].content, f.launchable))
  }

  lemma StagedIsCopy(pkg: Dir, m: Manifest)
    requires MANIFEST in pkg && Formed(m) && forall i :: 0 <= i < |m.files| ==> m.files[i].source in pkg
    ensures CopiedFrom(pkg, m, StagedRelease(pkg, m))
  {
    StagedTargets(pkg, m.files, |m.files|);
    forall i | 0 <= i < |m.files|
      ensures m.files[i].target in StagedDir(pkg, m.files, |m.files|)
      ensures StagedDir(pkg, m.files, |m.files|)[m.files[i].target]
           == File(pkg[m.files[i].source].content, m.files[i].launchable)
      ensures m.files[i].target != MANIFEST
    {
      StagedAt(pkg, m.files, |m.files|, i);
      assert m.files[i] in m.files && UnderMeta(MANIFEST);
    }
    hide StagedDir, PathSegment, UnderMeta;
  }

  /** What was the active version before, if it ran and was another one. */
  ghost predicate Displaced(env: Env, c: Name, t: Tree, v: string, a: string) { Runs(env, c, t, a) && a != v }

  lemma SwitchedVersions(env: Env, c: Name, t: Tree, releases: map<string, Dir>, v: string)
    ensures var s := Switched(t.(releases := releases), Inspect(env, c, t), v);
      && s.active == Some(v + "\n") && s.releases == releases && s.stub == t.stub
      && (forall a :: Displaced(env, c, t, v, a) ==> s.previous == Some(a + "\n"))
      && ((forall a :: !Displaced(env, c, t, v, a)) ==> s.previous == t.previous)
  {
    InspectedRuns(env, c, t);
    hide Inspect, NamesRelease, Trimmed;
    if Inspect(env, c, t).Installed? && Inspect(env, c, t).version != v {
      assert Displaced(env, c, t, v, Inspect(env, c, t).version);
    }
  }

  /** The release of an accepted package. */
  lemma AcceptedIsRelease(env: Env, r: Root, pkg: Dir, m: Manifest)
    requires MANIFEST in pkg && Accepts(env, r, pkg, m) && Formed(m)
    ensures var releases := Released(r.At(m.component), m.version, StagedRelease(pkg, m));
      && IsRelease(env, m.component, m.version, releases[m.version])
      && (m.version !in r.At(m.component).releases ==> CopiedFrom(pkg, m, releases[m.version]))
  {
    var t := r.At(m.component);
    ValidatesExactly(env, m.component, m.version, Released(t, m.version, StagedRelease(pkg, m))[m.version]);
    if m.version !in t.releases {
      StagesExactly(env, pkg, m.files);
      StagedValidates(env, pkg, m);
      StagedIsCopy(pkg, m);
    }
    hide StagedRelease, IsRelease, FirstFailure, ReleaseProblem, LauncherProblem, CopiedFrom, FailsFirst, Separate,
         ResolveInstaller;
  }

  /** The component's releases and versions after a successful apply. */
  ghost predicate LeftBy(env: Env, r: Root, pkg: Dir, m: Manifest, s: Tree) {
    var c, v, t := m.component, m.version, r.At(m.component);
    && s.active == Some(v + "\n")
    && (forall a :: Displaced(env, c, t, v, a) ==> s.previous == Some(a + "\n"))
    && ((forall a :: !Displaced(env, c, t, v, a)) ==> s.previous == t.previous)
    && v in s.releases && IsRelease(env, c, v, s.releases[v]) && s.releases - {v} == t.releases - {v}
    && (if v in t.releases then s.releases[v] == t.releases[v] else CopiedFrom(pkg, m, s.releases[v]))
  }

  lemma SwitchedLeft(env: Env, r: Root, pkg: Dir, m: Manifest)
    requires MANIFEST in pkg && Accepts(env, r, pkg, m) && Formed(m)
    ensures LeftBy(env, r, pkg, m, SwitchedTree(env, r, pkg, m))
  {
    var c, v, t := m.component, m.version, r.At(m.component);
    AcceptedIsRelease(env, r, pkg, m);
    var releases := Released(t, v, StagedRelease(pkg, m));
    SwitchedVersions(env, c, t, releases, v);
    assert releases - {v} == t.releases - {v};
    hide StagedRelease, IsRelease, CopiedFrom, Switched, Inspect, Displaced, Accepts, Formed;
  }

  /** A successful apply makes the version active, over a release that validates:
      the one that was there, or a copy of the package. The version that ran
      before, if another, becomes the previous one; everything else stays. */
  lemma AppliedVersions(env: Env, r: Root, pkg: Dir, luck: Luck)
    requires StrictLoader(env) && ApplyPlan(env, r, pkg, luck).error.None?
    ensures var m := env.load(pkg[MANIFEST].content).value;
      var c, v := m.component, m.version;
      var t, s := r.At(c), Exec(r, ApplyPlan(env, r, pkg, luck).ops).At(c);
      && s.active == Some(v + "\n")
      && (forall a :: Runs(env, c, t, a) && a != v ==> s.previous == Some(a + "\n"))
      && ((forall a :: Runs(env, c, t, a) ==> a == v) ==> s.previous == t.previous)
      && v in s.releases && IsRelease(env, c, v, s.releases[v]) && s.releases - {v} == t.releases - {v}
      && (if v in t.releases then s.releases[v] == t.releases[v] else CopiedFrom(pkg, m, s.releases[v]))
  {
    ApplyExactly(env, r, pkg, luck);
    var m := env.load(pkg[MANIFEST].content).value;
    assert Formed(m);
    ApplyOutcome(env, r, pkg, m, luck);
    SwitchedLeft(env, r, pkg, m);
    var s := Exec(r, ApplyPlan(env, r, pkg, luck).ops);
    assert VisibleTree(s.At(m.component)) == Outcome(env, r, pkg, m).At(m.component);
    hide ApplyPlan, Exec, Accepts, IsRelease, CopiedFrom, SwitchedTree, Inspect, Runs, Formed, Asset, StubOwners;
    assert LeftBy(env, r, pkg, m, s.At(m.component));
    hide Outcome;
    forall a ensures Displaced(env, m.component, r.At(m.component), m.version, a) <==>
        Runs(env, m.component, r.At(m.component), a) && a != m.version {
    }
  }

  /** The launcher in the release of the installer whose version is given. */
  ghost predicate IsLauncherOf(r: Root, v: string, stub: Option<File>) {
    && v in r.installer.releases && LAUNCHER in r.installer.releases[v]
    && stub == Some(File(r.installer.releases[v][LAUNCHER].content, true))
  }

  /** The other components keep releases and versions. Stubs that are refreshed,
      all by the installer and otherwise the component's own, are executable
      copies of the active installer's launcher; the others stay as they were. */
  lemma AppliedElsewhere(env: Env, r: Root, pkg: Dir, luck: Luck)
    requires StrictLoader(env) && ApplyPlan(env, r, pkg, luck).error.None?
    ensures var m := env.load(pkg[MANIFEST].content).value;
      var s := Exec(r, ApplyPlan(env, r, pkg, luck).ops);
      && (m.component != InstallerName ==> r.installer.active.Some?)
      && (forall d :: d != m.component ==>
            && s.At(d).releases == r.At(d).releases
            && s.At(d).active == r.At(d).active && s.At(d).previous == r.At(d).previous)
      && (forall d :: m.component == InstallerName || d == m.component ==>
            IsLauncherOf(s, if m.component == InstallerName then m.version else Trimmed(r.installer.active.value),
                         s.At(d).stub))
      && (forall d :: m.component != InstallerName && d != m.component ==> s.At(d).stub == r.At(d).stub)
  {
    ApplyExactly(env, r, pkg, luck);
    var m := env.load(pkg[MANIFEST].content).value;
    assert Formed(m);
    ApplyOutcome(env, r, pkg, m, luck);
    OutcomeElsewhere(env, r, pkg, m);
    var s := Exec(r, ApplyPlan(env, r, pkg, luck).ops);
    assert forall d :: VisibleTree(s.At(d)) == Outcome(env, r, pkg, m).At(d);
    hide ApplyPlan, Exec, Outcome, Accepts, Formed, Trimmed, IsLauncherOf;
    assert s.installer.releases == Outcome(env, r, pkg, m).installer.releases by {
      assert VisibleTree(s.At(InstallerName)) == Outcome(env, r, pkg, m).At(InstallerName);
    }
    forall v, d ensures IsLauncherOf(s, v, s.At(d).stub) <==>
        IsLauncherOf(Outcome(env, r, pkg, m), v, Outcome(env, r, pkg, m).At(d).stub) {
      SameLaunchers(s, Outcome(env, r, pkg, m), v, s.At(d).stub);
    }
  }

  lemma SameLaunchers(r: Root, s: Root, v: string, stub: Option<File>)
    requires r.installer.releases == s.installer.releases
    ensures IsLauncherOf(r, v, stub) <==> IsLauncherOf(s, v, stub)
  {
  }

  lemma OutcomeElsewhere(env: Env, r: Root, pkg: Dir, m: Manifest)
    requires MANIFEST in pkg && Accepts(env, r, pkg, m) && Formed(m)
    ensures var s := Outcome(env, r, pkg, m);
      && (m.component != InstallerName ==> r.installer.active.Some?)
      && (forall d :: d != m.component ==>
            && s.At(d).releases == r.At(d).releases
            && s.At(d).active == r.At(d).active && s.At(d).previous == r.At(d).previous)
      && (forall d :: m.component == InstallerName || d == m.component ==>
            IsLauncherOf(s, if m.component == InstallerName then m.version else Trimmed(r.installer.active.value),
                         s.At(d).stub))
      && (forall d :: m.component != InstallerName && d != m.component ==> s.At(d).stub == r.At(d).stub)
  {
    var c, v := m.component, m.version;
    var t := SwitchedTree(env, r, pkg, m);
    var before := r.With(c, t);
    AcceptedRelease(env, r, pkg, m);
    InstallerOwnsAll();
    assert c in StubOwners(c);
    assert t.releases == Released(r.At(c), v, StagedRelease(pkg, m)) by {
      SwitchKeeps(r.At(c).(releases := Released(r.At(c), v, StagedRelease(pkg, m))), Inspect(env, c, r.At(c)), v);
    }
    if c.InstallerName? {
      AssetThere(env, before, v);
    } else {
      InChargeThere(env, r, m);
      InspectedRuns(env, InstallerName, r.installer);
    }
    hide Inspect, StagedRelease, Accepts, SwitchedTree, Trimmed, Healthy, Formed;
    assert Outcome(env, r, pkg, m).installer.releases == before.installer.releases by {
      assert Outcome(env, r, pkg, m).At(InstallerName) == Outcome(env, r, pkg, m).installer;
    }
  }

  // ------------------------------------------------------- rollback

  /** The previous version file names another release than the one that runs,
      and that release is in order. */
  ghost predicate GoesBack(env: Env, c: Name, t: Tree, from: string, to: string) {
    && Runs(env, c, t, from)
    && t.previous.Some? && Trimmed(t.previous.value) == to && NamesRelease(env, c, t, to) && to != from
  }

  /** What stands in the way of going back. */
  ghost predicate Hinders(env: Env, c: Name, t: Tree, x: Failure) {
    var runs := t.active.Some? && Runs(env, c, t, Trimmed(t.active.value));
    var text := if t.previous.Some? then Trimmed(t.previous.value) else "";
    var safe := text != "" && text != "." && text != ".." && '/' !in text && '\\' !in text;
    match x
    case ActiveMissing => t.active.None?
    case ActiveCorrupt(problem) => t.active.Some? && !runs && Inspect(env, c, t) == Corrupt(problem)
    case PreviousMissing => runs && t.previous.None?
    case PreviousInvalid => runs && t.previous.Some? && !safe
    case PreviousIsActive => runs && t.previous.Some? && safe && text == Trimmed(t.active.value)
    case PreviousReleaseMissing =>
      runs && t.previous.Some? && safe && text != Trimmed(t.active.value) && text !in t.releases
    case PreviousUnhealthy(problem) =>
      && runs && t.previous.Some? && safe && text != Trimmed(t.active.value) && text in t.releases
      && FailsFirst(env, c, text, t.releases[text], problem) && !IsRelease(env, c, text, t.releases[text])
    case _ => false
  }

  lemma TargetFound(env: Env, c: Name, t: Tree)
    requires RollbackTarget(env, c, t).Ok?
    ensures t.active.Some? && GoesBack(env, c, t, Trimmed(t.active.value), RollbackTarget(env, c, t).value)
  {
    InspectedRuns(env, c, t);
    var to := Trimmed(t.previous.value);
    ValidatesExactly(env, c, to, t.releases[to]);
    hide Trimmed, Inspect, IsRelease, FailsFirst, ReleaseProblem;
  }

  lemma TargetNeeded(env: Env, c: Name, t: Tree, from: string, to: string)
    requires GoesBack(env, c, t, from, to)
    ensures RollbackTarget(env, c, t) == Ok(to) && Inspect(env, c, t) == Installed(from)
  {
    InspectedRuns(env, c, t);
    ValidatesExactly(env, c, to, t.releases[to]);
    hide Trimmed, Inspect, IsRelease, FailsFirst, ReleaseProblem;
  }

  lemma TargetHindered(env: Env, c: Name, t: Tree)
    requires RollbackTarget(env, c, t).Err?
    ensures Hinders(env, c, t, RollbackTarget(env, c, t).error)
  {
    InspectedRuns(env, c, t);
    if Inspect(env, c, t).Installed? {
      if t.previous.Some? && Trimmed(t.previous.value) in t.releases {
        ValidatesExactly(env, c, Trimmed(t.previous.value), t.releases[Trimmed(t.previous.value)]);
      }
      hide Trimmed, Inspect, IsRelease, FailsFirst, ReleaseProblem, Runs;
    } else {
      InspectsExactly(env, c, t);
      hide Trimmed, Inspect, IsRelease, FailsFirst, ReleaseProblem, Runs;
    }
  }

  lemma TargetExactly(env: Env, c: Name, t: Tree)
    ensures match RollbackTarget(env, c, t)
      case Ok(to) => t.active.Some? && GoesBack(env, c, t, Trimmed(t.active.value), to)
      case Err(x) => Hinders(env, c, t, x) && forall from, to :: !GoesBack(env, c, t, from, to)
  {
    if RollbackTarget(env, c, t).Ok? {
      TargetFound(env, c, t);
    } else {
      TargetHindered(env, c, t);
      forall from, to | GoesBack(env, c, t, from, to) ensures RollbackTarget(env, c, t) == Ok(to) {
        TargetNeeded(env, c, t, from, to);
      }
    }
    hide RollbackTarget, GoesBack, Hinders, Trimmed;
  }

  lemma RollbackUnsupported(env: Env, r: Root, c: Name, luck: Luck)
    requires RollbackTarget(env, c, r.At(c)).Ok? && RollbackInstaller(env, r, c).Err?
    ensures RollbackPlan(env, r, c, luck).error == Some(RollbackInstaller(env, r, c).error)
  {
    var from, to := Inspect(env, c, r.At(c)).version, RollbackTarget(env, c, r.At(c)).value;
    SwapEffect(r, c, from, to, luck);
    RollbackInstallerKept(env, r, c, Swapped(r.At(c), from, to), to);
    hide Exec, Inspect, ResolveInstaller, SwapOps, StubsPlan, Swapped;
  }

  /** A rollback succeeds exactly if there is a version to go back to and, for
      another component than the installer, an installer in order supports it. */
  lemma RollsBackExactly(env: Env, r: Root, c: Name, luck: Luck)
    ensures var error := RollbackPlan(env, r, c, luck).error;
      && (error.None? <==>
            (exists from, to :: GoesBack(env, c, r.At(c), from, to)) && Supported(env, r, c, "0.0.0"))
      && (error.Some? && (forall from, to :: !GoesBack(env, c, r.At(c), from, to)) ==>
            Hinders(env, c, r.At(c), error.value))
      && (error.Some? && (exists from, to :: GoesBack(env, c, r.At(c), from, to)) ==>
            Lacks(env, r, "0.0.0", error.value))
  {
    RollbackEffect(env, r, c, luck);
    TargetExactly(env, c, r.At(c));
    var target := RollbackTarget(env, c, r.At(c));
    assert target.Err? ==> RollbackPlan(env, r, c, luck) == Plan(Some(target.error), []);
    hide RollbackPlan, RollbackTarget, ResolveInstaller, GoesBack, Supported, Lacks, Hinders, Exec, Trimmed;
    if target.Ok? {
      ResolvesExactly(env, r, c, target.value, "0.0.0");
      var installer := RollbackInstaller(env, r, c);
      assert installer == ResolveInstaller(env, r, c, target.value, "0.0.0");
      hide RollbackInstaller;
      if installer.Err? {
        RollbackUnsupported(env, r, c, luck);
      }
    }
  }

  lemma RollbackLaunchers(env: Env, r: Root, c: Name, from: string, to: string)
    requires GoesBack(env, c, r.At(c), from, to) && RollbackTarget(env, c, r.At(c)) == Ok(to)
    requires Inspect(env, c, r.At(c)) == Installed(from) && RollbackInstaller(env, r, c).Ok?
    ensures var s := RolledBack(env, r, c);
      && SameButStubs(r.With(c, Swapped(r.At(c), from, to)), s)
      && (c != InstallerName ==> r.installer.active.Some?)
      && (forall d :: c == InstallerName || d == c ==>
            IsLauncherOf(r, if c == InstallerName then to else Trimmed(r.installer.active.value), s.At(d).stub))
      && (forall d :: c != InstallerName && d != c ==> s.At(d).stub == r.At(d).stub)
  {
    RollbackAsset(env, r, c);
    InspectedRuns(env, InstallerName, r.installer);
    InstallerOwnsAll();
    assert c in StubOwners(c);
    assert c == InstallerName ==> RollbackInstaller(env, r, c).value == to;
    hide RollbackTarget, Inspect, Trimmed, Runs, NamesRelease, ResolveInstaller, GoesBack;
  }

  lemma SwappedVersions(t: Tree, from: string, to: string)
    ensures var s := Swapped(t, from, to);
      && s.active == Some(to + "\n") && s.previous == Some(from + "\n")
      && s.releases == t.releases && s.staging == t.staging && s.stub == t.stub
  {
  }

  lemma RollbackLeaves(env: Env, r: Root, c: Name, luck: Luck, from: string, to: string)
    requires GoesBack(env, c, r.At(c), from, to)
    ensures var p := RollbackPlan(env, r, c, luck);
      var s, swapped := Exec(r, p.ops), r.With(c, Swapped(r.At(c), from, to));
      && (p.error.Some? ==> s == swapped)
      && SameButStubs(swapped, s)
      && (p.error.None? ==>
            && (c != InstallerName ==> r.installer.active.Some?)
            && (forall d :: c == InstallerName || d == c ==>
                  IsLauncherOf(r, if c == InstallerName then to else Trimmed(r.installer.active.value), s.At(d).stub))
            && (forall d :: c != InstallerName && d != c ==> s.At(d).stub == r.At(d).stub))
  {
    TargetNeeded(env, c, r.At(c), from, to);
    RollbackEffect(env, r, c, luck);
    if RollbackPlan(env, r, c, luck).error.None? {
      RollbackLaunchers(env, r, c, from, to);
    }
    hide RollbackPlan, RollbackTarget, Exec, Inspect, Trimmed, RollbackInstaller, RolledBack, Swapped, GoesBack,
         IsLauncherOf;
  }

  /** A rollback that has somewhere to go swaps the two versions and nothing
      else, even if it fails for want of an installer; when it succeeds it
      refreshes stubs as an apply does. */
  lemma RolledBackDisk(env: Env, r: Root, c: Name, luck: Luck, from: string, to: string)
    requires GoesBack(env, c, r.At(c), from, to)
    ensures var p := RollbackPlan(env, r, c, luck);
      var s := Exec(r, p.ops);
      && s.At(c).active == Some(to + "\n") && s.At(c).previous == Some(from + "\n")
      && (forall d :: s.At(d).releases == r.At(d).releases && s.At(d).staging == r.At(d).staging)
      && (forall d :: d != c ==> s.At(d).active == r.At(d).active && s.At(d).previous == r.At(d).previous)
      && (p.error.Some? ==> forall d :: s.At(d).stub == r.At(d).stub)
      && (p.error.None? ==>
            && (c != InstallerName ==> r.installer.active.Some?)
            && (forall d :: c == InstallerName || d == c ==>
                  IsLauncherOf(r, if c == InstallerName then to else Trimmed(r.installer.active.value), s.At(d).stub))
            && (forall d :: c != InstallerName && d != c ==> s.At(d).stub == r.At(d).stub))
  {
    RollbackLeaves(env, r, c, luck, from, to);
    var swapped := r.With(c, Swapped(r.At(c), from, to));
    var s := Exec(r, RollbackPlan(env, r, c, luck).ops);
    hide RollbackPlan, RollbackTarget, Exec, Inspect, Trimmed, Swapped, GoesBack, IsLauncherOf, RolledBack;
    SwappedVersions(r.At(c), from, to);
    assert forall d :: s.At(d) == swapped.At(d).(stub := s.At(d).stub);
  }

  // ------------------------------------------------------- an apply undone

  lemma SameRuns(env: Env, c: Name, t: Tree, s: Tree, v: string)
    requires s.active == t.active && s.releases == t.releases && Runs(env, c, t, v)
    ensures Runs(env, c, s, v)
  {
    hide Trimmed, IsRelease;
  }

  /** What was supported is supported without a minimum after an apply, too. */
  lemma StillSupported(env: Env, r: Root, s: Root, c: Name, minimum: string)
    requires env.semver("0.0.0") == Some(Semver(0, 0, 0)) && Supported(env, r, c, minimum)
    requires c != InstallerName ==>
      s.installer.active == r.installer.active && s.installer.releases == r.installer.releases
    ensures Supported(env, s, c, "0.0.0")
  {
    if c != InstallerName {
      SameRuns(env, InstallerName, r.installer, s.installer, Trimmed(r.installer.active.value));
    }
    hide Trimmed, Runs;
  }

  lemma BackFromApplied(env: Env, c: Name, t: Tree, s: Tree, v: string, a: string)
    requires PathSegment(v) && PathSegment(a) && a != v && Runs(env, c, t, a)
    requires s.active == Some(v + "\n") && s.previous == Some(a + "\n")
    requires v in s.releases && IsRelease(env, c, v, s.releases[v]) && s.releases - {v} == t.releases - {v}
    ensures GoesBack(env, c, s, v, a)
  {
    VersionReadsBack(v);
    VersionReadsBack(a);
    assert a in t.releases - {v} && a in s.releases - {v};
    assert s.releases[a] == (s.releases - {v})[a] == (t.releases - {v})[a] == t.releases[a];
    hide Trimmed, IsRelease, PathSegment;
  }

  lemma AppliedGoesBack(env: Env, r: Root, pkg: Dir, luck: Luck, a: string)
    requires StrictLoader(env) && Inv(env, r) && env.semver("0.0.0") == Some(Semver(0, 0, 0))
    requires ApplyPlan(env, r, pkg, luck).error.None?
    requires var m := env.load(pkg[MANIFEST].content).value;
      Runs(env, m.component, r.At(m.component), a) && a != m.version
    ensures var m := env.load(pkg[MANIFEST].content).value;
      var s := Exec(r, ApplyPlan(env, r, pkg, luck).ops);
      && GoesBack(env, m.component, s.At(m.component), m.version, a)
      && Supported(env, s, m.component, "0.0.0")
      && r.At(m.component).active == Some(a + "\n")
  {
    var m := env.load(pkg[MANIFEST].content).value;
    var c, v := m.component, m.version;
    var s := Exec(r, ApplyPlan(env, r, pkg, luck).ops);
    assert Formed(m) && PathSegment(v);
    assert PathSegment(a) && r.At(c).active == Some(a + "\n") by {
      InspectedThere(env, r, c);
      TreeRuns(env, c, r.At(c), a);
    }
    hide ApplyPlan, Exec, IsRelease, CopiedFrom, Runs, Inspect, PathSegment, Inv, Trimmed, Separate, FileIsThere,
         Supported, Formed, StrictLoader, IsLauncherOf, GoesBack;
    assert GoesBack(env, c, s.At(c), v, a) by {
      AppliedVersions(env, r, pkg, luck);
      BackFromApplied(env, c, r.At(c), s.At(c), v, a);
    }
    assert Supported(env, s, c, "0.0.0") by {
      AppliesExactly(env, r, pkg, luck);
      AppliedElsewhere(env, r, pkg, luck);
      assert s.installer == s.At(InstallerName) && r.installer == r.At(InstallerName);
      StillSupported(env, r, s, c, m.minInstaller);
    }
  }

  /** After a successful apply over another running version a rollback succeeds,
      makes that version active again over its own release, and keeps the one
      that was applied as the previous version. */
  lemma ApplyRolledBack(env: Env, r: Root, pkg: Dir, luck: Luck, luck2: Luck, a: string)
    requires StrictLoader(env) && Inv(env, r) && env.semver("0.0.0") == Some(Semver(0, 0, 0))
    requires ApplyPlan(env, r, pkg, luck).error.None?
    requires var m := env.load(pkg[MANIFEST].content).value;
      Runs(env, m.component, r.At(m.component), a) && a != m.version
    ensures var m := env.load(pkg[MANIFEST].content).value;
      var c := m.component;
      var s := Exec(r, ApplyPlan(env, r, pkg, luck).ops);
      var back := RollbackPlan(env, s, c, luck2);
      var u := Exec(s, back.ops);
      && back.error.None?
      && u.At(c).active == r.At(c).active && u.At(c).previous == Some(m.version + "\n")
      && u.At(c).releases - {m.version} == r.At(c).releases - {m.version}
      && (m.version in r.At(c).releases ==> u.At(c).releases == r.At(c).releases)
      && forall d :: d != c ==>
           && u.At(d).releases == r.At(d).releases
           && u.At(d).active == r.At(d).active && u.At(d).previous == r.At(d).previous
  {
    var m := env.load(pkg[MANIFEST].content).value;
    var c, v := m.component, m.version;
    var s := Exec(r, ApplyPlan(env, r, pkg, luck).ops);
    AppliedGoesBack(env, r, pkg, luck, a);
    AppliedVersions(env, r, pkg, luck);
    AppliedElsewhere(env, r, pkg, luck);
    hide ApplyPlan, RollbackPlan, Exec, IsRelease, CopiedFrom, Runs, Inv, Trimmed, GoesBack, Supported, IsLauncherOf;
    if v in r.At(c).releases {
      SameBeside(r.At(c).releases, s.At(c).releases, v);
    }
    RollsBackExactly(env, s, c, luck2);
    RolledBackDisk(env, s, c, luck2, v, a);
  }

  lemma TreeRuns(env: Env, c: Name, t: Tree, a: string)
    requires Runs(env, c, t, a)
    ensures Inspect(env, c, t) == Installed(a)
  {
    InspectedRuns(env, c, t);
    hide Inspect, NamesRelease, Trimmed;
  }

  lemma SameBeside(x: map<string, Dir>, y: map<string, Dir>, v: string)
    requires v in x && v in y && x[v] == y[v] && x - {v} == y - {v}
    ensures x == y
  {
    forall k ensures k in x <==> k in y {
      assert k in x - {v} <==> k in y - {v};
    }
    forall k | k in x ensures x[k] == y[k] {
      assert k != v ==> x[k] == (x - {v})[k] && y[k] == (y - {v})[k];
    }
  }
}
