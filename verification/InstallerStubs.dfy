/**
 Launcher stubs and rollback: when all stubs are copies of the active
 installer's launcher, what a rollback undoes, and what a failed one changes.
 */
module InstallerStubs {
  import opened Prelude
  import opened InstallerDisk
  import opened InstallerOperations
  import opened InstallerSafety
  import opened InstallerRetry

  /** The stub is the active installer's launcher, when an installer is installed. */
  ghost predicate StubMatches(env: Env, r: Root, c: Name) {
    var active := Inspect(env, InstallerName, r.installer);
    active.Installed? ==>
        Asset(r, active.version).Some? && r.At(c).stub == Some(Launchered(Asset(r, active.version).value))
  }

  ghost predicate StubsMatch(env: Env, r: Root) { forall c :: StubMatches(env, r, c) }

  /** Which releases are there, which version is active, and the stubs decide. */
  lemma MatchesVisible(env: Env, r: Root, s: Root)
    requires Visible(r) == Visible(s)
    ensures forall c :: StubMatches(env, r, c) <==> StubMatches(env, s, c)
  {
    assert VisibleTree(r.At(InstallerName)) == VisibleTree(s.At(InstallerName));
    assert forall c :: VisibleTree(r.At(c)) == VisibleTree(s.At(c)) by {
      assert forall c :: Visible(r).At(c) == VisibleTree(r.At(c)) && Visible(s).At(c) == VisibleTree(s.At(c));
    }
    hide ReleaseProblem, Trimmed;
  }

  // ------------------------------------------------------- rollback

  function Swapped(t: Tree, from: string, to: string): (r: Tree) {
    WithVersion(WithVersion(t, PreviousVersion, from), ActiveVersion, to)
  }

  lemma SwapEffect(r: Root, c: Name, from: string, to: string, luck: Luck)
    ensures Exec(r, SwapOps(c, from, to, luck)) == r.With(c, Swapped(r.At(c), from, to))
  {
    hide Exec, WriteVersionOps;
    WriteVersionEffect(r, c, PreviousVersion, from, luck.previousRefused);
    var first := Exec(r, WriteVersionOps(c, PreviousVersion, from, luck.previousRefused));
    WriteVersionEffect(first, c, ActiveVersion, to, luck.activeRefused);
    ExecConcat(r, WriteVersionOps(c, PreviousVersion, from, luck.previousRefused),
               WriteVersionOps(c, ActiveVersion, to, luck.activeRefused));
  }

  /** The installer whose launcher a rollback copies. */
  function RollbackInstaller(env: Env, r: Root, c: Name): (res: Result<string, Failure>)
    requires RollbackTarget(env, c, r.At(c)).Ok?
  {
    ResolveInstaller(env, r, c, RollbackTarget(env, c, r.At(c)).value, "0.0.0")
  }

  lemma RollbackInstallerKept(env: Env, r: Root, c: Name, t: Tree, version: string)
    ensures c.InstallerName? ==> ResolveInstaller(env, r, c, version, "0.0.0") == Ok(version)
    ensures ResolveInstaller(env, r.With(c, t), c, version, "0.0.0") == ResolveInstaller(env, r, c, version, "0.0.0")
  {
    hide Inspect;
  }

  lemma RollbackAsset(env: Env, r: Root, c: Name)
    requires RollbackTarget(env, c, r.At(c)).Ok? && RollbackInstaller(env, r, c).Ok?
    ensures Asset(r, RollbackInstaller(env, r, c).value).Some?
    ensures !c.InstallerName? ==>
        Inspect(env, InstallerName, r.installer) == Installed(RollbackInstaller(env, r, c).value)
  {
    if c.InstallerName? {
      AssetThere(env, r, RollbackTarget(env, c, r.At(c)).value);
    }
    hide FilesProblem, Trimmed;
  }

  /** The disk after a rollback, whatever the file system's choices. */
  function RolledBack(env: Env, r: Root, c: Name): (s: Root)
    requires RollbackTarget(env, c, r.At(c)).Ok? && RollbackInstaller(env, r, c).Ok?
  {
    Stubbed(r.With(c, Swapped(r.At(c), Inspect(env, c, r.At(c)).version, RollbackTarget(env, c, r.At(c)).value)),
            StubOwners(c), Asset(r, RollbackInstaller(env, r, c).value))
  }

  /** A rollback with a target succeeds exactly if the installer in charge can
      be resolved; if it cannot, the versions are switched all the same. */
  lemma RollbackEffect(env: Env, r: Root, c: Name, luck: Luck)
    ensures var p, target := RollbackPlan(env, r, c, luck), RollbackTarget(env, c, r.At(c));
      && (p.error.None? <==> target.Ok? && RollbackInstaller(env, r, c).Ok?)
      && (target.Err? ==> p == Plan(Some(target.error), []) && Exec(r, p.ops) == r)
      && (p.error.None? ==> Exec(r, p.ops) == RolledBack(env, r, c))
      && (target.Ok? && p.error.Some? ==>
            Exec(r, p.ops) == r.With(c, Swapped(r.At(c), Inspect(env, c, r.At(c)).version, target.value)))
  {
    hide Inspect, ResolveInstaller, SwapOps, StubsPlan, RollbackTarget, Exec, Swapped;
    Nothing(r, []);
    var target := RollbackTarget(env, c, r.At(c));
    if target.Ok? {
      TargetInstalled(env, c, r.At(c));
      var from := Inspect(env, c, r.At(c)).version;
      var swap := SwapOps(c, from, target.value, luck);
      var swapped := r.With(c, Swapped(r.At(c), from, target.value));
      SwapEffect(r, c, from, target.value, luck);
      RollbackInstallerKept(env, r, c, swapped.At(c), target.value);
      if RollbackInstaller(env, r, c).Ok? {
        var version := RollbackInstaller(env, r, c).value;
        RollbackAsset(env, r, c);
        SwapKeepsReleases(r.At(c), from, target.value);
        assert Asset(swapped, version) == Asset(r, version);
        StubsEffect(swapped, version, StubOwners(c));
        var stubs := StubsPlan(swapped, version, StubOwners(c));
        ExecConcat(r, swap, stubs.ops);
        SameTrees(Exec(swapped, stubs.ops), Stubbed(swapped, StubOwners(c), Asset(swapped, version)));
      }
    }
  }

  lemma TargetInstalled(env: Env, c: Name, t: Tree)
    requires RollbackTarget(env, c, t).Ok?
    ensures Inspect(env, c, t).Installed?
  {
  }

  lemma SwapKeepsReleases(t: Tree, from: string, to: string)
    ensures Swapped(t, from, to).releases == t.releases
  {
  }

  /** A failed rollback leaves the disk as it was, unless all its checks passed,
      the component is not the installer, and the installer in charge cannot be
      resolved: then, and only then, it has switched the versions. */
  lemma FailedRollbackUnchanged(env: Env, r: Root, c: Name, luck: Luck)
    requires Inv(env, r) && RollbackPlan(env, r, c, luck).error.Some?
    ensures var target := RollbackTarget(env, c, r.At(c));
      (Visible(Exec(r, RollbackPlan(env, r, c, luck).ops)) == Visible(r)) <==>
        !(target.Ok? && !c.InstallerName? && RollbackInstaller(env, r, c).Err?)
  {
    RollbackEffect(env, r, c, luck);
    var target := RollbackTarget(env, c, r.At(c));
    if target.Ok? {
      PreviousThere(env, r, c);
      InspectedThere(env, r, c);
      var t := Swapped(r.At(c), Inspect(env, c, r.At(c)).version, target.value);
      RollbackInstallerKept(env, r, c, t, target.value);
      LastDiffers(target.value, Inspect(env, c, r.At(c)).version);
      assert Visible(r.With(c, t)).At(c).active != Visible(r).At(c).active;
    }
    hide RollbackTarget, RollbackPlan, Inspect, ResolveInstaller, Exec;
  }

  lemma LastDiffers(a: string, b: string)
    requires a != b
    ensures a + "\n" != b + "\n"
  {
    assert (a + "\n")[..|a|] == a && (b + "\n")[..|b|] == b;
  }

  /** With a healthy installer whose version parses, no failed rollback changes
      anything. */
  lemma HealthyInstallerRollback(env: Env, r: Root, c: Name, luck: Luck)
    requires Inv(env, r) && RollbackPlan(env, r, c, luck).error.Some?
    requires env.semver("0.0.0") == Some(Semver(0, 0, 0))
    requires var active := Inspect(env, InstallerName, r.installer);
      active.Installed? && env.semver(active.version).Some?
    ensures Visible(Exec(r, RollbackPlan(env, r, c, luck).ops)) == Visible(r)
  {
    FailedRollbackUnchanged(env, r, c, luck);
    hide RollbackTarget, RollbackPlan, Inspect, Exec;
  }

  lemma TargetBack(env: Env, r: Root, c: Name)
    requires Inv(env, r) && RollbackTarget(env, c, r.At(c)).Ok?
    ensures var from, to := Inspect(env, c, r.At(c)).version, RollbackTarget(env, c, r.At(c)).value;
      var t := Swapped(r.At(c), from, to);
      Inspect(env, c, t) == Installed(to) && RollbackTarget(env, c, t) == Ok(from)
  {
    PreviousThere(env, r, c);
    InspectedThere(env, r, c);
    assert TreeInv(env, c, r.At(c));
    VersionReadsBack(Inspect(env, c, r.At(c)).version);
    VersionReadsBack(RollbackTarget(env, c, r.At(c)).value);
    hide ReleaseProblem, Trimmed, PathSegment;
  }

  lemma StubIrrelevant(env: Env, c: Name, t: Tree, stub: Option<File>)
    ensures Inspect(env, c, t.(stub := stub)) == Inspect(env, c, t)
    ensures RollbackTarget(env, c, t.(stub := stub)) == RollbackTarget(env, c, t)
  {
    hide ReleaseProblem, Trimmed;
  }

  lemma SecondRollback(env: Env, r: Root, c: Name)
    requires Inv(env, r) && RollbackTarget(env, c, r.At(c)).Ok? && RollbackInstaller(env, r, c).Ok?
    ensures var from, to := Inspect(env, c, r.At(c)).version, RollbackTarget(env, c, r.At(c)).value;
      var s := RolledBack(env, r, c);
      && Inspect(env, c, s.At(c)) == Installed(to) && RollbackTarget(env, c, s.At(c)) == Ok(from)
      && RollbackInstaller(env, s, c).Ok?
      && Inspect(env, InstallerName, r.installer) == Installed(RollbackInstaller(env, s, c).value)
  {
    hide RollbackTarget, Inspect, ResolveInstaller, Inv;
    PreviousThere(env, r, c);
    var from, to := Inspect(env, c, r.At(c)).version, RollbackTarget(env, c, r.At(c)).value;
    var s := RolledBack(env, r, c);
    InspectedThere(env, r, c);
    TargetBack(env, r, c);
    RollbackAsset(env, r, c);
    assert c in StubOwners(c);
    assert s.At(c) == Swapped(r.At(c), from, to).(stub := s.At(c).stub);
    StubIrrelevant(env, c, Swapped(r.At(c), from, to), s.At(c).stub);
    RollbackInstallerKept(env, s, c, s.At(c), from);
    if !c.InstallerName? {
      SameTrees(s, r.With(c, s.At(c)));
      RollbackInstallerKept(env, r, c, s.At(c), from);
      NoMinimum(env, r, c, to, from);
    }
  }

  /** The target version plays no part in resolving the installer of another component. */
  lemma NoMinimum(env: Env, r: Root, c: Name, v: string, w: string)
    requires !c.InstallerName?
    ensures ResolveInstaller(env, r, c, v, "0.0.0") == ResolveInstaller(env, r, c, w, "0.0.0")
  {
    hide Inspect;
  }

  /** Two rollbacks in a row: if the first succeeds so does the second, and
      together they restore the active and previous versions and every release;
      the stubs are restored too exactly if those they refresh were the active
      installer's launcher to begin with. */
  lemma RollbackTwice(env: Env, r: Root, c: Name, luck: Luck, luck2: Luck)
    requires Inv(env, r) && RollbackPlan(env, r, c, luck).error.None?
    ensures var s := Exec(r, RollbackPlan(env, r, c, luck).ops);
      var u := Exec(s, RollbackPlan(env, s, c, luck2).ops);
      && RollbackPlan(env, s, c, luck2).error.None?
      && u.At(c).active == r.At(c).active && u.At(c).previous == r.At(c).previous
      && SameButStubs(Visible(r), Visible(u))
      && (Visible(u) == Visible(r) <==> forall d :: d in StubOwners(c) ==> StubMatches(env, r, d))
  {
    hide RollbackPlan, Exec, RollbackTarget, Inspect, ResolveInstaller, Inv;
    RollbackEffect(env, r, c, luck);
    SecondRollback(env, r, c);
    PreviousThere(env, r, c);
    InspectedThere(env, r, c);
    var from, to := Inspect(env, c, r.At(c)).version, RollbackTarget(env, c, r.At(c)).value;
    var s := RolledBack(env, r, c);
    RollbackEffect(env, s, c, luck2);
    var u := RolledBack(env, s, c);
    var version := RollbackInstaller(env, s, c).value;
    RollbackAsset(env, s, c);
    assert c in StubOwners(c);
    SwapKeepsReleases(r.At(c), from, to);
    assert s.installer.releases == r.installer.releases;
    assert Asset(s, version) == Asset(r, version);
    hide Asset;
    RestoredTrees(r, s, u, c, from, to, Asset(r, version));
    RestoredStubs(env, r, u, c, version);
  }

  lemma RestoredTrees(r: Root, s: Root, u: Root, c: Name, from: string, to: string, asset: Option<File>)
    requires r.At(c).active == Some(from + "\n") && r.At(c).previous == Some(to + "\n")
    requires SameButStubs(r.With(c, Swapped(r.At(c), from, to)), s)
    requires u == Stubbed(s.With(c, Swapped(s.At(c), to, from)), StubOwners(c), asset)
    requires forall d :: d !in StubOwners(c) ==> s.At(d) == r.At(d)
    ensures u.At(c).active == r.At(c).active && u.At(c).previous == r.At(c).previous
    ensures SameButStubs(Visible(r), Visible(u))
    ensures forall d :: u.At(d).stub == if d in StubOwners(c) && asset.Some? then Some(Launchered(asset.value))
        else s.At(d).stub
  {
  }

  lemma RestoredStubs(env: Env, r: Root, u: Root, c: Name, version: string)
    requires SameButStubs(Visible(r), Visible(u)) && Asset(r, version).Some?
    requires Inspect(env, InstallerName, r.installer) == Installed(version)
    requires forall d :: u.At(d).stub == if d in StubOwners(c) then Some(Launchered(Asset(r, version).value))
        else r.At(d).stub
    ensures Visible(u) == Visible(r) <==> forall d :: d in StubOwners(c) ==> StubMatches(env, r, d)
  {
    hide Inspect, Asset;
    if forall d :: d in StubOwners(c) ==> StubMatches(env, r, d) {
      forall d ensures Visible(u).At(d) == Visible(r).At(d) {
        assert Visible(u).At(d) == Visible(r).At(d).(stub := Visible(u).At(d).stub);
      }
      SameTrees(Visible(u), Visible(r));
    } else {
      var d :| d in StubOwners(c) && !StubMatches(env, r, d);
      assert Visible(u).At(d).stub != Visible(r).At(d).stub;
    }
  }

  // ------------------------------------------------------- stubs after completed operations

  lemma AppliedStubs(env: Env, r: Root, pkg: Dir, m: Manifest)
    requires MANIFEST in pkg && Accepts(env, r, pkg, m) && Formed(m)
    ensures var s := Outcome(env, r, pkg, m);
      && Inspect(env, InstallerName, s.installer).Installed?
      && (forall c :: c in StubOwners(m.component) ==> StubMatches(env, s, c))
      && (!m.component.InstallerName? ==>
            forall c :: c != m.component ==> (StubMatches(env, s, c) <==> StubMatches(env, r, c)))
  {
    var c, s := m.component, Outcome(env, r, pkg, m);
    var t := SwitchedTree(env, r, pkg, m);
    AcceptedRelease(env, r, pkg, m);
    SwitchKeeps(r.At(c).(releases := Released(r.At(c), m.version, StagedRelease(pkg, m))), Inspect(env, c, r.At(c)),
        m.version);
    if c.InstallerName? {
      VersionReadsBack(m.version);
      AssetThere(env, r.With(c, t), m.version);
      hide ReleaseProblem, StagedRelease, Trimmed, Switched, PathSegment, Accepts;
      assert t.active == Some(m.version + "\n") by {
        SwitchSets(r.At(c).(releases := Released(r.At(c), m.version, StagedRelease(pkg, m))),
                   Inspect(env, c, r.At(c)), m.version);
      }
      assert VisibleTree(s.installer).releases == t.releases;
      assert Inspect(env, c, s.installer) == Installed(m.version);
    } else {
      InChargeThere(env, r, m);
      hide ReleaseProblem, StagedRelease, Trimmed, Switched, PathSegment, Accepts;
      assert s.installer == VisibleTree(r.installer) by {
        assert s.At(InstallerName) == VisibleTree(r.At(InstallerName));
      }
      assert Inspect(env, InstallerName, s.installer) == Inspect(env, InstallerName, r.installer);
    }
  }

  lemma SwitchSets(t: Tree, active: Active, v: string)
    ensures Switched(t, active, v).active == Some(v + "\n")
  {
  }

  lemma RolledBackStubs(env: Env, r: Root, c: Name)
    requires Inv(env, r) && RollbackTarget(env, c, r.At(c)).Ok? && RollbackInstaller(env, r, c).Ok?
    ensures var s := RolledBack(env, r, c);
      && Inspect(env, InstallerName, s.installer).Installed?
      && (forall d :: d in StubOwners(c) ==> StubMatches(env, s, d))
      && (!c.InstallerName? ==> forall d :: d != c ==> (StubMatches(env, s, d) <==> StubMatches(env, r, d)))
  {
    hide RollbackTarget, Inspect, ResolveInstaller, Inv;
    SecondRollback(env, r, c);
    RollbackAsset(env, r, c);
    PreviousThere(env, r, c);
    var from, to := Inspect(env, c, r.At(c)).version, RollbackTarget(env, c, r.At(c)).value;
    var s := RolledBack(env, r, c);
    RollbackInstallerKept(env, r, c, s.At(c), to);
    SwapKeepsReleases(r.At(c), from, to);
    assert s.installer.releases == r.installer.releases;
    assert c in StubOwners(c);
  }

  /** After a completed operation on `c` the stubs it refreshes are the active
      installer's launcher; all three are exactly if it was the installer, or
      the other two were before. */
  lemma CompletedStubs(env: Env, r: Root, command: Command, luck: Luck)
    requires StrictLoader(env) && Inv(env, r) && PlanOf(env, r, command, luck).error.None?
    ensures var c := if command.Apply? then env.load(command.pkg[MANIFEST].content).value.component else command.c;
      var s := Exec(r, PlanOf(env, r, command, luck).ops);
      && Inspect(env, InstallerName, s.installer).Installed?
      && (forall d :: d in StubOwners(c) ==> StubMatches(env, s, d))
      && (StubsMatch(env, s) <==> c.InstallerName? || forall d :: d != c ==> StubMatches(env, r, d))
  {
    hide ApplyPlan, RollbackPlan, Exec, Inspect, RollbackTarget, ResolveInstaller, Outcome, Accepts, Inv, Formed;
    var s := Exec(r, PlanOf(env, r, command, luck).ops);
    match command
    case Apply(pkg) =>
      ApplyExactly(env, r, pkg, luck);
      var m := env.load(pkg[MANIFEST].content).value;
      ApplyOutcome(env, r, pkg, m, luck);
      AppliedStubs(env, r, pkg, m);
      var o := Outcome(env, r, pkg, m);
      VisibleOnce(s);
      MatchesVisible(env, s, o);
      InspectVisible(env, s, o);
      assert m.component in StubOwners(m.component);
      InstallerOwnsAll();
      hide StubMatches;
    case Rollback(c) =>
      RollbackEffect(env, r, c, luck);
      RolledBackStubs(env, r, c);
  }

  lemma InstallerOwnsAll()
    ensures forall d :: d in StubOwners(InstallerName)
  {
    forall d ensures d in ALL_NAMES {
      match d
      case InstallerName => assert ALL_NAMES[0] == d;
      case AgentName => assert ALL_NAMES[1] == d;
      case ServerName => assert ALL_NAMES[2] == d;
    }
  }

  lemma VisibleOnce(r: Root)
    ensures Visible(Visible(r)) == Visible(r)
  {
  }

  lemma InspectVisible(env: Env, r: Root, s: Root)
    requires Visible(r) == Visible(s)
    ensures Inspect(env, InstallerName, r.installer) == Inspect(env, InstallerName, s.installer)
  {
    assert VisibleTree(r.At(InstallerName)) == VisibleTree(s.At(InstallerName));
    hide ReleaseProblem, Trimmed;
  }

  /** A failed operation changes no stub and not the installer. */
  lemma FailedStubs(env: Env, r: Root, command: Command, luck: Luck)
    requires StrictLoader(env) && StubsMatch(env, r) && PlanOf(env, r, command, luck).error.Some?
    ensures StubsMatch(env, Exec(r, PlanOf(env, r, command, luck).ops))
  {
    hide ApplyPlan, RollbackPlan, Exec, Inspect, RollbackTarget, Accepts, Swapped, Asset;
    match command
    case Apply(pkg) =>
      ApplyExactly(env, r, pkg, luck);
      MatchesVisible(env, r, Exec(r, ApplyPlan(env, r, pkg, luck).ops));
    case Rollback(c) =>
      RollbackEffect(env, r, c, luck);
      if RollbackTarget(env, c, r.At(c)).Ok? {
        RollbackInstallerKept(env, r, c, r.At(c), RollbackTarget(env, c, r.At(c)).value);
        TargetInstalled(env, c, r.At(c));
        var t := Swapped(r.At(c), Inspect(env, c, r.At(c)).version, RollbackTarget(env, c, r.At(c)).value);
        SwapKeepsStub(r.At(c), Inspect(env, c, r.At(c)).version, RollbackTarget(env, c, r.At(c)).value);
        SameInstaller(env, r, r.With(c, t));
      }
  }

  lemma SameInstaller(env: Env, r: Root, s: Root)
    requires StubsMatch(env, r) && s.installer == r.installer && forall c :: s.At(c).stub == r.At(c).stub
    ensures StubsMatch(env, s)
  {
    hide Inspect;
    forall c ensures StubMatches(env, s, c) {
      assert StubMatches(env, r, c);
    }
  }

  lemma SwapKeepsStub(t: Tree, from: string, to: string)
    ensures Swapped(t, from, to).stub == t.stub
  {
  }

  /** Commands run to their end, each succeeding or failing. */
  predicate Uncut(env: Env, acts: seq<Act>)
    decreases |acts|
  {
    acts == [] ||
    (Uncut(env, acts[..|acts| - 1])
     && acts[|acts| - 1].writes >=
          |PlanOf(env, Run(env, acts[..|acts| - 1]), acts[|acts| - 1].command, acts[|acts| - 1].luck).ops|)
  }

  /** Without a crash, after every operation the stubs of all three components
      are the active installer's launcher, once there is an installer. */
  lemma {:induction false} StubsMatchThroughout(env: Env, acts: seq<Act>)
    requires StrictLoader(env) && Uncut(env, acts)
    ensures StubsMatch(env, Run(env, acts))
    decreases |acts|
  {
    hide PlanOf, Exec, StubMatches, Inv;
    if acts == [] {
      NothingInstalled(env);
    } else {
      var r, act := Run(env, acts[..|acts| - 1]), acts[|acts| - 1];
      StubsMatchThroughout(env, acts[..|acts| - 1]);
      RunInv(env, acts[..|acts| - 1]);
      if PlanOf(env, r, act.command, act.luck).error.None? {
        CompletedStubs(env, r, act.command, act.luck);
      } else {
        FailedStubs(env, r, act.command, act.luck);
      }
    }
  }

  lemma NothingInstalled(env: Env)
    ensures StubsMatch(env, FRESH_ROOT)
  {
  }
}
