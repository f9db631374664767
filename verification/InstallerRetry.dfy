/**
 Apply is crash-retriable: cut off after any write, any number of times, and
 run again, it ends as an uninterrupted apply would have.
 */
module InstallerRetry {
  import opened Prelude
  import opened InstallerDisk
  import opened InstallerOperations
  import opened InstallerSafety

  /** What an operation leaves for later ones: everything but staging areas and
      temporary version files. */
  function VisibleTree(t: Tree): (r: Tree) { t.(staging := map[], activeTmp := None, previousTmp := None) }

  function Visible(r: Root): (v: Root)
    ensures forall c :: v.At(c) == VisibleTree(r.At(c))
  {
    Root(VisibleTree(r.installer), VisibleTree(r.agent), VisibleTree(r.server))
  }

  function Switched(t: Tree, active: Active, next: string): (r: Tree) {
    WithVersion(
      if ShouldRecordPreviousVersion(active, next) then WithVersion(t, PreviousVersion, active.version) else t,
      ActiveVersion, next)
  }

  lemma SwitchEffect(r: Root, c: Name, active: Active, next: string, luck: Luck)
    ensures Exec(r, SwitchOps(c, active, next, luck)) == r.With(c, Switched(r.At(c), active, next))
  {
    hide Exec, WriteVersionOps;
    var record := RecordOps(c, active, next, luck.previousRefused);
    if ShouldRecordPreviousVersion(active, next) {
      WriteVersionEffect(r, c, PreviousVersion, active.version, luck.previousRefused);
    } else {
      Nothing(r, []);
    }
    WriteVersionEffect(Exec(r, record), c, ActiveVersion, next, luck.activeRefused);
    ExecConcat(r, record, WriteVersionOps(c, ActiveVersion, next, luck.activeRefused));
  }

  // ------------------------------------------------------- the outcome of an apply

  function Released(t: Tree, v: string, d: Dir): (releases: map<string, Dir>) {
    if v in t.releases then t.releases else t.releases[v := d]
  }

  /** The installer release whose launcher the refreshed stubs are copies of. */
  function InCharge(env: Env, r: Root, m: Manifest): (v: string)
    requires m.component.InstallerName? || Inspect(env, InstallerName, r.installer).Installed?
  {
    if m.component.InstallerName? then m.version else Inspect(env, InstallerName, r.installer).version
  }

  /** Whether an apply succeeds; nothing the file system leaves open matters. */
  predicate Accepts(env: Env, r: Root, pkg: Dir, m: Manifest)
    requires MANIFEST in pkg
  {
    var t := r.At(m.component);
    && env.load(pkg[MANIFEST].content) == Some(m)
    && ResolveInstaller(env, r, m.component, m.version, m.minInstaller).Ok?
    && if m.version in t.releases then Healthy(env, m.component, m.version, t.releases[m.version])
       else FirstFailure(env, pkg, m.files, 0).1.None?
            && (m.component.InstallerName? ==> LauncherProblem(StagedRelease(pkg, m)).None?)
  }

  /** The component's tree once the release is there and the versions are switched. */
  function SwitchedTree(env: Env, r: Root, pkg: Dir, m: Manifest): (t: Tree)
    requires MANIFEST in pkg
  {
    var t := r.At(m.component);
    Switched(t.(releases := Released(t, m.version, StagedRelease(pkg, m))), Inspect(env, m.component, t), m.version)
  }

  function WithStub(t: Tree, mine: bool, asset: Option<File>): (r: Tree) {
    if mine && asset.Some? then t.(stub := Some(Launchered(asset.value))) else t
  }

  function Stubbed(r: Root, owners: seq<Name>, asset: Option<File>): (r': Root)
    ensures forall c :: r'.At(c) == WithStub(r.At(c), c in owners, asset)
  {
    Root(WithStub(r.installer, InstallerName in owners, asset), WithStub(r.agent, AgentName in owners, asset),
         WithStub(r.server, ServerName in owners, asset))
  }

  function Outcome(env: Env, r: Root, pkg: Dir, m: Manifest): (r': Root)
    requires MANIFEST in pkg && Accepts(env, r, pkg, m)
  {
    var s := r.With(m.component, SwitchedTree(env, r, pkg, m));
    Visible(Stubbed(s, StubOwners(m.component), Asset(s, InCharge(env, r, m))))
  }

  lemma SameTrees(r: Root, s: Root)
    requires forall c :: r.At(c) == s.At(c)
    ensures r == s
  {
    assert r.At(InstallerName) == s.At(InstallerName) && r.At(AgentName) == s.At(AgentName)
        && r.At(ServerName) == s.At(ServerName);
  }

  /** An installer release that validates has the launcher asset. */
  lemma AssetThere(env: Env, r: Root, v: string)
    requires v in r.installer.releases && Healthy(env, InstallerName, v, r.installer.releases[v])
    ensures Asset(r, v).Some?
  {
  }

  lemma InChargeThere(env: Env, r: Root, m: Manifest)
    requires !m.component.InstallerName? && ResolveInstaller(env, r, m.component, m.version, m.minInstaller).Ok?
    ensures Inspect(env, InstallerName, r.installer).Installed?
    ensures ResolveInstaller(env, r, m.component, m.version, m.minInstaller).value == InCharge(env, r, m)
    ensures Asset(r, InCharge(env, r, m)).Some?
  {
  }

  lemma FinishEffect(r: Root, c: Name, v: string, active: Active, version: string, luck: Luck)
    ensures var p := FinishPlan(r, c, v, active, version, luck);
      var s := r.With(c, Switched(r.At(c), active, v));
      && (p.error.None? <==> Asset(s, version).Some?)
      && Exec(r, p.ops) == Stubbed(s, StubOwners(c), Asset(s, version))
  {
    hide Exec, SwitchOps, StubsPlan, Switched;
    var switch := SwitchOps(c, active, v, luck);
    var s := Exec(r, switch);
    SwitchEffect(r, c, active, v, luck);
    StubsEffect(s, version, StubOwners(c));
    var stubs := StubsPlan(s, version, StubOwners(c));
    ExecConcat(r, switch, stubs.ops);
    assert c in StubOwners(c);
    SameTrees(Exec(s, stubs.ops), Stubbed(s, StubOwners(c), Asset(s, version)));
  }

  lemma PromotedEffect(r: Root, staged: Root, c: Name, v: string, d: Dir)
    requires staged == WithStaged(r, c, v, d) && v !in r.At(c).releases
    ensures Do(staged, Promote(c, v)) ==
      r.With(c, r.At(c).(releases := Released(r.At(c), v, d), staging := r.At(c).staging - {v}))
  {
    assert r.At(c).staging[v := d] - {v} == r.At(c).staging - {v};
  }

  /** An accepted apply succeeds and leaves the outcome. */
  lemma ApplyOutcome(env: Env, r: Root, pkg: Dir, m: Manifest, luck: Luck)
    requires MANIFEST in pkg && Accepts(env, r, pkg, m) && Formed(m)
    ensures ApplyPlan(env, r, pkg, luck).error.None?
    ensures Visible(Exec(r, ApplyPlan(env, r, pkg, luck).ops)) == Outcome(env, r, pkg, m)
  {
    hide Exec, Inspect, ReleaseProblem, FirstFailure, StagedRelease, FinishPlan, Switched, PathSegment;
    var c, v, t := m.component, m.version, r.At(m.component);
    var active := Inspect(env, c, t);
    var resolved := ResolveInstaller(env, r, c, v, m.minInstaller).value;
    if !c.InstallerName? {
      InChargeThere(env, r, m);
    }
    if v in t.releases {
      FinishEffect(r, c, v, active, resolved, luck);
      SwitchKeeps(t, active, v);
      if c.InstallerName? {
        AssetThere(env, r.With(c, Switched(t, active, v)), v);
      }
      assert SwitchedTree(env, r, pkg, m) == Switched(t, active, v);
    } else {
      NewReleaseOutcome(env, r, pkg, m, active, resolved, luck);
    }
  }

  lemma SwitchKeeps(t: Tree, active: Active, v: string)
    ensures Switched(t, active, v).releases == t.releases
    ensures forall s :: Switched(t.(staging := s), active, v) == Switched(t, active, v).(staging := s)
  {
  }

  lemma PromoteOutcome(staged: Root, m: Manifest, active: Active, resolved: string, luck: Luck)
    requires var c, v := m.component, m.version;
      && v in staged.At(c).staging
      && (c.InstallerName? ==> LauncherProblem(staged.At(c).staging[v]).None? && resolved == v)
      && (!c.InstallerName? ==> Asset(staged, resolved).Some?)
    ensures var p := PromotePlan(staged, m, active, resolved, luck);
      var promoted := Do(staged, Promote(m.component, m.version));
      var s := promoted.With(m.component, Switched(promoted.At(m.component), active, m.version));
      p.error.None? && Asset(s, resolved).Some?
      && Exec(staged, p.ops) == Stubbed(s, StubOwners(m.component), Asset(s, resolved))
  {
    var c, v := m.component, m.version;
    var promoted := Do(staged, Promote(c, v));
    var finish := FinishPlan(promoted, c, v, active, resolved, luck);
    FinishEffect(promoted, c, v, active, resolved, luck);
    SwitchKeeps(promoted.At(c), active, v);
    if c.InstallerName? {
      LauncherThere(staged.At(c).staging[v]);
    }
    hide Exec, FinishPlan, Switched, LauncherProblem, DropOps;
    Exec1(staged, Promote(c, v));
    ExecConcat(staged, [Promote(c, v)], finish.ops);
    assert [Promote(c, v)] + finish.ops + [] == [Promote(c, v)] + finish.ops;
  }

  lemma StagePromoted(env: Env, r: Root, pkg: Dir, m: Manifest, order: seq<string>)
    requires MANIFEST in pkg && m.version !in r.At(m.component).releases
    requires FirstFailure(env, pkg, m.files, 0).1.None?
    ensures var c, v, t, d := m.component, m.version, r.At(m.component), StagedRelease(pkg, m);
      var staged := Exec(r, StagePlan(env, pkg, m, order).ops);
      && StagePlan(env, pkg, m, order).error.None?
      && v in staged.At(c).staging && staged.At(c).staging[v] == d
      && Asset(staged, v) == Asset(r, v) && (!c.InstallerName? ==> staged.installer == r.installer)
      && Do(staged, Promote(c, v)) == r.With(c, t.(releases := Released(t, v, d), staging := t.staging - {v}))
  {
    StageEffect(env, r, pkg, m, order);
    hide Exec, FirstFailure, StagedRelease;
    PromotedEffect(r, Exec(r, StagePlan(env, pkg, m, order).ops), m.component, m.version, StagedRelease(pkg, m));
    hide StagePlan;
  }

  lemma NewReleaseOutcome(env: Env, r: Root, pkg: Dir, m: Manifest, active: Active, resolved: string, luck: Luck)
    requires MANIFEST in pkg && Accepts(env, r, pkg, m) && Formed(m)
    requires m.version !in r.At(m.component).releases
    requires active == Inspect(env, m.component, r.At(m.component))
    requires resolved == InCharge(env, r, m)
    requires !m.component.InstallerName? ==> Asset(r, resolved).Some?
    ensures var p := NewReleasePlan(env, r, pkg, m, active, resolved, luck);
      p.error.None? && Visible(Exec(r, p.ops)) == Outcome(env, r, pkg, m)
  {
    hide Exec, Inspect, ResolveInstaller, FirstFailure, StagedRelease, PromotePlan, StagePlan, Switched,
         LauncherProblem, DropOps,
         Stubbed, Formed;
    var c, v, t := m.component, m.version, r.At(m.component);
    var stage, d := StagePlan(env, pkg, m, luck.order), StagedRelease(pkg, m);
    var staged := Exec(r, stage.ops);
    StagePromoted(env, r, pkg, m, luck.order);
    PromoteOutcome(staged, m, active, resolved, luck);
    ExecConcat(r, stage.ops, PromotePlan(staged, m, active, resolved, luck).ops);
    var t1 := t.(releases := Released(t, v, d), staging := t.staging - {v});
    SwitchKeeps(t.(releases := Released(t, v, d)), active, v);
    StagingHidden(r.With(c, Switched(t1, active, v)), r.With(c, SwitchedTree(env, r, pkg, m)), c, resolved);
  }

  lemma StagingHidden(s: Root, plain: Root, c: Name, version: string)
    requires forall d :: VisibleTree(s.At(d)) == VisibleTree(plain.At(d))
    requires Asset(s, version).Some?
    ensures Visible(Stubbed(s, StubOwners(c), Asset(s, version))) ==
        Visible(Stubbed(plain, StubOwners(c), Asset(plain, version)))
  {
    assert VisibleTree(s.At(InstallerName)) == VisibleTree(plain.At(InstallerName));
    SameTrees(Visible(Stubbed(s, StubOwners(c), Asset(s, version))),
        Visible(Stubbed(plain, StubOwners(c), Asset(plain, version))));
  }

  lemma LauncherThere(d: Dir)
    requires LauncherProblem(d).None?
    ensures LAUNCHER in d
  {
  }

  lemma RefusedInvisible(env: Env, r: Root, pkg: Dir, m: Manifest, active: Active, resolved: string, luck: Luck)
    requires MANIFEST in pkg && m.version !in r.At(m.component).releases
    requires FirstFailure(env, pkg, m.files, 0).1.Some?
        || (m.component.InstallerName? && LauncherProblem(StagedRelease(pkg, m)).Some?)
    ensures var p := NewReleasePlan(env, r, pkg, m, active, resolved, luck);
      p.error.Some? && Visible(Exec(r, p.ops)) == Visible(r)
  {
    var c, v := m.component, m.version;
    var stage, drop := StagePlan(env, pkg, m, luck.order), DropOps(c, v, luck.order);
    var staged := Exec(r, stage.ops);
    StageEffect(env, r, pkg, m, luck.order);
    hide Exec, FirstFailure, StagedRelease, FinishPlan, LauncherProblem, DropOps;
    DropEffect(staged, c, v, luck.order);
    ExecConcat(r, stage.ops, drop);
    hide StagePlan;
    SameTrees(Visible(Exec(staged, drop)), Visible(r));
  }

  /** An apply succeeds exactly when it is accepted; one that fails leaves
      nothing behind but staging areas. */
  lemma ApplyExactly(env: Env, r: Root, pkg: Dir, luck: Luck)
    requires StrictLoader(env)
    ensures var p := ApplyPlan(env, r, pkg, luck);
      && (p.error.None? <==> MANIFEST in pkg && env.load(pkg[MANIFEST].content).Some?
                             && Accepts(env, r, pkg, env.load(pkg[MANIFEST].content).value))
      && (p.error.Some? ==> Visible(Exec(r, p.ops)) == Visible(r))
  {
    Nothing(r, []);
    hide Exec, Inspect, ReleaseProblem, FirstFailure, StagedRelease, FinishPlan, NewReleasePlan, ResolveInstaller,
        Formed;
    if MANIFEST in pkg && env.load(pkg[MANIFEST].content).Some? {
      var m := env.load(pkg[MANIFEST].content).value;
      var active := Inspect(env, m.component, r.At(m.component));
      var installer := ResolveInstaller(env, r, m.component, m.version, m.minInstaller);
      if Accepts(env, r, pkg, m) {
        ApplyOutcome(env, r, pkg, m, luck);
      } else if installer.Ok? && m.version !in r.At(m.component).releases {
        RefusedInvisible(env, r, pkg, m, active, installer.value, luck);
      }
    }
  }

  // ------------------------------------------------------- every state a crash can leave

  /** The previous-version text an apply ends with. */
  function FinalPrevious(t: Tree, active: Active, v: string): (text: Option<string>) {
    if ShouldRecordPreviousVersion(active, v) then Some(active.version + "\n") else t.previous
  }

  /** Before the active version was touched; the previous version may have been
      removed or replaced. */
  predicate StillActive(t0: Tree, t: Tree, active: Active, v: string) {
    && t.active == t0.active
    && (t.previous == t0.previous
        || (ShouldRecordPreviousVersion(active, v) && (t.previous.None? || t.previous == FinalPrevious(t0, active, v))))
  }

  /** After: the active version is removed or replaced, and the previous one is final. */
  predicate ActiveTouched(t0: Tree, t: Tree, active: Active, v: string) {
    (t.active.None? || t.active == Some(v + "\n")) && t.previous == FinalPrevious(t0, active, v)
  }

  /** How far an interrupted apply of `v`, with staged release `d`, can have come. */
  predicate MidTree(t0: Tree, t: Tree, active: Active, v: string, d: Dir) {
    || (t.releases == t0.releases && t.active == t0.active && t.previous == t0.previous)
    || (t.releases == Released(t0, v, d) && (StillActive(t0, t, active, v) || ActiveTouched(t0, t, active, v)))
  }

  /** The same visible tree, up to its stub if that is being refreshed. */
  predicate Beside(t0: Tree, t: Tree, refreshed: bool) {
    VisibleTree(t) == if refreshed then VisibleTree(t0).(stub := t.stub) else VisibleTree(t0)
  }

  /** Other components differ in their stubs at most, and only in those the
      apply refreshes. */
  predicate Mid(env: Env, r0: Root, r: Root, pkg: Dir, m: Manifest)
    requires MANIFEST in pkg
  {
    && MidTree(r0.At(m.component), r.At(m.component), Inspect(env, m.component, r0.At(m.component)), m.version,
        StagedRelease(pkg, m))
    && forall c :: c != m.component ==> Beside(r0.At(c), r.At(c), c in StubOwners(m.component))
  }

  /** Releasing `v` and losing or setting the active file does not change
      whether, and with what, the previous version is recorded. */
  lemma MidRecords(env: Env, c: Name, t0: Tree, t: Tree, v: string, d: Dir)
    requires PathSegment(v) && MidTree(t0, t, Inspect(env, c, t0), v, d)
    requires Healthy(env, c, v, Released(t0, v, d)[v])
    ensures var active0, active := Inspect(env, c, t0), Inspect(env, c, t);
      && (ShouldRecordPreviousVersion(active, v) ==>
            ShouldRecordPreviousVersion(active0, v) && active.version == active0.version)
      && (!ShouldRecordPreviousVersion(active, v) ==> t.previous == FinalPrevious(t0, active0, v))
  {
    VersionReadsBack(v);
    hide ReleaseProblem, Trimmed, PathSegment;
  }

  lemma MidSwitched(env: Env, c: Name, t0: Tree, t: Tree, v: string, d: Dir)
    requires PathSegment(v) && MidTree(t0, t, Inspect(env, c, t0), v, d)
    requires Healthy(env, c, v, Released(t0, v, d)[v])
    ensures var s0 := Switched(t0.(releases := Released(t0, v, d)), Inspect(env, c, t0), v);
      var s := Switched(t.(releases := Released(t, v, d)), Inspect(env, c, t), v);
      s.releases == s0.releases && s.active == s0.active && s.previous == s0.previous
  {
    MidRecords(env, c, t0, t, v, d);
    hide Inspect, PathSegment, ReleaseProblem;
  }

  lemma AcceptedRelease(env: Env, r: Root, pkg: Dir, m: Manifest)
    requires MANIFEST in pkg && Accepts(env, r, pkg, m) && Formed(m)
    ensures Healthy(env, m.component, m.version,
        Released(r.At(m.component), m.version, StagedRelease(pkg, m))[m.version])
  {
    if m.version !in r.At(m.component).releases {
      StagedValidates(env, pkg, m);
    }
    hide ReleaseProblem, StagedRelease, FirstFailure;
  }

  lemma VisibleInspects(env: Env, r: Root, s: Root)
    requires VisibleTree(r.installer).(stub := s.installer.stub) == VisibleTree(s.installer)
    ensures Inspect(env, InstallerName, r.installer) == Inspect(env, InstallerName, s.installer)
    ensures forall m: Manifest :: ResolveInstaller(env, r, m.component, m.version, m.minInstaller)
                            == ResolveInstaller(env, s, m.component, m.version, m.minInstaller)
  {
    hide ReleaseProblem, Trimmed;
  }

  lemma MidReleased(t0: Tree, t: Tree, active: Active, v: string, d: Dir)
    requires MidTree(t0, t, active, v, d)
    ensures Released(t, v, d) == Released(t0, v, d)
    ensures v in t0.releases ==> v in t.releases && t.releases[v] == t0.releases[v]
    ensures v !in t0.releases && v in t.releases ==> t.releases[v] == d
  {
  }

  /** Refreshing the same stubs from the same asset hides what the stubs were. */
  lemma SameOutcome(s0: Root, s: Root, c: Name, version: string)
    requires forall d :: Beside(s0.At(d), s.At(d), d in StubOwners(c))
    requires Asset(s0, version).Some? && Asset(s, version) == Asset(s0, version)
    ensures Visible(Stubbed(s, StubOwners(c), Asset(s, version))) ==
        Visible(Stubbed(s0, StubOwners(c), Asset(s0, version)))
  {
    SameTrees(Visible(Stubbed(s, StubOwners(c), Asset(s, version))),
        Visible(Stubbed(s0, StubOwners(c), Asset(s0, version))));
  }

  lemma MidAccepts(env: Env, r0: Root, r: Root, pkg: Dir, m: Manifest)
    requires MANIFEST in pkg && Accepts(env, r0, pkg, m) && Formed(m) && Mid(env, r0, r, pkg, m)
    ensures Accepts(env, r, pkg, m)
    ensures InCharge(env, r, m) == InCharge(env, r0, m)
  {
    var c, v, d := m.component, m.version, StagedRelease(pkg, m);
    AcceptedRelease(env, r0, pkg, m);
    MidReleased(r0.At(c), r.At(c), Inspect(env, c, r0.At(c)), v, d);
    if !c.InstallerName? {
      assert InstallerName !in StubOwners(c);
      VisibleInspects(env, r0, r);
    }
    hide Inspect, ReleaseProblem, FirstFailure, StagedRelease, PathSegment, LauncherProblem;
  }

  /** Every such state is accepted again and leads to the same outcome. */
  lemma MidOutcome(env: Env, r0: Root, r: Root, pkg: Dir, m: Manifest)
    requires MANIFEST in pkg && Accepts(env, r0, pkg, m) && Formed(m) && Mid(env, r0, r, pkg, m)
    ensures Accepts(env, r, pkg, m) && Outcome(env, r, pkg, m) == Outcome(env, r0, pkg, m)
  {
    var c, v, d := m.component, m.version, StagedRelease(pkg, m);
    var t0, t := r0.At(c), r.At(c);
    MidAccepts(env, r0, r, pkg, m);
    AcceptedRelease(env, r0, pkg, m);
    MidSwitched(env, c, t0, t, v, d);
    SwitchKeeps(t0.(releases := Released(t0, v, d)), Inspect(env, c, t0), v);
    SwitchKeeps(t.(releases := Released(t, v, d)), Inspect(env, c, t), v);
    if !c.InstallerName? {
      InChargeThere(env, r0, m);
    }
    hide Inspect, ReleaseProblem, FirstFailure, StagedRelease, PathSegment, LauncherProblem, MidTree, Switched, Accepts;
    var version := InCharge(env, r0, m);
    var s0, s := r0.With(c, SwitchedTree(env, r0, pkg, m)), r.With(c, SwitchedTree(env, r, pkg, m));
    if c.InstallerName? {
      AssetThere(env, s0, v);
      assert s.installer.releases == s0.installer.releases;
    } else {
      assert InstallerName !in StubOwners(c);
      assert Beside(r0.At(InstallerName), r.At(InstallerName), false);
      assert r.installer.releases == r0.installer.releases;
    }
    assert c in StubOwners(c);
    SameOutcome(s0, s, c, version);
  }

  // ------------------------------------------------------- a crash leaves no other state

  /** Every prefix of `ops`, run from `r`, is such a state. */
  ghost predicate AllMid(env: Env, r0: Root, pkg: Dir, m: Manifest, r: Root, ops: seq<Op>)
    requires MANIFEST in pkg
    decreases |ops|
  {
    Mid(env, r0, Exec(r, ops), pkg, m) && (ops == [] || AllMid(env, r0, pkg, m, r, ops[..|ops| - 1]))
  }

  lemma {:induction false} MidConcat(env: Env, r0: Root, pkg: Dir, m: Manifest, r: Root, a: seq<Op>, b: seq<Op>)
    requires MANIFEST in pkg
    requires AllMid(env, r0, pkg, m, r, a) && AllMid(env, r0, pkg, m, Exec(r, a), b)
    ensures AllMid(env, r0, pkg, m, r, a + b)
    decreases |b|
  {
    hide Mid, Do;
    ExecConcat(r, a, b);
    if b == [] {
      assert a + b == a;
    } else {
      MidConcat(env, r0, pkg, m, r, a, b[..|b| - 1]);
      assert (a + b)[..|a + b| - 1] == a + b[..|b| - 1];
    }
  }

  lemma {:induction false} MidThroughout(env: Env, r0: Root, pkg: Dir, m: Manifest, r: Root, ops: seq<Op>, k: nat)
    requires MANIFEST in pkg && AllMid(env, r0, pkg, m, r, ops) && k <= |ops|
    ensures Mid(env, r0, Exec(r, ops[..k]), pkg, m)
    decreases |ops|
  {
    hide Mid, Do;
    if k < |ops| {
      MidThroughout(env, r0, pkg, m, r, ops[..|ops| - 1], k);
      assert ops[..|ops| - 1][..k] == ops[..k];
    } else {
      assert ops[..k] == ops;
    }
  }

  /** Writes to staging areas, temporary files and the stubs being refreshed. */
  predicate Gentle(op: Op, c: Name) {
    if op.PutStub? then op.c in StubOwners(c)
    else op.c == c && !op.Promote? && !op.Replace? && !op.Unlink?
  }

  lemma GentleMid(env: Env, r0: Root, pkg: Dir, m: Manifest, r: Root, op: Op)
    requires MANIFEST in pkg && Mid(env, r0, r, pkg, m) && Gentle(op, m.component)
    ensures Mid(env, r0, Do(r, op), pkg, m)
  {
    hide Inspect, StagedRelease;
    var t, t' := r.At(m.component), Do(r, op).At(m.component);
    assert t'.releases == t.releases && t'.active == t.active && t'.previous == t.previous;
  }

  lemma {:induction false} GentleAllMid(env: Env, r0: Root, pkg: Dir, m: Manifest, r: Root, ops: seq<Op>)
    requires MANIFEST in pkg && Mid(env, r0, r, pkg, m)
    requires forall op :: op in ops ==> Gentle(op, m.component)
    ensures AllMid(env, r0, pkg, m, r, ops)
    decreases |ops|
  {
    hide Mid, Do;
    if ops == [] {
      Nothing(r, []);
    } else {
      GentleAllMid(env, r0, pkg, m, r, ops[..|ops| - 1]);
      GentleMid(env, r0, pkg, m, Exec(r, ops[..|ops| - 1]), ops[|ops| - 1]);
    }
  }

  /** The states of one component's tree, everything else being as before. */
  lemma MidAtTree(env: Env, r0: Root, pkg: Dir, m: Manifest, r: Root, t: Tree)
    requires MANIFEST in pkg && Mid(env, r0, r, pkg, m)
    requires MidTree(r0.At(m.component), t, Inspect(env, m.component, r0.At(m.component)), m.version,
        StagedRelease(pkg, m))
    ensures Mid(env, r0, r.With(m.component, t), pkg, m)
  {
    hide Inspect, StagedRelease, MidTree;
  }

  lemma SameMidTree(t0: Tree, t: Tree, s: Tree, active: Active, v: string, d: Dir)
    requires MidTree(t0, t, active, v, d)
    requires s.releases == t.releases && s.active == t.active && s.previous == t.previous
    ensures MidTree(t0, s, active, v, d)
  {
  }

  lemma SingleAllMid(env: Env, r0: Root, pkg: Dir, m: Manifest, r: Root, op: Op)
    requires MANIFEST in pkg && Mid(env, r0, r, pkg, m) && Mid(env, r0, Do(r, op), pkg, m)
    ensures AllMid(env, r0, pkg, m, r, [op])
  {
    hide Mid, Do;
    Exec1(r, op);
    Nothing(r, []);
    assert [op][..0] == [];
    assert AllMid(env, r0, pkg, m, r, []);
  }

  /** A version file may be rewritten, whether or not the rename is refused,
      where both losing and setting it are states of an apply. */
  lemma WriteVersionMid(env: Env, r0: Root, pkg: Dir, m: Manifest, r: Root, which: Which, version: string,
                        refused: bool)
    requires MANIFEST in pkg && Mid(env, r0, r, pkg, m)
    requires var t0, t, d := r0.At(m.component), r.At(m.component), StagedRelease(pkg, m);
      var active := Inspect(env, m.component, t0);
      && MidTree(t0, if which.ActiveVersion? then t.(active := None) else t.(previous := None), active, m.version, d)
      && MidTree(t0, WithVersion(t, which, version), active, m.version, d)
    ensures AllMid(env, r0, pkg, m, r, WriteVersionOps(m.component, which, version, refused))
  {
    hide Inspect, StagedRelease, PathSegment, Mid, MidTree, AllMid;
    var c, t := m.component, r.At(m.component);
    var head := [PutTmp(c, which, ""), PutTmp(c, which, version + "\n")];
    GentleAllMid(env, r0, pkg, m, r, head);
    Exec2(r, head[0], head[1]);
    MidThroughout(env, r0, pkg, m, r, head, 2);
    assert head[..2] == head;
    var s := Exec(r, head);
    var replaced := r.With(c, WithVersion(t, which, version));
    MidAtTree(env, r0, pkg, m, r, WithVersion(t, which, version));
    if refused {
      var u := Do(s, Unlink(c, which));
      var unlinked := if which.ActiveVersion? then t.(active := None) else t.(previous := None);
      SameMidTree(r0.At(c), unlinked, u.At(c), Inspect(env, c, r0.At(c)), m.version, StagedRelease(pkg, m));
      MidAtTree(env, r0, pkg, m, r, u.At(c));
      assert Do(u, Replace(c, which)) == replaced;
      SingleAllMid(env, r0, pkg, m, s, Unlink(c, which));
      SingleAllMid(env, r0, pkg, m, u, Replace(c, which));
      Exec1(s, Unlink(c, which));
      hide Exec, Mid, Do;
      MidConcat(env, r0, pkg, m, s, [Unlink(c, which)], [Replace(c, which)]);
      MidConcat(env, r0, pkg, m, r, head, [Unlink(c, which)] + [Replace(c, which)]);
      assert WriteVersionOps(c, which, version, refused) == head + ([Unlink(c, which)] + [Replace(c, which)]);
    } else {
      assert Do(s, Replace(c, which)) == replaced;
      SingleAllMid(env, r0, pkg, m, s, Replace(c, which));
      hide Exec, Mid, Do;
      MidConcat(env, r0, pkg, m, r, head, [Replace(c, which)]);
      assert WriteVersionOps(c, which, version, refused) == head + [Replace(c, which)];
    }
  }

  /** Switching versions, from a disk that has the release and is otherwise as
      the apply found it. */
  lemma SwitchMid(env: Env, r0: Root, pkg: Dir, m: Manifest, r: Root, luck: Luck)
    requires MANIFEST in pkg && Mid(env, r0, r, pkg, m)
    requires var t0, t := r0.At(m.component), r.At(m.component);
      t.releases == Released(t0, m.version, StagedRelease(pkg, m)) && t.active == t0.active && t.previous == t0.previous
    ensures AllMid(env, r0, pkg, m, r,
        SwitchOps(m.component, Inspect(env, m.component, r0.At(m.component)), m.version, luck))
  {
    hide Inspect, StagedRelease, WriteVersionOps, Exec, PathSegment, Mid;
    var c, v, active := m.component, m.version, Inspect(env, m.component, r0.At(m.component));
    var record := RecordOps(c, active, v, luck.previousRefused);
    if ShouldRecordPreviousVersion(active, v) {
      WriteVersionMid(env, r0, pkg, m, r, PreviousVersion, active.version, luck.previousRefused);
      WriteVersionEffect(r, c, PreviousVersion, active.version, luck.previousRefused);
      MidAtTree(env, r0, pkg, m, r, WithVersion(r.At(c), PreviousVersion, active.version));
    } else {
      Nothing(r, []);
      GentleAllMid(env, r0, pkg, m, r, []);
    }
    WriteVersionMid(env, r0, pkg, m, Exec(r, record), ActiveVersion, v, luck.activeRefused);
    MidConcat(env, r0, pkg, m, r, record, WriteVersionOps(c, ActiveVersion, v, luck.activeRefused));
  }

  lemma {:induction false} StubsGentle(r: Root, version: string, components: seq<Name>, c: Name)
    requires forall d :: d in components ==> d in StubOwners(c)
    ensures forall op :: op in StubsPlan(r, version, components).ops ==> Gentle(op, c)
    decreases |components|
  {
    hide Exec;
    if components != [] && Asset(r, version).Some? {
      StubsGentle(Exec(r, StubOps(components[0], Asset(r, version).value)), version, components[1..], c);
    }
  }

  lemma FinishMid(env: Env, r0: Root, pkg: Dir, m: Manifest, r: Root, version: string, luck: Luck)
    requires MANIFEST in pkg && Mid(env, r0, r, pkg, m)
    requires var t0, t := r0.At(m.component), r.At(m.component);
      t.releases == Released(t0, m.version, StagedRelease(pkg, m)) && t.active == t0.active && t.previous == t0.previous
    ensures AllMid(env, r0, pkg, m, r,
      FinishPlan(r, m.component, m.version, Inspect(env, m.component, r0.At(m.component)), version, luck).ops)
  {
    hide Inspect, StagedRelease, SwitchOps, StubsPlan, Exec, Mid, Released;
    var c, active := m.component, Inspect(env, m.component, r0.At(m.component));
    var switch := SwitchOps(c, active, m.version, luck);
    SwitchMid(env, r0, pkg, m, r, luck);
    var s := Exec(r, switch);
    var stubs := StubsPlan(s, version, StubOwners(c));
    StubsGentle(s, version, StubOwners(c), c);
    GentleAllMid(env, r0, pkg, m, s, stubs.ops);
    MidConcat(env, r0, pkg, m, r, switch, stubs.ops);
  }

  lemma {:induction false} CopiesGentle(c: Name, v: string, pkg: Dir, files: seq<ManifestFile>, k: nat)
    requires k <= |files|
    ensures forall op :: op in CopiesOps(c, v, pkg, files, k) ==> Gentle(op, c)
  {
    if k > 0 {
      CopiesGentle(c, v, pkg, files, k - 1);
    }
  }

  lemma {:induction false} DropGentle(c: Name, v: string, order: seq<string>, k: nat)
    requires k <= |order|
    ensures forall op :: op in DropFiles(c, v, order, k) ==> Gentle(op, c)
  {
    if k > 0 {
      DropGentle(c, v, order, k - 1);
    }
  }

  lemma StageGentle(env: Env, pkg: Dir, m: Manifest, order: seq<string>)
    requires MANIFEST in pkg
    ensures forall op :: op in StagePlan(env, pkg, m, order).ops ==> Gentle(op, m.component)
  {
    DropGentle(m.component, m.version, order, |order|);
    CopiesGentle(m.component, m.version, pkg, m.files, FirstFailure(env, pkg, m.files, 0).0);
  }

  lemma NothingDone(env: Env, r0: Root, pkg: Dir, m: Manifest)
    requires MANIFEST in pkg
    ensures Mid(env, r0, r0, pkg, m)
  {
  }

  lemma NewReleaseMid(env: Env, r: Root, pkg: Dir, m: Manifest, resolved: string, luck: Luck)
    requires MANIFEST in pkg && Accepts(env, r, pkg, m) && Formed(m) && m.version !in r.At(m.component).releases
    requires m.component.InstallerName? ==> resolved == m.version
    requires !m.component.InstallerName? ==> Asset(r, resolved).Some?
    ensures AllMid(env, r, pkg, m, r,
      NewReleasePlan(env, r, pkg, m, Inspect(env, m.component, r.At(m.component)), resolved, luck).ops)
  {
    var c, v, t := m.component, m.version, r.At(m.component);
    hide Inspect, FirstFailure, StagedRelease, FinishPlan, StagePlan, LauncherProblem, DropOps, Exec, Mid, Formed,
        ResolveInstaller;
    var active, d := Inspect(env, c, t), StagedRelease(pkg, m);
    var stage := StagePlan(env, pkg, m, luck.order);
    var staged := Exec(r, stage.ops);
    NothingDone(env, r, pkg, m);
    StageGentle(env, pkg, m, luck.order);
    GentleAllMid(env, r, pkg, m, r, stage.ops);
    StagePromoted(env, r, pkg, m, luck.order);
    var promoted := Do(staged, Promote(c, v));
    var t1 := t.(releases := Released(t, v, d), staging := t.staging - {v});
    MidAtTree(env, r, pkg, m, r, t1);
    FinishMid(env, r, pkg, m, promoted, resolved, luck);
    var finish := FinishPlan(promoted, c, v, active, resolved, luck);
    PromoteOutcome(staged, m, active, resolved, luck);
    var promote := PromotePlan(staged, m, active, resolved, luck);
    assert promote.ops == [Promote(c, v)] + finish.ops by {
      assert [Promote(c, v)] + finish.ops + [] == [Promote(c, v)] + finish.ops;
    }
    MidThroughout(env, r, pkg, m, r, stage.ops, |stage.ops|);
    assert stage.ops[..|stage.ops|] == stage.ops;
    SingleAllMid(env, r, pkg, m, staged, Promote(c, v));
    Exec1(staged, Promote(c, v));
    hide Do, PromotePlan;
    MidConcat(env, r, pkg, m, staged, [Promote(c, v)], finish.ops);
    MidConcat(env, r, pkg, m, r, stage.ops, promote.ops);
  }

  /** Whatever write an accepted apply is cut off after. */
  lemma ApplyMid(env: Env, r: Root, pkg: Dir, m: Manifest, luck: Luck, k: nat)
    requires MANIFEST in pkg && Accepts(env, r, pkg, m) && Formed(m)
    requires k <= |ApplyPlan(env, r, pkg, luck).ops|
    ensures Mid(env, r, Exec(r, ApplyPlan(env, r, pkg, luck).ops[..k]), pkg, m)
  {
    var ops := ApplyPlan(env, r, pkg, luck).ops;
    NothingDone(env, r, pkg, m);
    if !m.component.InstallerName? {
      InChargeThere(env, r, m);
    }
    hide Inspect, FirstFailure, StagedRelease, FinishPlan, NewReleasePlan, Exec, Mid, Formed, ReleaseProblem;
    var resolved := ResolveInstaller(env, r, m.component, m.version, m.minInstaller).value;
    if m.version in r.At(m.component).releases {
      FinishMid(env, r, pkg, m, r, resolved, luck);
    } else {
      NewReleaseMid(env, r, pkg, m, resolved, luck);
    }
    MidThroughout(env, r, pkg, m, r, ops, k);
  }

  // ------------------------------------------------------- retrying

  datatype Attempt = Attempt(luck: Luck, writes: nat)

  /** A disk after several attempts at the same apply, each cut off after some write. */
  function Attempted(env: Env, r: Root, pkg: Dir, attempts: seq<Attempt>): (r': Root)
    decreases |attempts|
  {
    if attempts == [] then r
    else
      var before, last := Attempted(env, r, pkg, attempts[..|attempts| - 1]), attempts[|attempts| - 1];
      Acted(env, before, Act(Apply(pkg), last.luck, last.writes))
  }

  lemma {:induction false} AttemptsKeepOutcome(env: Env, r: Root, pkg: Dir, m: Manifest, attempts: seq<Attempt>)
    requires MANIFEST in pkg && Accepts(env, r, pkg, m) && Formed(m)
    ensures var s := Attempted(env, r, pkg, attempts);
      Accepts(env, s, pkg, m) && Outcome(env, s, pkg, m) == Outcome(env, r, pkg, m)
    decreases |attempts|
  {
    hide Accepts, Outcome, ApplyPlan, Exec, Mid, Formed;
    if attempts != [] {
      var before, last := Attempted(env, r, pkg, attempts[..|attempts| - 1]), attempts[|attempts| - 1];
      AttemptsKeepOutcome(env, r, pkg, m, attempts[..|attempts| - 1]);
      var ops := ApplyPlan(env, before, pkg, last.luck).ops;
      var cut := if last.writes < |ops| then last.writes else |ops|;
      ApplyMid(env, before, pkg, m, last.luck, cut);
      assert ops[..|ops|] == ops;
      MidOutcome(env, before, Exec(before, ops[..cut]), pkg, m);
    }
  }

  /** From any disk on which an apply succeeds: stop it after any single write,
      any number of times, let renames be refused or not, and run it once more.
      It succeeds, and the releases, the active and previous versions and the
      stubs are those of the uninterrupted apply. */
  lemma ApplyIsRetriable(env: Env, r: Root, pkg: Dir, attempts: seq<Attempt>, luck: Luck, retryLuck: Luck)
    requires StrictLoader(env) && ApplyPlan(env, r, pkg, luck).error.None?
    ensures var s := Attempted(env, r, pkg, attempts);
      && ApplyPlan(env, s, pkg, retryLuck).error.None?
      && Visible(Exec(s, ApplyPlan(env, s, pkg, retryLuck).ops)) == Visible(Exec(r, ApplyPlan(env, r, pkg, luck).ops))
  {
    ApplyExactly(env, r, pkg, luck);
    hide Accepts, Outcome, ApplyPlan, Exec, Attempted, Formed;
    var m := env.load(pkg[MANIFEST].content).value;
    AttemptsKeepOutcome(env, r, pkg, m, attempts);
    ApplyOutcome(env, r, pkg, m, luck);
    ApplyOutcome(env, Attempted(env, r, pkg, attempts), pkg, m, retryLuck);
  }

  // ------------------------------------------------------- retrying what fails

  /** Writes to staging areas and temporary files. */
  predicate Unseen(op: Op) { !op.Promote? && !op.Replace? && !op.Unlink? && !op.PutStub? }

  lemma {:induction false} UnseenVisible(r: Root, ops: seq<Op>)
    requires forall op :: op in ops ==> Unseen(op)
    ensures Visible(Exec(r, ops)) == Visible(r)
    decreases |ops|
  {
    if ops != [] {
      var before, op := Exec(r, ops[..|ops| - 1]), ops[|ops| - 1];
      UnseenVisible(r, ops[..|ops| - 1]);
      hide Exec;
      assert Unseen(op);
      SameTrees(Visible(Do(before, op)), Visible(before));
    }
  }

  lemma RefusedUnseen(env: Env, r: Root, pkg: Dir, m: Manifest, active: Active, resolved: string, luck: Luck)
    requires MANIFEST in pkg && m.version !in r.At(m.component).releases
    requires FirstFailure(env, pkg, m.files, 0).1.Some?
        || (m.component.InstallerName? && LauncherProblem(StagedRelease(pkg, m)).Some?)
    ensures forall op :: op in NewReleasePlan(env, r, pkg, m, active, resolved, luck).ops ==> Unseen(op)
  {
    StageEffect(env, r, pkg, m, luck.order);
    StageNoStubs(env, pkg, m, luck.order);
    hide Exec, FirstFailure, StagedRelease, FinishPlan, LauncherProblem, StagePlan, DropOps;
  }

  lemma {:induction false} DropNoStubs(c: Name, v: string, order: seq<string>, k: nat)
    requires k <= |order|
    ensures forall op :: op in DropFiles(c, v, order, k) ==> Unseen(op)
  {
    if k > 0 {
      DropNoStubs(c, v, order, k - 1);
    }
  }

  lemma {:induction false} CopiesNoStubs(c: Name, v: string, pkg: Dir, files: seq<ManifestFile>, k: nat)
    requires k <= |files|
    ensures forall op :: op in CopiesOps(c, v, pkg, files, k) ==> Unseen(op)
  {
    if k > 0 {
      CopiesNoStubs(c, v, pkg, files, k - 1);
    }
  }

  lemma StageNoStubs(env: Env, pkg: Dir, m: Manifest, order: seq<string>)
    requires MANIFEST in pkg
    ensures forall op :: op in StagePlan(env, pkg, m, order).ops ==> Unseen(op)
    ensures forall op :: op in DropOps(m.component, m.version, order) ==> Unseen(op)
  {
    DropNoStubs(m.component, m.version, order, |order|);
    CopiesNoStubs(m.component, m.version, pkg, m.files, FirstFailure(env, pkg, m.files, 0).0);
  }

  /** An apply that fails writes to staging areas only. */
  lemma FailingUnseen(env: Env, r: Root, pkg: Dir, luck: Luck)
    requires StrictLoader(env) && ApplyPlan(env, r, pkg, luck).error.Some?
    ensures forall op :: op in ApplyPlan(env, r, pkg, luck).ops ==> Unseen(op)
  {
    ApplyExactly(env, r, pkg, luck);
    hide Exec, Inspect, ReleaseProblem, FirstFailure, StagedRelease, FinishPlan, NewReleasePlan, ResolveInstaller,
        Formed;
    if MANIFEST in pkg && env.load(pkg[MANIFEST].content).Some? {
      var m := env.load(pkg[MANIFEST].content).value;
      var active := Inspect(env, m.component, r.At(m.component));
      var installer := ResolveInstaller(env, r, m.component, m.version, m.minInstaller);
      if installer.Ok? && m.version !in r.At(m.component).releases {
        RefusedUnseen(env, r, pkg, m, active, installer.value, luck);
      }
    }
  }

  /** What an apply accepts depends on what is visible. */
  lemma AcceptsVisible(env: Env, r: Root, s: Root, pkg: Dir, m: Manifest)
    requires MANIFEST in pkg && Visible(r) == Visible(s)
    ensures Accepts(env, r, pkg, m) <==> Accepts(env, s, pkg, m)
  {
    assert forall c :: Visible(r).At(c) == VisibleTree(r.At(c)) && Visible(s).At(c) == VisibleTree(s.At(c));
    assert VisibleTree(r.At(InstallerName)) == VisibleTree(s.At(InstallerName));
    assert VisibleTree(r.At(m.component)) == VisibleTree(s.At(m.component));
    VisibleInspects(env, r, s);
    hide Inspect, ReleaseProblem, FirstFailure, StagedRelease, LauncherProblem;
  }

  /** An apply that fails, stopped after any write, any number of times, leaves
      everything but staging areas as it was and still fails when run again. */
  lemma {:induction false} FailingApplyRetried(env: Env, r: Root, pkg: Dir, attempts: seq<Attempt>, luck: Luck,
                                               retryLuck: Luck)
    requires StrictLoader(env) && ApplyPlan(env, r, pkg, luck).error.Some?
    ensures var s := Attempted(env, r, pkg, attempts);
      Visible(s) == Visible(r) && ApplyPlan(env, s, pkg, retryLuck).error.Some?
    decreases |attempts|
  {
    hide ApplyPlan, Exec, Accepts, Visible;
    var s := Attempted(env, r, pkg, attempts);
    if attempts != [] {
      var before, last := Attempted(env, r, pkg, attempts[..|attempts| - 1]), attempts[|attempts| - 1];
      FailingApplyRetried(env, r, pkg, attempts[..|attempts| - 1], luck, last.luck);
      var ops := ApplyPlan(env, before, pkg, last.luck).ops;
      FailingUnseen(env, before, pkg, last.luck);
      UnseenVisible(before, if last.writes < |ops| then ops[..last.writes] else ops);
    }
    ApplyExactly(env, r, pkg, luck);
    ApplyExactly(env, s, pkg, retryLuck);
    if MANIFEST in pkg && env.load(pkg[MANIFEST].content).Some? {
      AcceptsVisible(env, r, s, pkg, env.load(pkg[MANIFEST].content).value);
    }
  }
}
