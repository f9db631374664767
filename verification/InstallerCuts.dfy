/**
 Cut off after each of its writes: which rollbacks can be run again and what
 the others come to, and which stubs an interrupted installer operation leaves
 stale.
 */
module InstallerCuts {
  import opened Prelude
  import opened InstallerDisk
  import opened InstallerOperations
  import opened InstallerSafety
  import opened InstallerRetry
  import opened InstallerStubs

  // ------------------------------------------------------- one version file

  /** How far the replacement of a version file has come: its temporary file
      only, removed for a refused rename, or replaced. */
  datatype Progress = Untouched | Lost | Replaced

  function ProgressAt(refused: bool, k: nat): (p: Progress) {
    if k <= 2 then Untouched else if refused && k == 3 then Lost else Replaced
  }

  function VersionAfter(t: Tree, which: Which, version: string, p: Progress): (r: Tree) {
    match p
    case Untouched => t
    case Lost => if which.ActiveVersion? then t.(active := None) else t.(previous := None)
    case Replaced => WithVersion(t, which, version)
  }

  /** The same releases and version files. */
  predicate SameFiles(t: Tree, u: Tree) {
    u.releases == t.releases && u.active == t.active && u.previous == t.previous
  }

  lemma SameVisible(r: Root, s: Root)
    ensures Visible(r) == Visible(s) <==> forall c :: SameFiles(r.At(c), s.At(c)) && s.At(c).stub == r.At(c).stub
  {
    assert forall c :: Visible(r).At(c) == VisibleTree(r.At(c)) && Visible(s).At(c) == VisibleTree(s.At(c));
    if forall c :: SameFiles(r.At(c), s.At(c)) && s.At(c).stub == r.At(c).stub {
      SameTrees(Visible(r), Visible(s));
    }
  }

  lemma {:induction false} ExecPrefix(r: Root, ops: seq<Op>, k: nat)
    requires k < |ops|
    ensures Exec(r, ops[..k + 1]) == Do(Exec(r, ops[..k]), ops[k])
  {
    assert ops[..k + 1] == ops[..k] + [ops[k]];
    ExecSnoc(r, ops[..k], ops[k]);
  }

  lemma WriteVersionPrefix(r: Root, c: Name, which: Which, version: string, refused: bool, k: nat)
    requires k <= |WriteVersionOps(c, which, version, refused)|
    ensures var s := Exec(r, WriteVersionOps(c, which, version, refused)[..k]);
      && (forall d :: d != c ==> s.At(d) == r.At(d))
      && SameFiles(VersionAfter(r.At(c), which, version, ProgressAt(refused, k)), s.At(c))
      && s.At(c).stub == r.At(c).stub
  {
    var ops := WriteVersionOps(c, which, version, refused);
    assert |ops| == if refused then 4 else 3;
    assert ops[..0] == [] && Exec(r, []) == r;
    ExecPrefix(r, ops, 0);
    ExecPrefix(r, ops, 1);
    ExecPrefix(r, ops, 2);
    if refused {
      ExecPrefix(r, ops, 3);
    }
    hide Exec;
  }

  // ------------------------------------------------------- rollback

  /** Where a rollback can be cut off, by what has become of the version files. */
  datatype Window = Before | PreviousLost | PreviousReplaced | ActiveLost | BothReplaced

  function WindowAt(luck: Luck, k: nat): (w: Window) {
    var p := if luck.previousRefused then 4 else 3;
    if k <= 2 then Before
    else if k < p then PreviousLost
    else if k <= p + 2 then PreviousReplaced
    else if luck.activeRefused && k == p + 3 then ActiveLost
    else BothReplaced
  }

  function RollbackTree(t: Tree, from: string, to: string, w: Window): (r: Tree) {
    match w
    case Before => t
    case PreviousLost => t.(previous := None)
    case PreviousReplaced => WithVersion(t, PreviousVersion, from)
    case ActiveLost => WithVersion(t, PreviousVersion, from).(active := None)
    case BothReplaced => Swapped(t, from, to)
  }

  lemma TakeJoined(a: seq<Op>, b: seq<Op>, k: nat)
    requires k <= |a + b|
    ensures k <= |a| ==> (a + b)[..k] == a[..k]
    ensures |a| <= k ==> (a + b)[..k] == a + b[..k - |a|]
  {
  }

  lemma VersionLength(c: Name, which: Which, version: string, refused: bool)
    ensures |WriteVersionOps(c, which, version, refused)| == if refused then 4 else 3
  {
  }

  lemma SwapPrefix(r: Root, c: Name, from: string, to: string, luck: Luck, k: nat)
    requires k <= |SwapOps(c, from, to, luck)|
    ensures var s := Exec(r, SwapOps(c, from, to, luck)[..k]);
      && (forall d :: d != c ==> s.At(d) == r.At(d))
      && SameFiles(RollbackTree(r.At(c), from, to, WindowAt(luck, k)), s.At(c)) && s.At(c).stub == r.At(c).stub
  {
    hide WriteVersionOps, Exec;
    var first := WriteVersionOps(c, PreviousVersion, from, luck.previousRefused);
    var second := WriteVersionOps(c, ActiveVersion, to, luck.activeRefused);
    VersionLength(c, PreviousVersion, from, luck.previousRefused);
    VersionLength(c, ActiveVersion, to, luck.activeRefused);
    TakeJoined(first, second, k);
    if k <= |first| {
      WriteVersionPrefix(r, c, PreviousVersion, from, luck.previousRefused, k);
    } else {
      SwapSecond(r, c, from, to, luck, first, second, k - |first|);
    }
  }

  lemma SwapSecond(r: Root, c: Name, from: string, to: string, luck: Luck, first: seq<Op>, second: seq<Op>, j: nat)
    requires first == WriteVersionOps(c, PreviousVersion, from, luck.previousRefused)
    requires second == WriteVersionOps(c, ActiveVersion, to, luck.activeRefused) && j <= |second|
    ensures var s := Exec(r, first + second[..j]);
      && (forall d :: d != c ==> s.At(d) == r.At(d))
      && SameFiles(VersionAfter(WithVersion(r.At(c), PreviousVersion, from), ActiveVersion, to,
          ProgressAt(luck.activeRefused, j)), s.At(c))
      && s.At(c).stub == r.At(c).stub
  {
    hide WriteVersionOps, Exec;
    ExecConcat(r, first, second[..j]);
    WriteVersionEffect(r, c, PreviousVersion, from, luck.previousRefused);
    WriteVersionPrefix(Exec(r, first), c, ActiveVersion, to, luck.activeRefused, j);
  }

  lemma {:induction false} StubWrites(r: Root, ops: seq<Op>, c: Name)
    requires forall op :: op in ops ==> op.PutStub? && op.c in StubOwners(c)
    ensures var s := Exec(r, ops);
      SameButStubs(r, s) && forall d :: d !in StubOwners(c) ==> s.At(d) == r.At(d)
    decreases |ops|
  {
    if ops != [] {
      StubWrites(r, ops[..|ops| - 1], c);
      assert ops[|ops| - 1] in ops;
    }
  }

  lemma {:induction false} StubsPlanWrites(r: Root, version: string, components: seq<Name>, c: Name)
    requires forall d :: d in components ==> d in StubOwners(c)
    ensures forall op :: op in StubsPlan(r, version, components).ops ==> op.PutStub? && op.c in StubOwners(c)
    decreases |components|
  {
    hide Exec;
    if components != [] && Asset(r, version).Some? {
      StubsPlanWrites(Exec(r, StubOps(components[0], Asset(r, version).value)), version, components[1..], c);
    }
  }

  /** Every disk an interrupted rollback can leave: the version files are in one
      of five states, and stubs differ only once both are switched. */
  lemma RollbackMid(env: Env, r: Root, c: Name, luck: Luck, k: nat)
    requires RollbackPlan(env, r, c, luck).error.None? && k <= |RollbackPlan(env, r, c, luck).ops|
    requires RollbackTarget(env, c, r.At(c)).Ok? && Inspect(env, c, r.At(c)).Installed?
    ensures var from, to := Inspect(env, c, r.At(c)).version, RollbackTarget(env, c, r.At(c)).value;
      var s, w := Exec(r, RollbackPlan(env, r, c, luck).ops[..k]), WindowAt(luck, k);
      && SameFiles(RollbackTree(r.At(c), from, to, w), s.At(c))
      && (forall d :: d != c ==> SameFiles(r.At(d), s.At(d)))
      && (forall d :: w != BothReplaced || d !in StubOwners(c) ==> s.At(d).stub == r.At(d).stub)
  {
    hide RollbackPlan, RollbackTarget, Inspect, SwapOps, Exec, StubsPlan, RollbackTree;
    var from, to := Inspect(env, c, r.At(c)).version, RollbackTarget(env, c, r.At(c)).value;
    var swap := SwapOps(c, from, to, luck);
    var ops := RollbackPlan(env, r, c, luck).ops;
    SwapLength(c, from, to, luck);
    RollbackShape(env, r, c, luck);
    TakeJoined(swap, ops[|swap|..], k);
    assert swap + ops[|swap|..] == ops;
    if k <= |swap| {
      SwapPrefix(r, c, from, to, luck, k);
    } else {
      SwapPrefix(r, c, from, to, luck, |swap|);
      assert swap[..|swap|] == swap;
      StubsAfterSwap(r, swap, ops[|swap|..][..k - |swap|], c);
    }
  }

  lemma StubsAfterSwap(r: Root, swap: seq<Op>, rest: seq<Op>, c: Name)
    requires forall op :: op in rest ==> op.PutStub? && op.c in StubOwners(c)
    ensures var s, u := Exec(r, swap), Exec(r, swap + rest);
      && (forall d :: SameFiles(s.At(d), u.At(d)))
      && (forall d :: d !in StubOwners(c) ==> u.At(d) == s.At(d))
  {
    hide Exec;
    ExecConcat(r, swap, rest);
    StubWrites(Exec(r, swap), rest, c);
  }

  lemma SwapLength(c: Name, from: string, to: string, luck: Luck)
    ensures |SwapOps(c, from, to, luck)| ==
        (if luck.previousRefused then 4 else 3) + (if luck.activeRefused then 4 else 3)
  {
  }

  lemma RollbackShape(env: Env, r: Root, c: Name, luck: Luck)
    requires RollbackPlan(env, r, c, luck).error.None?
    requires RollbackTarget(env, c, r.At(c)).Ok? && Inspect(env, c, r.At(c)).Installed?
    ensures var swap := SwapOps(c, Inspect(env, c, r.At(c)).version, RollbackTarget(env, c, r.At(c)).value, luck);
      var ops := RollbackPlan(env, r, c, luck).ops;
      && |swap| <= |ops| && ops[..|swap|] == swap
      && (forall op :: op in ops[|swap|..] ==> op.PutStub? && op.c in StubOwners(c))
  {
    hide Inspect, RollbackTarget, ResolveInstaller, SwapOps, StubsPlan, Exec;
    var swap := SwapOps(c, Inspect(env, c, r.At(c)).version, RollbackTarget(env, c, r.At(c)).value, luck);
    var installer := ResolveInstaller(env, Exec(r, swap), c, RollbackTarget(env, c, r.At(c)).value, "0.0.0");
    if installer.Ok? {
      StubsPlanWrites(Exec(r, swap), installer.value, StubOwners(c), c);
    }
  }

  /** A component's trees that differ in what no check reads. */
  lemma SameChecks(env: Env, c: Name, t: Tree, u: Tree)
    requires SameFiles(t, u)
    ensures Inspect(env, c, u) == Inspect(env, c, t) && RollbackTarget(env, c, u) == RollbackTarget(env, c, t)
  {
    hide ReleaseProblem, Trimmed;
  }

  lemma SameInstallers(env: Env, r: Root, s: Root, c: Name, version: string)
    requires c.InstallerName? || SameFiles(r.installer, s.installer)
    ensures ResolveInstaller(env, s, c, version, "0.0.0") == ResolveInstaller(env, r, c, version, "0.0.0")
  {
    if !c.InstallerName? {
      SameChecks(env, InstallerName, r.installer, s.installer);
    }
    hide Inspect;
  }

  /** What running a rollback again comes to, by where it was cut off: only
      before the previous version was touched does it reach the disk of an
      uninterrupted rollback. After that it is refused, and once the versions
      are switched it goes back to the version that was active at first. */
  lemma RollbackCutExactly(env: Env, r: Root, c: Name, luck: Luck, retryLuck: Luck, k: nat)
    requires Inv(env, r) && RollbackPlan(env, r, c, luck).error.None? && k <= |RollbackPlan(env, r, c, luck).ops|
    ensures var s := Exec(r, RollbackPlan(env, r, c, luck).ops[..k]);
      var retry := RollbackPlan(env, s, c, retryLuck);
      var u := Exec(s, retry.ops);
      && (match WindowAt(luck, k)
          case Before => retry.error.None?
          case PreviousLost => retry == Plan(Some(PreviousMissing), [])
          case PreviousReplaced => retry == Plan(Some(PreviousIsActive), [])
          case ActiveLost => retry == Plan(Some(ActiveMissing), []) && s.At(c).active.None?
          case BothReplaced =>
            retry.error.None? && u.At(c).active == r.At(c).active && u.At(c).previous == r.At(c).previous)
      && (Visible(u) == Visible(Exec(r, RollbackPlan(env, r, c, luck).ops)) <==> k <= 2)
  {
    hide RollbackPlan, RollbackTarget, ResolveInstaller, Inspect, Exec, Inv;
    RollbackEffect(env, r, c, luck);
    PreviousThere(env, r, c);
    InspectedThere(env, r, c);
    RollbackMid(env, r, c, luck, k);
    var from, to := Inspect(env, c, r.At(c)).version, RollbackTarget(env, c, r.At(c)).value;
    var s, w := Exec(r, RollbackPlan(env, r, c, luck).ops[..k]), WindowAt(luck, k);
    var t := RollbackTree(r.At(c), from, to, w);
    assert c in StubOwners(c);
    SameChecks(env, c, t, s.At(c));
    RollbackEffect(env, s, c, retryLuck);
    LastDiffers(from, to);
    assert RolledBack(env, r, c).At(c).active == Some(to + "\n");
    var u := Exec(s, RollbackPlan(env, s, c, retryLuck).ops);
    SameVisible(u, RolledBack(env, r, c));
    if w.Before? {
      CutBefore(env, r, s, c);
    } else if w.BothReplaced? {
      CutSwitched(env, r, s, c, from, to);
    } else {
      CutBetween(env, r, c, from, to, w);
    }
  }

  lemma CutBefore(env: Env, r: Root, s: Root, c: Name)
    requires Inv(env, r) && RollbackTarget(env, c, r.At(c)).Ok? && RollbackInstaller(env, r, c).Ok?
    requires forall d :: SameFiles(r.At(d), s.At(d)) && s.At(d).stub == r.At(d).stub
    ensures RollbackTarget(env, c, s.At(c)).Ok? && RollbackInstaller(env, s, c).Ok?
    ensures forall d :: SameFiles(RolledBack(env, r, c).At(d), RolledBack(env, s, c).At(d))
                        && RolledBack(env, s, c).At(d).stub == RolledBack(env, r, c).At(d).stub
  {
    hide RollbackTarget, ResolveInstaller, Inspect, Inv, Healthy, Trimmed;
    PreviousThere(env, r, c);
    SameChecks(env, c, r.At(c), s.At(c));
    assert SameFiles(r.At(InstallerName), s.At(InstallerName));
    SameInstallers(env, r, s, c, RollbackTarget(env, c, r.At(c)).value);
    SameRolledBack(env, r, s, c);
  }

  lemma SameRolledBack(env: Env, r: Root, s: Root, c: Name)
    requires RollbackTarget(env, c, r.At(c)).Ok? && RollbackInstaller(env, r, c).Ok?
    requires RollbackTarget(env, c, s.At(c)) == RollbackTarget(env, c, r.At(c))
    requires RollbackInstaller(env, s, c) == RollbackInstaller(env, r, c)
    requires Inspect(env, c, s.At(c)) == Inspect(env, c, r.At(c)) && Inspect(env, c, r.At(c)).Installed?
    requires forall d :: SameFiles(r.At(d), s.At(d)) && s.At(d).stub == r.At(d).stub
    ensures forall d :: SameFiles(RolledBack(env, r, c).At(d), RolledBack(env, s, c).At(d))
                        && RolledBack(env, s, c).At(d).stub == RolledBack(env, r, c).At(d).stub
  {
    hide RollbackTarget, RollbackInstaller, Inspect;
    assert forall version :: Asset(s, version) == Asset(r, version) by {
      assert SameFiles(r.At(InstallerName), s.At(InstallerName));
    }
  }

  lemma CutBetween(env: Env, r: Root, c: Name, from: string, to: string, w: Window)
    requires Inv(env, r) && RollbackTarget(env, c, r.At(c)) == Ok(to) && Inspect(env, c, r.At(c)) == Installed(from)
    requires !w.Before? && !w.BothReplaced?
    ensures RollbackTarget(env, c, RollbackTree(r.At(c), from, to, w)) ==
      Err(match w
          case PreviousLost => PreviousMissing
          case PreviousReplaced => PreviousIsActive
          case _ => ActiveMissing)
    ensures RollbackTree(r.At(c), from, to, w).active != Some(to + "\n")
  {
    PreviousThere(env, r, c);
    InspectedThere(env, r, c);
    LastDiffers(from, to);
    VersionReadsBack(from);
    hide ReleaseProblem, Trimmed, PathSegment;
  }

  lemma CutSwitched(env: Env, r: Root, s: Root, c: Name, from: string, to: string)
    requires Inv(env, r) && RollbackTarget(env, c, r.At(c)) == Ok(to) && Inspect(env, c, r.At(c)) == Installed(from)
    requires RollbackInstaller(env, r, c).Ok?
    requires SameFiles(Swapped(r.At(c), from, to), s.At(c))
    requires forall d :: d != c ==> SameFiles(r.At(d), s.At(d))
    ensures Inspect(env, c, s.At(c)) == Installed(to) && RollbackTarget(env, c, s.At(c)) == Ok(from)
    ensures RollbackInstaller(env, s, c).Ok?
    ensures RolledBack(env, s, c).At(c).active == Some(from + "\n")
    ensures RolledBack(env, s, c).At(c).previous == Some(to + "\n")
  {
    TargetBack(env, r, c);
    hide RollbackTarget, ResolveInstaller, Inspect, Inv;
    SameChecks(env, c, Swapped(r.At(c), from, to), s.At(c));
    if c.InstallerName? {
      RollbackInstallerKept(env, s, c, s.At(c), from);
    } else {
      assert SameFiles(r.At(InstallerName), s.At(InstallerName));
      SameInstallers(env, r, s, c, from);
      NoMinimum(env, r, c, to, from);
    }
  }

  // ------------------------------------------------------- stubs at each cut of an installer operation

  function AllStubOps(asset: File): (ops: seq<Op>)
    ensures |ops| == 9
  {
    StubOps(InstallerName, asset) + StubOps(AgentName, asset) + StubOps(ServerName, asset)
  }

  /** The place of a component's stub among the refreshed ones. */
  function Turn(c: Name): (i: nat) {
    match c
    case InstallerName => 0
    case AgentName => 1
    case ServerName => 2
  }

  /** A component's stub after the first `j` of the nine writes. */
  function StubAfter(stub: Option<File>, c: Name, asset: File, j: nat): (r: Option<File>) {
    if j <= 3 * Turn(c) then stub
    else if j == 3 * Turn(c) + 1 then Some(File([], asset.launchable))
    else if j == 3 * Turn(c) + 2 then Some(asset)
    else Some(Launchered(asset))
  }

  lemma StubOpAt(asset: File, j: nat, c: Name, stub: Option<File>)
    requires j < 9
    ensures AllStubOps(asset)[j].PutStub?
    ensures StubAfter(stub, c, asset, j + 1) ==
      if AllStubOps(asset)[j].c == c then Some(AllStubOps(asset)[j].file) else StubAfter(stub, c, asset, j)
  {
    var owner := if j < 3 then InstallerName else if j < 6 then AgentName else ServerName;
    assert AllStubOps(asset)[j] == StubOps(owner, asset)[j - 3 * Turn(owner)];
    hide AllStubOps;
    match c
    case InstallerName =>
    case AgentName =>
    case ServerName =>
  }

  lemma {:induction false} StubsPrefix(r: Root, asset: File, j: nat)
    requires j <= 9
    ensures var s := Exec(r, AllStubOps(asset)[..j]);
      SameButStubs(r, s) && forall c :: s.At(c).stub == StubAfter(r.At(c).stub, c, asset, j)
  {
    var ops := AllStubOps(asset);
    if j == 0 {
      assert ops[..0] == [];
    } else {
      hide Exec, AllStubOps, StubAfter;
      StubsPrefix(r, asset, j - 1);
      ExecPrefix(r, ops, j - 1);
      var before, s := Exec(r, ops[..j - 1]), Exec(r, ops[..j]);
      forall c ensures s.At(c) == before.At(c).(stub := StubAfter(r.At(c).stub, c, asset, j)) {
        StubOpAt(asset, j - 1, c, r.At(c).stub);
      }
    }
  }

  lemma AllStubsPlan(r: Root, version: string)
    requires Asset(r, version).Some?
    ensures StubsPlan(r, version, ALL_NAMES) == Plan(None, AllStubOps(Asset(r, version).value))
  {
    var asset := Asset(r, version).value;
    var a, b, d := StubOps(InstallerName, asset), StubOps(AgentName, asset), StubOps(ServerName, asset);
    StubEffect(r, InstallerName, asset);
    var s := Exec(r, a);
    StubEffect(s, AgentName, asset);
    var t := Exec(s, b);
    hide Exec, StubOps;
    assert Asset(s, version) == Asset(t, version) == Some(asset);
    assert ALL_NAMES[1..] == [AgentName, ServerName] && [AgentName, ServerName][1..] == [ServerName]
        && |[ServerName][1..]| == 0;
    assert StubsPlan(t, version, [ServerName]) == Plan(None, d) by { assert d + [] == d; }
    assert StubsPlan(s, version, [AgentName, ServerName]) == Plan(None, b + d);
    assert a + (b + d) == a + b + d;
  }

  /** Writes of an installer operation before it switches the active version:
      no stub, and no release that was there. */
  predicate Preparing(r: Root, op: Op) {
    && op.c == InstallerName && !op.PutStub?
    && op != Replace(InstallerName, ActiveVersion)
    && (op.Promote? ==> op.v !in r.installer.releases)
  }

  /** What preparing leaves alone. */
  ghost predicate Prepared(r: Root, s: Root) {
    && (forall c :: s.At(c).stub == r.At(c).stub)
    && (s.installer.active.None? || s.installer.active == r.installer.active)
    && (forall v :: v in r.installer.releases ==>
        v in s.installer.releases && s.installer.releases[v] == r.installer.releases[v])
  }

  lemma PreparingDo(r: Root, s: Root, op: Op)
    requires Prepared(r, s) && Preparing(r, op)
    ensures Prepared(r, Do(s, op))
  {
    var t, u := s.installer, DoTree(s.installer, op);
    assert u.stub == t.stub && (u.active.None? || u.active == t.active);
    assert u.releases == t.releases || (op.Promote? && u.releases == t.releases[op.v := t.staging[op.v]]);
    hide DoTree;
  }

  lemma {:induction false} PreparingKeeps(r: Root, ops: seq<Op>)
    requires forall op :: op in ops ==> Preparing(r, op)
    ensures Prepared(r, Exec(r, ops))
    decreases |ops|
  {
    hide Prepared, Do;
    if ops == [] {
      NothingPrepared(r);
    } else {
      PreparingKeeps(r, ops[..|ops| - 1]);
      PreparingDo(r, Exec(r, ops[..|ops| - 1]), ops[|ops| - 1]);
    }
  }

  lemma NothingPrepared(r: Root)
    ensures Prepared(r, r)
  {
  }

  /** An installer operation prepares, switches the active version in one write,
      and refreshes the three stubs from the release it switched to. */
  ghost predicate Shaped(r: Root, ops: seq<Op>, front: seq<Op>, v: string) {
    var switched := Exec(r, front + [Replace(InstallerName, ActiveVersion)]);
    && (forall op :: op in front ==> Preparing(r, op))
    && switched.installer.active == Some(v + "\n") && PathSegment(v)
    && Asset(switched, v).Some?
    && ops == front + [Replace(InstallerName, ActiveVersion)] + AllStubOps(Asset(switched, v).value)
  }

  function VersionFront(which: Which, version: string, refused: bool): (ops: seq<Op>) {
    [PutTmp(InstallerName, which, ""), PutTmp(InstallerName, which, version + "\n")]
    + if refused then [Unlink(InstallerName, which)] else []
  }

  lemma VersionSplit(which: Which, version: string, refused: bool)
    ensures WriteVersionOps(InstallerName, which, version, refused)
         == VersionFront(which, version, refused) + [Replace(InstallerName, which)]
  {
  }

  lemma FinishShaped(r: Root, front: seq<Op>, record: seq<Op>, v: string, luck: Luck)
    requires forall op :: op in front + record ==> Preparing(r, op)
    requires PathSegment(v)
    requires var switch := record + WriteVersionOps(InstallerName, ActiveVersion, v, luck.activeRefused);
      Asset(Exec(r, front + switch), v).Some?
    ensures var switch := record + WriteVersionOps(InstallerName, ActiveVersion, v, luck.activeRefused);
      var ops := front + (switch + StubsPlan(Exec(r, front + switch), v, ALL_NAMES).ops);
      Shaped(r, ops, front + record + VersionFront(ActiveVersion, v, luck.activeRefused), v)
  {
    var write := WriteVersionOps(InstallerName, ActiveVersion, v, luck.activeRefused);
    var lead, last := VersionFront(ActiveVersion, v, luck.activeRefused), [Replace(InstallerName, ActiveVersion)];
    var switch := record + write;
    VersionSplit(ActiveVersion, v, luck.activeRefused);
    assert forall op :: op in lead ==> Preparing(r, op);
    WriteVersionEffect(Exec(r, front + record), InstallerName, ActiveVersion, v, luck.activeRefused);
    hide WriteVersionOps, VersionFront, Exec, StubsPlan, PathSegment, AllStubOps;
    ExecConcat(r, front + record, write);
    AppendAssociates(front, record, write);
    AppendAssociates(front + record, lead, last);
    var switched := Exec(r, front + switch);
    AllStubsPlan(switched, v);
    AppendAssociates(front, switch, StubsPlan(switched, v, ALL_NAMES).ops);
  }

  lemma ApplyShaped(env: Env, r: Root, pkg: Dir, m: Manifest, luck: Luck) returns (front: seq<Op>)
    requires MANIFEST in pkg && Accepts(env, r, pkg, m) && Formed(m) && m.component.InstallerName?
    ensures Shaped(r, ApplyPlan(env, r, pkg, luck).ops, front, m.version)
  {
    var v, t := m.version, r.installer;
    var active := Inspect(env, InstallerName, t);
    var record := RecordOps(InstallerName, active, v, luck.previousRefused);
    RecordPrepares(r, active, v, luck.previousRefused);
    if v in t.releases {
      AssetThere(env, r, v);
      SwitchEffect(r, InstallerName, active, v, luck);
      SwitchKeeps(t, active, v);
      hide Exec, Inspect, ReleaseProblem, WriteVersionOps, RecordOps, StubsPlan, PathSegment, Switched, Shaped;
      assert [] + SwitchOps(InstallerName, active, v, luck) == SwitchOps(InstallerName, active, v, luck);
      assert [] + record == record;
      FinishShaped(r, [], record, v, luck);
      front := [] + record + VersionFront(ActiveVersion, v, luck.activeRefused);
      var ops := ApplyPlan(env, r, pkg, luck).ops;
      assert [] + ops == ops;
    } else {
      front := NewReleaseShaped(env, r, pkg, m, luck);
    }
  }

  lemma RecordPrepares(r: Root, active: Active, v: string, refused: bool)
    ensures forall op :: op in RecordOps(InstallerName, active, v, refused) ==> Preparing(r, op)
  {
  }

  lemma NewReleaseShaped(env: Env, r: Root, pkg: Dir, m: Manifest, luck: Luck) returns (front: seq<Op>)
    requires MANIFEST in pkg && Accepts(env, r, pkg, m) && Formed(m) && m.component.InstallerName?
    requires m.version !in r.installer.releases
    ensures Shaped(r, ApplyPlan(env, r, pkg, luck).ops, front, m.version)
  {
    hide Exec, Inspect, FirstFailure, StagedRelease, StagePlan, LauncherProblem, DropOps, WriteVersionOps, StubsPlan,
        Switched, Shaped;
    var c, v, t := m.component, m.version, r.installer;
    var active, stage := Inspect(env, c, t), StagePlan(env, pkg, m, luck.order);
    var staged := Exec(r, stage.ops);
    var record := RecordOps(c, active, v, luck.previousRefused);
    var before := stage.ops + [Promote(c, v)];
    StagePromoted(env, r, pkg, m, luck.order);
    PromoteOutcome(staged, m, active, v, luck);
    StageNoStubs(env, pkg, m, luck.order);
    StageGentle(env, pkg, m, luck.order);
    RecordPrepares(r, active, v, luck.previousRefused);
    var promoted := Do(staged, Promote(c, v));
    ExecConcat(r, stage.ops, [Promote(c, v)]);
    Exec1(staged, Promote(c, v));
    var switch := SwitchOps(c, active, v, luck);
    SwitchEffect(promoted, c, active, v, luck);
    SwitchKeeps(promoted.At(c), active, v);
    ExecConcat(r, before, switch);
    var finish := FinishPlan(promoted, c, v, active, v, luck);
    assert [Promote(c, v)] + finish.ops + [] == [Promote(c, v)] + finish.ops;
    AppendAssociates(stage.ops, [Promote(c, v)], finish.ops);
    assert ApplyPlan(env, r, pkg, luck).ops == before + finish.ops;
    hide ApplyPlan, RecordOps;
    FinishShaped(r, before, record, v, luck);
    front := before + record + VersionFront(ActiveVersion, v, luck.activeRefused);
  }

  lemma RollbackShaped(env: Env, r: Root, luck: Luck) returns (front: seq<Op>, v: string)
    requires Inv(env, r) && RollbackPlan(env, r, InstallerName, luck).error.None?
    ensures Shaped(r, RollbackPlan(env, r, InstallerName, luck).ops, front, v)
  {
    hide RollbackTarget, ResolveInstaller, Inspect, Exec, Inv, StubsPlan, PathSegment, Shaped, WriteVersionOps;
    RollbackEffect(env, r, InstallerName, luck);
    PreviousThere(env, r, InstallerName);
    InspectedThere(env, r, InstallerName);
    RollbackAsset(env, r, InstallerName);
    var from := Inspect(env, InstallerName, r.installer).version;
    v := RollbackTarget(env, InstallerName, r.installer).value;
    SwapEffect(r, InstallerName, from, v, luck);
    SwapKeepsReleases(r.installer, from, v);
    RollbackInstallerKept(env, r, InstallerName, r.installer, v);
    RollbackInstallerKept(env, Exec(r, SwapOps(InstallerName, from, v, luck)), InstallerName, r.installer, v);
    var record := WriteVersionOps(InstallerName, PreviousVersion, from, luck.previousRefused);
    PreviousPrepares(r, from, luck.previousRefused);
    assert [] + record == record && [] + SwapOps(InstallerName, from, v, luck) == SwapOps(InstallerName, from, v, luck);
    FinishShaped(r, [], record, v, luck);
    front := [] + record + VersionFront(ActiveVersion, v, luck.activeRefused);
    var ops := RollbackPlan(env, r, InstallerName, luck).ops;
    assert [] + ops == ops;
  }

  lemma PreviousPrepares(r: Root, from: string, refused: bool)
    ensures forall op :: op in WriteVersionOps(InstallerName, PreviousVersion, from, refused) ==> Preparing(r, op)
  {
  }

  /** The component a command is for. */
  function Subject(env: Env, command: Command): (c: Option<Name>) {
    match command
    case Rollback(c) => Some(c)
    case Apply(pkg) =>
      if MANIFEST in pkg && env.load(pkg[MANIFEST].content).Some?
      then Some(env.load(pkg[MANIFEST].content).value.component)
      else None
  }

  lemma CommandShaped(env: Env, r: Root, command: Command, luck: Luck) returns (front: seq<Op>, v: string)
    requires StrictLoader(env) && Inv(env, r) && PlanOf(env, r, command, luck).error.None?
    requires Subject(env, command) == Some(InstallerName)
    ensures Shaped(r, PlanOf(env, r, command, luck).ops, front, v)
    ensures AllGuarded(env, r, PlanOf(env, r, command, luck).ops)
  {
    hide ApplyPlan, RollbackPlan, Inv, Shaped, Accepts, Formed, AllGuarded;
    match command
    case Apply(pkg) =>
      ApplyExactly(env, r, pkg, luck);
      ApplyGuarded(env, r, pkg, luck);
      var m := env.load(pkg[MANIFEST].content).value;
      front := ApplyShaped(env, r, pkg, m, luck);
      v := m.version;
    case Rollback(c) =>
      RollbackGuarded(env, r, c, luck);
      front, v := RollbackShaped(env, r, luck);
  }

  /** A stub written far enough to be the launcher: its content is there, or the
      launcher is an empty file. */
  predicate Written(c: Name, asset: File, j: nat) {
    j >= 3 * Turn(c) + 2 || (j == 3 * Turn(c) + 1 && asset.content == [])
  }

  /** After `j` writes the stub is the launcher: written far enough, or it was
      the launcher before its turn. */
  predicate FreshStub(stub: Option<File>, c: Name, asset: File, j: nat) {
    Written(c, asset, j) || (j <= 3 * Turn(c) && stub == Some(Launchered(asset)))
  }

  lemma StubWritten(env: Env, r: Root, s: Root, v: string, d: Name, j: nat)
    requires Inspect(env, InstallerName, s.installer) == Installed(v) && Asset(s, v).Some?
    requires Healthy(env, InstallerName, v, s.installer.releases[v])
    requires s.At(d).stub == StubAfter(r.At(d).stub, d, Asset(s, v).value, j)
    ensures StubMatches(env, s, d) <==> FreshStub(r.At(d).stub, d, Asset(s, v).value, j)
  {
    assert Asset(s, v).value.launchable;
    hide Inspect, ReleaseProblem;
  }

  /** The disk after a cut at or behind the switch. */
  lemma CutBehindSwitch(env: Env, r: Root, ops: seq<Op>, front: seq<Op>, v: string, k: nat)
    requires Shaped(r, ops, front, v) && |front| + 1 <= k <= |ops|
    ensures var s, switched := Exec(r, ops[..k]), Exec(r, front + [Replace(InstallerName, ActiveVersion)]);
      && SameButStubs(switched, s)
      && Asset(s, v) == Asset(switched, v) && Asset(s, v).Some? && s.installer.active == Some(v + "\n")
      && forall c :: s.At(c).stub == StubAfter(r.At(c).stub, c, Asset(s, v).value, k - |front| - 1)
  {
    var point := front + [Replace(InstallerName, ActiveVersion)];
    var switched := Exec(r, point);
    var asset := Asset(switched, v).value;
    PreparingKeeps(r, front);
    ExecSnoc(r, front, Replace(InstallerName, ActiveVersion));
    hide Exec, AllStubOps, PathSegment;
    TakeJoined(point, AllStubOps(asset), k);
    var j := k - |point|;
    ExecConcat(r, point, AllStubOps(asset)[..j]);
    StubsPrefix(switched, asset, j);
    hide StubAfter;
    assert forall c :: switched.At(c).stub == r.At(c).stub;
  }

  /** For an apply (of a new release or again) or a rollback of the installer,
      cut off after any write: before the switch of the active version, which is
      ten writes before the end, each stub matches as it did, or no installer is
      active at all; from the switch on a stub matches exactly if it has been
      written, or was the new launcher already. */
  lemma StubsAtCut(env: Env, r: Root, command: Command, luck: Luck, k: nat, d: Name)
    requires StrictLoader(env) && Inv(env, r) && PlanOf(env, r, command, luck).error.None?
    requires Subject(env, command) == Some(InstallerName)
    requires k <= |PlanOf(env, r, command, luck).ops|
    ensures |PlanOf(env, r, command, luck).ops| >= 10
    ensures var s := Exec(r, PlanOf(env, r, command, luck).ops[..k]);
      var n := |PlanOf(env, r, command, luck).ops| - 9;
      var active := Inspect(env, InstallerName, s.installer);
      && Inv(env, s)
      && (k < n && active.Missing? ==> StubMatches(env, s, d))
      && (k < n && !active.Missing? ==> (StubMatches(env, s, d) <==> StubMatches(env, r, d)))
      && (k >= n ==> active.Installed? && Asset(s, active.version).Some?)
      && (k >= n ==> (StubMatches(env, s, d) <==> FreshStub(r.At(d).stub, d, Asset(s, active.version).value, k - n)))
  {
    hide PlanOf, Exec, Inspect, Inv, AllGuarded, StubAfter, Healthy;
    var ops := PlanOf(env, r, command, luck).ops;
    var front, v := CommandShaped(env, r, command, luck);
    assert |ops| == |front| + 10;
    InvThroughout(env, r, ops, k);
    var s := Exec(r, ops[..k]);
    InspectedThere(env, s, InstallerName);
    InspectedThere(env, r, InstallerName);
    var active := Inspect(env, InstallerName, s.installer);
    if k <= |front| {
      PreparingPrefix(r, ops, front, v, k);
      if active.Installed? {
        LastDiffersUnless(active.version, Inspect(env, InstallerName, r.installer).version);
      }
    } else {
      CutBehindSwitch(env, r, ops, front, v, k);
      LastDiffersUnless(active.version, v);
      ReleasesHealthy(env, s, v);
      StubWritten(env, r, s, v, d, k - |front| - 1);
    }
  }

  lemma LastDiffersUnless(a: string, b: string)
    ensures a + "\n" == b + "\n" <==> a == b
  {
    if a != b {
      LastDiffers(a, b);
    }
  }

  lemma ReleasesHealthy(env: Env, s: Root, v: string)
    requires Inv(env, s) && v in s.installer.releases
    ensures Healthy(env, InstallerName, v, s.installer.releases[v])
  {
    assert TreeInv(env, InstallerName, s.At(InstallerName));
  }

  lemma PreparingPrefix(r: Root, ops: seq<Op>, front: seq<Op>, v: string, k: nat)
    requires Shaped(r, ops, front, v) && k <= |front|
    ensures Prepared(r, Exec(r, ops[..k]))
  {
    hide Exec, AllStubOps, PathSegment, Prepared, Preparing;
    assert ops[..k] == front[..k];
    PreparingKeeps(r, front[..k]);
  }

  /** Cut right after the switch to a release whose launcher no stub is yet,
      every stub is stale; and of the operations completed next only one on the
      installer repairs them all. */
  lemma StaleAfterCrash(env: Env, r: Root, command: Command, luck: Luck, next: Command, nextLuck: Luck)
    requires StrictLoader(env) && Inv(env, r) && PlanOf(env, r, command, luck).error.None?
    requires Subject(env, command) == Some(InstallerName)
    ensures |PlanOf(env, r, command, luck).ops| >= 10
    ensures var ops := PlanOf(env, r, command, luck).ops;
      var s := Exec(r, ops[..|ops| - 9]);
      var active := Inspect(env, InstallerName, s.installer);
      && active.Installed? && Asset(s, active.version).Some?
      && ((forall d :: r.At(d).stub != Some(Launchered(Asset(s, active.version).value))) ==>
            && (forall d :: !StubMatches(env, s, d))
            && (PlanOf(env, s, next, nextLuck).error.None? ==>
                  var t := Exec(s, PlanOf(env, s, next, nextLuck).ops);
                  StubsMatch(env, t) <==> Subject(env, next) == Some(InstallerName)))
  {
    hide PlanOf, Exec, Inspect, Inv, StubMatches;
    StubsAtCut(env, r, command, luck, 0, InstallerName);
    var ops := PlanOf(env, r, command, luck).ops;
    var s := Exec(r, ops[..|ops| - 9]);
    var active := Inspect(env, InstallerName, s.installer);
    StubsAtCut(env, r, command, luck, |ops| - 9, InstallerName);
    forall d ensures StubMatches(env, s, d) <==> r.At(d).stub == Some(Launchered(Asset(s, active.version).value)) {
      StubsAtCut(env, r, command, luck, |ops| - 9, d);
      assert !Written(d, Asset(s, active.version).value, 0);
    }
    var launcher := Launchered(Asset(s, active.version).value);
    if PlanOf(env, s, next, nextLuck).error.None? && forall d :: r.At(d).stub != Some(launcher) {
      CompletedStubs(env, s, next, nextLuck);
      SubjectKnown(env, s, next, nextLuck);
      var c := Subject(env, next).value;
      var other := if c.ServerName? then AgentName else ServerName;
      assert !StubMatches(env, s, other) && other != c;
    }
  }

  lemma SubjectKnown(env: Env, r: Root, command: Command, luck: Luck)
    requires StrictLoader(env) && PlanOf(env, r, command, luck).error.None?
    ensures Subject(env, command).Some?
  {
    hide Exec, Inspect;
  }
}
