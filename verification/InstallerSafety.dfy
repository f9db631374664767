/**
 What holds at every point between two writes: the effects of the plans'
 pieces, and that an active version, when there is one, always names a release
 that validates.
 */
module InstallerSafety {
  import opened Prelude
  import opened InstallerDisk
  import opened InstallerOperations

  // ------------------------------------------------------- effects

  function WithVersion(t: Tree, which: Which, version: string): (r: Tree) {
    if which.ActiveVersion? then t.(active := Some(version + "\n"), activeTmp := None)
    else t.(previous := Some(version + "\n"), previousTmp := None)
  }

  lemma Exec1(r: Root, a: Op)
    ensures Exec(r, [a]) == Do(r, a)
  {
    SingleWrite(r, a);
  }

  lemma Exec2(r: Root, a: Op, b: Op)
    ensures Exec(r, [a, b]) == Do(Do(r, a), b)
  {
    assert [a, b] == [a] + [b];
    ExecConcat(r, [a], [b]);
    Exec1(r, a);
    Exec1(Do(r, a), b);
  }

  /** With or without the removal, a version file ends up holding the version. */
  lemma WriteVersionEffect(r: Root, c: Name, which: Which, version: string, refused: bool)
    ensures Exec(r, WriteVersionOps(c, which, version, refused)) == r.With(c, WithVersion(r.At(c), which, version))
  {
    var head := [PutTmp(c, which, ""), PutTmp(c, which, version + "\n")];
    var tail := if refused then [Unlink(c, which), Replace(c, which)] else [Replace(c, which)];
    assert WriteVersionOps(c, which, version, refused) == head + tail;
    ExecConcat(r, head, tail);
    Exec2(r, head[0], head[1]);
    if refused {
      Exec2(Exec(r, head), Unlink(c, which), Replace(c, which));
    } else {
      Exec1(Exec(r, head), Replace(c, which));
    }
    hide Exec;
  }

  /** The release a package becomes. */
  function StagedRelease(pkg: Dir, m: Manifest): (d: Dir)
    requires MANIFEST in pkg
  {
    StagedDir(pkg, m.files, |m.files|)[MANIFEST := pkg[MANIFEST]]
  }

  function WithStaged(r: Root, c: Name, v: string, d: Dir): (r': Root) {
    r.With(c, r.At(c).(staging := r.At(c).staging[v := d]))
  }

  lemma DropFileEffect(r: Root, c: Name, v: string, d: Dir, path: string)
    ensures v !in r.At(c).staging ==> Do(r, DropStagedFile(c, v, path)) == r
    ensures Do(WithStaged(r, c, v, d), DropStagedFile(c, v, path)) == WithStaged(r, c, v, d - {path})
  {
    assert r.At(c).staging[v := d][v := d - {path}] == r.At(c).staging[v := d - {path}];
  }

  lemma AlreadyStaged(r: Root, c: Name, v: string)
    requires v in r.At(c).staging
    ensures WithStaged(r, c, v, r.At(c).staging[v]) == r
  {
    assert r.At(c).staging[v := r.At(c).staging[v]] == r.At(c).staging;
  }

  lemma {:induction false} DropFilesEffect(r: Root, c: Name, v: string, order: seq<string>, k: nat)
    requires k <= |order|
    ensures v !in r.At(c).staging ==> Exec(r, DropFiles(c, v, order, k)) == r
    ensures v in r.At(c).staging ==> exists d :: Exec(r, DropFiles(c, v, order, k)) == WithStaged(r, c, v, d)
  {
    hide Do, WithStaged;
    if k == 0 {
      if v in r.At(c).staging {
        AlreadyStaged(r, c, v);
      }
    } else {
      DropFilesEffect(r, c, v, order, k - 1);
      ExecSnoc(r, DropFiles(c, v, order, k - 1), DropStagedFile(c, v, order[k - 1]));
      hide Exec;
      DropFileEffect(r, c, v, map[], order[k - 1]);
      if v in r.At(c).staging {
        var d :| Exec(r, DropFiles(c, v, order, k - 1)) == WithStaged(r, c, v, d);
        DropFileEffect(r, c, v, d, order[k - 1]);
        assert Exec(r, DropFiles(c, v, order, k)) == WithStaged(r, c, v, d - {order[k - 1]});
      }
    }
  }

  /** Emptying and removing a staging area touches nothing else. */
  lemma DropEffect(r: Root, c: Name, v: string, order: seq<string>)
    ensures Exec(r, DropOps(c, v, order)) == r.With(c, r.At(c).(staging := r.At(c).staging - {v}))
  {
    DropFilesEffect(r, c, v, order, |order|);
    ExecSnoc(r, DropFiles(c, v, order, |order|), DropStaging(c, v));
    hide Exec, Do, WithStaged;
    DropStagingEffect(r, c, v, map[]);
    if v in r.At(c).staging {
      var d :| Exec(r, DropFiles(c, v, order, |order|)) == WithStaged(r, c, v, d);
      DropStagingEffect(r, c, v, d);
    }
  }

  lemma DropStagingEffect(r: Root, c: Name, v: string, d: Dir)
    ensures Do(r, DropStaging(c, v)) == r.With(c, r.At(c).(staging := r.At(c).staging - {v}))
    ensures Do(WithStaged(r, c, v, d), DropStaging(c, v)) == Do(r, DropStaging(c, v))
  {
    assert r.At(c).staging[v := d] - {v} == r.At(c).staging - {v};
  }

  lemma PutEffect(r: Root, c: Name, v: string, d: Dir, path: string, file: File)
    ensures Do(WithStaged(r, c, v, d), PutStaged(c, v, path, file)) == WithStaged(r, c, v, d[path := file])
  {
    assert r.At(c).staging[v := d][v := d[path := file]] == r.At(c).staging[v := d[path := file]];
  }

  lemma CopyEffect(r: Root, c: Name, v: string, d: Dir, target: string, source: File, launchable: bool)
    ensures Exec(WithStaged(r, c, v, d), CopyOps(c, v, target, source, launchable))
         == WithStaged(r, c, v, d[target := File(source.content, launchable)])
  {
    var ops := CopyOps(c, v, target, source, launchable);
    var s := WithStaged(r, c, v, d);
    assert ops == [ops[0], ops[1]] + [ops[2]];
    ExecConcat(s, [ops[0], ops[1]], [ops[2]]);
    Exec2(s, ops[0], ops[1]);
    Exec1(Exec(s, [ops[0], ops[1]]), ops[2]);
    hide Exec, WithStaged, Do;
    var d1 := d[target := File([], source.launchable)];
    var d2 := d1[target := source];
    PutEffect(r, c, v, d, target, File([], source.launchable));
    PutEffect(r, c, v, d1, target, source);
    PutEffect(r, c, v, d2, target, File(source.content, launchable));
    assert d2[target := File(source.content, launchable)] == d[target := File(source.content, launchable)];
  }

  lemma {:induction false} CopiesEffect(r: Root, c: Name, v: string, pkg: Dir, files: seq<ManifestFile>, k: nat)
    requires k <= |files|
    ensures Exec(WithStaged(r, c, v, map[]), CopiesOps(c, v, pkg, files, k)) ==
        WithStaged(r, c, v, StagedDir(pkg, files, k))
  {
    hide WithStaged, CopyOps;
    if k > 0 {
      CopiesEffect(r, c, v, pkg, files, k - 1);
      var f := files[k - 1];
      if f.source in pkg {
        CopyEffect(r, c, v, StagedDir(pkg, files, k - 1), f.target, pkg[f.source], f.launchable);
        ExecConcat(WithStaged(r, c, v, map[]), CopiesOps(c, v, pkg, files, k - 1),
                   CopyOps(c, v, f.target, pkg[f.source], f.launchable));
      }
    }
  }

  lemma ManifestEffect(r: Root, c: Name, v: string, d: Dir, manifest: File)
    ensures Exec(WithStaged(r, c, v, d), ManifestOps(c, v, manifest)) == WithStaged(r, c, v, d[MANIFEST := manifest])
  {
    var d1 := d[MANIFEST := File([], manifest.launchable)];
    Exec2(WithStaged(r, c, v, d), PutStaged(c, v, MANIFEST, File([], manifest.launchable)),
        PutStaged(c, v, MANIFEST, manifest));
    PutEffect(r, c, v, d, MANIFEST, File([], manifest.launchable));
    PutEffect(r, c, v, d1, MANIFEST, manifest);
    hide Exec, WithStaged, Do;
    assert d1[MANIFEST := manifest] == d[MANIFEST := manifest];
  }

  lemma MakeEffect(r: Root, c: Name, v: string, order: seq<string>)
    ensures Exec(r, DropOps(c, v, order) + [MakeStaging(c, v)]) == WithStaged(r, c, v, map[])
  {
    DropEffect(r, c, v, order);
    ExecSnoc(r, DropOps(c, v, order), MakeStaging(c, v));
    hide Exec;
    assert (r.At(c).staging - {v})[v := map[]] == r.At(c).staging[v := map[]];
  }

  /** Staging changes the staging area and nothing else; when it succeeds the
      area holds the release the manifest describes. */
  lemma StageEffect(env: Env, r: Root, pkg: Dir, m: Manifest, order: seq<string>)
    requires MANIFEST in pkg
    ensures var p := StagePlan(env, pkg, m, order);
      && (p.error.None? ==> Exec(r, p.ops) == WithStaged(r, m.component, m.version, StagedRelease(pkg, m)))
      && (p.error.Some? ==> exists d :: Exec(r, p.ops) == WithStaged(r, m.component, m.version, d))
  {
    hide WithStaged, DropOps, StagedDir;
    var c, v := m.component, m.version;
    var (n, failure) := FirstFailure(env, pkg, m.files, 0);
    var start, copies := DropOps(c, v, order) + [MakeStaging(c, v)], CopiesOps(c, v, pkg, m.files, n);
    MakeEffect(r, c, v, order);
    CopiesEffect(r, c, v, pkg, m.files, n);
    ExecConcat(r, start, copies);
    ExecConcat(r, start + copies, ManifestOps(c, v, pkg[MANIFEST]));
    ManifestEffect(r, c, v, StagedDir(pkg, m.files, n), pkg[MANIFEST]);
  }

  function Launchered(asset: File): (f: File) { File(asset.content, true) }

  lemma StubEffect(r: Root, c: Name, asset: File)
    ensures Exec(r, StubOps(c, asset)) == r.With(c, r.At(c).(stub := Some(Launchered(asset))))
  {
    var ops := StubOps(c, asset);
    assert ops == [ops[0], ops[1]] + [ops[2]];
    ExecConcat(r, [ops[0], ops[1]], [ops[2]]);
    Exec2(r, ops[0], ops[1]);
    Exec1(Exec(r, [ops[0], ops[1]]), ops[2]);
    hide Exec;
  }

  /** Only stubs differ. */
  predicate SameButStubs(r: Root, s: Root) {
    forall c :: s.At(c) == r.At(c).(stub := s.At(c).stub)
  }

  /** Refreshing stubs gives the listed components the launcher of the named
      installer release, and fails only if that release has none. */
  lemma {:induction false} StubsEffect(r: Root, version: string, components: seq<Name>)
    ensures var p, asset := StubsPlan(r, version, components), Asset(r, version);
      var s := Exec(r, p.ops);
      && (p.error.None? <==> asset.Some? || components == [])
      && (p.error.Some? ==> p.ops == [])
      && SameButStubs(r, s)
      && forall c :: s.At(c).stub == if c in components && asset.Some? then Some(Launchered(asset.value))
          else r.At(c).stub
    decreases |components|
  {
    hide StubOps;
    var asset := Asset(r, version);
    if components != [] && asset.Some? {
      var c, ops := components[0], StubOps(components[0], asset.value);
      var s := Exec(r, ops);
      StubEffect(r, c, asset.value);
      StubsEffect(s, version, components[1..]);
      assert Asset(s, version) == asset;
      ExecConcat(r, ops, StubsPlan(s, version, components[1..]).ops);
      assert forall d :: d in components <==> d == c || d in components[1..];
    }
  }

  // ------------------------------------------------------- what staging builds

  lemma {:induction false} FirstFailureMeans(env: Env, pkg: Dir, files: seq<ManifestFile>, i: nat)
    requires i <= |files| && FirstFailure(env, pkg, files, i).1.None?
    ensures forall k :: i <= k < |files| ==> CopyFailure(env, pkg, StagedDir(pkg, files, k), files[k]).None?
    decreases |files| - i
  {
    if i < |files| {
      FirstFailureMeans(env, pkg, files, i + 1);
    }
  }

  lemma {:induction false} StagedAt(pkg: Dir, files: seq<ManifestFile>, k: nat, i: nat)
    requires i < k <= |files| && files[i].source in pkg
    requires forall a, b :: 0 <= a < b < |files| ==> files[a].target != files[b].target
    ensures var d := StagedDir(pkg, files, k);
      files[i].target in d && d[files[i].target] == File(pkg[files[i].source].content, files[i].launchable)
  {
    if i < k - 1 {
      StagedAt(pkg, files, k - 1, i);
    }
  }

  lemma StagedFileFits(env: Env, pkg: Dir, m: Manifest, i: nat)
    requires MANIFEST in pkg && Formed(m) && i < |m.files|
    requires CopyFailure(env, pkg, StagedDir(pkg, m.files, i), m.files[i]).None?
    ensures FileProblem(env, StagedRelease(pkg, m), m.files[i]).None?
  {
    StagedAt(pkg, m.files, |m.files|, i);
    assert UnderMeta(MANIFEST);
    hide StagedDir, Blocked;
  }

  /** Whatever StageRelease builds from an accepted manifest validates, up to
      the launcher asset an installer release needs besides. */
  lemma StagedValidates(env: Env, pkg: Dir, m: Manifest)
    requires MANIFEST in pkg && env.load(pkg[MANIFEST].content) == Some(m) && Formed(m)
    requires FirstFailure(env, pkg, m.files, 0).1.None?
    ensures ReleaseProblem(env, m.component, m.version, StagedRelease(pkg, m)) ==
      if m.component.InstallerName? then LauncherProblem(StagedRelease(pkg, m)) else None
  {
    hide StagedDir, CopyFailure, FileProblem, Formed;
    FirstFailureMeans(env, pkg, m.files, 0);
    forall f | f in m.files ensures FileProblem(env, StagedRelease(pkg, m), f).None? {
      var i :| 0 <= i < |m.files| && m.files[i] == f;
      StagedFileFits(env, pkg, m, i);
    }
  }

  // ------------------------------------------------------- the invariant

  /** A version file's text names a release that is there. */
  predicate Names(t: Tree, text: Option<string>) {
    text.Some? ==>
      && |text.value| > 0 && text.value == text.value[..|text.value| - 1] + "\n"
      && PathSegment(text.value[..|text.value| - 1])
      && text.value[..|text.value| - 1] in t.releases
  }

  ghost predicate TreeInv(env: Env, c: Name, t: Tree) {
    && (forall v :: v in t.releases ==> Healthy(env, c, v, t.releases[v]))
    && Names(t, t.active)
    && Names(t, t.previous)
  }

  ghost predicate Inv(env: Env, r: Root) { forall c :: TreeInv(env, c, r.At(c)) }

  /** Only a promotion and a replacement can break the invariant. */
  ghost predicate Guarded(env: Env, r: Root, op: Op) {
    var t := r.At(op.c);
    match op
    case Promote(c, v) => v in t.staging ==> Healthy(env, c, v, t.staging[v])
    case Replace(_, which) => Names(t, if which.ActiveVersion? then t.activeTmp else t.previousTmp)
    case _ => true
  }

  lemma InvDo(env: Env, r: Root, op: Op)
    requires Inv(env, r) && Guarded(env, r, op)
    ensures Inv(env, Do(r, op))
  {
    hide Healthy, PathSegment;
    forall c ensures TreeInv(env, c, Do(r, op).At(c)) {
      assert TreeInv(env, c, r.At(c));
    }
  }

  ghost predicate AllGuarded(env: Env, r: Root, ops: seq<Op>)
    decreases |ops|
  {
    ops == [] || (AllGuarded(env, r, ops[..|ops| - 1]) && Guarded(env, Exec(r, ops[..|ops| - 1]), ops[|ops| - 1]))
  }

  lemma {:induction false} GuardedConcat(env: Env, r: Root, a: seq<Op>, b: seq<Op>)
    requires AllGuarded(env, r, a) && AllGuarded(env, Exec(r, a), b)
    ensures AllGuarded(env, r, a + b)
    decreases |b|
  {
    hide Guarded, Do;
    if b == [] {
      assert a + b == a;
    } else {
      var rest := b[..|b| - 1];
      GuardedConcat(env, r, a, rest);
      ExecConcat(r, a, rest);
      assert (a + b)[..|a + b| - 1] == a + rest;
    }
  }

  lemma {:induction false} InvThroughout(env: Env, r: Root, ops: seq<Op>, k: nat)
    requires Inv(env, r) && AllGuarded(env, r, ops) && k <= |ops|
    ensures Inv(env, Exec(r, ops[..k]))
    decreases |ops|
  {
    hide Inv, Guarded, Do;
    if k == |ops| > 0 {
      InvThroughout(env, r, ops[..|ops| - 1], |ops| - 1);
      assert ops[..|ops| - 1][..|ops| - 1] == ops[..|ops| - 1];
      InvDo(env, Exec(r, ops[..|ops| - 1]), ops[|ops| - 1]);
      assert ops[..k] == ops;
    } else if k < |ops| {
      InvThroughout(env, r, ops[..|ops| - 1], k);
      assert ops[..|ops| - 1][..k] == ops[..k];
    }
  }

  predicate Harmless(op: Op) { !op.Promote? && !op.Replace? }

  lemma {:induction false} HarmlessGuarded(env: Env, r: Root, ops: seq<Op>)
    requires forall op :: op in ops ==> Harmless(op)
    ensures AllGuarded(env, r, ops)
    decreases |ops|
  {
    if ops != [] {
      HarmlessGuarded(env, r, ops[..|ops| - 1]);
      assert Harmless(ops[|ops| - 1]);
    }
    hide Exec, Do;
  }

  /** Writing a version that is released keeps the invariant at every write. */
  lemma WriteVersionGuarded(env: Env, r: Root, c: Name, which: Which, version: string, refused: bool)
    requires PathSegment(version) && version in r.At(c).releases
    ensures AllGuarded(env, r, WriteVersionOps(c, which, version, refused))
  {
    hide PathSegment;
    var head := [PutTmp(c, which, ""), PutTmp(c, which, version + "\n")];
    var last := [Replace(c, which)];
    var front := if refused then head + [Unlink(c, which)] else head;
    assert WriteVersionOps(c, which, version, refused) == front + last;
    Exec2(r, head[0], head[1]);
    if refused {
      ExecSnoc(r, head, Unlink(c, which));
    }
    var before := Exec(r, front);
    assert (version + "\n")[..|version|] == version;
    assert before.At(c).releases == r.At(c).releases;
    assert Guarded(env, before, Replace(c, which));
    hide Exec, Guarded;
    HarmlessGuarded(env, r, front);
    GuardedOnce(env, before, Replace(c, which));
    GuardedConcat(env, r, front, last);
  }

  lemma GuardedOnce(env: Env, r: Root, op: Op)
    requires Guarded(env, r, op)
    ensures AllGuarded(env, r, [op])
  {
    Nothing(r, []);
    hide Guarded;
    assert [op][..0] == [];
    assert AllGuarded(env, r, []);
  }

  lemma {:induction false} DropHarmless(c: Name, v: string, order: seq<string>, k: nat)
    requires k <= |order|
    ensures forall op :: op in DropFiles(c, v, order, k) ==> Harmless(op)
  {
    if k > 0 {
      DropHarmless(c, v, order, k - 1);
    }
  }

  lemma {:induction false} CopiesHarmless(c: Name, v: string, pkg: Dir, files: seq<ManifestFile>, k: nat)
    requires k <= |files|
    ensures forall op :: op in CopiesOps(c, v, pkg, files, k) ==> Harmless(op)
  {
    if k > 0 {
      CopiesHarmless(c, v, pkg, files, k - 1);
    }
  }

  lemma StageHarmless(env: Env, pkg: Dir, m: Manifest, order: seq<string>)
    requires MANIFEST in pkg
    ensures forall op :: op in StagePlan(env, pkg, m, order).ops ==> Harmless(op)
    ensures forall op :: op in DropOps(m.component, m.version, order) ==> Harmless(op)
  {
    DropHarmless(m.component, m.version, order, |order|);
    CopiesHarmless(m.component, m.version, pkg, m.files, FirstFailure(env, pkg, m.files, 0).0);
  }

  lemma {:induction false} StubsHarmless(r: Root, version: string, components: seq<Name>)
    ensures forall op :: op in StubsPlan(r, version, components).ops ==> Harmless(op)
    decreases |components|
  {
    hide Exec;
    if components != [] && Asset(r, version).Some? {
      StubsHarmless(Exec(r, StubOps(components[0], Asset(r, version).value)), version, components[1..]);
    }
  }

  lemma InspectedThere(env: Env, r: Root, c: Name)
    requires Inv(env, r)
    ensures var active := Inspect(env, c, r.At(c));
      && !active.Corrupt?
      && (active.Missing? <==> r.At(c).active.None?)
      && (active.Installed? ==> PathSegment(active.version) && active.version in r.At(c).releases
                                && r.At(c).active == Some(active.version + "\n"))
  {
    assert TreeInv(env, c, r.At(c));
    if r.At(c).active.Some? {
      var text := r.At(c).active.value;
      VersionReadsBack(text[..|text| - 1]);
    }
    hide ReleaseProblem, PathSegment, Trimmed;
  }

  lemma SwitchGuarded(env: Env, r: Root, c: Name, active: Active, next: string, luck: Luck)
    requires PathSegment(next) && next in r.At(c).releases
    requires active.Installed? ==> PathSegment(active.version) && active.version in r.At(c).releases
    ensures AllGuarded(env, r, SwitchOps(c, active, next, luck))
  {
    hide WriteVersionOps, PathSegment, Exec;
    var record := RecordOps(c, active, next, luck.previousRefused);
    if ShouldRecordPreviousVersion(active, next) {
      WriteVersionGuarded(env, r, c, PreviousVersion, active.version, luck.previousRefused);
      WriteVersionEffect(r, c, PreviousVersion, active.version, luck.previousRefused);
    } else {
      Nothing(r, []);
      assert AllGuarded(env, r, []);
    }
    WriteVersionGuarded(env, Exec(r, record), c, ActiveVersion, next, luck.activeRefused);
    GuardedConcat(env, r, record, WriteVersionOps(c, ActiveVersion, next, luck.activeRefused));
  }

  lemma FinishGuarded(env: Env, r: Root, c: Name, v: string, active: Active, installerVersion: string, luck: Luck)
    requires PathSegment(v) && v in r.At(c).releases
    requires active.Installed? ==> PathSegment(active.version) && active.version in r.At(c).releases
    ensures AllGuarded(env, r, FinishPlan(r, c, v, active, installerVersion, luck).ops)
  {
    hide SwitchOps, StubsPlan, Exec, PathSegment;
    var switch := SwitchOps(c, active, v, luck);
    SwitchGuarded(env, r, c, active, v, luck);
    var stubs := StubsPlan(Exec(r, switch), installerVersion, StubOwners(c));
    StubsHarmless(Exec(r, switch), installerVersion, StubOwners(c));
    HarmlessGuarded(env, Exec(r, switch), stubs.ops);
    GuardedConcat(env, r, switch, stubs.ops);
  }

  lemma PromoteGuarded(env: Env, r: Root, m: Manifest, active: Active, installerVersion: string, luck: Luck)
    requires m.version in r.At(m.component).staging && PathSegment(m.version)
    requires ReleaseProblem(env, m.component, m.version, r.At(m.component).staging[m.version]) ==
      if m.component.InstallerName? then LauncherProblem(r.At(m.component).staging[m.version]) else None
    requires active.Installed? ==> PathSegment(active.version) && active.version in r.At(m.component).releases
    ensures AllGuarded(env, r, PromotePlan(r, m, active, installerVersion, luck).ops)
  {
    hide FinishPlan, PathSegment, ReleaseProblem, LauncherProblem;
    var c, v := m.component, m.version;
    var promote, drop := [Promote(c, v)], DropOps(c, v, luck.order);
    DropHarmless(c, v, luck.order, |luck.order|);
    if c.InstallerName? && LauncherProblem(r.At(c).staging[v]).Some? {
      HarmlessGuarded(env, r, drop);
    } else {
      var promoted := Do(r, Promote(c, v));
      var finish := FinishPlan(promoted, c, v, active, installerVersion, luck);
      GuardedOnce(env, r, Promote(c, v));
      Exec1(r, Promote(c, v));
      FinishGuarded(env, promoted, c, v, active, installerVersion, luck);
      GuardedConcat(env, r, promote, finish.ops);
      HarmlessGuarded(env, Exec(r, promote + finish.ops), drop);
      GuardedConcat(env, r, promote + finish.ops, drop);
      assert promote + finish.ops + [] == promote + finish.ops;
    }
  }

  lemma NewReleaseGuarded(env: Env, r: Root, pkg: Dir, m: Manifest, active: Active, installerVersion: string,
                          luck: Luck)
    requires MANIFEST in pkg && env.load(pkg[MANIFEST].content) == Some(m) && Formed(m)
    requires active.Installed? ==> PathSegment(active.version) && active.version in r.At(m.component).releases
    ensures AllGuarded(env, r, NewReleasePlan(env, r, pkg, m, active, installerVersion, luck).ops)
  {
    hide PathSegment, ReleaseProblem, LauncherProblem, StagedRelease, PromotePlan;
    var c, v := m.component, m.version;
    var stage, drop := StagePlan(env, pkg, m, luck.order), DropOps(c, v, luck.order);
    var staged := Exec(r, stage.ops);
    StageHarmless(env, pkg, m, luck.order);
    HarmlessGuarded(env, r, stage.ops);
    StageEffect(env, r, pkg, m, luck.order);
    hide StagePlan, DropOps, Exec;
    if stage.error.Some? {
      HarmlessGuarded(env, staged, drop);
      GuardedConcat(env, r, stage.ops, drop);
    } else {
      StagedValidates(env, pkg, m);
      PromoteGuarded(env, staged, m, active, installerVersion, luck);
      GuardedConcat(env, r, stage.ops, PromotePlan(staged, m, active, installerVersion, luck).ops);
    }
  }

  lemma ApplyGuarded(env: Env, r: Root, pkg: Dir, luck: Luck)
    requires StrictLoader(env) && Inv(env, r)
    ensures AllGuarded(env, r, ApplyPlan(env, r, pkg, luck).ops)
  {
    hide Inspect, ResolveInstaller, ReleaseProblem, FinishPlan, NewReleasePlan, PathSegment, Inv;
    if MANIFEST in pkg && env.load(pkg[MANIFEST].content).Some? {
      var m := env.load(pkg[MANIFEST].content).value;
      var active := Inspect(env, m.component, r.At(m.component));
      var installer := ResolveInstaller(env, r, m.component, m.version, m.minInstaller);
      InspectedThere(env, r, m.component);
      if installer.Ok? {
        if m.version !in r.At(m.component).releases {
          NewReleaseGuarded(env, r, pkg, m, active, installer.value, luck);
        } else {
          FinishGuarded(env, r, m.component, m.version, active, installer.value, luck);
        }
      }
    }
  }

  lemma PreviousThere(env: Env, r: Root, c: Name)
    requires Inv(env, r) && RollbackTarget(env, c, r.At(c)).Ok?
    ensures var active, target := Inspect(env, c, r.At(c)), RollbackTarget(env, c, r.At(c)).value;
      && active.Installed? && PathSegment(target) && target in r.At(c).releases && target != active.version
      && r.At(c).previous == Some(target + "\n")
  {
    assert TreeInv(env, c, r.At(c));
    hide ReleaseProblem, Inspect, PathSegment;
    var text := r.At(c).previous.value;
    VersionReadsBack(text[..|text| - 1]);
  }

  lemma RollbackGuarded(env: Env, r: Root, c: Name, luck: Luck)
    requires Inv(env, r)
    ensures AllGuarded(env, r, RollbackPlan(env, r, c, luck).ops)
  {
    hide Inspect, RollbackTarget, ResolveInstaller, WriteVersionOps, StubsPlan, PathSegment, Exec, Inv;
    var target := RollbackTarget(env, c, r.At(c));
    if target.Ok? {
      var active := Inspect(env, c, r.At(c));
      InspectedThere(env, r, c);
      PreviousThere(env, r, c);
      var first := WriteVersionOps(c, PreviousVersion, active.version, luck.previousRefused);
      var second := WriteVersionOps(c, ActiveVersion, target.value, luck.activeRefused);
      WriteVersionGuarded(env, r, c, PreviousVersion, active.version, luck.previousRefused);
      WriteVersionEffect(r, c, PreviousVersion, active.version, luck.previousRefused);
      WriteVersionGuarded(env, Exec(r, first), c, ActiveVersion, target.value, luck.activeRefused);
      GuardedConcat(env, r, first, second);
      var swapped := Exec(r, first + second);
      var installer := ResolveInstaller(env, swapped, c, target.value, "0.0.0");
      if installer.Ok? {
        var stubs := StubsPlan(swapped, installer.value, StubOwners(c));
        StubsHarmless(swapped, installer.value, StubOwners(c));
        HarmlessGuarded(env, swapped, stubs.ops);
        GuardedConcat(env, r, first + second, stubs.ops);
      }
    }
  }

  // ------------------------------------------------------- runs

  datatype Command = Apply(pkg: Dir) | Rollback(c: Name)

  function PlanOf(env: Env, r: Root, command: Command, luck: Luck): (p: Plan) {
    match command
    case Apply(pkg) => ApplyPlan(env, r, pkg, luck)
    case Rollback(c) => RollbackPlan(env, r, c, luck)
  }

  /** A command carried out up to its `writes`-th write, or to its end. */
  datatype Act = Act(command: Command, luck: Luck, writes: nat)

  function Acted(env: Env, r: Root, act: Act): (r': Root) {
    var ops := PlanOf(env, r, act.command, act.luck).ops;
    Exec(r, if act.writes < |ops| then ops[..act.writes] else ops)
  }

  const EMPTY_TREE: Tree := Tree(map[], map[], None, None, None, None, None)
  const FRESH_ROOT: Root := Root(EMPTY_TREE, EMPTY_TREE, EMPTY_TREE)

  function Run(env: Env, acts: seq<Act>): (r: Root)
    decreases |acts|
  {
    if acts == [] then FRESH_ROOT else Acted(env, Run(env, acts[..|acts| - 1]), acts[|acts| - 1])
  }

  lemma {:induction false} RunInv(env: Env, acts: seq<Act>)
    requires StrictLoader(env)
    ensures Inv(env, Run(env, acts))
    decreases |acts|
  {
    hide ApplyPlan, RollbackPlan, AllGuarded, Exec;
    if acts == [] {
      assert Inv(env, FRESH_ROOT);
    } else {
      var r, act := Run(env, acts[..|acts| - 1]), acts[|acts| - 1];
      RunInv(env, acts[..|acts| - 1]);
      var ops := PlanOf(env, r, act.command, act.luck).ops;
      if act.command.Apply? {
        ApplyGuarded(env, r, act.command.pkg, act.luck);
      } else {
        RollbackGuarded(env, r, act.command.c, act.luck);
      }
      InvThroughout(env, r, ops, if act.writes < |ops| then act.writes else |ops|);
      assert ops[..|ops|] == ops;
    }
  }

  /** However many commands were run, and wherever each of them was cut off:
      the active version of a component, when present, names a release that
      validates; it is never found corrupt, and no release is. */
  lemma ActiveAlwaysValidates(env: Env, acts: seq<Act>, c: Name)
    requires StrictLoader(env)
    ensures var t := Run(env, acts).At(c);
      var active := Inspect(env, c, t);
      && !active.Corrupt?
      && (active.Missing? <==> t.active.None?)
      && (active.Installed? ==> active.version in t.releases && t.active == Some(active.version + "\n"))
      && forall v :: v in t.releases ==>
           var dir := t.releases[v];
           && "META/manifest.json" in dir && env.load(dir["META/manifest.json"].content).Some?
           && var m := env.load(dir["META/manifest.json"].content).value;
              && m.component == c && m.version == v
              && (forall f :: f in m.files ==>
                    && f.target in dir && |dir[f.target].content| == f.size
                    && env.sha256(dir[f.target].content) == f.sha256 && (f.launchable ==> dir[f.target].launchable))
              && (c == InstallerName ==> "bin/zfleet_launcher" in dir && dir["bin/zfleet_launcher"].launchable)
  {
    RunInv(env, acts);
    InspectedThere(env, Run(env, acts), c);
    assert TreeInv(env, c, Run(env, acts).At(c));
    hide ReleaseProblem, Inspect, Run;
    var t := Run(env, acts).At(c);
    forall v | v in t.releases ensures IsRelease(env, c, v, t.releases[v]) {
      ValidatesExactly(env, c, v, t.releases[v]);
    }
  }
}
