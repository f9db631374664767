/**
 Agent packages and which one is served by default. Admin handlers read a
 package, check its status and write later; other handlers may run between the
 check and the write. The tables are compared with a log of what was published
 and retired, in commit order.
 */
module PackagePublishing {
  import opened Prelude

  datatype Status = Uploaded | Validated | Published | Retired | Rejected

  /** The metadata read from the stored archive, which never changes. */
  datatype Metadata = Metadata(component: string, platform: string, arch: string, buildType: string)

  datatype Package = Package(metadata: Metadata, status: Status, publishedAt: Option<int>, retiredAt: Option<int>)

  datatype Key = Key(component: string, channel: string, platform: string, arch: string, buildType: string)

  /** A publication row's primary key; it leaves out the component. */
  datatype PublicationId = PublicationId(packageId: string, channel: string, platform: string, arch: string,
                                         buildType: string)

  datatype Publication = Publication(packageId: string, key: Key, isDefault: bool, publishedAt: int)

  datatype Tables = Tables(packages: map<string, Package>, publications: map<PublicationId, Publication>)

  datatype Write = Committed(tables: Tables) | Threw

  function KeyOf(m: Metadata, channel: string): (k: Key) {
    Key(m.component, channel, m.platform, m.arch, m.buildType)
  }

  function IdOf(packageId: string, k: Key): (r: PublicationId) {
    PublicationId(packageId, k.channel, k.platform, k.arch, k.buildType)
  }

  // ------------------------------------------------------- the writes

  function Upserted(t: Tables, id: string, p: Package): (r: Tables) {
    t.(packages := t.packages[id := p])
  }

  function Cleared(publications: map<PublicationId, Publication>, key: Key): (r: map<PublicationId, Publication>)
    ensures r.Keys == publications.Keys
    ensures forall i :: i in publications ==>
      r[i] == if publications[i].key == key then publications[i].(isDefault := false) else publications[i]
  {
    map i | i in publications ::
      if publications[i].key == key then publications[i].(isDefault := false) else publications[i]
  }

  /** The partial unique index: one default row per key. */
  predicate UniqueDefaults(publications: map<PublicationId, Publication>) {
    forall i, j ::
      (i in publications && j in publications && publications[i].isDefault && publications[j].isDefault
       && publications[i].key == publications[j].key) ==> i == j
  }

  function PublishWrite(t: Tables, id: string, key: Key, at: int): (r: Write) {
    var publications := Cleared(t.publications, key)[IdOf(id, key) := Publication(id, key, true, at)];
    if !UniqueDefaults(publications) || id !in t.packages then Threw
    else
      Committed(Tables(t.packages[id := t.packages[id].(status := Published, publishedAt := Some(at))], publications))
  }

  function Withdrawn(publications: map<PublicationId, Publication>, id: string): (r: map<PublicationId, Publication>)
    ensures r.Keys == publications.Keys
    ensures forall i :: i in publications ==>
      r[i] == if publications[i].packageId == id then publications[i].(isDefault := false) else publications[i]
  {
    map i | i in publications ::
      if publications[i].packageId == id then publications[i].(isDefault := false) else publications[i]
  }

  function RetireWrite(t: Tables, id: string, at: int): (r: Write) {
    if id !in t.packages then Threw
    else
      Committed(Tables(t.packages[id := t.packages[id].(status := Retired, retiredAt := Some(at))],
                       Withdrawn(t.publications, id)))
  }

  // ------------------------------------------------------- the query

  /** A row the default-package query ranges over. */
  predicate Candidate(t: Tables, key: Key, i: PublicationId) {
    && i in t.publications && t.publications[i].isDefault && t.publications[i].key == key
    && t.publications[i].packageId in t.packages && t.packages[t.publications[i].packageId].status == Published
  }

  ghost predicate Latest(t: Tables, key: Key, i: PublicationId)
    requires i in t.publications
  {
    forall j :: Candidate(t, key, j) ==> t.publications[j].publishedAt <= t.publications[i].publishedAt
  }

  /** What `order by published_at desc limit 1` may return. */
  ghost predicate Serves(t: Tables, key: Key, answer: Option<string>) {
    match answer
    case None => forall i :: !Candidate(t, key, i)
    case Some(id) => exists i :: Candidate(t, key, i) && t.publications[i].packageId == id && Latest(t, key, i)
  }

  // ------------------------------------------------------- the tables as an object

  class PackageTables {
    var packages: map<string, Package>
    var publications: map<PublicationId, Publication>

    function View(): (t: Tables)
      reads this
    {
      Tables(packages, publications)
    }

    constructor ()
      ensures View() == Tables(map[], map[])
    {
      packages, publications := map[], map[];
    }

    method UpsertAgentPackage(id: string, p: Package)
      modifies this`packages
      ensures View() == Upserted(old(View()), id, p)
      ensures packages == old(packages)[id := p]
    {
      packages := packages[id := p];
    }

    /** Three statements in one transaction: a throw puts the tables back. */
    method PublishAgentPackage(id: string, key: Key, at: int) returns (ok: bool)
      modifies this
      ensures PublishWrite(old(View()), id, key, at) == if ok then Committed(View()) else Threw
      ensures !ok ==> View() == old(View())
      ensures ok ==> id in old(packages)
      ensures ok ==> packages.Keys == old(packages).Keys && packages - {id} == old(packages) - {id}
      ensures ok ==>
        var was, now := old(packages)[id], packages[id];
        && now.status == Published && now.publishedAt == Some(at)
        && now.metadata == was.metadata && now.retiredAt == was.retiredAt
      ensures ok ==>
        var row := PublicationId(id, key.channel, key.platform, key.arch, key.buildType);
        && publications.Keys == old(publications).Keys + {row}
        && publications[row] == Publication(id, key, true, at)
        && forall i :: i in publications && i != row ==>
             var was, now := old(publications)[i], publications[i];
             now == was.(isDefault := now.isDefault) && (now.isDefault <==> was.isDefault && was.key != key)
    {
      var before := publications;
      var todo: set<PublicationId> := publications.Keys;
      while todo != {}
        invariant todo <= publications.Keys && publications.Keys == before.Keys && packages == old(packages)
        invariant forall i :: i in publications ==>
          publications[i] == if i in todo || before[i].key != key then before[i] else before[i].(isDefault := false)
        decreases todo
      {
        var i :| i in todo;
        todo := todo - {i};
        if publications[i].key == key && publications[i].isDefault {
          publications := publications[i := publications[i].(isDefault := false)];
        }
      }
      assert publications == Cleared(before, key);
      publications := publications[IdOf(id, key) := Publication(id, key, true, at)];
      if !UniqueDefaults(publications) || id !in packages {
        publications := before;
        return false;
      }
      packages := packages[id := packages[id].(status := Published, publishedAt := Some(at))];
      return true;
    }

    method RetireAgentPackage(id: string, at: int) returns (ok: bool)
      modifies this
      ensures RetireWrite(old(View()), id, at) == if ok then Committed(View()) else Threw
      ensures !ok ==> View() == old(View())
      ensures ok <==> id in old(packages)
      ensures ok ==> packages.Keys == old(packages).Keys && packages - {id} == old(packages) - {id}
      ensures ok ==>
        var was, now := old(packages)[id], packages[id];
        && now.status == Retired && now.retiredAt == Some(at)
        && now.metadata == was.metadata && now.publishedAt == was.publishedAt
      ensures ok ==>
        && publications.Keys == old(publications).Keys
        && forall i :: i in publications ==>
             var was, now := old(publications)[i], publications[i];
             now == was.(isDefault := now.isDefault) && (now.isDefault <==> was.isDefault && was.packageId != id)
    {
      if id !in packages {
        return false;
      }
      packages := packages[id := packages[id].(status := Retired, retiredAt := Some(at))];
      var before := publications;
      var todo: set<PublicationId> := publications.Keys;
      while todo != {}
        invariant todo <= publications.Keys && publications.Keys == before.Keys
        invariant packages == old(packages)[id := old(packages)[id].(status := Retired, retiredAt := Some(at))]
        invariant forall i :: i in publications ==>
          publications[i] == if i in todo || before[i].packageId != id then before[i]
              else before[i].(isDefault := false)
        decreases todo
      {
        var i :| i in todo;
        todo := todo - {i};
        if publications[i].packageId == id {
          publications := publications[i := publications[i].(isDefault := false)];
        }
      }
      assert publications == Withdrawn(before, id);
      return true;
    }
  }

  // ------------------------------------------------------- handlers and runs

  /** A handler past its check, with the write it still has to make. */
  datatype Job =
    | StoreJob(id: string, package: Package)
    | PublishJob(id: string, key: Key, at: int)
    | RetireJob(id: string, at: int)

  /** What was committed, in order. */
  datatype Entry = PublishedTo(id: string, key: Key) | RetiredEntry(id: string)

  /** `broken` are the packages whose stored archive no longer validates; an
      archive is never repaired. */
  datatype System = System(tables: Tables, jobs: map<nat, Job>, log: seq<Entry>, broken: set<string>)

  datatype Step =
    | Upload(id: string, metadata: Metadata, job: nat)
    | Validate(id: string, job: nat)
    | Publish(id: string, channel: string, at: int, job: nat)
    | Retire(id: string, at: int, job: nat)
    | Commit(job: nat)
    | BreakArchive(id: string)

  /** The guards of the handlers, on the row they read. */
  predicate MayValidate(t: Tables, id: string) {
    id in t.packages && t.packages[id].status != Retired
  }

  predicate MayPublish(t: Tables, id: string, requested: string) {
    var channel := ChannelOf(requested);
    && id in t.packages
    && (t.packages[id].status == Validated || t.packages[id].status == Published)
    && (channel == "stable" || channel == "candidate" || channel == "dev")
    && !(channel == "stable" && t.packages[id].metadata.buildType == "debug")
  }

  /** A request that names no channel is for stable. */
  function ChannelOf(requested: string): (channel: string) { if requested == "" then "stable" else requested }

  predicate Enabled(s: System, step: Step) {
    match step
    case Upload(id, _, job) => id !in s.tables.packages && job !in s.jobs
    case Validate(id, job) => MayValidate(s.tables, id) && job !in s.jobs
    case Publish(id, channel, _, job) => MayPublish(s.tables, id, channel) && job !in s.jobs
    case Retire(id, _, job) => id in s.tables.packages && job !in s.jobs
    case Commit(job) => job in s.jobs
    case BreakArchive(id) => id in s.tables.packages
  }

  function Committing(s: System, job: nat): (r: System)
    requires job in s.jobs
  {
    var rest := s.(jobs := s.jobs - {job});
    match s.jobs[job]
    case StoreJob(id, p) => rest.(tables := Upserted(s.tables, id, p))
    case PublishJob(id, key, at) =>
      (match PublishWrite(s.tables, id, key, at)
       case Threw => rest
       case Committed(tables) => rest.(tables := tables, log := s.log + [PublishedTo(id, key)]))
    case RetireJob(id, at) =>
      (match RetireWrite(s.tables, id, at)
       case Threw => rest
       case Committed(tables) => rest.(tables := tables, log := s.log + [RetiredEntry(id)]))
  }

  /** An upload stores the row as uploaded and then, in a second write, as
      validated; a validation writes back the row it read. */
  function Next(s: System, step: Step): (r: System)
    requires Enabled(s, step)
  {
    match step
    case Upload(id, metadata, job) =>
      var p := Package(metadata, Uploaded, None, None);
      s.(tables := Upserted(s.tables, id, p), jobs := s.jobs[job := StoreJob(id, p.(status := Validated))])
    case Validate(id, job) =>
      s.(jobs := s.jobs[job :=
        StoreJob(id, s.tables.packages[id].(status := if id in s.broken then Rejected else Validated))])
    case Publish(id, channel, at, job) =>
      s.(jobs := s.jobs[job := PublishJob(id, KeyOf(s.tables.packages[id].metadata, ChannelOf(channel)), at)])
    case Retire(id, at, job) => s.(jobs := s.jobs[job := RetireJob(id, at)])
    case Commit(job) => Committing(s, job)
    case BreakArchive(id) => s.(broken := s.broken + {id})
  }

  const INITIAL: System := System(Tables(map[], map[]), map[], [], {})

  function RunFrom(s: System, steps: seq<Step>): (r: System)
    decreases |steps|
  {
    if steps == [] then s
    else
      var t, step := RunFrom(s, steps[..|steps| - 1]), steps[|steps| - 1];
      if Enabled(t, step) then Next(t, step) else t
  }

  // ------------------------------------------------------- the publish log

  /** The package last published to a key, unless it was retired since. */
  function LastLive(log: seq<Entry>, key: Key): (r: Option<string>)
    decreases |log|
  {
    if log == [] then None
    else
      var before := LastLive(log[..|log| - 1], key);
      match log[|log| - 1]
      case PublishedTo(id, k) => if k == key then Some(id) else before
      case RetiredEntry(id) => if before == Some(id) then None else before
  }

  lemma LastLiveSnoc(log: seq<Entry>, e: Entry, key: Key)
    ensures LastLive(log + [e], key) ==
      match e
      case PublishedTo(id, k) => if k == key then Some(id) else LastLive(log, key)
      case RetiredEntry(id) => if LastLive(log, key) == Some(id) then None else LastLive(log, key)
  {
    assert (log + [e])[..|log|] == log;
  }

  /** Rows are filed under the package and key they carry, of a package with
      that metadata; a waiting write keeps a package's metadata. */
  ghost predicate RowsFormed(s: System) {
    && (forall i :: i in s.tables.publications ==>
          var p := s.tables.publications[i];
          i == IdOf(p.packageId, p.key) && p.packageId in s.tables.packages
          && p.key == KeyOf(s.tables.packages[p.packageId].metadata, p.key.channel))
    && (forall j :: j in s.jobs ==> s.jobs[j].id in s.tables.packages)
    && (forall j :: j in s.jobs && s.jobs[j].StoreJob? ==>
          s.jobs[j].package.metadata == s.tables.packages[s.jobs[j].id].metadata
              && (s.jobs[j].package.status == Validated || s.jobs[j].package.status == Rejected))
    && (forall j :: j in s.jobs && s.jobs[j].PublishJob? ==>
          s.jobs[j].key == KeyOf(s.tables.packages[s.jobs[j].id].metadata, s.jobs[j].key.channel))
  }

  /** The default rows are exactly the live entries of the log. */
  ghost predicate DefaultsLive(publications: map<PublicationId, Publication>, log: seq<Entry>) {
    && (forall i :: i in publications && publications[i].isDefault ==>
          LastLive(log, publications[i].key) == Some(publications[i].packageId))
    && (forall key :: LastLive(log, key).Some? ==>
          var i := IdOf(LastLive(log, key).value, key);
          i in publications && publications[i].isDefault && publications[i].key == key)
  }

  ghost predicate Filed(publications: map<PublicationId, Publication>) {
    forall i :: i in publications ==> i == IdOf(publications[i].packageId, publications[i].key)
  }

  /** Only packages with a broken archive are, or are about to be, rejected. */
  ghost predicate RejectedBroken(s: System) {
    && s.broken <= s.tables.packages.Keys
    && (forall id :: id in s.tables.packages && s.tables.packages[id].status == Rejected ==> id in s.broken)
    && (forall j :: j in s.jobs && s.jobs[j].StoreJob? && s.jobs[j].package.status == Rejected ==>
        s.jobs[j].id in s.broken)
  }

  ghost predicate Inv(s: System) {
    RowsFormed(s) && DefaultsLive(s.tables.publications, s.log) && RejectedBroken(s)
  }

  lemma PublishedLive(publications: map<PublicationId, Publication>, log: seq<Entry>, id: string, key: Key, at: int)
    requires Filed(publications) && DefaultsLive(publications, log)
    requires IdOf(id, key) in publications ==> publications[IdOf(id, key)].key == key
    ensures var p := Cleared(publications, key)[IdOf(id, key) := Publication(id, key, true, at)];
      UniqueDefaults(p) && DefaultsLive(p, log + [PublishedTo(id, key)])
  {
    var log' := log + [PublishedTo(id, key)];
    forall k ensures LastLive(log', k) == if k == key then Some(id) else LastLive(log, k) {
      LastLiveSnoc(log, PublishedTo(id, key), k);
    }
    hide LastLive;
  }

  lemma WithdrawnLive(publications: map<PublicationId, Publication>, log: seq<Entry>, id: string)
    requires Filed(publications) && DefaultsLive(publications, log)
    ensures DefaultsLive(Withdrawn(publications, id), log + [RetiredEntry(id)])
  {
    var log' := log + [RetiredEntry(id)];
    forall k ensures LastLive(log', k) == if LastLive(log, k) == Some(id) then None else LastLive(log, k) {
      LastLiveSnoc(log, RetiredEntry(id), k);
    }
    hide LastLive;
  }

  lemma PublishKeepsInv(s: System, job: nat)
    requires Inv(s) && job in s.jobs && s.jobs[job].PublishJob?
    ensures Inv(Committing(s, job))
  {
    hide LastLive, DefaultsLive, UniqueDefaults;
    PublishedLive(s.tables.publications, s.log, s.jobs[job].id, s.jobs[job].key, s.jobs[job].at);
  }

  lemma RetireKeepsRows(s: System, job: nat)
    requires RowsFormed(s) && job in s.jobs && s.jobs[job].RetireJob?
    ensures RowsFormed(Committing(s, job))
  {
    hide PublishWrite;
  }

  lemma RetireKeepsRejected(s: System, job: nat)
    requires RejectedBroken(s) && job in s.jobs && s.jobs[job].RetireJob?
    ensures RejectedBroken(Committing(s, job))
  {
    hide PublishWrite, Withdrawn;
  }

  lemma RetireKeepsInv(s: System, job: nat)
    requires Inv(s) && job in s.jobs && s.jobs[job].RetireJob?
    ensures Inv(Committing(s, job))
  {
    assert Filed(s.tables.publications);
    hide DefaultsLive, RowsFormed, RejectedBroken, Filed, PublishWrite;
    RetireKeepsRows(s, job);
    RetireKeepsRejected(s, job);
    WithdrawnLive(s.tables.publications, s.log, s.jobs[job].id);
  }

  lemma StoreKeepsRows(s: System, job: nat)
    requires RowsFormed(s) && job in s.jobs && s.jobs[job].StoreJob?
    ensures RowsFormed(Committing(s, job))
  {
    hide PublishWrite, RetireWrite;
  }

  lemma StoreKeepsInv(s: System, job: nat)
    requires Inv(s) && job in s.jobs && s.jobs[job].StoreJob?
    ensures Inv(Committing(s, job))
  {
    hide DefaultsLive, PublishWrite, RetireWrite;
    StoreKeepsRows(s, job);
    hide RowsFormed;
    assert Committing(s, job).log == s.log && Committing(s, job).tables.publications == s.tables.publications;
  }

  lemma CheckKeepsRows(s: System, step: Step)
    requires RowsFormed(s) && Enabled(s, step) && !step.Commit?
    ensures RowsFormed(Next(s, step))
    ensures Next(s, step).log == s.log && Next(s, step).tables.publications == s.tables.publications
  {
  }

  lemma CheckKeepsRejected(s: System, step: Step)
    requires RejectedBroken(s) && Enabled(s, step) && !step.Commit?
    ensures RejectedBroken(Next(s, step))
  {
  }

  lemma CheckKeepsInv(s: System, step: Step)
    requires Inv(s) && Enabled(s, step) && !step.Commit?
    ensures Inv(Next(s, step))
  {
    hide DefaultsLive, RowsFormed, RejectedBroken, Next;
    CheckKeepsRows(s, step);
    CheckKeepsRejected(s, step);
  }

  lemma InvNext(s: System, step: Step)
    requires Inv(s) && Enabled(s, step)
    ensures Inv(Next(s, step))
  {
    hide Inv;
    if !step.Commit? {
      CheckKeepsInv(s, step);
    } else if s.jobs[step.job].PublishJob? {
      PublishKeepsInv(s, step.job);
    } else if s.jobs[step.job].RetireJob? {
      RetireKeepsInv(s, step.job);
    } else {
      StoreKeepsInv(s, step.job);
    }
  }

  lemma {:induction false} RunInv(s: System, steps: seq<Step>)
    requires Inv(s)
    ensures Inv(RunFrom(s, steps))
    decreases |steps|
  {
    if steps != [] {
      var t, step := RunFrom(s, steps[..|steps| - 1]), steps[|steps| - 1];
      RunInv(s, steps[..|steps| - 1]);
      if Enabled(t, step) {
        InvNext(t, step);
      }
    }
  }

  /** A publish fails only for a package that does not exist: in no run does
      clear-then-upsert of a key of that package trip the unique index. */
  lemma PublishFailsOnlyIfMissing(steps: seq<Step>, id: string, channel: string, metadata: Metadata, at: int)
    requires var t := RunFrom(INITIAL, steps).tables; id in t.packages ==> t.packages[id].metadata == metadata
    ensures var t := RunFrom(INITIAL, steps).tables;
      UniqueDefaults(t.publications)
          && (PublishWrite(t, id, KeyOf(metadata, channel), at) == Threw <==> id !in t.packages)
  {
    var s := RunFrom(INITIAL, steps);
    RunInv(INITIAL, steps);
    PublishedLive(s.tables.publications, s.log, id, KeyOf(metadata, channel), at);
  }

  lemma ServesLive(s: System, key: Key, answer: Option<string>)
    requires Inv(s)
    ensures var live := LastLive(s.log, key);
      && (live.Some? ==> live.value in s.tables.packages)
      && (Serves(s.tables, key, answer) <==>
            answer == if live.Some? && s.tables.packages[live.value].status == Published then live else None)
  {
    hide LastLive;
    var live := LastLive(s.log, key);
    if live.Some? {
      var i := IdOf(live.value, key);
      assert s.tables.publications[i].packageId == live.value;
      assert forall j :: Candidate(s.tables, key, j) ==> j == i;
      assert Candidate(s.tables, key, i) <==> s.tables.packages[live.value].status == Published;
    } else {
      assert forall j :: !Candidate(s.tables, key, j);
    }
  }

  /** The default package refines the log: a key is served the package last
      published to it if that was not retired since and its status is still
      published, and nothing otherwise. */
  lemma ServesLastPublished(steps: seq<Step>, key: Key, answer: Option<string>)
    ensures var s := RunFrom(INITIAL, steps);
      var live := LastLive(s.log, key);
      && (live.Some? ==> live.value in s.tables.packages)
      && (Serves(s.tables, key, answer) <==>
            answer == if live.Some? && s.tables.packages[live.value].status == Published then live else None)
  {
    RunInv(INITIAL, steps);
    ServesLive(RunFrom(INITIAL, steps), key, answer);
  }

  // ------------------------------------------------------- what may be served

  /** The channels packages are published on; a debug build never goes to stable. */
  predicate Releasable(k: Key) {
    k.channel in {"stable", "candidate", "dev"} && (k.channel == "stable" ==> k.buildType != "debug")
  }

  ghost predicate AskedFor(steps: seq<Step>, id: string, channel: string) {
    exists i ::
      && 0 <= i < |steps| && steps[i].Publish? && steps[i].id == id
      && (steps[i].channel == channel || (steps[i].channel == "" && channel == "stable"))
  }

  /** Every publication, written or waiting to be, was asked for on a channel it
      may go to. */
  ghost predicate AllReleasable(s: System, steps: seq<Step>) {
    && (forall j :: j in s.jobs && s.jobs[j].PublishJob? ==>
          Releasable(s.jobs[j].key) && AskedFor(steps, s.jobs[j].id, s.jobs[j].key.channel))
    && (forall i :: i in s.tables.publications ==>
          var p := s.tables.publications[i];
          Releasable(p.key) && AskedFor(steps, p.packageId, p.key.channel))
  }

  lemma ReleasableCommit(s: System, job: nat, steps: seq<Step>)
    requires AllReleasable(s, steps) && job in s.jobs
    ensures AllReleasable(Committing(s, job), steps)
  {
    hide Releasable, AskedFor, UniqueDefaults;
  }

  lemma ReleasableNext(s: System, step: Step, steps: seq<Step>)
    requires AllReleasable(s, steps) && Enabled(s, step)
    ensures AllReleasable(Next(s, step), steps + [step])
  {
    ReleasableLonger(s, steps, step);
    assert step.Publish? ==> AskedFor(steps + [step], step.id, ChannelOf(step.channel)) by {
      assert (steps + [step])[|steps|] == step;
    }
    hide AskedFor;
    if step.Commit? {
      ReleasableCommit(s, step.job, steps + [step]);
    } else {
      assert Next(s, step).tables.publications == s.tables.publications;
    }
  }

  lemma ReleasableLonger(s: System, steps: seq<Step>, step: Step)
    requires AllReleasable(s, steps)
    ensures AllReleasable(s, steps + [step])
  {
    forall id, channel | AskedFor(steps, id, channel) ensures AskedFor(steps + [step], id, channel) {
      var i :| 0 <= i < |steps| && steps[i].Publish? && steps[i].id == id
        && (steps[i].channel == channel || (steps[i].channel == "" && channel == "stable"));
      assert (steps + [step])[i] == steps[i];
    }
    hide Releasable, AskedFor;
  }

  lemma {:induction false} RunReleasable(steps: seq<Step>)
    ensures AllReleasable(RunFrom(INITIAL, steps), steps)
    decreases |steps|
  {
    if steps != [] {
      var before, step := steps[..|steps| - 1], steps[|steps| - 1];
      RunReleasable(before);
      assert before + [step] == steps;
      hide AllReleasable;
      if Enabled(RunFrom(INITIAL, before), step) {
        ReleasableNext(RunFrom(INITIAL, before), step, before);
      } else {
        ReleasableLonger(RunFrom(INITIAL, before), before, step);
      }
    }
  }

  /** In every run, what a key is served is a package of just that component,
      platform, architecture and build type that some publish asked to be put on
      that channel, which is one of three; a stable one is never a debug build. */
  lemma ServedAsPublished(steps: seq<Step>, key: Key, id: string)
    requires Serves(RunFrom(INITIAL, steps).tables, key, Some(id))
    ensures var t := RunFrom(INITIAL, steps).tables;
      && id in t.packages && t.packages[id].status == Published
      && t.packages[id].metadata == Metadata(key.component, key.platform, key.arch, key.buildType)
    ensures exists i ::
      && 0 <= i < |steps| && steps[i].Publish? && steps[i].id == id
      && (steps[i].channel == key.channel || (steps[i].channel == "" && key.channel == "stable"))
    ensures key.channel == "stable" || key.channel == "candidate" || key.channel == "dev"
    ensures !(key.channel == "stable" && key.buildType == "debug")
  {
    RunInv(INITIAL, steps);
    RunReleasable(steps);
    ServedRow(RunFrom(INITIAL, steps), steps, key, id);
    hide RunFrom, Inv, AllReleasable, Serves;
  }

  lemma ServedRow(s: System, steps: seq<Step>, key: Key, id: string)
    requires Inv(s) && AllReleasable(s, steps) && Serves(s.tables, key, Some(id))
    ensures id in s.tables.packages && s.tables.packages[id].status == Published
    ensures s.tables.packages[id].metadata == Metadata(key.component, key.platform, key.arch, key.buildType)
    ensures AskedFor(steps, id, key.channel) && Releasable(key)
  {
    hide DefaultsLive, Latest, RejectedBroken, AskedFor;
    var i :| Candidate(s.tables, key, i) && s.tables.publications[i].packageId == id;
  }

  /** A validation that no other handler interferes with decides by the stored
      archive, and a broken one stays rejected by every later validation. */
  lemma ValidationDecides(s: System, id: string, job: nat)
    requires id in s.tables.packages && s.tables.packages[id].status != Retired && job !in s.jobs
    ensures var p := RunFrom(s, [Validate(id, job), Commit(job)]).tables.packages;
      id in p && p[id].status == if id in s.broken then Rejected else Validated
    ensures var p := RunFrom(s, [BreakArchive(id)] + [Validate(id, job), Commit(job)]).tables.packages;
      id in p && p[id].status == Rejected
  {
    ValidateCommits(s, id, job);
    RunOne(s, BreakArchive(id));
    RunConcat(s, [BreakArchive(id)], [Validate(id, job), Commit(job)]);
    ValidateCommits(Next(s, BreakArchive(id)), id, job);
  }

  lemma ValidateCommits(s: System, id: string, job: nat)
    requires id in s.tables.packages && s.tables.packages[id].status != Retired && job !in s.jobs
    ensures var p := RunFrom(s, [Validate(id, job), Commit(job)]).tables.packages;
      id in p && p[id].status == if id in s.broken then Rejected else Validated
  {
    RunOne(s, Validate(id, job));
    RunOne(Next(s, Validate(id, job)), Commit(job));
    RunConcat(s, [Validate(id, job)], [Commit(job)]);
    assert [Validate(id, job)] + [Commit(job)] == [Validate(id, job), Commit(job)];
  }

  // ------------------------------------------------------- retired packages

  predicate IsRetired(s: System, id: string) {
    id in s.tables.packages && s.tables.packages[id].status == Retired
  }

  /** A publish of the package, or a validation that succeeded, which was checked
      before the retirement and has not written yet. */
  predicate Overtaken(s: System, id: string) {
    exists j :: j in s.jobs && s.jobs[j].id == id
      && (s.jobs[j].PublishJob? || (s.jobs[j].StoreJob? && s.jobs[j].package.status == Validated))
  }

  /** Retired, or rejected by a validation that was overtaken by the retirement. */
  predicate Withheld(s: System, id: string) {
    id in s.tables.packages && (s.tables.packages[id].status == Retired || s.tables.packages[id].status == Rejected)
  }

  lemma WithheldCommit(s: System, job: nat, id: string)
    requires Inv(s) && Withheld(s, id) && !Overtaken(s, id) && job in s.jobs
    ensures Withheld(Committing(s, job), id) && !Overtaken(Committing(s, job), id)
  {
    hide UniqueDefaults, DefaultsLive;
    var s' := Committing(s, job);
    assert s'.jobs == s.jobs - {job};
    assert s.jobs[job].id == id ==> s.jobs[job].RetireJob? || s.jobs[job].package.status == Rejected;
  }

  lemma WithheldNext(s: System, step: Step, id: string)
    requires Inv(s) && Withheld(s, id) && !Overtaken(s, id) && Enabled(s, step)
    ensures Withheld(Next(s, step), id) && !Overtaken(Next(s, step), id)
  {
    if step.Commit? {
      WithheldCommit(s, step.job, id);
    } else {
      hide DefaultsLive;
      var s' := Next(s, step);
      forall j | j in s'.jobs && s'.jobs[j].id == id
        ensures !(s'.jobs[j].PublishJob? || (s'.jobs[j].StoreJob? && s'.jobs[j].package.status == Validated))
      {
        assert j in s.jobs ==> s'.jobs[j] == s.jobs[j];
      }
    }
  }

  lemma {:induction false} StaysRetired(s: System, steps: seq<Step>, id: string)
    requires Inv(s) && Withheld(s, id) && !Overtaken(s, id)
    ensures Withheld(RunFrom(s, steps), id) && !Overtaken(RunFrom(s, steps), id)
    decreases |steps|
  {
    if steps != [] {
      var t, step := RunFrom(s, steps[..|steps| - 1]), steps[|steps| - 1];
      StaysRetired(s, steps[..|steps| - 1], id);
      RunInv(s, steps[..|steps| - 1]);
      if Enabled(t, step) {
        WithheldNext(t, step, id);
      }
    }
  }

  lemma {:induction false} RunConcat(s: System, steps: seq<Step>, more: seq<Step>)
    ensures RunFrom(s, steps + more) == RunFrom(RunFrom(s, steps), more)
    decreases |more|
  {
    if more == [] {
      assert steps + more == steps;
    } else {
      assert (steps + more)[..|steps + more| - 1] == steps + more[..|more| - 1];
      RunConcat(s, steps, more[..|more| - 1]);
    }
  }

  lemma RunOne(s: System, step: Step)
    requires Enabled(s, step)
    ensures RunFrom(s, [step]) == Next(s, step)
  {
    assert [step][..0] == [];
    assert RunFrom(s, []) == s;
  }

  /** Committing a publish makes its package the one served. */
  lemma PublishServes(s: System, job: nat)
    requires Inv(s) && job in s.jobs && s.jobs[job].PublishJob?
    ensures Serves(Committing(s, job).tables, s.jobs[job].key, Some(s.jobs[job].id))
  {
    hide DefaultsLive;
    var id, key := s.jobs[job].id, s.jobs[job].key;
    PublishedLive(s.tables.publications, s.log, id, key, s.jobs[job].at);
    PublishKeepsInv(s, job);
    LastLiveSnoc(s.log, PublishedTo(id, key), key);
    ServesLive(Committing(s, job), key, Some(id));
  }

  /** From a validated package one publish gets it served. */
  lemma ValidatedServes(s: System, id: string, job: nat) returns (steps: seq<Step>, key: Key)
    requires Inv(s) && id in s.tables.packages && s.tables.packages[id].status == Validated && job !in s.jobs
    ensures Serves(RunFrom(s, steps).tables, key, Some(id))
  {
    hide DefaultsLive, Serves;
    var publish := Publish(id, "dev", 0, job);
    key := KeyOf(s.tables.packages[id].metadata, "dev");
    InvNext(s, publish);
    var t := Next(s, publish);
    PublishServes(t, job);
    RunOne(s, publish);
    RunOne(t, Commit(job));
    RunConcat(s, [publish], [Commit(job)]);
    steps := [publish] + [Commit(job)];
  }

  lemma StoredServes(s: System, job: nat) returns (steps: seq<Step>, key: Key)
    requires Inv(s) && job in s.jobs && s.jobs[job].StoreJob? && s.jobs[job].package.status == Validated
    ensures Serves(RunFrom(s, steps).tables, key, Some(s.jobs[job].id))
  {
    hide DefaultsLive, Serves;
    InvNext(s, Commit(job));
    RunOne(s, Commit(job));
    var more: seq<Step>;
    more, key := ValidatedServes(Committing(s, job), s.jobs[job].id, job);
    RunConcat(s, [Commit(job)], more);
    steps := [Commit(job)] + more;
  }

  /** A retired package can be served again exactly if some publish of it, or a
      validation that succeeded, is past its check and not yet written. A
      validation that failed only turns it from retired to rejected. With
      handlers that run one at a time there is none. */
  lemma RetiredServedAgain(past: seq<Step>, id: string)
    requires IsRetired(RunFrom(INITIAL, past), id)
    ensures var s := RunFrom(INITIAL, past);
      Overtaken(s, id) <==> exists steps, key :: Serves(RunFrom(s, steps).tables, key, Some(id))
  {
    var s := RunFrom(INITIAL, past);
    RunInv(INITIAL, past);
    if Overtaken(s, id) {
      var job :| job in s.jobs && s.jobs[job].id == id
        && (s.jobs[job].PublishJob? || (s.jobs[job].StoreJob? && s.jobs[job].package.status == Validated));
      if s.jobs[job].PublishJob? {
        PublishServes(s, job);
        RunOne(s, Commit(job));
        assert Serves(RunFrom(s, [Commit(job)]).tables, s.jobs[job].key, Some(id));
      } else {
        var steps, key := StoredServes(s, job);
      }
    } else {
      forall steps, key ensures !Serves(RunFrom(s, steps).tables, key, Some(id)) {
        StaysRetired(s, steps, id);
        hide RunFrom;
      }
    }
  }

  lemma RunSnoc(s: System, steps: seq<Step>, step: Step)
    requires Enabled(RunFrom(s, steps), step)
    ensures RunFrom(s, steps + [step]) == Next(RunFrom(s, steps), step)
  {
    RunConcat(s, steps, [step]);
    RunOne(RunFrom(s, steps), step);
  }

  /** Such a run: a publish is checked, the package is retired, and the publish
      is still to be written. */
  lemma RetirementCanBeOvertaken(m: Metadata) returns (past: seq<Step>)
    ensures IsRetired(RunFrom(INITIAL, past), "p") && Overtaken(RunFrom(INITIAL, past), "p")
  {
    past := [Upload("p", m, 0)];
    RunOne(INITIAL, past[0]);
    RunSnoc(INITIAL, past, Commit(0));
    past := past + [Commit(0)];
    RunSnoc(INITIAL, past, Publish("p", "dev", 1, 0));
    past := past + [Publish("p", "dev", 1, 0)];
    RunSnoc(INITIAL, past, Retire("p", 2, 1));
    past := past + [Retire("p", 2, 1)];
    RunSnoc(INITIAL, past, Commit(1));
    past := past + [Commit(1)];
    assert RunFrom(INITIAL, past).jobs[0].PublishJob?;
  }
}
