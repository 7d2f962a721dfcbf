/**
 Every interleaving of the pipeline's image changes with any number of embedding jobs.  A job collects
 its targets, later locks rows one by one and writes inside a transaction, and commits or crashes;
 between any two of those steps anything else may happen that the held row locks allow.
 */
module ImageRaces {
  import opened Wrappers
  import opened ImageCache

  datatype Staged = Staged(id: Id, w: Write)

  /** A job: what it still has to do, and what its open transaction has written under row locks. */
  datatype Job = Job(gallery: bool, targets: map<Id, Url>, staged: seq<Staged>)

  function LockedBy(job: Job): set<Id> {
    set s | s in job.staged :: s.id
  }

  datatype System = System(t: Tables, jobs: map<nat, Job>)

  datatype Step =
    | PipelineWrites(id: Id, image: Option<Url>)
    | PipelineRepairs(id: Id, url: Url, verdict: (ProbeState, Option<Url>, nat))
    | JobStarts(j: nat, gallery: bool, targets: map<Id, Url>)
    | JobWrites(j: nat, id: Id, w: Write)
    | JobCommits(j: nat)
    | JobCrashes(j: nat)
    | JobEnds(j: nat)

  predicate Locked(sys: System, id: Id) {
    exists j :: j in sys.jobs && id in LockedBy(sys.jobs[j])
  }

  /** What `collect_targets` and `collect_gallery_targets` select: imaged spots without a current row. */
  predicate Collectable(t: Tables, gallery: bool, id: Id, url: Url) {
    var rows := if gallery then t.gallery else t.single;
    url != "" && LockCurrentImage(t, id, url) && !(id in rows && rows[id].url == url)
  }

  /** A write that the outcome of this target can lead to. */
  predicate WriteFits(embed: Embedder, gallery: bool, url: Url, w: Write) {
    && w.url == url
    && match w
       case Embedded(_, vector) => !gallery && vector == embed(url)
       case NotEmbedded(_, _, _) => !gallery
       case GalleryEmbedded(_, _, _) => gallery
  }

  predicate Enabled(embed: Embedder, exclusive: bool, sys: System, step: Step) {
    match step
    case PipelineWrites(id, _) => !Locked(sys, id)
    case PipelineRepairs(id, _, _) => !Locked(sys, id)
    case JobStarts(j, gallery, targets) =>
      && j !in sys.jobs
      && (forall id :: id in targets ==> Collectable(sys.t, gallery, id, targets[id]))
      && (exclusive && !gallery ==> forall k :: k in sys.jobs ==> sys.jobs[k].gallery)
    case JobWrites(j, id, w) =>
      && j in sys.jobs && id in sys.jobs[j].targets
      && WriteFits(embed, sys.jobs[j].gallery, sys.jobs[j].targets[id], w)
      && (forall k :: k in sys.jobs && k != j ==> id !in LockedBy(sys.jobs[k]))
    case JobCommits(j) => j in sys.jobs
    case JobCrashes(j) => j in sys.jobs
    case JobEnds(j) => j in sys.jobs && sys.jobs[j].staged == []
  }

  /** All writes of one transaction becoming visible at once. */
  function CommitAll(t: Tables, staged: seq<Staged>): Tables {
    if staged == [] then t
    else
      var s := staged[|staged| - 1];
      Apply(CommitAll(t, staged[..|staged| - 1]), s.id, s.w)
  }

  function Do(sys: System, step: Step): System {
    match step
    case PipelineWrites(id, url) => sys.(t := SetImage(sys.t, id, url))
    case PipelineRepairs(id, url, verdict) => sys.(t := Repair(sys.t, id, url, verdict))
    case JobStarts(j, gallery, targets) => sys.(jobs := sys.jobs[j := Job(gallery, targets, [])])
    case JobWrites(j, id, w) =>
      if j !in sys.jobs then sys else
      var job := sys.jobs[j];
      var staged := if LockCurrentImage(sys.t, id, w.url) then job.staged + [Staged(id, w)] else job.staged;
      sys.(jobs := sys.jobs[j := job.(targets := job.targets - {id}, staged := staged)])
    case JobCommits(j) =>
      if j !in sys.jobs then sys else
      System(CommitAll(sys.t, sys.jobs[j].staged), sys.jobs[j := sys.jobs[j].(staged := [])])
    case JobCrashes(j) => sys.(jobs := sys.jobs - {j})
    case JobEnds(j) => sys.(jobs := sys.jobs - {j})
  }

  ghost predicate Legal(embed: Embedder, exclusive: bool, sys: System, steps: seq<Step>)
    decreases |steps|
  {
    steps == [] || (Enabled(embed, exclusive, sys, steps[0]) && Legal(embed, exclusive, Do(sys, steps[0]), steps[1..]))
  }

  function RunAll(sys: System, steps: seq<Step>): System
    decreases |steps|
  {
    if steps == [] then sys else RunAll(Do(sys, steps[0]), steps[1..])
  }

  // ----- freshness -----

  predicate CurrentImage(spots: map<Id, Option<Url>>, id: Id, url: Url) {
    url != "" && id in spots && spots[id] == Some(url)
  }

  /** Every derived row belongs to the image its spot shows now. */
  ghost predicate Fresh(embed: Embedder, t: Tables) {
    && (forall id :: id in t.single ==>
          CurrentImage(t.spots, id, t.single[id].url) && t.single[id].vector == embed(t.single[id].url))
    && (forall id :: id in t.gallery ==> CurrentImage(t.spots, id, t.gallery[id].url))
  }

  /** What a job holds: targets with images, and staged writes for images that are still current. */
  ghost predicate Holds(embed: Embedder, spots: map<Id, Option<Url>>, job: Job) {
    && (forall id :: id in job.targets ==> job.targets[id] != "")
    && (forall s :: s in job.staged ==>
          CurrentImage(spots, s.id, s.w.url) && WriteFits(embed, job.gallery, s.w.url, s.w))
  }

  /** No row is locked by two transactions. */
  predicate LocksAreDisjoint(jobs: map<nat, Job>) {
    forall j, k :: j in jobs && k in jobs && j != k ==> LockedBy(jobs[j]) !! LockedBy(jobs[k])
  }

  ghost predicate LocksHold(embed: Embedder, sys: System) {
    (forall j :: j in sys.jobs ==> Holds(embed, sys.t.spots, sys.jobs[j])) && LocksAreDisjoint(sys.jobs)
  }

  lemma SetImageKeepsFresh(embed: Embedder, t: Tables, id: Id, url: Option<Url>)
    requires Fresh(embed, t)
    ensures Fresh(embed, SetImage(t, id, url))
  {
  }

  /** An image change cannot disturb a row somebody holds locked. */
  lemma SetImageKeepsLocks(embed: Embedder, sys: System, id: Id, url: Option<Url>)
    requires LocksHold(embed, sys) && !Locked(sys, id)
    ensures LocksHold(embed, sys.(t := SetImage(sys.t, id, url)))
  {
    assert SetImage(sys.t, id, url).spots == sys.t.spots[id := url];
    hide WriteFits, LocksAreDisjoint, SetImage;
    forall j | j in sys.jobs
      ensures Holds(embed, sys.t.spots[id := url], sys.jobs[j])
    {
      assert Holds(embed, sys.t.spots, sys.jobs[j]);
    }
  }

  lemma {:induction false} CommitKeepsFresh(embed: Embedder, t: Tables, job: Job)
    requires Fresh(embed, t) && Holds(embed, t.spots, job)
    ensures Fresh(embed, CommitAll(t, job.staged)) && CommitAll(t, job.staged).spots == t.spots
    decreases |job.staged|
  {
    if job.staged != [] {
      CommitKeepsFresh(embed, t, job.(staged := job.staged[..|job.staged| - 1]));
      assert job.staged[|job.staged| - 1] in job.staged;
    }
  }

  lemma WriteKeepsLocks(embed: Embedder, exclusive: bool, sys: System, j: nat, id: Id, w: Write)
    requires LocksHold(embed, sys) && Enabled(embed, exclusive, sys, JobWrites(j, id, w))
    ensures LocksHold(embed, Do(sys, JobWrites(j, id, w)))
  {
    assert Holds(embed, sys.t.spots, sys.jobs[j]);
    var after := Do(sys, JobWrites(j, id, w));
    assert Holds(embed, sys.t.spots, after.jobs[j]);
    assert LockedBy(after.jobs[j]) <= LockedBy(sys.jobs[j]) + {id};
    hide Holds;
    assert forall k :: k in sys.jobs && k != j ==> after.jobs[k] == sys.jobs[k];
  }

  lemma StepKeepsFresh(embed: Embedder, exclusive: bool, sys: System, step: Step)
    requires Fresh(embed, sys.t) && LocksHold(embed, sys) && Enabled(embed, exclusive, sys, step)
    ensures Fresh(embed, Do(sys, step).t) && LocksHold(embed, Do(sys, step))
  {
    hide Fresh, CommitAll, SetImage, WriteFits;
    match step
    case PipelineWrites(id, url) =>
      SetImageKeepsFresh(embed, sys.t, id, url);
      SetImageKeepsLocks(embed, sys, id, url);
    case PipelineRepairs(id, url, verdict) =>
      SetImageKeepsFresh(embed, sys.t, id, verdict.1);
      SetImageKeepsLocks(embed, sys, id, verdict.1);
    case JobStarts(j, gallery, targets) =>
      assert Holds(embed, sys.t.spots, Job(gallery, targets, []));
    case JobWrites(j, id, w) => WriteKeepsLocks(embed, exclusive, sys, j, id, w);
    case JobCommits(j) =>
      CommitKeepsFresh(embed, sys.t, sys.jobs[j]);
      assert Holds(embed, sys.t.spots, sys.jobs[j].(staged := []));
    case JobCrashes(_) =>
    case JobEnds(_) =>
  }

  lemma {:induction false} RunKeepsFresh(embed: Embedder, exclusive: bool, sys: System, steps: seq<Step>)
    requires Fresh(embed, sys.t) && LocksHold(embed, sys) && Legal(embed, exclusive, sys, steps)
    ensures Fresh(embed, RunAll(sys, steps).t) && LocksHold(embed, RunAll(sys, steps))
    decreases |steps|
  {
    hide Fresh, LocksHold, Enabled, Do;
    if steps != [] {
      StepKeepsFresh(embed, exclusive, sys, steps[0]);
      RunKeepsFresh(embed, exclusive, Do(sys, steps[0]), steps[1..]);
    }
  }

  function Initially(spots: map<Id, Option<Url>>): System {
    System(Tables(spots, map[], map[], map[]), map[])
  }

  /**
   Under every interleaving, with or without the job lock: a stored single embedding is that of the
   spot's current image, and a gallery row carries the spot's current image.
   */
  lemma DerivedRowsAreAlwaysCurrent(embed: Embedder, exclusive: bool, spots: map<Id, Option<Url>>, steps: seq<Step>)
    requires Legal(embed, exclusive, Initially(spots), steps)
    ensures Fresh(embed, RunAll(Initially(spots), steps).t)
  {
    RunKeepsFresh(embed, exclusive, Initially(spots), steps);
  }

  // ----- failures and embeddings -----

  predicate NeverBoth(t: Tables) {
    t.single.Keys !! t.failures.Keys
  }

  /** The one single-image job owns its targets: none of them has an embedding yet. */
  ghost predicate OneWriter(sys: System) {
    && (forall j, k :: j in sys.jobs && k in sys.jobs && !sys.jobs[j].gallery && !sys.jobs[k].gallery ==> j == k)
    && (forall j :: j in sys.jobs && !sys.jobs[j].gallery ==> Owns(sys.t, sys.jobs[j]))
  }

  predicate Owns(t: Tables, job: Job) {
    && job.targets.Keys !! LockedBy(job) && t.single.Keys !! job.targets.Keys && t.single.Keys !! LockedBy(job)
    && forall i, k :: 0 <= i < k < |job.staged| ==> job.staged[i].id != job.staged[k].id
  }

  lemma SetImageKeepsApart(embed: Embedder, t: Tables, id: Id, url: Option<Url>)
    requires Fresh(embed, t) && NeverBoth(t)
    ensures NeverBoth(SetImage(t, id, url)) && SetImage(t, id, url).single.Keys <= t.single.Keys
  {
  }

  lemma {:induction false} GalleryCommitKeepsApart(t: Tables, staged: seq<Staged>)
    requires forall s :: s in staged ==> s.w.GalleryEmbedded?
    ensures CommitAll(t, staged).single == t.single && CommitAll(t, staged).failures == t.failures
  {
    if staged != [] {
      assert staged[|staged| - 1] in staged;
      GalleryCommitKeepsApart(t, staged[..|staged| - 1]);
    }
  }

  lemma ApplyKeepsApart(t: Tables, id: Id, w: Write)
    requires NeverBoth(t) && id !in t.single
    ensures NeverBoth(Apply(t, id, w)) && Apply(t, id, w).single.Keys <= t.single.Keys + {id}
  {
  }

  lemma OwnsFront(t: Tables, job: Job, front: Job, last: Staged)
    requires Owns(t, job) && job == front.(staged := front.staged + [last])
    ensures Owns(t, front) && LockedBy(job) == LockedBy(front) + {last.id}
    ensures last.id !in t.single && last.id !in LockedBy(front)
  {
    assert forall i :: 0 <= i < |front.staged| ==> job.staged[i] == front.staged[i];
    assert job.staged[|front.staged|] == last && last in job.staged;
    assert forall s :: s in job.staged <==> s in front.staged || s == last;
  }

  lemma {:induction false} SingleCommitKeepsApart(t: Tables, job: Job)
    requires NeverBoth(t) && Owns(t, job)
    ensures NeverBoth(CommitAll(t, job.staged))
    ensures CommitAll(t, job.staged).single.Keys <= t.single.Keys + LockedBy(job)
    decreases |job.staged|
  {
    hide Owns, LockedBy, Apply, NeverBoth;
    if job.staged != [] {
      var last := job.staged[|job.staged| - 1];
      var front := job.(staged := job.staged[..|job.staged| - 1]);
      OwnsFront(t, job, front, last);
      SingleCommitKeepsApart(t, front);
      ApplyKeepsApart(CommitAll(t, front.staged), last.id, last.w);
    }
  }

  lemma SetImageKeepsOwners(embed: Embedder, sys: System, id: Id, url: Option<Url>)
    requires Fresh(embed, sys.t) && OneWriter(sys) && NeverBoth(sys.t)
    ensures OneWriter(sys.(t := SetImage(sys.t, id, url))) && NeverBoth(SetImage(sys.t, id, url))
  {
    SetImageKeepsApart(embed, sys.t, id, url);
    hide SetImage, Fresh, NeverBoth;
  }

  lemma CommitKeepsOwners(embed: Embedder, sys: System, j: nat)
    requires LocksHold(embed, sys) && OneWriter(sys) && NeverBoth(sys.t) && j in sys.jobs
    ensures OneWriter(Do(sys, JobCommits(j))) && NeverBoth(Do(sys, JobCommits(j)).t)
  {
    hide CommitAll, LocksAreDisjoint;
    var job := sys.jobs[j];
    assert Holds(embed, sys.t.spots, job);
    if job.gallery {
      GalleryCommitKeepsApart(sys.t, job.staged);
      SameSingleSameOwners(sys.t, CommitAll(sys.t, job.staged), sys.jobs);
    } else {
      SingleCommitKeepsApart(sys.t, job);
    }
  }

  lemma SameSingleSameOwners(t: Tables, u: Tables, jobs: map<nat, Job>)
    requires t.single == u.single
    ensures forall j :: j in jobs ==> Owns(t, jobs[j]) == Owns(u, jobs[j])
  {
  }

  lemma WriteKeepsOwners(embed: Embedder, sys: System, j: nat, id: Id, w: Write)
    requires OneWriter(sys) && Enabled(embed, true, sys, JobWrites(j, id, w))
    ensures OneWriter(Do(sys, JobWrites(j, id, w)))
  {
    hide WriteFits;
    var before, after := sys.jobs[j], Do(sys, JobWrites(j, id, w)).jobs[j];
    if !before.gallery {
      assert LockedBy(after) <= LockedBy(before) + {id};
      assert forall i :: 0 <= i < |before.staged| ==> before.staged[i].id in LockedBy(before);
      assert Owns(sys.t, after);
    }
    hide Owns, LockCurrentImage;
  }

  lemma StepKeepsApart(embed: Embedder, sys: System, step: Step)
    requires Fresh(embed, sys.t) && LocksHold(embed, sys) && Enabled(embed, true, sys, step)
    requires OneWriter(sys) && NeverBoth(sys.t)
    ensures OneWriter(Do(sys, step)) && NeverBoth(Do(sys, step).t)
  {
    hide CommitAll, NeverBoth, SetImage, WriteFits, LocksHold;
    match step
    case PipelineWrites(id, url) => SetImageKeepsOwners(embed, sys, id, url);
    case PipelineRepairs(id, url, verdict) => SetImageKeepsOwners(embed, sys, id, verdict.1);
    case JobStarts(j, gallery, targets) =>
      if !gallery { NewJobOwnsItsTargets(embed, sys.t, targets); }
    case JobWrites(j, id, w) => WriteKeepsOwners(embed, sys, j, id, w);
    case JobCommits(j) => CommitKeepsOwners(embed, sys, j);
    case JobCrashes(_) =>
    case JobEnds(_) =>
  }

  lemma NewJobOwnsItsTargets(embed: Embedder, t: Tables, targets: map<Id, Url>)
    requires Fresh(embed, t) && forall id :: id in targets ==> Collectable(t, false, id, targets[id])
    ensures Owns(t, Job(false, targets, []))
  {
  }

  lemma {:induction false} RunKeepsApart(embed: Embedder, sys: System, steps: seq<Step>)
    requires Fresh(embed, sys.t) && LocksHold(embed, sys) && Legal(embed, true, sys, steps)
    requires OneWriter(sys) && NeverBoth(sys.t)
    ensures NeverBoth(RunAll(sys, steps).t)
    decreases |steps|
  {
    hide Fresh, LocksHold, Enabled, Do, OneWriter, NeverBoth;
    if steps != [] {
      StepKeepsFresh(embed, true, sys, steps[0]);
      StepKeepsApart(embed, sys, steps[0]);
      RunKeepsApart(embed, Do(sys, steps[0]), steps[1..]);
    }
  }

  /** Under the exclusive job lock, no spot has both an embedding and a recorded failure. */
  lemma NoFailureBesideAnEmbedding(embed: Embedder, spots: map<Id, Option<Url>>, steps: seq<Step>)
    requires Legal(embed, true, Initially(spots), steps)
    ensures NeverBoth(RunAll(Initially(spots), steps).t)
  {
    RunKeepsApart(embed, Initially(spots), steps);
  }

  lemma {:induction false} RunsConcat(embed: Embedder, exclusive: bool, sys: System, a: seq<Step>, b: seq<Step>)
    requires Legal(embed, exclusive, sys, a) && Legal(embed, exclusive, RunAll(sys, a), b)
    ensures Legal(embed, exclusive, sys, a + b) && RunAll(sys, a + b) == RunAll(RunAll(sys, a), b)
    decreases |a|
  {
    hide Enabled, Do;
    if a == [] {
      assert a + b == b;
    } else {
      RunsConcat(embed, exclusive, Do(sys, a[0]), a[1..], b);
      assert (a + b)[1..] == a[1..] + b;
    }
  }

  lemma OneStep(embed: Embedder, exclusive: bool, sys: System, step: Step)
    requires Enabled(embed, exclusive, sys, step)
    ensures Legal(embed, exclusive, sys, [step]) && RunAll(sys, [step]) == Do(sys, step)
  {
    hide Enabled, Do;
    assert [step][1..] == [];
  }

  /** A job with one target runs its write through to the commit. */
  lemma WriteAndCommit(embed: Embedder, sys: System, j: nat, id: Id, w: Write)
    requires j in sys.jobs && Enabled(embed, false, sys, JobWrites(j, id, w))
    requires sys.jobs[j].staged == [] && LockCurrentImage(sys.t, id, w.url)
    ensures var steps := [JobWrites(j, id, w), JobCommits(j)];
            var after := RunAll(sys, steps);
            && Legal(embed, false, sys, steps)
            && after.t == Apply(sys.t, id, w)
            && after.jobs.Keys == sys.jobs.Keys && after.jobs[j].staged == []
            && forall k :: k in sys.jobs && k != j ==> after.jobs[k] == sys.jobs[k]
  {
    hide LockCurrentImage, WriteFits, Apply;
    var mid := Do(sys, JobWrites(j, id, w));
    assert mid.jobs[j].staged == [Staged(id, w)];
    assert CommitAll(sys.t, [Staged(id, w)][..0]) == sys.t;
    OneStep(embed, false, sys, JobWrites(j, id, w));
    OneStep(embed, false, mid, JobCommits(j));
    RunsConcat(embed, false, sys, [JobWrites(j, id, w)], [JobCommits(j)]);
    assert [JobWrites(j, id, w)] + [JobCommits(j)] == [JobWrites(j, id, w), JobCommits(j)];
  }

  predicate BothIdle(sys: System, id: Id, url: Url) {
    && sys.jobs.Keys == {0, 1} && LockCurrentImage(sys.t, id, url)
    && sys.jobs[0] == sys.jobs[1] == Job(false, map[id := url], [])
  }

  lemma BothStart(embed: Embedder, id: Id, url: Url)
    requires url != ""
    ensures var s0 := Initially(map[id := Some(url)]);
            var steps := [JobStarts(0, false, map[id := url]), JobStarts(1, false, map[id := url])];
            Legal(embed, false, s0, steps) && BothIdle(RunAll(s0, steps), id, url)
  {
    var first, second := JobStarts(0, false, map[id := url]), JobStarts(1, false, map[id := url]);
    var s0 := Initially(map[id := Some(url)]);
    var s1 := Do(s0, first);
    OneStep(embed, false, s0, first);
    OneStep(embed, false, s1, second);
    RunsConcat(embed, false, s0, [first], [second]);
    assert [first] + [second] == [first, second];
  }

  lemma OneWinsThenOneFails(embed: Embedder, sys: System, id: Id, url: Url)
    requires BothIdle(sys, id, url)
    ensures exists steps :: Legal(embed, false, sys, steps) && !NeverBoth(RunAll(sys, steps).t)
  {
    var wins, fails := Embedded(url, embed(url)), NotEmbedded(url, DownloadFailed, None);
    var winning := [JobWrites(0, id, wins), JobCommits(0)];
    var failing := [JobWrites(1, id, fails), JobCommits(1)];
    WriteAndCommit(embed, sys, 0, id, wins);
    var won := RunAll(sys, winning);
    WriteAndCommit(embed, won, 1, id, fails);
    hide Legal, RunAll, BothIdle, LockCurrentImage;
    RunsConcat(embed, false, sys, winning, failing);
    WonAndLost(sys.t, id, wins, fails);
  }

  lemma WonAndLost(t: Tables, id: Id, wins: Write, fails: Write)
    requires wins.Embedded? && fails.NotEmbedded?
    ensures !NeverBoth(Apply(Apply(t, id, wins), id, fails))
  {
    var after := Apply(Apply(t, id, wins), id, fails);
    assert id in after.single.Keys * after.failures.Keys;
  }

  /** The lock is needed: two jobs that collected the same target can leave both. */
  lemma TwoJobsCanLeaveBoth(embed: Embedder, id: Id, url: Url)
    requires url != ""
    ensures var start := Initially(map[id := Some(url)]);
            exists steps :: Legal(embed, false, start, steps) && !NeverBoth(RunAll(start, steps).t)
  {
    hide Legal, RunAll, BothIdle, Initially;
    var start := Initially(map[id := Some(url)]);
    var steps := [JobStarts(0, false, map[id := url]), JobStarts(1, false, map[id := url])];
    BothStart(embed, id, url);
    var middle := RunAll(start, steps);
    OneWinsThenOneFails(embed, middle, id, url);
    var rest :| Legal(embed, false, middle, rest) && !NeverBoth(RunAll(middle, rest).t);
    RunsConcat(embed, false, start, steps, rest);
  }

  // ----- no work is lost -----

  /** A stored spot with an image has an embedding of that image, or stands in the list of failures. */
  predicate Accounted(t: Tables, id: Id) {
    id in t.spots && (HasImage(t.spots[id]) ==> id in t.failures || (id in t.single && Some(t.single[id].url) == t.spots[id]))
  }

  /** What a job still owes a spot: nothing, a commit, or a write for the image it collected. */
  predicate InHand(t: Tables, job: Job, id: Id) {
    || Accounted(t, id)
    || id in LockedBy(job)
    || (id in job.targets && LockCurrentImage(t, id, job.targets[id]))
  }

  lemma SetImageAccounts(t: Tables, id: Id, url: Option<Url>, other: Id)
    requires other in t.spots
    ensures Accounted(t, other) ==> Accounted(SetImage(t, id, url), other)
    ensures SetImage(t, id, url).spots[other] == t.spots[other] || Accounted(SetImage(t, id, url), other)
  {
  }

  lemma ApplyAccounts(t: Tables, id: Id, w: Write, other: Id)
    requires CurrentImage(t.spots, id, w.url)
    ensures Accounted(t, other) ==> Accounted(Apply(t, id, w), other)
    ensures !w.GalleryEmbedded? ==> Accounted(Apply(t, id, w), id)
    ensures Apply(t, id, w).spots == t.spots
  {
  }

  lemma {:induction false} CommitAccounts(embed: Embedder, t: Tables, job: Job, id: Id)
    requires Holds(embed, t.spots, job)
    ensures var after := CommitAll(t, job.staged);
            && after.spots == t.spots
            && (Accounted(t, id) || (!job.gallery && id in LockedBy(job)) ==> Accounted(after, id))
    decreases |job.staged|
  {
    if job.staged != [] {
      var last, front := job.staged[|job.staged| - 1], job.(staged := job.staged[..|job.staged| - 1]);
      assert forall s :: s in job.staged <==> s in front.staged || s == last;
      CommitAccounts(embed, t, front, id);
      hide Accounted, Apply;
      ApplyAccounts(CommitAll(t, front.staged), last.id, last.w, id);
    }
  }

  lemma StepKeepsAccounted(embed: Embedder, exclusive: bool, sys: System, step: Step, id: Id)
    requires LocksHold(embed, sys) && Enabled(embed, exclusive, sys, step) && Accounted(sys.t, id)
    ensures Accounted(Do(sys, step).t, id)
  {
    match step
    case PipelineWrites(k, url) => SetImageAccounts(sys.t, k, url, id);
    case PipelineRepairs(k, _, verdict) => SetImageAccounts(sys.t, k, verdict.1, id);
    case JobCommits(j) => CommitAccounts(embed, sys.t, sys.jobs[j], id);
    case _ =>
  }

  lemma WriteKeepsInHand(t: Tables, job: Job, other: Id, w: Write, id: Id)
    requires other in job.targets && w.url == job.targets[other] && InHand(t, job, id)
    ensures var staged := if LockCurrentImage(t, other, w.url) then job.staged + [Staged(other, w)] else job.staged;
            InHand(t, job.(targets := job.targets - {other}, staged := staged), id)
  {
    var staged := if LockCurrentImage(t, other, w.url) then job.staged + [Staged(other, w)] else job.staged;
    assert forall s :: s in job.staged ==> s in staged;
    if LockCurrentImage(t, other, w.url) { assert Staged(other, w) in staged; }
  }

  /** Until it crashes or ends, a single-image job keeps every target in hand, overtaken ones included. */
  lemma StepKeepsInHand(embed: Embedder, exclusive: bool, sys: System, step: Step, j: nat, id: Id)
    requires LocksHold(embed, sys) && Enabled(embed, exclusive, sys, step)
    requires j in sys.jobs && !sys.jobs[j].gallery && step !in {JobCrashes(j), JobEnds(j)}
    requires id in sys.t.spots && InHand(sys.t, sys.jobs[j], id)
    ensures var after := Do(sys, step);
            j in after.jobs && !after.jobs[j].gallery && id in after.t.spots && InHand(after.t, after.jobs[j], id)
  {
    match step
    case PipelineWrites(k, url) => SetImageAccounts(sys.t, k, url, id);
    case PipelineRepairs(k, _, verdict) => SetImageAccounts(sys.t, k, verdict.1, id);
    case JobCommits(k) => CommitAccounts(embed, sys.t, sys.jobs[k], id);
    case JobWrites(k, other, w) =>
      if k == j { WriteKeepsInHand(sys.t, sys.jobs[j], other, w, id); }
    case _ =>
  }

  lemma {:induction false} RunKeepsInHand(embed: Embedder, exclusive: bool, sys: System, steps: seq<Step>, j: nat, id: Id)
    requires Fresh(embed, sys.t) && LocksHold(embed, sys) && Legal(embed, exclusive, sys, steps)
    requires j in sys.jobs && !sys.jobs[j].gallery && JobCrashes(j) !in steps && JobEnds(j) !in steps
    requires id in sys.t.spots && InHand(sys.t, sys.jobs[j], id)
    ensures var after := RunAll(sys, steps); j in after.jobs && InHand(after.t, after.jobs[j], id)
    decreases |steps|
  {
    hide Fresh, LocksHold, Enabled, Do, InHand;
    if steps != [] {
      StepKeepsFresh(embed, exclusive, sys, steps[0]);
      StepKeepsInHand(embed, exclusive, sys, steps[0], j, id);
      RunKeepsInHand(embed, exclusive, Do(sys, steps[0]), steps[1..], j, id);
    }
  }

  lemma {:induction false} RunKeepsAccounted(embed: Embedder, exclusive: bool, sys: System, steps: seq<Step>, id: Id)
    requires Fresh(embed, sys.t) && LocksHold(embed, sys) && Legal(embed, exclusive, sys, steps) && Accounted(sys.t, id)
    ensures Accounted(RunAll(sys, steps).t, id)
    decreases |steps|
  {
    hide Fresh, LocksHold, Enabled, Do, Accounted;
    if steps != [] {
      StepKeepsFresh(embed, exclusive, sys, steps[0]);
      StepKeepsAccounted(embed, exclusive, sys, steps[0], id);
      RunKeepsAccounted(embed, exclusive, Do(sys, steps[0]), steps[1..], id);
    }
  }

  /** A job that has written and committed all it collected. */
  predicate Finished(sys: System, j: nat) {
    j in sys.jobs && sys.jobs[j].targets.Keys == {} && sys.jobs[j].staged == []
  }

  /**
   No work is lost: a job started in any reachable state, whatever runs beside it, accounts for every spot it
   collected, those overtaken by the pipeline included, and nothing that happens later undoes that.
   */
  lemma CollectedWorkIsAccountedFor(embed: Embedder, exclusive: bool, spots: map<Id, Option<Url>>, before: seq<Step>,
                                    j: nat, targets: map<Id, Url>, during: seq<Step>, later: seq<Step>, id: Id)
    requires Legal(embed, exclusive, Initially(spots), before)
    requires var reached := RunAll(Initially(spots), before);
             && Enabled(embed, exclusive, reached, JobStarts(j, false, targets)) && id in targets
             && var started := Do(reached, JobStarts(j, false, targets));
             && Legal(embed, exclusive, started, during) && JobCrashes(j) !in during && JobEnds(j) !in during
             && Finished(RunAll(started, during), j)
             && Legal(embed, exclusive, RunAll(started, during), later)
    ensures var started := Do(RunAll(Initially(spots), before), JobStarts(j, false, targets));
            Accounted(RunAll(RunAll(started, during), later).t, id)
  {
    var reached := RunAll(Initially(spots), before);
    var started := Do(reached, JobStarts(j, false, targets));
    RunKeepsFresh(embed, exclusive, Initially(spots), before);
    StepKeepsFresh(embed, exclusive, reached, JobStarts(j, false, targets));
    assert Collectable(reached.t, false, id, targets[id]);
    RunKeepsFresh(embed, exclusive, started, during);
    RunKeepsInHand(embed, exclusive, started, during, j, id);
    hide Fresh, LocksHold, Legal, RunAll;
    RunKeepsAccounted(embed, exclusive, RunAll(started, during), later, id);
  }
}
