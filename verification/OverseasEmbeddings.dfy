/**
 The embedding column of the overseas table: nulled whenever the image URL changes (by the upsert's own
 CASE and by a trigger), filled by jobs that compare the URL in the update itself.  Any number of jobs
 may be running; each commits its batch as one transaction.
 */
module OverseasEmbeddings {
  import opened Wrappers
  import opened Sets

  type Url = string
  type Vector = string
  type Embedder = Url -> Vector

  datatype Row = Row(imageUrl: Url, embedding: Option<Vector>)

  /** Rows by their natural key, `wikidata_id`. */
  type Rows = map<string, Row>

  /** The BEFORE UPDATE trigger, given the row before and the row about to be stored. */
  function Trigger(before: Row, incoming: Row): Row {
    if before.imageUrl != incoming.imageUrl then incoming.(embedding := None) else incoming
  }

  function Upsert(rows: Rows, id: string, url: Url): Rows {
    if id !in rows then rows[id := Row(url, None)]
    else
      var kept := if rows[id].imageUrl != url then None else rows[id].embedding;
      rows[id := Trigger(rows[id], Row(url, kept))]
  }

  /** The job's conditional update. */
  function WriteEmbedding(rows: Rows, id: string, url: Url, vector: Vector): Rows {
    if id in rows && rows[id].imageUrl == url then
      rows[id := Trigger(rows[id], rows[id].(embedding := Some(vector)))]
    else rows
  }

  datatype Outcome = Outcome(id: string, url: Url, vector: Option<Vector>)

  function WriteAll(rows: Rows, os: seq<Outcome>): Rows {
    if os == [] then rows
    else
      var o := os[|os| - 1];
      var before := WriteAll(rows, os[..|os| - 1]);
      if o.vector.Some? then WriteEmbedding(before, o.id, o.url, o.vector.value) else before
  }

  /** The job's writes touch no URL, so whether a later one lands was settled before the batch. */
  lemma {:induction false} WritingKeepsUrls(rows: Rows, os: seq<Outcome>)
    ensures WriteAll(rows, os).Keys == rows.Keys
    ensures forall id :: id in rows ==> WriteAll(rows, os)[id].imageUrl == rows[id].imageUrl
  {
    if os != [] { WritingKeepsUrls(rows, os[..|os| - 1]); }
  }

  /** The outcome carries a vector for the image its row shows. */
  predicate Lands(rows: Rows, o: Outcome) {
    o.vector.Some? && o.id in rows && rows[o.id].imageUrl == o.url
  }

  /** What a batch leaves of one row: the vector of the last outcome that lands on it, and otherwise what it was. */
  ghost predicate WrittenRow(rows: Rows, os: seq<Outcome>, id: string, after: Row)
    requires id in rows
  {
    || (after == rows[id] && forall i | 0 <= i < |os| && os[i].id == id :: !Lands(rows, os[i]))
    || exists i :: IsLast(rows, os, id, i) && after == Row(rows[id].imageUrl, os[i].vector)
  }

  ghost predicate IsLast(rows: Rows, os: seq<Outcome>, id: string, i: int) {
    0 <= i < |os| && os[i].id == id && Lands(rows, os[i]) && forall j | i < j < |os| && os[j].id == id :: !Lands(rows, os[j])
  }

  /** A batch leaves the last embedding that lands on each row, and a row none lands on alone. */
  lemma {:induction false} LastEmbeddingStays(rows: Rows, os: seq<Outcome>, id: string)
    requires id in rows
    ensures id in WriteAll(rows, os) && WrittenRow(rows, os, id, WriteAll(rows, os)[id])
  {
    if os != [] {
      var front, k := os[..|os| - 1], |os| - 1;
      WritingKeepsUrls(rows, front);
      LastEmbeddingStays(rows, front, id);
      var before, after := WriteAll(rows, front)[id], WriteAll(rows, os)[id];
      if os[k].id == id && Lands(rows, os[k]) {
        assert IsLast(rows, os, id, k);
      } else if i :| IsLast(rows, front, id, i) && before == Row(rows[id].imageUrl, front[i].vector) {
        assert IsLast(rows, os, id, i) && os[i] == front[i];
      } else {
        assert forall i | 0 <= i < |front| :: front[i] == os[i];
      }
    }
  }

  /** A batch of embeddings made by `embed` leaves current ones only, whatever was overtaken. */
  lemma BatchKeepsFresh(embed: Embedder, rows: Rows, os: seq<Outcome>)
    requires Fresh(embed, rows) && forall o :: o in os && o.vector.Some? ==> o.vector.value == embed(o.url)
    ensures Fresh(embed, WriteAll(rows, os))
  {
    WritingKeepsUrls(rows, os);
    hide WriteAll;
    forall id | id in rows
      ensures WriteAll(rows, os)[id].embedding.Some? ==> WriteAll(rows, os)[id].embedding.value == embed(rows[id].imageUrl)
    {
      LastEmbeddingStays(rows, os, id);
      if i :| IsLast(rows, os, id, i) && WriteAll(rows, os)[id] == Row(rows[id].imageUrl, os[i].vector) {
        assert os[i] in os;
      }
    }
  }

  /** The positions of the outcomes that land, and of those without a vector. */
  function Landing(rows: Rows, os: seq<Outcome>): set<nat> {
    set i: nat | i < |os| && Lands(rows, os[i])
  }

  function Missing(os: seq<Outcome>): set<nat> {
    set i: nat | i < |os| && os[i].vector.None?
  }

  lemma OneMoreOutcome(rows: Rows, os: seq<Outcome>, i: nat)
    requires i < |os|
    ensures |Landing(rows, os[..i + 1])| == |Landing(rows, os[..i])| + if Lands(rows, os[i]) then 1 else 0
    ensures |Missing(os[..i + 1])| == |Missing(os[..i])| + if os[i].vector.None? then 1 else 0
  {
    hide Lands;
    var more, fewer := os[..i + 1], os[..i];
    assert forall k :: 0 <= k < i ==> more[k] == fewer[k];
    assert more[i] == os[i];
    AddsOne(Landing(rows, more), Landing(rows, fewer), i, Lands(rows, os[i]));
    AddsOne(Missing(more), Missing(fewer), i, os[i].vector.None?);
  }

  lemma NothingLanded(rows: Rows)
    ensures Landing(rows, []) == {} && Missing([]) == {}
  {
  }

  class OverseasTable {
    var rows: Rows

    constructor ()
      ensures rows == map[]
    {
      rows := map[];
    }

    method UpsertOverseas(id: string, url: Url) returns (inserted: bool)
      modifies this
      ensures rows == Upsert(old(rows), id, url) && (inserted <==> id !in old(rows))
      ensures rows == old(rows)[id := Row(url, if id in old(rows) && old(rows)[id].imageUrl == url
                                               then old(rows)[id].embedding else None)]
    {
      if id !in rows {
        rows := rows[id := Row(url, None)];
        return true;
      }
      var embedding := if rows[id].imageUrl != url then None else rows[id].embedding;
      rows := rows[id := Trigger(rows[id], Row(url, embedding))];
      inserted := false;
    }

    /** The writes of one batch, with the job's counters: what landed, what had no vector, and what came too late. */
    method WriteBatch(outcomes: seq<Outcome>) returns (embedded: nat, failed: nat, skipped: nat)
      modifies this
      ensures rows == WriteAll(old(rows), outcomes)
      ensures forall id :: id in old(rows) ==> id in rows && WrittenRow(old(rows), outcomes, id, rows[id])
      ensures embedded == |Landing(old(rows), outcomes)| && failed == |Missing(outcomes)|
      ensures embedded + failed + skipped == |outcomes|
    {
      hide WrittenRow, IsLast, Landing, Missing;
      NothingLanded(rows);
      assert outcomes[..0] == [];
      embedded, failed, skipped := 0, 0, 0;
      var i := 0;
      while i < |outcomes|
        invariant 0 <= i <= |outcomes| && rows == WriteAll(old(rows), outcomes[..i])
        invariant embedded == |Landing(old(rows), outcomes[..i])| && failed == |Missing(outcomes[..i])|
        invariant embedded + failed + skipped == i
      {
        var o := outcomes[i];
        assert outcomes[..i + 1][..i] == outcomes[..i];
        WritingKeepsUrls(old(rows), outcomes[..i]);
        OneMoreOutcome(old(rows), outcomes, i);
        if o.vector.None? {
          failed := failed + 1;
        } else if o.id in rows && rows[o.id].imageUrl == o.url {
          rows := rows[o.id := Trigger(rows[o.id], rows[o.id].(embedding := o.vector))];
          embedded := embedded + 1;
        } else {
          skipped := skipped + 1;
        }
        i := i + 1;
      }
      assert outcomes[..i] == outcomes;
      forall id | id in old(rows)
        ensures id in rows && WrittenRow(old(rows), outcomes, id, rows[id])
      {
        LastEmbeddingStays(old(rows), outcomes, id);
      }
    }
  }

  // ----- every interleaving -----

  /** A job: its targets, and the embeddings its open transaction has written. */
  datatype Job = Job(targets: set<(string, Url)>, staged: seq<Outcome>)

  datatype System = System(rows: Rows, jobs: map<nat, Job>)

  datatype Step =
    | PipelineUpserts(id: string, url: Url)
    | JobStarts(j: nat, targets: set<(string, Url)>)
    | JobUpdates(j: nat, target: (string, Url))
    | JobCommits(j: nat)
    | JobStops(j: nat)

  /** Rows an open transaction has updated stay locked until it ends. */
  function LockedBy(job: Job): set<string> {
    set s | s in job.staged :: s.id
  }

  predicate Unlocked(sys: System, id: string, except: Option<nat>) {
    forall j :: j in sys.jobs && Some(j) != except ==> id !in LockedBy(sys.jobs[j])
  }

  predicate Enabled(sys: System, step: Step) {
    match step
    case PipelineUpserts(id, _) => Unlocked(sys, id, None)
    case JobStarts(j, targets) =>
      j !in sys.jobs
      && forall t :: t in targets ==> t.0 in sys.rows && sys.rows[t.0] == Row(t.1, None)
    case JobUpdates(j, target) => j in sys.jobs && target in sys.jobs[j].targets && Unlocked(sys, target.0, Some(j))
    case JobCommits(j) => j in sys.jobs
    case JobStops(j) => j in sys.jobs
  }

  function Do(embed: Embedder, sys: System, step: Step): System {
    match step
    case PipelineUpserts(id, url) => sys.(rows := Upsert(sys.rows, id, url))
    case JobStarts(j, targets) => sys.(jobs := sys.jobs[j := Job(targets, [])])
    case JobUpdates(j, (id, url)) =>
      if j in sys.jobs && id in sys.rows && sys.rows[id].imageUrl == url then
        var job := sys.jobs[j];
        sys.(jobs := sys.jobs[j := job.(targets := job.targets - {(id, url)},
                                        staged := job.staged + [Outcome(id, url, Some(embed(url)))])])
      else sys
    case JobCommits(j) =>
      if j in sys.jobs then
        System(WriteAll(sys.rows, sys.jobs[j].staged), sys.jobs[j := sys.jobs[j].(staged := [])])
      else sys
    case JobStops(j) => sys.(jobs := sys.jobs - {j})
  }

  ghost predicate Legal(embed: Embedder, sys: System, steps: seq<Step>)
    decreases |steps|
  {
    steps == [] || (Enabled(sys, steps[0]) && Legal(embed, Do(embed, sys, steps[0]), steps[1..]))
  }

  function RunAll(embed: Embedder, sys: System, steps: seq<Step>): System
    decreases |steps|
  {
    if steps == [] then sys else RunAll(embed, Do(embed, sys, steps[0]), steps[1..])
  }

  ghost predicate Fresh(embed: Embedder, rows: Rows) {
    forall id :: id in rows && rows[id].embedding.Some? ==> rows[id].embedding.value == embed(rows[id].imageUrl)
  }

  ghost predicate Holds(embed: Embedder, rows: Rows, job: Job) {
    forall s :: s in job.staged ==> s.vector == Some(embed(s.url)) && Lands(rows, s)
  }

  ghost predicate LocksHold(embed: Embedder, sys: System) {
    forall j :: j in sys.jobs ==> Holds(embed, sys.rows, sys.jobs[j])
  }

  /** A committed batch leaves current embeddings only, and one for every row it wrote. */
  lemma CommitKeepsFresh(embed: Embedder, rows: Rows, job: Job)
    requires Fresh(embed, rows) && Holds(embed, rows, job)
    ensures var after := WriteAll(rows, job.staged);
            && Fresh(embed, after) && after.Keys == rows.Keys
            && (forall id :: id in rows ==> after[id].imageUrl == rows[id].imageUrl)
            && (forall s :: s in job.staged ==> after[s.id].embedding == Some(embed(s.url)))
  {
    WritingKeepsUrls(rows, job.staged);
    BatchKeepsFresh(embed, rows, job.staged);
    forall s | s in job.staged
      ensures WriteAll(rows, job.staged)[s.id].embedding == Some(embed(s.url))
    {
      LastEmbeddingStays(rows, job.staged, s.id);
      var i :| 0 <= i < |job.staged| && job.staged[i] == s;
      assert Lands(rows, job.staged[i]);
    }
  }

  lemma StepKeepsFresh(embed: Embedder, sys: System, step: Step)
    requires Fresh(embed, sys.rows) && LocksHold(embed, sys) && Enabled(sys, step)
    ensures Fresh(embed, Do(embed, sys, step).rows) && LocksHold(embed, Do(embed, sys, step))
  {
    hide WriteAll;
    match step
    case PipelineUpserts(_, _) =>
    case JobStarts(_, _) =>
    case JobUpdates(j, _) => assert Holds(embed, sys.rows, sys.jobs[j]);
    case JobCommits(j) => CommitKeepsFresh(embed, sys.rows, sys.jobs[j]);
    case JobStops(_) =>
  }

  lemma {:induction false} RunKeepsFresh(embed: Embedder, sys: System, steps: seq<Step>)
    requires Fresh(embed, sys.rows) && LocksHold(embed, sys) && Legal(embed, sys, steps)
    ensures Fresh(embed, RunAll(embed, sys, steps).rows)
    decreases |steps|
  {
    hide Fresh, LocksHold, Enabled, Do;
    if steps != [] {
      StepKeepsFresh(embed, sys, steps[0]);
      RunKeepsFresh(embed, Do(embed, sys, steps[0]), steps[1..]);
    }
  }

  /** Under every interleaving, a stored embedding is that of the image the row shows now. */
  lemma EmbeddingsAreAlwaysCurrent(embed: Embedder, steps: seq<Step>)
    requires Legal(embed, System(map[], map[]), steps)
    ensures Fresh(embed, RunAll(embed, System(map[], map[]), steps).rows)
  {
    RunKeepsFresh(embed, System(map[], map[]), steps);
  }
}
