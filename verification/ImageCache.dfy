/**
 The embeddings derived from a spot's image, a cache keyed by the image URL.  The pipeline changes
 URLs, a trigger invalidates, and jobs write back behind a row lock that compares the URL.  Here are the
 tables, each statement on them, and the code that issues it.
 */
module ImageCache {
  import opened Wrappers
  import opened Sets

  type Id = string
  type Url = string
  type Vector = string

  /** What an image URL embeds to; the download and the model behind it are not looked at. */
  type Embedder = Url -> Vector

  /** A derived row: the embedding of one image, or that of a gallery with the number of images behind it. */
  datatype Derived = Single(url: Url, vector: Vector) | Gallery(url: Url, vector: Vector, images: nat)

  datatype Reason = DownloadFailed | ClipError | SourceChanged

  datatype Failure = Failure(reason: Reason, attempts: nat, error: Option<string>)

  datatype Tables = Tables(
    spots: map<Id, Option<Url>>,
    single: map<Id, Derived>,
    gallery: map<Id, Derived>,
    failures: map<Id, Failure>)

  // ----- statements, as functions on the tables -----

  predicate HasImage(url: Option<Url>) {
    url.Some? && url.value != ""
  }

  function DropStale(rows: map<Id, Derived>, id: Id, url: Option<Url>): map<Id, Derived> {
    if id in rows && (!HasImage(url) || rows[id].url != url.value) then rows - {id} else rows
  }

  /** The trigger function, for a row whose new image is `url`. */
  function Invalidate(t: Tables, id: Id, url: Option<Url>): Tables {
    t.(single := DropStale(t.single, id, url),
       gallery := DropStale(t.gallery, id, url),
       failures := if !HasImage(url) then t.failures - {id}
                   else if id in t.failures then
                     t.failures[id := t.failures[id].(reason := SourceChanged, error := None)]
                   else t.failures[id := Failure(SourceChanged, 1, None)])
  }

  /** An insert or update of a spot's image; the trigger fires on updates that change it. */
  function SetImage(t: Tables, id: Id, url: Option<Url>): Tables {
    var updated := t.(spots := t.spots[id := url]);
    if id in t.spots && t.spots[id] != url then Invalidate(updated, id, url) else updated
  }

  /** The row lock of a job's write: taken exactly when the stored URL is the job's. */
  predicate LockCurrentImage(t: Tables, id: Id, url: Url) {
    id in t.spots && t.spots[id] == Some(url)
  }

  datatype Write =
    | Embedded(url: Url, vector: Vector)
    | NotEmbedded(url: Url, reason: Reason, error: Option<string>)
    | GalleryEmbedded(url: Url, vector: Vector, images: nat)

  /** A job's write once its lock is held. */
  function Apply(t: Tables, id: Id, w: Write): Tables {
    match w
    case Embedded(url, vector) => t.(single := t.single[id := Single(url, vector)], failures := t.failures - {id})
    case NotEmbedded(_, reason, error) =>
      t.(failures := t.failures[id := Failure(reason, if id in t.failures then t.failures[id].attempts + 1 else 1, error)])
    case GalleryEmbedded(url, vector, images) => t.(gallery := t.gallery[id := Gallery(url, vector, images)])
  }

  // ----- the code -----

  /** What the download and embedding of one target came to. */
  datatype Outcome =
    | Fine(id: Id, url: Url, vector: Vector)
    | Bad(id: Id, url: Url, reason: Reason, error: Option<string>)

  function WriteOf(o: Outcome): Write {
    match o
    case Fine(_, url, vector) => Embedded(url, vector)
    case Bad(_, url, reason, error) => NotEmbedded(url, reason, error)
  }

  function Record(t: Tables, o: Outcome): Tables {
    if LockCurrentImage(t, o.id, o.url) then Apply(t, o.id, WriteOf(o)) else t
  }

  function RecordAll(t: Tables, os: seq<Outcome>): Tables {
    if os == [] then t else Record(RecordAll(t, os[..|os| - 1]), os[|os| - 1])
  }

  datatype ProbeState = Alive | Dead | Unknown

  /** `_resolve`: what to do about one image, given the probe and the mid-size variant of a URL. */
  function Resolve(probe: Url -> ProbeState, midSize: Url -> Option<Url>, url: Url): (r: (ProbeState, Option<Url>, nat))
    ensures 1 <= r.2 <= 2
  {
    if probe(url) != Dead then (probe(url), None, 1)
    else match midSize(url)
         case None => (Dead, None, 1)
         case Some(mid) =>
           match probe(mid)
           case Alive => (Dead, Some(mid), 2)
           case Unknown => (Unknown, None, 2)
           case Dead => (Dead, None, 2)
  }

  /** The compare-and-set a resolved image leads to. */
  function Repair(t: Tables, id: Id, url: Url, verdict: (ProbeState, Option<Url>, nat)): Tables {
    if verdict.0 == Dead && LockCurrentImage(t, id, url) then SetImage(t, id, verdict.1) else t
  }

  function RepairAll(t: Tables, rows: seq<(Id, Url)>, probe: Url -> ProbeState, midSize: Url -> Option<Url>): Tables {
    if rows == [] then t
    else
      var (id, url) := rows[|rows| - 1];
      Repair(RepairAll(t, rows[..|rows| - 1], probe, midSize), id, url, Resolve(probe, midSize, url))
  }

  // ----- the tally of a job -----

  datatype Status = Done | Failed(reason: Reason)

  class EmbedResult {
    var written: nat
    var failed: nat
    var skipped: nat
    var byStatus: map<Status, nat>

    constructor ()
      ensures Valid() && forall st :: Times(st) == 0
    {
      written, failed, skipped, byStatus := 0, 0, 0, map[];
    }

    ghost function Times(status: Status): nat
      reads this
    {
      if status in byStatus then byStatus[status] else 0
    }

    /** The three counters are what the tally by status says. */
    ghost predicate Valid()
      reads this
    {
      && written == Times(Done) && skipped == Times(Failed(SourceChanged))
      && failed == Times(Failed(DownloadFailed)) + Times(Failed(ClipError))
    }

    method Record(status: Status)
      requires Valid()
      modifies this
      ensures Valid()
      ensures forall st :: Times(st) == old(Times(st)) + if st == status then 1 else 0
    {
      byStatus := byStatus[status := (if status in byStatus then byStatus[status] else 0) + 1];
      if status == Done {
        written := written + 1;
      } else if status == Failed(SourceChanged) {
        skipped := skipped + 1;
      } else {
        AllStatuses(status);
        failed := failed + 1;
      }
    }
  }

  lemma AllStatuses(status: Status)
    ensures status in {Done, Failed(SourceChanged), Failed(DownloadFailed), Failed(ClipError)}
  {
    match status
    case Done =>
    case Failed(reason) =>
      match reason
      case DownloadFailed =>
      case ClipError =>
      case SourceChanged =>
  }

  /** What is recorded of one outcome: a write the pipeline has overtaken counts as a changed source. */
  function StatusOf(t: Tables, o: Outcome): Status {
    if !LockCurrentImage(t, o.id, o.url) then Failed(SourceChanged)
    else if o.Fine? then Done
    else Failed(o.reason)
  }

  function CountStatus(t: Tables, os: seq<Outcome>, status: Status): nat {
    if os == [] then 0
    else CountStatus(t, os[..|os| - 1], status) + if StatusOf(t, os[|os| - 1]) == status then 1 else 0
  }

  /** Every outcome of a batch is recorded under exactly one status. */
  lemma {:induction false} EveryOutcomeIsRecordedOnce(t: Tables, os: seq<Outcome>)
    ensures CountStatus(t, os, Done) + CountStatus(t, os, Failed(SourceChanged))
            + CountStatus(t, os, Failed(DownloadFailed)) + CountStatus(t, os, Failed(ClipError)) == |os|
  {
    if os != [] {
      EveryOutcomeIsRecordedOnce(t, os[..|os| - 1]);
      AllStatuses(StatusOf(t, os[|os| - 1]));
      hide StatusOf;
    }
  }

  lemma NextOutcome(t: Tables, os: seq<Outcome>, i: nat)
    requires i < |os|
    ensures RecordAll(t, os[..i + 1]) == Record(RecordAll(t, os[..i]), os[i])
    ensures forall st :: CountStatus(t, os[..i + 1], st)
                         == CountStatus(t, os[..i], st) + if StatusOf(t, os[i]) == st then 1 else 0
  {
    assert os[..i + 1][..i] == os[..i];
  }

  lemma NoOutcomes(t: Tables)
    ensures RecordAll(t, []) == t && forall st :: CountStatus(t, [], st) == 0
  {
  }

  class ImageStore {
    var spots: map<Id, Option<Url>>
    var single: map<Id, Derived>
    var gallery: map<Id, Derived>
    var failures: map<Id, Failure>

    constructor (spots: map<Id, Option<Url>>)
      ensures View() == Tables(spots, map[], map[], map[])
    {
      this.spots := spots;
      single, gallery, failures := map[], map[], map[];
    }

    ghost function View(): Tables
      reads this
    {
      Tables(spots, single, gallery, failures)
    }

    method InvalidateDerivatives(id: Id, url: Option<Url>)
      modifies this`single, this`gallery, this`failures
      ensures View() == Invalidate(old(View()), id, url)
    {
      if id in single && (!HasImage(url) || Some(single[id].url) != url) {
        single := single - {id};
      }
      if id in gallery && (!HasImage(url) || Some(gallery[id].url) != url) {
        gallery := gallery - {id};
      }
      if !HasImage(url) {
        failures := failures - {id};
      } else if id in failures {
        failures := failures[id := failures[id].(reason := SourceChanged, error := None)];
      } else {
        failures := failures[id := Failure(SourceChanged, 1, None)];
      }
    }

    method Update(id: Id, url: Option<Url>)
      modifies this
      ensures View() == SetImage(old(View()), id, url)
    {
      var fires := id in spots && spots[id] != url;
      spots := spots[id := url];
      if fires {
        InvalidateDerivatives(id, url);
      }
    }

    method RecordSuccess(id: Id, url: Url, vector: Vector) returns (written: bool)
      modifies this`single, this`failures
      ensures written <==> LockCurrentImage(old(View()), id, url)
      ensures View() == if written then Apply(old(View()), id, Embedded(url, vector)) else old(View())
    {
      if !(id in spots && spots[id] == Some(url)) {
        return false;
      }
      single := single[id := Single(url, vector)];
      failures := failures - {id};
      written := true;
    }

    method RecordFailure(id: Id, url: Url, reason: Reason, error: Option<string>) returns (recorded: bool)
      modifies this`failures
      ensures recorded <==> LockCurrentImage(old(View()), id, url)
      ensures View() == if recorded then Apply(old(View()), id, NotEmbedded(url, reason, error)) else old(View())
    {
      if !(id in spots && spots[id] == Some(url)) {
        return false;
      }
      var attempts := if id in failures then failures[id].attempts + 1 else 1;
      failures := failures[id := Failure(reason, attempts, error)];
      recorded := true;
    }

    method RecordGallery(id: Id, url: Url, vector: Vector, images: nat) returns (written: bool)
      modifies this`gallery
      ensures written <==> LockCurrentImage(old(View()), id, url)
      ensures View() == if written then Apply(old(View()), id, GalleryEmbedded(url, vector, images)) else old(View())
      ensures written ==> gallery == old(gallery)[id := Gallery(url, vector, images)]
    {
      if !(id in spots && spots[id] == Some(url)) {
        return false;
      }
      gallery := gallery[id := Gallery(url, vector, images)];
      written := true;
    }

    /** One batch: every outcome is written if its image is still current, and its status recorded. */
    method EmbedSpots(outcomes: seq<Outcome>, result: EmbedResult)
      requires result.Valid()
      modifies this`single, this`failures, result
      ensures View() == RecordAll(old(View()), outcomes)
      ensures result.Valid()
      ensures forall st :: result.Times(st) == old(result.Times(st)) + CountStatus(old(View()), outcomes, st)
    {
      hide RecordAll, CountStatus;
      NoOutcomes(View());
      assert outcomes[..0] == [];
      var i := 0;
      while i < |outcomes|
        invariant 0 <= i <= |outcomes| && result.Valid()
        invariant View() == RecordAll(old(View()), outcomes[..i])
        invariant forall st :: result.Times(st) == old(result.Times(st)) + CountStatus(old(View()), outcomes[..i], st)
      {
        var o := outcomes[i];
        RecordKeepsSpots(old(View()), outcomes[..i]);
        NextOutcome(old(View()), outcomes, i);
        var status;
        match o {
          case Fine(id, url, vector) =>
            var done := RecordSuccess(id, url, vector);
            status := if done then Done else Failed(SourceChanged);
          case Bad(id, url, reason, error) =>
            var done := RecordFailure(id, url, reason, error);
            status := Failed(if done then reason else SourceChanged);
        }
        assert status == StatusOf(old(View()), o);
        result.Record(status);
        i := i + 1;
      }
      assert outcomes[..i] == outcomes;
    }

    /** `_validate`: probe every listed image, rewrite or clear the dead ones that are still current. */
    method ValidateImages(rows: seq<(Id, Url)>, probe: Url -> ProbeState, midSize: Url -> Option<Url>, dryRun: bool)
      returns (probed: nat, rewritten: nat, cleared: nat, unknown: nat, probes: nat)
      modifies this
      ensures View() == if dryRun then old(View()) else RepairAll(old(View()), rows, probe, midSize)
      ensures probed == |rows| && probes == Probes(rows, probe, midSize)
      ensures rewritten == Tallied(rows, probe, midSize, Rewritten) && cleared == Tallied(rows, probe, midSize, Cleared)
      ensures unknown == Tallied(rows, probe, midSize, Unsure)
    {
      hide Resolve, SetImage;
      probed, rewritten, cleared, unknown, probes := 0, 0, 0, 0, 0;
      var i := 0;
      while i < |rows|
        invariant 0 <= i <= |rows| && probed == i && probes == Probes(rows[..i], probe, midSize)
        invariant View() == if dryRun then old(View()) else RepairAll(old(View()), rows[..i], probe, midSize)
        invariant rewritten == Tallied(rows[..i], probe, midSize, Rewritten)
        invariant cleared == Tallied(rows[..i], probe, midSize, Cleared)
        invariant unknown == Tallied(rows[..i], probe, midSize, Unsure)
      {
        var (id, url) := rows[i];
        assert rows[..i + 1][..i] == rows[..i];
        var (state, replacement, asked) := Resolve(probe, midSize, url);
        probes, probed := probes + asked, probed + 1;
        if state != Dead {
          if state == Unknown {
            unknown := unknown + 1;
          }
        } else {
          if replacement.Some? {
            rewritten := rewritten + 1;
          } else {
            cleared := cleared + 1;
          }
          if !dryRun && id in spots && spots[id] == Some(url) {
            Update(id, replacement);
          }
        }
        i := i + 1;
      }
      assert rows[..i] == rows;
    }
  }

  /** What the run reports about one image. */
  datatype Verdict = Usable | Unsure | Rewritten | Cleared

  function VerdictOf(resolved: (ProbeState, Option<Url>, nat)): Verdict {
    match resolved.0
    case Alive => Usable
    case Unknown => Unsure
    case Dead => if resolved.1.Some? then Rewritten else Cleared
  }

  /** What is reported of one image, in terms of its own probe and that of its mid-size variant. */
  lemma VerdictsAreExact(probe: Url -> ProbeState, midSize: Url -> Option<Url>, url: Url)
    ensures var verdict, mid := VerdictOf(Resolve(probe, midSize, url)), midSize(url);
            && (verdict == Usable <==> probe(url) == Alive)
            && (verdict == Unsure <==>
                  probe(url) == Unknown || (probe(url) == Dead && mid.Some? && probe(mid.value) == Unknown))
            && (verdict == Rewritten <==> probe(url) == Dead && mid.Some? && probe(mid.value) == Alive)
            && (verdict == Cleared <==> probe(url) == Dead && (mid.None? || probe(mid.value) == Dead))
  {
  }

  function Tallied(rows: seq<(Id, Url)>, probe: Url -> ProbeState, midSize: Url -> Option<Url>, verdict: Verdict): nat {
    if rows == [] then 0
    else
      Tallied(rows[..|rows| - 1], probe, midSize, verdict)
      + if VerdictOf(Resolve(probe, midSize, rows[|rows| - 1].1)) == verdict then 1 else 0
  }

  function Probes(rows: seq<(Id, Url)>, probe: Url -> ProbeState, midSize: Url -> Option<Url>): nat {
    if rows == [] then 0
    else Probes(rows[..|rows| - 1], probe, midSize) + Resolve(probe, midSize, rows[|rows| - 1].1).2
  }

  /** The report accounts for every image once, and for one or two probes each. */
  lemma {:induction false} EveryImageIsReportedOnce(rows: seq<(Id, Url)>, probe: Url -> ProbeState, midSize: Url -> Option<Url>)
    ensures Tallied(rows, probe, midSize, Usable) + Tallied(rows, probe, midSize, Unsure)
            + Tallied(rows, probe, midSize, Rewritten) + Tallied(rows, probe, midSize, Cleared) == |rows|
    ensures |rows| <= Probes(rows, probe, midSize) <= 2 * |rows|
  {
    hide Resolve;
    if rows != [] { EveryImageIsReportedOnce(rows[..|rows| - 1], probe, midSize); }
  }

  lemma {:induction false} RecordKeepsSpots(t: Tables, os: seq<Outcome>)
    ensures RecordAll(t, os).spots == t.spots
  {
    if os != [] { RecordKeepsSpots(t, os[..|os| - 1]); }
  }

  // ----- what a batch leaves -----

  function Lookup<T>(rows: map<Id, T>, id: Id): Option<T> {
    if id in rows then Some(rows[id]) else None
  }

  /** The outcome is about the image its spot shows. */
  predicate IsCurrent(t: Tables, o: Outcome) {
    o.id in t.spots && t.spots[o.id] == Some(o.url)
  }

  ghost predicate IsLast(t: Tables, os: seq<Outcome>, id: Id, i: int) {
    && 0 <= i < |os| && os[i].id == id && IsCurrent(t, os[i])
    && forall j | i < j < |os| && os[j].id == id :: !IsCurrent(t, os[j])
  }

  ghost predicate NoneIsCurrent(t: Tables, os: seq<Outcome>, id: Id) {
    forall j | 0 <= j < |os| && os[j].id == id :: !IsCurrent(t, os[j])
  }

  /** What the last outcome about a spot's image leaves of it. */
  ghost predicate Leaves(after: Tables, o: Outcome) {
    match o
    case Fine(id, url, vector) => Lookup(after.single, id) == Some(Single(url, vector)) && Lookup(after.failures, id) == None
    case Bad(id, _, reason, error) =>
      var f := Lookup(after.failures, id); f.Some? && f.value.reason == reason && f.value.error == error
  }

  lemma OneOutcome(t: Tables, before: Tables, o: Outcome, id: Id)
    requires before.spots == t.spots
    ensures var after := Record(before, o);
            && after.gallery == before.gallery && after.spots == before.spots
            && if o.id == id && IsCurrent(t, o) then Leaves(after, o)
               else Lookup(after.single, id) == Lookup(before.single, id)
                    && Lookup(after.failures, id) == Lookup(before.failures, id)
  {
  }

  lemma LastOrBefore(t: Tables, os: seq<Outcome>, id: Id, i: int)
    requires IsLast(t, os, id, i)
    ensures var k := |os| - 1;
            0 <= i <= k && os[i].id == id && IsCurrent(t, os[i])
            && (i < k ==> IsLast(t, os[..k], id, i) && os[..k][i] == os[i] && !(os[k].id == id && IsCurrent(t, os[k])))
  {
  }

  /**
   A batch leaves of each spot what the last outcome about its image came to: the embedding and no failure, or
   the failure.  A spot with no such outcome keeps what it had, and nothing else is touched.
   */
  lemma {:induction false} LastOutcomeStays(t: Tables, os: seq<Outcome>, id: Id)
    ensures var after := RecordAll(t, os);
            && after.gallery == t.gallery && after.spots == t.spots
            && (forall i | IsLast(t, os, id, i) :: Leaves(after, os[i]))
            && (NoneIsCurrent(t, os, id) ==>
                  Lookup(after.single, id) == Lookup(t.single, id) && Lookup(after.failures, id) == Lookup(t.failures, id))
  {
    if os != [] {
      var front, k := os[..|os| - 1], |os| - 1;
      LastOutcomeStays(t, front, id);
      var after := RecordAll(t, os);
      OneOutcome(t, RecordAll(t, front), os[k], id);
      assert NoneIsCurrent(t, os, id) ==> NoneIsCurrent(t, front, id) && !(os[k].id == id && IsCurrent(t, os[k])) by {
        assert forall i | 0 <= i < k :: front[i] == os[i];
      }
      hide RecordAll, Record, IsCurrent, Lookup, IsLast, NoneIsCurrent;
      forall i | IsLast(t, os, id, i)
        ensures Leaves(after, os[i])
      {
        LastOrBefore(t, os, id, i);
      }
    }
  }

  /** A failure counts one attempt more than the table knew, and leaves the embedding, if there is one. */
  lemma FailureCountsOn(t: Tables, o: Outcome)
    requires o.Bad? && IsCurrent(t, o)
    ensures var after := Record(t, o);
            && after.single == t.single
            && Lookup(after.failures, o.id)
               == Some(Failure(o.reason, if o.id in t.failures then t.failures[o.id].attempts + 1 else 1, o.error))
  {
  }

  /** How often each status is recorded: by what was written, and by whether it was in time. */
  lemma {:induction false} StatusesCountOutcomes(t: Tables, os: seq<Outcome>, reason: Reason)
    ensures CountStatus(t, os, Done) == |set i: nat | i < |os| && IsCurrent(t, os[i]) && os[i].Fine?|
    ensures reason != SourceChanged ==>
              CountStatus(t, os, Failed(reason))
              == |set i: nat | i < |os| && IsCurrent(t, os[i]) && os[i].Bad? && os[i].reason == reason|
  {
    var done := set i: nat | i < |os| && IsCurrent(t, os[i]) && os[i].Fine?;
    var failed := set i: nat | i < |os| && IsCurrent(t, os[i]) && os[i].Bad? && os[i].reason == reason;
    if os == [] {
      assert done == {} && failed == {};
    } else {
      var front, k := os[..|os| - 1], |os| - 1;
      StatusesCountOutcomes(t, front, reason);
      assert forall i | 0 <= i < k :: front[i] == os[i];
      hide IsCurrent;
      var done' := set i: nat | i < k && IsCurrent(t, front[i]) && front[i].Fine?;
      var failed' := set i: nat | i < k && IsCurrent(t, front[i]) && front[i].Bad? && front[i].reason == reason;
      AddsOne(done, done', k, IsCurrent(t, os[k]) && os[k].Fine?);
      AddsOne(failed, failed', k, IsCurrent(t, os[k]) && os[k].Bad? && os[k].reason == reason);
      StatusMeans(t, os[k]);
    }
  }

  lemma StatusMeans(t: Tables, o: Outcome)
    ensures StatusOf(t, o) == Done <==> IsCurrent(t, o) && o.Fine?
    ensures forall r | r != SourceChanged ::
              StatusOf(t, o) == Failed(r) <==> IsCurrent(t, o) && o.Bad? && o.reason == r
  {
  }

  /** An image change leaves a failure row that says so, counting on from what was known, unless the image is gone. */
  lemma ChangeIsRecorded(t: Tables, id: Id, url: Option<Url>, other: Id)
    requires id in t.spots
    ensures var after := SetImage(t, id, url);
            && after.spots == t.spots[id := url]
            && (t.spots[id] == url ==> (after.single, after.gallery, after.failures) == (t.single, t.gallery, t.failures))
            && (t.spots[id] != url && !HasImage(url) ==> id !in after.failures && id !in after.single && id !in after.gallery)
            && (t.spots[id] != url && HasImage(url) ==>
                  Lookup(after.failures, id)
                  == Some(Failure(SourceChanged, if id in t.failures then t.failures[id].attempts else 1, None)))
            && (other != id ==>
                  && Lookup(after.single, other) == Lookup(t.single, other)
                  && Lookup(after.gallery, other) == Lookup(t.gallery, other)
                  && Lookup(after.failures, other) == Lookup(t.failures, other))
  {
  }

  // ----- validation -----

  /** What one validation run makes of a spot's image. */
  function Validated(rows: seq<(Id, Url)>, probe: Url -> ProbeState, midSize: Url -> Option<Url>, id: Id, image: Option<Url>)
    : Option<Url>
  {
    if image.Some? && (id, image.value) in rows && Resolve(probe, midSize, image.value).0 == Dead then
      Resolve(probe, midSize, image.value).1
    else image
  }

  /**
   A whole run changes exactly the images that were listed, still current and dead, each to the replacement
   its own probes gave; however often a spot is listed, no image is repaired twice.
   */
  lemma {:induction false} ValidationIsExact(t: Tables, rows: seq<(Id, Url)>, probe: Url -> ProbeState,
                                             midSize: Url -> Option<Url>, id: Id)
    requires id in t.spots
    ensures var after := RepairAll(t, rows, probe, midSize);
            after.spots.Keys == t.spots.Keys && after.spots[id] == Validated(rows, probe, midSize, id, t.spots[id])
  {
    if rows != [] {
      var front, last := rows[..|rows| - 1], rows[|rows| - 1];
      assert rows == front + [last];
      ValidationIsExact(t, front, probe, midSize, id);
      var before := RepairAll(t, front, probe, midSize);
      RepairChangesOne(before, last.0, last.1, Resolve(probe, midSize, last.1), id);
      ReplacementsAreAlive(probe, midSize, last.1);
      if t.spots[id].Some? { ReplacementsAreAlive(probe, midSize, t.spots[id].value); }
    }
  }

  /**
   A whole run changes an image if and only if it was listed, did not answer, and its mid-size variant, if it has
   one, gave a clear answer; it then becomes that variant if that was seen alive, and is cleared otherwise.
   */
  lemma ValidationIsCautious(t: Tables, rows: seq<(Id, Url)>, probe: Url -> ProbeState, midSize: Url -> Option<Url>, id: Id)
    requires id in t.spots
    ensures var before, after := t.spots[id], RepairAll(t, rows, probe, midSize).spots;
            && id in after
            && (after[id] != before <==>
                  && before.Some? && (id, before.value) in rows && probe(before.value) == Dead
                  && (midSize(before.value).Some? ==> probe(midSize(before.value).value) != Unknown))
            && (after[id] != before ==>
                  match midSize(before.value)
                  case Some(mid) => (after[id] == Some(mid) && probe(mid) == Alive) || (after[id] == None && probe(mid) == Dead)
                  case None => after[id] == None)
  {
    hide RepairAll;
    ValidationIsExact(t, rows, probe, midSize, id);
  }

  lemma RepairChangesOne(t: Tables, id: Id, url: Url, verdict: (ProbeState, Option<Url>, nat), other: Id)
    requires other in t.spots
    ensures var after := Repair(t, id, url, verdict);
            && after.spots.Keys == t.spots.Keys
            && after.spots[other] == if other == id && t.spots[id] == Some(url) && verdict.0 == Dead then verdict.1 else t.spots[other]
  {
  }

  lemma ReplacementsAreAlive(probe: Url -> ProbeState, midSize: Url -> Option<Url>, url: Url)
    ensures var r := Resolve(probe, midSize, url);
            && (r.0 == Dead ==> probe(url) == Dead)
            && (r.1.Some? ==> probe(r.1.value) == Alive)
  {
  }
}
