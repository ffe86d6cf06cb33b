/** The outbox of bundle changes and its replication to central, as interleaved steps:
    bundles are committed and deleted on the volume while the reporter reads a batch,
    reports it over an unreliable call, and removes it. A call that ran into its timeout
    may still be applied by central at any later moment. */
module Outbox {
  import opened Core
  import opened Replicas

  /** A row of `bundle_change_records`; there is at most one per bundle. */
  datatype Record = Record(eventId: nat, kind: EventKind, bundleId: HashId)

  /** `bundles` are the stored bundles of the volume with their lengths. */
  datatype Volume = Volume(volumeId: nat, bundles: map<HashId, Lens>, records: seq<Record>, nextEvent: nat)

  predicate Pending(records: seq<Record>, b: HashId) {
    exists i :: 0 <= i < |records| && records[i].bundleId == b
  }

  /** `INSERT .. ON CONFLICT(bundle_id) DO UPDATE`: a pending record is rewritten in place
      and keeps its event id, otherwise a record with a fresh id is appended. */
  function Upsert(records: seq<Record>, next: nat, b: HashId, kind: EventKind): seq<Record> {
    if Pending(records, b) then
      seq(|records|, i requires 0 <= i < |records| =>
        if records[i].bundleId == b then records[i].(kind := kind) else records[i])
    else records + [Record(next, kind, b)]
  }

  function NextEvent(records: seq<Record>, next: nat, b: HashId): nat {
    if Pending(records, b) then next else next + 1
  }

  /** `DELETE .. WHERE event_id <= max`. */
  function RemoveUpTo(records: seq<Record>, max: nat): seq<Record> {
    if records == [] then []
    else
      var init, last := RemoveUpTo(records[..|records| - 1], max), records[|records| - 1];
      if last.eventId <= max then init else init + [last]
  }

  predicate Rising(records: seq<Record>) {
    forall i, j :: 0 <= i < j < |records| ==> records[i].eventId < records[j].eventId
  }

  /** What is left are exactly the records beyond the id, in the order they had. */
  lemma {:induction false} RemoveUpToKeeps(records: seq<Record>, max: nat)
    ensures forall r :: r in RemoveUpTo(records, max) <==> r in records && r.eventId > max
    ensures Rising(records) ==> Rising(RemoveUpTo(records, max))
  {
    if records != [] {
      var init, last := records[..|records| - 1], records[|records| - 1];
      assert records == init + [last];
      RemoveUpToKeeps(init, max);
      if Rising(records) {
        assert Rising(init);
        forall r | r in RemoveUpTo(init, max) ensures r.eventId < last.eventId {
          var i :| 0 <= i < |init| && records[i] == r;
        }
      }
    }
  }

  function LensIn(bundles: map<HashId, Lens>, b: HashId): Lens { if b in bundles then bundles[b] else Lens(0, 0) }

  /** The event a record turns into: kind from the record, lengths from the bundle rows. */
  function EventOf(v: Volume, r: Record): Event {
    Event(r.eventId, r.kind, v.volumeId, r.bundleId, LensIn(v.bundles, r.bundleId))
  }

  const READ_LIMIT: nat := 128

  /** `get_bundle_change_records(limit)`. */
  function ReadEvents(v: Volume, limit: nat): seq<Event> {
    var n := if limit < |v.records| then limit else |v.records|;
    seq(n, i requires 0 <= i < n => EventOf(v, v.records[i]))
  }

  function MaxEventId(events: seq<Event>): nat {
    if events == [] then 0 else events[|events| - 1].eventId
  }

  datatype Sync = Idle | Reading(events: seq<Event>) | Acknowledged(events: seq<Event>)

  /** A volume, central's replica table, the one sync that holds the volume's lock, and the
      batches whose calls were given up but which central may still apply. */
  datatype System = System(volume: Volume, central: Table, sync: Sync, late: seq<seq<Event>>)

  /** How a report ends: applied or not, and whether the storage node learns that. */
  datatype Delivery = Delivered | ReplyLost | NotApplied | TimedOut

  datatype Step =
    | Commit(b: HashId, lens: Lens)
    | Delete(b: HashId)
    | BeginRead
    | ReportBatch(delivery: Delivery)
    | DeliverLate(k: nat)
    | RemoveBatch
    | Abandon
    | OtherVolume(events: seq<Event>)

  function Store(v: Volume, b: HashId, lens: Lens): Volume {
    if b in v.bundles then v
    else Volume(v.volumeId, v.bundles[b := lens], Upsert(v.records, v.nextEvent, b, Stored), NextEvent(v.records, v.nextEvent, b))
  }

  function Drop(v: Volume, b: HashId): Volume {
    Volume(v.volumeId, v.bundles - {b}, Upsert(v.records, v.nextEvent, b, Deleted), NextEvent(v.records, v.nextEvent, b))
  }

  predicate Enabled(s: System, step: Step) {
    match step
    case Commit(b, lens) => lens.raw > 0 && lens.compressed > 0
    case Delete(_) => true
    case BeginRead => s.sync.Idle?
    case ReportBatch(_) => s.sync.Reading?
    case DeliverLate(k) => k < |s.late|
    case RemoveBatch => s.sync.Acknowledged?
    case Abandon => true
    case OtherVolume(events) => forall i :: 0 <= i < |events| ==> events[i].volumeId != s.volume.volumeId
  }

  /** A batch changes the table as a whole, or, when it is refused, not at all. */
  function Applied(t: Table, events: seq<Event>): Table {
    match ApplyBatch(t, events)
    case Ok(t1) => t1
    case Err(_) => t
  }

  function Apply(s: System, step: Step): System
    requires Enabled(s, step)
  {
    match step
    case Commit(b, lens) => s.(volume := Store(s.volume, b, lens))
    case Delete(b) => s.(volume := Drop(s.volume, b))
    case BeginRead =>
      var events := ReadEvents(s.volume, READ_LIMIT);
      if events == [] then s else s.(sync := Reading(events))
    case ReportBatch(delivery) =>
      (match delivery
       case Delivered =>
         if ApplyBatch(s.central, s.sync.events).Err? then s.(sync := Idle)
         else s.(central := Applied(s.central, s.sync.events), sync := Acknowledged(s.sync.events))
       case ReplyLost => s.(central := Applied(s.central, s.sync.events), sync := Idle)
       case NotApplied => s.(sync := Idle)
       case TimedOut => s.(sync := Idle, late := s.late + [s.sync.events]))
    case DeliverLate(k) => s.(central := Applied(s.central, s.late[k]), late := s.late[..k] + s.late[k + 1..])
    case RemoveBatch =>
      s.(volume := s.volume.(records := RemoveUpTo(s.volume.records, MaxEventId(s.sync.events))), sync := Idle)
    case Abandon => s.(sync := Idle)
    case OtherVolume(events) => s.(central := Applied(s.central, events))
  }

  /* ---- Invariant ---- */

  /** Central shows the bundle exactly as the volume has it. */
  predicate Agrees(s: System, b: HashId) {
    && (b in s.volume.bundles <==> (b, s.volume.volumeId) in s.central)
    && (b in s.volume.bundles ==> s.central[(b, s.volume.volumeId)] == s.volume.bundles[b])
  }

  /** Event ids rise and stay below the counter, no bundle has two records, and each record
      has the kind that fits the bundle rows. */
  ghost predicate RecordsOk(v: Volume) {
    && (forall i :: 0 <= i < |v.records| ==> v.records[i].eventId < v.nextEvent)
    && Rising(v.records)
    && (forall i, j :: 0 <= i < j < |v.records| ==> v.records[i].bundleId != v.records[j].bundleId)
    && (forall i :: 0 <= i < |v.records| ==> (v.records[i].kind.Stored? <==> v.records[i].bundleId in v.bundles))
    && (forall b :: b in v.bundles ==> v.bundles[b].raw > 0 && v.bundles[b].compressed > 0)
  }

  /** The events carry the ids and bundles of the first records, whatever became of the rest. */
  ghost predicate Heads(v: Volume, events: seq<Event>) {
    0 < |events| <= |v.records| && forall i :: 0 <= i < |events| ==> IsHead(v.volumeId, v.records[i], events[i])
  }

  predicate IsHead(volumeId: nat, r: Record, e: Event) {
    e.eventId == r.eventId && e.bundleId == r.bundleId && e.volumeId == volumeId
  }

  /** The table has the row as the event says. */
  predicate Shows(t: Table, volumeId: nat, e: Event) {
    var key := (e.bundleId, volumeId);
    (key in t <==> e.kind.Stored?) && (e.kind.Stored? ==> t[key] == e.lens)
  }

  ghost predicate AllShown(t: Table, volumeId: nat, events: seq<Event>) {
    forall i :: 0 <= i < |events| ==> Shows(t, volumeId, events[i])
  }

  ghost predicate SyncOk(s: System) {
    match s.sync
    case Idle => true
    case Reading(events) => Heads(s.volume, events)
    case Acknowledged(events) => Heads(s.volume, events) && AllShown(s.central, s.volume.volumeId, events)
  }

  /** Central agrees on every bundle that is not pending. */
  ghost predicate SettledAgree(s: System) {
    forall b :: !Pending(s.volume.records, b) ==> Agrees(s, b)
  }

  ghost predicate Inv(s: System) {
    RecordsOk(s.volume) && SyncOk(s) && SettledAgree(s)
  }

  /** The event still says what its bundle is. */
  predicate Exact(v: Volume, e: Event) {
    && (e.kind.Stored? <==> e.bundleId in v.bundles)
    && (e.kind.Stored? ==> e.lens == v.bundles[e.bundleId])
  }

  ghost predicate AllExact(v: Volume, events: seq<Event>) {
    forall i :: 0 <= i < |events| ==> Exact(v, events[i])
  }

  /** A bundle whose row at central must not change: it is not pending, or it belongs to
      the batch that was acknowledged and is about to be removed. */
  predicate Settled(s: System, b: HashId) {
    !Pending(s.volume.records, b) || (s.sync.Acknowledged? && exists i :: 0 <= i < |s.sync.events| && s.sync.events[i].bundleId == b)
  }

  /** The last event of the batch for the bundle, if any, says what central shows already. */
  ghost predicate Repeats(s: System, events: seq<Event>, b: HashId) {
    match LastEvent(events, (b, s.volume.volumeId))
    case None => true
    case Some(e) => Shows(s.central, s.volume.volumeId, e)
  }

  /** The only steps that can lose a change, and what keeps them from it: every event of the
      batch removed is still exact; a late batch says nothing new about settled bundles. */
  ghost predicate Safe(s: System, step: Step)
    requires Enabled(s, step)
  {
    match step
    case RemoveBatch => AllExact(s.volume, s.sync.events)
    case DeliverLate(k) =>
      ApplyBatch(s.central, s.late[k]).Ok? ==> forall b :: Settled(s, b) ==> Repeats(s, s.late[k], b)
    case _ => true
  }

  /** A volume without bundles that central knows nothing about. */
  function Initial(volumeId: nat, central: Table): System
  {
    System(Volume(volumeId, map[], [], 1), central, Idle, [])
  }

  lemma {:induction false} InitialInv(volumeId: nat, central: Table)
    requires forall b :: (b, volumeId) !in central
    ensures Inv(Initial(volumeId, central))
  {}

  lemma {:induction false} UpsertPending(records: seq<Record>, next: nat, b: HashId, kind: EventKind, x: HashId)
    ensures Pending(Upsert(records, next, b, kind), x) <==> x == b || Pending(records, x)
  {
    var after := Upsert(records, next, b, kind);
    if i :| 0 <= i < |records| && records[i].bundleId == x { assert after[i].bundleId == x; }
    if x == b && !Pending(records, b) { assert after[|records|].bundleId == b; }
  }

  lemma {:induction false} UpsertRecords(records: seq<Record>, next: nat, b: HashId, kind: EventKind, i: nat)
    requires i < |Upsert(records, next, b, kind)|
    ensures var after := Upsert(records, next, b, kind);
      && |records| <= |after|
      && (if i < |records| then after[i].eventId == records[i].eventId && after[i].bundleId == records[i].bundleId
          else i == |records| && after[i] == Record(next, kind, b) && !Pending(records, b))
      && (after[i].bundleId == b ==> after[i].kind == kind)
      && (after[i].bundleId != b ==> i < |records| && after[i] == records[i])
  {}

  lemma {:induction false} UpsertOk(v: Volume, b: HashId, kind: EventKind, w: Volume)
    requires RecordsOk(v)
    requires w.records == Upsert(v.records, v.nextEvent, b, kind) && w.nextEvent == NextEvent(v.records, v.nextEvent, b)
    requires kind.Stored? <==> b in w.bundles
    requires forall x :: x != b ==> (x in w.bundles <==> x in v.bundles)
    requires forall x :: x in w.bundles ==> w.bundles[x].raw > 0 && w.bundles[x].compressed > 0
    ensures RecordsOk(w)
  {
    forall i | 0 <= i < |w.records|
      ensures w.records[i].eventId < w.nextEvent && (w.records[i].kind.Stored? <==> w.records[i].bundleId in w.bundles)
    {
      UpsertRecords(v.records, v.nextEvent, b, kind, i);
    }
    forall i, j | 0 <= i < j < |w.records|
      ensures w.records[i].eventId < w.records[j].eventId && w.records[i].bundleId != w.records[j].bundleId
    {
      UpsertRecords(v.records, v.nextEvent, b, kind, i);
      UpsertRecords(v.records, v.nextEvent, b, kind, j);
    }
  }

  /* ---- Which steps keep the invariant ---- */

  /** Every commit and delete keeps it, also one that rewrites a record of the batch under way. */
  lemma {:induction false} ChangeKept(s: System, step: Step)
    requires Inv(s) && Enabled(s, step) && (step.Commit? || step.Delete?)
    ensures Inv(Apply(s, step))
  {
    var s' := Apply(s, step);
    if step.Delete? || step.b !in s.volume.bundles {
      var kind := if step.Delete? then Deleted else Stored;
      UpsertOk(s.volume, step.b, kind, s'.volume);
      forall x | !Pending(s'.volume.records, x) ensures Agrees(s', x) {
        UpsertPending(s.volume.records, s.volume.nextEvent, step.b, kind, x);
        assert Agrees(s, x);
      }
      if !s.sync.Idle? { HeadsStay(s.volume, step.b, kind, s'.volume, s.sync.events); }
    }
  }

  lemma {:induction false} HeadsStay(v: Volume, b: HashId, kind: EventKind, w: Volume, events: seq<Event>)
    requires Heads(v, events) && w.volumeId == v.volumeId && w.records == Upsert(v.records, v.nextEvent, b, kind)
    ensures Heads(w, events)
  {
    forall i | 0 <= i < |events| ensures IsHead(w.volumeId, w.records[i], events[i]) {
      assert IsHead(v.volumeId, v.records[i], events[i]);
      UpsertRecords(v.records, v.nextEvent, b, kind, i);
    }
  }

  lemma {:induction false} RemovePrefix(records: seq<Record>, n: nat, max: nat)
    requires IsPrefix(records, n, max)
    ensures RemoveUpTo(records, max) == records[n..]
  {
    if records != [] {
      var init, last := records[..|records| - 1], records[|records| - 1];
      assert forall i :: 0 <= i < |init| ==> init[i] == records[i];
      if n < |records| {
        assert IsPrefix(init, n, max) && last.eventId > max;
        RemovePrefix(init, n, max);
        assert records[n..] == init[n..] + [last];
      } else {
        assert IsPrefix(init, n - 1, max) && last.eventId <= max;
        RemovePrefix(init, n - 1, max);
        assert records[n..] == init[n - 1..];
      }
    }
  }

  /** The records up to the id are the first `n`. */
  predicate IsPrefix(records: seq<Record>, n: nat, max: nat) {
    n <= |records| && forall i :: 0 <= i < |records| ==> (records[i].eventId <= max <==> i < n)
  }

  /** Removing by the batch's maximum event id drops the batch's records and nothing else. */
  lemma {:induction false} RemovesTheBatch(v: Volume, events: seq<Event>)
    requires RecordsOk(v) && Heads(v, events)
    ensures RemoveUpTo(v.records, MaxEventId(events)) == v.records[|events|..]
  {
    assert IsHead(v.volumeId, v.records[|events| - 1], events[|events| - 1]);
    RemovePrefix(v.records, |events|, MaxEventId(events));
  }

  /** The removed bundles are pending no more, the others still are. */
  lemma {:induction false} PendingAfterRemove(v: Volume, events: seq<Event>, b: HashId)
    requires RecordsOk(v) && Heads(v, events)
    ensures Pending(v.records[|events|..], b) <==>
      Pending(v.records, b) && forall i :: 0 <= i < |events| ==> events[i].bundleId != b
  {
    var rest := v.records[|events|..];
    forall i | 0 <= i < |events| ensures events[i].bundleId == v.records[i].bundleId {
      assert IsHead(v.volumeId, v.records[i], events[i]);
    }
    if j :| 0 <= j < |rest| && rest[j].bundleId == b { assert v.records[|events| + j].bundleId == b; }
    if i :| 0 <= i < |v.records| && v.records[i].bundleId == b {
      if i >= |events| { assert rest[i - |events|].bundleId == b; }
    }
  }

  /** Removing an acknowledged batch keeps the invariant, that is, loses no change, if and
      only if every event of the batch still says what its bundle is. */
  lemma {:induction false} RemovalSafeIff(s: System)
    requires Inv(s) && s.sync.Acknowledged?
    ensures Inv(Apply(s, RemoveBatch)) <==> AllExact(s.volume, s.sync.events)
  {
    var s', events, n := Apply(s, RemoveBatch), s.sync.events, |s.sync.events|;
    RemovesTheBatch(s.volume, events);
    assert s'.volume.records == s.volume.records[n..];
    forall i | 0 <= i < n
      ensures !Pending(s'.volume.records, events[i].bundleId) && (Agrees(s', events[i].bundleId) <==> Exact(s.volume, events[i]))
    {
      PendingAfterRemove(s.volume, events, events[i].bundleId);
      assert Shows(s.central, s.volume.volumeId, events[i]);
    }
    if AllExact(s.volume, events) {
      forall b | !Pending(s'.volume.records, b) ensures Agrees(s', b) {
        PendingAfterRemove(s.volume, events, b);
        if !Pending(s.volume.records, b) { assert Agrees(s, b); }
      }
    }
    if Inv(s') {
      forall i | 0 <= i < n ensures Exact(s.volume, events[i]) { assert Agrees(s', events[i].bundleId); }
    }
  }

  /** A batch of this volume, applied, leaves rows it has no event for, and shows the last
      event of those it has. */
  lemma {:induction false} AppliedRow(t: Table, events: seq<Event>, volumeId: nat, b: HashId)
    requires ApplyBatch(t, events).Ok?
    ensures match LastEvent(events, (b, volumeId))
      case None => SameRow(t, Applied(t, events), (b, volumeId))
      case Some(e) => e.bundleId == b && Shows(Applied(t, events), volumeId, e)
  {
    BatchEffect(t, events, (b, volumeId));
    LastIsFor(events, (b, volumeId));
  }

  lemma {:induction false} LastIsFor(events: seq<Event>, key: (HashId, nat))
    ensures LastEvent(events, key).Some? ==> (LastEvent(events, key).value.bundleId, LastEvent(events, key).value.volumeId) == key
  {
    if events != [] { LastIsFor(events[..|events| - 1], key); }
  }

  predicate SameRow(t: Table, t1: Table, key: (HashId, nat)) {
    (key in t1 <==> key in t) && (key in t ==> t1[key] == t[key])
  }

  /** The batch of a sync has one event for each of its bundles. */
  lemma {:induction false} HeadIsLast(v: Volume, events: seq<Event>, i: nat)
    requires RecordsOk(v) && Heads(v, events) && i < |events|
    ensures LastEvent(events, (events[i].bundleId, v.volumeId)) == Some(events[i])
  {
    assert forall j :: 0 <= j < |events| ==> IsHead(v.volumeId, v.records[j], events[j]);
    LastEventIs(events, (events[i].bundleId, v.volumeId), i);
  }

  /** A bundle without a record has no event in the batch of a sync. */
  lemma {:induction false} NotPendingNoEvent(v: Volume, events: seq<Event>, b: HashId)
    requires Heads(v, events) && !Pending(v.records, b)
    ensures LastEvent(events, (b, v.volumeId)) == None
  {
    forall i | 0 <= i < |events| ensures (events[i].bundleId, events[i].volumeId) != (b, v.volumeId) {
      assert IsHead(v.volumeId, v.records[i], events[i]);
    }
    NoEvent(events, (b, v.volumeId));
  }

  /** Reporting keeps the invariant however the call ends. */
  lemma {:induction false} ReportKept(s: System, step: Step)
    requires Inv(s) && Enabled(s, step) && step.ReportBatch?
    ensures Inv(Apply(s, step))
  {
    var s', events := Apply(s, step), s.sync.events;
    if ApplyBatch(s.central, events).Ok? {
      forall i | 0 <= i < |events| ensures Shows(Applied(s.central, events), s.volume.volumeId, events[i]) {
        HeadIsLast(s.volume, events, i);
        AppliedRow(s.central, events, s.volume.volumeId, events[i].bundleId);
      }
      forall b | !Pending(s'.volume.records, b) ensures Agrees(s', b) {
        assert Agrees(s, b);
        NotPendingNoEvent(s.volume, events, b);
        AppliedRow(s.central, events, s.volume.volumeId, b);
      }
    }
  }

  lemma {:induction false} OtherKept(s: System, step: Step)
    requires Inv(s) && Enabled(s, step) && step.OtherVolume?
    ensures Inv(Apply(s, step))
  {
    var s' := Apply(s, step);
    if ApplyBatch(s.central, step.events).Ok? {
      forall b ensures SameRow(s.central, s'.central, (b, s.volume.volumeId)) {
        NoEvent(step.events, (b, s.volume.volumeId));
        AppliedRow(s.central, step.events, s.volume.volumeId, b);
      }
      SameRowsKept(s, s');
    }
  }

  /** Nothing but the rows of settled bundles matters to the invariant. */
  lemma {:induction false} SameRowsKept(s: System, s': System)
    requires Inv(s) && s'.volume == s.volume && s'.sync == s.sync
    requires forall b {:trigger Settled(s, b)} :: Settled(s, b) ==> SameRow(s.central, s'.central, (b, s.volume.volumeId))
    ensures Inv(s')
  {
    forall b | !Pending(s'.volume.records, b) ensures Agrees(s', b) { assert Agrees(s, b) && Settled(s, b); }
    if s.sync.Acknowledged? {
      var events := s.sync.events;
      forall i | 0 <= i < |events| ensures Shows(s'.central, s.volume.volumeId, events[i]) {
        assert Shows(s.central, s.volume.volumeId, events[i]) && Settled(s, events[i].bundleId);
      }
    }
  }

  /** A batch applied late keeps the invariant if and only if it says nothing new about
      settled bundles. */
  lemma {:induction false} LateSafeIff(s: System, k: nat)
    requires Inv(s) && k < |s.late|
    ensures Inv(Apply(s, DeliverLate(k))) <==> Safe(s, DeliverLate(k))
  {
    var s', events := Apply(s, DeliverLate(k)), s.late[k];
    if ApplyBatch(s.central, events).Ok? {
      if Safe(s, DeliverLate(k)) {
        forall b | Settled(s, b) ensures SameRow(s.central, s'.central, (b, s.volume.volumeId)) {
          assert Repeats(s, events, b);
          AppliedRow(s.central, events, s.volume.volumeId, b);
        }
        SameRowsKept(s, s');
      }
      if Inv(s') {
        forall b | Settled(s, b) ensures Repeats(s, events, b) { StillRepeats(s, s', events, b); }
      }
    } else {
      SameRowsKept(s, s');
    }
  }

  lemma {:induction false} StillRepeats(s: System, s': System, events: seq<Event>, b: HashId)
    requires Inv(s) && Inv(s') && s'.volume == s.volume && s'.sync == s.sync && Settled(s, b)
    requires ApplyBatch(s.central, events).Ok? && s'.central == Applied(s.central, events)
    ensures Repeats(s, events, b)
  {
    AppliedRow(s.central, events, s.volume.volumeId, b);
    if !Pending(s.volume.records, b) {
      assert Agrees(s, b) && Agrees(s', b);
    } else {
      var i :| 0 <= i < |s.sync.events| && s.sync.events[i].bundleId == b;
      assert Shows(s.central, s.volume.volumeId, s.sync.events[i]) && Shows(s'.central, s.volume.volumeId, s.sync.events[i]);
    }
  }

  /** Every step of every interleaving keeps the invariant exactly when it is safe; and only
      the removal of a batch and a late delivery can be unsafe. */
  lemma {:induction false} KeptIffSafe(s: System, step: Step)
    requires Inv(s) && Enabled(s, step)
    ensures Inv(Apply(s, step)) <==> Safe(s, step)
  {
    match step
    case Commit(_, _) => ChangeKept(s, step);
    case Delete(_) => ChangeKept(s, step);
    case BeginRead =>
    case ReportBatch(_) => ReportKept(s, step);
    case DeliverLate(k) => LateSafeIff(s, k);
    case RemoveBatch => RemovalSafeIff(s);
    case Abandon =>
    case OtherVolume(_) => OtherKept(s, step);
  }

  /* ---- Runs ---- */

  /** Any run of steps, constrained only where a batch is removed or applied late. */
  ghost predicate IsRun(s: System, steps: seq<Step>)
    decreases |steps|
  {
    steps == [] || (Enabled(s, steps[0]) && Safe(s, steps[0]) && IsRun(Apply(s, steps[0]), steps[1..]))
  }

  ghost function After(s: System, steps: seq<Step>): System
    requires IsRun(s, steps)
    decreases |steps|
  {
    if steps == [] then s else After(Apply(s, steps[0]), steps[1..])
  }

  lemma {:induction false} RunInv(s: System, steps: seq<Step>)
    requires Inv(s) && IsRun(s, steps)
    ensures Inv(After(s, steps))
    decreases |steps|
  {
    if steps != [] {
      KeptIffSafe(s, steps[0]);
      RunInv(Apply(s, steps[0]), steps[1..]);
    }
  }

  /** A record of the bundle is pending, with the kind that matches what the volume holds. */
  predicate PendingRight(v: Volume, b: HashId) {
    exists i :: 0 <= i < |v.records| && v.records[i].bundleId == b && (v.records[i].kind.Stored? <==> b in v.bundles)
  }

  /** Nothing is lost: in every reachable state each bundle is pending with its current
      kind, or central shows exactly what the volume holds. With an empty outbox central
      agrees on every bundle. */
  lemma {:induction false} PendingOrAgreed(volumeId: nat, central: Table, steps: seq<Step>, b: HashId)
    requires forall x :: (x, volumeId) !in central
    requires IsRun(Initial(volumeId, central), steps)
    ensures var s := After(Initial(volumeId, central), steps);
      && (Agrees(s, b) || PendingRight(s.volume, b))
      && (s.volume.records == [] ==> Agrees(s, b))
  {
    InitialInv(volumeId, central);
    RunInv(Initial(volumeId, central), steps);
    var s := After(Initial(volumeId, central), steps);
    if Pending(s.volume.records, b) {
      var i :| 0 <= i < |s.volume.records| && s.volume.records[i].bundleId == b;
      assert s.volume.records[i].kind.Stored? <==> b in s.volume.bundles;
    }
  }

  /** In any reachable state the next step loses a change if and only if it is unsafe. */
  lemma {:induction false} LossIffUnsafe(volumeId: nat, central: Table, steps: seq<Step>, step: Step)
    requires forall x :: (x, volumeId) !in central
    requires IsRun(Initial(volumeId, central), steps) && Enabled(After(Initial(volumeId, central), steps), step)
    ensures var s := After(Initial(volumeId, central), steps);
      && (Safe(s, step) <==> Inv(Apply(s, step)))
      && (step.RemoveBatch? ==> (Safe(s, step) <==> SettledAgree(Apply(s, step))))
  {
    InitialInv(volumeId, central);
    RunInv(Initial(volumeId, central), steps);
    var s := After(Initial(volumeId, central), steps);
    KeptIffSafe(s, step);
    if step.RemoveBatch? {
      RemovesTheBatch(s.volume, s.sync.events);
      assert RecordsOk(Apply(s, step).volume);
    }
  }

  /* ---- Runs without deletes, which is all the servers ever ask for ---- */

  ghost predicate OnlyStored(events: seq<Event>) {
    forall i :: 0 <= i < |events| ==> events[i].kind.Stored?
  }

  /** No record and no batch under way or late mentions a delete, and every batch is exact. */
  ghost predicate NoDeletes(s: System) {
    && (forall i :: 0 <= i < |s.volume.records| ==> s.volume.records[i].kind.Stored?)
    && (!s.sync.Idle? ==> OnlyStored(s.sync.events) && AllExact(s.volume, s.sync.events))
    && LateExact(s)
    && (forall k :: 0 <= k < |s.late| ==> OnlyStored(s.late[k]))
  }

  ghost predicate LateExact(s: System) {
    forall k :: 0 <= k < |s.late| ==> AllExact(s.volume, s.late[k])
  }

  lemma {:induction false} ReadIsExact(v: Volume)
    requires RecordsOk(v)
    ensures AllExact(v, ReadEvents(v, READ_LIMIT))
    ensures ReadEvents(v, READ_LIMIT) != [] ==> Heads(v, ReadEvents(v, READ_LIMIT))
  {
    var events := ReadEvents(v, READ_LIMIT);
    forall i | 0 <= i < |events| ensures Exact(v, events[i]) && IsHead(v.volumeId, v.records[i], events[i]) {}
  }

  /** Batches of stored bundles stay exact when bundles are only added. */
  lemma {:induction false} CommitKeepsExact(v: Volume, b: HashId, lens: Lens, events: seq<Event>)
    requires AllExact(v, events) && (b !in v.bundles ==> forall i :: 0 <= i < |events| ==> events[i].kind.Stored? || events[i].bundleId != b)
    ensures AllExact(Store(v, b, lens), events)
  {
    forall i | 0 <= i < |events| ensures Exact(Store(v, b, lens), events[i]) { assert Exact(v, events[i]); }
  }

  /** A late batch that is exact is safe. */
  lemma {:induction false} ExactIsSafe(s: System, k: nat)
    requires Inv(s) && k < |s.late| && AllExact(s.volume, s.late[k])
    requires !s.sync.Idle? ==> AllExact(s.volume, s.sync.events)
    ensures Safe(s, DeliverLate(k))
  {
    forall b | Settled(s, b) ensures Repeats(s, s.late[k], b) {
      LastIsIn(s.late[k], (b, s.volume.volumeId));
      LastIsFor(s.late[k], (b, s.volume.volumeId));
      if !Pending(s.volume.records, b) {
        assert Agrees(s, b);
      } else {
        var i :| 0 <= i < |s.sync.events| && s.sync.events[i].bundleId == b;
        assert Shows(s.central, s.volume.volumeId, s.sync.events[i]) && Exact(s.volume, s.sync.events[i]);
      }
    }
  }

  lemma {:induction false} LastIsIn(events: seq<Event>, key: (HashId, nat))
    ensures LastEvent(events, key).Some? ==> exists i :: 0 <= i < |events| && events[i] == LastEvent(events, key).value
  {
    if events != [] {
      var init := events[..|events| - 1];
      LastIsIn(init, key);
      if LastEvent(init, key).Some? {
        var i :| 0 <= i < |init| && init[i] == LastEvent(init, key).value;
        assert events[i] == LastEvent(init, key).value;
      }
    }
  }

  /** As long as nothing is deleted, every step is safe and the next state is like that again. */
  lemma {:induction false} CommitsAreSafe(s: System, step: Step)
    requires Inv(s) && NoDeletes(s) && Enabled(s, step) && !step.Delete?
    ensures Safe(s, step) && NoDeletes(Apply(s, step))
  {
    match step
    case Commit(b, lens) => CommitNoDeletes(s, b, lens);
    case BeginRead => ReadIsExact(s.volume);
    case ReportBatch(_) => ReportNoDeletes(s, step);
    case DeliverLate(k) => ExactIsSafe(s, k);
    case RemoveBatch => RemovesTheBatch(s.volume, s.sync.events);
    case Abandon =>
    case OtherVolume(_) =>
  }

  lemma {:induction false} ReportNoDeletes(s: System, step: Step)
    requires NoDeletes(s) && Enabled(s, step) && step.ReportBatch?
    ensures NoDeletes(Apply(s, step))
  {
    var s', events := Apply(s, step), s.sync.events;
    assert s'.volume == s.volume && (s'.late == s.late || s'.late == s.late + [events]);
    forall k | 0 <= k < |s'.late| ensures AllExact(s'.volume, s'.late[k]) && OnlyStored(s'.late[k]) {
      if k < |s.late| { assert s'.late[k] == s.late[k]; }
    }
  }

  lemma {:induction false} CommitNoDeletes(s: System, b: HashId, lens: Lens)
    requires Inv(s) && NoDeletes(s) && Enabled(s, Commit(b, lens))
    ensures NoDeletes(Apply(s, Commit(b, lens)))
  {
    var s' := Apply(s, Commit(b, lens));
    if !s.sync.Idle? { CommitKeepsExact(s.volume, b, lens, s.sync.events); }
    forall k | 0 <= k < |s.late| ensures AllExact(s'.volume, s.late[k]) { CommitKeepsExact(s.volume, b, lens, s.late[k]); }
    if b !in s.volume.bundles {
      forall i | 0 <= i < |s'.volume.records| ensures s'.volume.records[i].kind.Stored? {
        UpsertRecords(s.volume.records, s.volume.nextEvent, b, Stored, i);
      }
    }
  }

  ghost predicate IsCommitRun(s: System, steps: seq<Step>)
    decreases |steps|
  {
    steps == [] || (Enabled(s, steps[0]) && !steps[0].Delete? && IsCommitRun(Apply(s, steps[0]), steps[1..]))
  }

  /** Runs without deletes need no further condition: each of their steps is safe, and
      stored bundles keep their lengths. */
  lemma {:induction false} CommitRunsAreCovered(s: System, steps: seq<Step>)
    requires Inv(s) && NoDeletes(s) && IsCommitRun(s, steps)
    ensures IsRun(s, steps) && NoDeletes(After(s, steps)) && After(s, steps).volume.volumeId == s.volume.volumeId
    ensures forall b :: b in s.volume.bundles ==>
              b in After(s, steps).volume.bundles && After(s, steps).volume.bundles[b] == s.volume.bundles[b]
    decreases |steps|
  {
    if steps != [] {
      CommitsAreSafe(s, steps[0]);
      KeptIffSafe(s, steps[0]);
      BundlesStay(s, steps[0]);
      CommitRunsAreCovered(Apply(s, steps[0]), steps[1..]);
    }
  }

  lemma {:induction false} BundlesStay(s: System, step: Step)
    requires Enabled(s, step) && !step.Delete?
    ensures Apply(s, step).volume.volumeId == s.volume.volumeId
    ensures forall b :: b in s.volume.bundles ==>
      b in Apply(s, step).volume.bundles && Apply(s, step).volume.bundles[b] == s.volume.bundles[b]
  {}

  /** The storage node's commit handler, for a new bundle or a repeated commit: once the
      bundle is committed, any later moment at which its sync finds the outbox empty, and so
      returns Ok, has the replica at central with the stored lengths, whatever other
      commits, reports, failures and late deliveries came between. */
  lemma {:induction false} HandlerOkMeansReplicated(volumeId: nat, central: Table, before: seq<Step>, b: HashId, lens: Lens, later: seq<Step>)
    requires forall x :: (x, volumeId) !in central
    requires IsCommitRun(Initial(volumeId, central), before) && IsRun(Initial(volumeId, central), before)
    requires lens.raw > 0 && lens.compressed > 0
    requires IsCommitRun(Apply(After(Initial(volumeId, central), before), Commit(b, lens)), later)
    requires IsRun(Apply(After(Initial(volumeId, central), before), Commit(b, lens)), later)
    ensures var s := After(Initial(volumeId, central), before);
      var t := After(Apply(s, Commit(b, lens)), later);
      && b in t.volume.bundles
      && t.volume.bundles[b] == (if b in s.volume.bundles then s.volume.bundles[b] else lens)
      && (t.volume.records == [] ==> (b, volumeId) in t.central && t.central[(b, volumeId)] == t.volume.bundles[b])
  {
    InitialInv(volumeId, central);
    var s0 := Initial(volumeId, central);
    CommitRunsAreCovered(s0, before);
    RunInv(s0, before);
    var s := After(s0, before);
    CommitsAreSafe(s, Commit(b, lens));
    KeptIffSafe(s, Commit(b, lens));
    var s1 := Apply(s, Commit(b, lens));
    CommitRunsAreCovered(s1, later);
    RunInv(s1, later);
    var t := After(s1, later);
    if t.volume.records == [] { assert Agrees(t, b); }
  }

  /* ---- The two ways to lose a delete ---- */

  const ONE_BUNDLE: Lens := Lens(3, 2)

  /** A volume with bundle 7, whose commit is still pending. */
  const COMMITTED: System :=
    System(Volume(1, map[7 := ONE_BUNDLE], [Record(1, Stored, 7)], 2), map[], Idle, [])

  const COMMIT_EVENT: Event := Event(1, Stored, 1, 7, ONE_BUNDLE)

  lemma {:induction false} CommittedIs()
    ensures Apply(Initial(1, map[]), Commit(7, ONE_BUNDLE)) == COMMITTED
    ensures Apply(COMMITTED, BeginRead) == COMMITTED.(sync := Reading([COMMIT_EVENT]))
  {
    assert ReadEvents(COMMITTED.volume, READ_LIMIT) == [COMMIT_EVENT];
  }

  lemma {:induction false} ApplyOne(t: Table, e: Event)
    ensures ApplyBatch(t, [e]) == ApplyEvent(t, e)
  {
    assert [e][..0] == [];
  }

  /** A delete that folds into the batch is lost: the volume no longer has the bundle, no
      record is left, and central goes on listing the replica. */
  lemma {:induction false} DeleteInTheWindowIsLost()
    ensures var s2 := Apply(Apply(Initial(1, map[]), Commit(7, ONE_BUNDLE)), BeginRead);
      var s3 := Apply(s2, Delete(7));
      s3.sync.Reading?
      && var s4 := Apply(s3, ReportBatch(Delivered));
      s4.sync.Acknowledged? && !Safe(s4, RemoveBatch)
      && var s5 := Apply(s4, RemoveBatch);
      s5.volume.records == [] && 7 !in s5.volume.bundles && (7, 1) in s5.central
  {
    CommittedIs();
    var s2 := COMMITTED.(sync := Reading([COMMIT_EVENT]));
    assert COMMITTED.volume.records[0].bundleId == 7;
    var s3 := Apply(s2, Delete(7));
    assert s3.volume.records == [Record(1, Deleted, 7)];
    ApplyOne(map[], COMMIT_EVENT);
    var s4 := Apply(s3, ReportBatch(Delivered));
    assert !Exact(s4.volume, s4.sync.events[0]);
    RemovePrefix(s4.volume.records, 1, 1);
  }

  /** Bundle 7 is deleted while the report of its commit has timed out, but is on its way. */
  const IN_FLIGHT: System := System(Volume(1, map[], [Record(1, Deleted, 7)], 2), map[], Idle, [[COMMIT_EVENT]])

  /** The same after the delete was reported and its record removed. */
  const REMOVED: System := System(Volume(1, map[], [], 2), map[], Idle, [[COMMIT_EVENT]])

  lemma {:induction false} DeletedInFlight()
    ensures Apply(Apply(COMMITTED.(sync := Reading([COMMIT_EVENT])), ReportBatch(TimedOut)), Delete(7)) == IN_FLIGHT
  {
    assert COMMITTED.volume.records[0].bundleId == 7;
    var s := Apply(COMMITTED.(sync := Reading([COMMIT_EVENT])), ReportBatch(TimedOut));
    assert Apply(s, Delete(7)).volume.records == [Record(1, Deleted, 7)];
  }

  lemma {:induction false} DeleteReported()
    ensures var s3 := Apply(IN_FLIGHT, BeginRead);
      s3.sync.Reading?
      && var s4 := Apply(s3, ReportBatch(Delivered));
      s4.sync.Acknowledged? && Safe(s4, RemoveBatch) && Apply(s4, RemoveBatch) == REMOVED
  {
    var deleted := Event(1, Deleted, 1, 7, Lens(0, 0));
    assert ReadEvents(IN_FLIGHT.volume, READ_LIMIT) == [deleted];
    ApplyOne(map[], deleted);
    RemovePrefix(IN_FLIGHT.volume.records, 1, 1);
    var s4 := Apply(Apply(IN_FLIGHT, BeginRead), ReportBatch(Delivered));
    assert s4 == IN_FLIGHT.(sync := Acknowledged([deleted]));
  }

  lemma {:induction false} LateArrivalRevives()
    ensures !Safe(REMOVED, DeliverLate(0)) && (7, 1) in Apply(REMOVED, DeliverLate(0)).central
    ensures Apply(REMOVED, DeliverLate(0)).volume == REMOVED.volume
  {
    ApplyOne(map[], COMMIT_EVENT);
    assert LastEvent([COMMIT_EVENT], (7, 1)) == Some(COMMIT_EVENT);
    assert Settled(REMOVED, 7) && !Repeats(REMOVED, REMOVED.late[0], 7);
  }

  /** A report that timed out and is applied after the bundle was deleted, reported and
      removed brings the replica back at central. */
  lemma {:induction false} LateReportRevivesDeleted()
    ensures var s1 := Apply(Apply(Initial(1, map[]), Commit(7, ONE_BUNDLE)), BeginRead);
      s1.sync.Reading?
      && var s2 := Apply(Apply(s1, ReportBatch(TimedOut)), Delete(7));
      s2.sync.Idle?
      && var s3 := Apply(s2, BeginRead);
      s3.sync.Reading?
      && var s4 := Apply(s3, ReportBatch(Delivered));
      s4.sync.Acknowledged? && Safe(s4, RemoveBatch)
      && var s5 := Apply(s4, RemoveBatch);
      |s5.late| == 1 && !Safe(s5, DeliverLate(0))
      && var s6 := Apply(s5, DeliverLate(0));
      s6.volume.records == [] && 7 !in s6.volume.bundles && (7, 1) in s6.central
  {
    CommittedIs();
    DeletedInFlight();
    DeleteReported();
    LateArrivalRevives();
  }
}
