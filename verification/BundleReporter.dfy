/** `BundleReporter::sync_volume`: draining a volume's outbox into central over calls that
    may fail before or after they take effect, or take effect after they were given up, and
    the storage node's commit handler. */
module BundleReporter {
  import opened Core
  import opened VolumeModel
  import opened VolumeStore
  import opened Replicas
  import opened Outbox

  /** Central's replica table behind its database lock, and the batches still on their way
      to it after their calls timed out. */
  class CentralReplicas {
    var table: Table
    var late: seq<seq<Event>>
    const onlineVolumes: map<nat, nat>

    constructor (onlineVolumes: map<nat, nat>)
      ensures table == map[] && late == [] && this.onlineVolumes == onlineVolumes
    {
      table, late := map[], [];
      this.onlineVolumes := onlineVolumes;
    }

    /** One report call: refused, lost on the way, applied with the reply lost, given up
        while still on its way, or applied and acknowledged. Only the last is a success. */
    method Report(storageId: nat, events: seq<Event>, delivery: Delivery) returns (r: Result<()>)
      modifies this`table, this`late
      ensures r.Ok? <==> delivery.Delivered? && AllOnline(events, onlineVolumes, storageId) && ApplyBatch(old(table), events).Ok?
      ensures r.Ok? ==> ApplyBatch(old(table), events) == Ok(table)
      ensures table == old(table) || ApplyBatch(old(table), events) == Ok(table)
      ensures delivery.NotApplied? || delivery.TimedOut? ==> table == old(table)
      ensures late == if delivery.TimedOut? then old(late) + [events] else old(late)
    {
      if delivery.NotApplied? { return Err(Io); }
      if delivery.TimedOut? {
        late := late + [events];
        return Err(Io);
      }
      var result := ReportBundleReplica(table, events, onlineVolumes, storageId);
      match result {
        case Err(e) => return Err(e);
        case Ok(t) =>
          table := t;
          return if delivery.ReplyLost? then Err(Io) else Ok(());
      }
    }

    /** A given up batch arrives after all; it is dropped when a volume of it is offline. */
    method Arrive(storageId: nat, k: nat)
      requires k < |late|
      modifies this`table, this`late
      ensures late == old(late)[..k] + old(late)[k + 1..]
      ensures table == if AllOnline(old(late)[k], onlineVolumes, storageId) then Applied(old(table), old(late)[k]) else old(table)
    {
      var result := ReportBundleReplica(table, late[k], onlineVolumes, storageId);
      late := late[..k] + late[k + 1..];
      match result {
        case Err(_) =>
        case Ok(t) => table := t;
      }
    }
  }

  ghost function SystemOf(db: VolumeDb, central: CentralReplicas): System
    reads db, central
  {
    System(db.OutboxView(), central.table, Idle, central.late)
  }

  /** Between two syncs: nothing is lost so far, and what is on its way is still true. */
  ghost predicate InOrder(db: VolumeDb, central: CentralReplicas)
    reads db, central
  {
    Outbox.Inv(SystemOf(db, central)) && LateExact(SystemOf(db, central))
  }

  /* ---- When a sync drains the outbox ---- */

  /** The batches that a number of records makes. */
  function Rounds(n: nat): nat { (n + READ_LIMIT - 1) / READ_LIMIT }

  predicate Delivers(deliveries: seq<Delivery>, n: nat) {
    n <= |deliveries| && forall i :: 0 <= i < n ==> deliveries[i].Delivered?
  }

  predicate IsOnline(onlineVolumes: map<nat, nat>, volumeId: nat, storageId: nat) {
    volumeId in onlineVolumes && onlineVolumes[volumeId] == storageId
  }

  /** The bundles table can sum up every pending bundle. */
  predicate Summable(records: seq<Record>, bundles: map<HashId, seq<BundleChunkRef>>, chunks: map<HashId, ChunkMeta>) {
    forall i :: 0 <= i < |records| ==> !SumOverflows(bundles, chunks, records[i].bundleId)
  }

  /** Each batch of the records is acknowledged, by a central that has the volume online at
      the reporting storage, and no pending sum leaves the signed range. */
  ghost predicate Drains(db: VolumeDb, onlineVolumes: map<nat, nat>, storageId: nat, deliveries: seq<Delivery>)
    reads db
  {
    && Delivers(deliveries, Rounds(|db.records|))
    && (db.records != [] ==> IsOnline(onlineVolumes, db.volumeId, storageId))
    && Summable(db.records, db.bundleChunks, db.chunks)
  }

  /** The first batch goes through, and so do the others. */
  lemma {:induction false} OneRound(records: seq<Record>, bundles: map<HashId, seq<BundleChunkRef>>, chunks: map<HashId, ChunkMeta>,
                                    deliveries: seq<Delivery>, n: nat)
    requires records != [] && n == if READ_LIMIT < |records| then READ_LIMIT else |records|
    ensures Delivers(deliveries, Rounds(|records|)) <==>
      deliveries != [] && deliveries[0].Delivered? && Delivers(deliveries[1..], Rounds(|records| - n))
    ensures Summable(records, bundles, chunks) <==> Summable(records[..n], bundles, chunks) && Summable(records[n..], bundles, chunks)
  {
    var rounds := Rounds(|records|);
    assert Rounds(|records| - n) == rounds - 1;
    if deliveries != [] && Delivers(deliveries[1..], rounds - 1) {
      assert forall i :: 0 < i < rounds ==> deliveries[i] == deliveries[1..][i - 1];
    }
    assert forall i :: n <= i < |records| ==> records[i] == records[n..][i - n];
  }

  /** `sync_volume`: read up to 128 records, report them, remove them by the largest event
      id, until none is left, and then tell central the active offset. `arrivals` are the
      late batches that arrive before each round, `offsetSent` is how the last call ends.
      Whatever becomes of the calls, no change is lost. The outbox is drained, and central
      then agrees on every bundle, exactly when the calls and sums allow it. */
  method SyncVolume(db: VolumeDb, central: CentralReplicas, storageId: nat, deliveries: seq<Delivery>, arrivals: seq<nat>,
                    offsetSent: Result<()>)
    returns (r: Result<()>)
    requires InOrder(db, central)
    modifies db`records, central`table, central`late
    ensures InOrder(db, central)
    ensures r.Ok? <==> old(Drains(db, central.onlineVolumes, storageId, deliveries)) && offsetSent.Ok?
    ensures old(Drains(db, central.onlineVolumes, storageId, deliveries)) ==>
      r == offsetSent && db.records == [] && forall b :: Agrees(SystemOf(db, central), b)
    ensures r.Ok? ==> (|old(db.records)| + 127) / 128 <= |deliveries|
  {
    ghost var drains := Drains(db, central.onlineVolumes, storageId, deliveries);
    var attempt := 0;
    while true
      invariant InOrder(db, central) && attempt <= |deliveries|
      invariant drains <==> Drains(db, central.onlineVolumes, storageId, deliveries[attempt..])
      decreases |db.records|
    {
      if attempt < |arrivals| { ArriveLate(db, central, storageId, arrivals[attempt]); }
      var more := SyncRound(db, central, storageId, deliveries[attempt..]);
      if more.Err? { return Err(more.error); }
      if !more.value { break; }
      assert deliveries[attempt..][1..] == deliveries[attempt + 1..];
      attempt := attempt + 1;
    }
    NothingPending(SystemOf(db, central));
    return offsetSent;
  }

  method ArriveLate(db: VolumeDb, central: CentralReplicas, storageId: nat, k: nat)
    requires InOrder(db, central)
    modifies central`table, central`late
    ensures InOrder(db, central)
  {
    if k < |central.late| {
      LateArrival(SystemOf(db, central), k);
      central.Arrive(storageId, k);
    }
  }

  /** One round of the loop: whether there was anything to report, or why it failed. */
  method SyncRound(db: VolumeDb, central: CentralReplicas, storageId: nat, deliveries: seq<Delivery>) returns (more: Result<bool>)
    requires InOrder(db, central)
    modifies db`records, central`table, central`late
    ensures InOrder(db, central)
    ensures more.Err? ==> !old(Drains(db, central.onlineVolumes, storageId, deliveries))
    ensures more == Ok(false) ==> old(db.records) == db.records == []
    ensures more == Ok(true) ==> |db.records| < |old(db.records)| && deliveries != []
    ensures more == Ok(true) ==> db.records == old(db.records)[if |old(db.records)| < 128 then |old(db.records)| else 128..]
    ensures more == Ok(true) ==>
      (old(Drains(db, central.onlineVolumes, storageId, deliveries)) <==> Drains(db, central.onlineVolumes, storageId, deliveries[1..]))
  {
    var result := db.GetBundleChangeRecords(READ_LIMIT);
    if result.Err? { return Err(result.error); }
    var events := result.value;
    if events == [] { return Ok(false); }
    OneRound(db.records, db.bundleChunks, db.chunks, deliveries, |events|);
    var delivery := if deliveries != [] then deliveries[0] else NotApplied;
    var reported := ReportAndRemove(db, central, storageId, events, delivery);
    if reported.Err? { return Err(reported.error); }
    return Ok(true);
  }

  /** The rest of a round after its read. */
  method ReportAndRemove(db: VolumeDb, central: CentralReplicas, storageId: nat, events: seq<Event>, delivery: Delivery)
    returns (r: Result<()>)
    requires InOrder(db, central) && events != [] && events == ReadEvents(db.OutboxView(), READ_LIMIT)
    modifies db`records, central`table, central`late
    ensures InOrder(db, central)
    ensures r.Ok? <==> delivery.Delivered? && IsOnline(central.onlineVolumes, db.volumeId, storageId)
    ensures r.Ok? ==> db.records == old(db.records)[|events|..]
    ensures r.Err? ==> db.records == old(db.records)
  {
    ghost var s0 := SystemOf(db, central);
    ReadIsExact(s0.volume);
    BatchGoesThrough(s0, events, central.onlineVolumes, storageId);
    r := central.Report(storageId, events, delivery);
    if r.Err? {
      ReportFailed(s0, SystemOf(db, central), events, delivery);
      return;
    }
    ghost var table := central.table;
    db.RemoveBundleChangeRecords(MaxEventId(events));
    RoundDone(s0, events, table);
    assert SystemOf(db, central) == Drained(s0, events, table);
  }

  /** The system after a batch was acknowledged and removed. */
  ghost function Drained(s: System, events: seq<Event>, table: Table): System {
    s.(central := table, volume := s.volume.(records := RemoveUpTo(s.volume.records, MaxEventId(events))))
  }

  /** An acknowledged report and the removal of its batch are the protocol's and lose nothing. */
  lemma {:induction false} RoundDone(s: System, events: seq<Event>, table: Table)
    requires Outbox.Inv(s) && LateExact(s) && s.sync.Idle? && AllExact(s.volume, events) && Heads(s.volume, events)
    requires ApplyBatch(s.central, events) == Ok(table)
    ensures Outbox.Inv(Drained(s, events, table)) && LateExact(Drained(s, events, table))
    ensures Drained(s, events, table).volume.records == s.volume.records[|events|..]
  {
    var reading := s.(sync := Reading(events));
    ReportKept(reading, ReportBatch(Delivered));
    var reported := Outbox.Apply(reading, ReportBatch(Delivered));
    KeptIffSafe(reported, RemoveBatch);
    RemovesTheBatch(s.volume, events);
    assert Outbox.Apply(reported, RemoveBatch) == Drained(s, events, table);
  }

  /** Central can refuse a volume's own batch only because the volume is not online. */
  lemma {:induction false} BatchGoesThrough(s: System, events: seq<Event>, onlineVolumes: map<nat, nat>, storageId: nat)
    requires RecordsOk(s.volume) && AllExact(s.volume, events) && Heads(s.volume, events)
    ensures ApplyBatch(s.central, events).Ok?
    ensures AllOnline(events, onlineVolumes, storageId) <==> IsOnline(onlineVolumes, s.volume.volumeId, storageId)
  {
    forall i | 0 <= i < |events|
      ensures events[i].volumeId == s.volume.volumeId
      ensures events[i].kind.Stored? ==> events[i].lens.raw > 0 && events[i].lens.compressed > 0
    {
      assert IsHead(s.volume.volumeId, s.volume.records[i], events[i]) && Exact(s.volume, events[i]);
    }
    BatchAccepted(s.central, events);
  }

  /** A late batch that is still true does no harm when it arrives, or when it is dropped. */
  lemma {:induction false} LateArrival(s: System, k: nat)
    requires Outbox.Inv(s) && LateExact(s) && s.sync.Idle? && k < |s.late|
    ensures var late := s.late[..k] + s.late[k + 1..];
      && Outbox.Inv(s.(central := Applied(s.central, s.late[k]), late := late)) && Outbox.Inv(s.(late := late))
      && LateExact(s.(late := late)) && LateExact(s.(central := Applied(s.central, s.late[k]), late := late))
  {
    ExactIsSafe(s, k);
    LateSafeIff(s, k);
  }

  /** A failed report leaves central either untouched or with the batch applied. */
  lemma {:induction false} ReportFailed(s: System, s': System, events: seq<Event>, delivery: Delivery)
    requires Outbox.Inv(s) && LateExact(s) && s.sync.Idle? && AllExact(s.volume, events) && Heads(s.volume, events)
    requires s' == s.(central := s'.central, late := s'.late)
    requires s'.central == s.central || ApplyBatch(s.central, events) == Ok(s'.central)
    requires s'.late == if delivery.TimedOut? then s.late + [events] else s.late
    ensures Outbox.Inv(s') && LateExact(s')
  {
    var reading := s.(sync := Reading(events));
    ReportKept(reading, ReportBatch(ReplyLost));
    assert Outbox.Inv(Outbox.Apply(reading, ReportBatch(ReplyLost)).(late := s'.late));
    if s'.central != s.central { assert s' == Outbox.Apply(reading, ReportBatch(ReplyLost)).(late := s'.late); }
  }

  lemma {:induction false} NothingPending(s: System)
    requires Outbox.Inv(s) && s.volume.records == []
    ensures forall b :: Agrees(s, b)
  {
    forall b ensures Agrees(s, b) { assert !Pending(s.volume.records, b); }
  }

  /** The bundle passes the checks, is stored or can be, and its sums stay in range. */
  ghost predicate Commits(volume: VolumeStore.Volume, id: HashId, refs: seq<BundleChunkRef>)
    reads volume, volume.db
  {
    var db := volume.db;
    && CheckBundle(id, refs, volume.hash).None?
    && (id in db.bundleChunks || AllIndexed(refs, db.chunks))
    && !SumOverflows(CommitTable(db.bundleChunks, db.chunks, id, refs, volume.hash), db.chunks, id)
  }

  /** The records that are pending once the bundle is committed. */
  ghost function PendingWith(db: VolumeDb, id: HashId): seq<Record>
    reads db
  {
    if id in db.bundleChunks then db.records else Upsert(db.records, db.nextEventId, id, Stored)
  }

  /** What the whole handler needs to succeed: the commit does, and all that is pending
      afterwards drains. */
  ghost predicate CommitsAndDrains(volume: VolumeStore.Volume, onlineVolumes: map<nat, nat>, storageId: nat, id: HashId,
                                   refs: seq<BundleChunkRef>, deliveries: seq<Delivery>)
    reads volume, volume.db
  {
    var db := volume.db;
    var records := PendingWith(db, id);
    && Commits(volume, id, refs)
    && Delivers(deliveries, Rounds(|records|))
    && (records != [] ==> IsOnline(onlineVolumes, db.volumeId, storageId))
    && Summable(records, CommitTable(db.bundleChunks, db.chunks, id, refs, volume.hash), db.chunks)
  }

  /** The storage node's `commit_bundle` handler: commit, then sync. When it returns Ok the
      bundle is stored and central lists the replica with its exact lengths. The one thing
      asked beyond a sync is that no delete of the bundle itself is still on its way. */
  method CommitBundleHandler(volume: VolumeStore.Volume, central: CentralReplicas, storageId: nat, id: HashId,
                             refs: seq<BundleChunkRef>, deliveries: seq<Delivery>, arrivals: seq<nat>, offsetSent: Result<()>)
    returns (r: Result<BundleMeta>)
    requires InOrder(volume.db, central)
    requires forall k, i :: 0 <= k < |central.late| && 0 <= i < |central.late[k]| && central.late[k][i].bundleId == id ==> central.late[k][i].kind.Stored?
    requires forall b :: b in volume.db.bundleChunks ==> volume.db.bundleChunks[b] != []
    requires forall c :: c in volume.db.chunks ==> volume.db.chunks[c].rawLen > 0 && volume.db.chunks[c].compressedLen > 0
    modifies volume.db`bundleChunks, volume.db`records, volume.db`nextEventId, central`table, central`late
    ensures InOrder(volume.db, central)
    ensures r.Ok? <==> old(CommitsAndDrains(volume, central.onlineVolumes, storageId, id, refs, deliveries)) && offsetSent.Ok?
    ensures r.Ok? ==> var key := (id, volume.db.volumeId);
      && id in volume.db.bundleChunks && r.value.bundleId == id
      && key in central.table && central.table[key] == Lens(r.value.rawLen, r.value.compressedLen)
  {
    var committed := CommitFirst(volume, central, id, refs);
    if committed.Err? { return committed; }
    var synced := SyncVolume(volume.db, central, storageId, deliveries, arrivals, offsetSent);
    if synced.Err? { return Err(synced.error); }
    assert Agrees(SystemOf(volume.db, central), id);
    return committed;
  }

  /** The handler's commit, seen together with the sync that follows. */
  method CommitFirst(volume: VolumeStore.Volume, ghost central: CentralReplicas, id: HashId, refs: seq<BundleChunkRef>)
    returns (r: Result<BundleMeta>)
    requires InOrder(volume.db, central)
    requires forall k, i :: 0 <= k < |central.late| && 0 <= i < |central.late[k]| && central.late[k][i].bundleId == id ==> central.late[k][i].kind.Stored?
    requires forall b :: b in volume.db.bundleChunks ==> volume.db.bundleChunks[b] != []
    requires forall c :: c in volume.db.chunks ==> volume.db.chunks[c].rawLen > 0 && volume.db.chunks[c].compressedLen > 0
    modifies volume.db`bundleChunks, volume.db`records, volume.db`nextEventId
    ensures InOrder(volume.db, central)
    ensures r.Ok? <==> old(Commits(volume, id, refs))
    ensures r.Ok? ==> volume.db.records == old(PendingWith(volume.db, id))
    ensures volume.db.bundleChunks == CommitTable(old(volume.db.bundleChunks), volume.db.chunks, id, refs, volume.hash)
    ensures r.Ok? ==> id in volume.db.bundleChunks && r.value.bundleId == id
    ensures r.Ok? ==> BundleLens(volume.db.bundleChunks, volume.db.chunks)[id] == Lens(r.value.rawLen, r.value.compressedLen)
  {
    ghost var s0 := SystemOf(volume.db, central);
    r := volume.CommitBundle(id, refs);
    AfterCommit(s0, SystemOf(volume.db, central), id, refs, volume.db.chunks, volume.hash);
  }

  lemma {:induction false} SumsPositive(refs: seq<BundleChunkRef>, chunks: map<HashId, ChunkMeta>)
    requires refs != [] && AllIndexed(refs, chunks)
    requires forall c :: c in chunks ==> chunks[c].rawLen > 0 && chunks[c].compressedLen > 0
    ensures RawSum(refs, chunks) > 0 && CompressedSum(refs, chunks) > 0
  {}

  /** A commit either changes nothing or is the protocol's commit step. */
  lemma {:induction false} AfterCommit(s: System, s': System, id: HashId, refs: seq<BundleChunkRef>,
                                       chunks: map<HashId, ChunkMeta>, hash: seq<HashId> -> HashId)
    requires Outbox.Inv(s) && LateExact(s) && s.sync.Idle?
    requires forall k, i :: 0 <= k < |s.late| && 0 <= i < |s.late[k]| && s.late[k][i].bundleId == id ==> s.late[k][i].kind.Stored?
    requires forall c :: c in chunks ==> chunks[c].rawLen > 0 && chunks[c].compressedLen > 0
    requires s' == s || (CheckBundle(id, refs, hash).None? && AllIndexed(refs, chunks)
      && s' == s.(volume := Outbox.Store(s.volume, id, Lens(RawSum(refs, chunks), CompressedSum(refs, chunks)))))
    ensures Outbox.Inv(s') && LateExact(s')
  {
    if s' != s {
      SumsPositive(refs, chunks);
      var lens := Lens(RawSum(refs, chunks), CompressedSum(refs, chunks));
      ChangeKept(s, Commit(id, lens));
      forall k | 0 <= k < |s.late| ensures AllExact(s'.volume, s.late[k]) { CommitKeepsExact(s.volume, id, lens, s.late[k]); }
    }
  }
}
