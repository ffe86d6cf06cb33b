/** Central's table of bundle replicas: applying reported events, and the batched lookup
    that picks, for every bundle, its replica on the lowest volume. */
module Replicas {
  import opened Core

  datatype Lens = Lens(raw: nat, compressed: nat)

  /** Rows of `bundle_replicas` under their primary key (bundle, volume). */
  type Table = map<(HashId, nat), Lens>

  datatype ReplicaRow = ReplicaRow(bundleId: HashId, volumeId: nat, lens: Lens)

  datatype EventKind = Stored | Deleted

  datatype Event = Event(eventId: nat, kind: EventKind, volumeId: nat, bundleId: HashId, lens: Lens)

  /* ---- Applying a reported batch ---- */

  function ApplyEvent(t: Table, e: Event): Result<Table> {
    match e.kind
    case Stored =>
      if e.lens.raw == 0 || e.lens.compressed == 0 then Err(InvalidRequest)
      else Ok(t[(e.bundleId, e.volumeId) := e.lens])
    case Deleted => Ok(t - {(e.bundleId, e.volumeId)})
  }

  function ApplyBatch(t: Table, events: seq<Event>): Result<Table> {
    if events == [] then Ok(t)
    else match ApplyBatch(t, events[..|events| - 1])
      case Err(e) => Err(e)
      case Ok(t1) => ApplyEvent(t1, events[|events| - 1])
  }

  predicate AllOnline(events: seq<Event>, onlineVolumes: map<nat, nat>, storageId: nat) {
    forall i :: 0 <= i < |events| ==>
      events[i].volumeId in onlineVolumes && onlineVolumes[events[i].volumeId] == storageId
  }

  /** `report_bundle_replica`: the batch is applied as a whole or not at all. */
  function Report(t: Table, events: seq<Event>, onlineVolumes: map<nat, nat>, storageId: nat): Result<Table> {
    if !AllOnline(events, onlineVolumes, storageId) then Err(InvalidRequest) else ApplyBatch(t, events)
  }

  /** The last event for a row, which decides what becomes of it. */
  function LastEvent(events: seq<Event>, key: (HashId, nat)): Option<Event> {
    if events == [] then None
    else
      var last := events[|events| - 1];
      if (last.bundleId, last.volumeId) == key then Some(last) else LastEvent(events[..|events| - 1], key)
  }

  /** What a batch leaves in the table, row by row. */
  lemma {:induction false} BatchEffect(t: Table, events: seq<Event>, key: (HashId, nat))
    requires ApplyBatch(t, events).Ok?
    ensures var t' := ApplyBatch(t, events).value;
      match LastEvent(events, key)
      case None => (key in t' <==> key in t) && (key in t ==> t'[key] == t[key])
      case Some(e) => (key in t' <==> e.kind.Stored?) && (e.kind.Stored? ==> t'[key] == e.lens)
  {
    if events != [] { BatchEffect(t, events[..|events| - 1], key); }
  }

  lemma {:induction false} LastEventIs(events: seq<Event>, key: (HashId, nat), i: nat)
    requires i < |events| && (events[i].bundleId, events[i].volumeId) == key
    requires forall j :: i < j < |events| ==> (events[j].bundleId, events[j].volumeId) != key
    ensures LastEvent(events, key) == Some(events[i])
  {
    if i < |events| - 1 { LastEventIs(events[..|events| - 1], key, i); }
  }

  lemma {:induction false} NoEvent(events: seq<Event>, key: (HashId, nat))
    requires forall i :: 0 <= i < |events| ==> (events[i].bundleId, events[i].volumeId) != key
    ensures LastEvent(events, key) == None
  {
    if events != [] { NoEvent(events[..|events| - 1], key); }
  }

  /** A batch is refused exactly when some Stored event carries an empty length. */
  lemma {:induction false} BatchAccepted(t: Table, events: seq<Event>)
    ensures ApplyBatch(t, events).Ok? <==>
      forall i :: 0 <= i < |events| && events[i].kind.Stored? ==> events[i].lens.raw > 0 && events[i].lens.compressed > 0
  {
    if events != [] {
      var init := events[..|events| - 1];
      BatchAccepted(t, init);
      assert forall i :: 0 <= i < |init| ==> init[i] == events[i];
    }
  }

  /** The loop of `report_bundle_replica` over its events, inside one transaction. */
  method ReportBundleReplica(committed: Table, events: seq<Event>, onlineVolumes: map<nat, nat>, storageId: nat)
    returns (r: Result<Table>)
    ensures r == Report(committed, events, onlineVolumes, storageId)
    ensures r.Ok? <==> forall i :: 0 <= i < |events| ==>
      && events[i].volumeId in onlineVolumes && onlineVolumes[events[i].volumeId] == storageId
      && (events[i].kind.Stored? ==> events[i].lens.raw > 0 && events[i].lens.compressed > 0)
    ensures r.Err? ==> r.error == InvalidRequest
  {
    BatchAccepted(committed, events);
    RefusedIsInvalid(committed, events);
    for i := 0 to |events|
      invariant forall k :: 0 <= k < i ==>
        events[k].volumeId in onlineVolumes && onlineVolumes[events[k].volumeId] == storageId
    {
      if events[i].volumeId !in onlineVolumes || onlineVolumes[events[i].volumeId] != storageId {
        return Err(InvalidRequest);
      }
    }
    var tx := committed;
    for i := 0 to |events|
      invariant ApplyBatch(committed, events[..i]) == Ok(tx)
    {
      assert events[..i + 1][..i] == events[..i];
      match ApplyEvent(tx, events[i]) {
        case Err(e) =>
          RefusedEarly(committed, events, i + 1, e);
          return Err(e);
        case Ok(t) => tx := t;
      }
    }
    assert events[..|events|] == events;
    return Ok(tx);
  }

  lemma {:induction false} RefusedIsInvalid(t: Table, events: seq<Event>)
    ensures ApplyBatch(t, events).Err? ==> ApplyBatch(t, events).error == InvalidRequest
  {
    if events != [] { RefusedIsInvalid(t, events[..|events| - 1]); }
  }

  lemma {:induction false} RefusedEarly(t: Table, events: seq<Event>, n: nat, e: Fs0Error)
    requires n <= |events| && ApplyBatch(t, events[..n]) == Err(e)
    ensures ApplyBatch(t, events) == Err(e)
  {
    if n < |events| {
      assert events[..|events| - 1][..n] == events[..n];
      RefusedEarly(t, events[..|events| - 1], n, e);
    } else {
      assert events[..n] == events;
    }
  }

  /* ---- Looking replicas up ---- */

  ghost predicate HasReplica(t: Table, b: HashId) { exists v :: (b, v) in t }

  /** The lowest volume that holds a replica of the bundle. */
  ghost function LowestVolume(t: Table, b: HashId): (v: nat)
    requires HasReplica(t, b)
    ensures (b, v) in t && forall w :: (b, w) in t ==> v <= w
  {
    LowestExists(t, b);
    var v :| (b, v) in t && forall w :: (b, w) in t ==> v <= w;
    v
  }

  lemma {:induction false} LowestExists(t: Table, b: HashId)
    requires HasReplica(t, b)
    ensures exists v :: (b, v) in t && forall w :: (b, w) in t ==> v <= w
  {
    var v :| (b, v) in t;
    LowestBelow(t, b, v);
  }

  lemma {:induction false} LowestBelow(t: Table, b: HashId, v: nat)
    requires (b, v) in t
    ensures exists u :: (b, u) in t && forall w :: (b, w) in t ==> u <= w
    decreases v
  {
    if w :| (b, w) in t && w < v { LowestBelow(t, b, w); }
  }

  /** The lengths central uses for a bundle. */
  ghost function LensOf(t: Table, b: HashId): Option<Lens> {
    if HasReplica(t, b) then Some(t[(b, LowestVolume(t, b))]) else None
  }

  predicate Before(a: (HashId, nat), b: (HashId, nat)) { a.0 < b.0 || (a.0 == b.0 && a.1 < b.1) }

  function KeyOf(row: ReplicaRow): (HashId, nat) { (row.bundleId, row.volumeId) }

  ghost predicate Has(rows: seq<ReplicaRow>, k: (HashId, nat)) { exists i :: 0 <= i < |rows| && KeyOf(rows[i]) == k }

  /** `rows` lists rows of the table in key order, and exactly those with keys in `keys`. */
  ghost predicate Listing(t: Table, rows: seq<ReplicaRow>, keys: set<(HashId, nat)>) {
    && (forall i :: 0 <= i < |rows| ==> KeyOf(rows[i]) in t && rows[i].lens == t[KeyOf(rows[i])] && KeyOf(rows[i]) in keys)
    && (forall i, j :: 0 <= i < j < |rows| ==> Before(KeyOf(rows[i]), KeyOf(rows[j])))
    && (forall k :: k in keys ==> Has(rows, k))
  }

  lemma {:induction false} LeastKey(keys: set<(HashId, nat)>) returns (least: (HashId, nat))
    requires keys != {}
    ensures least in keys && forall k :: k in keys && k != least ==> Before(least, k)
    decreases |keys|
  {
    var k :| k in keys;
    if keys == {k} {
      least := k;
    } else {
      assert keys - {k} != {} by { assert keys == {k} + (keys - {k}); }
      var m := LeastKey(keys - {k});
      least := if Before(k, m) then k else m;
      assert forall x :: x in keys && x != least ==> x == k || x in keys - {k};
    }
  }

  /** One query of the lookup: the rows of a batch of ids, ordered by bundle and volume. */
  method QueryBatch(t: Table, batch: seq<HashId>) returns (rows: seq<ReplicaRow>)
    ensures Listing(t, rows, set k | k in t && k.0 in batch)
  {
    var left := set k | k in t && k.0 in batch;
    ghost var all := left;
    rows := [];
    while left != {}
      invariant left <= all
      invariant Listing(t, rows, all - left)
      invariant forall i, k :: 0 <= i < |rows| && k in left ==> Before(KeyOf(rows[i]), k)
      decreases |left|
    {
      ghost var g := LeastKey(left);
      var k :| k in left && forall x :: x in left && x != k ==> Before(k, x);
      ghost var before := rows;
      rows := rows + [ReplicaRow(k.0, k.1, t[k])];
      forall x | x in all - (left - {k}) ensures Has(rows, x) {
        if x == k {
          assert KeyOf(rows[|rows| - 1]) == x;
        } else {
          assert Has(before, x);
          var i :| 0 <= i < |before| && KeyOf(before[i]) == x;
          assert KeyOf(rows[i]) == x;
        }
      }
      left := left - {k};
    }
    assert all - left == all;
  }

  const BATCH_SIZE: nat := 500

  /** The first row of `rows` for bundle `b` is `lens`. */
  ghost predicate FirstRow(rows: seq<ReplicaRow>, b: HashId, row: ReplicaRow) {
    exists i :: 0 <= i < |rows| && rows[i] == row && row.bundleId == b && forall j :: 0 <= j < i ==> rows[j].bundleId != b
  }

  lemma {:induction false} FirstRowAppend(rows: seq<ReplicaRow>, more: seq<ReplicaRow>, b: HashId, row: ReplicaRow)
    requires FirstRow(rows, b, row)
      || (FirstRow(more, b, row) && forall i :: 0 <= i < |rows| ==> rows[i].bundleId != b)
    ensures FirstRow(rows + more, b, row)
  {
    if FirstRow(rows, b, row) {
      var i :| 0 <= i < |rows| && rows[i] == row && row.bundleId == b && forall j :: 0 <= j < i ==> rows[j].bundleId != b;
      assert (rows + more)[i] == row;
    } else {
      var i :| 0 <= i < |more| && more[i] == row && row.bundleId == b && forall j :: 0 <= j < i ==> more[j].bundleId != b;
      assert (rows + more)[|rows| + i] == row;
      forall j | 0 <= j < |rows| + i ensures (rows + more)[j].bundleId != b {}
    }
  }

  /** Within one ordered listing, a bundle's first row is the one on its lowest volume. */
  lemma {:induction false} FirstIsLowest(t: Table, rows: seq<ReplicaRow>, batch: seq<HashId>, b: HashId)
    requires Listing(t, rows, set k | k in t && k.0 in batch) && b in batch && HasReplica(t, b)
    ensures FirstRow(rows, b, ReplicaRow(b, LowestVolume(t, b), t[(b, LowestVolume(t, b))]))
  {
    var key := (b, LowestVolume(t, b));
    assert key in (set k | k in t && k.0 in batch);
    assert Has(rows, key);
    var i :| 0 <= i < |rows| && KeyOf(rows[i]) == key;
    forall j | 0 <= j < i ensures rows[j].bundleId != b {
      assert Before(KeyOf(rows[j]), KeyOf(rows[i]));
    }
  }

  predicate Different(ids: seq<HashId>) { forall i, j :: 0 <= i < j < |ids| ==> ids[i] != ids[j] }

  /** The rows of each bundle are in volume order, each volume once. */
  predicate Ascending(rows: seq<ReplicaRow>) {
    forall i, j :: 0 <= i < j < |rows| && rows[i].bundleId == rows[j].bundleId ==> rows[i].volumeId < rows[j].volumeId
  }

  lemma {:induction false} AppendAscending(t: Table, ids: seq<HashId>, from: nat, to: nat, rows: seq<ReplicaRow>, more: seq<ReplicaRow>)
    requires from <= to <= |ids| && Different(ids) && Ascending(rows)
    requires forall i :: 0 <= i < |rows| ==> rows[i].bundleId in ids[..from]
    requires Listing(t, more, set k | k in t && k.0 in ids[from..to])
    ensures Ascending(rows + more)
  {
    var all := rows + more;
    forall i, j | 0 <= i < j < |all| && all[i].bundleId == all[j].bundleId ensures all[i].volumeId < all[j].volumeId {
      if i >= |rows| {
        assert Before(KeyOf(more[i - |rows|]), KeyOf(more[j - |rows|]));
      } else if j >= |rows| {
        assert KeyOf(more[j - |rows|]) in (set k | k in t && k.0 in ids[from..to]);
        BatchesApart(ids, from, to, rows[i].bundleId, more[j - |rows|].bundleId);
      }
    }
  }

  lemma {:induction false} BatchesApart(ids: seq<HashId>, from: nat, to: nat, a: HashId, b: HashId)
    requires from <= to <= |ids| && Different(ids) && a in ids[..from] && b in ids[from..to]
    ensures a != b
  {
    var i :| 0 <= i < from && ids[i] == a;
    var j :| from <= j < to && ids[j] == b;
  }

  /** `get_bundle_replicas_by_id`: batches of 500 ids, results appended. Whatever the
      batches, every known bundle's first row is the one on its lowest volume, and the
      result holds the replicas of the given bundles and nothing else. */
  method GetBundleReplicasById(t: Table, ids: seq<HashId>) returns (rows: seq<ReplicaRow>)
    ensures forall i :: 0 <= i < |rows| ==>
      KeyOf(rows[i]) in t && rows[i].lens == t[KeyOf(rows[i])] && rows[i].bundleId in ids
    ensures forall b :: b in ids && HasReplica(t, b) ==>
      FirstRow(rows, b, ReplicaRow(b, LowestVolume(t, b), t[(b, LowestVolume(t, b))]))
    ensures forall k :: k in t && k.0 in ids ==> Has(rows, k)
    ensures Different(ids) ==> Ascending(rows)
  {
    rows := [];
    var from := 0;
    while from < |ids|
      invariant 0 <= from <= |ids|
      invariant forall i :: 0 <= i < |rows| ==>
        KeyOf(rows[i]) in t && rows[i].lens == t[KeyOf(rows[i])] && rows[i].bundleId in ids[..from]
      invariant forall b :: b in ids[..from] && HasReplica(t, b) ==>
        FirstRow(rows, b, ReplicaRow(b, LowestVolume(t, b), t[(b, LowestVolume(t, b))]))
      invariant forall k :: k in t && k.0 in ids[..from] ==> Has(rows, k)
      invariant Different(ids) ==> Ascending(rows)
    {
      var to := if from + BATCH_SIZE < |ids| then from + BATCH_SIZE else |ids|;
      var more := QueryBatch(t, ids[from..to]);
      assert ids[..to] == ids[..from] + ids[from..to];
      ghost var before := rows;
      rows := rows + more;
      AppendBatch(t, ids[..from], ids[from..to], before, more);
      if Different(ids) { AppendAscending(t, ids, from, to, before, more); }
      from := to;
    }
    assert ids[..|ids|] == ids;
  }

  lemma {:induction false} AppendBatch(t: Table, done: seq<HashId>, batch: seq<HashId>, rows: seq<ReplicaRow>, more: seq<ReplicaRow>)
    requires Listing(t, more, set k | k in t && k.0 in batch)
    requires forall i :: 0 <= i < |rows| ==> rows[i].bundleId in done
    requires forall b :: b in done && HasReplica(t, b) ==>
      FirstRow(rows, b, ReplicaRow(b, LowestVolume(t, b), t[(b, LowestVolume(t, b))]))
    requires forall k :: k in t && k.0 in done ==> Has(rows, k)
    ensures forall b :: b in done + batch && HasReplica(t, b) ==>
      FirstRow(rows + more, b, ReplicaRow(b, LowestVolume(t, b), t[(b, LowestVolume(t, b))]))
    ensures forall k :: k in t && k.0 in done + batch ==> Has(rows + more, k)
  {
    forall b | b in done + batch && HasReplica(t, b)
      ensures FirstRow(rows + more, b, ReplicaRow(b, LowestVolume(t, b), t[(b, LowestVolume(t, b))]))
    {
      if b !in done { FirstIsLowest(t, more, batch, b); }
      FirstRowAppend(rows, more, b, ReplicaRow(b, LowestVolume(t, b), t[(b, LowestVolume(t, b))]));
    }
    forall k | k in t && k.0 in done + batch ensures Has(rows + more, k) {
      if k.0 in done {
        assert Has(rows, k);
        var i :| 0 <= i < |rows| && KeyOf(rows[i]) == k;
        assert (rows + more)[i] == rows[i];
      } else {
        assert k in (set x | x in t && x.0 in batch);
        assert Has(more, k);
        var i :| 0 <= i < |more| && KeyOf(more[i]) == k;
        assert (rows + more)[|rows| + i] == more[i];
      }
    }
  }

  /** `entry(bundle).or_insert(lens)` over the rows: the first row of a bundle wins. */
  function FirstWins(rows: seq<ReplicaRow>): map<HashId, Lens> {
    if rows == [] then map[]
    else
      var m, last := FirstWins(rows[..|rows| - 1]), rows[|rows| - 1];
      if last.bundleId in m then m else m[last.bundleId := last.lens]
  }

  lemma {:induction false} FirstWinsKeys(rows: seq<ReplicaRow>, b: HashId)
    ensures b in FirstWins(rows) <==> exists i :: 0 <= i < |rows| && rows[i].bundleId == b
  {
    if rows != [] {
      var init := rows[..|rows| - 1];
      FirstWinsKeys(init, b);
      if b in FirstWins(init) {
        var i :| 0 <= i < |init| && init[i].bundleId == b;
        assert rows[i].bundleId == b;
      }
      if i :| 0 <= i < |rows| && rows[i].bundleId == b {
        if i < |init| { assert init[i].bundleId == b; }
      }
    }
  }

  lemma {:induction false} FirstWinsRow(rows: seq<ReplicaRow>, b: HashId, i: nat)
    requires i < |rows| && rows[i].bundleId == b && forall j :: 0 <= j < i ==> rows[j].bundleId != b
    ensures b in FirstWins(rows) && FirstWins(rows)[b] == rows[i].lens
  {
    var init := rows[..|rows| - 1];
    FirstWinsKeys(init, b);
    if i < |init| { FirstWinsRow(init, b, i); }
  }

  /** The `entry(..).or_insert(..)` loop over the looked-up rows: the map it builds holds
      the lengths of each bundle's lowest replica. */
  method ReadyBundles(t: Table, ids: seq<HashId>) returns (ready: map<HashId, Lens>)
    ensures forall b :: b in ready <==> b in ids && HasReplica(t, b)
    ensures forall b :: b in ready ==> LensOf(t, b) == Some(ready[b])
  {
    var rows := GetBundleReplicasById(t, ids);
    ready := map[];
    for i := 0 to |rows|
      invariant ready == FirstWins(rows[..i])
    {
      assert rows[..i + 1][..i] == rows[..i];
      var b := rows[i].bundleId;
      if b !in ready { ready := ready[b := rows[i].lens]; }
    }
    assert rows[..|rows|] == rows;
    ReadyIsLowest(t, ids, rows);
  }

  lemma {:induction false} ReadyIsLowest(t: Table, ids: seq<HashId>, rows: seq<ReplicaRow>)
    requires forall i :: 0 <= i < |rows| ==> KeyOf(rows[i]) in t && rows[i].bundleId in ids
    requires forall b :: b in ids && HasReplica(t, b) ==>
      FirstRow(rows, b, ReplicaRow(b, LowestVolume(t, b), t[(b, LowestVolume(t, b))]))
    ensures forall b :: b in FirstWins(rows) <==> b in ids && HasReplica(t, b)
    ensures forall b :: b in FirstWins(rows) ==> LensOf(t, b) == Some(FirstWins(rows)[b])
  {
    forall b
      ensures b in FirstWins(rows) <==> b in ids && HasReplica(t, b)
      ensures b in FirstWins(rows) ==> LensOf(t, b) == Some(FirstWins(rows)[b])
    {
      FirstWinsKeys(rows, b);
      if b in FirstWins(rows) {
        var i :| 0 <= i < |rows| && rows[i].bundleId == b;
        assert (b, rows[i].volumeId) in t;
      }
      if b in ids && HasReplica(t, b) {
        var row := ReplicaRow(b, LowestVolume(t, b), t[(b, LowestVolume(t, b))]);
        assert FirstRow(rows, b, row);
        var i :| 0 <= i < |rows| && rows[i] == row && row.bundleId == b && forall j :: 0 <= j < i ==> rows[j].bundleId != b;
        FirstWinsRow(rows, b, i);
      }
    }
  }
}
