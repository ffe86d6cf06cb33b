/** The read plan of a file: for each of its bundles, the lengths and the online replicas. */
module ReadPlan {
  import opened Core
  import opened Replicas

  /** Where a replica can be read: a storage and a volume of it. */
  datatype Location = Location(storageId: nat, volumeId: nat)

  datatype ReadTarget = ReadTarget(lens: Lens, replicas: seq<Location>)

  /** The online rows of one bundle among `rows`, in order. */
  function OnlineRows(rows: seq<ReplicaRow>, online: map<nat, nat>, b: HashId): (r: seq<ReplicaRow>)
    ensures forall i :: 0 <= i < |r| ==> r[i].bundleId == b && r[i].volumeId in online
  {
    if rows == [] then []
    else
      var init, last := OnlineRows(rows[..|rows| - 1], online, b), rows[|rows| - 1];
      if last.bundleId == b && last.volumeId in online then init + [last] else init
  }

  function Locations(rows: seq<ReplicaRow>, online: map<nat, nat>): (r: seq<Location>)
    requires forall i :: 0 <= i < |rows| ==> rows[i].volumeId in online
    ensures |r| == |rows|
  {
    seq(|rows|, i requires 0 <= i < |rows| => Location(online[rows[i].volumeId], rows[i].volumeId))
  }

  /** What the map of targets holds after `rows`. */
  ghost predicate Collected(m: map<HashId, ReadTarget>, rows: seq<ReplicaRow>, online: map<nat, nat>) {
    forall b: HashId {:trigger OnlineRows(rows, online, b)} :: CollectedFor(m, OnlineRows(rows, online, b), online, b)
  }

  ghost predicate CollectedFor(m: map<HashId, ReadTarget>, mine: seq<ReplicaRow>, online: map<nat, nat>, b: HashId)
    requires forall i :: 0 <= i < |mine| ==> mine[i].volumeId in online
  {
    if mine == [] then b !in m else b in m && m[b] == ReadTarget(mine[0].lens, Locations(mine, online))
  }

  /** The loop that fills the map: the first online row gives the lengths, each adds a location. */
  method CollectTargets(rows: seq<ReplicaRow>, online: map<nat, nat>) returns (m: map<HashId, ReadTarget>)
    ensures Collected(m, rows, online)
  {
    m := map[];
    for i := 0 to |rows|
      invariant Collected(m, rows[..i], online)
    {
      var row := rows[i];
      ghost var before := m;
      if row.volumeId in online {
        if row.bundleId !in m { m := m[row.bundleId := ReadTarget(row.lens, [])]; }
        var target := m[row.bundleId];
        m := m[row.bundleId := target.(replicas := target.replicas + [Location(online[row.volumeId], row.volumeId)])];
      }
      ghost var upTo := rows[..i + 1];
      forall b: HashId ensures CollectedFor(m, OnlineRows(upTo, online, b), online, b) {
        CollectedStep(before, m, rows, i, online, b);
      }
    }
    assert rows[..|rows|] == rows;
  }

  lemma {:induction false} CollectedStep(before: map<HashId, ReadTarget>, m: map<HashId, ReadTarget>, rows: seq<ReplicaRow>, i: nat,
                                         online: map<nat, nat>, b: HashId)
    requires i < |rows| && Collected(before, rows[..i], online)
    requires var row := rows[i];
      if row.volumeId !in online then m == before
      else
        var target := if row.bundleId in before then before[row.bundleId] else ReadTarget(row.lens, []);
        m == before[row.bundleId := target.(replicas := target.replicas + [Location(online[row.volumeId], row.volumeId)])]
    ensures CollectedFor(m, OnlineRows(rows[..i + 1], online, b), online, b)
  {
    assert rows[..i + 1][..i] == rows[..i];
    var mine := OnlineRows(rows[..i], online, b);
    assert CollectedFor(before, mine, online, b);
    if rows[i].bundleId == b && rows[i].volumeId in online {
      assert Locations(mine + [rows[i]], online) == Locations(mine, online) + [Location(online[rows[i].volumeId], rows[i].volumeId)];
    }
  }

  /** A bundle's target lists exactly its online replicas, in volume order, and its lengths
      are those of the lowest online volume. */
  ghost predicate TargetOk(t: Table, online: map<nat, nat>, b: HashId, target: ReadTarget) {
    && |target.replicas| > 0
    && (forall i, j :: 0 <= i < j < |target.replicas| ==> target.replicas[i].volumeId < target.replicas[j].volumeId)
    && (forall i :: 0 <= i < |target.replicas| ==> LocationOk(t, online, b, target.replicas[i]))
    && (forall v: nat :: (b, v) in t && v in online ==> Listed(target.replicas, v))
    && target.lens == t[(b, target.replicas[0].volumeId)]
  }

  ghost predicate LocationOk(t: Table, online: map<nat, nat>, b: HashId, l: Location) {
    (b, l.volumeId) in t && l.volumeId in online && l.storageId == online[l.volumeId]
  }

  ghost predicate Listed(replicas: seq<Location>, v: nat) { exists i :: 0 <= i < |replicas| && replicas[i].volumeId == v }

  ghost predicate Readable(t: Table, online: map<nat, nat>, b: HashId) { exists v: nat :: (b, v) in t && v in online }

  /** An online row is in its bundle's list, and the list keeps the order of the rows. */
  lemma {:induction false} OnlineRowsHas(rows: seq<ReplicaRow>, online: map<nat, nat>, b: HashId, k: nat) returns (i: nat)
    requires k < |rows| && rows[k].bundleId == b && rows[k].volumeId in online
    ensures i < |OnlineRows(rows, online, b)| && OnlineRows(rows, online, b)[i] == rows[k]
  {
    if k == |rows| - 1 {
      i := |OnlineRows(rows[..k], online, b)|;
    } else {
      i := OnlineRowsHas(rows[..|rows| - 1], online, b, k);
    }
  }

  lemma {:induction false} OnlineRowsFrom(rows: seq<ReplicaRow>, online: map<nat, nat>, b: HashId, i: nat) returns (k: nat)
    requires i < |OnlineRows(rows, online, b)|
    ensures k < |rows| && rows[k] == OnlineRows(rows, online, b)[i]
  {
    var init := OnlineRows(rows[..|rows| - 1], online, b);
    if i < |init| {
      k := OnlineRowsFrom(rows[..|rows| - 1], online, b, i);
    } else {
      k := |rows| - 1;
    }
  }

  lemma {:induction false} OnlineRowsAscend(rows: seq<ReplicaRow>, online: map<nat, nat>, b: HashId, i: nat, j: nat)
    requires Ascending(rows) && i < j < |OnlineRows(rows, online, b)|
    ensures OnlineRows(rows, online, b)[i].volumeId < OnlineRows(rows, online, b)[j].volumeId
  {
    var init := rows[..|rows| - 1];
    if j < |OnlineRows(init, online, b)| {
      OnlineRowsAscend(init, online, b, i, j);
    } else {
      var k := OnlineRowsFrom(init, online, b, i);
      assert rows[k].bundleId == rows[|rows| - 1].bundleId;
    }
  }

  /** What the lookup of the file's bundles returned. */
  ghost predicate Lookup(t: Table, ids: seq<HashId>, rows: seq<ReplicaRow>) {
    && Ascending(rows)
    && (forall i :: 0 <= i < |rows| ==> KeyOf(rows[i]) in t && rows[i].lens == t[KeyOf(rows[i])])
    && (forall k :: k in t && k.0 in ids ==> Has(rows, k))
  }

  lemma {:induction false} TargetsAreOk(t: Table, ids: seq<HashId>, rows: seq<ReplicaRow>, online: map<nat, nat>,
                                        m: map<HashId, ReadTarget>, b: HashId)
    requires Lookup(t, ids, rows) && Collected(m, rows, online) && b in ids
    ensures if Readable(t, online, b) then b in m && TargetOk(t, online, b, m[b]) else b !in m
  {
    var mine := OnlineRows(rows, online, b);
    assert CollectedFor(m, mine, online, b);
    forall v: nat | (b, v) in t && v in online ensures mine != [] && Listed(Locations(mine, online), v) {
      OnlineIsListed(t, ids, rows, online, b, v);
    }
    if mine != [] {
      MineOk(t, ids, rows, online, b);
      assert (b, mine[0].volumeId) in t && mine[0].volumeId in online;
    }
  }

  lemma {:induction false} OnlineIsListed(t: Table, ids: seq<HashId>, rows: seq<ReplicaRow>, online: map<nat, nat>, b: HashId, v: nat)
    requires Lookup(t, ids, rows) && b in ids && (b, v) in t && v in online
    ensures Listed(Locations(OnlineRows(rows, online, b), online), v)
  {
    assert Has(rows, (b, v));
    var k :| 0 <= k < |rows| && KeyOf(rows[k]) == (b, v);
    var i := OnlineRowsHas(rows, online, b, k);
    assert Locations(OnlineRows(rows, online, b), online)[i].volumeId == v;
  }

  /** The rows of one bundle: in the table, in volume order. */
  ghost predicate RowsInOrder(t: Table, b: HashId, mine: seq<ReplicaRow>) {
    && (forall i :: 0 <= i < |mine| ==> (b, mine[i].volumeId) in t && mine[i].lens == t[(b, mine[i].volumeId)])
    && (forall i, j :: 0 <= i < j < |mine| ==> mine[i].volumeId < mine[j].volumeId)
  }

  lemma {:induction false} MineOk(t: Table, ids: seq<HashId>, rows: seq<ReplicaRow>, online: map<nat, nat>, b: HashId)
    requires Lookup(t, ids, rows)
    ensures RowsInOrder(t, b, OnlineRows(rows, online, b))
  {
    var mine := OnlineRows(rows, online, b);
    forall i | 0 <= i < |mine| ensures (b, mine[i].volumeId) in t && mine[i].lens == t[(b, mine[i].volumeId)] {
      var k := OnlineRowsFrom(rows, online, b, i);
      assert KeyOf(rows[k]) == (b, mine[i].volumeId);
    }
    forall i, j | 0 <= i < j < |mine| ensures mine[i].volumeId < mine[j].volumeId {
      OnlineRowsAscend(rows, online, b, i, j);
    }
  }

  /** The ids without repetition, in some order. */
  method UniqueIds(ids: seq<HashId>) returns (unique: seq<HashId>)
    ensures Different(unique) && forall b :: b in unique <==> b in ids
  {
    unique := [];
    for i := 0 to |ids|
      invariant Different(unique) && forall b :: b in unique <==> b in ids[..i]
    {
      if ids[i] !in unique { unique := unique + [ids[i]]; }
      assert ids[..i + 1] == ids[..i] + [ids[i]];
    }
    assert ids[..|ids|] == ids;
  }

  /** The targets of a file's bundles: a bundle has one exactly when some replica is online. */
  method TargetsFor(t: Table, ids: seq<HashId>, online: map<nat, nat>) returns (m: map<HashId, ReadTarget>)
    ensures forall b :: b in ids ==> if Readable(t, online, b) then b in m && TargetOk(t, online, b, m[b]) else b !in m
  {
    var unique := UniqueIds(ids);
    var rows := GetBundleReplicasById(t, unique);
    m := CollectTargets(rows, online);
    forall b | b in ids ensures if Readable(t, online, b) then b in m && TargetOk(t, online, b, m[b]) else b !in m {
      TargetsAreOk(t, unique, rows, online, m, b);
    }
  }
}
