/** `VolumeDb` and `Volume`: the tables and data files of a volume, updated in place. Lock
    regions are specified by the functions the state machines of VolumeModel and Outbox
    are made of. */
module VolumeStore {
  import opened Core
  import opened VolumeModel
  import opened VolumeBytes
  import Replicas
  import Outbox

  /** Sizes beyond the signed range cannot be stored when a volume is created. */
  type VolumeSize = n: nat | n <= I64_MAX

  class VolumeDb {
    var volumeId: nat
    const maxBytes: VolumeSize
    var activeVolumeOffset: nat
    var chunks: map<HashId, ChunkMeta>
    var bundleChunks: map<HashId, seq<BundleChunkRef>>
    var records: seq<Outbox.Record>
    var nextEventId: nat

    constructor (maxBytes: VolumeSize)
      ensures this.maxBytes == maxBytes && activeVolumeOffset == 0 && chunks == map[] && bundleChunks == map[]
      ensures OutboxView() == Outbox.Volume(0, map[], [], 1)
    {
      this.maxBytes := maxBytes;
      volumeId, activeVolumeOffset, chunks, bundleChunks, records, nextEventId := 0, 0, map[], map[], [], 1;
    }

    /** The volume as the outbox protocol sees it. */
    ghost function OutboxView(): Outbox.Volume
      reads this
    {
      Outbox.Volume(volumeId, BundleLens(bundleChunks, chunks), records, nextEventId)
    }

    /** The tables are those of a store of the state machine in good order. */
    ghost predicate Mirrors(v: Store)
      reads this
    {
      SpaceInv(v) && RowInv(v) && v.chunks == chunks && v.bundles == bundleChunks
    }

    /** `INSERT .. ON CONFLICT(chunk_id) DO NOTHING`. */
    method InsertChunk(meta: ChunkMeta) returns (r: Result<()>)
      modifies this`chunks
      ensures r == if Storable(meta) then Ok(()) else Err(IntegerConversion)
      ensures r.Ok? <==> meta.volumeOffset <= 0x7FFF_FFFF_FFFF_FFFF && meta.rawLen <= 0x7FFF_FFFF_FFFF_FFFF && meta.compressedLen <= 0x7FFF_FFFF_FFFF_FFFF
      ensures chunks == if r.Err? || meta.chunkId in old(chunks) then old(chunks) else old(chunks)[meta.chunkId := meta]
    {
      if meta.volumeOffset > I64_MAX || meta.rawLen > I64_MAX || meta.compressedLen > I64_MAX { return Err(IntegerConversion); }
      if meta.chunkId !in chunks {
        chunks := chunks[meta.chunkId := meta];
      }
      return Ok(());
    }

    method ReserveActiveVolumeOffset(offset: nat) returns (r: Result<()>)
      modifies this`activeVolumeOffset
      ensures r == if offset <= I64_MAX then Ok(()) else Err(IntegerConversion)
      ensures activeVolumeOffset == if r.Ok? && offset > old(activeVolumeOffset) then offset else old(activeVolumeOffset)
    {
      if offset > I64_MAX { return Err(IntegerConversion); }
      if activeVolumeOffset < offset { activeVolumeOffset := offset; }
      return Ok(());
    }

    /** Deleting a chunk row is refused while a bundle refers to it. */
    method DeleteChunk(id: HashId) returns (r: Result<()>)
      modifies this`chunks
      ensures r.Err? <==> id in old(chunks) && Referenced(bundleChunks, id)
      ensures chunks == if r.Ok? then old(chunks) - {id} else old(chunks)
    {
      if id in chunks && exists b :: b in bundleChunks && id in ChunkIds(bundleChunks[b]) {
        return Err(Sqlite);
      }
      chunks := chunks - {id};
      return Ok(());
    }

    /** The rows of the given ids, collected into a map. */
    method LoadChunksByIds(ids: seq<HashId>) returns (found: map<HashId, ChunkMeta>)
      ensures forall id :: id in found <==> id in ids && id in chunks
      ensures forall id :: id in found ==> found[id] == chunks[id]
    {
      found := map[];
      for i := 0 to |ids|
        invariant forall id :: id in found <==> id in ids[..i] && id in chunks
        invariant forall id :: id in found ==> found[id] == chunks[id]
      {
        if ids[i] in chunks { found := found[ids[i] := chunks[ids[i]]]; }
      }
      assert ids[..|ids|] == ids;
    }

    /** Rewriting the rows of a bundle and its change record in one transaction. A row that
        refers to a missing chunk makes the whole transaction fail. */
    method CommitBundle(id: HashId, refs: seq<BundleChunkRef>) returns (r: Result<BundleMeta>)
      requires refs != [] && Contiguous(refs)
      modifies this`bundleChunks, this`records, this`nextEventId
      ensures !AllIndexed(refs, chunks) ==> r == Err(Sqlite) && unchanged(this)
      ensures AllIndexed(refs, chunks) ==>
        && bundleChunks == old(bundleChunks)[id := refs]
        && records == Outbox.Upsert(old(records), old(nextEventId), id, Replicas.Stored)
        && nextEventId == Outbox.NextEvent(old(records), old(nextEventId), id)
        && r == LoadBundle(bundleChunks, chunks, id)
        && Noted(old(records), old(nextEventId), id, Replicas.Stored, records, nextEventId)
    {
      var rows: seq<BundleChunkRef> := [];
      for i := 0 to |refs|
        invariant rows == refs[..i]
        invariant forall j :: 0 <= j < i ==> refs[j].chunkId in chunks
      {
        if refs[i].chunkId !in chunks { return Err(Sqlite); }
        rows := rows + [refs[i]];
      }
      assert refs[..|refs|] == refs;
      bundleChunks := bundleChunks[id := rows];
      var next := Outbox.NextEvent(records, nextEventId, id);
      records := Outbox.Upsert(records, nextEventId, id, Replicas.Stored);
      nextEventId := next;
      r := LoadBundle(bundleChunks, chunks, id);
    }

    method DeleteBundle(id: HashId)
      modifies this`bundleChunks, this`records, this`nextEventId
      ensures OutboxView() == Outbox.Drop(old(OutboxView()), id)
      ensures bundleChunks == old(bundleChunks) - {id}
      ensures Noted(old(records), old(nextEventId), id, Replicas.Deleted, records, nextEventId)
    {
      bundleChunks := bundleChunks - {id};
      var next := Outbox.NextEvent(records, nextEventId, id);
      records := Outbox.Upsert(records, nextEventId, id, Replicas.Deleted);
      nextEventId := next;
    }

    /** The events of the first `limit` records. The query fails as a whole when a sum in it
        exceeds a signed 64-bit integer. */
    method GetBundleChangeRecords(limit: nat) returns (r: Result<seq<Replicas.Event>>)
      ensures r.Err? <==> exists i :: 0 <= i < limit && i < |records| && SumOverflows(bundleChunks, chunks, records[i].bundleId)
      ensures r.Ok? ==> forall v, j :: Mirrors(v) && 0 <= j < |r.value| && r.value[j].bundleId in v.bundles ==>
        RawBehind(v, v.bundles[r.value[j].bundleId]) <= 0x7FFF_FFFF_FFFF_FFFF
        && |BytesBehind(v, v.bundles[r.value[j].bundleId])| <= 0x7FFF_FFFF_FFFF_FFFF
      ensures r.Ok? ==> r.value == Outbox.ReadEvents(OutboxView(), limit)
      ensures r.Ok? ==> |r.value| == (if limit < |records| then limit else |records|)
      ensures r.Ok? ==> forall j :: 0 <= j < |r.value| ==>
        && r.value[j].volumeId == volumeId
        && r.value[j].eventId == records[j].eventId && r.value[j].kind == records[j].kind && r.value[j].bundleId == records[j].bundleId
      ensures r.Ok? ==> forall j :: 0 <= j < |r.value| && r.value[j].bundleId !in bundleChunks ==> r.value[j].lens == Replicas.Lens(0, 0)
      ensures r.Ok? ==> forall v, j :: Mirrors(v) && 0 <= j < |r.value| && r.value[j].bundleId in v.bundles ==> Counted(v, r.value[j])
    {
      var events: seq<Replicas.Event> := [];
      var n := if limit < |records| then limit else |records|;
      for i := 0 to n
        invariant |events| == i
        invariant forall j :: 0 <= j < i ==> events[j] == Outbox.EventOf(OutboxView(), records[j])
        invariant forall j :: 0 <= j < i ==> !SumOverflows(bundleChunks, chunks, records[j].bundleId)
      {
        var b := records[i].bundleId;
        if SumOverflows(bundleChunks, chunks, b) { return Err(Sqlite); }
        var refs := if b in bundleChunks then bundleChunks[b] else [];
        events := events + [Replicas.Event(records[i].eventId, records[i].kind, volumeId, b,
                                           Replicas.Lens(RawSum(refs, chunks), CompressedSum(refs, chunks)))];
      }
      forall v, j | Mirrors(v) && 0 <= j < |events| && events[j].bundleId in v.bundles ensures Counted(v, events[j]) {
        assert events[j] == Outbox.EventOf(OutboxView(), records[j]);
        SumsCount(v, v.bundles[events[j].bundleId]);
      }
      return Ok(events);
    }

    /** Drops exactly the records up to the id and keeps the order of the others. */
    method RemoveBundleChangeRecords(maxEventId: nat)
      modifies this`records
      ensures forall r :: r in records <==> r in old(records) && r.eventId > maxEventId
      ensures Outbox.Rising(old(records)) ==> Outbox.Rising(records)
      ensures records == Outbox.RemoveUpTo(old(records), maxEventId)
    {
      ghost var all := records;
      var kept: seq<Outbox.Record> := [];
      for i := 0 to |records|
        invariant records == all && kept == Outbox.RemoveUpTo(all[..i], maxEventId)
      {
        assert all[..i + 1][..i] == all[..i];
        if records[i].eventId > maxEventId { kept := kept + [records[i]]; }
      }
      assert all[..|all|] == all;
      records := kept;
      Outbox.RemoveUpToKeeps(all, maxEventId);
    }
  }

  /** The records after a change of the bundle: its record takes the new kind and keeps its event
      id, or a record with the next event id is added at the end. */
  ghost predicate Noted(before: seq<Outbox.Record>, next: nat, id: HashId, kind: Replicas.EventKind, after: seq<Outbox.Record>, next1: nat) {
    if exists i :: 0 <= i < |before| && before[i].bundleId == id then
      && next1 == next && |after| == |before|
      && forall i :: 0 <= i < |before| ==>
           after[i] == if before[i].bundleId == id then Outbox.Record(before[i].eventId, kind, id) else before[i]
    else next1 == next + 1 && after == before + [Outbox.Record(next, kind, id)]
  }

  /** The event's lengths count what is behind its bundle. */
  ghost predicate Counted(v: Store, e: Replicas.Event)
    requires e.bundleId in v.bundles
  {
    e.lens == Replicas.Lens(RawBehind(v, v.bundles[e.bundleId]), |BytesBehind(v, v.bundles[e.bundleId])|)
  }

  /** The answer names the bundle, counts what is behind it, and says how many chunks it has. */
  ghost predicate Describes(v: Store, meta: BundleMeta) {
    && meta.bundleId in v.bundles
    && var refs := v.bundles[meta.bundleId];
    meta.rawLen == RawBehind(v, refs) && meta.compressedLen == |BytesBehind(v, refs)| && meta.chunkCount == |refs|
  }

  ghost function BundleLens(bundles: map<HashId, seq<BundleChunkRef>>, chunks: map<HashId, ChunkMeta>): map<HashId, Replicas.Lens> {
    map b | b in bundles :: Replicas.Lens(RawSum(bundles[b], chunks), CompressedSum(bundles[b], chunks))
  }

  predicate SumOverflows(bundles: map<HashId, seq<BundleChunkRef>>, chunks: map<HashId, ChunkMeta>, b: HashId) {
    b in bundles && (RawSum(bundles[b], chunks) > I64_MAX || CompressedSum(bundles[b], chunks) > I64_MAX)
  }

  predicate ExceedsU64(refs: seq<BundleChunkRef>, chunks: map<HashId, ChunkMeta>) {
    RawSum(refs, chunks) > U64_MAX || CompressedSum(refs, chunks) > U64_MAX
  }

  lemma {:induction false} SumsGrow(refs: seq<BundleChunkRef>, chunks: map<HashId, ChunkMeta>, i: nat)
    requires i <= |refs|
    ensures RawSum(refs[..i], chunks) <= RawSum(refs, chunks)
    ensures CompressedSum(refs[..i], chunks) <= CompressedSum(refs, chunks)
  {
    if i < |refs| {
      assert refs[..|refs| - 1][..i] == refs[..i];
      SumsGrow(refs[..|refs| - 1], chunks, i);
    } else {
      assert refs[..i] == refs;
    }
  }

  lemma {:induction false} LoadedDescribes(db: VolumeDb, id: HashId, meta: BundleMeta)
    requires LoadBundle(db.bundleChunks, db.chunks, id) == Ok(meta)
    ensures meta.bundleId == id && forall v :: db.Mirrors(v) ==> Describes(v, meta)
  {
    forall v | db.Mirrors(v) ensures Describes(v, meta) { SumsCount(v, v.bundles[id]); }
  }

  /** How opening a data file for writing ends. */
  datatype Opening = Opened | OpenFails | PreallocationFails(reached: nat)

  function LengthOf(lengths: map<nat, nat>, index: nat): nat { if index in lengths then lengths[index] else 0 }

  predicate Opens(lengths: map<nat, nat>, index: nat, opening: Opening) {
    opening.Opened? || (opening.PreallocationFails? && LengthOf(lengths, index) >= DATA_FILE_SIZE)
  }

  /** A file that opens has its full size; otherwise its length does not shrink. */
  function AfterOpening(lengths: map<nat, nat>, index: nat, opening: Opening): map<nat, nat> {
    var len := LengthOf(lengths, index);
    if opening.OpenFails? then lengths
    else if len >= DATA_FILE_SIZE then lengths[index := len]
    else if opening.Opened? then lengths[index := DATA_FILE_SIZE]
    else lengths[index := if len < opening.reached < DATA_FILE_SIZE then opening.reached else len]
  }

  class Volume {
    const db: VolumeDb
    var files: map<Address, byte>
    var lengths: map<nat, nat>
    const hash: seq<HashId> -> HashId

    constructor (db: VolumeDb, hash: seq<HashId> -> HashId)
      ensures this.db == db && this.hash == hash && files == map[] && lengths == map[]
    {
      this.db, this.hash := db, hash;
      files, lengths := map[], map[];
    }

    /** The argument checks of `put_chunk` and its first lock region. */
    method StartPut(id: HashId, rawLen: nat, bytes: seq<byte>, compressedHash: HashId) returns (start: PutStart)
      modifies db`activeVolumeOffset
      ensures start == Rejected(InvalidData) <==> rawLen == 0 || bytes == [] || |bytes| > 4_294_967_296
      ensures start != Rejected(InvalidData) && id in db.chunks ==>
        var row := db.chunks[id];
        && (start == Existing(row) <==> row.rawLen == rawLen && row.compressedLen == |bytes| && row.compressedHash == compressedHash)
        && (start != Existing(row) ==> start == Rejected(HashMismatch(row.volumeOffset)))
      ensures start != Rejected(InvalidData) && id !in db.chunks ==>
        var offset := PlaceChunk(old(db.activeVolumeOffset), |bytes|);
        if offset + |bytes| <= db.maxBytes then start == Reserved(ChunkMeta(id, compressedHash, offset, rawLen, |bytes|))
        else if offset + |bytes| <= U64_MAX then start == Rejected(CapacityExceeded(offset + |bytes|, db.maxBytes))
        else start == Rejected(IntegerConversion)
      ensures start != Rejected(InvalidData) ==>
        start == VolumeModel.StartPut(db.maxBytes, old(db.activeVolumeOffset), db.chunks, id, rawLen, |bytes|, compressedHash)
      ensures start.Reserved? ==>
        db.activeVolumeOffset == (var next := start.meta.volumeOffset + |bytes|;
                                  if next > old(db.activeVolumeOffset) then next else old(db.activeVolumeOffset))
      ensures !start.Reserved? ==> db.activeVolumeOffset == old(db.activeVolumeOffset)
    {
      if rawLen == 0 { return Rejected(InvalidData); }
      if bytes == [] { return Rejected(InvalidData); }
      if |bytes| > DATA_FILE_SIZE { return Rejected(InvalidData); }
      if id in db.chunks {
        var existing := db.chunks[id];
        if existing.rawLen != rawLen || existing.compressedLen != |bytes| || existing.compressedHash != compressedHash {
          return Rejected(HashMismatch(existing.volumeOffset));
        }
        return Existing(existing);
      }
      var volumeOffset := db.activeVolumeOffset;
      if volumeOffset % DATA_FILE_SIZE + |bytes| > DATA_FILE_SIZE {
        volumeOffset := (volumeOffset / DATA_FILE_SIZE + 1) * DATA_FILE_SIZE;
      }
      var next := volumeOffset + |bytes|;
      if next > U64_MAX { return Rejected(IntegerConversion); }
      if next > db.maxBytes { return Rejected(CapacityExceeded(next, db.maxBytes)); }
      var reserved := db.ReserveActiveVolumeOffset(next);
      start := if reserved.Ok? then Reserved(ChunkMeta(id, compressedHash, volumeOffset, rawLen, |bytes|)) else Rejected(IntegerConversion);
    }

    /** The number of data files, which `open` computes. */
    function DataFiles(): nat
      reads db
    {
      (db.maxBytes + DATA_FILE_SIZE - 1) / DATA_FILE_SIZE
    }

    /** Opens a data file for writing: creates it if need be, and preallocates it unless it
        has its full size already. Either can fail, and a failing preallocation can leave a
        file of any smaller length. */
    method OpenDataFile(index: nat, opening: Opening) returns (ok: bool)
      modifies this`lengths
      ensures ok <==> Opens(old(lengths), index, opening)
      ensures lengths == AfterOpening(old(lengths), index, opening)
      ensures ok ==> index in lengths && lengths[index] >= 4_294_967_296
      ensures opening.Opened? ==> ok
      ensures opening.OpenFails? ==> !ok && lengths == old(lengths)
      ensures opening.PreallocationFails? ==> (ok <==> index in old(lengths) && old(lengths)[index] >= 4_294_967_296)
      ensures index in old(lengths) ==> index in lengths && lengths[index] >= old(lengths)[index]
      ensures forall k :: k != index ==> (k in lengths <==> k in old(lengths)) && (k in lengths ==> lengths[k] == old(lengths)[k])
    {
      if opening.OpenFails? { return false; }
      var len := if index in lengths then lengths[index] else 0;
      lengths := lengths[index := len];
      if len >= DATA_FILE_SIZE { return true; }
      if opening.PreallocationFails? {
        if len < opening.reached < DATA_FILE_SIZE { lengths := lengths[index := opening.reached]; }
        return false;
      }
      lengths := lengths[index := DATA_FILE_SIZE];
      return true;
    }

    /** `write_at`: after opening the data file, the platform call may take any part of what is
        left, so it is repeated until nothing is left; after `failAt` bytes it may also fail,
        and so may the sync at the end. */
    method WriteCompressedBytes(volumeOffset: nat, bytes: seq<byte>, opening: Opening, failAt: Option<nat>, syncs: bool)
      returns (r: Result<()>)
      modifies this`files, this`lengths
      ensures (volumeOffset / DATA_FILE_SIZE) * 4_294_967_296 >= db.maxBytes <==> r == Err(InvalidData)
      ensures volumeOffset / DATA_FILE_SIZE >= DataFiles() <==> r == Err(InvalidData)
      ensures r == Err(InvalidData) ==> lengths == old(lengths)
      ensures r != Err(InvalidData) ==> lengths == AfterOpening(old(lengths), volumeOffset / DATA_FILE_SIZE, opening)
      ensures r == Err(InvalidData) || !Opens(old(lengths), volumeOffset / DATA_FILE_SIZE, opening) ==> r.Err? && files == old(files)
      ensures r.Ok? ==> syncs && Holds(files, volumeOffset, bytes)
      ensures r.Err? ==> r == Err(InvalidData) || !Opens(old(lengths), volumeOffset / DATA_FILE_SIZE, opening) || failAt.Some? || !syncs
      ensures SameOutside(old(files), files, volumeOffset, |bytes|)
    {
      if volumeOffset / DATA_FILE_SIZE >= DataFiles() { return Err(InvalidData); }
      var open := OpenDataFile(volumeOffset / DATA_FILE_SIZE, opening);
      if !open { return Err(Io); }
      r := WriteAt(volumeOffset, bytes, failAt);
      if !syncs { return Err(Io); }
    }

    /** The loop of the platform call. */
    method WriteAt(volumeOffset: nat, bytes: seq<byte>, failAt: Option<nat>) returns (r: Result<()>)
      modifies this`files
      ensures r.Ok? ==> Holds(files, volumeOffset, bytes)
      ensures r.Err? ==> r.error == Io && failAt.Some?
      ensures SameOutside(old(files), files, volumeOffset, |bytes|)
    {
      var done := 0;
      while done < |bytes|
        invariant done <= |bytes| && Holds(files, volumeOffset, bytes[..done])
        invariant SameOutside(old(files), files, volumeOffset, |bytes|)
      {
        if failAt.Some? && done >= failAt.value { return Err(Io); }
        var taken: nat :| 0 < taken <= |bytes| - done;
        var part: map<Address, byte> := map i: nat | done <= i < done + taken :: AddressOf(volumeOffset, i) := bytes[i];
        PartWritten(old(files), files, part, volumeOffset, bytes, done, taken);
        files := files + part;
        done := done + taken;
      }
      assert bytes[..|bytes|] == bytes;
      return Ok(());
    }

    /** The second lock region of `put_chunk`: the first row inserted for a chunk id stays,
        and every put of that id gets that row, unless its own does not fit the columns. */
    method IndexChunk(meta: ChunkMeta) returns (r: Result<ChunkMeta>)
      modifies db`chunks
      ensures r.Err? <==> !Storable(meta)
      ensures r.Err? ==> r.error == IntegerConversion && db.chunks == old(db.chunks)
      ensures r.Ok? ==> meta.chunkId in db.chunks && r.value == db.chunks[meta.chunkId]
      ensures r.Ok? ==> db.chunks == if meta.chunkId in old(db.chunks) then old(db.chunks) else old(db.chunks)[meta.chunkId := meta]
    {
      var inserted := db.InsertChunk(meta);
      if inserted.Err? { return Err(inserted.error); }
      return Ok(db.chunks[meta.chunkId]);
    }

    /** What a position of an existing data file reads as: zero where nothing was written. */
    function ByteAt(a: Address): byte
      reads this
    {
      if a in files then files[a] else 0
    }

    /** The extent lies within the length of an existing data file. */
    predicate Readable(volumeOffset: nat, len: nat)
      reads this, db
    {
      && volumeOffset / DATA_FILE_SIZE < DataFiles() && volumeOffset / DATA_FILE_SIZE in lengths
      && volumeOffset % DATA_FILE_SIZE + len <= lengths[volumeOffset / DATA_FILE_SIZE]
    }

    /** `read_at`: does not create the file. It fails only if the call does, if there is no
        such file, or beyond its end, which is the full size once it has been written to. */
    method ReadCompressedBytes(volumeOffset: nat, len: nat, fails: bool) returns (r: Result<seq<byte>>)
      ensures r == Err(InvalidData) <==> volumeOffset / DATA_FILE_SIZE >= DataFiles()
      ensures r.Ok? <==> Readable(volumeOffset, len) && !fails
      ensures r.Ok? ==> var index, offset := volumeOffset / 4_294_967_296, volumeOffset % 4_294_967_296;
        && index in lengths && offset + len <= lengths[index] && |r.value| == len
        && forall i: nat :: i < len ==> r.value[i] == if (index, offset + i) in files then files[(index, offset + i)] else 0
      ensures r == Err(Io) ==> var index, offset := volumeOffset / 4_294_967_296, volumeOffset % 4_294_967_296;
        fails || index !in lengths || offset + len > lengths[index]
      ensures r.Err? ==> r.error == Io || r.error == InvalidData
    {
      var index := volumeOffset / DATA_FILE_SIZE;
      if index >= DataFiles() { return Err(InvalidData); }
      if index !in lengths || fails || volumeOffset % DATA_FILE_SIZE + len > lengths[index] { return Err(Io); }
      var bytes: seq<byte> := [];
      while |bytes| < len
        invariant |bytes| <= len
        invariant forall i: nat :: i < |bytes| ==> bytes[i] == ByteAt(AddressOf(volumeOffset, i))
      {
        bytes := bytes + [ByteAt(AddressOf(volumeOffset, |bytes|))];
      }
      return Ok(bytes);
    }

    /** `commit_bundle`: a bundle already stored is returned as it is, a new one is stored
        only if the list is contiguous, hashes to its id and names indexed chunks. */
    method CommitBundle(id: HashId, refs: seq<BundleChunkRef>) returns (r: Result<BundleMeta>)
      modifies db`bundleChunks, db`records, db`nextEventId
      ensures r == Err(InvalidData) <==> refs == [] || (exists i :: 0 <= i < |refs| && refs[i].chunkIndex != i) || hash(ChunkIds(refs)) != id
      ensures r == Err(InvalidData) ==> unchanged(db)
      ensures r.Ok? ==> r.value.bundleId == id && forall v :: db.Mirrors(v) ==> Describes(v, r.value)
      ensures CheckBundle(id, refs, hash).Some? <==> r == Err(InvalidData)
      ensures CheckBundle(id, refs, hash).None? && id in old(db.bundleChunks) && old(db.bundleChunks)[id] != [] ==>
        unchanged(db) && r == LoadBundle(db.bundleChunks, db.chunks, id)
      ensures CheckBundle(id, refs, hash).None? && (id !in old(db.bundleChunks) || old(db.bundleChunks)[id] == []) && !AllIndexed(refs, db.chunks) ==>
        unchanged(db) && r.Err? && r.error.ChunkNotFound? && r.error.chunkId in ChunkIds(refs) && r.error.chunkId !in db.chunks
      ensures CheckBundle(id, refs, hash).None? && (id !in old(db.bundleChunks) || old(db.bundleChunks)[id] == []) && AllIndexed(refs, db.chunks) ==>
        && db.bundleChunks == old(db.bundleChunks)[id := refs]
        && db.records == Outbox.Upsert(old(db.records), old(db.nextEventId), id, Replicas.Stored)
        && db.nextEventId == Outbox.NextEvent(old(db.records), old(db.nextEventId), id)
        && Noted(old(db.records), old(db.nextEventId), id, Replicas.Stored, db.records, db.nextEventId)
        && r == LoadBundle(db.bundleChunks, db.chunks, id)
      ensures CheckBundle(id, refs, hash).None? && id !in old(db.bundleChunks) && AllIndexed(refs, db.chunks) ==>
        && db.bundleChunks == CommitTable(old(db.bundleChunks), db.chunks, id, refs, hash)
        && db.OutboxView() == Outbox.Store(old(db.OutboxView()), id, Replicas.Lens(RawSum(refs, db.chunks), CompressedSum(refs, db.chunks)))
    {
      if refs == [] { return Err(InvalidData); }
      for i := 0 to |refs|
        invariant forall j :: 0 <= j < i ==> refs[j].chunkIndex == j
      {
        if refs[i].chunkIndex != i { return Err(InvalidData); }
      }
      if hash(ChunkIds(refs)) != id { return Err(InvalidData); }
      r := CommitChecked(id, refs);
    }

    /** The rest of `commit_bundle`, for a list that passed its checks. */
    method CommitChecked(id: HashId, refs: seq<BundleChunkRef>) returns (r: Result<BundleMeta>)
      requires CheckBundle(id, refs, hash).None?
      modifies db`bundleChunks, db`records, db`nextEventId
      ensures r != Err(InvalidData)
      ensures r.Ok? ==> r.value.bundleId == id && forall v :: db.Mirrors(v) ==> Describes(v, r.value)
      ensures id in old(db.bundleChunks) && old(db.bundleChunks)[id] != [] ==>
        unchanged(db) && r == LoadBundle(db.bundleChunks, db.chunks, id)
      ensures (id !in old(db.bundleChunks) || old(db.bundleChunks)[id] == []) && !AllIndexed(refs, db.chunks) ==>
        unchanged(db) && r.Err? && r.error.ChunkNotFound? && r.error.chunkId in ChunkIds(refs) && r.error.chunkId !in db.chunks
      ensures (id !in old(db.bundleChunks) || old(db.bundleChunks)[id] == []) && AllIndexed(refs, db.chunks) ==>
        && db.bundleChunks == old(db.bundleChunks)[id := refs]
        && db.records == Outbox.Upsert(old(db.records), old(db.nextEventId), id, Replicas.Stored)
        && db.nextEventId == Outbox.NextEvent(old(db.records), old(db.nextEventId), id)
        && Noted(old(db.records), old(db.nextEventId), id, Replicas.Stored, db.records, db.nextEventId)
        && r == LoadBundle(db.bundleChunks, db.chunks, id)
    {
      match LoadBundle(db.bundleChunks, db.chunks, id) {
        case Ok(existing) =>
          LoadedDescribes(db, id, existing);
          return Ok(existing);
        case Err(BundleNotFound(_)) =>
        case Err(e) => return Err(e);
      }
      var found := db.LoadChunksByIds(ChunkIds(refs));
      for i := 0 to |refs|
        invariant forall j :: 0 <= j < i ==> refs[j].chunkId in db.chunks
      {
        assert ChunkIds(refs)[i] == refs[i].chunkId;
        if refs[i].chunkId !in found { return Err(ChunkNotFound(refs[i].chunkId)); }
      }
      r := db.CommitBundle(id, refs);
      if r.Ok? { LoadedDescribes(db, id, r.value); }
    }

    /** The storage node's `has_bundle`: the lengths summed chunk by chunk with overflow
        checks, or None for an unknown bundle. */
    method HasBundle(id: HashId) returns (r: Result<Option<Replicas.Lens>>)
      requires id in db.bundleChunks ==> AllIndexed(db.bundleChunks[id], db.chunks)
      ensures r == Ok(None) <==> id !in db.bundleChunks || db.bundleChunks[id] == []
      ensures r.Ok? && r.value.Some? ==>
        r.value.value == Replicas.Lens(RawSum(db.bundleChunks[id], db.chunks), CompressedSum(db.bundleChunks[id], db.chunks))
      ensures r.Ok? && r.value.Some? ==> forall v :: db.Mirrors(v) ==>
        r.value.value == Replicas.Lens(RawBehind(v, v.bundles[id]), |BytesBehind(v, v.bundles[id])|)
      ensures r.Err? <==> id in db.bundleChunks && ExceedsU64(db.bundleChunks[id], db.chunks)
      ensures r.Ok? <==> id in db.bundleChunks ==>
        RawSum(db.bundleChunks[id], db.chunks) <= 0xFFFF_FFFF_FFFF_FFFF && CompressedSum(db.bundleChunks[id], db.chunks) <= 0xFFFF_FFFF_FFFF_FFFF
      ensures r.Err? ==> r.error == IntegerConversion
    {
      if id !in db.bundleChunks || db.bundleChunks[id] == [] { return Ok(None); }
      var refs := db.bundleChunks[id];
      var raw, compressed := 0, 0;
      for i := 0 to |refs|
        invariant raw == RawSum(refs[..i], db.chunks) && compressed == CompressedSum(refs[..i], db.chunks)
        invariant raw <= U64_MAX && compressed <= U64_MAX
      {
        assert refs[..i + 1][..i] == refs[..i];
        SumsGrow(refs, db.chunks, i + 1);
        var meta := db.chunks[refs[i].chunkId];
        if raw + meta.rawLen > U64_MAX { return Err(IntegerConversion); }
        raw := raw + meta.rawLen;
        if compressed + meta.compressedLen > U64_MAX { return Err(IntegerConversion); }
        compressed := compressed + meta.compressedLen;
      }
      assert refs[..|refs|] == refs;
      forall v | db.Mirrors(v) ensures raw == RawBehind(v, v.bundles[id]) && compressed == |BytesBehind(v, v.bundles[id])| {
        SumsCount(v, refs);
      }
      return Ok(Some(Replicas.Lens(raw, compressed)));
    }
  }

  /** The extent at `offset` holds `bytes`. */
  ghost predicate Holds(files: map<Address, byte>, offset: nat, bytes: seq<byte>) {
    forall i: nat :: i < |bytes| ==> AddressOf(offset, i) in files && files[AddressOf(offset, i)] == bytes[i]
  }

  ghost predicate SameOutside(before: map<Address, byte>, after: map<Address, byte>, offset: nat, len: nat) {
    forall a :: a in before && !InExtent(a, offset, len) ==> a in after && after[a] == before[a]
  }

  lemma {:induction false} PartWritten(first: map<Address, byte>, before: map<Address, byte>, part: map<Address, byte>, offset: nat,
                                       bytes: seq<byte>, done: nat, taken: nat)
    requires done + taken <= |bytes| && Holds(before, offset, bytes[..done]) && SameOutside(first, before, offset, |bytes|)
    requires part == map i: nat | done <= i < done + taken :: AddressOf(offset, i) := bytes[i]
    ensures Holds(before + part, offset, bytes[..done + taken]) && SameOutside(first, before + part, offset, |bytes|)
  {
    forall i: nat | i < done + taken
      ensures AddressOf(offset, i) in before + part && (before + part)[AddressOf(offset, i)] == bytes[..done + taken][i]
    {
      if i < done { assert AddressOf(offset, i) in before && bytes[..done][i] == bytes[i] && AddressOf(offset, i) !in part; }
    }
  }

  predicate InExtent(a: Address, volumeOffset: nat, len: nat) {
    a.0 == volumeOffset / DATA_FILE_SIZE && volumeOffset % DATA_FILE_SIZE <= a.1 < volumeOffset % DATA_FILE_SIZE + len
  }
}
