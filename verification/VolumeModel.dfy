/** The volume store as interleaved steps: chunk puts that reserve an extent under the
    lock, write it outside the lock and index it under the lock again, next to deletes,
    reads, bundle commits and crashes. */
module VolumeModel {
  import opened Core

  newtype byte = x: int | 0 <= x < 256

  /** VOLUME_DEFAULT_DATA_FILE_SIZE: 4 GiB. */
  const DATA_FILE_SIZE: nat := 4 * 1024 * 1024 * 1024

  datatype ChunkMeta = ChunkMeta(chunkId: HashId, compressedHash: HashId, volumeOffset: nat,
                                 rawLen: nat, compressedLen: nat)

  datatype BundleChunkRef = BundleChunkRef(chunkIndex: nat, chunkId: HashId)

  datatype BundleMeta = BundleMeta(bundleId: HashId, rawLen: nat, compressedLen: nat, chunkCount: nat)

  /* ---- Reserving an extent ---- */

  /** Where a chunk goes: at the active offset, or at the next data file if it would not fit. */
  function PlaceChunk(active: nat, len: nat): nat {
    if active % DATA_FILE_SIZE + len > DATA_FILE_SIZE then (active / DATA_FILE_SIZE + 1) * DATA_FILE_SIZE
    else active
  }

  datatype PutStart = Existing(meta: ChunkMeta) | Rejected(error: Fs0Error) | Reserved(meta: ChunkMeta)

  /** The first lock region of `put_chunk`. */
  function StartPut(maxBytes: nat, active: nat, chunks: map<HashId, ChunkMeta>,
                    chunkId: HashId, rawLen: nat, len: nat, hash: HashId): PutStart
  {
    if chunkId in chunks then
      var existing := chunks[chunkId];
      if existing.rawLen != rawLen || existing.compressedLen != len || existing.compressedHash != hash
      then Rejected(HashMismatch(existing.volumeOffset))
      else Existing(existing)
    else
      var offset := PlaceChunk(active, len);
      if offset + len > U64_MAX then Rejected(IntegerConversion)
      else if offset + len > maxBytes then Rejected(CapacityExceeded(offset + len, maxBytes))
      else Reserved(ChunkMeta(chunkId, hash, offset, rawLen, len))
  }

  /** Placement lemma: the extent starts at or after the active offset, stays inside one
      data file, and what it skips is the rest of a data file it did not fit into. */
  lemma {:induction false} Placement(active: nat, len: nat)
    requires 0 < len <= DATA_FILE_SIZE
    ensures var offset := PlaceChunk(active, len);
      && active <= offset
      && offset % DATA_FILE_SIZE + len <= DATA_FILE_SIZE
      && offset - active < len
      && (offset > active ==> offset % DATA_FILE_SIZE == 0 && offset == active - active % DATA_FILE_SIZE + DATA_FILE_SIZE)
  {}

  /** What fits the signed columns of a row; inserting anything else fails. */
  predicate Storable(meta: ChunkMeta) {
    meta.volumeOffset <= I64_MAX && meta.rawLen <= I64_MAX && meta.compressedLen <= I64_MAX
  }

  /* ---- Bundles ---- */

  function RawSum(refs: seq<BundleChunkRef>, chunks: map<HashId, ChunkMeta>): nat {
    if refs == [] then 0
    else RawSum(refs[..|refs| - 1], chunks) + RawLenOf(refs[|refs| - 1].chunkId, chunks)
  }

  function CompressedSum(refs: seq<BundleChunkRef>, chunks: map<HashId, ChunkMeta>): nat {
    if refs == [] then 0
    else CompressedSum(refs[..|refs| - 1], chunks) + CompressedLenOf(refs[|refs| - 1].chunkId, chunks)
  }

  function RawLenOf(id: HashId, chunks: map<HashId, ChunkMeta>): nat { if id in chunks then chunks[id].rawLen else 0 }

  function CompressedLenOf(id: HashId, chunks: map<HashId, ChunkMeta>): nat {
    if id in chunks then chunks[id].compressedLen else 0
  }

  function ChunkIds(refs: seq<BundleChunkRef>): seq<HashId> {
    seq(|refs|, i requires 0 <= i < |refs| => refs[i].chunkId)
  }

  predicate Contiguous(refs: seq<BundleChunkRef>) {
    forall i :: 0 <= i < |refs| ==> refs[i].chunkIndex == i
  }

  predicate AllIndexed(refs: seq<BundleChunkRef>, chunks: map<HashId, ChunkMeta>) {
    forall i :: 0 <= i < |refs| ==> refs[i].chunkId in chunks
  }

  /** `load_bundle`: the joined sums. SQLite's SUM fails beyond a signed 64-bit integer. */
  function LoadBundle(bundles: map<HashId, seq<BundleChunkRef>>, chunks: map<HashId, ChunkMeta>, id: HashId): Result<BundleMeta> {
    if id !in bundles || bundles[id] == [] then Err(BundleNotFound(id))
    else if RawSum(bundles[id], chunks) > I64_MAX || CompressedSum(bundles[id], chunks) > I64_MAX then Err(Sqlite)
    else Ok(BundleMeta(id, RawSum(bundles[id], chunks), CompressedSum(bundles[id], chunks), |bundles[id]|))
  }

  /** The checks of `commit_bundle` that come before it touches the database. */
  function CheckBundle(id: HashId, refs: seq<BundleChunkRef>, hash: seq<HashId> -> HashId): Option<Fs0Error> {
    if refs == [] then Some(InvalidData)
    else if !Contiguous(refs) then Some(InvalidData)
    else if hash(ChunkIds(refs)) != id then Some(InvalidData)
    else None
  }

  /** The bundle table after `commit_bundle`: changed only when the bundle is new, passes
      the checks and all its chunks are indexed. */
  function CommitTable(bundles: map<HashId, seq<BundleChunkRef>>, chunks: map<HashId, ChunkMeta>,
                       id: HashId, refs: seq<BundleChunkRef>, hash: seq<HashId> -> HashId): map<HashId, seq<BundleChunkRef>>
  {
    if CheckBundle(id, refs, hash).Some? || id in bundles || !AllIndexed(refs, chunks) then bundles
    else bundles[id := refs]
  }

  /* ---- The store as a state machine ---- */

  datatype Extent = Extent(offset: nat, len: nat)

  /** A put between its reservation and its end; `extent` numbers its reservation. */
  datatype Put = Put(extent: nat, meta: ChunkMeta, bytes: seq<byte>, written: set<nat>, synced: bool)

  /** A read that has loaded a chunk's metadata, and the bytes it has read so far. */
  datatype Read = Read(extent: nat, meta: ChunkMeta, got: map<nat, byte>)

  datatype Indexed = Indexed(meta: ChunkMeta, bytes: seq<byte>)

  /** Position in the data files: file index and offset in the file. */
  type Address = (nat, nat)

  /** `active`, `chunks` and `bundles` are the database, `disk` the data files, `puts` and
      `readers` the operations under way. The rest is history: `durable` are the positions
      that a finished `write_at` has synced, `extents` all reservations in order, `indexed`
      every row ever put into `chunks` by its reservation, with the bytes of the put that
      indexed it, and `home` the reservation behind each current row. */
  datatype Store = Store(maxBytes: nat, active: nat, chunks: map<HashId, ChunkMeta>,
                         bundles: map<HashId, seq<BundleChunkRef>>, disk: map<Address, byte>,
                         puts: map<nat, Put>, readers: map<nat, Read>,
                         durable: iset<Address>, extents: seq<Extent>, indexed: map<nat, Indexed>, home: map<HashId, nat>)

  ghost function Empty(maxBytes: nat): Store {
    Store(maxBytes, 0, map[], map[], map[], map[], map[], iset{}, [], map[], map[])
  }

  function AddressOf(offset: nat, i: nat): Address {
    (offset / DATA_FILE_SIZE, offset % DATA_FILE_SIZE + i)
  }

  datatype Step =
    | Reserve(p: nat, chunkId: HashId, rawLen: nat, bytes: seq<byte>, hash: HashId)
    | WriteByte(p: nat, i: nat)
    | Sync(p: nat)
    | GiveUp(p: nat)
    | Index(p: nat)
    | Delete(chunkId: HashId)
    | LoadForRead(r: nat, chunkId: HashId)
    | ReadByte(r: nat, i: nat)
    | CommitBundle(bundleId: HashId, refs: seq<BundleChunkRef>)
    | DeleteBundle(bundleId: HashId)
    | Crash(survived: map<Address, byte>)

  predicate Referenced(bundles: map<HashId, seq<BundleChunkRef>>, chunkId: HashId) {
    exists b :: b in bundles && chunkId in ChunkIds(bundles[b])
  }

  ghost predicate Enabled(v: Store, step: Step) {
    match step
    case Reserve(p, _, rawLen, bytes, _) => p !in v.puts && rawLen > 0 && 0 < |bytes| <= DATA_FILE_SIZE
    case WriteByte(p, i) => p in v.puts && !v.puts[p].synced && i < |v.puts[p].bytes|
    case Sync(p) => p in v.puts && forall i :: 0 <= i < |v.puts[p].bytes| ==> i in v.puts[p].written
    case GiveUp(p) => p in v.puts
    case Index(p) => p in v.puts && v.puts[p].synced
    case Delete(id) => !Referenced(v.bundles, id)
    case LoadForRead(r, id) => r !in v.readers && id in v.chunks && id in v.home
    case ReadByte(r, i) =>
      r in v.readers && i < v.readers[r].meta.compressedLen && AddressOf(v.readers[r].meta.volumeOffset, i) in v.disk
    case CommitBundle(_, _) => true
    case DeleteBundle(_) => true
    case Crash(survived) => forall a :: a in v.disk && a in v.durable ==> a in survived && survived[a] == v.disk[a]
  }

  ghost function Apply(v: Store, step: Step, hash: seq<HashId> -> HashId): Store
    requires Enabled(v, step)
  {
    match step
    case Reserve(p, id, rawLen, bytes, h) =>
      (match StartPut(v.maxBytes, v.active, v.chunks, id, rawLen, |bytes|, h)
       case Reserved(meta) =>
         var next := meta.volumeOffset + |bytes|;
         v.(active := if next > v.active then next else v.active,
            puts := v.puts[p := Put(|v.extents|, meta, bytes, {}, false)],
            extents := v.extents + [Extent(meta.volumeOffset, |bytes|)])
       case _ => v)
    case WriteByte(p, i) =>
      var put := v.puts[p];
      v.(disk := v.disk[AddressOf(put.meta.volumeOffset, i) := put.bytes[i]],
         puts := v.puts[p := put.(written := put.written + {i})])
    case Sync(p) =>
      var put := v.puts[p];
      v.(puts := v.puts[p := put.(synced := true)],
         durable := v.durable + iset i: nat | i < |put.bytes| :: AddressOf(put.meta.volumeOffset, i))
    case GiveUp(p) => v.(puts := v.puts - {p})
    case Index(p) =>
      var put := v.puts[p];
      if put.meta.chunkId in v.chunks || !Storable(put.meta) then v.(puts := v.puts - {p})
      else v.(puts := v.puts - {p},
              chunks := v.chunks[put.meta.chunkId := put.meta],
              indexed := v.indexed[put.extent := Indexed(put.meta, put.bytes)],
              home := v.home[put.meta.chunkId := put.extent])
    case Delete(id) => v.(chunks := v.chunks - {id}, home := v.home - {id})
    case LoadForRead(r, id) => v.(readers := v.readers[r := Read(v.home[id], v.chunks[id], map[])])
    case ReadByte(r, i) =>
      var read := v.readers[r];
      v.(readers := v.readers[r := read.(got := read.got[i := v.disk[AddressOf(read.meta.volumeOffset, i)]])])
    case CommitBundle(b, refs) => v.(bundles := CommitTable(v.bundles, v.chunks, b, refs, hash))
    case DeleteBundle(b) => v.(bundles := v.bundles - {b})
    case Crash(survived) => v.(disk := survived, puts := map[], readers := map[])
  }

  /* ---- The chain of reservations ---- */

  /** Where the reservations made so far end. */
  function ChainEnd(extents: seq<Extent>): nat {
    if extents == [] then 0 else extents[|extents| - 1].offset + extents[|extents| - 1].len
  }

  /** Every reservation was placed right behind the one before it. */
  ghost predicate Chained(extents: seq<Extent>) {
    forall i :: 0 <= i < |extents| ==>
      && 0 < extents[i].len <= DATA_FILE_SIZE
      && extents[i].offset == PlaceChunk(ChainEnd(extents[..i]), extents[i].len)
  }

  lemma {:induction false} ChainSnoc(extents: seq<Extent>, e: Extent)
    requires Chained(extents) && 0 < e.len <= DATA_FILE_SIZE && e.offset == PlaceChunk(ChainEnd(extents), e.len)
    ensures Chained(extents + [e])
  {
    forall i | 0 <= i <= |extents|
      ensures (extents + [e])[i].offset == PlaceChunk(ChainEnd((extents + [e])[..i]), (extents + [e])[i].len)
    {
      assert (extents + [e])[..i] == extents[..i];
    }
    assert extents[..|extents|] == extents;
  }

  /** Later reservations start where earlier ones have ended. */
  lemma {:induction false} ChainOrdered(extents: seq<Extent>, i: nat, j: nat)
    requires Chained(extents) && i < j <= |extents|
    ensures extents[i].offset + extents[i].len <= ChainEnd(extents[..j])
    ensures j < |extents| ==> extents[i].offset + extents[i].len <= extents[j].offset
  {
    if j > i + 1 {
      ChainOrdered(extents, i, j - 1);
    }
    Placement(ChainEnd(extents[..j - 1]), extents[j - 1].len);
    if j < |extents| { Placement(ChainEnd(extents[..j]), extents[j].len); }
  }

  function ReservedBytes(extents: seq<Extent>): nat {
    if extents == [] then 0 else ReservedBytes(extents[..|extents| - 1]) + extents[|extents| - 1].len
  }

  /** What the last reservation skipped. */
  function Gap(extents: seq<Extent>): int
    requires extents != []
  {
    extents[|extents| - 1].offset - ChainEnd(extents[..|extents| - 1])
  }

  function Gaps(extents: seq<Extent>): int {
    if extents == [] then 0 else Gaps(extents[..|extents| - 1]) + Gap(extents)
  }

  lemma {:induction false} ChainAccounting(extents: seq<Extent>)
    ensures ChainEnd(extents) == ReservedBytes(extents) + Gaps(extents)
  {
    if extents != [] { ChainAccounting(extents[..|extents| - 1]); }
  }

  /* ---- Invariant ---- */

  ghost predicate OwnsExtent(v: Store, k: nat, meta: ChunkMeta) {
    k < |v.extents| && v.extents[k] == Extent(meta.volumeOffset, meta.compressedLen)
  }

  /** The data files hold `bytes` at the extent of `meta`, as far as `upTo` allows. */
  ghost predicate OnDisk(v: Store, meta: ChunkMeta, bytes: seq<byte>, upTo: set<nat>) {
    forall i: nat :: i < |bytes| && i in upTo ==>
      AddressOf(meta.volumeOffset, i) in v.disk && v.disk[AddressOf(meta.volumeOffset, i)] == bytes[i]
  }

  ghost predicate Durable(v: Store, meta: ChunkMeta, len: nat) {
    forall i: nat :: i < len ==> AddressOf(meta.volumeOffset, i) in v.durable
  }

  ghost predicate PutOk(v: Store, put: Put) {
    && OwnsExtent(v, put.extent, put.meta)
    && |put.bytes| == put.meta.compressedLen && put.meta.rawLen > 0
    && put.extent !in v.indexed
    && OnDisk(v, put.meta, put.bytes, put.written)
    && (put.synced ==> Durable(v, put.meta, |put.bytes|) && forall i :: 0 <= i < |put.bytes| ==> i in put.written)
  }

  ghost predicate IndexedOk(v: Store, k: nat, x: Indexed) {
    && OwnsExtent(v, k, x.meta)
    && |x.bytes| == x.meta.compressedLen && x.meta.rawLen > 0
    && (forall i: nat :: i < |x.bytes| ==>
          AddressOf(x.meta.volumeOffset, i) in v.disk && v.disk[AddressOf(x.meta.volumeOffset, i)] == x.bytes[i])
    && Durable(v, x.meta, |x.bytes|)
  }

  ghost predicate ReadOk(v: Store, read: Read) {
    && read.extent in v.indexed && v.indexed[read.extent].meta == read.meta
    && |v.indexed[read.extent].bytes| == read.meta.compressedLen
    && forall i :: i in read.got ==> i < read.meta.compressedLen && read.got[i] == v.indexed[read.extent].bytes[i]
  }

  ghost predicate RowOk(v: Store, id: HashId)
    requires id in v.chunks
  {
    && v.chunks[id].chunkId == id
    && id in v.home && v.home[id] in v.indexed && v.indexed[v.home[id]].meta == v.chunks[id]
  }

  ghost predicate BundleOk(v: Store, b: HashId, hash: seq<HashId> -> HashId)
    requires b in v.bundles
  {
    && v.bundles[b] != []
    && Contiguous(v.bundles[b])
    && AllIndexed(v.bundles[b], v.chunks)
    && hash(ChunkIds(v.bundles[b])) == b
  }

  /** Reservations, puts under way and the data behind every row ever indexed. */
  ghost predicate SpaceInv(v: Store) {
    && v.active <= v.maxBytes <= I64_MAX
    && Chained(v.extents) && ChainEnd(v.extents) == v.active
    && (forall p :: p in v.puts ==> PutOk(v, v.puts[p]))
    && (forall p, q :: p in v.puts && q in v.puts && p != q ==> v.puts[p].extent != v.puts[q].extent)
    && (forall k :: k in v.indexed ==> IndexedOk(v, k, v.indexed[k]))
  }

  /** Rows and readers point into that data. */
  ghost predicate RowInv(v: Store) {
    && (forall r :: r in v.readers ==> ReadOk(v, v.readers[r]))
    && (forall id :: id in v.chunks ==> RowOk(v, id))
  }

  ghost predicate BundleInv(v: Store, hash: seq<HashId> -> HashId) {
    forall b :: b in v.bundles ==> BundleOk(v, b, hash)
  }

  ghost predicate Inv(v: Store, hash: seq<HashId> -> HashId) {
    SpaceInv(v) && RowInv(v) && BundleInv(v, hash)
  }

  /** Bytes of different reservations never share a position in the data files. */
  lemma {:induction false} AddressesDisjoint(extents: seq<Extent>, j: nat, k: nat, a: nat, b: nat)
    requires Chained(extents) && j < |extents| && k < |extents| && j != k
    requires a < extents[j].len && b < extents[k].len
    ensures AddressOf(extents[j].offset, a) != AddressOf(extents[k].offset, b)
  {
    if j < k { ChainOrdered(extents, j, k); } else { ChainOrdered(extents, k, j); }
    SameAddress(extents[j].offset, a, extents[k].offset, b);
  }

  lemma {:induction false} SameAddress(x: nat, a: nat, y: nat, b: nat)
    ensures AddressOf(x, a) == AddressOf(y, b) ==> x + a == y + b
  {}

  lemma {:induction false} EmptyInv(maxBytes: nat, hash: seq<HashId> -> HashId)
    requires maxBytes <= I64_MAX
    ensures Inv(Empty(maxBytes), hash)
  {}

  /* ---- Every step keeps the invariant ---- */

  /** A reservation never meets an overflow, ends at or below `maxBytes`, stays inside one
      of the volume's data files, and every intermediate value fits 64 bits. */
  lemma {:induction false} ReservationFits(maxBytes: nat, active: nat, chunks: map<HashId, ChunkMeta>,
                                           id: HashId, rawLen: nat, len: nat, h: HashId)
    requires active <= maxBytes <= I64_MAX && 0 < len <= DATA_FILE_SIZE
    ensures StartPut(maxBytes, active, chunks, id, rawLen, len, h) != Rejected(IntegerConversion)
    ensures active % DATA_FILE_SIZE + len <= U64_MAX && (active / DATA_FILE_SIZE + 1) * DATA_FILE_SIZE <= U64_MAX
    ensures var start := StartPut(maxBytes, active, chunks, id, rawLen, len, h);
      start.Reserved? ==>
        && active <= start.meta.volumeOffset
        && start.meta.volumeOffset + len <= maxBytes
        && start.meta.volumeOffset % DATA_FILE_SIZE + len <= DATA_FILE_SIZE
        && start.meta.volumeOffset / DATA_FILE_SIZE < (maxBytes + DATA_FILE_SIZE - 1) / DATA_FILE_SIZE
  {
    Placement(active, len);
    NextFile(active);
    var offset := PlaceChunk(active, len);
    assert offset <= active + DATA_FILE_SIZE;
    if offset + len <= maxBytes { FileIndex(offset, maxBytes); }
  }

  lemma {:induction false} NextFile(active: nat)
    ensures active < (active / DATA_FILE_SIZE + 1) * DATA_FILE_SIZE <= active + DATA_FILE_SIZE
  {}

  lemma {:induction false} FileIndex(offset: nat, maxBytes: nat)
    requires offset < maxBytes
    ensures offset / DATA_FILE_SIZE < (maxBytes + DATA_FILE_SIZE - 1) / DATA_FILE_SIZE
  {}

  /** What a step that writes no byte leaves of a put and of an indexed row. */
  lemma {:induction false} PutCarried(v: Store, v': Store, put: Put)
    requires v.extents <= v'.extents && v'.disk == v.disk && v.durable <= v'.durable
    requires PutOk(v, put) && put.extent !in v'.indexed
    ensures PutOk(v', put)
  {}

  lemma {:induction false} IndexedCarried(v: Store, v': Store, k: nat, x: Indexed)
    requires v.extents <= v'.extents && v'.disk == v.disk && v.durable <= v'.durable && IndexedOk(v, k, x)
    ensures IndexedOk(v', k, x)
  {}

  /** The store after a successful reservation. */
  lemma {:induction false} ReservedSpace(v: Store, p: nat, meta: ChunkMeta, bytes: seq<byte>, v': Store)
    requires SpaceInv(v) && p !in v.puts && 0 < |bytes| == meta.compressedLen <= DATA_FILE_SIZE && meta.rawLen > 0
    requires meta.volumeOffset == PlaceChunk(v.active, |bytes|) && meta.volumeOffset + |bytes| <= v.maxBytes
    requires v' == v.(active := meta.volumeOffset + |bytes|,
                      puts := v.puts[p := Put(|v.extents|, meta, bytes, {}, false)],
                      extents := v.extents + [Extent(meta.volumeOffset, |bytes|)])
    ensures SpaceInv(v')
  {
    ChainSnoc(v.extents, Extent(meta.volumeOffset, |bytes|));
    forall k | k in v'.indexed ensures IndexedOk(v', k, v'.indexed[k]) && k < |v.extents| {
      assert IndexedOk(v, k, v.indexed[k]);
      IndexedCarried(v, v', k, v.indexed[k]);
    }
    forall q | q in v.puts ensures PutOk(v', v.puts[q]) && v.puts[q].extent < |v.extents| {
      assert PutOk(v, v.puts[q]);
      PutCarried(v, v', v.puts[q]);
    }
    assert PutOk(v', v'.puts[p]);
  }

  lemma {:induction false} ReserveSpace(v: Store, step: Step, hash: seq<HashId> -> HashId)
    requires SpaceInv(v) && step.Reserve? && Enabled(v, step)
    ensures SpaceInv(Apply(v, step, hash))
  {
    var start := StartPut(v.maxBytes, v.active, v.chunks, step.chunkId, step.rawLen, |step.bytes|, step.hash);
    if start.Reserved? {
      ReservationFits(v.maxBytes, v.active, v.chunks, step.chunkId, step.rawLen, |step.bytes|, step.hash);
      ReservedSpace(v, step.p, start.meta, step.bytes, Apply(v, step, hash));
    }
  }

  /** The position written belongs to the writer's reservation and to no other. */
  lemma {:induction false} WriteByteSpace(v: Store, step: Step, hash: seq<HashId> -> HashId)
    requires SpaceInv(v) && step.WriteByte? && Enabled(v, step)
    ensures SpaceInv(Apply(v, step, hash))
  {
    var v' := Apply(v, step, hash);
    forall p | p in v'.puts ensures PutOk(v', v'.puts[p]) {
      if p == step.p { WriterKept(v, p, step.i, v'); } else { ByteOtherPut(v, step.p, step.i, p, v'); }
    }
    forall k | k in v'.indexed ensures IndexedOk(v', k, v'.indexed[k]) { ByteIndexed(v, step.p, step.i, k, v'); }
  }

  /** `v'` is `v` with byte `i` of put `p` written. */
  ghost predicate ByteWritten(v: Store, p: nat, i: nat, v': Store) {
    && p in v.puts && i < |v.puts[p].bytes|
    && v'.disk == v.disk[AddressOf(v.puts[p].meta.volumeOffset, i) := v.puts[p].bytes[i]]
    && v'.extents == v.extents && v'.durable == v.durable && v'.indexed == v.indexed
  }

  lemma {:induction false} WriterKept(v: Store, p: nat, i: nat, v': Store)
    requires SpaceInv(v) && ByteWritten(v, p, i, v') && !v.puts[p].synced
    ensures PutOk(v', v.puts[p].(written := v.puts[p].written + {i}))
  {
    assert PutOk(v, v.puts[p]);
    SameExtent(v, v.puts[p], i);
  }

  lemma {:induction false} ByteOtherPut(v: Store, p: nat, i: nat, q: nat, v': Store)
    requires SpaceInv(v) && ByteWritten(v, p, i, v') && q in v.puts && q != p
    ensures PutOk(v', v.puts[q])
  {
    assert PutOk(v, v.puts[p]) && PutOk(v, v.puts[q]);
    OtherUntouched(v, v.puts[p], v.puts[q].extent, v.puts[q].meta, i);
  }

  lemma {:induction false} ByteIndexed(v: Store, p: nat, i: nat, k: nat, v': Store)
    requires SpaceInv(v) && ByteWritten(v, p, i, v') && k in v.indexed
    ensures IndexedOk(v', k, v.indexed[k])
  {
    assert PutOk(v, v.puts[p]) && IndexedOk(v, k, v.indexed[k]);
    OtherUntouched(v, v.puts[p], k, v.indexed[k].meta, i);
  }

  lemma {:induction false} OtherUntouched(v: Store, put: Put, k: nat, meta: ChunkMeta, i: nat)
    requires Chained(v.extents) && OwnsExtent(v, put.extent, put.meta) && OwnsExtent(v, k, meta)
    requires k != put.extent && i < put.meta.compressedLen
    ensures forall j: nat :: j < meta.compressedLen ==> AddressOf(meta.volumeOffset, j) != AddressOf(put.meta.volumeOffset, i)
  {
    forall j: nat | j < meta.compressedLen
      ensures AddressOf(meta.volumeOffset, j) != AddressOf(put.meta.volumeOffset, i)
    {
      AddressesDisjoint(v.extents, k, put.extent, j, i);
    }
  }

  lemma {:induction false} SameExtent(v: Store, put: Put, i: nat)
    ensures forall j: nat :: j != i ==> AddressOf(put.meta.volumeOffset, j) != AddressOf(put.meta.volumeOffset, i)
  {}

  lemma {:induction false} SyncSpace(v: Store, step: Step, hash: seq<HashId> -> HashId)
    requires SpaceInv(v) && step.Sync? && Enabled(v, step)
    ensures SpaceInv(Apply(v, step, hash))
  {
    var v' := Apply(v, step, hash);
    forall p | p in v'.puts ensures PutOk(v', v'.puts[p]) {
      assert PutOk(v, v.puts[p]);
      PutCarried(v, v', v.puts[p]);
    }
    forall k | k in v'.indexed ensures IndexedOk(v', k, v'.indexed[k]) {
      assert IndexedOk(v, k, v.indexed[k]);
      IndexedCarried(v, v', k, v.indexed[k]);
    }
  }

  lemma {:induction false} IndexSpace(v: Store, step: Step, hash: seq<HashId> -> HashId)
    requires SpaceInv(v) && step.Index? && Enabled(v, step)
    ensures SpaceInv(Apply(v, step, hash))
  {
    var v' := Apply(v, step, hash);
    IndexStep(v, step, hash);
    if Moved(v, step.p, v') { IndexedSpace(v, step.p, v'); } else { SpaceFrame(v, v'); }
  }

  lemma {:induction false} IndexStep(v: Store, step: Step, hash: seq<HashId> -> HashId)
    requires step.Index? && Enabled(v, step)
    ensures Moved(v, step.p, Apply(v, step, hash)) || Apply(v, step, hash) == v.(puts := v.puts - {step.p})
  {}

  /** The store after a synced put was indexed. */
  lemma {:induction false} IndexedSpace(v: Store, p: nat, v': Store)
    requires SpaceInv(v) && p in v.puts && v.puts[p].synced && Moved(v, p, v')
    ensures SpaceInv(v')
  {
    forall q | q in v'.puts ensures PutOk(v', v'.puts[q]) { OtherPutKept(v, p, q, v'); }
    forall k | k in v'.indexed ensures IndexedOk(v', k, v'.indexed[k]) { IndexedKept(v, p, k, v'); }
  }

  ghost predicate Moved(v: Store, p: nat, v': Store)
    requires p in v.puts
  {
    && v'.active == v.active && v'.maxBytes == v.maxBytes && v'.puts == v.puts - {p}
    && v'.extents == v.extents && v'.disk == v.disk && v'.durable == v.durable
    && v'.indexed == v.indexed[v.puts[p].extent := Indexed(v.puts[p].meta, v.puts[p].bytes)]
  }

  lemma {:induction false} OtherPutKept(v: Store, p: nat, q: nat, v': Store)
    requires SpaceInv(v) && p in v.puts && q in v.puts && q != p && Moved(v, p, v')
    ensures PutOk(v', v.puts[q])
  {
    assert PutOk(v, v.puts[q]) && v.puts[q].extent != v.puts[p].extent;
    PutCarried(v, v', v.puts[q]);
  }

  lemma {:induction false} IndexedKept(v: Store, p: nat, k: nat, v': Store)
    requires SpaceInv(v) && p in v.puts && v.puts[p].synced && Moved(v, p, v') && k in v'.indexed
    ensures IndexedOk(v', k, v'.indexed[k])
  {
    var put := v.puts[p];
    assert PutOk(v, put);
    if k == put.extent {
      PutDone(v, put);
    } else {
      assert IndexedOk(v, k, v.indexed[k]);
    }
    IndexedCarried(v, v', k, v'.indexed[k]);
  }

  /** A synced put has everything an indexed row needs. */
  lemma {:induction false} PutDone(v: Store, put: Put)
    requires PutOk(v, put) && put.synced
    ensures IndexedOk(v, put.extent, Indexed(put.meta, put.bytes))
  {}

  /** A crash loses puts and readers and may change every byte that was not synced. */
  lemma {:induction false} CrashSpace(v: Store, step: Step, hash: seq<HashId> -> HashId)
    requires SpaceInv(v) && step.Crash? && Enabled(v, step)
    ensures SpaceInv(Apply(v, step, hash))
  {
    var v' := Apply(v, step, hash);
    forall k | k in v'.indexed ensures IndexedOk(v', k, v'.indexed[k]) { assert IndexedOk(v, k, v.indexed[k]); }
  }

  lemma {:induction false} SpaceKept(v: Store, step: Step, hash: seq<HashId> -> HashId)
    requires SpaceInv(v) && Enabled(v, step)
    ensures SpaceInv(Apply(v, step, hash))
  {
    match step
    case Reserve(_, _, _, _, _) => ReserveSpace(v, step, hash);
    case WriteByte(_, _) => WriteByteSpace(v, step, hash);
    case Sync(_) => SyncSpace(v, step, hash);
    case Index(p) => IndexSpace(v, step, hash);
    case Crash(_) => CrashSpace(v, step, hash);
    case _ => SpaceFrame(v, Apply(v, step, hash));
  }

  lemma {:induction false} SpaceFrame(v: Store, v': Store)
    requires SpaceInv(v)
    requires v'.active == v.active && v'.maxBytes == v.maxBytes && v'.extents == v.extents
    requires v'.disk == v.disk && v'.durable == v.durable && v'.indexed == v.indexed
    requires forall p :: p in v'.puts ==> p in v.puts && v'.puts[p] == v.puts[p]
    ensures SpaceInv(v')
  {
    forall p | p in v'.puts ensures PutOk(v', v'.puts[p]) {
      assert PutOk(v, v.puts[p]);
      PutCarried(v, v', v.puts[p]);
    }
    forall k | k in v'.indexed ensures IndexedOk(v', k, v'.indexed[k]) {
      assert IndexedOk(v, k, v.indexed[k]);
      IndexedCarried(v, v', k, v.indexed[k]);
    }
  }

  lemma {:induction false} IndexRows(v: Store, step: Step, hash: seq<HashId> -> HashId)
    requires RowInv(v) && step.Index? && Enabled(v, step)
    requires v.puts[step.p].extent !in v.indexed
    ensures RowInv(Apply(v, step, hash))
  {
    var put := v.puts[step.p];
    if put.meta.chunkId in v.chunks || !Storable(put.meta) {
      RowsFrame(v, Apply(v, step, hash));
    } else {
      IndexedRows(v, put, Apply(v, step, hash));
    }
  }

  lemma {:induction false} IndexedRows(v: Store, put: Put, v': Store)
    requires RowInv(v) && put.extent !in v.indexed && put.meta.chunkId !in v.chunks && v'.readers == v.readers
    requires v'.indexed == v.indexed[put.extent := Indexed(put.meta, put.bytes)]
    requires v'.chunks == v.chunks[put.meta.chunkId := put.meta] && v'.home == v.home[put.meta.chunkId := put.extent]
    ensures RowInv(v')
  {
    RowsGrow(v, v', put.meta.chunkId);
  }

  lemma {:induction false} RowsGrow(v: Store, v': Store, added: HashId)
    requires RowInv(v) && v'.readers == v.readers
    requires forall k :: k in v.indexed ==> k in v'.indexed && v'.indexed[k] == v.indexed[k]
    requires forall id :: id in v'.chunks && id in v.chunks ==>
      v'.chunks[id] == v.chunks[id] && (id in v.home ==> id in v'.home && v'.home[id] == v.home[id])
    requires forall id :: id in v'.chunks && id !in v.chunks ==> id == added && RowOk(v', id)
    ensures RowInv(v')
  {
    forall r | r in v'.readers ensures ReadOk(v', v'.readers[r]) { assert ReadOk(v, v.readers[r]); }
    forall id | id in v'.chunks ensures RowOk(v', id) {
      if id in v.chunks { assert RowOk(v, id); }
    }
  }

  lemma {:induction false} LoadReadOk(v: Store, id: HashId)
    requires SpaceInv(v) && RowInv(v) && id in v.chunks && id in v.home
    ensures ReadOk(v, Read(v.home[id], v.chunks[id], map[]))
  {
    assert RowOk(v, id) && IndexedOk(v, v.home[id], v.indexed[v.home[id]]);
  }

  lemma {:induction false} ReadByteOk(v: Store, rd: Read, i: nat)
    requires SpaceInv(v) && ReadOk(v, rd) && i < rd.meta.compressedLen
    requires AddressOf(rd.meta.volumeOffset, i) in v.disk
    ensures ReadOk(v, rd.(got := rd.got[i := v.disk[AddressOf(rd.meta.volumeOffset, i)]]))
  {
    assert IndexedOk(v, rd.extent, v.indexed[rd.extent]);
  }

  lemma {:induction false} ReaderRows(v: Store, step: Step, hash: seq<HashId> -> HashId)
    requires SpaceInv(v) && RowInv(v) && (step.LoadForRead? || step.ReadByte?) && Enabled(v, step)
    ensures RowInv(Apply(v, step, hash))
  {
    var v' := Apply(v, step, hash);
    if step.LoadForRead? { LoadReadOk(v, step.chunkId); } else { ReadByteOk(v, v.readers[step.r], step.i); }
    OneReader(v, step.r, v'.readers[step.r], v');
  }

  lemma {:induction false} OneReader(v: Store, r: nat, rd: Read, v': Store)
    requires RowInv(v) && ReadOk(v, rd) && v' == v.(readers := v.readers[r := rd])
    ensures RowInv(v')
  {
    forall q | q in v'.readers ensures ReadOk(v', v'.readers[q]) { assert ReadOk(v, v'.readers[q]); }
    forall id | id in v'.chunks ensures RowOk(v', id) { assert RowOk(v, id); }
  }

  lemma {:induction false} FreshExtent(v: Store, p: nat)
    requires SpaceInv(v) && p in v.puts
    ensures v.puts[p].extent !in v.indexed
  {
    assert PutOk(v, v.puts[p]);
  }

  lemma {:induction false} RowsUntouched(v: Store, step: Step, hash: seq<HashId> -> HashId)
    requires RowInv(v) && Enabled(v, step) && !step.Index? && !step.LoadForRead? && !step.ReadByte?
    ensures RowInv(Apply(v, step, hash))
  {
    var v' := Apply(v, step, hash);
    if step.Delete? {
      RowsFrame(v, v');
    } else {
      assert v'.chunks == v.chunks && v'.home == v.home && v'.indexed == v.indexed;
      assert v'.readers == v.readers || v'.readers == map[];
      RowsFrame(v, v');
    }
  }

  lemma {:induction false} RowsKept(v: Store, step: Step, hash: seq<HashId> -> HashId)
    requires SpaceInv(v) && RowInv(v) && Enabled(v, step)
    ensures RowInv(Apply(v, step, hash))
  {
    match step
    case Index(p) => FreshExtent(v, p); IndexRows(v, step, hash);
    case LoadForRead(_, _) => ReaderRows(v, step, hash);
    case ReadByte(_, _) => ReaderRows(v, step, hash);
    case _ => RowsUntouched(v, step, hash);
  }

  lemma {:induction false} RowsFrame(v: Store, v': Store)
    requires RowInv(v) && v'.indexed == v.indexed
    requires forall r :: r in v'.readers ==> r in v.readers && v'.readers[r] == v.readers[r]
    requires forall id :: id in v'.chunks ==>
      id in v.chunks && v'.chunks[id] == v.chunks[id] && (id in v.home ==> id in v'.home && v'.home[id] == v.home[id])
    ensures RowInv(v')
  {
    forall r | r in v'.readers ensures ReadOk(v', v'.readers[r]) { assert ReadOk(v, v.readers[r]); }
    forall id | id in v'.chunks ensures RowOk(v', id) { assert RowOk(v, id); }
  }

  lemma {:induction false} BundlesKept(v: Store, step: Step, hash: seq<HashId> -> HashId)
    requires BundleInv(v, hash) && Enabled(v, step)
    ensures BundleInv(Apply(v, step, hash), hash)
  {
    var v' := Apply(v, step, hash);
    forall b | b in v'.bundles ensures BundleOk(v', b, hash) {
      if b in v.bundles {
        assert BundleOk(v, b, hash);
        if step.Delete? {
          assert step.chunkId !in ChunkIds(v.bundles[b]);
          forall i | 0 <= i < |v.bundles[b]| ensures v.bundles[b][i].chunkId in v'.chunks {
            assert ChunkIds(v.bundles[b])[i] == v.bundles[b][i].chunkId;
          }
        }
      }
    }
  }

  lemma {:induction false} InvKept(v: Store, step: Step, hash: seq<HashId> -> HashId)
    requires Inv(v, hash) && Enabled(v, step)
    ensures Inv(Apply(v, step, hash), hash)
  {
    SpaceKept(v, step, hash);
    RowsKept(v, step, hash);
    BundlesKept(v, step, hash);
  }

  /* ---- Runs ---- */

  ghost predicate IsRun(v: Store, steps: seq<Step>, hash: seq<HashId> -> HashId)
    decreases |steps|
  {
    steps == [] || (Enabled(v, steps[0]) && IsRun(Apply(v, steps[0], hash), steps[1..], hash))
  }

  ghost function After(v: Store, steps: seq<Step>, hash: seq<HashId> -> HashId): Store
    requires IsRun(v, steps, hash)
    decreases |steps|
  {
    if steps == [] then v else After(Apply(v, steps[0], hash), steps[1..], hash)
  }

  /** No step takes back what was once indexed. */
  lemma {:induction false} HistoryGrows(v: Store, step: Step, hash: seq<HashId> -> HashId)
    requires SpaceInv(v) && Enabled(v, step)
    ensures Apply(v, step, hash).maxBytes == v.maxBytes && Recalls(v.indexed, Apply(v, step, hash).indexed)
  {
    if step.Index? { FreshExtent(v, step.p); }
    IndexesOnly(v, step, hash);
  }

  /** Only indexing a put adds to what was indexed. */
  lemma {:induction false} IndexesOnly(v: Store, step: Step, hash: seq<HashId> -> HashId)
    requires Enabled(v, step) && (step.Index? ==> v.puts[step.p].extent !in v.indexed)
    ensures Apply(v, step, hash).maxBytes == v.maxBytes && Recalls(v.indexed, Apply(v, step, hash).indexed)
  {}

  ghost predicate Recalls(before: map<nat, Indexed>, after: map<nat, Indexed>) {
    forall k :: k in before ==> k in after && after[k] == before[k]
  }

  lemma {:induction false} RunInv(v: Store, steps: seq<Step>, hash: seq<HashId> -> HashId)
    requires Inv(v, hash) && IsRun(v, steps, hash)
    ensures var w := After(v, steps, hash);
      Inv(w, hash) && w.maxBytes == v.maxBytes && Recalls(v.indexed, w.indexed)
    decreases |steps|
  {
    if steps != [] {
      InvKept(v, steps[0], hash);
      HistoryGrows(v, steps[0], hash);
      RunInv(Apply(v, steps[0], hash), steps[1..], hash);
    }
  }

  /** A read through the row a chunk has at one moment returns, at any later moment, the
      bytes of the put that indexed that row: whatever is put, deleted, committed or lost
      in crashes in between, and also when the chunk itself is deleted meanwhile. */
  lemma {:induction false} ReadsReturnTheWinner(maxBytes: nat, before: seq<Step>, later: seq<Step>, hash: seq<HashId> -> HashId, id: HashId)
    requires maxBytes <= I64_MAX && IsRun(Empty(maxBytes), before, hash)
    requires id in After(Empty(maxBytes), before, hash).chunks
    requires IsRun(After(Empty(maxBytes), before, hash), later, hash)
    ensures var v := After(Empty(maxBytes), before, hash);
      && id in v.home && v.home[id] in v.indexed
      && var meta, winner, w := v.chunks[id], v.indexed[v.home[id]], After(v, later, hash);
      && winner.meta == meta && |winner.bytes| == meta.compressedLen
      && forall i: nat :: i < meta.compressedLen ==>
           AddressOf(meta.volumeOffset, i) in w.disk && w.disk[AddressOf(meta.volumeOffset, i)] == winner.bytes[i]
  {
    EmptyInv(maxBytes, hash);
    RunInv(Empty(maxBytes), before, hash);
    var v := After(Empty(maxBytes), before, hash);
    assert RowOk(v, id);
    RunInv(v, later, hash);
    assert IndexedOk(After(v, later, hash), v.home[id], After(v, later, hash).indexed[v.home[id]]);
  }

  /** A reader that loaded its row earlier and reads byte by byte while everything else goes
      on has only ever seen the winner's bytes. */
  lemma {:induction false} ReadersSeeTheWinner(maxBytes: nat, steps: seq<Step>, hash: seq<HashId> -> HashId, r: nat)
    requires maxBytes <= I64_MAX && IsRun(Empty(maxBytes), steps, hash)
    requires r in After(Empty(maxBytes), steps, hash).readers
    ensures var v := After(Empty(maxBytes), steps, hash);
      && v.readers[r].extent in v.indexed && v.indexed[v.readers[r].extent].meta == v.readers[r].meta
      && forall i :: i in v.readers[r].got ==>
           i < |v.indexed[v.readers[r].extent].bytes| && v.readers[r].got[i] == v.indexed[v.readers[r].extent].bytes[i]
  {
    EmptyInv(maxBytes, hash);
    RunInv(Empty(maxBytes), steps, hash);
    var v := After(Empty(maxBytes), steps, hash);
    assert ReadOk(v, v.readers[r]);
  }

  predicate Apart(a: ChunkMeta, b: ChunkMeta) {
    a.volumeOffset + a.compressedLen <= b.volumeOffset || b.volumeOffset + b.compressedLen <= a.volumeOffset
  }

  predicate InsideOneFile(v: Store, meta: ChunkMeta) {
    && meta.volumeOffset % DATA_FILE_SIZE + meta.compressedLen <= DATA_FILE_SIZE
    && meta.volumeOffset / DATA_FILE_SIZE < (v.maxBytes + DATA_FILE_SIZE - 1) / DATA_FILE_SIZE
    && meta.volumeOffset + meta.compressedLen <= v.active <= v.maxBytes
  }

  /** In every reachable state the extents of puts under way, of indexed rows, and of each
      against the other never overlap; each stays inside one existing data file, at or
      below the persisted active offset. */
  lemma {:induction false} ExtentsApart(maxBytes: nat, steps: seq<Step>, hash: seq<HashId> -> HashId)
    requires maxBytes <= I64_MAX && IsRun(Empty(maxBytes), steps, hash)
    ensures var v := After(Empty(maxBytes), steps, hash);
      && (forall p, q :: p in v.puts && q in v.puts && p != q ==> Apart(v.puts[p].meta, v.puts[q].meta))
      && (forall p, k :: p in v.puts && k in v.indexed ==> Apart(v.puts[p].meta, v.indexed[k].meta))
      && (forall j, k :: j in v.indexed && k in v.indexed && j != k ==> Apart(v.indexed[j].meta, v.indexed[k].meta))
      && (forall p :: p in v.puts ==> InsideOneFile(v, v.puts[p].meta))
      && (forall k :: k in v.indexed ==> InsideOneFile(v, v.indexed[k].meta))
  {
    EmptyInv(maxBytes, hash);
    RunInv(Empty(maxBytes), steps, hash);
    var v := After(Empty(maxBytes), steps, hash);
    forall p | p in v.puts ensures InsideOneFile(v, v.puts[p].meta) {
      assert PutOk(v, v.puts[p]);
      OwnedInside(v, v.puts[p].extent, v.puts[p].meta);
    }
    forall k | k in v.indexed ensures InsideOneFile(v, v.indexed[k].meta) {
      assert IndexedOk(v, k, v.indexed[k]);
      OwnedInside(v, k, v.indexed[k].meta);
    }
    forall p, q | p in v.puts && q in v.puts && p != q ensures Apart(v.puts[p].meta, v.puts[q].meta) {
      assert PutOk(v, v.puts[p]) && PutOk(v, v.puts[q]);
      OwnedApart(v, v.puts[p].extent, v.puts[p].meta, v.puts[q].extent, v.puts[q].meta);
    }
    forall p, k | p in v.puts && k in v.indexed ensures Apart(v.puts[p].meta, v.indexed[k].meta) {
      assert PutOk(v, v.puts[p]) && IndexedOk(v, k, v.indexed[k]);
      OwnedApart(v, v.puts[p].extent, v.puts[p].meta, k, v.indexed[k].meta);
    }
    forall j, k | j in v.indexed && k in v.indexed && j != k ensures Apart(v.indexed[j].meta, v.indexed[k].meta) {
      assert IndexedOk(v, j, v.indexed[j]) && IndexedOk(v, k, v.indexed[k]);
      OwnedApart(v, j, v.indexed[j].meta, k, v.indexed[k].meta);
    }
  }

  lemma {:induction false} OwnedApart(v: Store, j: nat, a: ChunkMeta, k: nat, b: ChunkMeta)
    requires Chained(v.extents) && OwnsExtent(v, j, a) && OwnsExtent(v, k, b) && j != k
    ensures Apart(a, b)
  {
    if j < k { ChainOrdered(v.extents, j, k); } else { ChainOrdered(v.extents, k, j); }
  }

  lemma {:induction false} OwnedInside(v: Store, k: nat, meta: ChunkMeta)
    requires v.active <= v.maxBytes && Chained(v.extents) && ChainEnd(v.extents) == v.active
    requires OwnsExtent(v, k, meta)
    ensures InsideOneFile(v, meta)
  {
    ExtentInside(v.extents, k);
    FileIndex(meta.volumeOffset, v.maxBytes);
  }

  lemma {:induction false} ExtentInside(extents: seq<Extent>, k: nat)
    requires Chained(extents) && k < |extents|
    ensures extents[k].len > 0 && extents[k].offset % DATA_FILE_SIZE + extents[k].len <= DATA_FILE_SIZE
    ensures extents[k].offset + extents[k].len <= ChainEnd(extents)
  {
    ChainOrdered(extents, k, |extents|);
    assert extents[..|extents|] == extents;
    Placement(ChainEnd(extents[..k]), extents[k].len);
  }

  /** The active offset is what was reserved plus the gaps, and every gap is the rest of a
      data file, shorter than the reservation that skipped it. */
  lemma {:induction false} ActiveOffsetAccounts(maxBytes: nat, steps: seq<Step>, hash: seq<HashId> -> HashId)
    requires maxBytes <= I64_MAX && IsRun(Empty(maxBytes), steps, hash)
    ensures var v := After(Empty(maxBytes), steps, hash);
      && v.active == ReservedBytes(v.extents) + Gaps(v.extents)
      && forall i :: 0 <= i < |v.extents| ==>
           var gap, start := Gap(v.extents[..i + 1]), ChainEnd(v.extents[..i]);
           && 0 <= gap < v.extents[i].len
           && (gap > 0 ==> v.extents[i].offset % DATA_FILE_SIZE == 0 && gap == DATA_FILE_SIZE - start % DATA_FILE_SIZE)
  {
    EmptyInv(maxBytes, hash);
    RunInv(Empty(maxBytes), steps, hash);
    var v := After(Empty(maxBytes), steps, hash);
    ChainAccounting(v.extents);
    forall i | 0 <= i < |v.extents|
      ensures var gap, start := Gap(v.extents[..i + 1]), ChainEnd(v.extents[..i]);
           && 0 <= gap < v.extents[i].len
           && (gap > 0 ==> v.extents[i].offset % DATA_FILE_SIZE == 0 && gap == DATA_FILE_SIZE - start % DATA_FILE_SIZE)
    {
      assert v.extents[..i + 1][..i] == v.extents[..i];
      Placement(ChainEnd(v.extents[..i]), v.extents[i].len);
    }
  }

  /* ---- Bundles over time ---- */

  lemma {:induction false} SumsStable(refs: seq<BundleChunkRef>, chunks: map<HashId, ChunkMeta>, chunks': map<HashId, ChunkMeta>)
    requires forall i :: 0 <= i < |refs| ==>
      refs[i].chunkId in chunks && refs[i].chunkId in chunks' && chunks[refs[i].chunkId] == chunks'[refs[i].chunkId]
    ensures RawSum(refs, chunks) == RawSum(refs, chunks')
    ensures CompressedSum(refs, chunks) == CompressedSum(refs, chunks')
  {
    if refs != [] { SumsStable(refs[..|refs| - 1], chunks, chunks'); }
  }

  lemma {:induction false} ChunkStays(v: Store, step: Step, hash: seq<HashId> -> HashId, id: HashId)
    requires Enabled(v, step) && id in v.chunks && step != Delete(id)
    ensures id in Apply(v, step, hash).chunks && Apply(v, step, hash).chunks[id] == v.chunks[id]
  {}

  lemma {:induction false} RefStays(v: Store, step: Step, hash: seq<HashId> -> HashId, b: HashId, i: nat)
    requires BundleInv(v, hash) && Enabled(v, step) && b in v.bundles && i < |v.bundles[b]|
    ensures v.bundles[b][i].chunkId in v.chunks
    ensures var id := v.bundles[b][i].chunkId;
      id in Apply(v, step, hash).chunks && Apply(v, step, hash).chunks[id] == v.chunks[id]
  {
    assert BundleOk(v, b, hash) && ChunkIds(v.bundles[b])[i] == v.bundles[b][i].chunkId;
    ChunkStays(v, step, hash, v.bundles[b][i].chunkId);
  }

  /** A stored bundle keeps its chunk list and its lengths until it is deleted: its chunks
      can be neither deleted nor replaced, and committing it again changes nothing. */
  lemma {:induction false} BundleStable(v: Store, step: Step, hash: seq<HashId> -> HashId, b: HashId)
    requires BundleInv(v, hash) && Enabled(v, step) && b in v.bundles && step != DeleteBundle(b)
    ensures var w := Apply(v, step, hash);
      b in w.bundles && w.bundles[b] == v.bundles[b] && LoadBundle(w.bundles, w.chunks, b) == LoadBundle(v.bundles, v.chunks, b)
  {
    var w, refs := Apply(v, step, hash), v.bundles[b];
    assert BundleOk(v, b, hash);
    forall i | 0 <= i < |refs|
      ensures refs[i].chunkId in w.chunks && w.chunks[refs[i].chunkId] == v.chunks[refs[i].chunkId]
    {
      RefStays(v, step, hash, b, i);
    }
    ListStays(v, step, hash, b);
    SumsStable(refs, v.chunks, w.chunks);
  }

  lemma {:induction false} ListStays(v: Store, step: Step, hash: seq<HashId> -> HashId, b: HashId)
    requires Enabled(v, step) && b in v.bundles && step != DeleteBundle(b)
    ensures b in Apply(v, step, hash).bundles && Apply(v, step, hash).bundles[b] == v.bundles[b]
  {}

  /** Every bundle of a reachable state is a contiguous, non-empty list of indexed chunks
      whose hash is the bundle id, and both of its lengths are positive. */
  lemma {:induction false} StoredBundles(maxBytes: nat, steps: seq<Step>, hash: seq<HashId> -> HashId, b: HashId)
    requires maxBytes <= I64_MAX && IsRun(Empty(maxBytes), steps, hash)
    requires b in After(Empty(maxBytes), steps, hash).bundles
    ensures var v := After(Empty(maxBytes), steps, hash);
      && BundleOk(v, b, hash)
      && RawSum(v.bundles[b], v.chunks) > 0 && CompressedSum(v.bundles[b], v.chunks) > 0
  {
    EmptyInv(maxBytes, hash);
    RunInv(Empty(maxBytes), steps, hash);
    var v := After(Empty(maxBytes), steps, hash);
    assert BundleOk(v, b, hash);
    var last := v.bundles[b][|v.bundles[b]| - 1].chunkId;
    assert RowOk(v, last) && IndexedOk(v, v.home[last], v.indexed[v.home[last]]);
    assert OwnsExtent(v, v.home[last], v.chunks[last]);
  }
}
