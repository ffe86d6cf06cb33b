/** The bytes behind a volume's rows: what a repeated put may rely on, and what the lengths of
    a bundle count. */
module VolumeBytes {
  import opened Core
  import opened VolumeModel

  /* ---- Where puts and rows come from ---- */

  ghost predicate Stems(v: Store, step: Step, v': Store) {
    && (forall p :: p in v'.puts ==> PutStems(v, step, v'.puts[p], p))
    && (forall k :: k in v'.indexed ==> RowStems(v, step, v'.indexed[k], k))
  }

  /** A put was there, or has just been reserved for what was submitted. */
  ghost predicate PutStems(v: Store, step: Step, put: Put, p: nat) {
    || (p in v.puts && put.meta == v.puts[p].meta && put.bytes == v.puts[p].bytes)
    || (step.Reserve? && put.bytes == step.bytes && put.meta.chunkId == step.chunkId
        && put.meta.rawLen == step.rawLen && put.meta.compressedHash == step.hash)
  }

  /** A row was there, or has just been indexed by its put. */
  ghost predicate RowStems(v: Store, step: Step, row: Indexed, k: nat) {
    || (k in v.indexed && row == v.indexed[k])
    || (step.Index? && step.p in v.puts && row == Indexed(v.puts[step.p].meta, v.puts[step.p].bytes))
  }

  lemma {:induction false} StepStems(v: Store, step: Step, hash: seq<HashId> -> HashId)
    requires Enabled(v, step)
    ensures Stems(v, step, Apply(v, step, hash))
  {
    PutsStem(v, step, hash);
    RowsStem(v, step, hash);
  }

  lemma {:induction false} PutsStem(v: Store, step: Step, hash: seq<HashId> -> HashId)
    requires Enabled(v, step)
    ensures var v' := Apply(v, step, hash); forall p :: p in v'.puts ==> PutStems(v, step, v'.puts[p], p)
  {}

  lemma {:induction false} RowsStem(v: Store, step: Step, hash: seq<HashId> -> HashId)
    requires Enabled(v, step)
    ensures var v' := Apply(v, step, hash); forall k :: k in v'.indexed ==> RowStems(v, step, v'.indexed[k], k)
  {}

  /* ---- Putting a chunk again ---- */

  type BytesHash = seq<byte> -> HashId

  /** Every put names the hash of its own bytes, which are in play. */
  ghost predicate Hashed(step: Step, bytesHash: BytesHash, inPlay: set<seq<byte>>) {
    step.Reserve? ==> step.hash == bytesHash(step.bytes) && step.bytes in inPlay
  }

  ghost predicate AllHashed(steps: seq<Step>, bytesHash: BytesHash, inPlay: set<seq<byte>>) {
    forall i :: 0 <= i < |steps| ==> Hashed(steps[i], bytesHash, inPlay)
  }

  ghost predicate HashOf(meta: ChunkMeta, bytes: seq<byte>, bytesHash: BytesHash, inPlay: set<seq<byte>>) {
    meta.compressedHash == bytesHash(bytes) && bytes in inPlay
  }

  ghost predicate HashesOk(v: Store, bytesHash: BytesHash, inPlay: set<seq<byte>>) {
    && (forall p :: p in v.puts ==> HashOf(v.puts[p].meta, v.puts[p].bytes, bytesHash, inPlay))
    && (forall k :: k in v.indexed ==> HashOf(v.indexed[k].meta, v.indexed[k].bytes, bytesHash, inPlay))
  }

  lemma {:induction false} HashesKept(v: Store, step: Step, v': Store, bytesHash: BytesHash, inPlay: set<seq<byte>>)
    requires Stems(v, step, v') && HashesOk(v, bytesHash, inPlay) && Hashed(step, bytesHash, inPlay)
    ensures HashesOk(v', bytesHash, inPlay)
  {
    forall p | p in v'.puts ensures HashOf(v'.puts[p].meta, v'.puts[p].bytes, bytesHash, inPlay) {
      assert PutStems(v, step, v'.puts[p], p);
    }
    forall k | k in v'.indexed ensures HashOf(v'.indexed[k].meta, v'.indexed[k].bytes, bytesHash, inPlay) {
      assert RowStems(v, step, v'.indexed[k], k);
    }
  }

  lemma {:induction false} HashesOverRun(v: Store, steps: seq<Step>, hash: seq<HashId> -> HashId, bytesHash: BytesHash, inPlay: set<seq<byte>>)
    requires IsRun(v, steps, hash) && HashesOk(v, bytesHash, inPlay) && AllHashed(steps, bytesHash, inPlay)
    ensures HashesOk(After(v, steps, hash), bytesHash, inPlay)
    decreases |steps|
  {
    if steps != [] {
      assert Hashed(steps[0], bytesHash, inPlay);
      StepStems(v, steps[0], hash);
      HashesKept(v, steps[0], Apply(v, steps[0], hash), bytesHash, inPlay);
      assert forall i :: 0 <= i < |steps[1..]| ==> steps[1..][i] == steps[i + 1];
      HashesOverRun(Apply(v, steps[0], hash), steps[1..], hash, bytesHash, inPlay);
    }
  }

  /** The data files hold the bytes at the extent of a row. */
  ghost predicate HasBytes(v: Store, meta: ChunkMeta, bytes: seq<byte>) {
    && |bytes| == meta.compressedLen
    && forall i: nat :: i < |bytes| ==>
         AddressOf(meta.volumeOffset, i) in v.disk && v.disk[AddressOf(meta.volumeOffset, i)] == bytes[i]
  }

  /** In every reachable store, a put of a stored chunk is answered with the stored row if and
      only if the raw lengths are equal and the data files hold exactly the bytes submitted;
      otherwise it is refused with the stored offset. */
  lemma {:induction false} ExistingHasTheBytes(maxBytes: nat, steps: seq<Step>, hash: seq<HashId> -> HashId, bytesHash: BytesHash,
                                               inPlay: set<seq<byte>>, id: HashId, rawLen: nat, bytes: seq<byte>)
    requires maxBytes <= I64_MAX && IsRun(Empty(maxBytes), steps, hash) && AllHashed(steps, bytesHash, inPlay)
    requires bytes in inPlay && forall x, y :: x in inPlay && y in inPlay && bytesHash(x) == bytesHash(y) ==> x == y
    requires id in After(Empty(maxBytes), steps, hash).chunks
    ensures var v := After(Empty(maxBytes), steps, hash);
      var row, start := v.chunks[id], StartPut(v.maxBytes, v.active, v.chunks, id, rawLen, |bytes|, bytesHash(bytes));
      && (start == Existing(row) <==> rawLen == row.rawLen && HasBytes(v, row, bytes))
      && (start != Existing(row) ==> start == Rejected(HashMismatch(row.volumeOffset)))
  {
    EmptyInv(maxBytes, hash);
    RunInv(Empty(maxBytes), steps, hash);
    HashesOverRun(Empty(maxBytes), steps, hash, bytesHash, inPlay);
    var v := After(Empty(maxBytes), steps, hash);
    var row := v.chunks[id];
    WinnerOnDisk(v, id);
    var winner := v.indexed[v.home[id]].bytes;
    assert HashOf(row, winner, bytesHash, inPlay);
    if HasBytes(v, row, bytes) { assert winner == bytes; }
  }

  lemma {:induction false} WinnerOnDisk(v: Store, id: HashId)
    requires SpaceInv(v) && RowInv(v) && id in v.chunks
    ensures id in v.home && v.home[id] in v.indexed && v.indexed[v.home[id]].meta == v.chunks[id]
    ensures HasBytes(v, v.chunks[id], v.indexed[v.home[id]].bytes)
  {
    assert RowOk(v, id) && IndexedOk(v, v.home[id], v.indexed[v.home[id]]);
  }

  /* ---- What the lengths of a bundle count ---- */

  /** The bytes of the put that indexed the chunk's row. */
  function WinnerBytes(v: Store, id: HashId): seq<byte> {
    if id in v.chunks && id in v.home && v.home[id] in v.indexed then v.indexed[v.home[id]].bytes else []
  }

  function WinnerRawLen(v: Store, id: HashId): nat {
    if id in v.chunks && id in v.home && v.home[id] in v.indexed then v.indexed[v.home[id]].meta.rawLen else 0
  }

  /** The bytes behind a list of chunks, in list order and with repetitions. */
  function BytesBehind(v: Store, refs: seq<BundleChunkRef>): seq<byte> {
    if refs == [] then [] else BytesBehind(v, refs[..|refs| - 1]) + WinnerBytes(v, refs[|refs| - 1].chunkId)
  }

  /** The raw lengths submitted with them, added up. */
  function RawBehind(v: Store, refs: seq<BundleChunkRef>): nat {
    if refs == [] then 0 else RawBehind(v, refs[..|refs| - 1]) + WinnerRawLen(v, refs[|refs| - 1].chunkId)
  }

  /** A list's compressed length is the number of bytes behind it, its raw length the sum of
      the raw lengths its chunks were put with. */
  lemma {:induction false} SumsCount(v: Store, refs: seq<BundleChunkRef>)
    requires SpaceInv(v) && RowInv(v)
    ensures CompressedSum(refs, v.chunks) == |BytesBehind(v, refs)|
    ensures RawSum(refs, v.chunks) == RawBehind(v, refs)
  {
    if refs != [] {
      SumsCount(v, refs[..|refs| - 1]);
      var id := refs[|refs| - 1].chunkId;
      if id in v.chunks { WinnerOnDisk(v, id); }
    }
  }

  /** In every reachable store, each chunk of a stored bundle has its bytes on disk, and the
      bundle's lengths count them. */
  lemma {:induction false} StoredLengths(maxBytes: nat, steps: seq<Step>, hash: seq<HashId> -> HashId, b: HashId)
    requires maxBytes <= I64_MAX && IsRun(Empty(maxBytes), steps, hash)
    requires b in After(Empty(maxBytes), steps, hash).bundles
    ensures var v := After(Empty(maxBytes), steps, hash);
      var refs, r := v.bundles[b], LoadBundle(v.bundles, v.chunks, b);
      && (forall i :: 0 <= i < |refs| ==>
            refs[i].chunkId in v.chunks && HasBytes(v, v.chunks[refs[i].chunkId], WinnerBytes(v, refs[i].chunkId)))
      && (r.Err? <==> RawBehind(v, refs) > 0x7FFF_FFFF_FFFF_FFFF || |BytesBehind(v, refs)| > 0x7FFF_FFFF_FFFF_FFFF)
      && (r.Ok? ==> r.value == BundleMeta(b, RawBehind(v, refs), |BytesBehind(v, refs)|, |refs|))
  {
    EmptyInv(maxBytes, hash);
    RunInv(Empty(maxBytes), steps, hash);
    var v := After(Empty(maxBytes), steps, hash);
    assert BundleOk(v, b, hash);
    SumsCount(v, v.bundles[b]);
    forall i | 0 <= i < |v.bundles[b]|
      ensures HasBytes(v, v.chunks[v.bundles[b][i].chunkId], WinnerBytes(v, v.bundles[b][i].chunkId))
    {
      WinnerOnDisk(v, v.bundles[b][i].chunkId);
    }
  }
}
