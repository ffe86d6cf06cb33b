/** From a local file through upload, storage and download back to the same bytes. */
module RoundTrip {
  import opened Core
  import opened Transfer
  import V = VolumeModel

  /* ---- Chunks in a store ---- */

  datatype Stored = Stored(rawLen: nat, compressed: bytes)

  type ChunkStore = map<HashId, Stored>

  type Compress = bytes -> bytes
  type Decompress = bytes -> Option<bytes>

  /** No two of the given values have the same hash. */
  ghost predicate CollisionFree<T(!new)>(hash: T -> HashId, inPlay: set<T>) {
    forall x, y :: x in inPlay && y in inPlay && hash(x) == hash(y) ==> x == y
  }

  /** Decompressing undoes compressing, for chunks. */
  ghost predicate Inverse(compress: Compress, decompress: Decompress) {
    forall x: bytes :: |x| <= CHUNK ==> decompress(compress(x)) == Some(x)
  }

  /** The compressed bytes are those of a chunk in play with this id and length. */
  ghost predicate GoodBytes(id: HashId, rawLen: nat, compressed: bytes, hash: Hash, decompress: Decompress, inPlay: set<bytes>) {
    match decompress(compressed)
    case None => false
    case Some(raw) => |raw| == rawLen <= CHUNK && hash(raw) == id && raw in inPlay
  }

  /** Every stored chunk decompresses to bytes in play, of the recorded length, that hash to
      its id. */
  ghost predicate StoreOk(store: ChunkStore, hash: Hash, decompress: Decompress, inPlay: set<bytes>) {
    forall id {:trigger RowGood(store, id, hash, decompress, inPlay)} :: id in store ==> RowGood(store, id, hash, decompress, inPlay)
  }

  ghost predicate RowGood(store: ChunkStore, id: HashId, hash: Hash, decompress: Decompress, inPlay: set<bytes>)
    requires id in store
  {
    GoodBytes(id, store[id].rawLen, store[id].compressed, hash, decompress, inPlay)
  }

  ghost predicate Grows(s0: ChunkStore, s1: ChunkStore) {
    forall id :: id in s0 ==> id in s1 && s1[id] == s0[id]
  }

  /** One upload job: skip a chunk the store has, or read the file again and put it. */
  function UploadChunk(store: ChunkStore, data: bytes, job: UploadJob, hash: Hash, compress: Compress): Result<ChunkStore> {
    if job.chunkId in store then
      if store[job.chunkId].rawLen != job.rawLen then Err(InvalidData) else Ok(store)
    else if job.rawLen > CHUNK then Err(InvalidData)
    else if job.sourceOffset + job.rawLen > |data| then Err(Io)
    else
      var raw := data[job.sourceOffset..job.sourceOffset + job.rawLen];
      if hash(raw) != job.chunkId then Err(HashMismatch(job.sourceOffset))
      else Ok(store[job.chunkId := Stored(job.rawLen, compress(raw))])
  }

  /** Upload jobs in the order in which they happen to run. */
  function RunUploads(store: ChunkStore, data: bytes, jobs: seq<UploadJob>, hash: Hash, compress: Compress): Result<ChunkStore> {
    if jobs == [] then Ok(store)
    else match RunUploads(store, data, jobs[..|jobs| - 1], hash, compress)
      case Err(e) => Err(e)
      case Ok(s) => UploadChunk(s, data, jobs[|jobs| - 1], hash, compress)
  }

  /** The job names a piece of the file. */
  predicate JobGood(data: bytes, job: UploadJob, hash: Hash) {
    && 0 < job.rawLen <= CHUNK && Inside(Span(job.sourceOffset, job.rawLen), |data|)
    && job.chunkId == hash(Piece(data, Span(job.sourceOffset, job.rawLen)))
  }

  /** The piece of the file that the job names is among the byte strings in play. */
  predicate Played(data: bytes, job: UploadJob, inPlay: set<bytes>) {
    var span := Span(job.sourceOffset, job.rawLen);
    Inside(span, |data|) && Piece(data, span) in inPlay
  }

  lemma {:induction false} UploadSucceeds(store: ChunkStore, data: bytes, job: UploadJob, hash: Hash, compress: Compress, decompress: Decompress, inPlay: set<bytes>)
    requires CollisionFree(hash, inPlay) && Inverse(compress, decompress) && StoreOk(store, hash, decompress, inPlay)
    requires JobGood(data, job, hash) && Played(data, job, inPlay)
    ensures var r := UploadChunk(store, data, job, hash, compress);
      r.Ok? && StoreOk(r.value, hash, decompress, inPlay) && Grows(store, r.value) && job.chunkId in r.value
  {
    var raw := Piece(data, Span(job.sourceOffset, job.rawLen));
    if job.chunkId in store {
      SameChunk(store, raw, hash, decompress, inPlay);
    } else {
      UploadsNew(store, data, job, hash, compress);
      CompressedIsGood(raw, hash, compress, decompress, inPlay);
      StoreGrows(store, job.chunkId, Stored(job.rawLen, compress(raw)), hash, decompress, inPlay);
    }
  }

  lemma {:induction false} UploadsNew(store: ChunkStore, data: bytes, job: UploadJob, hash: Hash, compress: Compress)
    requires JobGood(data, job, hash) && job.chunkId !in store
    ensures UploadChunk(store, data, job, hash, compress) ==
      Ok(store[job.chunkId := Stored(job.rawLen, compress(Piece(data, Span(job.sourceOffset, job.rawLen))))])
  {}

  /** A chunk that is stored under the hash of bytes in play has their length. */
  lemma {:induction false} SameChunk(store: ChunkStore, raw: bytes, hash: Hash, decompress: Decompress, inPlay: set<bytes>)
    requires CollisionFree(hash, inPlay) && StoreOk(store, hash, decompress, inPlay) && raw in inPlay && hash(raw) in store
    ensures store[hash(raw)].rawLen == |raw|
  {
    assert RowGood(store, hash(raw), hash, decompress, inPlay);
  }

  lemma {:induction false} CompressedIsGood(raw: bytes, hash: Hash, compress: Compress, decompress: Decompress, inPlay: set<bytes>)
    requires Inverse(compress, decompress) && |raw| <= CHUNK && raw in inPlay
    ensures GoodBytes(hash(raw), |raw|, compress(raw), hash, decompress, inPlay)
  {
    assert decompress(compress(raw)) == Some(raw);
  }

  lemma {:induction false} StoreGrows(store: ChunkStore, id: HashId, row: Stored, hash: Hash, decompress: Decompress, inPlay: set<bytes>)
    requires StoreOk(store, hash, decompress, inPlay) && id !in store && GoodBytes(id, row.rawLen, row.compressed, hash, decompress, inPlay)
    ensures StoreOk(store[id := row], hash, decompress, inPlay) && Grows(store, store[id := row])
  {
    var s := store[id := row];
    forall x | x in s ensures RowGood(s, x, hash, decompress, inPlay) {
      if x != id { assert RowGood(store, x, hash, decompress, inPlay); }
    }
  }

  lemma {:induction false} UploadsSucceed(store: ChunkStore, data: bytes, jobs: seq<UploadJob>, hash: Hash, compress: Compress, decompress: Decompress, inPlay: set<bytes>)
    requires CollisionFree(hash, inPlay) && Inverse(compress, decompress) && StoreOk(store, hash, decompress, inPlay)
    requires forall job :: job in jobs ==> JobGood(data, job, hash) && Played(data, job, inPlay)
    ensures var r := RunUploads(store, data, jobs, hash, compress);
      r.Ok? && StoreOk(r.value, hash, decompress, inPlay) && Grows(store, r.value) && forall job :: job in jobs ==> job.chunkId in r.value
  {
    if jobs != [] {
      var init, last := jobs[..|jobs| - 1], jobs[|jobs| - 1];
      assert jobs == init + [last];
      UploadsSucceed(store, data, init, hash, compress, decompress, inPlay);
      UploadSucceeds(RunUploads(store, data, init, hash, compress).value, data, last, hash, compress, decompress, inPlay);
    }
  }

  datatype ChunkResult = ChunkResult(chunkId: HashId, raw: bytes)

  /** `download_chunk_job`: fetch, decompress, check length and hash. */
  function DownloadChunk(store: ChunkStore, id: HashId, hash: Hash, decompress: Decompress): Result<ChunkResult> {
    if id !in store then Err(ChunkNotFound(id))
    else match decompress(store[id].compressed)
      case None => Err(InvalidData)
      case Some(raw) => if |raw| > CHUNK || hash(raw) != id then Err(HashMismatch(0)) else Ok(ChunkResult(id, raw))
  }

  /* ---- The output file ---- */

  datatype WriteJob = WriteJob(offset: nat, raw: bytes)

  /** The download callback: the right chunk of the right length, or an error. */
  function Accept(job: DownloadJob, got: Result<ChunkResult>): Result<WriteJob> {
    match got
    case Err(e) => Err(e)
    case Ok(chunk) =>
      if chunk.chunkId != job.chunkId || |chunk.raw| != job.len then Err(InvalidData) else Ok(WriteJob(job.offset, chunk.raw))
  }

  function Deliver(store: ChunkStore, job: DownloadJob, hash: Hash, decompress: Decompress): Result<WriteJob> {
    Accept(job, DownloadChunk(store, job.chunkId, hash, decompress))
  }

  function DeliverAll(store: ChunkStore, jobs: seq<DownloadJob>, hash: Hash, decompress: Decompress): Result<seq<WriteJob>> {
    if jobs == [] then Ok([])
    else match DeliverAll(store, jobs[..|jobs| - 1], hash, decompress)
      case Err(e) => Err(e)
      case Ok(writes) =>
        match Deliver(store, jobs[|jobs| - 1], hash, decompress)
        case Err(e) => Err(e)
        case Ok(w) => Ok(writes + [w])
  }

  predicate Fits(job: WriteJob, n: nat) { job.offset + |job.raw| <= n }

  function Splice(file: bytes, job: WriteJob): (r: bytes)
    requires Fits(job, |file|)
    ensures |r| == |file|
  {
    file[..job.offset] + job.raw + file[job.offset + |job.raw|..]
  }

  function Written(file: bytes, jobs: seq<WriteJob>): (r: bytes)
    requires forall i :: 0 <= i < |jobs| ==> Fits(jobs[i], |file|)
    ensures |r| == |file|
  {
    if jobs == [] then file else Splice(Written(file, jobs[..|jobs| - 1]), jobs[|jobs| - 1])
  }

  /** The writer task: seek and write, job by job, into the preallocated file. */
  method WriteAll(output: array<V.byte>, jobs: seq<WriteJob>)
    requires forall i :: 0 <= i < |jobs| ==> Fits(jobs[i], output.Length)
    modifies output
    ensures output[..] == Written(old(output[..]), jobs)
  {
    for i := 0 to |jobs|
      invariant output[..] == Written(old(output[..]), jobs[..i])
    {
      assert jobs[..i + 1][..i] == jobs[..i];
      WriteOne(output, jobs[i]);
    }
    assert jobs[..|jobs|] == jobs;
  }

  method WriteOne(output: array<V.byte>, job: WriteJob)
    requires Fits(job, output.Length)
    modifies output
    ensures output[..] == Splice(old(output[..]), job)
  {
    ghost var was := output[..];
    for k := 0 to |job.raw|
      invariant forall j :: 0 <= j < output.Length ==>
        output[j] == if job.offset <= j < job.offset + k then job.raw[j - job.offset] else was[j]
    {
      output[job.offset + k] := job.raw[k];
    }
    assert output[..] == Splice(was, job);
  }

  /** The write carries the file's own bytes. */
  predicate Agrees(data: bytes, job: WriteJob) {
    Fits(job, |data|) && job.raw == data[job.offset..job.offset + |job.raw|]
  }

  predicate Covers(job: WriteJob, k: nat) { job.offset <= k < job.offset + |job.raw| }

  /** Writes that agree with the file put its bytes wherever one of them reaches, in any order. */
  lemma {:induction false} WrittenBytes(data: bytes, blank: bytes, jobs: seq<WriteJob>, k: nat)
    requires |blank| == |data| && k < |data| && forall i :: 0 <= i < |jobs| ==> Agrees(data, jobs[i])
    ensures forall i :: 0 <= i < |jobs| ==> Fits(jobs[i], |blank|)
    ensures Written(blank, jobs)[k] == if exists i :: 0 <= i < |jobs| && Covers(jobs[i], k) then data[k] else blank[k]
  {
    if jobs != [] {
      var init, last := jobs[..|jobs| - 1], jobs[|jobs| - 1];
      assert forall i :: 0 <= i < |init| ==> init[i] == jobs[i];
      WrittenBytes(data, blank, init, k);
      SplicedByte(data, Written(blank, init), last, k);
      Reached(jobs, init, last, k);
    }
  }

  lemma {:induction false} SplicedByte(data: bytes, file: bytes, job: WriteJob, k: nat)
    requires |file| == |data| && k < |data| && Agrees(data, job)
    ensures Splice(file, job)[k] == if Covers(job, k) then data[k] else file[k]
  {}

  lemma {:induction false} Reached(jobs: seq<WriteJob>, init: seq<WriteJob>, last: WriteJob, k: nat)
    requires jobs == init + [last]
    ensures (exists i :: 0 <= i < |jobs| && Covers(jobs[i], k)) <==>
      Covers(last, k) || exists i :: 0 <= i < |init| && Covers(init[i], k)
  {
    if i :| 0 <= i < |jobs| && Covers(jobs[i], k) {
      if i < |init| { assert Covers(init[i], k); }
    }
    if i :| 0 <= i < |init| && Covers(init[i], k) { assert Covers(jobs[i], k); }
    assert jobs[|init|] == last;
  }

  /* ---- What an upload produces ---- */

  /** The chunks of bundle `b` as both sides see them. */
  lemma {:induction false} BundleTargets(data: bytes, b: nat, grant: nat -> nat, hash: Hash, bundle: PlanBundle, i: nat)
    requires FullReads(|data|, grant) && b < Bundles(|data|) && b * BUNDLE <= |data| && |data| <= U64_MAX
    requires bundle == PlanBundle(b, BundleRaw(|data|, b), Refs(data, SpansOf(|data|, b, grant), hash))
    requires i < |bundle.chunks|
    ensures var job := JobsOf(data, SpansOf(|data|, b, grant), hash)[i];
      && JobGood(data, job, hash) && CheckChunk(|data|, bundle, bundle.chunks[i]) == None
      && TargetOf(bundle, bundle.chunks[i]) == Fetch(job)
  {
    var n := |data|;
    var spans := SpansOf(n, b, grant);
    FullSpans(n, b, 0, grant);
    assert IsSlot(spans[i], n, b, 0 + i);
    assert Inside(spans[i], n);
  }

  /** The download job that fetches what an upload job put. */
  function Fetch(job: UploadJob): DownloadJob { DownloadJob(job.chunkId, job.sourceOffset, job.rawLen) }

  function FetchAll(jobs: seq<UploadJob>): (r: seq<DownloadJob>)
    ensures |r| == |jobs|
  {
    seq(|jobs|, i requires 0 <= i < |jobs| => Fetch(jobs[i]))
  }

  /** The first `m` bundles of the read plan of an uploaded file. */
  ghost predicate IsPlan(data: bytes, grant: nat -> nat, hash: Hash, plan: seq<PlanBundle>) {
    && |plan| <= Bundles(|data|)
    && forall b: nat :: b < |plan| ==> PlanEntry(data, grant, hash, plan, b)
  }

  ghost predicate PlanEntry(data: bytes, grant: nat -> nat, hash: Hash, plan: seq<PlanBundle>, b: nat)
    requires b < |plan|
  {
    b * BUNDLE <= |data| && plan[b] == PlanBundle(b, BundleRaw(|data|, b), Refs(data, SpansOf(|data|, b, grant), hash))
  }

  /** With full reads, upload and download cut the file into the same chunks: the download's
      targets are the upload's jobs, one by one, and all range checks pass. */
  lemma {:induction false} SamePartition(data: bytes, grant: nat -> nat, hash: Hash, plan: seq<PlanBundle>)
    requires FullReads(|data|, grant) && |data| <= U64_MAX && IsPlan(data, grant, hash, plan)
    ensures AllTargets(plan) == FetchAll(UploadJobs(data, |plan|, grant, hash))
    ensures forall b :: 0 <= b < |plan| ==> ChecksPass(|data|, plan[b])
  {
    forall b: nat | b < |plan| ensures ChecksPass(|data|, plan[b]) {
      assert PlanEntry(data, grant, hash, plan, b);
      LastBundle(data, b, grant, hash, plan[b]);
    }
    SameTargets(data, grant, hash, plan);
  }

  lemma {:induction false} SameTargets(data: bytes, grant: nat -> nat, hash: Hash, plan: seq<PlanBundle>)
    requires FullReads(|data|, grant) && |data| <= U64_MAX && IsPlan(data, grant, hash, plan)
    ensures AllTargets(plan) == FetchAll(UploadJobs(data, |plan|, grant, hash))
  {
    if plan != [] {
      var b := |plan| - 1;
      var init := plan[..b];
      forall k: nat | k < b ensures PlanEntry(data, grant, hash, init, k) { assert PlanEntry(data, grant, hash, plan, k); }
      SameTargets(data, grant, hash, init);
      assert PlanEntry(data, grant, hash, plan, b);
      LastBundle(data, b, grant, hash, plan[b]);
      FetchConcat(UploadJobs(data, b, grant, hash), JobsOf(data, SpansOf(|data|, b, grant), hash));
    }
  }

  lemma {:induction false} FetchConcat(a: seq<UploadJob>, b: seq<UploadJob>)
    ensures FetchAll(a + b) == FetchAll(a) + FetchAll(b)
  {}

  lemma {:induction false} JobsGood(data: bytes, m: nat, grant: nat -> nat, hash: Hash, job: UploadJob)
    requires m <= Bundles(|data|) && job in UploadJobs(data, m, grant, hash)
    ensures JobGood(data, job, hash)
  {
    BundleStarts(|data|, m);
    var b := m - 1;
    if job in UploadJobs(data, b, grant, hash) {
      JobsGood(data, b, grant, hash, job);
    } else {
      BundleJobsGood(data, b, grant, hash, job);
    }
  }

  lemma {:induction false} BundleJobsGood(data: bytes, b: nat, grant: nat -> nat, hash: Hash, job: UploadJob)
    requires b * BUNDLE <= |data| && job in JobsOf(data, SpansOf(|data|, b, grant), hash)
    ensures JobGood(data, job, hash)
  {
    var spans := SpansOf(|data|, b, grant);
    var i :| 0 <= i < |spans| && JobsOf(data, spans, hash)[i] == job;
    SpansTile(|data|, b * BUNDLE, BUNDLE, grant);
    TilesWithin(spans, b * BUNDLE, b * BUNDLE + BundleRaw(|data|, b), i);
    assert Span(job.sourceOffset, job.rawLen) == spans[i];
  }

  lemma {:induction false} LastBundle(data: bytes, b: nat, grant: nat -> nat, hash: Hash, bundle: PlanBundle)
    requires FullReads(|data|, grant) && |data| <= U64_MAX && b < Bundles(|data|) && b * BUNDLE <= |data|
    requires bundle == PlanBundle(b, BundleRaw(|data|, b), Refs(data, SpansOf(|data|, b, grant), hash))
    ensures var jobs := JobsOf(data, SpansOf(|data|, b, grant), hash);
      && TargetsOf(bundle, |bundle.chunks|) == FetchAll(jobs) && ChecksPass(|data|, bundle)
      && forall job :: job in jobs ==> JobGood(data, job, hash)
  {
    var jobs := JobsOf(data, SpansOf(|data|, b, grant), hash);
    forall i: nat | i < |jobs|
      ensures TargetOf(bundle, bundle.chunks[i]) == Fetch(jobs[i]) && CheckChunk(|data|, bundle, bundle.chunks[i]) == None
      ensures JobGood(data, jobs[i], hash)
    {
      BundleTargets(data, b, grant, hash, bundle, i);
    }
    BundleStarts(|data|, b);
  }

  /** Every byte of the first bundles lies in some job. */
  lemma {:induction false} JobsCover(data: bytes, m: nat, grant: nat -> nat, hash: Hash, k: nat) returns (i: nat)
    requires m <= Bundles(|data|) && k < Min(m * BUNDLE, |data|)
    ensures var jobs := UploadJobs(data, m, grant, hash);
      i < |jobs| && jobs[i].sourceOffset <= k < jobs[i].sourceOffset + jobs[i].rawLen
  {
    var b := m - 1;
    BundleStarts(|data|, m);
    var before := UploadJobs(data, b, grant, hash);
    if k < b * BUNDLE {
      i := JobsCover(data, b, grant, hash, k);
    } else {
      var spans := SpansOf(|data|, b, grant);
      SpansTile(|data|, b * BUNDLE, BUNDLE, grant);
      var j := TilesCover(spans, b * BUNDLE, b * BUNDLE + BundleRaw(|data|, b), k);
      i := |before| + j;
      assert UploadJobs(data, m, grant, hash)[i] == JobsOf(data, spans, hash)[j];
    }
  }

  /* ---- There and back ---- */

  /** The storages' bundle table: lists numbered from 0 that hash to their ids. */
  ghost predicate ListsOk(lists: map<HashId, seq<V.BundleChunkRef>>, bundleHash: BundleHash) {
    forall b :: b in lists ==> V.Contiguous(lists[b]) && bundleHash(V.ChunkIds(lists[b])) == b
  }

  /** The bundles of the file are stored, and the id lists involved are in play. */
  ghost predicate Listed(split: Split, lists: map<HashId, seq<V.BundleChunkRef>>, idLists: set<seq<HashId>>) {
    forall b {:trigger split.bundles[b]} :: 0 <= b < |split.bundles| ==>
      var id := split.bundles[b].bundleId;
      id in lists && V.ChunkIds(lists[id]) in idLists && V.ChunkIds(split.bundles[b].chunks) in idLists
  }

  /** The plan's bundles, each with the chunk list stored under its id. */
  function FetchPlan(split: Split, lists: map<HashId, seq<V.BundleChunkRef>>): (plan: seq<PlanBundle>)
    requires forall b :: 0 <= b < |split.bundles| ==> split.bundles[b].bundleId in lists
    ensures |plan| == |split.bundles|
  {
    seq(|split.bundles|, b requires 0 <= b < |split.bundles| =>
      PlanBundle(b, split.bundles[b].rawLen, lists[split.bundles[b].bundleId]))
  }

  lemma {:induction false} SameList(a: seq<V.BundleChunkRef>, b: seq<V.BundleChunkRef>)
    requires V.Contiguous(a) && V.Contiguous(b) && V.ChunkIds(a) == V.ChunkIds(b)
    ensures a == b
  {
    assert |V.ChunkIds(a)| == |a| && |V.ChunkIds(b)| == |b|;
    forall i | 0 <= i < |a| ensures a[i] == b[i] {
      assert V.ChunkIds(a)[i] == a[i].chunkId && V.ChunkIds(b)[i] == b[i].chunkId;
    }
  }

  /** The list stored under a bundle's id is the one that was uploaded. */
  lemma {:induction false} StoredList(data: bytes, b: nat, grant: nat -> nat, hash: Hash, bundleHash: BundleHash,
                                      lists: map<HashId, seq<V.BundleChunkRef>>, idLists: set<seq<HashId>>)
    requires CollisionFree(bundleHash, idLists) && ListsOk(lists, bundleHash) && b < Bundles(|data|) && b * BUNDLE <= |data|
    requires Listed(SplitOf(data, grant, hash, bundleHash), lists, idLists)
    ensures var id := BundleOf(data, b, grant, hash, bundleHash).bundleId;
      SplitOf(data, grant, hash, bundleHash).bundles[b] == BundleOf(data, b, grant, hash, bundleHash)
      && id in lists && lists[id] == Refs(data, SpansOf(|data|, b, grant), hash)
  {
    var split := SplitOf(data, grant, hash, bundleHash);
    assert split.bundles[b] == BundleOf(data, b, grant, hash, bundleHash);
    SameList(lists[split.bundles[b].bundleId], split.bundles[b].chunks);
  }

  lemma {:induction false} FetchedIsPlan(data: bytes, grant: nat -> nat, hash: Hash, bundleHash: BundleHash,
                                         lists: map<HashId, seq<V.BundleChunkRef>>, idLists: set<seq<HashId>>)
    requires CollisionFree(bundleHash, idLists) && ListsOk(lists, bundleHash)
    requires Listed(SplitOf(data, grant, hash, bundleHash), lists, idLists)
    ensures IsPlan(data, grant, hash, FetchPlan(SplitOf(data, grant, hash, bundleHash), lists))
  {
    var plan := FetchPlan(SplitOf(data, grant, hash, bundleHash), lists);
    forall b: nat | b < |plan| ensures PlanEntry(data, grant, hash, plan, b) {
      BundleStarts(|data|, b);
      StoredList(data, b, grant, hash, bundleHash, lists, idLists);
    }
  }

  /** The write puts the piece of the file that the job named. */
  predicate Carries(data: bytes, job: UploadJob, write: WriteJob) {
    var span := Span(job.sourceOffset, job.rawLen);
    Inside(span, |data|) && write == WriteJob(job.sourceOffset, Piece(data, span))
  }

  /** A good job's chunk comes back as the piece of the file it named. */
  lemma {:induction false} DeliversPiece(data: bytes, store: ChunkStore, job: UploadJob, hash: Hash, decompress: Decompress, inPlay: set<bytes>)
    requires CollisionFree(hash, inPlay) && StoreOk(store, hash, decompress, inPlay)
    requires JobGood(data, job, hash) && Played(data, job, inPlay) && job.chunkId in store
    ensures var r := Deliver(store, Fetch(job), hash, decompress); r.Ok? && Carries(data, job, r.value)
  {
    assert RowGood(store, job.chunkId, hash, decompress, inPlay);
  }

  ghost predicate Fetchable(data: bytes, store: ChunkStore, job: UploadJob, hash: Hash, inPlay: set<bytes>) {
    JobGood(data, job, hash) && Played(data, job, inPlay) && job.chunkId in store
  }

  /** What jobs in any order deliver: one agreeing write each. */
  lemma {:induction false} DeliversAll(data: bytes, store: ChunkStore, jobs: seq<UploadJob>, hash: Hash, decompress: Decompress, inPlay: set<bytes>)
    requires CollisionFree(hash, inPlay) && StoreOk(store, hash, decompress, inPlay)
    requires forall i :: 0 <= i < |jobs| ==> Fetchable(data, store, jobs[i], hash, inPlay)
    ensures var r := DeliverAll(store, FetchAll(jobs), hash, decompress);
      && r.Ok? && |r.value| == |jobs|
      && forall i :: 0 <= i < |jobs| ==> Carries(data, jobs[i], r.value[i])
  {
    if jobs != [] {
      var init, last := jobs[..|jobs| - 1], jobs[|jobs| - 1];
      forall i | 0 <= i < |init| ensures Fetchable(data, store, init[i], hash, inPlay) {
        assert Fetchable(data, store, jobs[i], hash, inPlay);
      }
      DeliversAll(data, store, init, hash, decompress, inPlay);
      assert FetchAll(jobs)[..|jobs| - 1] == FetchAll(init);
      assert Fetchable(data, store, jobs[|jobs| - 1], hash, inPlay);
      DeliversPiece(data, store, last, hash, decompress, inPlay);
      ghost var writes := DeliverAll(store, FetchAll(jobs), hash, decompress).value;
      ghost var before := DeliverAll(store, FetchAll(init), hash, decompress).value;
      forall i | 0 <= i < |jobs| ensures Carries(data, jobs[i], writes[i]) {
        if i < |init| { assert Carries(data, init[i], before[i]); }
      }
    }
  }

  /** Writes of all pieces, in whatever order they arrive, rebuild the file. */
  lemma {:induction false} Rebuilds(data: bytes, blank: bytes, jobs: seq<UploadJob>, writes: seq<WriteJob>, grant: nat -> nat, hash: Hash)
    requires |blank| == |data| && |writes| == |jobs|
    requires multiset(jobs) == multiset(UploadJobs(data, Bundles(|data|), grant, hash))
    requires forall i :: 0 <= i < |jobs| ==> Carries(data, jobs[i], writes[i])
    ensures forall i :: 0 <= i < |writes| ==> Fits(writes[i], |blank|)
    ensures Written(blank, writes) == data
  {
    forall i | 0 <= i < |writes| ensures Agrees(data, writes[i]) {
      assert Carries(data, jobs[i], writes[i]);
    }
    assert forall i :: 0 <= i < |writes| ==> Agrees(data, writes[i]) && Fits(writes[i], |blank|);
    forall k: nat | k < |data| ensures Written(blank, writes)[k] == data[k] {
      WrittenBytes(data, blank, writes, k);
      var i := Arrives(data, jobs, grant, hash, k);
      assert Carries(data, jobs[i], writes[i]);
      assert Covers(writes[i], k);
    }
  }

  lemma {:induction false} Arrives(data: bytes, jobs: seq<UploadJob>, grant: nat -> nat, hash: Hash, k: nat) returns (i: nat)
    requires k < |data| && multiset(jobs) == multiset(UploadJobs(data, Bundles(|data|), grant, hash))
    ensures i < |jobs| && jobs[i].sourceOffset <= k < jobs[i].sourceOffset + jobs[i].rawLen
  {
    var all := UploadJobs(data, Bundles(|data|), grant, hash);
    BundleStarts(|data|, Bundles(|data|));
    var j := JobsCover(data, Bundles(|data|), grant, hash, k);
    assert all[j] in multiset(jobs);
    i :| 0 <= i < |jobs| && jobs[i] == all[j];
  }

  /** From a sound store that has the chunks of the file: the download's range checks pass,
      every chunk is delivered, and writing the chunks in any order into a file of the right
      length gives the bytes. */
  lemma {:induction false} Downloads(data: bytes, grant: nat -> nat, hash: Hash, decompress: Decompress, inPlay: set<bytes>,
                                     store: ChunkStore, plan: seq<PlanBundle>, fetched: seq<UploadJob>, blank: bytes)
    requires |data| <= U64_MAX && FullReads(|data|, grant) && CollisionFree(hash, inPlay) && StoreOk(store, hash, decompress, inPlay)
    requires IsPlan(data, grant, hash, plan) && |plan| == Bundles(|data|) && |blank| == |data|
    requires multiset(fetched) == multiset(UploadJobs(data, Bundles(|data|), grant, hash))
    requires forall job :: job in UploadJobs(data, Bundles(|data|), grant, hash) ==> Played(data, job, inPlay) && job.chunkId in store
    ensures AllPass(|data|, plan) && multiset(FetchAll(fetched)) == multiset(AllTargets(plan))
    ensures var writes := DeliverAll(store, FetchAll(fetched), hash, decompress);
      && writes.Ok? && (forall i :: 0 <= i < |writes.value| ==> Fits(writes.value[i], |blank|))
      && Written(blank, writes.value) == data
  {
    var all := UploadJobs(data, Bundles(|data|), grant, hash);
    forall i | 0 <= i < |fetched| ensures Fetchable(data, store, fetched[i], hash, inPlay) {
      assert fetched[i] in multiset(all);
      JobsGood(data, Bundles(|data|), grant, hash, fetched[i]);
    }
    SamePartition(data, grant, hash, plan);
    FetchSame(fetched, all);
    DeliversAll(data, store, fetched, hash, decompress, inPlay);
    Rebuilds(data, blank, fetched, DeliverAll(store, FetchAll(fetched), hash, decompress).value, grant, hash);
  }

  /** The round trip. For a file of any size, read in full reads: uploading its chunks in any
      order succeeds on any sound store, and a later download from the grown store gives back
      the bytes. */
  lemma {:induction false} RoundTrips(data: bytes, grant: nat -> nat, hash: Hash, bundleHash: BundleHash, compress: Compress, decompress: Decompress,
                                      inPlay: set<bytes>, idLists: set<seq<HashId>>, store: ChunkStore, puts: seq<UploadJob>, later: ChunkStore,
                                      lists: map<HashId, seq<V.BundleChunkRef>>, fetched: seq<UploadJob>, blank: bytes)
    requires |data| <= U64_MAX && FullReads(|data|, grant) && |blank| == |data|
    requires CollisionFree(hash, inPlay) && CollisionFree(bundleHash, idLists) && Inverse(compress, decompress)
    requires StoreOk(store, hash, decompress, inPlay) && StoreOk(later, hash, decompress, inPlay) && ListsOk(lists, bundleHash)
    requires Listed(SplitOf(data, grant, hash, bundleHash), lists, idLists)
    requires forall job :: job in SplitOf(data, grant, hash, bundleHash).jobs ==> Played(data, job, inPlay)
    requires multiset(puts) == multiset(SplitOf(data, grant, hash, bundleHash).jobs) == multiset(fetched)
    requires RunUploads(store, data, puts, hash, compress).Ok? ==> Grows(RunUploads(store, data, puts, hash, compress).value, later)
    ensures RunUploads(store, data, puts, hash, compress).Ok?
    ensures var plan := FetchPlan(SplitOf(data, grant, hash, bundleHash), lists);
      AllPass(|data|, plan) && multiset(FetchAll(fetched)) == multiset(AllTargets(plan))
    ensures var writes := DeliverAll(later, FetchAll(fetched), hash, decompress);
      && writes.Ok? && (forall i :: 0 <= i < |writes.value| ==> Fits(writes.value[i], |blank|))
      && Written(blank, writes.value) == data
  {
    var all := UploadJobs(data, Bundles(|data|), grant, hash);
    forall job | job in puts ensures JobGood(data, job, hash) && Played(data, job, inPlay) {
      assert job in multiset(all);
      JobsGood(data, Bundles(|data|), grant, hash, job);
    }
    UploadsSucceed(store, data, puts, hash, compress, decompress, inPlay);
    forall job | job in all ensures Played(data, job, inPlay) && job.chunkId in later {
      assert job in multiset(puts);
      assert job in puts;
    }
    FetchedIsPlan(data, grant, hash, bundleHash, lists, idLists);
    Downloads(data, grant, hash, decompress, inPlay, later, FetchPlan(SplitOf(data, grant, hash, bundleHash), lists), fetched, blank);
  }

  function Without(s: seq<UploadJob>, i: nat): seq<UploadJob>
    requires i < |s|
  {
    s[..i] + s[i + 1..]
  }

  lemma {:induction false} WithoutOne(s: seq<UploadJob>, i: nat)
    requires i < |s|
    ensures multiset(Without(s, i)) == multiset(s) - multiset{s[i]}
    ensures multiset(FetchAll(s)) == multiset(FetchAll(Without(s, i))) + multiset{Fetch(s[i])}
  {
    assert s == s[..i] + [s[i]] + s[i + 1..];
    FetchConcat(s[..i] + [s[i]], s[i + 1..]);
    FetchConcat(s[..i], [s[i]]);
    FetchConcat(s[..i], s[i + 1..]);
    assert FetchAll([s[i]]) == [Fetch(s[i])];
  }

  lemma {:induction false} FetchSame(a: seq<UploadJob>, b: seq<UploadJob>)
    requires multiset(a) == multiset(b)
    ensures multiset(FetchAll(a)) == multiset(FetchAll(b))
  {
    if a == [] {
      assert |multiset(b)| == 0;
    } else {
      assert a[0] in multiset(b);
      var i :| 0 <= i < |b| && b[i] == a[0];
      WithoutOne(a, 0);
      WithoutOne(b, i);
      FetchSame(Without(a, 0), Without(b, i));
    }
  }
}
