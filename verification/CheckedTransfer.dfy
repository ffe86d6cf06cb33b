/** What the client's own checks guarantee: a download with answers from storages that can say
    anything, and an upload of a file that may have changed since it was cut into chunks. */
module CheckedTransfer {
  import opened Core
  import opened Transfer
  import opened RoundTrip

  /* ---- Download ---- */

  /** The stored bytes decompress to bytes of the job's length that hash to its chunk id. */
  predicate Answers(store: ChunkStore, job: DownloadJob, hash: Hash, decompress: Decompress, raw: bytes) {
    && job.chunkId in store && decompress(store[job.chunkId].compressed) == Some(raw)
    && |raw| == job.len <= 1_048_576 && hash(raw) == job.chunkId
  }

  /** A chunk is passed on to the writer if and only if it is the one asked for. */
  lemma {:induction false} DeliversIff(store: ChunkStore, job: DownloadJob, hash: Hash, decompress: Decompress, w: WriteJob)
    ensures Deliver(store, job, hash, decompress) == Ok(w) <==> w.offset == job.offset && Answers(store, job, hash, decompress, w.raw)
  {}

  lemma {:induction false} AllDeliver(store: ChunkStore, jobs: seq<DownloadJob>, hash: Hash, decompress: Decompress, i: nat)
    requires DeliverAll(store, jobs, hash, decompress).Ok? && i < |jobs|
    ensures var writes := DeliverAll(store, jobs, hash, decompress).value;
      |writes| == |jobs| && writes[i].offset == jobs[i].offset && Answers(store, jobs[i], hash, decompress, writes[i].raw)
  {
    var n := |jobs| - 1;
    DeliversIff(store, jobs[n], hash, decompress, Deliver(store, jobs[n], hash, decompress).value);
    if n > 0 { AllDeliver(store, jobs[..n], hash, decompress, if i < n then i else 0); }
  }

  lemma {:induction false} TargetListed(plan: seq<PlanBundle>, b: nat, j: nat)
    requires b < |plan| && j < |plan[b].chunks|
    ensures TargetOf(plan[b], plan[b].chunks[j]) in AllTargets(plan)
  {
    var n := |plan| - 1;
    if b < n {
      TargetListed(plan[..n], b, j);
    } else {
      assert TargetsOf(plan[n], |plan[n].chunks|)[j] == TargetOf(plan[b], plan[b].chunks[j]);
    }
  }

  /** All targets, and only targets, were fetched, some maybe more than once, and each fetch
      passed the checks with bytes in play. */
  ghost predicate Fetched(plan: seq<PlanBundle>, fetched: seq<DownloadJob>, store: ChunkStore, hash: Hash, decompress: Decompress, inPlay: set<bytes>) {
    && (forall job :: job in fetched <==> job in AllTargets(plan))
    && DeliverAll(store, fetched, hash, decompress).Ok?
    && var writes := DeliverAll(store, fetched, hash, decompress).value;
    forall i :: 0 <= i < |writes| ==> writes[i].raw in inPlay
  }

  /** What was fetched under the id of a piece of the file is that piece. */
  lemma {:induction false} FetchedPiece(data: bytes, span: Span, plan: seq<PlanBundle>, fetched: seq<DownloadJob>, store: ChunkStore,
                                        hash: Hash, decompress: Decompress, inPlay: set<bytes>, i: nat)
    requires CollisionFree(hash, inPlay) && Fetched(plan, fetched, store, hash, decompress, inPlay)
    requires Inside(span, |data|) && Piece(data, span) in inPlay && i < |fetched| && fetched[i].chunkId == hash(Piece(data, span))
    ensures var writes := DeliverAll(store, fetched, hash, decompress).value;
      i < |writes| && writes[i] == WriteJob(fetched[i].offset, Piece(data, span)) && fetched[i].len == span.len
  {
    AllDeliver(store, fetched, hash, decompress, i);
  }

  ghost predicate AllPlayed(data: bytes, grant: nat -> nat, hash: Hash, inPlay: set<bytes>) {
    forall job :: job in UploadJobs(data, Bundles(|data|), grant, hash) ==> Played(data, job, inPlay)
  }

  lemma {:induction false} SpanJob(data: bytes, grant: nat -> nat, hash: Hash, m: nat, b: nat, j: nat)
    requires b < m <= Bundles(|data|) && b * BUNDLE <= |data| && j < |SpansOf(|data|, b, grant)|
    ensures JobsOf(data, SpansOf(|data|, b, grant), hash)[j] in UploadJobs(data, m, grant, hash)
  {
    BundleStarts(|data|, m);
    var last := JobsOf(data, SpansOf(|data|, m - 1, grant), hash);
    UploadJobsNext(data, m - 1, grant, hash);
    if b < m - 1 {
      SpanJob(data, grant, hash, m - 1, b, j);
      InConcat(UploadJobs(data, m - 1, grant, hash), last, JobsOf(data, SpansOf(|data|, b, grant), hash)[j]);
    } else {
      InConcat(UploadJobs(data, m - 1, grant, hash), last, last[j]);
    }
  }

  lemma {:induction false} InConcat(a: seq<UploadJob>, b: seq<UploadJob>, job: UploadJob)
    requires job in a || job in b
    ensures job in a + b
  {}

  /** Each chunk came back with the length the download expects there. */
  lemma {:induction false} FetchedLength(data: bytes, grant: nat -> nat, hash: Hash, decompress: Decompress, inPlay: set<bytes>, store: ChunkStore,
                                         plan: seq<PlanBundle>, fetched: seq<DownloadJob>, b: nat, j: nat)
    requires CollisionFree(hash, inPlay) && IsPlan(data, grant, hash, plan) && AllPlayed(data, grant, hash, inPlay)
    requires Fetched(plan, fetched, store, hash, decompress, inPlay)
    requires b < |plan| && b * BUNDLE <= |data| && j < |SpansOf(|data|, b, grant)|
    ensures j < |plan[b].chunks| && TargetOf(plan[b], plan[b].chunks[j]).len == SpansOf(|data|, b, grant)[j].len
  {
    assert PlanEntry(data, grant, hash, plan, b);
    var spans := SpansOf(|data|, b, grant);
    var target := TargetOf(plan[b], plan[b].chunks[j]);
    TargetListed(plan, b, j);
    var i :| 0 <= i < |fetched| && fetched[i] == target;
    SpanJob(data, grant, hash, Bundles(|data|), b, j);
    assert Inside(spans[j], |data|);
    assert JobsOf(data, spans, hash)[j] == UploadJob(hash(Piece(data, spans[j])), spans[j].len, spans[j].offset);
    assert Played(data, UploadJob(hash(Piece(data, spans[j])), spans[j].len, spans[j].offset), inPlay);
    FetchedPiece(data, spans[j], plan, fetched, store, hash, decompress, inPlay, i);
  }

  /** So all reads of the upload were full. */
  lemma {:induction false} FetchedMeansFull(data: bytes, grant: nat -> nat, hash: Hash, bundleHash: BundleHash, decompress: Decompress,
                                            inPlay: set<bytes>, store: ChunkStore, plan: seq<PlanBundle>, fetched: seq<DownloadJob>)
    requires |data| <= U64_MAX && CollisionFree(hash, inPlay) && AllPlayed(data, grant, hash, inPlay)
    requires IsPlan(data, grant, hash, plan) && |plan| == Bundles(|data|) && AllPass(|data|, plan)
    requires Fetched(plan, fetched, store, hash, decompress, inPlay)
    ensures FullReads(|data|, grant)
  {
    forall b: nat | b < Bundles(|data|) ensures BundleAccepted(data, b, grant, hash, bundleHash) {
      BundleStarts(|data|, b);
      assert PlanEntry(data, grant, hash, plan, b) && ChecksPass(|data|, plan[b]);
      assert PlanOf(SplitOf(data, grant, hash, bundleHash))[b] == plan[b];
      forall j: nat | j < |SpansOf(|data|, b, grant)|
        ensures TargetOf(plan[b], plan[b].chunks[j]).len == SpansOf(|data|, b, grant)[j].len
      {
        FetchedLength(data, grant, hash, decompress, inPlay, store, plan, fetched, b, j);
      }
    }
    DownloadAcceptsIff(data, grant, hash, bundleHash);
  }

  /** The writes of what was fetched carry the file's bytes. */
  lemma {:induction false} FetchedAgree(data: bytes, grant: nat -> nat, hash: Hash, decompress: Decompress, inPlay: set<bytes>, store: ChunkStore,
                                        plan: seq<PlanBundle>, fetched: seq<DownloadJob>, i: nat) returns (job: UploadJob)
    requires CollisionFree(hash, inPlay) && AllPlayed(data, grant, hash, inPlay) && Fetched(plan, fetched, store, hash, decompress, inPlay)
    requires AllTargets(plan) == FetchAll(UploadJobs(data, Bundles(|data|), grant, hash)) && i < |fetched|
    ensures var writes := DeliverAll(store, fetched, hash, decompress).value;
      i < |writes| && fetched[i] == Fetch(job) && Carries(data, job, writes[i])
  {
    var all := UploadJobs(data, Bundles(|data|), grant, hash);
    assert fetched[i] in fetched;
    var k :| 0 <= k < |all| && FetchAll(all)[k] == fetched[i];
    job := all[k];
    JobsGood(data, Bundles(|data|), grant, hash, job);
    assert Played(data, job, inPlay);
    FetchedPiece(data, Span(job.sourceOffset, job.rawLen), plan, fetched, store, hash, decompress, inPlay, i);
  }

  /** Ok means restored: whatever the storages answered, in whatever order, and however the
      upload's reads had been cut, a download whose range checks and chunk checks all passed
      has written the file. The lists of chunk ids are those of the upload. */
  lemma {:induction false} OkMeansRestored(data: bytes, grant: nat -> nat, hash: Hash, bundleHash: BundleHash, decompress: Decompress,
                                           inPlay: set<bytes>, store: ChunkStore, plan: seq<PlanBundle>, fetched: seq<DownloadJob>, blank: bytes)
    requires |data| <= U64_MAX && |blank| == |data| && CollisionFree(hash, inPlay) && AllPlayed(data, grant, hash, inPlay)
    requires IsPlan(data, grant, hash, plan) && |plan| == Bundles(|data|) && AllPass(|data|, plan)
    requires Fetched(plan, fetched, store, hash, decompress, inPlay)
    ensures FullReads(|data|, grant)
    ensures var writes := DeliverAll(store, fetched, hash, decompress).value;
      (forall i :: 0 <= i < |writes| ==> Fits(writes[i], |blank|)) && Written(blank, writes) == data
  {
    FetchedMeansFull(data, grant, hash, bundleHash, decompress, inPlay, store, plan, fetched);
    SamePartition(data, grant, hash, plan);
    var writes := DeliverAll(store, fetched, hash, decompress).value;
    if fetched != [] { AllDeliver(store, fetched, hash, decompress, 0); }
    forall i | 0 <= i < |writes| ensures Agrees(data, writes[i]) {
      var job := FetchedAgree(data, grant, hash, decompress, inPlay, store, plan, fetched, i);
    }
    forall k: nat | k < |data| ensures Written(blank, writes)[k] == data[k] {
      WrittenBytes(data, blank, writes, k);
      var i := FetchedCovers(data, grant, hash, decompress, inPlay, store, plan, fetched, k);
    }
  }

  lemma {:induction false} FetchedCovers(data: bytes, grant: nat -> nat, hash: Hash, decompress: Decompress, inPlay: set<bytes>, store: ChunkStore,
                                         plan: seq<PlanBundle>, fetched: seq<DownloadJob>, k: nat) returns (i: nat)
    requires CollisionFree(hash, inPlay) && AllPlayed(data, grant, hash, inPlay) && Fetched(plan, fetched, store, hash, decompress, inPlay)
    requires AllTargets(plan) == FetchAll(UploadJobs(data, Bundles(|data|), grant, hash)) && k < |data|
    ensures var writes := DeliverAll(store, fetched, hash, decompress).value; i < |writes| && Covers(writes[i], k)
  {
    var all := UploadJobs(data, Bundles(|data|), grant, hash);
    BundleStarts(|data|, Bundles(|data|));
    var j := JobsCover(data, Bundles(|data|), grant, hash, k);
    assert FetchAll(all)[j] == Fetch(all[j]);
    assert Fetch(all[j]) in AllTargets(plan);
    i :| 0 <= i < |fetched| && fetched[i] == Fetch(all[j]);
    var job := FetchedAgree(data, grant, hash, decompress, inPlay, store, plan, fetched, i);
  }

  /* ---- Upload ---- */

  /** The bytes at the job's place, when the file reaches that far. */
  function BytesAt(data: bytes, job: UploadJob): Option<bytes> {
    if job.sourceOffset + job.rawLen > |data| then None else Some(data[job.sourceOffset..job.sourceOffset + job.rawLen])
  }

  /** When one job of an upload goes through, and what it puts: a chunk the store has is left
      alone; another one is read again, and only bytes that still hash to its id are put. */
  lemma {:induction false} UploadsIff(store: ChunkStore, data: bytes, job: UploadJob, hash: Hash, compress: Compress)
    ensures var r, now := UploadChunk(store, data, job, hash, compress), BytesAt(data, job);
      if job.chunkId in store then r == if store[job.chunkId].rawLen == job.rawLen then Ok(store) else Err(InvalidData)
      else if job.rawLen > 1_048_576 then r == Err(InvalidData)
      else if now.None? then r == Err(Io)
      else if hash(now.value) != job.chunkId then r == Err(HashMismatch(job.sourceOffset))
      else r == Ok(store[job.chunkId := Stored(|now.value|, compress(now.value))])
  {}

  /** Job `i` can go through: a chunk the store has has the job's length; the first job of any
      other chunk reads, now, at most a MiB that hashes to its id; jobs of one chunk have one length. */
  ghost predicate Passes(store: ChunkStore, data: bytes, jobs: seq<UploadJob>, hash: Hash, i: nat)
    requires i < |jobs|
  {
    var job := jobs[i];
    && (job.chunkId in store ==> store[job.chunkId].rawLen == job.rawLen)
    && (forall k :: 0 <= k < i && jobs[k].chunkId == job.chunkId ==> jobs[k].rawLen == job.rawLen)
    && (job.chunkId !in store && (forall k :: 0 <= k < i ==> jobs[k].chunkId != job.chunkId) ==>
          job.rawLen <= 1_048_576 && BytesAt(data, job).Some? && hash(BytesAt(data, job).value) == job.chunkId)
  }

  /** The store has grown by chunks of the jobs, and has one of each job, of the job's length. */
  ghost predicate Ran(store: ChunkStore, after: ChunkStore, jobs: seq<UploadJob>) {
    && Grows(store, after)
    && (forall id :: id in after ==> id in store || exists k :: 0 <= k < |jobs| && jobs[k].chunkId == id)
    && (forall k :: 0 <= k < |jobs| ==> jobs[k].chunkId in after && after[jobs[k].chunkId].rawLen == jobs[k].rawLen)
  }

  /** An upload succeeds if and only if each job can go through, whatever the file has become
      since it was cut; then the store has the chunk of each job, with the job's length. */
  lemma {:induction false} UploadsPassIff(store: ChunkStore, data: bytes, jobs: seq<UploadJob>, hash: Hash, compress: Compress)
    ensures RunUploads(store, data, jobs, hash, compress).Ok? <==> forall i :: 0 <= i < |jobs| ==> Passes(store, data, jobs, hash, i)
    ensures var r := RunUploads(store, data, jobs, hash, compress); r.Ok? ==> Ran(store, r.value, jobs)
  {
    if jobs != [] {
      var n := |jobs| - 1;
      var init, last := jobs[..n], jobs[n];
      UploadsPassIff(store, data, init, hash, compress);
      InitPasses(store, data, jobs, hash);
      if RunUploads(store, data, init, hash, compress).Ok? {
        var before := RunUploads(store, data, init, hash, compress).value;
        LastPassesIff(store, before, data, jobs, hash, compress);
        assert RunUploads(store, data, jobs, hash, compress) == UploadChunk(before, data, last, hash, compress);
      }
    }
  }

  lemma {:induction false} InitPasses(store: ChunkStore, data: bytes, jobs: seq<UploadJob>, hash: Hash)
    requires jobs != []
    ensures var init := jobs[..|jobs| - 1];
      (forall i :: 0 <= i < |jobs| ==> Passes(store, data, jobs, hash, i)) <==>
      Passes(store, data, jobs, hash, |jobs| - 1) && forall i :: 0 <= i < |init| ==> Passes(store, data, init, hash, i)
  {
    var init := jobs[..|jobs| - 1];
    forall i: nat | i < |init| ensures Passes(store, data, init, hash, i) <==> Passes(store, data, jobs, hash, i) {
      assert forall k :: 0 <= k <= i ==> init[k] == jobs[k];
    }
  }

  lemma {:induction false} LastPassesIff(store: ChunkStore, before: ChunkStore, data: bytes, jobs: seq<UploadJob>, hash: Hash, compress: Compress)
    requires jobs != [] && Ran(store, before, jobs[..|jobs| - 1])
    ensures var r := UploadChunk(before, data, jobs[|jobs| - 1], hash, compress);
      && (r.Ok? <==> Passes(store, data, jobs, hash, |jobs| - 1))
      && (r.Ok? ==> Ran(store, r.value, jobs))
  {
    var last := jobs[|jobs| - 1];
    var init := jobs[..|jobs| - 1];
    assert jobs == init + [last];
    UploadsIff(before, data, last, hash, compress);
    assert last.chunkId in before <==> last.chunkId in store || exists k :: 0 <= k < |init| && init[k].chunkId == last.chunkId;
  }

  /** The bytes an upload may read are in play. */
  ghost predicate ReadsPlayed(data: bytes, jobs: seq<UploadJob>, inPlay: set<bytes>) {
    forall job :: job in jobs && BytesAt(data, job).Some? ==> BytesAt(data, job).value in inPlay
  }

  /** Whatever the file has become, an upload that succeeds leaves a sound store with a chunk
      under the id of every job that decompresses to bytes with that hash. */
  lemma {:induction false} UploadsChecked(store: ChunkStore, data: bytes, jobs: seq<UploadJob>, hash: Hash, compress: Compress, decompress: Decompress,
                                          inPlay: set<bytes>)
    requires Inverse(compress, decompress) && StoreOk(store, hash, decompress, inPlay) && ReadsPlayed(data, jobs, inPlay)
    ensures var r := RunUploads(store, data, jobs, hash, compress); r.Ok? ==>
      && StoreOk(r.value, hash, decompress, inPlay)
      && forall job :: job in jobs ==> job.chunkId in r.value && GoodBytes(job.chunkId, job.rawLen, r.value[job.chunkId].compressed, hash, decompress, inPlay)
  {
    if jobs != [] {
      var init, last := jobs[..|jobs| - 1], jobs[|jobs| - 1];
      assert jobs == init + [last];
      UploadsChecked(store, data, init, hash, compress, decompress, inPlay);
      if RunUploads(store, data, init, hash, compress).Ok? {
        var before := RunUploads(store, data, init, hash, compress).value;
        OneChecked(before, data, last, hash, compress, decompress, inPlay);
        if UploadChunk(before, data, last, hash, compress).Ok? { AllGood(store, data, jobs, hash, compress, decompress, inPlay); }
      }
    }
  }

  lemma {:induction false} OneChecked(store: ChunkStore, data: bytes, job: UploadJob, hash: Hash, compress: Compress, decompress: Decompress, inPlay: set<bytes>)
    requires Inverse(compress, decompress) && StoreOk(store, hash, decompress, inPlay)
    requires BytesAt(data, job).Some? ==> BytesAt(data, job).value in inPlay
    ensures var r := UploadChunk(store, data, job, hash, compress); r.Ok? ==>
      && StoreOk(r.value, hash, decompress, inPlay) && Grows(store, r.value) && job.chunkId in r.value && r.value[job.chunkId].rawLen == job.rawLen
  {
    UploadsIff(store, data, job, hash, compress);
    if UploadChunk(store, data, job, hash, compress).Ok? && job.chunkId !in store {
      var raw := BytesAt(data, job).value;
      CompressedIsGood(raw, hash, compress, decompress, inPlay);
      StoreGrows(store, job.chunkId, Stored(|raw|, compress(raw)), hash, decompress, inPlay);
    }
  }

  lemma {:induction false} AllGood(store: ChunkStore, data: bytes, jobs: seq<UploadJob>, hash: Hash, compress: Compress, decompress: Decompress,
                                   inPlay: set<bytes>)
    requires var r := RunUploads(store, data, jobs, hash, compress); r.Ok? && StoreOk(r.value, hash, decompress, inPlay)
    ensures var r := RunUploads(store, data, jobs, hash, compress).value;
      forall job :: job in jobs ==> job.chunkId in r && GoodBytes(job.chunkId, job.rawLen, r[job.chunkId].compressed, hash, decompress, inPlay)
  {
    var r := RunUploads(store, data, jobs, hash, compress).value;
    UploadsPassIff(store, data, jobs, hash, compress);
    forall job | job in jobs
      ensures job.chunkId in r && GoodBytes(job.chunkId, job.rawLen, r[job.chunkId].compressed, hash, decompress, inPlay)
    {
      var k :| 0 <= k < |jobs| && jobs[k] == job;
      assert RowGood(r, job.chunkId, hash, decompress, inPlay);
    }
  }
}
