/** How the client cuts a file into bundles and chunks when it uploads, and how it computes
    where each chunk belongs when it downloads. */
module Transfer {
  import opened Core
  import V = VolumeModel

  type bytes = seq<V.byte>
  type Hash = bytes -> HashId
  type BundleHash = seq<HashId> -> HashId

  const CHUNK: nat := 1_048_576
  const BUNDLE: nat := 134_217_728

  function Min(a: int, b: int): int { if a <= b then a else b }

  /** A stretch of the file. */
  datatype Span = Span(offset: nat, len: nat)

  /** How much one `read` returns: at most the limit and what is left, and at least one byte
      unless either is zero; `grant` is what the system feels like returning there. */
  function ReadLen(n: nat, pos: nat, limit: nat, grant: nat -> nat): nat
    requires pos <= n
  {
    Min(limit, Min(n - pos, 1 + grant(pos)))
  }

  /** The chunks of one bundle: reads of at most 1 MiB until the bundle or the file ends. */
  function BundleSpans(n: nat, pos: nat, left: nat, grant: nat -> nat): seq<Span>
    requires pos <= n
    decreases left
  {
    if left == 0 || pos == n then []
    else
      var r := ReadLen(n, pos, Min(CHUNK, left), grant);
      [Span(pos, r)] + BundleSpans(n, pos + r, left - r, grant)
  }

  /** The spans follow each other without gaps, each 1 byte to 1 MiB long. */
  predicate Tiles(spans: seq<Span>, from: nat, to: nat) {
    if spans == [] then from == to
    else spans[0].offset == from && 0 < spans[0].len <= CHUNK && Tiles(spans[1..], from + spans[0].len, to)
  }

  /** Whatever the reads return, the chunks tile the bundle's part of the file. */
  lemma {:induction false} SpansTile(n: nat, pos: nat, left: nat, grant: nat -> nat)
    requires pos <= n
    ensures Tiles(BundleSpans(n, pos, left, grant), pos, pos + Min(left, n - pos))
    decreases left
  {
    if left != 0 && pos != n {
      var r := ReadLen(n, pos, Min(CHUNK, left), grant);
      SpansTile(n, pos + r, left - r, grant);
      assert BundleSpans(n, pos, left, grant)[1..] == BundleSpans(n, pos + r, left - r, grant);
    }
  }

  lemma {:induction false} TilesWithin(spans: seq<Span>, from: nat, to: nat, i: nat)
    requires Tiles(spans, from, to) && i < |spans|
    ensures from <= spans[i].offset && spans[i].offset + spans[i].len <= to && 0 < spans[i].len <= CHUNK
  {
    TilesForward(spans[1..], from + spans[0].len, to);
    if i > 0 { TilesWithin(spans[1..], from + spans[0].len, to, i - 1); }
  }

  lemma {:induction false} TilesForward(spans: seq<Span>, from: nat, to: nat)
    requires Tiles(spans, from, to)
    ensures from <= to
  {
    if spans != [] { TilesForward(spans[1..], from + spans[0].len, to); }
  }

  /** Every byte of the range lies in exactly one span. */
  lemma {:induction false} TilesCover(spans: seq<Span>, from: nat, to: nat, k: nat) returns (i: nat)
    requires Tiles(spans, from, to) && from <= k < to
    ensures i < |spans| && spans[i].offset <= k < spans[i].offset + spans[i].len
    ensures forall j: nat :: j < |spans| && spans[j].offset <= k < spans[j].offset + spans[j].len ==> j == i
  {
    if k < from + spans[0].len {
      i := 0;
      forall j: nat | 0 < j < |spans| ensures spans[j].offset > k { TilesWithin(spans[1..], from + spans[0].len, to, j - 1); }
    } else {
      var i0 := TilesCover(spans[1..], from + spans[0].len, to, k);
      i := i0 + 1;
      forall j: nat | j < |spans| && spans[j].offset <= k < spans[j].offset + spans[j].len ensures j == i {
        if j > 0 { assert spans[1..][j - 1] == spans[j]; }
      }
    }
  }

  /* ---- Upload ---- */

  datatype UploadBundle = UploadBundle(bundleId: HashId, rawLen: nat, chunks: seq<V.BundleChunkRef>)

  datatype UploadJob = UploadJob(chunkId: HashId, rawLen: nat, sourceOffset: nat)

  datatype Split = Split(bundles: seq<UploadBundle>, jobs: seq<UploadJob>, newSize: nat)

  function Bundles(n: nat): nat { (n + BUNDLE - 1) / BUNDLE }

  function BundleRaw(n: nat, b: nat): nat
    requires b * BUNDLE <= n
  {
    Min(BUNDLE, n - b * BUNDLE)
  }

  lemma {:induction false} BundleStarts(n: nat, b: nat)
    ensures b < Bundles(n) <==> b * BUNDLE < n
    ensures b <= Bundles(n) ==> b == 0 || (b - 1) * BUNDLE < n
  {}

  predicate Inside(span: Span, n: nat) { span.offset + span.len <= n }

  function Piece(data: bytes, span: Span): bytes
    requires Inside(span, |data|)
  {
    data[span.offset..span.offset + span.len]
  }

  predicate AllInside(spans: seq<Span>, n: nat) { forall i :: 0 <= i < |spans| ==> Inside(spans[i], n) }

  function Refs(data: bytes, spans: seq<Span>, hash: Hash): (refs: seq<V.BundleChunkRef>)
    requires AllInside(spans, |data|)
    ensures |refs| == |spans|
  {
    seq(|spans|, i requires 0 <= i < |spans| => V.BundleChunkRef(i, hash(Piece(data, spans[i]))))
  }

  function JobsOf(data: bytes, spans: seq<Span>, hash: Hash): (jobs: seq<UploadJob>)
    requires AllInside(spans, |data|)
    ensures |jobs| == |spans|
  {
    seq(|spans|, i requires 0 <= i < |spans| => UploadJob(hash(Piece(data, spans[i])), spans[i].len, spans[i].offset))
  }

  /** The chunks of bundle `b`. Whatever the reads return, it starts at `b` times 128 MiB. */
  function SpansOf(n: nat, b: nat, grant: nat -> nat): (spans: seq<Span>)
    requires b * BUNDLE <= n
    ensures AllInside(spans, n)
  {
    var spans := BundleSpans(n, b * BUNDLE, BUNDLE, grant);
    SpansTile(n, b * BUNDLE, BUNDLE, grant);
    TilesAllInside(spans, b * BUNDLE, b * BUNDLE + BundleRaw(n, b), n);
    spans
  }

  lemma {:induction false} TilesAllInside(spans: seq<Span>, from: nat, to: nat, n: nat)
    requires Tiles(spans, from, to) && to <= n
    ensures AllInside(spans, n)
  {
    forall i | 0 <= i < |spans| ensures Inside(spans[i], n) { TilesWithin(spans, from, to, i); }
  }

  function BundleOf(data: bytes, b: nat, grant: nat -> nat, hash: Hash, bundleHash: BundleHash): UploadBundle
    requires b * BUNDLE <= |data|
  {
    var refs := Refs(data, SpansOf(|data|, b, grant), hash);
    UploadBundle(bundleHash(V.ChunkIds(refs)), BundleRaw(|data|, b), refs)
  }

  /** The upload jobs of the first `m` bundles. */
  function UploadJobs(data: bytes, m: nat, grant: nat -> nat, hash: Hash): seq<UploadJob>
    requires m <= Bundles(|data|)
  {
    if m == 0 then []
    else
      BundleStarts(|data|, m);
      UploadJobs(data, m - 1, grant, hash) + JobsOf(data, SpansOf(|data|, m - 1, grant), hash)
  }

  /** What an upload makes of a file. */
  function SplitOf(data: bytes, grant: nat -> nat, hash: Hash, bundleHash: BundleHash): Split {
    Split(
      seq(Bundles(|data|), b requires 0 <= b < Bundles(|data|) =>
        BundleStarts(|data|, b); BundleOf(data, b, grant, hash, bundleHash)),
      UploadJobs(data, Bundles(|data|), grant, hash),
      |data|)
  }

  lemma {:induction false} SpansStep(n: nat, pos: nat, rawLen: nat, spans: seq<Span>, grant: nat -> nat)
    requires rawLen < BUNDLE && pos + rawLen < n
    requires spans + BundleSpans(n, pos + rawLen, BUNDLE - rawLen, grant) == BundleSpans(n, pos, BUNDLE, grant)
    ensures var read := ReadLen(n, pos + rawLen, Min(CHUNK, BUNDLE - rawLen), grant);
      spans + [Span(pos + rawLen, read)] + BundleSpans(n, pos + rawLen + read, BUNDLE - rawLen - read, grant)
        == BundleSpans(n, pos, BUNDLE, grant)
  {
    var read := ReadLen(n, pos + rawLen, Min(CHUNK, BUNDLE - rawLen), grant);
    var rest := BundleSpans(n, pos + rawLen + read, BUNDLE - rawLen - read, grant);
    assert spans + ([Span(pos + rawLen, read)] + rest) == (spans + [Span(pos + rawLen, read)]) + rest;
  }

  /** Part of a bundle has been read: `spans` so far, the rest still to come. */
  ghost predicate Reading(data: bytes, pos: nat, rawLen: nat, spans: seq<Span>, grant: nat -> nat) {
    && rawLen <= BUNDLE && pos + rawLen <= |data|
    && spans + BundleSpans(|data|, pos + rawLen, BUNDLE - rawLen, grant) == BundleSpans(|data|, pos, BUNDLE, grant)
    && AllInside(spans, |data|)
  }

  lemma {:induction false} ReadingStep(data: bytes, pos: nat, rawLen: nat, spans: seq<Span>, grant: nat -> nat) returns (span: Span)
    requires Reading(data, pos, rawLen, spans, grant) && rawLen < BUNDLE && pos + rawLen < |data|
    ensures span == Span(pos + rawLen, ReadLen(|data|, pos + rawLen, Min(CHUNK, BUNDLE - rawLen), grant)) && 0 < span.len <= CHUNK
    ensures Inside(span, |data|) && Reading(data, pos, rawLen + span.len, spans + [span], grant)
  {
    span := Span(pos + rawLen, ReadLen(|data|, pos + rawLen, Min(CHUNK, BUNDLE - rawLen), grant));
    SpansStep(|data|, pos, rawLen, spans, grant);
  }

  lemma {:induction false} ChunkAdded(data: bytes, spans: seq<Span>, span: Span, hash: Hash, chunks: seq<V.BundleChunkRef>, jobs: seq<UploadJob>)
    requires AllInside(spans, |data|) && Inside(span, |data|)
    requires chunks == Refs(data, spans, hash) && jobs == JobsOf(data, spans, hash)
    ensures AllInside(spans + [span], |data|)
    ensures chunks + [V.BundleChunkRef(|chunks|, hash(Piece(data, span)))] == Refs(data, spans + [span], hash)
    ensures jobs + [UploadJob(hash(Piece(data, span)), span.len, span.offset)] == JobsOf(data, spans + [span], hash)
  {}

  lemma {:induction false} ReadingDone(data: bytes, pos: nat, rawLen: nat, spans: seq<Span>, grant: nat -> nat)
    requires Reading(data, pos, rawLen, spans, grant) && (rawLen == BUNDLE || pos + rawLen == |data|)
    ensures spans == BundleSpans(|data|, pos, BUNDLE, grant) && rawLen == Min(BUNDLE, |data| - pos)
  {
    assert BundleSpans(|data|, pos + rawLen, BUNDLE - rawLen, grant) == [];
  }

  ghost predicate Progress(data: bytes, pos: nat, rawLen: nat, spans: seq<Span>, chunks: seq<V.BundleChunkRef>,
                           jobs: seq<UploadJob>, grant: nat -> nat, hash: Hash) {
    Reading(data, pos, rawLen, spans, grant) && chunks == Refs(data, spans, hash) && jobs == JobsOf(data, spans, hash)
  }

  /** One `read` of the inner loop, and the hash of what it returned. */
  method ReadChunk(data: bytes, offset: nat, limit: nat, grant: nat -> nat, hash: Hash) returns (read: nat, chunkId: HashId)
    requires offset <= |data| && 0 < limit
    ensures read == ReadLen(|data|, offset, limit, grant) && (read == 0 <==> offset == |data|)
    ensures Inside(Span(offset, read), |data|) && chunkId == hash(Piece(data, Span(offset, read)))
  {
    read := ReadLen(|data|, offset, limit, grant);
    chunkId := hash(data[offset..offset + read]);
  }

  lemma {:induction false} ProgressStep(data: bytes, pos: nat, rawLen: nat, spans: seq<Span>, chunks: seq<V.BundleChunkRef>,
                                        jobs: seq<UploadJob>, grant: nat -> nat, hash: Hash, read: nat, chunkId: HashId)
    requires Progress(data, pos, rawLen, spans, chunks, jobs, grant, hash) && rawLen < BUNDLE && pos + rawLen < |data|
    requires read == ReadLen(|data|, pos + rawLen, Min(CHUNK, BUNDLE - rawLen), grant)
    requires chunkId == hash(Piece(data, Span(pos + rawLen, read)))
    ensures Progress(data, pos, rawLen + read, spans + [Span(pos + rawLen, read)], chunks + [V.BundleChunkRef(|chunks|, chunkId)],
                     jobs + [UploadJob(chunkId, read, pos + rawLen)], grant, hash)
  {
    var span := ReadingStep(data, pos, rawLen, spans, grant);
    ChunkAdded(data, spans, span, hash, chunks, jobs);
  }

  /** The inner loop of the upload: one bundle, read from `pos` on. */
  method ReadBundle(data: bytes, pos: nat, grant: nat -> nat, hash: Hash)
    returns (chunks: seq<V.BundleChunkRef>, rawLen: nat, jobs: seq<UploadJob>)
    requires pos <= |data|
    ensures rawLen == Min(BUNDLE, |data| - pos)
    ensures var spans := BundleSpans(|data|, pos, BUNDLE, grant);
      AllInside(spans, |data|) && chunks == Refs(data, spans, hash) && jobs == JobsOf(data, spans, hash)
  {
    ghost var spans := [];
    chunks, rawLen, jobs := [], 0, [];
    while rawLen < BUNDLE
      invariant Progress(data, pos, rawLen, spans, chunks, jobs, grant, hash)
    {
      var read, chunkId := ReadChunk(data, pos + rawLen, Min(CHUNK, BUNDLE - rawLen), grant, hash);
      if read == 0 { break; }
      ProgressStep(data, pos, rawLen, spans, chunks, jobs, grant, hash, read, chunkId);
      spans := spans + [Span(pos + rawLen, read)];
      chunks := chunks + [V.BundleChunkRef(|chunks|, chunkId)];
      jobs := jobs + [UploadJob(chunkId, read, pos + rawLen)];
      rawLen := rawLen + read;
    }
    ReadingDone(data, pos, rawLen, spans, grant);
  }

  /** `bundles` are the first bundles of the file. */
  ghost predicate FirstBundles(data: bytes, bundles: seq<UploadBundle>, grant: nat -> nat, hash: Hash, bundleHash: BundleHash) {
    && |bundles| <= Bundles(|data|)
    && forall b: nat :: b < |bundles| ==> b * BUNDLE <= |data| && bundles[b] == BundleOf(data, b, grant, hash, bundleHash)
  }

  lemma {:induction false} BundleAdded(data: bytes, bundles: seq<UploadBundle>, jobs: seq<UploadJob>, grant: nat -> nat,
                                       hash: Hash, bundleHash: BundleHash, bundle: UploadBundle, more: seq<UploadJob>)
    requires FirstBundles(data, bundles, grant, hash, bundleHash) && |bundles| * BUNDLE < |data|
    requires jobs == UploadJobs(data, |bundles|, grant, hash)
    requires bundle == BundleOf(data, |bundles|, grant, hash, bundleHash)
    requires more == JobsOf(data, SpansOf(|data|, |bundles|, grant), hash)
    ensures FirstBundles(data, bundles + [bundle], grant, hash, bundleHash)
    ensures jobs + more == UploadJobs(data, |bundles + [bundle]|, grant, hash)
  {
    BundleStarts(|data|, |bundles|);
    UploadJobsNext(data, |bundles|, grant, hash);
    var all := bundles + [bundle];
    forall b: nat | b < |all| ensures b * BUNDLE <= |data| && all[b] == BundleOf(data, b, grant, hash, bundleHash) {
      if b < |bundles| { assert all[b] == bundles[b]; }
    }
  }

  lemma {:induction false} UploadJobsNext(data: bytes, m: nat, grant: nat -> nat, hash: Hash)
    requires m < Bundles(|data|) && m * BUNDLE <= |data|
    ensures UploadJobs(data, m + 1, grant, hash) == UploadJobs(data, m, grant, hash) + JobsOf(data, SpansOf(|data|, m, grant), hash)
  {}

  lemma {:induction false} SizeNext(n: nat, m: nat)
    requires m * BUNDLE < n
    ensures Min(m * BUNDLE, n) + Min(BUNDLE, n - Min(m * BUNDLE, n)) == Min((m + 1) * BUNDLE, n)
    ensures Bundles(n) > m
  {}

  /** The outer loop of the upload. */
  method SplitFile(data: bytes, grant: nat -> nat, hash: Hash, bundleHash: BundleHash) returns (r: Result<Split>)
    ensures |data| <= U64_MAX ==> r == Ok(SplitOf(data, grant, hash, bundleHash))
    ensures |data| <= 0xFFFF_FFFF_FFFF_FFFF ==> r.Ok? && r.value.newSize == |data| && |r.value.bundles| == (|data| + 134_217_727) / 134_217_728
  {
    var n := |data|;
    var newSize, bundles, jobs := 0, [], [];
    while true
      invariant FirstBundles(data, bundles, grant, hash, bundleHash) && newSize == Min(|bundles| * BUNDLE, n)
      invariant jobs == UploadJobs(data, |bundles|, grant, hash)
      decreases Bundles(n) - |bundles|
    {
      BundleStarts(n, |bundles|);
      var chunks, rawLen, more := ReadBundle(data, newSize, grant, hash);
      if chunks == [] { break; }
      var bundle := UploadBundle(bundleHash(V.ChunkIds(chunks)), rawLen, chunks);
      BundleAdded(data, bundles, jobs, grant, hash, bundleHash, bundle, more);
      bundles := bundles + [bundle];
      jobs := jobs + more;
      SizeNext(n, |bundles| - 1);
      if newSize + rawLen > U64_MAX { return Err(IntegerConversion); }
      newSize := newSize + rawLen;
    }
    assert bundles == SplitOf(data, grant, hash, bundleHash).bundles;
    return Ok(Split(bundles, jobs, newSize));
  }

  /* ---- Download ---- */

  /** A bundle of a read plan, with the chunk list its storage returned. */
  datatype PlanBundle = PlanBundle(index: nat, rawLen: nat, chunks: seq<V.BundleChunkRef>)

  datatype DownloadJob = DownloadJob(chunkId: HashId, offset: nat, len: nat)

  /** Where the download puts a chunk: it knows only the two indexes and the bundle's length. */
  function TargetOf(bundle: PlanBundle, chunk: V.BundleChunkRef): DownloadJob {
    var chunkOffset := chunk.chunkIndex * CHUNK;
    DownloadJob(chunk.chunkId, bundle.index * BUNDLE + chunkOffset,
                if chunkOffset < bundle.rawLen then Min(CHUNK, bundle.rawLen - chunkOffset) else 0)
  }

  /** The range checks before a chunk is scheduled. */
  function CheckChunk(size: nat, bundle: PlanBundle, chunk: V.BundleChunkRef): Option<Fs0Error> {
    var job := TargetOf(bundle, chunk);
    if chunk.chunkIndex * CHUNK > U64_MAX then Some(IntegerConversion)
    else if chunk.chunkIndex * CHUNK >= bundle.rawLen then Some(InvalidData)
    else if job.offset > U64_MAX then Some(IntegerConversion)
    else if job.offset + job.len > U64_MAX || job.offset + job.len > size then Some(InvalidData)
    else None
  }

  function TargetsOf(bundle: PlanBundle, m: nat): (jobs: seq<DownloadJob>)
    requires m <= |bundle.chunks|
  {
    seq(m, i requires 0 <= i < m => TargetOf(bundle, bundle.chunks[i]))
  }

  function AllTargets(bundles: seq<PlanBundle>): seq<DownloadJob> {
    if bundles == [] then []
    else
      var last := bundles[|bundles| - 1];
      AllTargets(bundles[..|bundles| - 1]) + TargetsOf(last, |last.chunks|)
  }

  ghost predicate ChecksPass(size: nat, bundle: PlanBundle) {
    bundle.index * BUNDLE <= U64_MAX && forall i :: 0 <= i < |bundle.chunks| ==> CheckChunk(size, bundle, bundle.chunks[i]) == None
  }

  ghost predicate Refuses(size: nat, bundle: PlanBundle, e: Fs0Error) {
    if bundle.index * BUNDLE > U64_MAX then e == IntegerConversion
    else exists i :: 0 <= i < |bundle.chunks| && RefusesFirst(size, bundle, i, e)
  }

  /** Chunk `i` is the first that fails a check, with this error. */
  ghost predicate RefusesFirst(size: nat, bundle: PlanBundle, i: nat, e: Fs0Error)
    requires i < |bundle.chunks|
  {
    && CheckChunk(size, bundle, bundle.chunks[i]) == Some(e)
    && forall k :: 0 <= k < i ==> CheckChunk(size, bundle, bundle.chunks[k]) == None
  }

  ghost predicate AllPass(size: nat, bundles: seq<PlanBundle>) {
    forall b :: 0 <= b < |bundles| ==> ChecksPass(size, bundles[b])
  }

  /** In plain numbers: the chunk's MiB has a byte of the bundle, and what it has of it ends
      within the file and within 64 bits. */
  predicate InRange(size: nat, bundle: PlanBundle, chunkIndex: nat) {
    var from, to := chunkIndex * 1_048_576, (chunkIndex + 1) * 1_048_576;
    var end := bundle.index * 134_217_728 + if to < bundle.rawLen then to else bundle.rawLen;
    from < bundle.rawLen && end <= size && end <= 0xFFFF_FFFF_FFFF_FFFF
  }

  /** The range checks accept a chunk if and only if it is in range; otherwise the data is
      invalid, or a position does not fit 64 bits. */
  lemma {:induction false} InRangeIff(size: nat, bundle: PlanBundle, chunk: V.BundleChunkRef)
    ensures CheckChunk(size, bundle, chunk) == None <==> InRange(size, bundle, chunk.chunkIndex)
    ensures CheckChunk(size, bundle, chunk) == Some(IntegerConversion) <==>
      var from := chunk.chunkIndex * 1_048_576;
      from > 0xFFFF_FFFF_FFFF_FFFF || (from < bundle.rawLen && bundle.index * 134_217_728 + from > 0xFFFF_FFFF_FFFF_FFFF)
    ensures CheckChunk(size, bundle, chunk) in {None, Some(IntegerConversion), Some(InvalidData)}
  {}

  lemma {:induction false} PassesIff(size: nat, bundles: seq<PlanBundle>)
    ensures AllPass(size, bundles) <==> forall b :: 0 <= b < |bundles| ==>
      && bundles[b].index * 134_217_728 <= 0xFFFF_FFFF_FFFF_FFFF
      && forall i :: 0 <= i < |bundles[b].chunks| ==> InRange(size, bundles[b], bundles[b].chunks[i].chunkIndex)
  {
    forall b, i | 0 <= b < |bundles| && 0 <= i < |bundles[b].chunks|
      ensures CheckChunk(size, bundles[b], bundles[b].chunks[i]) == None <==> InRange(size, bundles[b], bundles[b].chunks[i].chunkIndex)
    {
      InRangeIff(size, bundles[b], bundles[b].chunks[i]);
    }
    assert AllPass(size, bundles) <==> forall b :: 0 <= b < |bundles| ==> ChecksPass(size, bundles[b]);
  }

  /** The two scheduling loops of a download: every chunk's target, or the first range error. */
  method ScheduleDownload(size: nat, bundles: seq<PlanBundle>) returns (r: Result<seq<DownloadJob>>)
    ensures r.Ok? <==> AllPass(size, bundles)
    ensures r.Ok? <==> forall b :: 0 <= b < |bundles| ==>
      && bundles[b].index * 134_217_728 <= 0xFFFF_FFFF_FFFF_FFFF
      && forall i :: 0 <= i < |bundles[b].chunks| ==> InRange(size, bundles[b], bundles[b].chunks[i].chunkIndex)
    ensures r.Ok? ==> r.value == AllTargets(bundles)
    ensures r.Err? ==> r.error == IntegerConversion || r.error == InvalidData
    ensures r.Err? ==> exists b :: 0 <= b < |bundles| && Refuses(size, bundles[b], r.error) && AllPass(size, bundles[..b])
  {
    PassesIff(size, bundles);
    var jobs := [];
    for b := 0 to |bundles|
      invariant forall k :: 0 <= k < b ==> ChecksPass(size, bundles[k])
      invariant jobs == AllTargets(bundles[..b])
    {
      var bundle := bundles[b];
      assert AllPass(size, bundles[..b]);
      if bundle.index * BUNDLE > U64_MAX {
        assert Refuses(size, bundles[b], IntegerConversion);
        return Err(IntegerConversion);
      }
      var more := ScheduleBundle(size, bundle);
      if more.Err? {
        assert Refuses(size, bundles[b], more.error);
        return Err(more.error);
      }
      assert bundles[..b + 1][..b] == bundles[..b];
      jobs := jobs + more.value;
    }
    assert bundles[..|bundles|] == bundles;
    return Ok(jobs);
  }

  method ScheduleBundle(size: nat, bundle: PlanBundle) returns (r: Result<seq<DownloadJob>>)
    ensures r.Ok? <==> forall i :: 0 <= i < |bundle.chunks| ==> CheckChunk(size, bundle, bundle.chunks[i]) == None
    ensures r.Ok? ==> r.value == TargetsOf(bundle, |bundle.chunks|)
    ensures r.Err? ==> exists i :: 0 <= i < |bundle.chunks| && RefusesFirst(size, bundle, i, r.error)
  {
    var jobs := [];
    for i := 0 to |bundle.chunks|
      invariant forall k :: 0 <= k < i ==> CheckChunk(size, bundle, bundle.chunks[k]) == None
      invariant jobs == TargetsOf(bundle, i)
    {
      var e := CheckChunk(size, bundle, bundle.chunks[i]);
      if e.Some? {
        assert RefusesFirst(size, bundle, i, e.value);
        return Err(e.value);
      }
      jobs := jobs + [TargetOf(bundle, bundle.chunks[i])];
    }
    return Ok(jobs);
  }

  /* ---- Both sides cut the file alike exactly when reads are full ---- */

  const PER_BUNDLE: nat := 128

  predicate ReadsFull(n: nat, pos: nat, grant: nat -> nat)
    requires pos <= n
  {
    Min(CHUNK, n - pos) <= 1 + grant(pos)
  }

  /** Every read that starts at a MiB boundary returns a whole MiB, or all that is left. */
  ghost predicate FullReads(n: nat, grant: nat -> nat) {
    forall pos: nat {:trigger ReadsFull(n, pos, grant)} :: pos < n && pos % CHUNK == 0 ==> ReadsFull(n, pos, grant)
  }

  /** The `i`-th MiB of bundle `b`. */
  function Slot(n: nat, b: nat, i: nat): Span
    requires b * BUNDLE <= n && i * CHUNK < BundleRaw(n, b)
  {
    Span(b * BUNDLE + i * CHUNK, Min(CHUNK, BundleRaw(n, b) - i * CHUNK))
  }

  /** `spans` are the MiBs of bundle `b` from the `k`-th on. */
  ghost predicate AreSlots(spans: seq<Span>, n: nat, b: nat, k: nat)
    requires b * BUNDLE <= n
  {
    && BundleRaw(n, b) <= (k + |spans|) * CHUNK
    && forall i :: 0 <= i < |spans| ==> IsSlot(spans[i], n, b, k + i)
  }

  ghost predicate IsSlot(span: Span, n: nat, b: nat, i: nat)
    requires b * BUNDLE <= n
  {
    i * CHUNK < BundleRaw(n, b) && span == Slot(n, b, i)
  }

  lemma {:induction false} FullSpans(n: nat, b: nat, k: nat, grant: nat -> nat)
    requires FullReads(n, grant) && b * BUNDLE + k * CHUNK <= n && k <= PER_BUNDLE
    ensures AreSlots(BundleSpans(n, b * BUNDLE + k * CHUNK, BUNDLE - k * CHUNK, grant), n, b, k)
    decreases PER_BUNDLE - k
  {
    var pos := b * BUNDLE + k * CHUNK;
    var spans := BundleSpans(n, pos, BUNDLE - k * CHUNK, grant);
    if k < PER_BUNDLE && pos < n {
      assert pos == (b * PER_BUNDLE + k) * CHUNK;
      assert ReadsFull(n, pos, grant);
      var r := Min(CHUNK, n - pos);
      var rest := BundleSpans(n, pos + r, BUNDLE - k * CHUNK - r, grant);
      assert spans == [Span(pos, r)] + rest;
      assert IsSlot(spans[0], n, b, k);
      if r == CHUNK {
        FullSpans(n, b, k + 1, grant);
        forall i | 1 <= i < |spans| ensures IsSlot(spans[i], n, b, k + i) { assert IsSlot(rest[i - 1], n, b, k + 1 + (i - 1)); }
      }
    }
  }

  /** The chunk lengths are those the download expects at each index. */
  ghost predicate LengthsFit(spans: seq<Span>, n: nat, b: nat, k: nat)
    requires b * BUNDLE <= n
  {
    forall i :: 0 <= i < |spans| ==> LengthFits(spans[i], n, b, k + i)
  }

  ghost predicate LengthFits(span: Span, n: nat, b: nat, i: nat)
    requires b * BUNDLE <= n
  {
    i * CHUNK < BundleRaw(n, b) && span.len == Min(CHUNK, BundleRaw(n, b) - i * CHUNK)
  }

  lemma {:induction false} FittingReadsFull(n: nat, b: nat, k: nat, grant: nat -> nat, j: nat)
    requires b * BUNDLE + k * CHUNK <= n && k <= j < PER_BUNDLE && b * BUNDLE + j * CHUNK < n
    requires LengthsFit(BundleSpans(n, b * BUNDLE + k * CHUNK, BUNDLE - k * CHUNK, grant), n, b, k)
    ensures ReadsFull(n, b * BUNDLE + j * CHUNK, grant)
    decreases PER_BUNDLE - k
  {
    var pos := b * BUNDLE + k * CHUNK;
    var spans := BundleSpans(n, pos, BUNDLE - k * CHUNK, grant);
    assert LengthFits(spans[0], n, b, k);
    if k < j {
      var rest := BundleSpans(n, pos + CHUNK, BUNDLE - k * CHUNK - CHUNK, grant);
      assert spans == [Span(pos, CHUNK)] + rest;
      forall i | 0 <= i < |rest| ensures LengthFits(rest[i], n, b, k + 1 + i) { assert LengthFits(spans[i + 1], n, b, k + (i + 1)); }
      FittingReadsFull(n, b, k + 1, grant, j);
    }
  }

  /** What the read plan and the storages give back for an uploaded file. */
  function PlanOf(split: Split): (plan: seq<PlanBundle>)
    ensures |plan| == |split.bundles|
  {
    seq(|split.bundles|, b requires 0 <= b < |split.bundles| =>
      PlanBundle(b, split.bundles[b].rawLen, split.bundles[b].chunks))
  }

  /** The download accepts the bundle: its range checks pass, and every chunk that comes
      back has the length it expects. */
  ghost predicate Accepts(n: nat, bundle: PlanBundle, spans: seq<Span>) {
    && ChecksPass(n, bundle) && |bundle.chunks| == |spans|
    && forall i :: 0 <= i < |spans| ==> TargetOf(bundle, bundle.chunks[i]).len == spans[i].len
  }

  lemma {:induction false} AcceptsIffFits(data: bytes, b: nat, grant: nat -> nat, hash: Hash, bundleHash: BundleHash)
    requires b < Bundles(|data|) && |data| <= U64_MAX && b * BUNDLE <= |data|
    ensures var bundle := PlanOf(SplitOf(data, grant, hash, bundleHash))[b];
      Accepts(|data|, bundle, SpansOf(|data|, b, grant)) <==> LengthsFit(SpansOf(|data|, b, grant), |data|, b, 0)
  {
    var n := |data|;
    var bundle := PlanOf(SplitOf(data, grant, hash, bundleHash))[b];
    var spans := SpansOf(n, b, grant);
    assert bundle == PlanBundle(b, BundleRaw(n, b), Refs(data, spans, hash));
    forall i | 0 <= i < |spans|
      ensures (CheckChunk(n, bundle, bundle.chunks[i]) == None && TargetOf(bundle, bundle.chunks[i]).len == spans[i].len)
        <==> LengthFits(spans[i], n, b, i)
    {
      assert bundle.chunks[i].chunkIndex == i;
    }
    if LengthsFit(spans, n, b, 0) {
      forall i | 0 <= i < |spans| ensures LengthFits(spans[i], n, b, i) { assert LengthFits(spans[i], n, b, 0 + i); }
    }
  }

  /** The download accepts every bundle of an upload exactly when all its reads were full. */
  lemma {:induction false} DownloadAcceptsIff(data: bytes, grant: nat -> nat, hash: Hash, bundleHash: BundleHash)
    requires |data| <= U64_MAX
    ensures (forall b: nat :: b < Bundles(|data|) ==> BundleAccepted(data, b, grant, hash, bundleHash)) <==> FullReads(|data|, grant)
  {
    if FullReads(|data|, grant) {
      forall b: nat | b < Bundles(|data|) ensures BundleAccepted(data, b, grant, hash, bundleHash) {
        FullIsAccepted(data, grant, hash, bundleHash, b);
      }
    }
    if forall b: nat :: b < Bundles(|data|) ==> BundleAccepted(data, b, grant, hash, bundleHash) {
      forall pos: nat | pos < |data| && pos % CHUNK == 0 ensures ReadsFull(|data|, pos, grant) {
        AcceptedIsFull(data, grant, hash, bundleHash, pos);
      }
    }
  }

  lemma {:induction false} FullIsAccepted(data: bytes, grant: nat -> nat, hash: Hash, bundleHash: BundleHash, b: nat)
    requires |data| <= U64_MAX && FullReads(|data|, grant) && b < Bundles(|data|)
    ensures BundleAccepted(data, b, grant, hash, bundleHash)
  {
    BundleStarts(|data|, b);
    FullSpans(|data|, b, 0, grant);
    SlotsFit(SpansOf(|data|, b, grant), |data|, b);
    AcceptsIffFits(data, b, grant, hash, bundleHash);
  }

  lemma {:induction false} AcceptedIsFull(data: bytes, grant: nat -> nat, hash: Hash, bundleHash: BundleHash, pos: nat)
    requires |data| <= U64_MAX && pos < |data| && pos % CHUNK == 0
    requires forall b: nat :: b < Bundles(|data|) ==> BundleAccepted(data, b, grant, hash, bundleHash)
    ensures ReadsFull(|data|, pos, grant)
  {
    var b, j := Locate(pos);
    BundleStarts(|data|, b);
    AcceptedFits(data, grant, hash, bundleHash, b);
    FittingReadsFull(|data|, b, 0, grant, j);
  }

  lemma {:induction false} Locate(pos: nat) returns (b: nat, j: nat)
    requires pos % CHUNK == 0
    ensures pos == b * BUNDLE + j * CHUNK && j < PER_BUNDLE && b * BUNDLE <= pos
  {
    b, j := pos / BUNDLE, pos % BUNDLE / CHUNK;
  }

  lemma {:induction false} AcceptedFits(data: bytes, grant: nat -> nat, hash: Hash, bundleHash: BundleHash, b: nat)
    requires |data| <= U64_MAX && BundleAccepted(data, b, grant, hash, bundleHash)
    ensures LengthsFit(BundleSpans(|data|, b * BUNDLE + 0 * CHUNK, BUNDLE - 0 * CHUNK, grant), |data|, b, 0)
  {
    AcceptsIffFits(data, b, grant, hash, bundleHash);
  }

  ghost predicate BundleAccepted(data: bytes, b: nat, grant: nat -> nat, hash: Hash, bundleHash: BundleHash) {
    && b < Bundles(|data|) && b * BUNDLE <= |data|
    && Accepts(|data|, PlanOf(SplitOf(data, grant, hash, bundleHash))[b], SpansOf(|data|, b, grant))
  }

  lemma {:induction false} SlotsFit(spans: seq<Span>, n: nat, b: nat)
    requires b * BUNDLE <= n && AreSlots(spans, n, b, 0)
    ensures LengthsFit(spans, n, b, 0)
  {
    forall i | 0 <= i < |spans| ensures LengthFits(spans[i], n, b, 0 + i) { assert IsSlot(spans[i], n, b, 0 + i); }
  }

  /** Reading two bytes one at a time makes two chunks, of which the download refuses the second. */
  lemma {:induction false} ShortReadsBreak(data: bytes, hash: Hash, bundleHash: BundleHash)
    requires |data| == 2
    ensures !BundleAccepted(data, 0, _ => 0, hash, bundleHash)
    ensures !FullReads(2, _ => 0)
  {
    var grant: nat -> nat := _ => 0;
    assert !ReadsFull(2, 0, grant);
    DownloadAcceptsIff(data, grant, hash, bundleHash);
    assert Bundles(2) == 1;
  }
}
