/** The round trip with volumes, central and the scheduler in it: volumes store the bundles of
    a file, central commits it, and a download follows the read plan central gives out later. */
module EndToEnd {
  import opened Core
  import opened Transfer
  import opened RoundTrip
  import V = VolumeModel
  import W = VolumeBytes
  import R = Replicas
  import P = ReadPlan
  import T = CentralTables
  import M = CentralModel
  import C = CentralRuns
  import S = CentralServer
  import D = SharedDownload
  import L = CompletionLatch
  import K = SchedulerModel
  import B = BundleSizes
  import O = Outbox
  import VS = VolumeStore

  /* ---- A volume as a chunk store ---- */

  /** Every put carries the compressed bytes of a chunk in play under its own id. */
  ghost predicate WellHashed(step: V.Step, hash: Hash, decompress: Decompress, inPlay: set<bytes>) {
    step.Reserve? ==> GoodBytes(step.chunkId, step.rawLen, step.bytes, hash, decompress, inPlay)
  }

  ghost predicate AllWellHashed(steps: seq<V.Step>, hash: Hash, decompress: Decompress, inPlay: set<bytes>) {
    forall i :: 0 <= i < |steps| ==> WellHashed(steps[i], hash, decompress, inPlay)
  }

  ghost predicate GoodContent(meta: V.ChunkMeta, compressed: bytes, hash: Hash, decompress: Decompress, inPlay: set<bytes>) {
    GoodBytes(meta.chunkId, meta.rawLen, compressed, hash, decompress, inPlay)
  }

  /** Puts under way and every row ever indexed carry good bytes. */
  ghost predicate ContentOk(v: V.Store, hash: Hash, decompress: Decompress, inPlay: set<bytes>) {
    && (forall p :: p in v.puts ==> GoodContent(v.puts[p].meta, v.puts[p].bytes, hash, decompress, inPlay))
    && (forall k :: k in v.indexed ==> GoodContent(v.indexed[k].meta, v.indexed[k].bytes, hash, decompress, inPlay))
  }

  lemma {:induction false} ContentKept(v: V.Store, step: V.Step, v': V.Store, hash: Hash, decompress: Decompress, inPlay: set<bytes>)
    requires W.Stems(v, step, v') && ContentOk(v, hash, decompress, inPlay) && WellHashed(step, hash, decompress, inPlay)
    ensures ContentOk(v', hash, decompress, inPlay)
  {
    forall p | p in v'.puts ensures GoodContent(v'.puts[p].meta, v'.puts[p].bytes, hash, decompress, inPlay) {
      assert W.PutStems(v, step, v'.puts[p], p);
    }
    forall k | k in v'.indexed ensures GoodContent(v'.indexed[k].meta, v'.indexed[k].bytes, hash, decompress, inPlay) {
      assert W.RowStems(v, step, v'.indexed[k], k);
    }
  }

  lemma {:induction false} ContentOverRun(v: V.Store, steps: seq<V.Step>, hash: Hash, bundleHash: BundleHash, decompress: Decompress, inPlay: set<bytes>)
    requires V.IsRun(v, steps, bundleHash) && ContentOk(v, hash, decompress, inPlay) && AllWellHashed(steps, hash, decompress, inPlay)
    ensures ContentOk(V.After(v, steps, bundleHash), hash, decompress, inPlay)
    decreases |steps|
  {
    if steps != [] {
      W.StepStems(v, steps[0], bundleHash);
      ContentKept(v, steps[0], V.Apply(v, steps[0], bundleHash), hash, decompress, inPlay);
      assert forall i :: 0 <= i < |steps[1..]| ==> steps[1..][i] == steps[i + 1];
      ContentOverRun(V.Apply(v, steps[0], bundleHash), steps[1..], hash, bundleHash, decompress, inPlay);
    }
  }

  /** What the data files hold at the extent of a row. */
  function OnDisk(v: V.Store, meta: V.ChunkMeta): bytes {
    seq(meta.compressedLen, i requires 0 <= i < meta.compressedLen =>
      var a := V.AddressOf(meta.volumeOffset, i);
      if a in v.disk then v.disk[a] else 0)
  }

  /** The chunks of a volume, each with the bytes a read of its row returns. */
  function ChunkStoreOf(v: V.Store): ChunkStore {
    map id | id in v.chunks :: Stored(v.chunks[id].rawLen, OnDisk(v, v.chunks[id]))
  }

  /** After every run whose puts are well hashed, from an empty volume and with crashes,
      deletes and all, the volume is a sound chunk store with sound bundle lists. */
  lemma {:induction false} VolumeIsSound(maxBytes: nat, steps: seq<V.Step>, hash: Hash, bundleHash: BundleHash, decompress: Decompress, inPlay: set<bytes>)
    requires maxBytes <= I64_MAX && V.IsRun(V.Empty(maxBytes), steps, bundleHash)
    requires AllWellHashed(steps, hash, decompress, inPlay)
    ensures var v := V.After(V.Empty(maxBytes), steps, bundleHash);
      StoreOk(ChunkStoreOf(v), hash, decompress, inPlay) && ListsOk(v.bundles, bundleHash)
      && forall b :: b in v.bundles ==> V.AllIndexed(v.bundles[b], v.chunks)
  {
    V.EmptyInv(maxBytes, bundleHash);
    V.RunInv(V.Empty(maxBytes), steps, bundleHash);
    ContentOverRun(V.Empty(maxBytes), steps, hash, bundleHash, decompress, inPlay);
    var v := V.After(V.Empty(maxBytes), steps, bundleHash);
    forall id | id in v.chunks ensures RowGood(ChunkStoreOf(v), id, hash, decompress, inPlay) {
      RowIsGood(v, id, hash, decompress, inPlay);
    }
    forall b | b in v.bundles
      ensures V.Contiguous(v.bundles[b]) && bundleHash(V.ChunkIds(v.bundles[b])) == b && V.AllIndexed(v.bundles[b], v.chunks)
    {
      assert V.BundleOk(v, b, bundleHash);
    }
  }

  lemma {:induction false} RowIsGood(v: V.Store, id: HashId, hash: Hash, decompress: Decompress, inPlay: set<bytes>)
    requires V.SpaceInv(v) && V.RowInv(v) && ContentOk(v, hash, decompress, inPlay) && id in v.chunks
    ensures RowGood(ChunkStoreOf(v), id, hash, decompress, inPlay)
  {
    assert V.RowOk(v, id);
    var x := v.indexed[v.home[id]];
    assert V.IndexedOk(v, v.home[id], x);
    assert OnDisk(v, v.chunks[id]) == x.bytes;
    assert GoodContent(x.meta, x.bytes, hash, decompress, inPlay);
  }

  /* ---- Several volumes ---- */

  /** What is the same for all of them: the hashes, and the byte strings and id lists in play. */
  datatype World = World(hash: Hash, bundleHash: BundleHash, decompress: Decompress, inPlay: set<bytes>, idLists: set<seq<HashId>>)

  /** Everything that happened to one volume. */
  datatype VolumeRun = VolumeRun(maxBytes: nat, steps: seq<V.Step>)

  ghost predicate NoCollisions(w: World) { CollisionFree(w.hash, w.inPlay) && CollisionFree(w.bundleHash, w.idLists) }

  ghost predicate GoodRun(w: World, run: VolumeRun) {
    && run.maxBytes <= I64_MAX && V.IsRun(V.Empty(run.maxBytes), run.steps, w.bundleHash)
    && AllWellHashed(run.steps, w.hash, w.decompress, w.inPlay)
  }

  ghost function StateOf(w: World, run: VolumeRun): V.Store
    requires GoodRun(w, run)
  {
    V.After(V.Empty(run.maxBytes), run.steps, w.bundleHash)
  }

  ghost predicate Sound(w: World, v: V.Store) {
    && StoreOk(ChunkStoreOf(v), w.hash, w.decompress, w.inPlay) && ListsOk(v.bundles, w.bundleHash)
    && forall b :: b in v.bundles ==> V.AllIndexed(v.bundles[b], v.chunks)
  }

  lemma {:induction false} RunIsSound(w: World, run: VolumeRun)
    requires GoodRun(w, run)
    ensures Sound(w, StateOf(w, run))
  {
    VolumeIsSound(run.maxBytes, run.steps, w.hash, w.bundleHash, w.decompress, w.inPlay);
  }

  /** The volume stores the bundle under a list in play. */
  ghost predicate Stores(w: World, v: V.Store, b: HashId) { b in v.bundles && V.ChunkIds(v.bundles[b]) in w.idLists }

  lemma {:induction false} SameRawLen(w: World, v1: V.Store, v2: V.Store, id: HashId)
    requires NoCollisions(w) && Sound(w, v1) && Sound(w, v2) && id in v1.chunks && id in v2.chunks
    ensures v1.chunks[id].rawLen == v2.chunks[id].rawLen
  {
    assert RowGood(ChunkStoreOf(v1), id, w.hash, w.decompress, w.inPlay);
    assert RowGood(ChunkStoreOf(v2), id, w.hash, w.decompress, w.inPlay);
  }

  lemma {:induction false} SameRawSum(w: World, v1: V.Store, v2: V.Store, refs: seq<V.BundleChunkRef>)
    requires NoCollisions(w) && Sound(w, v1) && Sound(w, v2) && V.AllIndexed(refs, v1.chunks) && V.AllIndexed(refs, v2.chunks)
    ensures V.RawSum(refs, v1.chunks) == V.RawSum(refs, v2.chunks)
  {
    if refs != [] {
      SameRawSum(w, v1, v2, refs[..|refs| - 1]);
      SameRawLen(w, v1, v2, refs[|refs| - 1].chunkId);
    }
  }

  /** The file bytes behind a list of chunks: each winner's bytes, decompressed. */
  function RawBytes(w: World, v: V.Store, refs: seq<V.BundleChunkRef>): bytes {
    if refs == [] then []
    else
      RawBytes(w, v, refs[..|refs| - 1]) +
      match w.decompress(W.WinnerBytes(v, refs[|refs| - 1].chunkId))
      case None => []
      case Some(raw) => raw
  }

  /** On a volume with well-hashed puts the raw length of a stored bundle is the number of
      bytes its chunks decompress to, the compressed length the number of bytes it stores. */
  lemma {:induction false} LengthsAreBytes(w: World, run: VolumeRun, b: HashId)
    requires GoodRun(w, run) && b in StateOf(w, run).bundles
    ensures var v := StateOf(w, run);
      && V.RawSum(v.bundles[b], v.chunks) == |RawBytes(w, v, v.bundles[b])|
      && V.CompressedSum(v.bundles[b], v.chunks) == |W.BytesBehind(v, v.bundles[b])|
  {
    var v := StateOf(w, run);
    V.EmptyInv(run.maxBytes, w.bundleHash);
    V.RunInv(V.Empty(run.maxBytes), run.steps, w.bundleHash);
    ContentOverRun(V.Empty(run.maxBytes), run.steps, w.hash, w.bundleHash, w.decompress, w.inPlay);
    W.SumsCount(v, v.bundles[b]);
    assert V.BundleOk(v, b, w.bundleHash);
    RawBytesCount(w, v, v.bundles[b]);
  }

  lemma {:induction false} RawBytesCount(w: World, v: V.Store, refs: seq<V.BundleChunkRef>)
    requires V.SpaceInv(v) && V.RowInv(v) && ContentOk(v, w.hash, w.decompress, w.inPlay) && V.AllIndexed(refs, v.chunks)
    ensures V.RawSum(refs, v.chunks) == |RawBytes(w, v, refs)|
  {
    if refs != [] {
      RawBytesCount(w, v, refs[..|refs| - 1]);
      var id := refs[|refs| - 1].chunkId;
      W.WinnerOnDisk(v, id);
      var x := v.indexed[v.home[id]];
      assert GoodContent(x.meta, x.bytes, w.hash, w.decompress, w.inPlay);
    }
  }

  /** Two volumes that store a bundle store the same list for it, of the same raw length,
      whatever else has happened to them. */
  lemma {:induction false} SameBundle(w: World, r1: VolumeRun, r2: VolumeRun, b: HashId)
    requires NoCollisions(w) && GoodRun(w, r1) && GoodRun(w, r2) && Stores(w, StateOf(w, r1), b) && Stores(w, StateOf(w, r2), b)
    ensures var v1, v2 := StateOf(w, r1), StateOf(w, r2);
      v1.bundles[b] == v2.bundles[b] && V.RawSum(v1.bundles[b], v1.chunks) == V.RawSum(v2.bundles[b], v2.chunks)
  {
    var v1, v2 := StateOf(w, r1), StateOf(w, r2);
    RunIsSound(w, r1);
    RunIsSound(w, r2);
    SameList(v1.bundles[b], v2.bundles[b]);
    SameRawSum(w, v1, v2, v1.bundles[b]);
  }

  /** Some volume stores, or stored, the bundle with this raw length. */
  ghost predicate Vouched(w: World, b: HashId, raw: nat) { exists run :: Vouches(w, run, b, raw) }

  ghost predicate Vouches(w: World, run: VolumeRun, b: HashId, raw: nat) {
    GoodRun(w, run) && Stores(w, StateOf(w, run), b) && V.RawSum(StateOf(w, run).bundles[b], StateOf(w, run).chunks) == raw
  }

  lemma {:induction false} VouchedOnce(w: World, b: HashId, raw1: nat, raw2: nat)
    requires NoCollisions(w) && Vouched(w, b, raw1) && Vouched(w, b, raw2)
    ensures raw1 == raw2
  {
    var r1 :| Vouches(w, r1, b, raw1);
    var r2 :| Vouches(w, r2, b, raw2);
    SameBundle(w, r1, r2, b);
  }

  /** Each list is what some volume stores for the bundle. */
  ghost predicate FromVolumes(w: World, lists: map<HashId, seq<V.BundleChunkRef>>) {
    forall b :: b in lists ==> FromVolume(w, b, lists[b])
  }

  ghost predicate FromVolume(w: World, b: HashId, list: seq<V.BundleChunkRef>) {
    exists run {:trigger GoodRun(w, run)} :: GoodRun(w, run) && b in StateOf(w, run).bundles && StateOf(w, run).bundles[b] == list
  }

  lemma {:induction false} ListsAreOk(w: World, lists: map<HashId, seq<V.BundleChunkRef>>)
    requires FromVolumes(w, lists)
    ensures ListsOk(lists, w.bundleHash)
  {
    forall b | b in lists ensures V.Contiguous(lists[b]) && w.bundleHash(V.ChunkIds(lists[b])) == b {
      assert FromVolume(w, b, lists[b]);
      var run :| GoodRun(w, run) && b in StateOf(w, run).bundles && StateOf(w, run).bundles[b] == lists[b];
      RunIsSound(w, run);
    }
  }

  /** A volume that stores a bundle of the file serves each of its chunks. */
  lemma {:induction false} VolumeServes(w: World, run: VolumeRun, data: bytes, b: nat, grant: nat -> nat, i: nat)
    requires NoCollisions(w) && GoodRun(w, run) && b * BUNDLE <= |data|
    requires var bundle := BundleOf(data, b, grant, w.hash, w.bundleHash);
      Stores(w, StateOf(w, run), bundle.bundleId) && V.ChunkIds(bundle.chunks) in w.idLists && i < |bundle.chunks|
    ensures var chunkId := BundleOf(data, b, grant, w.hash, w.bundleHash).chunks[i].chunkId;
      DownloadChunk(ChunkStoreOf(StateOf(w, run)), chunkId, w.hash, w.decompress).Ok?
  {
    var v, bundle := StateOf(w, run), BundleOf(data, b, grant, w.hash, w.bundleHash);
    RunIsSound(w, run);
    SameList(v.bundles[bundle.bundleId], bundle.chunks);
    assert RowGood(ChunkStoreOf(v), bundle.chunks[i].chunkId, w.hash, w.decompress, w.inPlay);
  }

  /** What a handler returned came from some volume, or it failed. */
  ghost predicate Served(w: World, a: D.Answers, h: HashId, outcome: K.Outcome) {
    match outcome
    case Err(_) => !a.allOk
    case Ok(response) => exists run :: ServedBy(w, run, h, a.content(response))
  }

  ghost predicate ServedBy(w: World, run: VolumeRun, h: HashId, chunk: ChunkResult) {
    GoodRun(w, run) && DownloadChunk(ChunkStoreOf(StateOf(w, run)), h, w.hash, w.decompress) == Ok(chunk)
  }

  lemma {:induction false} ServedIsChecked(w: World, a: D.Answers, h: HashId, outcome: K.Outcome)
    requires Served(w, a, h, outcome) && a.hash == w.hash && a.inPlay == w.inPlay
    ensures D.Checked(a, h, outcome)
  {
    if outcome.Ok? {
      var run :| ServedBy(w, run, h, a.content(outcome.value));
      RunIsSound(w, run);
      assert RowGood(ChunkStoreOf(StateOf(w, run)), h, w.hash, w.decompress, w.inPlay);
    }
  }

  /** Every handler of the scheduler got its answer from a volume, not always the same one,
      or failed. */
  ghost predicate AllServed(w: World, a: D.Answers, hashes: seq<HashId>, steps: seq<L.TransferStep>) {
    forall i :: 0 <= i < |steps| ==> StepServed(w, a, hashes, steps[i])
  }

  ghost predicate StepServed(w: World, a: D.Answers, hashes: seq<HashId>, step: L.TransferStep) {
    step.Sched? && step.step.HandlerReturns? && step.step.k < |hashes| ==> Served(w, a, hashes[step.step.k], step.step.outcome)
  }

  lemma {:induction false} ServedRun(w: World, a: D.Answers, hashes: seq<HashId>, steps: seq<L.TransferStep>)
    requires AllServed(w, a, hashes, steps) && a.hash == w.hash && a.inPlay == w.inPlay
    ensures D.AllChecked(a, hashes, steps)
  {
    forall i | 0 <= i < |steps| ensures D.StepChecked(a, hashes, steps[i]) {
      assert StepServed(w, a, hashes, steps[i]);
      if steps[i].Sched? && steps[i].step.HandlerReturns? && steps[i].step.k < |hashes| {
        ServedIsChecked(w, a, hashes[steps[i].step.k], steps[i].step.outcome);
      }
    }
  }

  /* ---- Central's plan ---- */

  /** The request commits the uploaded bundles and the whole size. */
  ghost predicate Commits(req: T.CommitRequest, split: Split) {
    && req.newSize == split.newSize && |req.bundles| == |split.bundles|
    && forall b {:trigger req.bundles[b]} :: 0 <= b < |split.bundles| ==>
         req.bundles[b].bundleId == split.bundles[b].bundleId && req.bundles[b].raw == split.bundles[b].rawLen
  }

  /** No later request is about the file. */
  ghost predicate LeavesAlone(t: T.Tables, steps: seq<C.Step>, f: nat)
    requires M.TablesOk(t)
  {
    steps == [] ||
    (LeavesAlone(t, steps[..|steps| - 1], f)
     && C.Subject(C.Run(t, steps[..|steps| - 1]), steps[|steps| - 1].request) != Some(f))
  }

  lemma {:induction false} StaysCommitted(t: T.Tables, steps: seq<C.Step>, f: nat)
    requires M.TablesOk(t) && LeavesAlone(t, steps, f)
    ensures C.Untouched(t, C.Run(t, steps), f)
  {
    if steps != [] {
      var before, last := C.Run(t, steps[..|steps| - 1]), steps[|steps| - 1];
      StaysCommitted(t, steps[..|steps| - 1], f);
      C.OthersUntouched(before, last.request, last.now, f);
    }
  }

  /** The bundles of a read plan with the chunk lists a storage returns for them. */
  function Listings(plan: S.FileReadPlan, lists: map<HashId, seq<V.BundleChunkRef>>): (bundles: seq<PlanBundle>)
    requires forall b :: 0 <= b < |plan.bundles| ==> plan.bundles[b].bundleId in lists
    ensures |bundles| == |plan.bundles|
  {
    seq(|plan.bundles|, b requires 0 <= b < |plan.bundles| =>
      PlanBundle(plan.bundles[b].index, plan.bundles[b].target.lens.raw, lists[plan.bundles[b].bundleId]))
  }

  /** The replicas of the committed bundles have the raw lengths that were committed. */
  ghost predicate RawAgrees(t: R.Table, req: T.CommitRequest) {
    forall key, i :: key in t && 0 <= i < |req.bundles| && key.0 == req.bundles[i].bundleId ==> t[key].raw == req.bundles[i].raw
  }

  /** Every replica at central is vouched for by some volume. */
  ghost predicate AllVouched(w: World, t: R.Table) {
    forall key :: key in t ==> Vouched(w, key.0, t[key].raw)
  }

  /** The stored replicas of a report were read from volumes: each has the raw length that some
      volume stores, or stored, for the bundle. Whether they arrive late, twice or never, and
      what was deleted since, is left open. */
  ghost predicate ReadFromVolumes(w: World, events: seq<R.Event>) {
    forall i :: 0 <= i < |events| && events[i].kind.Stored? ==> Vouched(w, events[i].bundleId, events[i].lens.raw)
  }

  /** What a volume reads from its outbox is of that kind. */
  lemma {:induction false} OutboxRead(w: World, run: VolumeRun, v: O.Volume, limit: nat)
    requires GoodRun(w, run) && O.RecordsOk(v) && v.bundles == VS.BundleLens(StateOf(w, run).bundles, StateOf(w, run).chunks)
    requires forall b :: b in v.bundles ==> Stores(w, StateOf(w, run), b)
    ensures ReadFromVolumes(w, O.ReadEvents(v, limit))
  {
    var events := O.ReadEvents(v, limit);
    forall i | 0 <= i < |events| && events[i].kind.Stored? ensures Vouched(w, events[i].bundleId, events[i].lens.raw) {
      assert events[i] == O.EventOf(v, v.records[i]) && v.records[i].bundleId in v.bundles;
      assert Vouches(w, run, events[i].bundleId, events[i].lens.raw);
    }
  }

  ghost predicate ReportsRead(w: World, steps: seq<C.Step>) {
    forall i :: 0 <= i < |steps| && steps[i].request.Report? ==> ReadFromVolumes(w, steps[i].request.events)
  }

  lemma {:induction false} BatchVouched(w: World, t: R.Table, events: seq<R.Event>)
    requires AllVouched(w, t) && ReadFromVolumes(w, events) && R.ApplyBatch(t, events).Ok?
    ensures AllVouched(w, R.ApplyBatch(t, events).value)
  {
    if events != [] {
      var init := events[..|events| - 1];
      assert forall i :: 0 <= i < |init| ==> init[i] == events[i];
      BatchVouched(w, t, init);
    }
  }

  /** Over every run, all that central knows of raw lengths is what volumes store. */
  lemma {:induction false} VouchedOverRun(w: World, t: T.Tables, steps: seq<C.Step>)
    requires M.TablesOk(t) && AllVouched(w, t.replicas) && ReportsRead(w, steps)
    ensures AllVouched(w, C.Run(t, steps).replicas)
  {
    if steps != [] {
      var init, last := steps[..|steps| - 1], steps[|steps| - 1];
      assert forall i :: 0 <= i < |init| ==> init[i] == steps[i];
      VouchedOverRun(w, t, init);
      VouchedStep(w, C.Run(t, init), last);
    }
  }

  lemma {:induction false} VouchedStep(w: World, t: T.Tables, step: C.Step)
    requires M.TablesOk(t) && AllVouched(w, t.replicas)
    requires step.request.Report? ==> ReadFromVolumes(w, step.request.events)
    ensures AllVouched(w, T.Next(t, step.request, step.now).replicas)
  {
    if !step.request.Report? {
      B.ReplicasSame(t, step.request, step.now);
    } else if T.Apply(t, step.request, step.now).Ok? {
      BatchVouched(w, t.replicas, step.request.events);
    }
  }

  /** A commit is accepted only with the raw lengths central knows, and other lengths cannot
      come up later. */
  lemma {:induction false} RawStays(w: World, t: T.Tables, req: T.CommitRequest, checked: nat, now: nat, later: R.Table)
    requires NoCollisions(w) && M.TablesOk(t) && T.CommitUpdate(t, req, checked, now).Ok?
    requires AllVouched(w, t.replicas) && AllVouched(w, later)
    ensures RawAgrees(later, req)
  {
    C.CommitAcceptedIff(t, req, checked, now);
    forall key, i | key in later && 0 <= i < |req.bundles| && key.0 == req.bundles[i].bundleId ensures later[key].raw == req.bundles[i].raw {
      assert R.LensOf(t.replicas, req.bundles[i].bundleId).Some?;
      var lowest := (key.0, R.LowestVolume(t.replicas, key.0));
      assert lowest in t.replicas && t.replicas[lowest].raw == req.bundles[i].raw;
      VouchedOnce(w, key.0, later[key].raw, t.replicas[lowest].raw);
    }
  }

  /** The plan of a committed file lists what was uploaded. */
  lemma {:induction false} PlanIsUpload(data: bytes, grant: nat -> nat, hash: Hash, bundleHash: BundleHash, idLists: set<seq<HashId>>,
                                        lists: map<HashId, seq<V.BundleChunkRef>>, req: T.CommitRequest,
                                        t: T.Tables, online: map<nat, nat>, plan: S.FileReadPlan)
    requires CollisionFree(bundleHash, idLists) && ListsOk(lists, bundleHash)
    requires Listed(SplitOf(data, grant, hash, bundleHash), lists, idLists) && Commits(req, SplitOf(data, grant, hash, bundleHash))
    requires M.TablesOk(t) && S.PlanOk(t, online, req.fileId, plan) && T.RowsOf(t, req.fileId) == T.Numbered(req.bundles)
    requires RawAgrees(t.replicas, req)
    ensures forall b :: 0 <= b < |plan.bundles| ==> plan.bundles[b].bundleId in lists
    ensures |plan.bundles| == Bundles(|data|) && IsPlan(data, grant, hash, Listings(plan, lists))
  {
    var split := SplitOf(data, grant, hash, bundleHash);
    var rows := T.RowsOf(t, req.fileId);
    forall b: nat | b < |plan.bundles|
      ensures plan.bundles[b].bundleId in lists && plan.bundles[b].index == b && plan.bundles[b].bundleId == split.bundles[b].bundleId
      ensures plan.bundles[b].target.lens.raw == split.bundles[b].rawLen
    {
      assert S.RefOk(t, online, rows, plan.bundles, b);
      assert rows[b] == T.BundleRow(b, req.bundles[b].bundleId);
      var target := plan.bundles[b].target;
      assert P.LocationOk(t.replicas, online, rows[b].bundleId, target.replicas[0]);
    }
    forall b: nat | b < |plan.bundles| ensures PlanEntry(data, grant, hash, Listings(plan, lists), b) {
      BundleStarts(|data|, b);
      StoredList(data, b, grant, hash, bundleHash, lists, idLists);
    }
  }

  /* ---- From file to file ---- */

  /** The file was read in full reads, and volumes hold its bundles; `lists` is what storages
      answer when asked for them. */
  ghost predicate Uploaded(w: World, data: bytes, grant: nat -> nat, lists: map<HashId, seq<V.BundleChunkRef>>) {
    var split := SplitOf(data, grant, w.hash, w.bundleHash);
    && |data| <= U64_MAX && FullReads(|data|, grant) && NoCollisions(w)
    && (forall i :: 0 <= i < |split.jobs| ==> Played(data, split.jobs[i], w.inPlay))
    && FromVolumes(w, lists) && Listed(split, lists, w.idLists)
  }

  /** After any requests at all central accepts a commit of the upload, and after any further
      ones about other files it gives out a plan; reports are read from volumes. */
  ghost predicate Planned(w: World, split: Split, earlier: seq<C.Step>, req: T.CommitRequest, checked: nat, now: nat, later: seq<C.Step>,
                          online: map<nat, nat>, plan: S.FileReadPlan) {
    var t := C.FromEmpty(earlier);
    && T.CommitUpdate(t, req, checked, now).Ok? && Commits(req, split)
    && var t1 := T.CommitUpdate(t, req, checked, now).value;
    && M.TablesOk(t1) && LeavesAlone(t1, later, req.fileId) && S.PlanOk(C.Run(t1, later), online, req.fileId, plan)
    && ReportsRead(w, earlier) && ReportsRead(w, later)
  }

  lemma {:induction false} PlannedVouched(w: World, split: Split, earlier: seq<C.Step>, req: T.CommitRequest, checked: nat, now: nat,
                                          later: seq<C.Step>, online: map<nat, nat>, plan: S.FileReadPlan)
    requires Planned(w, split, earlier, req, checked, now, later, online, plan)
    ensures AllVouched(w, C.FromEmpty(earlier).replicas)
    ensures AllVouched(w, C.Run(T.CommitUpdate(C.FromEmpty(earlier), req, checked, now).value, later).replicas)
  {
    C.EmptyOk();
    VouchedOverRun(w, C.EMPTY, earlier);
    var t := C.FromEmpty(earlier);
    B.CommitSame(t, req, checked, now);
    VouchedOverRun(w, T.CommitUpdate(t, req, checked, now).value, later);
  }

  /** The plan has the file's size and lists what was uploaded. */
  lemma {:induction false} PlanFits(w: World, data: bytes, grant: nat -> nat, lists: map<HashId, seq<V.BundleChunkRef>>,
                                    earlier: seq<C.Step>, req: T.CommitRequest, checked: nat, now: nat, later: seq<C.Step>,
                                    online: map<nat, nat>, plan: S.FileReadPlan)
    requires Uploaded(w, data, grant, lists)
    requires Planned(w, SplitOf(data, grant, w.hash, w.bundleHash), earlier, req, checked, now, later, online, plan)
    ensures plan.size == |data| && (forall b :: 0 <= b < |plan.bundles| ==> plan.bundles[b].bundleId in lists)
    ensures |plan.bundles| == Bundles(|data|) && IsPlan(data, grant, w.hash, Listings(plan, lists))
    ensures AllPass(plan.size, Listings(plan, lists))
    ensures AllTargets(Listings(plan, lists)) == FetchAll(SplitOf(data, grant, w.hash, w.bundleHash).jobs)
  {
    var t := C.FromEmpty(earlier);
    var t1 := T.CommitUpdate(t, req, checked, now).value;
    PlannedVouched(w, SplitOf(data, grant, w.hash, w.bundleHash), earlier, req, checked, now, later, online, plan);
    ListsAreOk(w, lists);
    CommittedFile(t, req, checked, now);
    StaysCommitted(t1, later, req.fileId);
    RawStays(w, t, req, checked, now, C.Run(t1, later).replicas);
    PlanIsUpload(data, grant, w.hash, w.bundleHash, w.idLists, lists, req, C.Run(t1, later), online, plan);
    SamePartition(data, grant, w.hash, Listings(plan, lists));
  }

  /** The calls of a download that fetch the plan's chunks. */
  ghost predicate Downloading(w: World, d: D.Download, a: D.Answers, plan: S.FileReadPlan, lists: map<HashId, seq<V.BundleChunkRef>>,
                              hashes: seq<HashId>, concurrency: nat, steps: seq<L.TransferStep>) {
    && (forall b :: 0 <= b < |plan.bundles| ==> plan.bundles[b].bundleId in lists)
    && D.Scheduled(d, hashes) && d.jobs == AllTargets(Listings(plan, lists)) && a.hash == w.hash && a.inPlay == w.inPlay
    && L.IsTransfer(L.Start(hashes, concurrency), D.EnvOf(d, a.content), steps) && AllServed(w, a, hashes, steps)
  }

  /** End to end. The file is read in full reads and its bundles are stored by volumes whose
      puts are well hashed. After any requests central accepts a commit of them, and serves a
      plan for the file after any further requests about other files; what is reported to it
      was read from volumes, at whatever time. The plan passes all range checks, and a
      download of it, on a scheduler shared with any other calls, gives back the bytes if it
      had to wait and returned Ok; it does so in any case, and returns Ok, if no call fails. */
  lemma {:induction false} FileComesBack(w: World, data: bytes, grant: nat -> nat, lists: map<HashId, seq<V.BundleChunkRef>>,
                                         earlier: seq<C.Step>, req: T.CommitRequest, checked: nat, now: nat, later: seq<C.Step>,
                                         online: map<nat, nat>, plan: S.FileReadPlan, d: D.Download, a: D.Answers,
                                         hashes: seq<HashId>, concurrency: nat, steps: seq<L.TransferStep>, blank: bytes)
    requires Uploaded(w, data, grant, lists)
    requires Planned(w, SplitOf(data, grant, w.hash, w.bundleHash), earlier, req, checked, now, later, online, plan)
    requires Downloading(w, d, a, plan, lists, hashes, concurrency, steps) && |blank| == plan.size
    requires L.Returned(L.End(L.Start(hashes, concurrency), D.EnvOf(d, a.content), steps)).Some?
    ensures plan.size == |data| && AllPass(plan.size, Listings(plan, lists))
    ensures var end := L.End(L.Start(hashes, concurrency), D.EnvOf(d, a.content), steps);
      && (a.allOk ==> L.Returned(end) == Some(Ok(())))
      && (L.Returned(end) == Some(Ok(())) && (end.waits == Some(true) || a.allOk) ==>
            var writes := D.WritesOf(d, end.sched.ran, a.content);
            (forall i :: 0 <= i < |writes| ==> Fits(writes[i], |blank|)) && Written(blank, writes) == data)
  {
    PlanFits(w, data, grant, lists, earlier, req, checked, now, later, online, plan);
    ServedRun(w, a, hashes, steps);
    var uploads := UploadJobs(data, Bundles(|data|), grant, w.hash);
    assert uploads == SplitOf(data, grant, w.hash, w.bundleHash).jobs;
    forall i | 0 <= i < |uploads| ensures JobGood(data, uploads[i], w.hash) {
      JobsGood(data, Bundles(|data|), grant, w.hash, uploads[i]);
    }
    D.DownloadIsRight(d, data, grant, a, hashes, concurrency, steps, blank);
  }

  /** What an accepted commit leaves of the file. */
  lemma {:induction false} CommittedFile(t: T.Tables, req: T.CommitRequest, checked: nat, now: nat)
    requires M.TablesOk(t) && T.CommitUpdate(t, req, checked, now).Ok?
    ensures var t1 := T.CommitUpdate(t, req, checked, now).value;
      M.TablesOk(t1) && req.fileId in t1.files && t1.files[req.fileId].size == req.newSize
      && T.RowsOf(t1, req.fileId) == T.Numbered(req.bundles)
  {
    var compressed := M.CommitSizes(t, req, checked, now);
    M.CommitKept(t, req, req.fileId, compressed, now);
  }
}
