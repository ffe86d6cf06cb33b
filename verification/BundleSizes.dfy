/** What reports do to the lengths central uses for a bundle, and so to the sizes of files:
    exactly when they stay what they were, and a run in which they drift. */
module BundleSizes {
  import opened Core
  import opened Paths
  import opened DirTree
  import opened CentralTables
  import opened CentralModel
  import opened CentralRuns
  import opened Replicas

  /* ---- The lengths of one bundle ---- */

  lemma {:induction false} LensIs(t: Replicas.Table, b: HashId, v: nat)
    requires (b, v) in t && forall w :: (b, w) in t ==> v <= w
    ensures LensOf(t, b) == Some(t[(b, v)]) && LowestVolume(t, b) == v
  {
    assert HasReplica(t, b);
    var u := LowestVolume(t, b);
    assert (b, u) in t;
  }

  /** A stored replica leaves a known bundle's lengths alone exactly when it is on a higher
      volume than the lowest, or agrees with it. */
  lemma {:induction false} StoredKeepsLensIff(t: Replicas.Table, b: HashId, v: nat, lens: Lens)
    requires HasReplica(t, b)
    ensures LensOf(t[(b, v) := lens], b) == LensOf(t, b) <==>
      (LowestVolume(t, b) < v || lens == t[(b, LowestVolume(t, b))])
  {
    var low := LowestVolume(t, b);
    var t1 := t[(b, v) := lens];
    var u := if v < low then v else low;
    assert (b, u) in t1;
    forall w | (b, w) in t1 ensures u <= w { if w != v { assert (b, w) in t; } }
    LensIs(t1, b, u);
  }

  /** A deleted replica does so exactly when it is not the lowest one, or the next one has
      the same lengths. */
  lemma {:induction false} DeletedKeepsLensIff(t: Replicas.Table, b: HashId, v: nat)
    requires HasReplica(t, b)
    ensures LensOf(t - {(b, v)}, b) == LensOf(t, b) <==>
      (v != LowestVolume(t, b) || exists u :: NextAfter(t, b, v, u) && t[(b, u)] == t[(b, v)])
  {
    var low := LowestVolume(t, b);
    var t1 := t - {(b, v)};
    if v != low {
      assert (b, low) in t1;
      LensIs(t1, b, low);
    } else if HasReplica(t1, b) {
      var u := LowestVolume(t1, b);
      forall w | (b, w) in t && w != v ensures u <= w { assert (b, w) in t1; }
      assert NextAfter(t, b, v, u);
      forall x: nat | NextAfter(t, b, v, x) ensures x == u { assert (b, x) in t1 && (b, u) in t; }
    } else {
      forall u: nat ensures !NextAfter(t, b, v, u) { assert (b, u) !in t1; }
    }
  }

  /** `u` is the lowest volume with a replica other than `v`. */
  ghost predicate NextAfter(t: Replicas.Table, b: HashId, v: nat, u: nat) {
    (b, u) in t && u != v && forall w :: (b, w) in t && w != v ==> u <= w
  }

  /** The row a batch will leave: what its last event for the row says, or the old row. */
  function RowAfter(t: Replicas.Table, events: seq<Event>, key: (HashId, nat)): Option<Lens> {
    match LastEvent(events, key)
    case None => if key in t then Some(t[key]) else None
    case Some(e) => if e.kind.Stored? then Some(e.lens) else None
  }

  /** The lowest volume the batch will leave for the bundle has the lengths it has now; a
      bundle without replicas gets none. */
  ghost predicate KeepsLens(t: Replicas.Table, events: seq<Event>, b: HashId) {
    match LensOf(t, b)
    case None => forall v: nat :: RowAfter(t, events, (b, v)) == None
    case Some(lens) => exists v: nat :: RowAfter(t, events, (b, v)) == Some(lens) && NoneBelow(t, events, b, v)
  }

  ghost predicate NoneBelow(t: Replicas.Table, events: seq<Event>, b: HashId, v: nat) {
    forall w: nat :: w < v ==> RowAfter(t, events, (b, w)) == None
  }

  lemma {:induction false} RowsAfter(t: Replicas.Table, events: seq<Event>, key: (HashId, nat))
    requires ApplyBatch(t, events).Ok?
    ensures var t1 := ApplyBatch(t, events).value;
      RowAfter(t, events, key) == if key in t1 then Some(t1[key]) else None
  {
    BatchEffect(t, events, key);
  }

  /** A batch leaves the lengths of a bundle alone exactly when `KeepsLens` holds before it. */
  lemma {:induction false} BatchKeepsLensIff(t: Replicas.Table, events: seq<Event>, b: HashId)
    requires ApplyBatch(t, events).Ok?
    ensures LensOf(ApplyBatch(t, events).value, b) == LensOf(t, b) <==> KeepsLens(t, events, b)
  {
    var t1 := ApplyBatch(t, events).value;
    forall v: nat ensures RowAfter(t, events, (b, v)) == if (b, v) in t1 then Some(t1[(b, v)]) else None {
      RowsAfter(t, events, (b, v));
    }
    if HasReplica(t1, b) {
      var u := LowestVolume(t1, b);
      assert RowAfter(t, events, (b, u)) == Some(t1[(b, u)]);
      assert NoneBelow(t, events, b, u);
      if LensOf(t, b).Some? && KeepsLens(t, events, b) {
        var v: nat :| RowAfter(t, events, (b, v)) == LensOf(t, b) && NoneBelow(t, events, b, v);
        OnlyLowest(t, events, b, u, v);
      }
    }
  }

  lemma {:induction false} OnlyLowest(t: Replicas.Table, events: seq<Event>, b: HashId, u: nat, v: nat)
    requires RowAfter(t, events, (b, u)).Some? && NoneBelow(t, events, b, u)
    requires RowAfter(t, events, (b, v)).Some? && NoneBelow(t, events, b, v)
    ensures u == v
  {}

  /* ---- Sums over bundle lists ---- */

  /** Every list whose bundles are all known keeps both of its sums. */
  ghost predicate SumsKept(t: Replicas.Table, t1: Replicas.Table) {
    forall rows: seq<BundleRow> {:trigger AllReady(t, rows)} :: AllReady(t, rows) ==> SameSums(t, t1, rows)
  }

  ghost predicate SameSums(t: Replicas.Table, t1: Replicas.Table, rows: seq<BundleRow>) {
    AllReady(t1, rows) && RawSum(t1, rows) == RawSum(t, rows) && CompressedSum(t1, rows) == CompressedSum(t, rows)
  }

  /** A list whose bundles keep their lengths keeps its sums. */
  lemma {:induction false} SameLensSameSums(t: Replicas.Table, t1: Replicas.Table, rows: seq<BundleRow>)
    requires AllReady(t, rows)
    requires forall i :: 0 <= i < |rows| ==> LensOf(t1, rows[i].bundleId) == LensOf(t, rows[i].bundleId)
    ensures SameSums(t, t1, rows)
  {
    if rows != [] {
      var init := rows[..|rows| - 1];
      assert forall i :: 0 <= i < |init| ==> init[i] == rows[i];
      SameLensSameSums(t, t1, init);
      assert LensOf(t, rows[|rows| - 1].bundleId).Some?;
      assert AllReady(t1, rows) by {
        forall i | 0 <= i < |rows| ensures LensOf(t1, rows[i].bundleId).Some? {}
      }
    }
  }

  lemma {:induction false} OneRow(t: Replicas.Table, b: HashId)
    requires LensOf(t, b).Some?
    ensures var rows := [BundleRow(0, b)];
      AllReady(t, rows) && RawSum(t, rows) == LensOf(t, b).value.raw && CompressedSum(t, rows) == LensOf(t, b).value.compressed
  {
    var rows := [BundleRow(0, b)];
    assert rows[..0] == [];
    assert RawSum(t, rows[..0]) == 0 && CompressedSum(t, rows[..0]) == 0;
  }

  /** A report keeps the sums of all lists of known bundles if and only if it keeps the
      lengths of every known bundle. */
  lemma {:induction false} ReportKeepsSumsIff(t: Replicas.Table, events: seq<Event>)
    requires ApplyBatch(t, events).Ok?
    ensures SumsKept(t, ApplyBatch(t, events).value) <==> forall b :: HasReplica(t, b) ==> KeepsLens(t, events, b)
  {
    var t1 := ApplyBatch(t, events).value;
    forall b ensures LensOf(t1, b) == LensOf(t, b) <==> KeepsLens(t, events, b) { BatchKeepsLensIff(t, events, b); }
    if forall b :: HasReplica(t, b) ==> KeepsLens(t, events, b) {
      forall rows: seq<BundleRow> | AllReady(t, rows) ensures SameSums(t, t1, rows) {
        forall i | 0 <= i < |rows| ensures LensOf(t1, rows[i].bundleId) == LensOf(t, rows[i].bundleId) {
          assert LensOf(t, rows[i].bundleId).Some?;
        }
        SameLensSameSums(t, t1, rows);
      }
    }
    if SumsKept(t, t1) {
      forall b | HasReplica(t, b) ensures KeepsLens(t, events, b) {
        OneRow(t, b);
        var rows := [BundleRow(0, b)];
        assert SameSums(t, t1, rows);
        assert LensOf(t1, rows[0].bundleId).Some?;
        OneRow(t1, b);
      }
    }
  }

  /* ---- Sizes of files ---- */

  /** The file's sizes are the sums of the lengths central uses for its bundles now. */
  ghost predicate SizeCurrent(t: Tables, f: nat)
    requires f in t.files
  {
    && AllReady(t.replicas, RowsOf(t, f))
    && t.files[f].size == RawSum(t.replicas, RowsOf(t, f)) && t.files[f].compressed == CompressedSum(t.replicas, RowsOf(t, f))
  }

  ghost predicate AllCurrent(t: Tables) {
    forall f {:trigger SizeCurrent(t, f)} :: f in t.files ==> SizeCurrent(t, f)
  }

  ghost predicate Uses(t: Tables, b: HashId) {
    exists f, i :: f in t.files && 0 <= i < |RowsOf(t, f)| && RowsOf(t, f)[i].bundleId == b
  }

  /** The request is no report, or one that keeps the lengths of every bundle in use. */
  ghost predicate KeepsUsed(t: Tables, request: Request) {
    request.Report? ==> forall b :: Uses(t, b) ==> KeepsLens(t.replicas, request.events, b)
  }

  /** Only a report that changes the lengths of a bundle in use can make a size drift. */
  lemma {:induction false} CurrentKept(t: Tables, request: Request, now: nat)
    requires TablesOk(t) && AllCurrent(t) && KeepsUsed(t, request)
    ensures AllCurrent(Next(t, request, now))
  {
    var t1 := Next(t, request, now);
    forall f | f in t1.files ensures SizeCurrent(t1, f) {
      if request.Report? {
        ReportCurrent(t, request, now, f);
      } else {
        OtherCurrent(t, request, now, f);
      }
    }
  }

  lemma {:induction false} ReportCurrent(t: Tables, request: Request, now: nat, f: nat)
    requires TablesOk(t) && AllCurrent(t) && KeepsUsed(t, request) && request.Report? && f in t.files
    ensures Next(t, request, now).files == t.files && SizeCurrent(Next(t, request, now), f)
  {
    assert SizeCurrent(t, f);
    var r := Replicas.Report(t.replicas, request.events, request.online, request.storageId);
    var rows := RowsOf(t, f);
    if r.Ok? {
      forall i | 0 <= i < |rows| ensures LensOf(r.value, rows[i].bundleId) == LensOf(t.replicas, rows[i].bundleId) {
        assert Uses(t, rows[i].bundleId);
        BatchKeepsLensIff(t.replicas, request.events, rows[i].bundleId);
      }
      SameLensSameSums(t.replicas, r.value, rows);
    }
  }

  lemma {:induction false} OtherCurrent(t: Tables, request: Request, now: nat, f: nat)
    requires TablesOk(t) && AllCurrent(t) && !request.Report? && f in Next(t, request, now).files
    ensures SizeCurrent(Next(t, request, now), f)
  {
    ReplicasSame(t, request, now);
    if f in t.files { assert SizeCurrent(t, f); }
    if Some(f) != Subject(t, request) {
      OthersUntouched(t, request, now, f);
    } else if Apply(t, request, now).Ok? {
      SubjectCurrent(t, request, now, f);
    }
  }

  lemma {:induction false} ReplicasSame(t: Tables, request: Request, now: nat)
    requires TreeOk(t.dirs) && FilesInTree(t) && !request.Report?
    ensures Next(t, request, now).replicas == t.replicas
  {
    match request
    case Begin(path, offset, volumeId) => BeginSame(t, path, offset, volumeId, now);
    case Commit(req, checked) => CommitSame(t, req, checked, now);
    case Copy(source, path) => CopySame(t, source, path, now);
    case Drop(_) =>
    case Abort(_, _) =>
    case Delete(_) =>
    case Rename(_, _) =>
    case Remove(_) =>
  }

  lemma {:induction false} BeginSame(t: Tables, path: string, offset: nat, volumeId: nat, now: nat)
    ensures BeginUpdate(t, path, offset, volumeId, now).Ok? ==> BeginUpdate(t, path, offset, volumeId, now).value.replicas == t.replicas
  {}

  lemma {:induction false} CommitSame(t: Tables, req: CommitRequest, checked: nat, now: nat)
    requires TreeOk(t.dirs) && FilesInTree(t)
    ensures CommitUpdate(t, req, checked, now).Ok? ==> CommitUpdate(t, req, checked, now).value.replicas == t.replicas
  {}

  lemma {:induction false} CopySame(t: Tables, source: nat, path: string, now: nat)
    ensures CopyFile(t, source, path, now).Ok? ==> CopyFile(t, source, path, now).value.replicas == t.replicas
  {}

  lemma {:induction false} BeginCurrent(t: Tables, path: string, offset: nat, volumeId: nat, now: nat)
    requires TablesOk(t) && BeginUpdate(t, path, offset, volumeId, now).Ok? && GetFileByPath(t, path).Err?
    ensures t.nextFileId in BeginUpdate(t, path, offset, volumeId, now).value.files
    ensures SizeCurrent(BeginUpdate(t, path, offset, volumeId, now).value, t.nextFileId)
  {
    PlaceOk(t, path, None);
    assert t.nextFileId !in t.files;
  }

  lemma {:induction false} CommitCurrent(t: Tables, req: CommitRequest, checked: nat, now: nat)
    requires TreeOk(t.dirs) && FilesInTree(t) && CommitUpdate(t, req, checked, now).Ok?
    ensures req.fileId in CommitUpdate(t, req, checked, now).value.files
    ensures SizeCurrent(CommitUpdate(t, req, checked, now).value, req.fileId)
  {
    var _ := CommitSizes(t, req, checked, now);
    CalculateIsSums(t.replicas, Numbered(req.bundles));
  }

  lemma {:induction false} CopyCurrent(t: Tables, source: nat, path: string, now: nat)
    requires TablesOk(t) && AllCurrent(t) && CopyFile(t, source, path, now).Ok?
    ensures t.nextFileId in CopyFile(t, source, path, now).value.files
    ensures SizeCurrent(CopyFile(t, source, path, now).value, t.nextFileId)
  {
    CopyDuplicates(t, source, path, now);
    assert SizeCurrent(t, source);
  }

  lemma {:induction false} RenameCurrent(t: Tables, fileId: nat, path: string, now: nat)
    requires TablesOk(t) && AllCurrent(t) && RenameFile(t, fileId, path, now).Ok?
    ensures fileId in RenameFile(t, fileId, path, now).value.files
    ensures SizeCurrent(RenameFile(t, fileId, path, now).value, fileId)
  {
    RenameMoves(t, fileId, path, now);
    assert SizeCurrent(t, fileId);
  }

  lemma {:induction false} SubjectCurrent(t: Tables, request: Request, now: nat, f: nat)
    requires TablesOk(t) && AllCurrent(t) && Subject(t, request) == Some(f)
    requires Apply(t, request, now).Ok? && f in Apply(t, request, now).value.files
    ensures SizeCurrent(Apply(t, request, now).value, f)
  {
    match request
    case Begin(path, offset, volumeId) => BeginCurrent(t, path, offset, volumeId, now);
    case Commit(req, checked) => CommitCurrent(t, req, checked, now);
    case Copy(source, path) => CopyCurrent(t, source, path, now);
    case Rename(fileId, path) => RenameCurrent(t, fileId, path, now);
    case Delete(_) =>
  }

  /** A run in which every report keeps the lengths of the bundles in use at that moment. */
  ghost predicate LensesStay(t: Tables, steps: seq<Step>)
    requires TablesOk(t)
  {
    steps == [] ||
    (LensesStay(t, steps[..|steps| - 1]) && KeepsUsed(Run(t, steps[..|steps| - 1]), steps[|steps| - 1].request))
  }

  /** Over every such run all sizes stay current, whatever is reported about bundles not in
      use or about replicas above the lowest one. */
  lemma {:induction false} StayCurrent(t: Tables, steps: seq<Step>)
    requires TablesOk(t) && AllCurrent(t) && LensesStay(t, steps)
    ensures AllCurrent(Run(t, steps))
  {
    if steps != [] {
      var before, last := Run(t, steps[..|steps| - 1]), steps[|steps| - 1];
      StayCurrent(t, steps[..|steps| - 1]);
      CurrentKept(before, last.request, last.now);
    }
  }

  lemma {:induction false} SizesStayCurrent(steps: seq<Step>)
    requires LensesStay(FromEmpty([]), steps)
    ensures AllCurrent(FromEmpty(steps))
  {
    EmptyOk();
    StayCurrent(EMPTY, steps);
  }

  /* ---- An update that goes through, and a report that makes its size drift ---- */

  const ONLINE: map<nat, nat> := map[1 := 0, 2 := 0]

  const SMALL: Lens := Lens(3, 2)
  const LARGE: Lens := Lens(5, 4)

  const SMALL_STORED: Replicas.Event := Event(1, Stored, 2, 7, SMALL)
  const LARGE_STORED: Replicas.Event := Event(1, Stored, 1, 7, LARGE)

  const REPORT_SMALL: Step := Step(Request.Report([SMALL_STORED], ONLINE, 0), 0)
  const REPORT_LARGE: Step := Step(Request.Report([LARGE_STORED], ONLINE, 0), 2)

  const COMMIT_SMALL: Step := Step(Request.Commit(CommitRequest(1, 1, 0, 3, [Submitted(7, 3, 2)]), 1), 1)

  function BeginAt(name: string): Step { Step(Begin(JoinPath("/", name), 0, 2), 0) }

  /** After the begin: an empty file with its lease. */
  function Begun(name: string): Tables {
    Tables(map[ROOT := ROOT_ROW], map[1 := FileRow(ROOT, name, 0, 0, 0, 0)], 2, map[], map[],
           map[1 := Lease(1, 2, 0, 0, UPDATE_LEASE_TTL_MS)], 2, [])
  }

  lemma {:induction false} BeginGoesThrough(name: string)
    requires ValidName(name)
    ensures BeginUpdate(EMPTY, JoinPath("/", name), 0, 2, 0) == Ok(Begun(name))
  {
    var path := JoinPath("/", name);
    assert SplitComponents("/") == Ok([]);
    NameDirRoundTrip("/", name);
    assert PathOf([]) == "/";
    SameTarget(path, [], name);
    assert MakeDirs(EMPTY.dirs, EMPTY.files, []) == Ok((EMPTY.dirs, ROOT));
    assert GetFileByPath(EMPTY, path) == Err(NotFound);
    assert !Taken(EMPTY.dirs, EMPTY.files, ROOT, name, None) by {
      assert forall id: nat :: !IsChild(EMPTY.dirs, ROOT, name, id);
    }
    assert BeginUpdate(EMPTY, path, 0, 2, 0).value.leases == map[1 := Lease(1, 2, 0, 0, UPDATE_LEASE_TTL_MS)];
  }

  lemma {:induction false} ReportOne(t: Replicas.Table, e: Replicas.Event)
    requires e.kind.Stored? && e.volumeId in ONLINE && e.lens.raw > 0 && e.lens.compressed > 0
    ensures Replicas.Report(t, [e], ONLINE, 0) == Ok(t[(e.bundleId, e.volumeId) := e.lens])
  {
    assert [e][..0] == [];
    assert ApplyBatch(t, []) == Ok(t);
  }

  const SMALL_ONLY: Replicas.Table := map[(7, 2) := SMALL]
  const BOTH: Replicas.Table := SMALL_ONLY[(7, 1) := LARGE]

  lemma {:induction false} LensesOf()
    ensures LensOf(SMALL_ONLY, 7) == Some(SMALL) && LensOf(BOTH, 7) == Some(LARGE)
  {
    LensIs(SMALL_ONLY, 7, 2);
    LensIs(BOTH, 7, 1);
  }

  lemma {:induction false} AfterBegin(name: string)
    requires ValidName(name)
    ensures TablesOk(EMPTY) && Run(EMPTY, [BeginAt(name)]) == Begun(name)
  {
    EmptyOk();
    BeginGoesThrough(name);
    RunSnoc(EMPTY, [], BeginAt(name));
    assert [] + [BeginAt(name)] == [BeginAt(name)];
  }

  lemma {:induction false} ReportNext(t: Tables, report: Step, e: Replicas.Event)
    requires TreeOk(t.dirs) && FilesInTree(t) && report.request == Request.Report([e], ONLINE, 0)
    requires e.kind.Stored? && e.volumeId in ONLINE && e.lens.raw > 0 && e.lens.compressed > 0
    ensures Next(t, report.request, report.now) == t.(replicas := t.replicas[(e.bundleId, e.volumeId) := e.lens])
  {
    ReportOne(t.replicas, e);
  }

  lemma {:induction false} AfterReport(name: string)
    requires ValidName(name)
    ensures TablesOk(EMPTY) && Run(EMPTY, [BeginAt(name)] + [REPORT_SMALL]) == Begun(name).(replicas := SMALL_ONLY)
  {
    AfterBegin(name);
    RunSnoc(EMPTY, [BeginAt(name)], REPORT_SMALL);
    ReportNext(Begun(name), REPORT_SMALL, SMALL_STORED);
    assert map[][(7, 2) := SMALL] == SMALL_ONLY;
  }

  lemma {:induction false} CommitOne(name: string)
    requires ValidName(name)
    requires TablesOk(Begun(name).(replicas := SMALL_ONLY))
    ensures var reported := Begun(name).(replicas := SMALL_ONLY);
      var r := CommitUpdate(reported, COMMIT_SMALL.request.request, 1, 1);
      && r.Ok? && r.value.replicas == SMALL_ONLY && r.value.files.Keys == {1}
      && r.value.files[1].size == 3 && r.value.files[1].compressed == 2 && RowsOf(r.value, 1) == [BundleRow(0, 7)]
      && LensOf(SMALL_ONLY, 7) == Some(SMALL)
  {
    LensesOf();
    var reported := Begun(name).(replicas := SMALL_ONLY);
    var bundles := [Submitted(7, 3, 2)];
    assert Numbered(bundles) == [BundleRow(0, 7)];
    OneRow(SMALL_ONLY, 7);
    assert LengthsMatch(SMALL_ONLY, bundles);
    CommitAcceptedIff(reported, COMMIT_SMALL.request.request, 1, 1);
    var compressed := CommitSizes(reported, COMMIT_SMALL.request.request, 1, 1);
    CalculateIsSums(SMALL_ONLY, Numbered(bundles));
  }

  /** From the empty tables any file in the root can be begun and, once a bundle of it is
      reported, committed with that bundle. */
  lemma {:induction false} AnUpdateGoesThrough(name: string) returns (t: Tables)
    requires ValidName(name)
    ensures TablesOk(EMPTY) && t == Run(EMPTY, [BeginAt(name)] + [REPORT_SMALL] + [COMMIT_SMALL])
    ensures CommitUpdate(Run(EMPTY, [BeginAt(name)] + [REPORT_SMALL]), COMMIT_SMALL.request.request, 1, 1) == Ok(t)
    ensures t.replicas == SMALL_ONLY && t.files.Keys == {1} && t.files[1].size == 3 && t.files[1].compressed == 2
    ensures RowsOf(t, 1) == [BundleRow(0, 7)]
  {
    AfterReport(name);
    CommitOne(name);
    RunSnoc(EMPTY, [BeginAt(name)] + [REPORT_SMALL], COMMIT_SMALL);
    t := Run(EMPTY, [BeginAt(name)] + [REPORT_SMALL] + [COMMIT_SMALL]);
  }

  /** A report of other lengths for the file's bundle on a lower volume: the file keeps its
      size, and the sum of its bundles is another one. */
  lemma {:induction false} ConflictingReportDrifts(name: string)
    requires ValidName(name)
    ensures var steps := [BeginAt(name)] + [REPORT_SMALL] + [COMMIT_SMALL];
      var t := FromEmpty(steps + [REPORT_LARGE]);
      && AllCurrent(FromEmpty(steps)) && !KeepsUsed(FromEmpty(steps), REPORT_LARGE.request)
      && 1 in t.files && t.files[1].size == 3 && RawSum(t.replicas, RowsOf(t, 1)) == 5 && !SizeCurrent(t, 1)
  {
    var steps := [BeginAt(name)] + [REPORT_SMALL] + [COMMIT_SMALL];
    var before := AnUpdateGoesThrough(name);
    RunSnoc(EMPTY, steps, REPORT_LARGE);
    ReportNext(before, REPORT_LARGE, LARGE_STORED);
    Drifts(before);
    UsedAndChanged(before);
  }

  lemma {:induction false} Drifts(t: Tables)
    requires t.replicas == SMALL_ONLY && t.files.Keys == {1} && RowsOf(t, 1) == [BundleRow(0, 7)]
    requires t.files[1].size == 3 && t.files[1].compressed == 2
    ensures AllCurrent(t)
    ensures RawSum(BOTH, RowsOf(t, 1)) == 5 && !SizeCurrent(t.(replicas := BOTH), 1)
  {
    LensesOf();
    OneRow(SMALL_ONLY, 7);
    OneRow(BOTH, 7);
    assert RowsOf(t.(replicas := BOTH), 1) == RowsOf(t, 1);
  }

  lemma {:induction false} UsedAndChanged(t: Tables)
    requires t.replicas == SMALL_ONLY && 1 in t.files && RowsOf(t, 1) == [BundleRow(0, 7)]
    ensures !KeepsUsed(t, REPORT_LARGE.request)
  {
    assert Uses(t, 7) by { assert RowsOf(t, 1)[0].bundleId == 7; }
    LensesOf();
    ReportOne(SMALL_ONLY, LARGE_STORED);
    assert ApplyBatch(SMALL_ONLY, [LARGE_STORED]) == Ok(BOTH);
    BatchKeepsLensIff(SMALL_ONLY, [LARGE_STORED], 7);
  }
}
