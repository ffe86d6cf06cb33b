/** A download on the shared scheduler: its callbacks check what their calls got and pass it to
    the writer, in whatever order they run. Calls of other downloads may share its requests. */
module SharedDownload {
  import opened Core
  import opened SchedulerModel
  import opened CompletionLatch
  import T = Transfer
  import R = RoundTrip

  /** Call `calls[i]` of the scheduler is the download's, and fetches `jobs[i]`. */
  datatype Download = Download(calls: seq<nat>, jobs: seq<T.DownloadJob>)

  /** What is known of the handlers' answers: `content` is what a response stands for, `allOk`
      says that none of them fails. */
  datatype Answers = Answers(content: nat -> R.ChunkResult, hash: T.Hash, inPlay: set<T.bytes>, allOk: bool)

  ghost predicate Scheduled(d: Download, hashes: seq<HashId>) {
    && |d.calls| == |d.jobs| && Distinct(d.calls)
    && (forall i :: 0 <= i < |d.calls| ==> d.calls[i] < |hashes| && hashes[d.calls[i]] == d.jobs[i].chunkId)
  }

  /** The item that goes with call `c`. */
  function ItemOf<A>(calls: seq<nat>, items: seq<A>, c: nat): Option<A>
    requires |calls| == |items|
  {
    if calls == [] then None
    else
      var n := |calls| - 1;
      if calls[n] == c then Some(items[n]) else ItemOf(calls[..n], items[..n], c)
  }

  /** The chunk a handler's outcome stands for. */
  function Got(outcome: Outcome, content: nat -> R.ChunkResult): Result<R.ChunkResult> {
    match outcome
    case Err(e) => Err(e)
    case Ok(response) => Ok(content(response))
  }

  /** The verdict of a callback of the download. */
  function VerdictOf(d: Download, content: nat -> R.ChunkResult, c: nat, outcome: Outcome): Option<Fs0Error>
    requires |d.calls| == |d.jobs|
  {
    match ItemOf(d.calls, d.jobs, c)
    case None => None
    case Some(job) =>
      match R.Accept(job, Got(outcome, content))
      case Ok(_) => None
      case Err(e) => Some(e)
  }

  function EnvOf(d: Download, content: nat -> R.ChunkResult): Env
    requires |d.calls| == |d.jobs|
  {
    Env(set c | c in d.calls, (c: nat, outcome: Outcome) => VerdictOf(d, content, c, outcome))
  }

  /** What one callback sends to the writer. */
  function WriteOf(d: Download, x: Ran, content: nat -> R.ChunkResult): seq<R.WriteJob>
    requires |d.calls| == |d.jobs|
  {
    match ItemOf(d.calls, d.jobs, x.call)
    case None => []
    case Some(job) =>
      match R.Accept(job, Got(x.outcome, content))
      case Ok(w) => [w]
      case Err(_) => []
  }

  /** What the writer gets, in the order in which the callbacks run. */
  function WritesOf(d: Download, ran: seq<Ran>, content: nat -> R.ChunkResult): seq<R.WriteJob>
    requires |d.calls| == |d.jobs|
  {
    if ran == [] then [] else WritesOf(d, ran[..|ran| - 1], content) + WriteOf(d, ran[|ran| - 1], content)
  }

  /* ---- Every callback ran once: the items arrive in some order ---- */

  function Arrived<A>(calls: seq<nat>, items: seq<A>, ran: seq<Ran>): seq<A>
    requires |calls| == |items|
  {
    if ran == [] then []
    else
      Arrived(calls, items, ran[..|ran| - 1]) +
      match ItemOf(calls, items, ran[|ran| - 1].call)
      case None => []
      case Some(item) => [item]
  }

  lemma {:induction false} ItemOfSnoc<A>(calls: seq<nat>, items: seq<A>, c: nat, item: A, x: nat)
    requires |calls| == |items|
    ensures ItemOf(calls + [c], items + [item], x) == if x == c then Some(item) else ItemOf(calls, items, x)
  {
    assert (calls + [c])[..|calls|] == calls && (items + [item])[..|items|] == items;
  }

  lemma {:induction false} ItemOfNone<A>(calls: seq<nat>, items: seq<A>, c: nat)
    requires |calls| == |items| && c !in calls
    ensures ItemOf(calls, items, c) == None
  {
    if calls != [] { ItemOfNone(calls[..|calls| - 1], items[..|calls| - 1], c); }
  }

  lemma {:induction false} ItemOfIs<A>(calls: seq<nat>, items: seq<A>, c: nat) returns (i: nat)
    requires |calls| == |items| && ItemOf(calls, items, c).Some?
    ensures i < |calls| && calls[i] == c && items[i] == ItemOf(calls, items, c).value
  {
    var n := |calls| - 1;
    if calls[n] == c { i := n; } else { i := ItemOfIs(calls[..n], items[..n], c); }
  }

  lemma {:induction false} ItemOfSome<A>(calls: seq<nat>, items: seq<A>, c: nat)
    requires |calls| == |items| && c in calls
    ensures ItemOf(calls, items, c).Some?
  {
    var n := |calls| - 1;
    if calls[n] != c { ItemOfSome(calls[..n], items[..n], c); }
  }

  lemma {:induction false} ArrivedSnoc<A>(calls: seq<nat>, items: seq<A>, c: nat, item: A, ran: seq<Ran>)
    requires |calls| == |items| && c !in calls
    ensures multiset(Arrived(calls + [c], items + [item], ran)) == multiset(Arrived(calls, items, ran)) + multiset{}[item := RanCount(ran, c)]
  {
    if ran != [] {
      var last := ran[|ran| - 1].call;
      ArrivedSnoc(calls, items, c, item, ran[..|ran| - 1]);
      ItemOfSnoc(calls, items, c, item, last);
      ItemOfNone(calls, items, c);
    }
  }

  /** When each of the calls ran once, each of the items arrived once. */
  lemma {:induction false} ArrivedAll<A>(calls: seq<nat>, items: seq<A>, ran: seq<Ran>)
    requires |calls| == |items| && Distinct(calls) && EachOnce(calls, ran)
    ensures multiset(Arrived(calls, items, ran)) == multiset(items)
  {
    if calls == [] {
      ArrivedNone(items, ran);
    } else {
      var n := |calls| - 1;
      var c, item := calls[n], items[n];
      assert calls == calls[..n] + [c] && items == items[..n] + [item];
      assert RanCount(ran, c) == 1 && Distinct(calls[..n]) && EachOnce(calls[..n], ran);
      ArrivedAll(calls[..n], items[..n], ran);
      ArrivedSnoc(calls[..n], items[..n], c, item, ran);
      assert multiset{}[item := 1] == multiset{item};
    }
  }

  predicate Distinct(calls: seq<nat>) { forall i, j :: 0 <= i < j < |calls| ==> calls[i] != calls[j] }

  predicate EachOnce(calls: seq<nat>, ran: seq<Ran>) { forall i :: 0 <= i < |calls| ==> RanCount(ran, calls[i]) == 1 }

  lemma {:induction false} ArrivedNone<A>(items: seq<A>, ran: seq<Ran>)
    requires items == []
    ensures Arrived([], items, ran) == []
  {
    if ran != [] { ArrivedNone(items, ran[..|ran| - 1]); }
  }

  /* ---- What the writer gets is the file ---- */

  /** The client has checked a response against its request before it hands it on. */
  predicate Checked(a: Answers, h: HashId, outcome: Outcome) {
    match outcome
    case Err(_) => !a.allOk
    case Ok(response) =>
      var chunk := a.content(response);
      chunk.chunkId == h && a.hash(chunk.raw) == h && chunk.raw in a.inPlay
  }

  ghost predicate RanChecked(d: Download, a: Answers, x: Ran)
    requires |d.calls| == |d.jobs|
  {
    match ItemOf(d.calls, d.jobs, x.call)
    case None => true
    case Some(job) => Checked(a, job.chunkId, x.outcome)
  }

  /** The download fetches what the upload jobs put. */
  ghost predicate Fetches(d: Download, data: T.bytes, uploads: seq<T.UploadJob>, a: Answers) {
    && |d.calls| == |uploads| && d.jobs == R.FetchAll(uploads) && R.CollisionFree(a.hash, a.inPlay)
    && forall i :: 0 <= i < |uploads| ==> R.JobGood(data, uploads[i], a.hash) && R.Played(data, uploads[i], a.inPlay)
  }

  lemma {:induction false} SameIndex<A, B>(calls: seq<nat>, items: seq<A>, others: seq<B>, c: nat) returns (i: nat)
    requires |calls| == |items| == |others| && ItemOf(calls, items, c).Some?
    ensures i < |calls| && ItemOf(calls, items, c) == Some(items[i]) && ItemOf(calls, others, c) == Some(others[i])
  {
    var n := |calls| - 1;
    if calls[n] == c { i := n; } else { i := SameIndex(calls[..n], items[..n], others[..n], c); }
  }

  /** A callback of the download that passes its chunk on writes the piece of the file its
      call stands for. */
  lemma {:induction false} WritesPiece(d: Download, data: T.bytes, uploads: seq<T.UploadJob>, a: Answers, x: Ran) returns (upload: T.UploadJob)
    requires Fetches(d, data, uploads, a) && RanChecked(d, a, x) && ItemOf(d.calls, d.jobs, x.call).Some?
    ensures ItemOf(d.calls, uploads, x.call) == Some(upload)
    ensures VerdictOf(d, a.content, x.call, x.outcome).None? <==> x.outcome.Ok?
    ensures x.outcome.Ok? ==> |WriteOf(d, x, a.content)| == 1 && R.Carries(data, upload, WriteOf(d, x, a.content)[0])
  {
    var i := SameIndex(d.calls, d.jobs, uploads, x.call);
    upload := uploads[i];
    assert R.JobGood(data, uploads[i], a.hash) && R.Played(data, uploads[i], a.inPlay);
  }

  /** As long as no callback failed, the writes so far carry the pieces that have arrived. */
  lemma {:induction false} WritesCarry(d: Download, data: T.bytes, uploads: seq<T.UploadJob>, a: Answers, ran: seq<Ran>)
    requires Fetches(d, data, uploads, a) && (forall i :: 0 <= i < |ran| ==> RanChecked(d, a, ran[i]))
    requires FirstError(ran, EnvOf(d, a.content)) == None
    ensures var writes, arrived := WritesOf(d, ran, a.content), Arrived(d.calls, uploads, ran);
      |writes| == |arrived| && forall i :: 0 <= i < |arrived| ==> R.Carries(data, arrived[i], writes[i])
  {
    if ran != [] {
      var last := ran[|ran| - 1];
      WritesCarry(d, data, uploads, a, ran[..|ran| - 1]);
      assert RanChecked(d, a, ran[|ran| - 1]);
      if ItemOf(d.calls, d.jobs, last.call).Some? {
        var i := ItemOfIs(d.calls, d.jobs, last.call);
        var upload := WritesPiece(d, data, uploads, a, last);
      } else if ItemOf(d.calls, uploads, last.call).Some? {
        var i := SameIndex(d.calls, uploads, d.jobs, last.call);
      }
    }
  }

  /** Whatever the order in which the callbacks ran, if each ran once and none failed, the
      writer restores the file. */
  lemma {:induction false} AnyOrder(d: Download, data: T.bytes, grant: nat -> nat, a: Answers, ran: seq<Ran>, blank: T.bytes)
    requires Fetches(d, data, T.UploadJobs(data, T.Bundles(|data|), grant, a.hash), a) && |blank| == |data|
    requires Distinct(d.calls) && EachOnce(d.calls, ran)
    requires (forall i :: 0 <= i < |ran| ==> RanChecked(d, a, ran[i])) && FirstError(ran, EnvOf(d, a.content)) == None
    ensures var writes := WritesOf(d, ran, a.content);
      (forall i :: 0 <= i < |writes| ==> R.Fits(writes[i], |blank|)) && R.Written(blank, writes) == data
  {
    var uploads := T.UploadJobs(data, T.Bundles(|data|), grant, a.hash);
    ArrivedAll(d.calls, uploads, ran);
    WritesCarry(d, data, uploads, a, ran);
    R.Rebuilds(data, blank, Arrived(d.calls, uploads, ran), WritesOf(d, ran, a.content), grant, a.hash);
  }

  /* ---- On the scheduler ---- */

  ghost predicate StepChecked(a: Answers, hashes: seq<HashId>, step: TransferStep) {
    step.Sched? && step.step.HandlerReturns? && step.step.k < |hashes| ==> Checked(a, hashes[step.step.k], step.step.outcome)
  }

  ghost predicate AllChecked(a: Answers, hashes: seq<HashId>, steps: seq<TransferStep>) {
    forall i :: 0 <= i < |steps| ==> StepChecked(a, hashes, steps[i])
  }

  predicate SlotChecked(a: Answers, h: HashId, slot: Slot) {
    && (slot.result.Some? ==> Checked(a, h, slot.result.value))
    && (slot.task.Completing? ==> Checked(a, h, slot.task.outcome))
  }

  /** Every result in the scheduler is a checked answer to the request of its slot. */
  ghost predicate SlotsChecked(a: Answers, hashes: seq<HashId>, s: State) {
    && |s.calls| == |s.slots| == |hashes|
    && (forall c :: 0 <= c < |s.calls| ==> s.calls[c].hash == hashes[c])
    && (forall k :: 0 <= k < |s.slots| ==> SlotChecked(a, hashes[k], s.slots[k]))
  }

  lemma {:induction false} CheckedKept(a: Answers, hashes: seq<HashId>, s: State, step: Step)
    requires SlotsChecked(a, hashes, s) && Enabled(s, step) && StepChecked(a, hashes, Sched(step))
    ensures SlotsChecked(a, hashes, Apply(s, step))
  {
    var s' := Apply(s, step);
    forall k | 0 <= k < |s'.slots| ensures SlotChecked(a, hashes[k], s'.slots[k]) { assert SlotChecked(a, hashes[k], s.slots[k]); }
  }

  lemma {:induction false} CheckedOverRun(a: Answers, hashes: seq<HashId>, t: Transfer, env: Env, steps: seq<TransferStep>)
    requires SlotsChecked(a, hashes, t.sched) && IsTransfer(t, env, steps) && AllChecked(a, hashes, steps)
    ensures SlotsChecked(a, hashes, End(t, env, steps).sched)
    decreases |steps|
  {
    if steps != [] {
      assert StepChecked(a, hashes, steps[0]);
      if steps[0].Sched? { CheckedKept(a, hashes, t.sched, steps[0].step); }
      assert forall i :: 0 <= i < |steps[1..]| ==> steps[1..][i] == steps[i + 1];
      CheckedOverRun(a, hashes, Next(t, env, steps[0]), env, steps[1..]);
    }
  }

  /** A callback got the answer to a request for its own chunk, whichever call made it. */
  lemma {:induction false} GotChecked(a: Answers, hashes: seq<HashId>, s: State, capacity: nat, d: Download, i: nat)
    requires Inv(s, capacity) && SlotsChecked(a, hashes, s) && Scheduled(d, hashes) && i < |s.ran|
    ensures RanChecked(d, a, s.ran[i])
  {
    var x := s.ran[i];
    assert RanAtHome(s, i) && CallShape(s, x.call);
    var k := s.calls[x.call].slot.value;
    assert SlotChecked(a, hashes[k], s.slots[k]);
    if ItemOf(d.calls, d.jobs, x.call).Some? {
      var j := ItemOfIs(d.calls, d.jobs, x.call);
    }
  }

  /** A transfer that has returned has seen each of its callbacks run once. */
  lemma {:induction false} RanOnce(t: Transfer, env: Env, capacity: nat, c: nat)
    requires TransferInv(t, env, capacity) && CompletionLatch.Returned(t).Some? && c in env.mine
    ensures RanCount(t.sched.ran, c) == 1
  {
    assert c !in Pending(t);
    assert Places(t.sched, c) == 1;
  }

  lemma {:induction false} NoError(d: Download, data: T.bytes, uploads: seq<T.UploadJob>, a: Answers, ran: seq<Ran>)
    requires Fetches(d, data, uploads, a) && a.allOk && (forall i :: 0 <= i < |ran| ==> RanChecked(d, a, ran[i]))
    ensures FirstError(ran, EnvOf(d, a.content)) == None
  {
    if ran != [] {
      var last := ran[|ran| - 1];
      NoError(d, data, uploads, a, ran[..|ran| - 1]);
      assert RanChecked(d, a, ran[|ran| - 1]);
      if ItemOf(d.calls, d.jobs, last.call).Some? {
        var upload := WritesPiece(d, data, uploads, a, last);
      }
    }
  }

  /** The download is right: in every interleaving with whatever else uses the scheduler, if
      it had to wait and returned Ok, the writer has restored the file; and if no handler
      failed it returns Ok and has restored the file, waiting or not. */
  lemma {:induction false} DownloadIsRight(d: Download, data: T.bytes, grant: nat -> nat, a: Answers, hashes: seq<HashId>, concurrency: nat,
                                           steps: seq<TransferStep>, blank: T.bytes)
    requires Scheduled(d, hashes) && |blank| == |data|
    requires Fetches(d, data, T.UploadJobs(data, T.Bundles(|data|), grant, a.hash), a)
    requires IsTransfer(Start(hashes, concurrency), EnvOf(d, a.content), steps) && AllChecked(a, hashes, steps)
    requires CompletionLatch.Returned(End(Start(hashes, concurrency), EnvOf(d, a.content), steps)).Some?
    ensures var t := End(Start(hashes, concurrency), EnvOf(d, a.content), steps);
      && (a.allOk ==> CompletionLatch.Returned(t) == Some(Ok(())))
      && (CompletionLatch.Returned(t) == Some(Ok(())) && (t.waits == Some(true) || a.allOk) ==>
            var writes := WritesOf(d, t.sched.ran, a.content);
            (forall i :: 0 <= i < |writes| ==> R.Fits(writes[i], |blank|)) && R.Written(blank, writes) == data)
  {
    var env, t0 := EnvOf(d, a.content), Start(hashes, concurrency);
    var t := End(t0, env, steps);
    StartInv(hashes, concurrency, env);
    EndInv(t0, env, steps, Capacity(concurrency));
    CheckedOverRun(a, hashes, t0, env, steps);
    LatchSignals(hashes, concurrency, env, steps);
    forall i | 0 <= i < |t.sched.ran| ensures RanChecked(d, a, t.sched.ran[i]) {
      GotChecked(a, hashes, t.sched, Capacity(concurrency), d, i);
    }
    forall i | 0 <= i < |d.calls| ensures RanCount(t.sched.ran, d.calls[i]) == 1 {
      RanOnce(t, env, Capacity(concurrency), d.calls[i]);
    }
    if a.allOk { NoError(d, data, T.UploadJobs(data, T.Bundles(|data|), grant, a.hash), a, t.sched.ran); }
    if FirstError(t.sched.ran, env).None? { AnyOrder(d, data, grant, a, t.sched.ran, blank); }
  }
}
