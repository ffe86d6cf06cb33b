/** The completion latch of a transfer (`InternalUploadState`, `InternalDownloadState`),
    run together with the single-flight scheduler: chunks are counted before they are
    enqueued, callbacks count them off, and the last one signals `done_tx`. */
module CompletionLatch {
  import opened Core
  import opened SchedulerModel

  /** `armed` says that `done_tx` has not been taken yet. */
  datatype Latch = Latch(remain: nat, total: nat, schedulingDone: bool, firstError: Option<Fs0Error>, armed: bool)

  const NEW_LATCH := Latch(0, 0, false, None, true)

  function ToResult(e: Option<Fs0Error>): Result<()> {
    match e
    case Some(err) => Err(err)
    case None => Ok(())
  }

  function CountChunk(l: Latch): Latch { l.(remain := l.remain + 1, total := l.total + 1) }

  /** What a chunk's callback does under the state lock, given its verdict on the chunk:
      the new state and the result sent through `done_tx`, if any. */
  function OnCallback(l: Latch, verdict: Option<Fs0Error>): (Latch, Option<Result<()>>) {
    var first := if l.firstError.None? then verdict else l.firstError;
    var remain := if l.remain > 0 then l.remain - 1 else 0;
    if l.schedulingDone && remain == 0 && l.armed then
      (Latch(remain, l.total, true, None, false), Some(ToResult(first)))
    else
      (l.(remain := remain, firstError := first), None)
  }

  /** What the scheduling loop does after its last chunk: state, sent result, should_wait. */
  function OnScheduled(l: Latch): (Latch, Option<Result<()>>, bool) {
    if l.remain == 0 then
      if l.armed then (l.(schedulingDone := true, firstError := None, armed := false), Some(ToResult(l.firstError)), false)
      else (l.(schedulingDone := true), None, false)
    else (l.(schedulingDone := true), None, true)
  }

  /** The shared state of one transfer, updated in place under its lock. */
  class TransferState {
    var remainChunks: nat
    var totalChunks: nat
    var schedulingDone: bool
    var firstError: Option<Fs0Error>
    var doneTx: bool

    ghost function View(): Latch
      reads this
    {
      Latch(remainChunks, totalChunks, schedulingDone, firstError, doneTx)
    }

    constructor ()
      ensures View() == NEW_LATCH
    {
      remainChunks, totalChunks, schedulingDone, firstError, doneTx := 0, 0, false, None, true;
    }

    method Count()
      modifies this
      ensures View() == CountChunk(old(View()))
    {
      remainChunks := remainChunks + 1;
      totalChunks := totalChunks + 1;
    }

    method ChunkDone(verdict: Option<Fs0Error>) returns (sent: Option<Result<()>>)
      modifies this
      ensures (View(), sent) == OnCallback(old(View()), verdict)
    {
      if verdict.Some? && firstError.None? {
        firstError := verdict;
      }
      remainChunks := if remainChunks == 0 then 0 else remainChunks - 1;
      sent := None;
      if schedulingDone && remainChunks == 0 && doneTx {
        doneTx := false;
        sent := Some(match firstError case Some(err) => Err(err) case None => Ok(()));
        firstError := None;
      }
    }

    method SchedulingDone() returns (sent: Option<Result<()>>, shouldWait: bool)
      modifies this
      ensures (View(), sent, shouldWait) == OnScheduled(old(View()))
    {
      schedulingDone := true;
      sent := None;
      if remainChunks == 0 {
        if doneTx {
          doneTx := false;
          sent := Some(match firstError case Some(err) => Err(err) case None => Ok(()));
          firstError := None;
        }
        shouldWait := false;
      } else {
        shouldWait := true;
      }
    }
  }

  /* ---- A transfer and the scheduler it shares with other transfers ---- */

  /** `sent` collects what went through `done_tx`, `waits` is `should_wait` once decided. */
  datatype Transfer = Transfer(sched: State, latch: Latch, counted: set<nat>, sent: seq<Result<()>>, waits: Option<bool>)

  /** The transfer's own calls, and the verdict its callback for a call reaches on a result. */
  datatype Env = Env(mine: set<nat>, verdict: (nat, Outcome) -> Option<Fs0Error>)

  datatype TransferStep = CountNext(c: nat) | Sched(step: Step) | FinishScheduling

  function Start(hashes: seq<HashId>, concurrency: nat): Transfer {
    Transfer(Init(hashes, concurrency), NEW_LATCH, {}, [], None)
  }

  ghost predicate CanStep(t: Transfer, env: Env, step: TransferStep) {
    match step
    case CountNext(c) => !t.latch.schedulingDone && c in env.mine && c !in t.counted
    case Sched(st) =>
      && Enabled(t.sched, st)
      && (st.Lookup? && st.c in env.mine ==> st.c in t.counted)
    case FinishScheduling =>
      && !t.latch.schedulingDone && t.counted == env.mine
      && forall c :: c in env.mine ==> c < |t.sched.calls| && t.sched.calls[c].pc.Returned?
  }

  function Append(sent: seq<Result<()>>, more: Option<Result<()>>): seq<Result<()>> {
    match more
    case Some(r) => sent + [r]
    case None => sent
  }

  ghost function Next(t: Transfer, env: Env, step: TransferStep): Transfer
    requires CanStep(t, env, step)
  {
    match step
    case CountNext(c) => t.(latch := CountChunk(t.latch), counted := t.counted + {c})
    case Sched(st) => AfterSched(t.(sched := Apply(t.sched, st)), env, |t.sched.ran|)
    case FinishScheduling =>
      var (l, out, wait) := OnScheduled(t.latch);
      t.(latch := l, sent := Append(t.sent, out), waits := Some(wait))
  }

  /** If the scheduler step ran one of the transfer's callbacks, the latch counts it off. */
  ghost function AfterSched(t: Transfer, env: Env, ranBefore: nat): Transfer {
    if |t.sched.ran| > ranBefore && t.sched.ran[|t.sched.ran| - 1].call in env.mine then
      var last := t.sched.ran[|t.sched.ran| - 1];
      var (l, out) := OnCallback(t.latch, env.verdict(last.call, last.outcome));
      t.(latch := l, sent := Append(t.sent, out))
    else t
  }

  /** The first error among the transfer's callbacks, in the order they ran. */
  ghost function FirstError(ran: seq<Ran>, env: Env): Option<Fs0Error> {
    if ran == [] then None
    else
      var earlier := FirstError(ran[..|ran| - 1], env);
      var last := ran[|ran| - 1];
      if earlier.Some? then earlier
      else if last.call in env.mine then env.verdict(last.call, last.outcome)
      else None
  }

  ghost function Pending(t: Transfer): set<nat> { set c | c in t.counted && RanCount(t.sched.ran, c) == 0 }

  ghost predicate LatchInv(t: Transfer, env: Env) {
    && t.counted <= env.mine
    && (forall c :: c in env.mine ==> c < |t.sched.calls|)
    && (forall c :: c in env.mine && c !in t.counted ==> t.sched.calls[c].pc.Looking?)
    && t.latch.remain == |Pending(t)|
    && t.latch.total == |t.counted|
    && (t.latch.schedulingDone ==> t.counted == env.mine)
    && (t.latch.schedulingDone <==> t.waits.Some?)
    && (t.waits == Some(false) ==> Pending(t) == {})
    && (t.latch.armed <==> !(t.latch.schedulingDone && Pending(t) == {}))
    && t.sent == (if t.latch.armed then [] else [ToResult(FirstError(t.sched.ran, env))])
    && (t.latch.armed ==> t.latch.firstError == FirstError(t.sched.ran, env))
  }

  ghost predicate TransferInv(t: Transfer, env: Env, capacity: nat) {
    Inv(t.sched, capacity) && LatchInv(t, env)
  }

  lemma {:induction false} StartInv(hashes: seq<HashId>, concurrency: nat, env: Env)
    requires forall c :: c in env.mine ==> c < |hashes|
    ensures TransferInv(Start(hashes, concurrency), env, Capacity(concurrency))
  {
    InitInv(hashes, concurrency);
    assert Pending(Start(hashes, concurrency)) == {};
  }

  /** A scheduler step runs at most one callback: one that was in flight and had not run. */
  lemma {:induction false} RunsOne(s: State, step: Step, capacity: nat)
    requires Inv(s, capacity) && Enabled(s, step)
    ensures var ran := Apply(s, step).ran;
      ran == s.ran ||
      (|ran| == |s.ran| + 1 && ran[..|s.ran|] == s.ran
       && ran[|s.ran|].call < |s.calls| && RanCount(s.ran, ran[|s.ran|].call) == 0
       && !s.calls[ran[|s.ran|].call].pc.Looking?)
  {
    if |Apply(s, step).ran| > |s.ran| {
      var x := Apply(s, step).ran[|s.ran|];
      if step.RunTaken? {
        assert AllJoined(s, Taken(s.slots[step.k]), step.k);
        assert s.calls[Taken(s.slots[step.k])[0]].slot == Some(step.k);
      }
      assert x.call < |s.calls|;
      OnePlaceKept(s, step);
      assert Places(Apply(s, step), x.call) == 1 && CallShape(s, x.call);
      RanCountSnoc(s.ran, x, x.call);
    }
  }

  lemma {:induction false} LookingStays(s: State, step: Step, c: nat)
    requires Enabled(s, step) && c < |s.calls| && s.calls[c].pc.Looking? && step != Lookup(c)
    ensures |Apply(s, step).calls| == |s.calls|
    ensures Apply(s, step).calls[c].pc.Looking? || (step.TakePermit? && step.c == c)
  {}

  lemma {:induction false} CountStep(t: Transfer, env: Env, c: nat, capacity: nat)
    requires TransferInv(t, env, capacity) && CanStep(t, env, CountNext(c))
    ensures LatchInv(Next(t, env, CountNext(c)), env)
  {
    var t' := Next(t, env, CountNext(c));
    assert Places(t.sched, c) == 1 && CallShape(t.sched, c);
    PendingCounted(t, t', c);
  }

  lemma {:induction false} PendingCounted(t: Transfer, t': Transfer, c: nat)
    requires RanCount(t.sched.ran, c) == 0 && c !in t.counted && t'.counted == t.counted + {c} && t'.sched == t.sched
    ensures Pending(t') == Pending(t) + {c} && |Pending(t')| == |Pending(t)| + 1 && |t'.counted| == |t.counted| + 1
  {
    assert c !in Pending(t);
  }

  lemma {:induction false} FinishStep(t: Transfer, env: Env)
    requires LatchInv(t, env) && CanStep(t, env, FinishScheduling)
    ensures LatchInv(Next(t, env, FinishScheduling), env)
  {
    assert Pending(Next(t, env, FinishScheduling)) == Pending(t);
  }

  lemma {:induction false} NothingRan(t: Transfer, env: Env, s': State)
    requires LatchInv(t, env) && s'.ran == t.sched.ran && |s'.calls| == |t.sched.calls|
    requires forall c :: c in env.mine && c !in t.counted ==> s'.calls[c].pc.Looking?
    ensures LatchInv(t.(sched := s'), env)
  {
    assert Pending(t.(sched := s')) == Pending(t);
  }

  lemma {:induction false} PendingAfter(t: Transfer, s': State, x: Ran)
    requires s'.ran == t.sched.ran + [x]
    ensures Pending(t.(sched := s')) == Pending(t) - {x.call}
  {
    forall c: nat ensures RanCount(s'.ran, c) == RanCount(t.sched.ran, c) + (if x.call == c then 1 else 0) {
      RanCountSnoc(t.sched.ran, x, c);
    }
  }

  lemma {:induction false} OthersRan(t: Transfer, env: Env, s': State, x: Ran)
    requires LatchInv(t, env) && s'.ran == t.sched.ran + [x] && |s'.calls| == |t.sched.calls|
    requires forall c :: c in env.mine && c !in t.counted ==> s'.calls[c].pc.Looking?
    requires x.call !in env.mine
    ensures LatchInv(t.(sched := s'), env)
  {
    PendingAfter(t, s', x);
    assert Pending(t) - {x.call} == Pending(t);
    FirstErrorSnoc(t.sched.ran, x, env);
  }

  lemma {:induction false} FirstErrorSnoc(ran: seq<Ran>, x: Ran, env: Env)
    ensures FirstError(ran + [x], env) ==
      if FirstError(ran, env).Some? then FirstError(ran, env)
      else if x.call in env.mine then env.verdict(x.call, x.outcome)
      else None
  {
    assert (ran + [x])[..|ran|] == ran;
  }

  lemma {:induction false} MineRan(t: Transfer, env: Env, s': State, x: Ran)
    requires LatchInv(t, env) && s'.ran == t.sched.ran + [x] && |s'.calls| == |t.sched.calls|
    requires forall c :: c in env.mine && c !in t.counted ==> s'.calls[c].pc.Looking?
    requires x.call in env.mine && x.call in t.counted && RanCount(t.sched.ran, x.call) == 0
    ensures var (l, out) := OnCallback(t.latch, env.verdict(x.call, x.outcome));
      LatchInv(t.(sched := s', latch := l, sent := Append(t.sent, out)), env)
    ensures t.latch.remain > 0
  {
    var (l, out) := OnCallback(t.latch, env.verdict(x.call, x.outcome));
    var t' := t.(sched := s', latch := l, sent := Append(t.sent, out));
    PendingAfter(t, s', x);
    assert Pending(t') == Pending(t.(sched := s'));
    assert x.call in Pending(t) && |Pending(t')| == |Pending(t)| - 1;
    FirstErrorSnoc(t.sched.ran, x, env);
  }

  lemma {:induction false} OneRan(t: Transfer, env: Env, s': State, x: Ran)
    requires LatchInv(t, env) && s'.ran == t.sched.ran + [x] && |s'.calls| == |t.sched.calls|
    requires forall c :: c in env.mine && c !in t.counted ==> s'.calls[c].pc.Looking?
    requires RanCount(t.sched.ran, x.call) == 0
    requires x.call in env.mine ==> x.call in t.counted
    ensures LatchInv(AfterSched(t.(sched := s'), env, |t.sched.ran|), env)
    ensures x.call in env.mine ==> t.latch.remain > 0
  {
    assert s'.ran[|s'.ran| - 1] == x;
    if x.call in env.mine { MineRan(t, env, s', x); } else { OthersRan(t, env, s', x); }
  }

  lemma {:induction false} SchedStep(t: Transfer, env: Env, step: Step, capacity: nat)
    requires TransferInv(t, env, capacity) && CanStep(t, env, Sched(step))
    ensures LatchInv(Next(t, env, Sched(step)), env)
    ensures |Apply(t.sched, step).ran| > |t.sched.ran| && Apply(t.sched, step).ran[|t.sched.ran|].call in env.mine ==>
              t.latch.remain > 0
  {
    var s, s' := t.sched, Apply(t.sched, step);
    UncountedWait(t, env, step, capacity);
    RunsOne(s, step, capacity);
    if s'.ran == s.ran {
      NothingRan(t, env, s');
    } else {
      assert s'.ran == s.ran + [s'.ran[|s.ran|]];
      OneRan(t, env, s', s'.ran[|s.ran|]);
    }
  }

  /** The transfer's calls not yet counted have not entered the scheduler. */
  lemma {:induction false} UncountedWait(t: Transfer, env: Env, step: Step, capacity: nat)
    requires TransferInv(t, env, capacity) && CanStep(t, env, Sched(step))
    ensures |Apply(t.sched, step).calls| == |t.sched.calls|
    ensures forall c :: c in env.mine && c !in t.counted ==> Apply(t.sched, step).calls[c].pc.Looking?
  {
    forall c | c in env.mine && c !in t.counted ensures Apply(t.sched, step).calls[c].pc.Looking? {
      LookingStays(t.sched, step, c);
    }
  }

  lemma {:induction false} TransferInvKept(t: Transfer, env: Env, step: TransferStep, capacity: nat)
    requires TransferInv(t, env, capacity) && CanStep(t, env, step)
    ensures TransferInv(Next(t, env, step), env, capacity)
  {
    match step
    case CountNext(c) => CountStep(t, env, c, capacity);
    case Sched(st) => SchedStep(t, env, st, capacity); InvKept(t.sched, st, capacity);
    case FinishScheduling => FinishStep(t, env);
  }

  ghost predicate IsTransfer(t: Transfer, env: Env, steps: seq<TransferStep>)
    decreases |steps|
  {
    steps == [] || (CanStep(t, env, steps[0]) && IsTransfer(Next(t, env, steps[0]), env, steps[1..]))
  }

  ghost function End(t: Transfer, env: Env, steps: seq<TransferStep>): Transfer
    requires IsTransfer(t, env, steps)
    decreases |steps|
  {
    if steps == [] then t else End(Next(t, env, steps[0]), env, steps[1..])
  }

  lemma {:induction false} EndInv(t: Transfer, env: Env, steps: seq<TransferStep>, capacity: nat)
    requires TransferInv(t, env, capacity) && IsTransfer(t, env, steps)
    ensures TransferInv(End(t, env, steps), env, capacity)
    decreases |steps|
  {
    if steps != [] {
      TransferInvKept(t, env, steps[0], capacity);
      EndInv(Next(t, env, steps[0]), env, steps[1..], capacity);
    }
  }

  /* ---- What the transfer gets to know ---- */

  /** The value the transfer function returns from its latch, once it can return. */
  function Returned(t: Transfer): Option<Result<()>> {
    match t.waits
    case None => None
    case Some(false) => Some(Ok(()))
    case Some(true) => if t.sent == [] then None else Some(t.sent[0])
  }

  /** In every interleaving: the count of remaining chunks is exact, `done_tx` fires at
      most once, only when scheduling is over and all callbacks have run, and carries the
      first error. The transfer reports an error exactly when some callback failed and the
      last one had not yet run when scheduling ended. */
  lemma {:induction false} LatchSignals(hashes: seq<HashId>, concurrency: nat, env: Env, steps: seq<TransferStep>)
    requires forall c :: c in env.mine ==> c < |hashes|
    requires IsTransfer(Start(hashes, concurrency), env, steps)
    ensures var t := End(Start(hashes, concurrency), env, steps);
      && t.latch.remain == |Pending(t)|
      && |t.sent| <= 1
      && (|t.sent| == 1 <==> t.latch.schedulingDone && Pending(t) == {})
      && (|t.sent| == 1 ==> t.counted == env.mine && t.sent[0] == ToResult(FirstError(t.sched.ran, env)))
      && (Returned(t).Some? ==>
            (Returned(t).value.Err? <==> t.waits == Some(true) && FirstError(t.sched.ran, env).Some?))
  {
    StartInv(hashes, concurrency, env);
    EndInv(Start(hashes, concurrency), env, steps, Capacity(concurrency));
  }

  function StepsLeft(t: Transfer, env: Env): nat {
    Left(t.sched) + |env.mine - t.counted| + (if t.latch.schedulingDone then 0 else 1)
  }

  lemma {:induction false} TransferStepLeft(t: Transfer, env: Env, step: TransferStep, capacity: nat)
    requires TransferInv(t, env, capacity) && CanStep(t, env, step)
    ensures StepsLeft(Next(t, env, step), env) < StepsLeft(t, env)
  {
    match step
    case CountNext(c) => CountLeft(env.mine, t.counted, c);
    case Sched(st) => StepLeft(t.sched, st);
    case FinishScheduling =>
  }

  lemma {:induction false} CountLeft(mine: set<nat>, counted: set<nat>, c: nat)
    requires c in mine && c !in counted
    ensures |mine - (counted + {c})| < |mine - counted|
  {
    assert mine - (counted + {c}) == (mine - counted) - {c};
    assert c in mine - counted;
  }

  lemma {:induction false} TransferLeft(t: Transfer, env: Env, steps: seq<TransferStep>, capacity: nat)
    requires TransferInv(t, env, capacity) && IsTransfer(t, env, steps)
    ensures |steps| + StepsLeft(End(t, env, steps), env) <= StepsLeft(t, env)
    decreases |steps|
  {
    if steps != [] {
      var next := TransferAdvance(t, env, steps[0], capacity);
      TransferLeft(next, env, steps[1..], capacity);
    }
  }

  lemma {:induction false} TransferAdvance(t: Transfer, env: Env, step: TransferStep, capacity: nat) returns (next: Transfer)
    requires TransferInv(t, env, capacity) && CanStep(t, env, step)
    ensures next == Next(t, env, step) && TransferInv(next, env, capacity)
    ensures StepsLeft(next, env) < StepsLeft(t, env)
  {
    next := Next(t, env, step);
    TransferInvKept(t, env, step, capacity);
    TransferStepLeft(t, env, step, capacity);
  }

  /** As long as `done_tx` has not fired something can still happen. */
  lemma {:induction false} LatchProgress(t: Transfer, env: Env, capacity: nat) returns (step: TransferStep)
    requires TransferInv(t, env, capacity) && capacity > 0 && t.sent == []
    ensures CanStep(t, env, step)
  {
    if !AllDone(t.sched) {
      var st := NoDeadlock(t.sched, capacity);
      step := if CanStep(t, env, Sched(st)) then Sched(st) else CountNext(st.c);
    } else {
      WhenDone(t.sched, capacity);
      assert Pending(t) == {};
      assert t.counted == env.mine;
      step := FinishScheduling;
    }
  }

  /** Every transfer is bounded, and when nothing more can happen its signal has fired. */
  lemma {:induction false} LatchFires(hashes: seq<HashId>, concurrency: nat, env: Env, steps: seq<TransferStep>)
    requires forall c :: c in env.mine ==> c < |hashes|
    requires IsTransfer(Start(hashes, concurrency), env, steps)
    ensures |steps| <= StepsLeft(Start(hashes, concurrency), env)
    ensures var t := End(Start(hashes, concurrency), env, steps);
      (forall step :: !CanStep(t, env, step)) ==> |t.sent| == 1
  {
    StartInv(hashes, concurrency, env);
    TransferLeft(Start(hashes, concurrency), env, steps, Capacity(concurrency));
    EndInv(Start(hashes, concurrency), env, steps, Capacity(concurrency));
    var t := End(Start(hashes, concurrency), env, steps);
    if t.sent == [] {
      var step := LatchProgress(t, env, Capacity(concurrency));
    }
  }

  /** The verdict of a callback that only passes the handler's error on. */
  const PASS_ERRORS: Env := Env({0}, (c: nat, r: Outcome) => match r case Ok(_) => None case Err(e) => Some(e))

  /** The transfer whose only chunk has been enqueued. */
  const ONE_ENQUEUED: Transfer :=
    Transfer(State([Call(7, AwaitingPermit, Some(0))], [Slot(true, None, [0], NotSpawned)], map[7 := 0], 1, []),
             Latch(1, 1, false, None, true), {0}, [], None)

  /** The same transfer after its handler failed and the callback was taken. */
  const ONE_FAILED: Transfer :=
    Transfer(State([Call(7, CallPc.Returned, Some(0))], [Slot(true, Some(Err(Io)), [], Draining([0]))], map[7 := 0], 0, []),
             Latch(1, 1, false, None, true), {0}, [], None)

  lemma {:induction false} EnqueueOne(rest: seq<TransferStep>)
    requires IsTransfer(ONE_ENQUEUED, PASS_ERRORS, rest)
    ensures var steps := [CountNext(0)] + ([Sched(Lookup(0))] + ([Sched(AddCallback(0))] + rest));
      IsTransfer(Start([7], 1), PASS_ERRORS, steps) && End(Start([7], 1), PASS_ERRORS, steps) == End(ONE_ENQUEUED, PASS_ERRORS, rest)
  {
    var t0, env := Start([7], 1), PASS_ERRORS;
    var t1 := Next(t0, env, CountNext(0));
    var t2 := Next(t1, env, Sched(Lookup(0)));
    assert t1 == Transfer(State([Call(7, Looking, None)], [Slot(false, None, [], NotSpawned)], map[], 1, []),
                          Latch(1, 1, false, None, true), {0}, [], None);
    assert t2.sched == State([Call(7, Adding(true), Some(0))], [Slot(true, None, [], NotSpawned)], map[7 := 0], 1, []);
    assert t2.sched.slots[0].callbacks + [0] == [0];
    assert Next(t2, env, Sched(AddCallback(0))).sched.slots == [Slot(true, None, [0], NotSpawned)];
    assert Next(t2, env, Sched(AddCallback(0))) == ONE_ENQUEUED;
    Prepend(t2, env, Sched(AddCallback(0)), rest);
    Prepend(t1, env, Sched(Lookup(0)), [Sched(AddCallback(0))] + rest);
    Prepend(t0, env, CountNext(0), [Sched(Lookup(0))] + ([Sched(AddCallback(0))] + rest));
  }

  lemma {:induction false} FailOne(rest: seq<TransferStep>)
    requires IsTransfer(ONE_FAILED, PASS_ERRORS, rest)
    ensures var steps := [Sched(TakePermit(0))] + ([Sched(HandlerReturns(0, Err(Io)))] + ([Sched(Complete(0))] + rest));
      IsTransfer(ONE_ENQUEUED, PASS_ERRORS, steps) && End(ONE_ENQUEUED, PASS_ERRORS, steps) == End(ONE_FAILED, PASS_ERRORS, rest)
  {
    var t3, env := ONE_ENQUEUED, PASS_ERRORS;
    var t4 := Next(t3, env, Sched(TakePermit(0)));
    var t5 := Next(t4, env, Sched(HandlerReturns(0, Err(Io))));
    assert Next(t5, env, Sched(Complete(0))) == ONE_FAILED;
    Prepend(t5, env, Sched(Complete(0)), rest);
    Prepend(t4, env, Sched(HandlerReturns(0, Err(Io))), [Sched(Complete(0))] + rest);
    Prepend(t3, env, Sched(TakePermit(0)), [Sched(HandlerReturns(0, Err(Io)))] + ([Sched(Complete(0))] + rest));
  }

  /** A transfer whose only chunk fails before scheduling ends: `done_tx` carries the error,
      nobody reads it, and the transfer goes on as if the chunk had arrived. */
  lemma {:induction false} ErrorLostWithoutWaiting() returns (steps: seq<TransferStep>)
    ensures IsTransfer(Start([7], 1), PASS_ERRORS, steps)
    ensures var t := End(Start([7], 1), PASS_ERRORS, steps);
      Returned(t) == Some(Ok(())) && FirstError(t.sched.ran, PASS_ERRORS) == Some(Io) && t.sent == [Err(Io)]
  {
    var t6, env := ONE_FAILED, PASS_ERRORS;
    var t7 := Next(t6, env, Sched(RunTaken(0)));
    assert t7.sched.ran == [Ran(0, Err(Io))] && t7.sched.ran[..0] == [];
    var t8 := Next(t7, env, FinishScheduling);
    Prepend(t7, env, FinishScheduling, []);
    Prepend(t6, env, Sched(RunTaken(0)), [FinishScheduling]);
    steps := [Sched(RunTaken(0))] + [FinishScheduling];
    FailOne(steps);
    steps := [Sched(TakePermit(0))] + ([Sched(HandlerReturns(0, Err(Io)))] + ([Sched(Complete(0))] + steps));
    EnqueueOne(steps);
    steps := [CountNext(0)] + ([Sched(Lookup(0))] + ([Sched(AddCallback(0))] + steps));
  }

  lemma {:induction false} Prepend(t: Transfer, env: Env, step: TransferStep, steps: seq<TransferStep>)
    requires CanStep(t, env, step) && IsTransfer(Next(t, env, step), env, steps)
    ensures IsTransfer(t, env, [step] + steps)
    ensures End(t, env, [step] + steps) == End(Next(t, env, step), env, steps)
  {
    assert ([step] + steps)[1..] == steps;
  }
}
