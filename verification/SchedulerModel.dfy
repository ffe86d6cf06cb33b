/** The single-flight protocol of `HashRequestScheduler` as interleaved steps. Every lock
    region of the code is one step. Call `c` is one invocation of `enqueue_blocking`, its
    callback goes by the same number, and a slot goes by the number of the call that
    inserted it, its owner. */
module SchedulerModel {
  import opened Core

  /** What a handler returns; the response value is opaque. */
  type Outcome = Result<nat>

  /** Where a call stands. In the first three stages the call still holds its callback. */
  datatype CallPc =
    | Looking
    | Adding(owner: bool)
    | RunningNow(owner: bool, now: Outcome)
    | AwaitingPermit
    | Returned

  datatype Call = Call(hash: HashId, pc: CallPc, slot: Option<nat>)

  /** Where the task spawned by the owner stands. `Draining` holds the callbacks it took. */
  datatype TaskPc =
    | NotSpawned
    | Handling
    | Completing(outcome: Outcome)
    | Draining(taken: seq<nat>)
    | Releasing
    | Finished

  datatype Slot = Slot(created: bool, result: Option<Outcome>, callbacks: seq<nat>, task: TaskPc)

  /** One execution of a callback. */
  datatype Ran = Ran(call: nat, outcome: Outcome)

  datatype State = State(calls: seq<Call>, slots: seq<Slot>, inFlight: map<HashId, nat>,
                         permits: nat, ran: seq<Ran>)

  datatype Step =
    | Lookup(c: nat)
    | AddCallback(c: nat)
    | RunNow(c: nat)
    | TakePermit(c: nat)
    | HandlerReturns(k: nat, outcome: Outcome)
    | Complete(k: nat)
    | RunTaken(k: nat)
    | Remove(k: nat)
    | Release(k: nat)

  function Capacity(concurrency: nat): nat { if concurrency == 0 then 1 else concurrency }

  /** A scheduler with no request in flight, about to receive the given requests. */
  function Init(hashes: seq<HashId>, concurrency: nat): State {
    State(seq(|hashes|, i requires 0 <= i < |hashes| => Call(hashes[i], Looking, None)),
          seq(|hashes|, i => Slot(false, None, [], NotSpawned)),
          map[], Capacity(concurrency), [])
  }

  predicate HoldsPermit(t: TaskPc) { t.Handling? || t.Completing? || t.Draining? || t.Releasing? }

  predicate Enabled(s: State, step: Step) {
    && |s.slots| == |s.calls|
    && match step
       case Lookup(c) => c < |s.calls| && s.calls[c].pc.Looking?
       case AddCallback(c) =>
         c < |s.calls| && s.calls[c].pc.Adding? && s.calls[c].slot.Some? && s.calls[c].slot.value < |s.slots|
       case RunNow(c) => c < |s.calls| && s.calls[c].pc.RunningNow?
       case TakePermit(c) => c < |s.calls| && s.calls[c].pc.AwaitingPermit? && s.permits > 0
       case HandlerReturns(k, _) => k < |s.slots| && s.slots[k].task.Handling?
       case Complete(k) => k < |s.slots| && s.slots[k].task.Completing?
       case RunTaken(k) =>
         k < |s.slots| && s.slots[k].task.Draining? && s.slots[k].task.taken != [] && s.slots[k].result.Some?
       case Remove(k) => k < |s.slots| && s.slots[k].task.Draining? && s.slots[k].task.taken == []
       case Release(k) => k < |s.slots| && s.slots[k].task.Releasing?
  }

  /** After its callback is dealt with, the owner goes on to wait for a permit. */
  function AfterAdd(owner: bool): CallPc { if owner then AwaitingPermit else Returned }

  function Apply(s: State, step: Step): State
    requires Enabled(s, step)
  {
    match step
    case Lookup(c) =>
      var call := s.calls[c];
      if call.hash in s.inFlight then
        s.(calls := s.calls[c := Call(call.hash, Adding(false), Some(s.inFlight[call.hash]))])
      else
        s.(calls := s.calls[c := Call(call.hash, Adding(true), Some(c))],
           slots := s.slots[c := Slot(true, None, [], NotSpawned)],
           inFlight := s.inFlight[call.hash := c])
    case AddCallback(c) =>
      var call := s.calls[c];
      var k := call.slot.value;
      (match s.slots[k].result
       case Some(r) => s.(calls := s.calls[c := call.(pc := RunningNow(call.pc.owner, r))])
       case None =>
         s.(calls := s.calls[c := call.(pc := AfterAdd(call.pc.owner))],
            slots := s.slots[k := s.slots[k].(callbacks := s.slots[k].callbacks + [c])]))
    case RunNow(c) =>
      var call := s.calls[c];
      s.(calls := s.calls[c := call.(pc := AfterAdd(call.pc.owner))],
         ran := s.ran + [Ran(c, call.pc.now)])
    case TakePermit(c) =>
      s.(calls := s.calls[c := s.calls[c].(pc := Returned)],
         slots := s.slots[c := s.slots[c].(task := Handling)],
         permits := s.permits - 1)
    case HandlerReturns(k, outcome) =>
      s.(slots := s.slots[k := s.slots[k].(task := Completing(outcome))])
    case Complete(k) =>
      s.(slots := s.slots[k := Slot(s.slots[k].created, Some(s.slots[k].task.outcome), [],
                                    Draining(s.slots[k].callbacks))])
    case RunTaken(k) =>
      var taken := s.slots[k].task.taken;
      s.(slots := s.slots[k := s.slots[k].(task := Draining(taken[1..]))],
         ran := s.ran + [Ran(taken[0], s.slots[k].result.value)])
    case Remove(k) =>
      s.(slots := s.slots[k := s.slots[k].(task := Releasing)],
         inFlight := s.inFlight - {s.calls[k].hash})
    case Release(k) =>
      s.(slots := s.slots[k := s.slots[k].(task := Finished)],
         permits := s.permits + 1)
  }

  /* ---- Invariants ---- */

  ghost predicate Shape(s: State) {
    && |s.slots| == |s.calls|
    && (forall c :: 0 <= c < |s.calls| ==> CallShape(s, c))
    && (forall k :: 0 <= k < |s.slots| ==> SlotShape(s.calls[k], k, s.slots[k]))
  }

  /** A call past its lookup has joined a slot inserted for its own hash; the owner is the
      call that joined the slot it inserted. */
  ghost predicate CallShape(s: State, c: nat)
    requires |s.slots| == |s.calls| && c < |s.calls|
  {
    var call := s.calls[c];
    && (call.pc.Looking? <==> call.slot.None?)
    && (call.slot.Some? ==> Joined(s, call.hash, call.slot.value))
    && (call.pc.Adding? ==> (call.pc.owner <==> call.slot == Some(c)))
    && (call.pc.RunningNow? ==> (call.pc.owner <==> call.slot == Some(c)))
    && (call.pc.AwaitingPermit? ==> call.slot == Some(c))
  }

  ghost predicate Joined(s: State, h: HashId, k: nat) {
    k < |s.slots| == |s.calls| && s.slots[k].created && s.calls[k].hash == h && s.calls[k].slot == Some(k)
  }

  ghost predicate SlotShape(owner: Call, k: nat, slot: Slot) {
    && (slot.created <==> owner.slot == Some(k))
    && (!slot.created ==> slot == Slot(false, None, [], NotSpawned))
    && (slot.created && slot.task.NotSpawned? ==> owner.pc.Adding? || owner.pc.AwaitingPermit?)
    && (!slot.task.NotSpawned? ==> owner.pc.Returned?)
    && (slot.result.Some? <==> slot.task.Draining? || slot.task.Releasing? || slot.task.Finished?)
    && (slot.result.Some? ==> slot.callbacks == [])
  }

  /** A slot that has been inserted and not yet removed from `in_flight`. */
  predicate Live(slot: Slot) { slot.created && !slot.task.Releasing? && !slot.task.Finished? }

  /** `in_flight` holds exactly the live slots, each under its own hash. */
  ghost predicate FlightTable(s: State) {
    && |s.slots| == |s.calls|
    && (forall h :: h in s.inFlight ==> FlightEntry(s, h, s.inFlight[h]))
    && (forall k :: 0 <= k < |s.slots| ==> FlightSlot(s, k))
  }

  ghost predicate FlightEntry(s: State, h: HashId, k: nat) {
    k < |s.slots| == |s.calls| && Live(s.slots[k]) && s.calls[k].hash == h
  }

  ghost predicate FlightSlot(s: State, k: nat)
    requires k < |s.slots| == |s.calls|
  {
    Live(s.slots[k]) ==> s.calls[k].hash in s.inFlight && s.inFlight[s.calls[k].hash] == k
  }

  function Holders(slots: seq<Slot>): nat {
    if slots == [] then 0
    else Holders(slots[..|slots| - 1]) + (if HoldsPermit(slots[|slots| - 1].task) then 1 else 0)
  }

  function RanCount(ran: seq<Ran>, c: nat): nat {
    if ran == [] then 0
    else RanCount(ran[..|ran| - 1], c) + (if ran[|ran| - 1].call == c then 1 else 0)
  }

  function Taken(slot: Slot): seq<nat> { if slot.task.Draining? then slot.task.taken else [] }

  predicate Held(call: Call) { call.pc.Looking? || call.pc.Adding? || call.pc.RunningNow? }

  /** Occurrences of callback `c` parked in a slot or taken by the slot's task. */
  function InSlot(slot: Slot, c: nat): nat { multiset(slot.callbacks)[c] + multiset(Taken(slot))[c] }

  /** How many times callback `c` is to be found: in the hands of its call, in the slot it
      joined, or in the log of runs. */
  function Places(s: State, c: nat): nat
    requires c < |s.calls|
  {
    (if Held(s.calls[c]) then 1 else 0)
    + (match s.calls[c].slot
       case None => 0
       case Some(k) => if k < |s.slots| then InSlot(s.slots[k], c) else 0)
    + RanCount(s.ran, c)
  }

  /** A callback parked in or taken from a slot belongs to a call that joined that slot. */
  ghost predicate AtHome(s: State) {
    forall k :: 0 <= k < |s.slots| ==> AllJoined(s, s.slots[k].callbacks, k) && AllJoined(s, Taken(s.slots[k]), k)
  }

  ghost predicate AllJoined(s: State, callbacks: seq<nat>, k: nat) {
    forall i :: 0 <= i < |callbacks| ==> callbacks[i] < |s.calls| && s.calls[callbacks[i]].slot == Some(k)
  }

  ghost predicate OnePlace(s: State) {
    && AtHome(s)
    && forall c :: 0 <= c < |s.calls| ==> Places(s, c) == 1
  }

  ghost predicate RanAtHome(s: State, i: nat)
    requires i < |s.ran|
  {
    var x := s.ran[i].call;
    && x < |s.calls| && s.calls[x].slot.Some? && s.calls[x].slot.value < |s.slots|
    && s.slots[s.calls[x].slot.value].result == Some(s.ran[i].outcome)
  }

  /** Every run, finished or about to happen, carries the result of the slot joined. */
  ghost predicate ResultsShared(s: State) {
    && (forall i :: 0 <= i < |s.ran| ==> RanAtHome(s, i))
    && (forall c :: 0 <= c < |s.calls| ==> NowAtHome(s, c))
  }

  ghost predicate NowAtHome(s: State, c: nat)
    requires c < |s.calls|
  {
    s.calls[c].pc.RunningNow? ==>
      && s.calls[c].slot.Some? && s.calls[c].slot.value < |s.slots|
      && s.slots[s.calls[c].slot.value].result == Some(s.calls[c].pc.now)
  }

  ghost predicate Inv(s: State, capacity: nat) {
    && Shape(s)
    && FlightTable(s)
    && s.permits + Holders(s.slots) == capacity
    && OnePlace(s)
    && ResultsShared(s)
  }

  /* ---- Preservation ---- */

  lemma {:induction false} HoldersUpdate(slots: seq<Slot>, k: nat, slot: Slot)
    requires k < |slots|
    ensures Holders(slots[k := slot]) + (if HoldsPermit(slots[k].task) then 1 else 0)
         == Holders(slots) + (if HoldsPermit(slot.task) then 1 else 0)
  {
    var n := |slots| - 1;
    if k < n {
      HoldersUpdate(slots[..n], k, slot);
      assert slots[k := slot][..n] == slots[..n][k := slot];
    } else {
      assert slots[k := slot][..n] == slots[..n];
    }
  }

  lemma {:induction false} HoldersPositive(slots: seq<Slot>) returns (k: nat)
    requires Holders(slots) > 0
    ensures k < |slots| && HoldsPermit(slots[k].task)
  {
    var n := |slots| - 1;
    if HoldsPermit(slots[n].task) { k := n; } else { k := HoldersPositive(slots[..n]); }
  }

  lemma {:induction false} HoldersAtLeast(slots: seq<Slot>, k: nat)
    requires k < |slots| && HoldsPermit(slots[k].task)
    ensures Holders(slots) > 0
  {
    var n := |slots| - 1;
    if k < n { HoldersAtLeast(slots[..n], k); }
  }

  lemma {:induction false} RanCountSnoc(ran: seq<Ran>, r: Ran, c: nat)
    ensures RanCount(ran + [r], c) == RanCount(ran, c) + (if r.call == c then 1 else 0)
  {
    assert (ran + [r])[..|ran|] == ran;
  }

  lemma {:induction false} HoldersNone(slots: seq<Slot>)
    requires forall k :: 0 <= k < |slots| ==> !HoldsPermit(slots[k].task)
    ensures Holders(slots) == 0
  {
    if slots != [] { HoldersNone(slots[..|slots| - 1]); }
  }

  lemma {:induction false} InitInv(hashes: seq<HashId>, concurrency: nat)
    ensures Inv(Init(hashes, concurrency), Capacity(concurrency))
  {
    HoldersNone(Init(hashes, concurrency).slots);
  }

  lemma {:induction false} CallShapeKept(s: State, step: Step, c: nat)
    requires Shape(s) && FlightTable(s) && Enabled(s, step) && c < |s.calls|
    ensures |Apply(s, step).slots| == |Apply(s, step).calls| == |s.calls| && CallShape(Apply(s, step), c)
  {
    var s' := Apply(s, step);
    assert CallShape(s, c);
    if step.AddCallback? { assert CallShape(s, step.c); }
    if step.Lookup? && step.c == c {
      assert SlotShape(s.calls[c], c, s.slots[c]);
      if s.calls[c].hash in s.inFlight {
        var k := s.inFlight[s.calls[c].hash];
        assert FlightEntry(s, s.calls[c].hash, k) && SlotShape(s.calls[k], k, s.slots[k]);
        assert Joined(s', s.calls[c].hash, k);
      }
    } else if s.calls[c].slot.Some? {
      JoinedStays(s, step, s.calls[c].hash, s.calls[c].slot.value);
    }
  }

  lemma {:induction false} JoinedStays(s: State, step: Step, h: HashId, k: nat)
    requires Shape(s) && Enabled(s, step) && Joined(s, h, k)
    ensures Joined(Apply(s, step), h, k)
  {
    assert CallShape(s, k) && SlotShape(s.calls[k], k, s.slots[k]);
    if step.Lookup? { assert SlotShape(s.calls[step.c], step.c, s.slots[step.c]) && CallShape(s, step.c); }
  }

  lemma {:induction false} SlotShapeKept(s: State, step: Step, k: nat)
    requires Shape(s) && FlightTable(s) && Enabled(s, step) && k < |s.calls|
    ensures SlotShape(Apply(s, step).calls[k], k, Apply(s, step).slots[k])
  {
    assert CallShape(s, k) && SlotShape(s.calls[k], k, s.slots[k]);
    if step.AddCallback? { assert CallShape(s, step.c); }
    if step.Lookup? && step.c == k && s.calls[k].hash in s.inFlight {
      assert FlightEntry(s, s.calls[k].hash, s.inFlight[s.calls[k].hash]);
    }
  }

  lemma {:induction false} ShapeKept(s: State, step: Step)
    requires Shape(s) && FlightTable(s) && Enabled(s, step)
    ensures Shape(Apply(s, step))
  {
    forall c | 0 <= c < |s.calls|
      ensures CallShape(Apply(s, step), c) && SlotShape(Apply(s, step).calls[c], c, Apply(s, step).slots[c])
    {
      CallShapeKept(s, step, c);
      SlotShapeKept(s, step, c);
    }
  }

  lemma {:induction false} EntryKept(s: State, step: Step, h: HashId)
    requires Shape(s) && FlightTable(s) && Enabled(s, step) && h in Apply(s, step).inFlight
    ensures FlightEntry(Apply(s, step), h, Apply(s, step).inFlight[h])
  {
    if h in s.inFlight {
      assert FlightEntry(s, h, s.inFlight[h]);
      if step.Remove? { assert FlightSlot(s, step.k) && SlotShape(s.calls[step.k], step.k, s.slots[step.k]); }
      if step.Lookup? { assert CallShape(s, step.c) && SlotShape(s.calls[step.c], step.c, s.slots[step.c]); }
    }
  }

  lemma {:induction false} FlightSlotKept(s: State, step: Step, k: nat)
    requires Shape(s) && FlightTable(s) && Enabled(s, step) && k < |s.slots|
    ensures |Apply(s, step).slots| == |Apply(s, step).calls| && FlightSlot(Apply(s, step), k)
  {
    assert FlightSlot(s, k) && CallShape(s, k) && SlotShape(s.calls[k], k, s.slots[k]);
    if step.Remove? { assert FlightSlot(s, step.k) && SlotShape(s.calls[step.k], step.k, s.slots[step.k]); }
  }

  lemma {:induction false} FlightKept(s: State, step: Step)
    requires Shape(s) && FlightTable(s) && Enabled(s, step)
    ensures FlightTable(Apply(s, step))
  {
    var s' := Apply(s, step);
    forall h | h in s'.inFlight ensures FlightEntry(s', h, s'.inFlight[h]) { EntryKept(s, step, h); }
    forall k | 0 <= k < |s.slots| ensures |s'.slots| == |s'.calls| && FlightSlot(s', k) { FlightSlotKept(s, step, k); }
  }

  lemma {:induction false} PermitsKept(s: State, step: Step)
    requires Shape(s) && Enabled(s, step)
    ensures Apply(s, step).permits + Holders(Apply(s, step).slots) == s.permits + Holders(s.slots)
  {
    var s' := Apply(s, step);
    forall k | 0 <= k < |s.slots|
      ensures s'.slots == s.slots[k := s'.slots[k]] ==>
        Holders(s'.slots) + (if HoldsPermit(s.slots[k].task) then 1 else 0)
        == Holders(s.slots) + (if HoldsPermit(s'.slots[k].task) then 1 else 0)
    {
      HoldersUpdate(s.slots, k, s'.slots[k]);
    }
    match step
    case Lookup(c) => assert s.calls[c].hash !in s.inFlight ==> s'.slots == s.slots[c := s'.slots[c]];
    case AddCallback(c) => var k := s.calls[c].slot.value; assert s'.slots == s.slots[k := s'.slots[k]];
    case RunNow(c) =>
    case TakePermit(c) => assert s'.slots == s.slots[c := s'.slots[c]];
    case HandlerReturns(k, _) => assert s'.slots == s.slots[k := s'.slots[k]];
    case Complete(k) => assert s'.slots == s.slots[k := s'.slots[k]];
    case RunTaken(k) => assert s'.slots == s.slots[k := s'.slots[k]];
    case Remove(k) => assert s'.slots == s.slots[k := s'.slots[k]];
    case Release(k) => assert s'.slots == s.slots[k := s'.slots[k]];
  }

  lemma {:induction false} JoinedKept(s: State, step: Step, callbacks: seq<nat>, k: nat)
    requires Shape(s) && Enabled(s, step) && AllJoined(s, callbacks, k)
    ensures AllJoined(Apply(s, step), callbacks, k)
  {
    forall i | 0 <= i < |callbacks| ensures Apply(s, step).calls[callbacks[i]].slot == Some(k) {
      assert CallShape(s, callbacks[i]);
    }
  }

  lemma {:induction false} AtHomeKept(s: State, step: Step)
    requires Shape(s) && FlightTable(s) && AtHome(s) && Enabled(s, step)
    ensures AtHome(Apply(s, step))
  {
    var s' := Apply(s, step);
    forall k | 0 <= k < |s'.slots| ensures AllJoined(s', s'.slots[k].callbacks, k) && AllJoined(s', Taken(s'.slots[k]), k) {
      assert AllJoined(s, s.slots[k].callbacks, k) && AllJoined(s, Taken(s.slots[k]), k);
      JoinedKept(s, step, s.slots[k].callbacks, k);
      JoinedKept(s, step, Taken(s.slots[k]), k);
    }
  }

  lemma {:induction false} InSlotPark(slot: Slot, x: nat, c: nat)
    ensures InSlot(slot.(callbacks := slot.callbacks + [x]), c) == InSlot(slot, c) + (if x == c then 1 else 0)
  {}

  lemma {:induction false} InSlotPop(slot: Slot, c: nat)
    requires slot.task.Draining? && slot.task.taken != []
    ensures InSlot(slot.(task := Draining(slot.task.taken[1..])), c) + (if slot.task.taken[0] == c then 1 else 0)
         == InSlot(slot, c)
  {
    assert slot.task.taken == [slot.task.taken[0]] + slot.task.taken[1..];
  }

  lemma {:induction false} PlacesKept(s: State, step: Step, c: nat)
    requires Shape(s) && FlightTable(s) && OnePlace(s) && Enabled(s, step)
    requires c < |s.calls|
    ensures Places(Apply(s, step), c) == Places(s, c)
  {
    match step
    case Lookup(d) => LookupPlaces(s, d, c);
    case AddCallback(d) => AddPlaces(s, d, c);
    case RunNow(d) => RunNowPlaces(s, d, c);
    case RunTaken(k) => RunTakenPlaces(s, k, c);
    case TakePermit(d) => TakePermitPlaces(s, d, c);
    case Complete(k) => TaskPlaces(s, k, Apply(s, step).slots[k], c);
    case HandlerReturns(k, _) => TaskPlaces(s, k, Apply(s, step).slots[k], c);
    case Remove(k) => TaskPlaces(s, k, Apply(s, step).slots[k], c);
    case Release(k) => TaskPlaces(s, k, Apply(s, step).slots[k], c);
  }

  lemma {:induction false} RunNowPlaces(s: State, d: nat, c: nat)
    requires Shape(s) && Enabled(s, RunNow(d)) && c < |s.calls|
    ensures Places(Apply(s, RunNow(d)), c) == Places(s, c)
  {
    assert CallShape(s, d);
    RanCountSnoc(s.ran, Ran(d, s.calls[d].pc.now), c);
  }

  lemma {:induction false} TakePermitPlaces(s: State, d: nat, c: nat)
    requires Shape(s) && Enabled(s, TakePermit(d)) && c < |s.calls|
    ensures Places(Apply(s, TakePermit(d)), c) == Places(s, c)
  {
    assert SlotShape(s.calls[d], d, s.slots[d]) && CallShape(s, d);
    var slot := s.slots[d].(task := Handling);
    TaskPlaces(s, d, slot, c);
  }

  /** A step of the task that only moves callbacks within its slot. */
  lemma {:induction false} TaskPlaces(s: State, k: nat, slot: Slot, c: nat)
    requires |s.slots| == |s.calls| && c < |s.calls| && k < |s.slots|
    requires InSlot(slot, c) == InSlot(s.slots[k], c)
    ensures Places(s.(slots := s.slots[k := slot]), c) == Places(s, c)
  {}

  lemma {:induction false} AddPlaces(s: State, d: nat, c: nat)
    requires Shape(s) && Enabled(s, AddCallback(d)) && c < |s.calls|
    ensures Places(Apply(s, AddCallback(d)), c) == Places(s, c)
  {
    assert CallShape(s, d) && CallShape(s, c);
    InSlotPark(s.slots[s.calls[d].slot.value], d, c);
  }

  lemma {:induction false} RunTakenPlaces(s: State, k: nat, c: nat)
    requires Shape(s) && AtHome(s) && Enabled(s, RunTaken(k)) && c < |s.calls|
    ensures Places(Apply(s, RunTaken(k)), c) == Places(s, c)
  {
    assert CallShape(s, c);
    var slot := s.slots[k];
    RanCountSnoc(s.ran, Ran(slot.task.taken[0], slot.result.value), c);
    InSlotPop(slot, c);
    assert AllJoined(s, Taken(slot), k);
    assert s.calls[Taken(slot)[0]].slot == Some(k);
  }

  lemma {:induction false} LookupPlaces(s: State, d: nat, c: nat)
    requires Shape(s) && FlightTable(s) && OnePlace(s) && Enabled(s, Lookup(d))
    requires c < |s.calls|
    ensures Places(Apply(s, Lookup(d)), c) == Places(s, c)
  {
    assert CallShape(s, c) && CallShape(s, d) && SlotShape(s.calls[d], d, s.slots[d]);
    if s.calls[d].hash in s.inFlight {
      var k := s.inFlight[s.calls[d].hash];
      assert FlightEntry(s, s.calls[d].hash, k);
      assert AllJoined(s, s.slots[k].callbacks, k) && AllJoined(s, Taken(s.slots[k]), k);
      assert InSlot(s.slots[k], d) == 0;
    }
  }

  lemma {:induction false} OnePlaceKept(s: State, step: Step)
    requires Shape(s) && FlightTable(s) && OnePlace(s) && Enabled(s, step)
    ensures OnePlace(Apply(s, step))
  {
    AtHomeKept(s, step);
    forall c | 0 <= c < |s.calls| ensures Places(Apply(s, step), c) == 1 {
      assert Places(s, c) == 1;
      PlacesKept(s, step, c);
    }
  }

  /** A call stays with the slot it joined, and a slot keeps its result. */
  lemma {:induction false} ResultStays(s: State, step: Step, x: nat)
    requires Shape(s) && FlightTable(s) && Enabled(s, step)
    requires x < |s.calls| && s.calls[x].slot.Some? && s.calls[x].slot.value < |s.slots|
    requires s.slots[s.calls[x].slot.value].result.Some?
    ensures Apply(s, step).calls[x].slot == s.calls[x].slot
    ensures Apply(s, step).slots[s.calls[x].slot.value].result == s.slots[s.calls[x].slot.value].result
  {
    var k := s.calls[x].slot.value;
    assert CallShape(s, x) && CallShape(s, k) && SlotShape(s.calls[k], k, s.slots[k]);
  }

  lemma {:induction false} RanKept(s: State, step: Step, i: nat)
    requires Shape(s) && FlightTable(s) && ResultsShared(s) && Enabled(s, step) && i < |s.ran|
    ensures i < |Apply(s, step).ran| && RanAtHome(Apply(s, step), i)
  {
    assert RanAtHome(s, i) && Apply(s, step).ran[i] == s.ran[i];
    ResultStays(s, step, s.ran[i].call);
  }

  lemma {:induction false} NowKept(s: State, step: Step, c: nat)
    requires Shape(s) && FlightTable(s) && ResultsShared(s) && Enabled(s, step) && c < |s.calls|
    ensures c < |Apply(s, step).calls| && NowAtHome(Apply(s, step), c)
  {
    assert CallShape(s, c) && NowAtHome(s, c);
    if s.calls[c].pc.RunningNow? { ResultStays(s, step, c); }
  }

  lemma {:induction false} ResultsKept(s: State, step: Step)
    requires Shape(s) && FlightTable(s) && OnePlace(s) && ResultsShared(s) && Enabled(s, step)
    ensures ResultsShared(Apply(s, step))
  {
    var s' := Apply(s, step);
    forall i | 0 <= i < |s'.ran| ensures RanAtHome(s', i) {
      if i < |s.ran| { RanKept(s, step, i); } else { NewRunAtHome(s, step); }
    }
    forall c | 0 <= c < |s'.calls| ensures NowAtHome(s', c) { NowKept(s, step, c); }
  }

  lemma {:induction false} NewRunAtHome(s: State, step: Step)
    requires Shape(s) && OnePlace(s) && ResultsShared(s) && Enabled(s, step)
    requires |Apply(s, step).ran| > |s.ran|
    ensures RanAtHome(Apply(s, step), |s.ran|)
  {
    if step.RunNow? {
      assert NowAtHome(s, step.c);
    } else {
      assert AllJoined(s, Taken(s.slots[step.k]), step.k);
      assert s.calls[Taken(s.slots[step.k])[0]].slot == Some(step.k);
    }
  }

  /** Every step of every interleaving keeps the whole invariant. */
  lemma {:induction false} InvKept(s: State, step: Step, capacity: nat)
    requires Inv(s, capacity) && Enabled(s, step)
    ensures Inv(Apply(s, step), capacity)
  {
    ShapeKept(s, step);
    FlightKept(s, step);
    PermitsKept(s, step);
    OnePlaceKept(s, step);
    ResultsKept(s, step);
  }

  /* ---- Runs ---- */

  ghost predicate IsRun(s: State, steps: seq<Step>)
    decreases |steps|
  {
    steps == [] || (Enabled(s, steps[0]) && IsRun(Apply(s, steps[0]), steps[1..]))
  }

  ghost function After(s: State, steps: seq<Step>): State
    requires IsRun(s, steps)
    decreases |steps|
  {
    if steps == [] then s else After(Apply(s, steps[0]), steps[1..])
  }

  lemma {:induction false} RunInv(s: State, steps: seq<Step>, capacity: nat)
    requires Inv(s, capacity) && IsRun(s, steps)
    ensures Inv(After(s, steps), capacity)
    decreases |steps|
  {
    if steps != [] {
      InvKept(s, steps[0], capacity);
      RunInv(Apply(s, steps[0]), steps[1..], capacity);
    }
  }

  /** In every reachable state each callback is in exactly one place and has run at most
      once, with the result of the slot its call joined; a slot with a result parks
      nothing; and no two tasks for one hash exist at the same time, nor more handlers
      than the semaphore admits. */
  lemma {:induction false} SingleFlight(hashes: seq<HashId>, concurrency: nat, steps: seq<Step>)
    requires IsRun(Init(hashes, concurrency), steps)
    ensures var s := After(Init(hashes, concurrency), steps);
      && |s.calls| == |s.slots|
      && (forall c :: 0 <= c < |s.calls| ==> Places(s, c) == 1 && RanCount(s.ran, c) <= 1)
      && (forall i :: 0 <= i < |s.ran| ==> RanAtHome(s, i))
      && (forall k :: 0 <= k < |s.slots| && s.slots[k].result.Some? ==> s.slots[k].callbacks == [])
      && (forall i, j :: 0 <= i < j < |s.slots| && Live(s.slots[i]) && Live(s.slots[j]) ==>
            s.calls[i].hash != s.calls[j].hash)
      && |Running(s)| <= (if concurrency < 1 then 1 else concurrency)
  {
    InitInv(hashes, concurrency);
    RunInv(Init(hashes, concurrency), steps, Capacity(concurrency));
    var s := After(Init(hashes, concurrency), steps);
    RunningHold(s.slots);
    forall c | 0 <= c < |s.calls| ensures Places(s, c) == 1 && RanCount(s.ran, c) <= 1 {
      assert Places(s, c) == 1;
    }
    forall k | 0 <= k < |s.slots| && s.slots[k].result.Some? ensures s.slots[k].callbacks == [] {
      assert SlotShape(s.calls[k], k, s.slots[k]);
    }
    forall i, j | 0 <= i < j < |s.slots| && Live(s.slots[i]) && Live(s.slots[j])
      ensures s.calls[i].hash != s.calls[j].hash
    {
      assert FlightSlot(s, i) && FlightSlot(s, j);
    }
  }

  /** The slots whose handler is running. */
  function Running(s: State): set<nat> { set k | 0 <= k < |s.slots| && s.slots[k].task.Handling? }

  lemma {:induction false} RunningHold(slots: seq<Slot>)
    ensures |set k | 0 <= k < |slots| && slots[k].task.Handling?| <= Holders(slots)
  {
    if slots != [] {
      var n := |slots| - 1;
      RunningHold(slots[..n]);
      var all, init := set k | 0 <= k < |slots| && slots[k].task.Handling?, set k | 0 <= k < n && slots[..n][k].task.Handling?;
      assert all == if slots[n].task.Handling? then init + {n} else init;
    }
  }

  /* ---- The semaphore admits as many handlers as it says ---- */

  function FlightsOf(hashes: seq<HashId>, k: nat): map<HashId, nat>
    requires k <= |hashes|
  {
    if k == 0 then map[] else FlightsOf(hashes, k - 1)[hashes[k - 1] := k - 1]
  }

  lemma {:induction false} FlightsKeys(hashes: seq<HashId>, k: nat, h: HashId)
    requires k <= |hashes| && h in FlightsOf(hashes, k)
    ensures exists i :: 0 <= i < k && hashes[i] == h
  {
    if h != hashes[k - 1] { FlightsKeys(hashes, k - 1, h); }
  }

  /** The first `k` calls have started their handlers, the others have not begun. */
  function Busy(hashes: seq<HashId>, permits: nat, k: nat): State
    requires k <= |hashes|
  {
    State(seq(|hashes|, i requires 0 <= i < |hashes| =>
            if i < k then Call(hashes[i], Returned, Some(i)) else Call(hashes[i], Looking, None)),
          seq(|hashes|, i requires 0 <= i < |hashes| => if i < k then Slot(true, None, [i], Handling) else Slot(false, None, [], NotSpawned)),
          FlightsOf(hashes, k), permits, [])
  }

  lemma {:induction false} OneMoreBusy(hashes: seq<HashId>, permits: nat, k: nat)
    requires k < |hashes| && permits > 0 && hashes[k] !in FlightsOf(hashes, k)
    ensures var s, steps := Busy(hashes, permits, k), [Lookup(k)] + [AddCallback(k)] + [TakePermit(k)];
      IsRun(s, steps) && After(s, steps) == Busy(hashes, permits - 1, k + 1)
  {
    var s0, next := Busy(hashes, permits, k), Busy(hashes, permits - 1, k + 1);
    var s1 := Apply(s0, Lookup(k));
    assert s1.slots[k] == Slot(true, None, [], NotSpawned);
    var s2 := Apply(s1, AddCallback(k));
    assert s2.slots[k].callbacks == [k];
    var s3 := Apply(s2, TakePermit(k));
    assert s3.slots == next.slots && s3.calls == next.calls && s3.inFlight == next.inFlight;
    RunSnoc(s0, [], Lookup(k));
    assert [] + [Lookup(k)] == [Lookup(k)];
    RunSnoc(s0, [Lookup(k)], AddCallback(k));
    RunSnoc(s0, [Lookup(k)] + [AddCallback(k)], TakePermit(k));
  }

  lemma {:induction false} RunSnoc(s: State, steps: seq<Step>, last: Step)
    requires IsRun(s, steps) && Enabled(After(s, steps), last)
    ensures IsRun(s, steps + [last]) && After(s, steps + [last]) == Apply(After(s, steps), last)
  {
    assert [last][1..] == [];
    RunAppend(s, steps, [last]);
  }

  lemma {:induction false} RunAppend(s: State, a: seq<Step>, b: seq<Step>)
    requires IsRun(s, a) && IsRun(After(s, a), b)
    ensures IsRun(s, a + b) && After(s, a + b) == After(After(s, a), b)
    decreases |a|
  {
    if a == [] {
      assert a + b == b;
    } else {
      RunAppend(Apply(s, a[0]), a[1..], b);
      assert (a + b)[1..] == a[1..] + b;
    }
  }

  predicate Different(hashes: seq<HashId>) { forall i, j :: 0 <= i < j < |hashes| ==> hashes[i] != hashes[j] }

  lemma {:induction false} NotYetFlying(hashes: seq<HashId>, k: nat)
    requires k < |hashes| && Different(hashes)
    ensures hashes[k] !in FlightsOf(hashes, k)
  {
    if hashes[k] in FlightsOf(hashes, k) { FlightsKeys(hashes, k, hashes[k]); }
  }

  lemma {:induction false} BusyNone(hashes: seq<HashId>, concurrency: nat)
    ensures Init(hashes, concurrency) == Busy(hashes, Capacity(concurrency), 0)
  {}

  lemma {:induction false} BusyReached(hashes: seq<HashId>, permits: nat, k: nat) returns (steps: seq<Step>)
    requires k <= |hashes| && k <= permits && Different(hashes)
    ensures IsRun(Busy(hashes, permits, 0), steps) && After(Busy(hashes, permits, 0), steps) == Busy(hashes, permits - k, k)
  {
    if k == 0 {
      steps := [];
    } else {
      var before := BusyReached(hashes, permits, k - 1);
      var left := permits - (k - 1);
      var more := OneMore(hashes, left, k - 1);
      steps := before + more;
      Continue(Busy(hashes, permits, 0), before, Busy(hashes, left, k - 1), more, Busy(hashes, left - 1, k));
    }
  }

  lemma {:induction false} Continue(s0: State, a: seq<Step>, s1: State, b: seq<Step>, s2: State)
    requires IsRun(s0, a) && After(s0, a) == s1 && IsRun(s1, b) && After(s1, b) == s2
    ensures IsRun(s0, a + b) && After(s0, a + b) == s2
  {
    RunAppend(s0, a, b);
  }

  lemma {:induction false} OneMore(hashes: seq<HashId>, permits: nat, k: nat) returns (steps: seq<Step>)
    requires k < |hashes| && permits > 0 && Different(hashes)
    ensures IsRun(Busy(hashes, permits, k), steps) && After(Busy(hashes, permits, k), steps) == Busy(hashes, permits - 1, k + 1)
  {
    NotYetFlying(hashes, k);
    OneMoreBusy(hashes, permits, k);
    steps := [Lookup(k)] + [AddCallback(k)] + [TakePermit(k)];
  }

  /** With enough different requests as many handlers run at once as the concurrency says. */
  lemma {:induction false} FullConcurrency(hashes: seq<HashId>, concurrency: nat) returns (steps: seq<Step>)
    requires Different(hashes) && |hashes| >= (if concurrency < 1 then 1 else concurrency)
    ensures IsRun(Init(hashes, concurrency), steps)
    ensures |Running(After(Init(hashes, concurrency), steps))| == if concurrency < 1 then 1 else concurrency
  {
    var n := Capacity(concurrency);
    BusyNone(hashes, concurrency);
    steps := BusyReached(hashes, n, n);
    assert Running(Busy(hashes, 0, n)) == Below(n);
  }

  function Below(n: nat): (s: set<nat>)
    ensures |s| == n && forall k: nat :: k in s <==> k < n
  {
    if n == 0 then {} else Below(n - 1) + {n - 1}
  }

  /** The owner's removal takes its own slot out of `in_flight`, never a newer one. */
  lemma {:induction false} RemovesOwnSlot(s: State, k: nat, capacity: nat)
    requires Inv(s, capacity) && Enabled(s, Remove(k))
    ensures k < |s.calls| && s.calls[k].hash in s.inFlight && s.inFlight[s.calls[k].hash] == k
  {
    assert FlightSlot(s, k) && SlotShape(s.calls[k], k, s.slots[k]);
  }

  /* ---- Progress ---- */

  function CallRank(pc: CallPc): nat {
    match pc
    case Looking => 7
    case Adding(_) => 6
    case RunningNow(_, _) => 4
    case AwaitingPermit => 3
    case Returned => 0
  }

  function SlotRank(slot: Slot): nat {
    (match slot.task
     case NotSpawned => 5
     case Handling => 4
     case Completing(_) => 3
     case Draining(taken) => 2 + |taken|
     case Releasing => 1
     case Finished => 0) + |slot.callbacks|
  }

  function CallsLeft(calls: seq<Call>): nat {
    if calls == [] then 0 else CallsLeft(calls[..|calls| - 1]) + CallRank(calls[|calls| - 1].pc)
  }

  function SlotsLeft(slots: seq<Slot>): nat {
    if slots == [] then 0 else SlotsLeft(slots[..|slots| - 1]) + SlotRank(slots[|slots| - 1])
  }

  /** An upper bound on the number of steps still to be taken. */
  function Left(s: State): nat { CallsLeft(s.calls) + SlotsLeft(s.slots) }

  lemma {:induction false} CallsLeftUpdate(calls: seq<Call>, c: nat, call: Call)
    requires c < |calls|
    ensures CallsLeft(calls[c := call]) + CallRank(calls[c].pc) == CallsLeft(calls) + CallRank(call.pc)
  {
    var n := |calls| - 1;
    if c < n {
      CallsLeftUpdate(calls[..n], c, call);
      assert calls[c := call][..n] == calls[..n][c := call];
    } else {
      assert calls[c := call][..n] == calls[..n];
    }
  }

  lemma {:induction false} SlotsLeftUpdate(slots: seq<Slot>, k: nat, slot: Slot)
    requires k < |slots|
    ensures SlotsLeft(slots[k := slot]) + SlotRank(slots[k]) == SlotsLeft(slots) + SlotRank(slot)
  {
    var n := |slots| - 1;
    if k < n {
      SlotsLeftUpdate(slots[..n], k, slot);
      assert slots[k := slot][..n] == slots[..n][k := slot];
    } else {
      assert slots[k := slot][..n] == slots[..n];
    }
  }

  lemma {:induction false} TaskLeft(s: State, k: nat, slot: Slot)
    requires k < |s.slots| && SlotRank(slot) < SlotRank(s.slots[k])
    ensures SlotsLeft(s.slots[k := slot]) < SlotsLeft(s.slots)
  {
    SlotsLeftUpdate(s.slots, k, slot);
  }

  lemma {:induction false} LookupLeft(s: State, c: nat)
    requires Shape(s) && Enabled(s, Lookup(c))
    ensures Left(Apply(s, Lookup(c))) < Left(s)
  {
    var s' := Apply(s, Lookup(c));
    assert CallShape(s, c) && SlotShape(s.calls[c], c, s.slots[c]);
    CallsLeftUpdate(s.calls, c, s'.calls[c]);
    SlotsLeftUpdate(s.slots, c, s'.slots[c]);
  }

  lemma {:induction false} AddLeft(s: State, c: nat)
    requires Enabled(s, AddCallback(c))
    ensures Left(Apply(s, AddCallback(c))) < Left(s)
  {
    var s' := Apply(s, AddCallback(c));
    var k := s.calls[c].slot.value;
    CallsLeftUpdate(s.calls, c, s'.calls[c]);
    SlotsLeftUpdate(s.slots, k, s'.slots[k]);
  }

  lemma {:induction false} PermitLeft(s: State, c: nat)
    requires Shape(s) && Enabled(s, TakePermit(c))
    ensures Left(Apply(s, TakePermit(c))) < Left(s)
  {
    var s' := Apply(s, TakePermit(c));
    assert SlotShape(s.calls[c], c, s.slots[c]);
    CallsLeftUpdate(s.calls, c, s'.calls[c]);
    SlotsLeftUpdate(s.slots, c, s'.slots[c]);
  }

  /** Every step brings the end closer, so no run goes on for ever. */
  lemma {:induction false} StepLeft(s: State, step: Step)
    requires Shape(s) && Enabled(s, step)
    ensures Left(Apply(s, step)) < Left(s)
  {
    match step
    case Lookup(c) => LookupLeft(s, c);
    case AddCallback(c) => AddLeft(s, c);
    case RunNow(c) => CallsLeftUpdate(s.calls, c, Apply(s, step).calls[c]);
    case TakePermit(c) => PermitLeft(s, c);
    case HandlerReturns(k, _) => TaskLeft(s, k, Apply(s, step).slots[k]);
    case Complete(k) => TaskLeft(s, k, Apply(s, step).slots[k]);
    case RunTaken(k) => TaskLeft(s, k, Apply(s, step).slots[k]);
    case Remove(k) => TaskLeft(s, k, Apply(s, step).slots[k]);
    case Release(k) => TaskLeft(s, k, Apply(s, step).slots[k]);
  }

  /** The step a spawned task is ready to take. */
  function TaskStep(k: nat, task: TaskPc): Step
    requires HoldsPermit(task)
  {
    match task
    case Handling => HandlerReturns(k, Err(Internal))
    case Completing(_) => Complete(k)
    case Draining(taken) => if taken == [] then Remove(k) else RunTaken(k)
    case Releasing => Release(k)
  }

  ghost predicate AllDone(s: State) {
    && (forall c :: 0 <= c < |s.calls| ==> s.calls[c].pc.Returned?)
    && (forall k :: 0 <= k < |s.slots| && s.slots[k].created ==> s.slots[k].task.Finished?)
  }

  /** No deadlock: as long as something is unfinished, some step can be taken. */
  lemma {:induction false} NoDeadlock(s: State, capacity: nat) returns (step: Step)
    requires Inv(s, capacity) && capacity > 0 && !AllDone(s)
    ensures Enabled(s, step)
  {
    if c :| 0 <= c < |s.calls| && !s.calls[c].pc.Returned? {
      step := CallCanStep(s, c, capacity);
    } else {
      var k :| 0 <= k < |s.slots| && s.slots[k].created && !s.slots[k].task.Finished?;
      assert SlotShape(s.calls[k], k, s.slots[k]);
      step := TaskCanStep(s, k);
    }
  }

  /** A call can go on, or waits for a permit that some task can work to give back. */
  lemma {:induction false} CallCanStep(s: State, c: nat, capacity: nat) returns (step: Step)
    requires Shape(s) && s.permits + Holders(s.slots) == capacity && capacity > 0
    requires c < |s.calls| && !s.calls[c].pc.Returned?
    ensures Enabled(s, step)
  {
    assert CallShape(s, c);
    match s.calls[c].pc
    case Looking => step := Lookup(c);
    case Adding(_) => step := AddCallback(c);
    case RunningNow(_, _) => step := RunNow(c);
    case AwaitingPermit =>
      if s.permits > 0 {
        step := TakePermit(c);
      } else {
        var k := HoldersPositive(s.slots);
        step := TaskCanStep(s, k);
      }
  }

  lemma {:induction false} TaskCanStep(s: State, k: nat) returns (step: Step)
    requires Shape(s) && k < |s.slots| && HoldsPermit(s.slots[k].task)
    ensures Enabled(s, step)
  {
    assert SlotShape(s.calls[k], k, s.slots[k]);
    step := TaskStep(k, s.slots[k].task);
  }

  lemma {:induction false} FlightHasLive(s: State) returns (k: nat)
    requires FlightTable(s) && s.inFlight != map[]
    ensures k < |s.slots| && Live(s.slots[k])
  {
    var h :| h in s.inFlight;
    assert FlightEntry(s, h, s.inFlight[h]);
    k := s.inFlight[h];
  }

  /** What is true when nothing is left to do. */
  lemma {:induction false} WhenDone(s: State, capacity: nat)
    requires Inv(s, capacity) && AllDone(s)
    ensures s.inFlight == map[] && s.permits == capacity
    ensures forall c :: 0 <= c < |s.calls| ==> RanCount(s.ran, c) == 1
  {
    if s.inFlight != map[] {
      var k := FlightHasLive(s);
    }
    forall k | 0 <= k < |s.slots| ensures !HoldsPermit(s.slots[k].task) {
      assert SlotShape(s.calls[k], k, s.slots[k]);
    }
    HoldersNone(s.slots);
    forall c | 0 <= c < |s.calls| ensures RanCount(s.ran, c) == 1 {
      assert Places(s, c) == 1 && CallShape(s, c);
      var k := s.calls[c].slot.value;
      assert SlotShape(s.calls[k], k, s.slots[k]);
    }
  }

  lemma {:induction false} RunLeft(s: State, steps: seq<Step>, capacity: nat)
    requires Inv(s, capacity) && IsRun(s, steps)
    ensures |steps| + Left(After(s, steps)) <= Left(s)
    decreases |steps|
  {
    if steps != [] {
      var next := Advance(s, steps[0], capacity);
      RunLeft(next, steps[1..], capacity);
    }
  }

  lemma {:induction false} Advance(s: State, step: Step, capacity: nat) returns (next: State)
    requires Inv(s, capacity) && Enabled(s, step)
    ensures next == Apply(s, step) && Inv(next, capacity) && Left(next) < Left(s)
  {
    next := Apply(s, step);
    StepLeft(s, step);
    InvKept(s, step, capacity);
  }

  /** Any number of requests, duplicates or not, under any interleaving: the run is
      bounded, and when no further step is possible every callback has run exactly once
      with the result of the slot it joined, `in_flight` is empty and all permits are back. */
  lemma {:induction false} EveryCallbackRunsOnce(hashes: seq<HashId>, concurrency: nat, steps: seq<Step>)
    requires IsRun(Init(hashes, concurrency), steps)
    ensures |steps| <= Left(Init(hashes, concurrency))
    ensures var s := After(Init(hashes, concurrency), steps);
      (forall step :: !Enabled(s, step)) ==>
        && s.inFlight == map[] && s.permits == Capacity(concurrency)
        && (forall c :: 0 <= c < |s.calls| ==> RanCount(s.ran, c) == 1)
        && (forall i :: 0 <= i < |s.ran| ==> RanAtHome(s, i))
  {
    InitInv(hashes, concurrency);
    RunInv(Init(hashes, concurrency), steps, Capacity(concurrency));
    RunLeft(Init(hashes, concurrency), steps, Capacity(concurrency));
    var s := After(Init(hashes, concurrency), steps);
    if forall step :: !Enabled(s, step) {
      if !AllDone(s) {
        var step := NoDeadlock(s, Capacity(concurrency));
      } else {
        WhenDone(s, Capacity(concurrency));
      }
    }
  }
}
