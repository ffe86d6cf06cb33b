/** `HashRequestScheduler` and `RequestSlot` as the code has them: objects whose fields
    change inside lock regions. A ghost field carries the protocol state of SchedulerModel,
    and every lock region is shown to be the step of that protocol. */
module RequestScheduler {
  import opened Core
  import opened SchedulerModel

  class RequestSlot {
    var result: Option<Outcome>
    var callbacks: seq<nat>

    constructor ()
      ensures result == None && callbacks == []
    {
      result, callbacks := None, [];
    }

    /** The lock region of `add_callback`: a finished slot hands out its result, an
        unfinished one parks the callback. */
    method AddCallback(callback: nat) returns (now: Option<Outcome>)
      modifies this
      ensures now == old(result) && result == old(result)
      ensures callbacks == if now.Some? then old(callbacks) else old(callbacks) + [callback]
    {
      now := result;
      if now.None? {
        callbacks := callbacks + [callback];
      }
    }

    /** The lock region of `complete`: publish the result and take all parked callbacks. */
    method Complete(outcome: Outcome) returns (taken: seq<nat>)
      modifies this
      ensures result == Some(outcome) && callbacks == [] && taken == old(callbacks)
    {
      result := Some(outcome);
      taken := callbacks;
      callbacks := [];
    }
  }

  class HashRequestScheduler {
    var permits: nat
    var inFlight: map<HashId, RequestSlot>
    var ran: seq<Ran>

    ghost var model: State
    ghost var slots: map<nat, RequestSlot>

    ghost function Objects(): set<RequestSlot>
      reads this
    {
      set k | k in slots :: slots[k]
    }

    ghost predicate Valid()
      reads this, Objects()
    {
      && permits == model.permits
      && ran == model.ran
      && SameTable(inFlight, model.inFlight, slots)
      && (forall k: nat :: k in slots <==> k < |model.slots| && model.slots[k].created)
      && (forall k: nat :: k in slots ==> Mirrors(k))
      && Apart(slots)
    }

    ghost predicate Mirrors(k: nat)
      requires k in slots
      reads this, slots[k]
    {
      && k < |model.slots|
      && slots[k].result == model.slots[k].result
      && slots[k].callbacks == model.slots[k].callbacks
    }

    /** A scheduler about to serve requests for the given hashes. */
    constructor (concurrency: nat, ghost hashes: seq<HashId>)
      ensures Valid() && model == Init(hashes, concurrency)
      ensures permits == if concurrency < 1 then 1 else concurrency
    {
      permits := if concurrency < 1 then 1 else concurrency;
      inFlight, ran := map[], [];
      model := Init(hashes, concurrency);
      slots := map[];
    }

    /** The lock region of `enqueue_blocking` on `in_flight`. */
    method LookupOrInsert(ghost c: nat, hashId: HashId) returns (slot: RequestSlot, isOwner: bool)
      requires Valid() && Enabled(model, Lookup(c)) && model.calls[c].hash == hashId
      requires !model.slots[c].created
      modifies this
      ensures Valid() && model == Apply(old(model), Lookup(c))
      ensures isOwner <==> hashId !in old(inFlight)
      ensures hashId in inFlight && slot == inFlight[hashId]
      ensures isOwner ==> fresh(slot) && inFlight == old(inFlight)[hashId := slot]
      ensures !isOwner ==> inFlight == old(inFlight)
    {
      if hashId in inFlight {
        slot, isOwner := inFlight[hashId], false;
        model := Apply(model, Lookup(c));
        assert forall k: nat :: k in slots ==> old(Mirrors(k)) && Mirrors(k);
      } else {
        slot := new RequestSlot();
        isOwner := true;
        Insert(c, hashId, slot);
      }
    }

    method Insert(ghost c: nat, hashId: HashId, slot: RequestSlot)
      requires Valid() && Enabled(model, Lookup(c)) && model.calls[c].hash == hashId
      requires !model.slots[c].created && hashId !in inFlight
      requires slot !in Objects() && slot.result == None && slot.callbacks == []
      modifies this
      ensures Valid() && model == Apply(old(model), Lookup(c))
      ensures inFlight == old(inFlight)[hashId := slot]
    {
      ghost var before, objects := model, slots;
      inFlight := inFlight[hashId := slot];
      slots := slots[c := slot];
      model := Apply(model, Lookup(c));
      forall k: nat | k in slots ensures Mirrors(k) {
        if k != c { assert k in objects && old(Mirrors(k)); }
      }
      StillApart(objects, c, slot);
      TableGrows(old(inFlight), before.inFlight, objects, hashId, c, slot);
    }

    /** The lock region of `add_callback` on the slot that call `c` joined. */
    method AddCallback(c: nat, slot: RequestSlot) returns (now: Option<Outcome>)
      requires Valid() && Enabled(model, SchedulerModel.AddCallback(c))
      requires model.calls[c].slot.value in slots && slots[model.calls[c].slot.value] == slot
      modifies this, slot
      ensures Valid() && model == Apply(old(model), SchedulerModel.AddCallback(c))
      ensures now == old(slot.result) && inFlight == old(inFlight) && permits == old(permits)
      ensures slot.callbacks == if now.Some? then old(slot.callbacks) else old(slot.callbacks) + [c]
    {
      assert Mirrors(model.calls[c].slot.value);
      now := slot.AddCallback(c);
      model := Apply(model, SchedulerModel.AddCallback(c));
    }

    /** Acquiring a permit, after which the owner spawns its task and returns. */
    method AcquirePermit(ghost c: nat)
      requires Valid() && Enabled(model, TakePermit(c)) && c in slots
      modifies this
      ensures Valid() && model == Apply(old(model), TakePermit(c))
      ensures permits + 1 == old(permits)
    {
      assert Mirrors(c);
      permits := permits - 1;
      model := Apply(model, TakePermit(c));
    }

    /** The rest of the spawned task, run without interruption: `complete` with the
        handler's outcome, one call per taken callback, removal from `in_flight`, and the
        permit handed back. */
    method FinishTask(ghost k: nat, hashId: HashId, slot: RequestSlot, outcome: Outcome)
      requires Valid() && Enabled(model, HandlerReturns(k, outcome)) && model.calls[k].hash == hashId
      requires k in slots && slots[k] == slot
      modifies this, slot
      ensures Valid()
      ensures slot.result == Some(outcome) && slot.callbacks == []
      ensures inFlight == old(inFlight) - {hashId} && permits == old(permits) + 1
      ensures ran == old(ran) + Runs(old(slot.callbacks), outcome)
      ensures model.calls == old(model.calls) && slots == old(slots)
      ensures k < |model.slots| && model.slots[k].task.Finished?
    {
      CompleteAll(k, slot, outcome);
      RemoveAndRelease(k, hashId);
    }

    /** `complete`: publish the result, take the callbacks, and run them. */
    method CompleteAll(ghost k: nat, slot: RequestSlot, outcome: Outcome)
      requires Valid() && Enabled(model, HandlerReturns(k, outcome)) && k in slots && slots[k] == slot
      modifies this`ran, this`model, slot
      ensures Valid() && Enabled(model, Remove(k))
      ensures slot.result == Some(outcome) && slot.callbacks == []
      ensures ran == old(ran) + Runs(old(slot.callbacks), outcome)
      ensures model.calls == old(model.calls)
    {
      var taken := CompleteSlot(k, slot, outcome);
      DrainTaken(k, slot, taken, outcome);
      assert Mirrors(k);
    }

    method RemoveAndRelease(ghost k: nat, hashId: HashId)
      requires Valid() && Enabled(model, Remove(k)) && model.calls[k].hash == hashId
      modifies this`inFlight, this`permits, this`model
      ensures Valid() && model == Apply(Apply(old(model), Remove(k)), Release(k))
      ensures inFlight == old(inFlight) - {hashId} && permits == old(permits) + 1
    {
      TableShrinks(inFlight, model.inFlight, slots, hashId);
      inFlight := inFlight - {hashId};
      permits := permits + 1;
      model := Apply(Apply(model, Remove(k)), Release(k));
      forall j: nat | j in slots ensures Mirrors(j) { assert old(Mirrors(j)); }
    }

    method CompleteSlot(ghost k: nat, slot: RequestSlot, outcome: Outcome) returns (taken: seq<nat>)
      requires Valid() && Enabled(model, HandlerReturns(k, outcome)) && k in slots && slots[k] == slot
      modifies this`model, slot
      ensures Valid() && taken == old(slot.callbacks)
      ensures model == Apply(Apply(old(model), HandlerReturns(k, outcome)), SchedulerModel.Complete(k))
      ensures slot.result == Some(outcome) && slot.callbacks == []
    {
      assert Mirrors(k);
      taken := slot.Complete(outcome);
      model := Apply(Apply(model, HandlerReturns(k, outcome)), SchedulerModel.Complete(k));
      forall j: nat | j in slots ensures Mirrors(j) {
        assert old(Mirrors(j));
      }
    }

    /** The loop of `complete` over the callbacks it took. */
    method DrainTaken(ghost k: nat, ghost slot: RequestSlot, taken: seq<nat>, outcome: Outcome)
      requires Valid() && k in slots && slots[k] == slot && |model.slots| == |model.calls|
      requires model.slots[k].task == Draining(taken) && model.slots[k].result == Some(outcome)
      modifies this`ran, this`model
      ensures Valid() && ran == old(ran) + Runs(taken, outcome)
      ensures model.calls == old(model.calls) && model.inFlight == old(model.inFlight)
      ensures model.permits == old(model.permits)
      ensures |model.slots| == |model.calls| && k < |model.slots|
      ensures model.slots[k] == old(model.slots[k]).(task := Draining([]))
    {
      var i := 0;
      while i < |taken|
        invariant 0 <= i <= |taken|
        invariant Valid() && |model.slots| == |model.calls|
        invariant model.calls == old(model.calls) && model.inFlight == old(model.inFlight)
        invariant model.permits == old(model.permits)
        invariant k < |model.slots| && model.slots[k] == old(model.slots[k]).(task := Draining(taken[i..]))
        invariant ran == old(ran) + Runs(taken[..i], outcome)
      {
        label before:
        ran := ran + [Ran(taken[i], outcome)];
        model := Apply(model, RunTaken(k));
        assert taken[i..][1..] == taken[i + 1..];
        assert Runs(taken[..i + 1], outcome) == Runs(taken[..i], outcome) + [Ran(taken[i], outcome)];
        forall j: nat | j in slots ensures Mirrors(j) { assert old@before(Mirrors(j)); }
        i := i + 1;
      }
      assert taken[..|taken|] == taken && taken[|taken|..] == [];
    }
  }

  /** The two tables lead from the same hashes to the same slots. */
  ghost predicate SameTable(inFlight: map<HashId, RequestSlot>, flights: map<HashId, nat>, slots: map<nat, RequestSlot>) {
    && inFlight.Keys == flights.Keys
    && forall h :: h in inFlight ==> flights[h] in slots && inFlight[h] == slots[flights[h]]
  }

  lemma {:induction false} TableGrows(inFlight: map<HashId, RequestSlot>, flights: map<HashId, nat>, slots: map<nat, RequestSlot>,
                                      h: HashId, c: nat, slot: RequestSlot)
    requires SameTable(inFlight, flights, slots) && c !in slots
    ensures SameTable(inFlight[h := slot], flights[h := c], slots[c := slot])
  {}

  lemma {:induction false} TableShrinks(inFlight: map<HashId, RequestSlot>, flights: map<HashId, nat>, slots: map<nat, RequestSlot>, h: HashId)
    requires SameTable(inFlight, flights, slots)
    ensures SameTable(inFlight - {h}, flights - {h}, slots)
  {}

  /** No two slots are the same object. */
  ghost predicate Apart(slots: map<nat, RequestSlot>) {
    forall j: nat, k: nat :: j in slots && k in slots && j != k ==> slots[j] != slots[k]
  }

  /** A new object keeps the slots different objects. */
  lemma {:induction false} StillApart(slots: map<nat, RequestSlot>, c: nat, slot: RequestSlot)
    requires Apart(slots) && slot !in (set k | k in slots :: slots[k])
    ensures Apart(slots[c := slot])
  {
    var after := slots[c := slot];
    forall k: nat | k in slots ensures slots[k] != slot { assert slots[k] in (set k | k in slots :: slots[k]); }
    forall j: nat, k: nat | j in after && k in after && j != k ensures after[j] != after[k] {}
  }

  /** The log entries of running `callbacks` in order with one outcome. */
  function Runs(callbacks: seq<nat>, outcome: Outcome): seq<Ran> {
    seq(|callbacks|, i requires 0 <= i < |callbacks| => Ran(callbacks[i], outcome))
  }

  /** What the methods above ask for beyond an enabled step holds in every reachable state. */
  lemma {:induction false} ReachableReady(s: State, capacity: nat)
    requires Inv(s, capacity)
    ensures forall c: nat :: Enabled(s, Lookup(c)) ==> !s.slots[c].created
    ensures forall c: nat :: Enabled(s, TakePermit(c)) ==> s.slots[c].created
    ensures forall c: nat :: Enabled(s, SchedulerModel.AddCallback(c)) ==> s.slots[s.calls[c].slot.value].created
    ensures forall k :: 0 <= k < |s.slots| && s.slots[k].task.Handling? ==>
              s.slots[k].created && s.calls[k].hash in s.inFlight && s.inFlight[s.calls[k].hash] == k
  {
    forall c | 0 <= c < |s.calls|
      ensures CallShape(s, c) && SlotShape(s.calls[c], c, s.slots[c]) && FlightSlot(s, c) {}
  }
}
