/** Whole runs of the timing wheel. */
module TimerRuns {
  import opened WheelModel
  import opened Deadlines

  datatype Op = Set(id: Id, delay: Delay) | Flush(id: Id) | Cancels(id: Id) | Tick

  function Step(w: Wheel, op: Op): (v: Wheel)
    requires Sound(w)
  {
    match op
    case Set(id, delay) => SetTask(w, id, delay)
    case Flush(id) => FlushTask(w, id)
    case Cancels(id) => CancelTask(w, id)
    case Tick => RunTimer(w)
  }

  lemma {:induction false} DrainSound(w: Wheel)
    requires Sound(w)
    ensures Sound(Drain(w))
    decreases if w.tick < |w.slots| then |w.slots[w.tick]| else 0
  {
    if w.slots[w.tick] != [] {
      hide Counts, All, Lockable;
      DropIsPossible(w);
      DropSound(w);
      DrainSound(DropFirst(w));
    }
  }

  /** Every operation, with a fresh id or not, keeps counts right and every tracked reference lockable. */
  lemma StepSound(w: Wheel, op: Op)
    requires Sound(w)
    ensures Sound(Step(w, op))
  {
    hide Sound, SetTask, FlushTask, CancelTask, Drain, Advance;
    match op
    case Set(id, delay) => SetSound(w, id, delay);
    case Flush(id) => FlushSound(w, id);
    case Cancels(id) => CancelSound(w, id);
    case Tick => DrainSound(Advance(w));
  }

  function Run(w: Wheel, ops: seq<Op>): (v: Wheel)
    requires Sound(w)
    ensures Sound(v)
    decreases |ops|
  {
    if ops == [] then w
    else
      StepSound(w, ops[0]);
      Run(Step(w, ops[0]), ops[1..])
  }

  /** No timer is set under an id that HasTimer still knows. */
  predicate Fresh(w: Wheel, ops: seq<Op>)
    requires Sound(w)
    decreases |ops|
  {
    if ops == [] then true
    else
      StepSound(w, ops[0]);
      (ops[0].Set? ==> ops[0].id !in w.timers) && Fresh(Step(w, ops[0]), ops[1..])
  }

  function RunFromStart(ops: seq<Op>): (w: Wheel)
    ensures Sound(w)
  {
    StartSound();
    Run(START, ops)
  }

  predicate FreshFromStart(ops: seq<Op>) {
    StartSound();
    Fresh(START, ops)
  }

  // ---- what is asked of one id, and what it gets ----

  function Ticks(ops: seq<Op>): nat
    decreases |ops|
  {
    if ops == [] then 0 else (if ops[0].Tick? then 1 else 0) + Ticks(ops[1..])
  }

  /** No operation is about this id. */
  predicate Apart(ops: seq<Op>, id: Id) {
    forall op | op in ops :: op.Tick? || op.id != id
  }

  predicate NeverSet(ops: seq<Op>, id: Id) {
    forall op | op in ops :: op.Set? ==> op.id != id
  }

  /** How often the callback of `id` ran in the run_timer call numbered `t`. */
  function Ran(w: Wheel, t: nat, id: Id): nat {
    multiset(w.log)[Firing(t, id)]
  }

  lemma RunFirst(w: Wheel, op: Op, rest: seq<Op>)
    requires Sound(w)
    ensures Sound(Step(w, op)) && Run(w, [op] + rest) == Run(Step(w, op), rest)
    ensures Fresh(w, [op] + rest) <==> (op.Set? ==> op.id !in w.timers) && Fresh(Step(w, op), rest)
  {
    hide Sound, Step;
    StepSound(w, op);
    assert ([op] + rest)[1..] == rest;
  }

  lemma {:induction false} RunAppend(w: Wheel, xs: seq<Op>, ys: seq<Op>)
    requires Sound(w)
    ensures Run(w, xs + ys) == Run(Run(w, xs), ys)
    ensures Fresh(w, xs + ys) <==> Fresh(w, xs) && Fresh(Run(w, xs), ys)
    decreases |xs|
  {
    hide Sound, Step;
    if xs == [] {
      assert xs + ys == ys;
    } else {
      var rest := xs[1..];
      assert xs == [xs[0]] + rest && xs + ys == [xs[0]] + (rest + ys);
      RunFirst(w, xs[0], rest);
      RunFirst(w, xs[0], rest + ys);
      RunAppend(Step(w, xs[0]), rest, ys);
    }
  }

  // ---- the order of the callbacks of one tick ----

  /** The callbacks of a slot: at each place that holds the last of all references to its task, from the front on. */
  function InOrder(now: nat, heap: map<Handle, Task>, slot: seq<Handle>, n: nat): seq<Firing>
    requires n <= |slot|
  {
    if n == 0 then []
    else
      InOrder(now, heap, slot, n - 1) +
      if slot[n - 1] in heap && heap[slot[n - 1]].refs == multiset(slot[..n])[slot[n - 1]]
         && !heap[slot[n - 1]].canceled
      then [Firing(now, heap[slot[n - 1]].id)] else []
  }

  /** One place, before and after the first reference of the slot is gone. */
  lemma PlaceAfterDrop(heap: map<Handle, Task>, slot: seq<Handle>, n: nat, h: Handle, after: map<Handle, Task>)
    requires 0 < n < |slot| && h == slot[0] && h in heap && heap[h].refs > 0 && slot[n] in heap
    requires if heap[h].refs > 1 then after == heap[h := heap[h].(refs := heap[h].refs - 1)] else after == heap - {h}
    requires forall g | g in heap :: heap[g].refs >= multiset(slot)[g]
    ensures slot[n] in after && after[slot[n]].id == heap[slot[n]].id
    ensures after[slot[n]].canceled == heap[slot[n]].canceled
    ensures heap[slot[n]].refs == multiset(slot[..n + 1])[slot[n]] <==>
            after[slot[n]].refs == multiset(slot[1..][..n])[slot[n]]
  {
    assert slot[..n + 1] == [h] + slot[1..][..n];
    assert slot == [h] + slot[1..];
    assert slot[n] in slot[1..];
    assert multiset(slot[..n + 1]) == multiset{h} + multiset(slot[1..][..n]);
    assert multiset(slot) == multiset{h} + multiset(slot[1..]);
  }

  lemma {:induction false} OrderAfterDrop(now: nat, heap: map<Handle, Task>, slot: seq<Handle>, n: nat, h: Handle,
                                          after: map<Handle, Task>)
    requires 0 < n <= |slot| && h == slot[0] && h in heap && heap[h].refs > 0 && forall g | g in slot :: g in heap
    requires if heap[h].refs > 1 then after == heap[h := heap[h].(refs := heap[h].refs - 1)] else after == heap - {h}
    requires forall g | g in heap :: heap[g].refs >= multiset(slot)[g]
    ensures InOrder(now, heap, slot, n) ==
            (if heap[h].refs > 1 || heap[h].canceled then [] else [Firing(now, heap[h].id)])
            + InOrder(now, after, slot[1..], n - 1)
    decreases n
  {
    if n == 1 {
      assert slot[..1] == [h];
      assert multiset(slot[..1])[h] == 1;
    } else {
      OrderAfterDrop(now, heap, slot, n - 1, h, after);
      PlaceAfterDrop(heap, slot, n - 1, h, after);
      assert slot[1..][n - 2] == slot[n - 1];
    }
  }

  lemma SlotWithin(w: Wheel)
    requires Sound(w)
    ensures forall g | g in w.heap :: w.heap[g].refs >= multiset(w.slots[w.tick])[g]
    ensures forall g | g in w.slots[w.tick] :: g in w.heap
  {
    AllUpdate(w.slots, w.tick, []);
    forall g | g in w.slots[w.tick] ensures g in w.heap {
      InSlot(w, w.tick, g);
    }
    hide All, Lockable;
  }

  /** The callbacks of one tick run in the order in which the slot holds the last references to their tasks. */
  lemma {:induction false} DrainOrder(w: Wheel)
    requires Sound(w)
    ensures Drain(w).log == w.log + InOrder(w.now, w.heap, w.slots[w.tick], |w.slots[w.tick]|)
    decreases if w.tick < |w.slots| then |w.slots[w.tick]| else 0
  {
    hide Counts, All, Lockable, InOrder;
    var slot := w.slots[w.tick];
    if slot == [] {
      NoOrder(w.now, w.heap);
      assert w.log + [] == w.log;
    } else {
      DropIsPossible(w);
      DropSound(w);
      DropShrinks(w);
      SlotWithin(w);
      var v := DropFirst(w);
      OrderAfterDrop(w.now, w.heap, slot, |slot|, slot[0], v.heap);
      assert v.slots[v.tick] == slot[1..];
      DrainOrder(v);
      LaterInLog(w.log, InOrder(v.now, v.heap, slot[1..], |slot| - 1), w, slot[0]);
    }
  }

  lemma NoOrder(now: nat, heap: map<Handle, Task>)
    ensures InOrder(now, heap, [], 0) == []
  {
  }

  lemma LaterInLog(log: seq<Firing>, more: seq<Firing>, w: Wheel, h: Handle)
    requires h in w.heap
    ensures var first := if w.heap[h].refs > 1 || w.heap[h].canceled then [] else [Firing(w.now, w.heap[h].id)];
            (log + first) + more == log + (first + more)
  {
  }

  // ---- ids ----

  /** With fresh ids, HasTimer is true of an id exactly as long as some slot holds its task. */
  lemma IndexIff(w: Wheel, id: Id)
    requires Sound(w) && Owned(w)
    ensures id in w.timers <==>
            exists s: nat, h: Handle :: s < CAPACITY && h in w.slots[s] && h in w.heap && w.heap[h].id == id
  {
    hide All;
    if id in w.timers {
      var h := w.timers[id];
      AllHas(w.slots, h);
      var s: nat :| s < |w.slots| && h in w.slots[s];
    }
  }

  lemma SetOwned(w: Wheel, id: Id, delay: Uint64)
    requires Sound(w) && Owned(w) && id !in w.timers
    ensures Owned(SetTask(w, id, delay))
  {
    var v := SetTask(w, id, delay);
    assert v.heap == w.heap[w.next := Task(id, delay, false, 1)] && v.timers == w.timers[id := w.next];
    hide SetTask, All;
  }

  /** Setting a timer keeps every live task tracked exactly when HasTimer was false of its id. */
  lemma FreshOrLost(w: Wheel, id: Id, delay: Uint64)
    requires Sound(w) && Owned(w)
    ensures Owned(SetTask(w, id, delay)) <==> id !in w.timers
  {
    hide All, SetSlot;
    if id in w.timers {
      var h, v := w.timers[id], SetTask(w, id, delay);
      assert h in v.heap && v.heap[h].id == id && v.timers[id] != h;
    } else {
      SetOwned(w, id, delay);
    }
  }
}
