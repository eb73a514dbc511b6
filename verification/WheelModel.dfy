/** The timing wheel by value: slots of shared references, an index of weak ones, and counted tasks. */
module WheelModel {

  const CAPACITY: nat := 60

  type Id = nat
  type Handle = nat

  type Uint64 = d: nat | d < 0x1_0000_0000_0000_0000

  const INT_MAX: int := 0x7FFF_FFFF

  /** A delay whose sum with any tick is an int, so that set and flush choose the same slot. */
  predicate Ordinary(delay: nat) {
    delay <= 0x7FFF_FFFF - 59
  }

  type Delay = d: nat | d <= 0x7FFF_FFFF - 59

  /** A task object and its reference count. */
  datatype Task = Task(id: Id, delay: Uint64, canceled: bool, refs: nat)

  /** A callback that ran, and the run_timer call, counted from 1, it ran in. */
  datatype Firing = Firing(at: nat, id: Id)

  /** `heap` holds the live task objects, `next` the name of the next one; `now` counts run_timer calls. */
  datatype Wheel = Wheel(
    now: nat,
    tick: nat,
    slots: seq<seq<Handle>>,
    timers: map<Id, Handle>,
    heap: map<Handle, Task>,
    next: Handle,
    log: seq<Firing>)

  function NoTasks(n: nat): (slots: seq<seq<Handle>>)
    ensures |slots| == n && forall s | s in slots :: s == []
  {
    if n == 0 then [] else [[]] + NoTasks(n - 1)
  }

  const START: Wheel := Wheel(0, 0, NoTasks(CAPACITY), map[], map[], 0, [])

  // ---- ownership ----

  /** All references in all slots. */
  function All(slots: seq<seq<Handle>>): multiset<Handle> {
    if slots == [] then multiset{} else multiset(slots[0]) + All(slots[1..])
  }

  lemma Shuffle(a: multiset<Handle>, b: multiset<Handle>, c: multiset<Handle>, d: multiset<Handle>)
    requires c <= b
    ensures c <= a + b && a + (b - c + d) == (a + b) - c + d
  {
  }

  lemma {:induction false} AllUpdate(slots: seq<seq<Handle>>, i: nat, s: seq<Handle>)
    requires i < |slots|
    ensures multiset(slots[i]) <= All(slots)
    ensures All(slots[i := s]) == All(slots) - multiset(slots[i]) + multiset(s)
  {
    if i == 0 {
      assert slots[0 := s][1..] == slots[1..];
    } else {
      AllUpdate(slots[1..], i - 1, s);
      assert slots[i := s][1..] == slots[1..][i - 1 := s];
      Shuffle(multiset(slots[0]), All(slots[1..]), multiset(slots[i]), multiset(s));
    }
  }

  lemma {:induction false} AllHas(slots: seq<seq<Handle>>, h: Handle)
    ensures h in All(slots) <==> exists i: nat :: i < |slots| && h in slots[i]
  {
    if slots != [] {
      AllHas(slots[1..], h);
      if h in All(slots[1..]) {
        var j: nat :| j < |slots[1..]| && h in slots[1..][j];
        assert h in slots[j + 1];
      }
      if i: nat :| i < |slots| && h in slots[i] {
        assert i > 0 ==> h in slots[1..][i - 1];
      }
    }
  }

  /** The live tasks are the ones referred to, and each count is the number of references. */
  predicate Counts(w: Wheel, all: multiset<Handle>) {
    && (forall h | h in w.heap :: h < w.next && w.heap[h].refs == all[h] > 0)
    && (forall h | h in all :: h in w.heap)
  }

  /** Each tracked weak reference can be locked, and gives the task of its id. */
  predicate Lockable(w: Wheel) {
    forall id | id in w.timers :: w.timers[id] in w.heap && w.heap[w.timers[id]].id == id
  }

  /** What every run keeps, with fresh ids or without. */
  predicate Sound(w: Wheel) {
    && |w.slots| == CAPACITY && w.tick == w.now % CAPACITY
    && Lockable(w) && Counts(w, All(w.slots))
  }

  /** What runs with fresh ids keep besides: every live task is the one tracked under its id. */
  predicate Owned(w: Wheel) {
    forall h | h in w.heap :: w.heap[h].id in w.timers && w.timers[w.heap[h].id] == h
  }

  // ---- operations ----

  /** The slot `delay` steps round the wheel from the current one. */
  function SlotAt(tick: nat, delay: nat): (s: nat)
    ensures s < CAPACITY
  {
    (delay + tick) % CAPACITY
  }

  /** The slot set_time_task chooses; its sum is a 64-bit one and wraps around. */
  function SetSlot(tick: nat, time: Uint64): (s: nat)
    ensures s < CAPACITY
  {
    ((time + tick) % 0x1_0000_0000_0000_0000) % CAPACITY
  }

  /** The delay as the int that flush_time_task computes with. */
  function AsInt(time: Uint64): int {
    var low: int := time % 0x1_0000_0000;
    if low <= INT_MAX then low else low - 0x1_0000_0000
  }

  /** The int sum does not overflow, and its remainder, which has the sign of the sum, is the number of a slot. */
  predicate FlushDefined(tick: nat, time: Uint64) {
    var sum := AsInt(time) + tick;
    sum <= INT_MAX && (sum >= 0 || sum % CAPACITY == 0)
  }

  function FlushSlot(tick: nat, time: Uint64): (s: nat)
    requires FlushDefined(tick, time)
    ensures s < CAPACITY
  {
    (AsInt(time) + tick) % CAPACITY
  }

  lemma SlotsAgree(tick: nat, delay: Delay)
    requires tick < CAPACITY
    ensures SetSlot(tick, delay) == SlotAt(tick, delay)
    ensures FlushDefined(tick, delay) && FlushSlot(tick, delay) == SlotAt(tick, delay)
  {
    assert AsInt(delay) == delay;
    assert (delay + tick) % 0x1_0000_0000_0000_0000 == delay + tick;
  }

  /** The upper half of a 64-bit number counts 16 slots a unit: 2 to the power of 32 is 16 modulo 60. */
  lemma WordsInSlots(high: nat, low: int)
    ensures (0x1_0000_0000 * high + low) % CAPACITY == (16 * high + low) % CAPACITY
  {
    assert 0x1_0000_0000 * high + low == CAPACITY * (71582788 * high) + (16 * high + low);
    ModuloSum(71582788 * high, 16 * high + low);
  }

  lemma ModuloSum(k: int, r: int)
    ensures (CAPACITY * k + r) % CAPACITY == r % CAPACITY
  {
  }

  /** The slot of a delay that is no int: its two halves count as slots, and a sum beyond 64 bits loses 16 of them. */
  lemma SetSlotIs(tick: nat, high: nat, low: nat)
    requires tick < CAPACITY && high < 0x1_0000_0000 && low < 0x1_0000_0000
    ensures var time := 0x1_0000_0000 * high + low;
            && time < 0x1_0000_0000_0000_0000
            && SetSlot(tick, time) ==
               (16 * high + low + tick - if time + tick < 0x1_0000_0000_0000_0000 then 0 else 16) % CAPACITY
  {
    var time := 0x1_0000_0000 * high + low;
    if time + tick < 0x1_0000_0000_0000_0000 {
      WordsInSlots(high, low + tick);
    } else {
      assert (time + tick) % 0x1_0000_0000_0000_0000 == time + tick - 0x1_0000_0000_0000_0000;
      WordsInSlots(high, low + tick - 0x1_0000_0000_0000_0000);
      assert 0x1_0000_0000_0000_0000 == CAPACITY * 307445734561825860 + 16;
      ModuloSum(-307445734561825860, 16 * high + low + tick - 16);
    }
  }

  /**
   * The slot that flush computes with an int: the upper half is lost, and a lower half beyond an int is negative; with
   * these halves it is defined where the sum is an int and, if negative, a multiple of 60.
   */
  lemma FlushSlotIs(tick: nat, high: nat, low: nat)
    requires tick < CAPACITY && high < 0x1_0000_0000 && low < 0x1_0000_0000
    ensures var time := 0x1_0000_0000 * high + low;
            && time < 0x1_0000_0000_0000_0000
            && (FlushDefined(tick, time) <==>
                  if low < 0x8000_0000 then low + tick < 0x8000_0000
                  else low + tick >= 0x1_0000_0000 || (low + tick - 16) % CAPACITY == 0)
            && (FlushDefined(tick, time) ==>
                  FlushSlot(tick, time) == (low + tick - if low < 0x8000_0000 then 0 else 16) % CAPACITY)
  {
    LowHalf(high, low);
    assert low + tick - 0x1_0000_0000 == CAPACITY * -71582788 + (low + tick - 16);
    ModuloSum(-71582788, low + tick - 16);
  }

  lemma LowHalf(high: nat, low: nat)
    requires low < 0x1_0000_0000
    ensures (0x1_0000_0000 * high + low) % 0x1_0000_0000 == low
  {
  }

  /** One more reference to `h`, at the end of slot `pos`. */
  function Push(w: Wheel, pos: nat, h: Handle): Wheel
    requires pos < |w.slots| && h in w.heap
  {
    var t := w.heap[h];
    w.(slots := w.slots[pos := w.slots[pos] + [h]], heap := w.heap[h := t.(refs := t.refs + 1)])
  }

  /** set_time_task: an entry that already has this id is overwritten. */
  function SetTask(w: Wheel, id: Id, delay: Uint64): Wheel
    requires |w.slots| == CAPACITY
  {
    var made := w.(heap := w.heap[w.next := Task(id, delay, false, 0)], timers := w.timers[id := w.next],
                   next := w.next + 1);
    Push(made, SetSlot(w.tick, delay), w.next)
  }

  /** flush_time_task; where it is undefined in the source, nothing is said by leaving the wheel as it is. */
  function FlushTask(w: Wheel, id: Id): Wheel
    requires Sound(w)
  {
    if id !in w.timers then w
    else
      var h := w.timers[id];
      if FlushDefined(w.tick, w.heap[h].delay) then Push(w, FlushSlot(w.tick, w.heap[h].delay), h) else w
  }

  /** remove_time_task only marks the task. */
  function CancelTask(w: Wheel, id: Id): Wheel {
    if id in w.timers && w.timers[id] in w.heap then
      var h := w.timers[id];
      w.(heap := w.heap[h := w.heap[h].(canceled := true)])
    else w
  }

  /** One reference to `h` goes; with the last one the task is destroyed, which runs it unless cancelled. */
  function Unref(w: Wheel, h: Handle): Wheel
    requires h in w.heap && w.heap[h].refs > 0
  {
    var t := w.heap[h];
    if t.refs > 1 then w.(heap := w.heap[h := t.(refs := t.refs - 1)])
    else
      w.(log := w.log + (if t.canceled then [] else [Firing(w.now, t.id)]),
         timers := w.timers - {t.id},
         heap := w.heap - {h})
  }

  /** The first reference in the current slot goes. */
  function DropFirst(w: Wheel): Wheel
    requires w.tick < |w.slots| && w.slots[w.tick] != []
    requires w.slots[w.tick][0] in w.heap && w.heap[w.slots[w.tick][0]].refs > 0
  {
    Unref(w.(slots := w.slots[w.tick := w.slots[w.tick][1..]]), w.slots[w.tick][0])
  }

  /** Destroying the current slot's references, in order. */
  function Drain(w: Wheel): (v: Wheel)
    requires Sound(w)
    decreases if w.tick < |w.slots| then |w.slots[w.tick]| else 0
  {
    if w.slots[w.tick] == [] then w
    else
      DropIsPossible(w);
      DropSound(w);
      Drain(DropFirst(w))
  }

  /** run_timer */
  function RunTimer(w: Wheel): Wheel
    requires Sound(w)
  {
    Drain(Advance(w))
  }

  function Advance(w: Wheel): (v: Wheel)
    requires Sound(w)
    ensures Sound(v)
  {
    w.(now := w.now + 1, tick := (w.tick + 1) % CAPACITY)
  }

  // ---- what they keep ----

  lemma InSlot(w: Wheel, pos: nat, h: Handle)
    requires Sound(w) && pos < CAPACITY && h in w.slots[pos]
    ensures h in w.heap
  {
    AllHas(w.slots, h);
  }

  lemma DropIsPossible(w: Wheel)
    requires Sound(w) && w.slots[w.tick] != []
    ensures w.slots[w.tick][0] in w.heap && w.heap[w.slots[w.tick][0]].refs > 0
  {
    InSlot(w, w.tick, w.slots[w.tick][0]);
  }

  lemma SlotAppend(slots: seq<seq<Handle>>, pos: nat, h: Handle)
    requires pos < |slots|
    ensures All(slots[pos := slots[pos] + [h]]) == All(slots) + multiset{h}
  {
    AllUpdate(slots, pos, slots[pos] + [h]);
    assert multiset(slots[pos] + [h]) == multiset(slots[pos]) + multiset{h};
    hide All;
  }

  lemma SlotDropFirst(slots: seq<seq<Handle>>, pos: nat)
    requires pos < |slots| && slots[pos] != []
    ensures slots[pos][0] in All(slots)
    ensures All(slots[pos := slots[pos][1..]]) == All(slots) - multiset{slots[pos][0]}
  {
    var s := slots[pos];
    AllUpdate(slots, pos, s[1..]);
    assert multiset(s) == multiset{s[0]} + multiset(s[1..]) by {
      assert s == [s[0]] + s[1..];
    }
    hide All;
  }

  lemma PushCounts(w: Wheel, pos: nat, h: Handle, all: multiset<Handle>)
    requires Counts(w, all) && h in w.heap && pos < |w.slots|
    ensures Counts(Push(w, pos, h), all + multiset{h})
  {
  }

  lemma SetCounts(w: Wheel, id: Id, delay: Uint64, all: multiset<Handle>)
    requires Counts(w, all) && |w.slots| == CAPACITY
    ensures Counts(SetTask(w, id, delay), all + multiset{w.next})
  {
    assert w.next !in w.heap && w.next !in all;
    var v := SetTask(w, id, delay);
    assert v.heap == w.heap[w.next := Task(id, delay, false, 1)];
    hide SetTask;
  }

  lemma PushSound(w: Wheel, pos: nat, h: Handle)
    requires Sound(w) && pos < CAPACITY && h in w.heap
    ensures Sound(Push(w, pos, h))
  {
    SlotAppend(w.slots, pos, h);
    PushCounts(w, pos, h, All(w.slots));
    hide All, Counts;
  }

  lemma SetLockable(w: Wheel, id: Id, delay: Uint64)
    requires Lockable(w) && |w.slots| == CAPACITY && w.next !in w.heap
    ensures Lockable(SetTask(w, id, delay))
  {
    var v := SetTask(w, id, delay);
    assert v.heap == w.heap[w.next := Task(id, delay, false, 1)] && v.timers == w.timers[id := w.next];
    hide SetTask;
  }

  lemma SetSound(w: Wheel, id: Id, delay: Uint64)
    requires Sound(w)
    ensures Sound(SetTask(w, id, delay))
  {
    assert w.next !in w.heap;
    var pos := SetSlot(w.tick, delay);
    SlotAppend(w.slots, pos, w.next);
    SetCounts(w, id, delay, All(w.slots));
    SetLockable(w, id, delay);
    var v := SetTask(w, id, delay);
    assert v.slots == w.slots[pos := w.slots[pos] + [w.next]] && v.tick == w.tick && v.now == w.now;
    hide All, Counts, Lockable, SetTask;
  }

  lemma UnrefCounts(w: Wheel, h: Handle, all: multiset<Handle>)
    requires Counts(w, all) && h in w.heap
    ensures Counts(Unref(w, h), all - multiset{h})
  {
  }

  lemma UnrefLockable(w: Wheel, h: Handle)
    requires Lockable(w) && h in w.heap && w.heap[h].refs > 0
    ensures Lockable(Unref(w, h))
  {
  }

  lemma DropSound(w: Wheel)
    requires Sound(w) && w.slots[w.tick] != []
    requires w.slots[w.tick][0] in w.heap && w.heap[w.slots[w.tick][0]].refs > 0
    ensures Sound(DropFirst(w))
  {
    var h := w.slots[w.tick][0];
    var v := w.(slots := w.slots[w.tick := w.slots[w.tick][1..]]);
    SlotDropFirst(w.slots, w.tick);
    UnrefCounts(v, h, All(w.slots));
    UnrefLockable(v, h);
    hide All, Counts, Lockable;
  }

  lemma DropShrinks(w: Wheel)
    requires w.tick < |w.slots| && w.slots[w.tick] != []
    requires w.slots[w.tick][0] in w.heap && w.heap[w.slots[w.tick][0]].refs > 0
    ensures var v := DropFirst(w);
            && v.tick == w.tick && |v.slots| == |w.slots| && |v.slots[v.tick]| == |w.slots[w.tick]| - 1
  {
  }

  lemma CancelSound(w: Wheel, id: Id)
    requires Sound(w)
    ensures Sound(CancelTask(w, id))
  {
    hide All;
  }

  lemma {:induction false} NoReferences(n: nat)
    ensures All(NoTasks(n)) == multiset{}
  {
    if n != 0 {
      NoReferences(n - 1);
      assert NoTasks(n)[1..] == NoTasks(n - 1);
    }
  }

  lemma StartSound()
    ensures Sound(START)
  {
    NoReferences(CAPACITY);
    hide NoTasks, All;
  }
}
