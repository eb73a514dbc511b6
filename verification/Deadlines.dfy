/** When the last reference to a task goes, and with it the task: its deadline, whatever else the wheel holds. */
module Deadlines {
  import opened WheelModel

  /** A delay as the wheel keeps it: modulo its capacity, where 0 is a full round. */
  function Effective(delay: nat): (e: nat)
    ensures 1 <= e <= CAPACITY
    ensures 1 <= delay <= CAPACITY ==> e == delay
    ensures e % CAPACITY == delay % CAPACITY
  {
    if delay % CAPACITY == 0 then CAPACITY else delay % CAPACITY
  }

  datatype Entry = Entry(due: nat, delay: Delay, canceled: bool)

  /** Slots from the current one (`lo` = 0) or the next one (`lo` = 1) to the current one again. */
  function Gap(tick: nat, s: nat, lo: nat): int {
    if s - tick >= lo then s - tick else s - tick + CAPACITY
  }

  lemma GapOfSlot(tick: nat, k: nat, lo: nat)
    requires tick < CAPACITY && lo <= 1 && lo <= k < lo + CAPACITY
    ensures Gap(tick, SlotAt(tick, k), lo) == k
  {
  }

  /** The task's last reference dies exactly at its deadline. */
  predicate Tracks(w: Wheel, h: Handle, e: Entry, lo: nat) {
    && h in w.heap && w.heap[h].delay == e.delay && w.heap[h].canceled == e.canceled
    && w.now + lo <= e.due < w.now + lo + CAPACITY && e.due <= w.now + Effective(e.delay)
    && |w.slots| == CAPACITY && h in w.slots[SlotAt(w.tick, e.due - w.now)]
    && forall s: nat | s < CAPACITY && h in w.slots[s] :: Gap(w.tick, s, lo) <= e.due - w.now
  }

  lemma TrackedEntry(w: Wheel, h: Handle, e: Entry, lo: nat)
    requires Tracks(w, h, e, lo)
    ensures h in w.heap && w.heap[h].delay == e.delay && w.heap[h].canceled == e.canceled
  {
  }

  lemma TrackedGaps(w: Wheel, h: Handle, e: Entry)
    requires Tracks(w, h, e, 1)
    ensures |w.slots| == CAPACITY
    ensures forall s: nat | s < CAPACITY && h in w.slots[s] :: Gap(w.tick, s, 1) <= Effective(w.heap[h].delay)
  {
  }

  lemma SoundShape(w: Wheel)
    requires Sound(w)
    ensures |w.slots| == CAPACITY && w.tick < CAPACITY
  {
  }

  lemma NextUnused(w: Wheel)
    requires Sound(w)
    ensures w.next !in w.heap && forall s: nat | s < CAPACITY :: w.next !in w.slots[s]
    ensures forall i | i in w.timers :: w.timers[i] in w.heap && w.timers[i] != w.next
  {
    forall s: nat | s < CAPACITY ensures w.next !in w.slots[s] {
      if w.next in w.slots[s] {
        InSlot(w, s, w.next);
        assert false;
      }
    }
  }

  // ---- set, flush, cancel ----

  lemma SlotOfDelay(tick: nat, delay: nat)
    requires tick < CAPACITY
    ensures SlotAt(tick, delay) == SlotAt(tick, Effective(delay))
  {
    var q, r := delay / CAPACITY, delay % CAPACITY;
    assert delay + tick == CAPACITY * q + (r + tick);
    hide Effective;
    if r + tick < CAPACITY {
      assert (delay + tick) / CAPACITY == q;
    } else {
      assert (delay + tick) / CAPACITY == q + 1;
    }
  }

  /** Appending to one slot adds that reference there and nothing else. */
  lemma AppendedSlots(slots: seq<seq<Handle>>, pos: nat, h: Handle)
    requires pos < |slots|
    ensures var after := slots[pos := slots[pos] + [h]];
            && h in after[pos]
            && forall s: nat, g | s < |slots| && (g != h || s != pos) :: g in after[s] <==> g in slots[s]
  {
  }

  /** A task that is not the one pushed is tracked as before. */
  lemma TracksOther(w: Wheel, v: Wheel, pos: nat, h: Handle, g: Handle, e: Entry)
    requires Tracks(w, g, e, 1) && pos < |w.slots| && g != h
    requires v.slots == w.slots[pos := w.slots[pos] + [h]] && v.now == w.now && v.tick == w.tick
    requires g in v.heap && v.heap[g] == w.heap[g]
    ensures Tracks(v, g, e, 1)
  {
    AppendedSlots(w.slots, pos, h);
    hide Gap, SlotAt, Effective;
  }

  /** A task pushed at its full delay is due after that delay. */
  lemma TracksPushed(w: Wheel, v: Wheel, pos: nat, h: Handle, t: Task)
    requires |w.slots| == CAPACITY && w.tick < CAPACITY && pos == SlotAt(w.tick, Effective(t.delay))
    requires forall s: nat | s < CAPACITY && h in w.slots[s] :: Gap(w.tick, s, 1) <= Effective(t.delay)
    requires v.slots == w.slots[pos := w.slots[pos] + [h]] && v.now == w.now && v.tick == w.tick
    requires h in v.heap && v.heap[h].delay == t.delay && v.heap[h].canceled == t.canceled && Ordinary(t.delay)
    ensures Tracks(v, h, Entry(w.now + Effective(t.delay), t.delay, t.canceled), 1)
  {
    AppendedSlots(w.slots, pos, h);
    GapOfSlot(w.tick, Effective(t.delay), 1);
    hide Gap, SlotAt, Effective;
  }

  /** `v` is `w` after task `h`, now `t`, was pushed at its full delay and tracked under `id`. */
  predicate Pushed(w: Wheel, v: Wheel, h: Handle, id: Id, t: Task) {
    && |w.slots| == CAPACITY && w.tick < CAPACITY && v.now == w.now && v.tick == w.tick && v.log == w.log
    && v.slots == PushedSlots(w.slots, SlotAt(w.tick, t.delay), h)
    && v.heap == w.heap[h := t] && v.timers == w.timers[id := h]
  }

  function PushedSlots(slots: seq<seq<Handle>>, pos: nat, h: Handle): seq<seq<Handle>>
    requires pos < |slots|
  {
    slots[pos := slots[pos] + [h]]
  }

  lemma SetShape(w: Wheel, id: Id, delay: Delay)
    requires |w.slots| == CAPACITY && w.tick < CAPACITY
    ensures Pushed(w, SetTask(w, id, delay), w.next, id, Task(id, delay, false, 1))
  {
    SlotsAgree(w.tick, delay);
    hide SetSlot, SlotAt;
  }

  lemma FlushShape(w: Wheel, id: Id)
    requires Sound(w) && id in w.timers && w.timers[id] in w.heap && Ordinary(w.heap[w.timers[id]].delay)
    ensures FlushDefined(w.tick, w.heap[w.timers[id]].delay)
    ensures var t := w.heap[w.timers[id]];
            Pushed(w, FlushTask(w, id), w.timers[id], id, t.(refs := t.refs + 1))
  {
    SlotsAgree(w.tick, w.heap[w.timers[id]].delay);
    assert w.timers == w.timers[id := w.timers[id]];
    hide All, Counts, SlotAt, FlushSlot, FlushDefined;
  }

  lemma FlushSound(w: Wheel, id: Id)
    requires Sound(w)
    ensures Sound(FlushTask(w, id))
  {
    if id in w.timers {
      var h := w.timers[id];
      assert h in w.heap && |w.slots| == CAPACITY;
      if FlushDefined(w.tick, w.heap[h].delay) {
        var pos := FlushSlot(w.tick, w.heap[h].delay);
        assert FlushTask(w, id) == Push(w, pos, h);
        hide Sound, FlushTask, Push;
        PushSound(w, pos, h);
      }
    }
  }

  /** A task that stays in its slots keeps its deadline; its flag may change. */
  lemma TracksFlag(w: Wheel, v: Wheel, h: Handle, e: Entry, f: Entry)
    requires Tracks(w, h, e, 1)
    requires v.slots == w.slots && v.now == w.now && v.tick == w.tick
    requires h in v.heap && v.heap[h].delay == w.heap[h].delay && v.heap[h].canceled == f.canceled
    requires f.due == e.due && f.delay == e.delay
    ensures Tracks(v, h, f, 1)
  {
  }

  // ---- tick ----

  lemma NextSlot(tick: nat, k: nat, s: nat)
    requires tick < CAPACITY && s < CAPACITY
    ensures SlotAt((tick + 1) % CAPACITY, k) == SlotAt(tick, k + 1)
    ensures Gap((tick + 1) % CAPACITY, s, 0) == Gap(tick, s, 1) - 1
  {
    if tick == CAPACITY - 1 {
      assert k + 1 + tick == k + CAPACITY;
    }
  }

  lemma TracksAdvanced(w: Wheel, h: Handle, e: Entry)
    requires Sound(w) && Tracks(w, h, e, 1)
    ensures Tracks(Advance(w), h, e, 0)
  {
    hide Sound, SlotAt, Gap, Effective;
    var v := Advance(w);
    SoundShape(w);
    NextSlot(w.tick, e.due - v.now, 0);
    forall s: nat | s < CAPACITY && h in v.slots[s] ensures Gap(v.tick, s, 0) <= e.due - v.now {
      NextSlot(w.tick, 0, s);
    }
  }

  /** When the current slot is empty, nothing is due now. */
  lemma TracksNext(w: Wheel, h: Handle, e: Entry)
    requires w.tick < |w.slots| && w.slots[w.tick] == [] && Tracks(w, h, e, 0)
    ensures e.due != w.now && Tracks(w, h, e, 1)
  {
  }

  // ---- one reference of the current slot goes ----

  lemma {:induction false} OnlySlot(slots: seq<seq<Handle>>, i: nat, h: Handle)
    requires i < |slots| && forall s: nat | s < |slots| && h in slots[s] :: s == i
    ensures All(slots)[h] == multiset(slots[i])[h]
  {
    if i == 0 {
      AllHas(slots[1..], h);
      assert h !in All(slots[1..]) by {
        forall j: nat | j < |slots[1..]| ensures h !in slots[1..][j] {
          assert slots[1..][j] == slots[j + 1];
        }
      }
    } else {
      assert h !in slots[0];
      forall s: nat | s < |slots[1..]| && h in slots[1..][s] ensures s == i - 1 {
        assert h in slots[s + 1];
      }
      OnlySlot(slots[1..], i - 1, h);
    }
  }

  lemma TwoSlots(slots: seq<seq<Handle>>, i: nat, j: nat, h: Handle)
    requires i < |slots| && j < |slots| && i != j && h in slots[i] && h in slots[j]
    ensures All(slots)[h] > 1
  {
    AllUpdate(slots, i, []);
    AllUpdate(slots[i := []], j, []);
    assert multiset(slots[i])[h] > 0 && multiset(slots[j])[h] > 0;
    hide All;
  }

  /** What is left of the slots when the first reference of slot `pos` is gone. */
  function Popped(slots: seq<seq<Handle>>, pos: nat): seq<seq<Handle>>
    requires pos < |slots| && slots[pos] != []
  {
    slots[pos := slots[pos][1..]]
  }

  lemma PoppedOthers(slots: seq<seq<Handle>>, pos: nat)
    requires pos < |slots| && slots[pos] != []
    ensures forall s: nat, g | s < |slots| && (g != slots[pos][0] || s != pos) ::
              g in Popped(slots, pos)[s] <==> g in slots[s]
    ensures forall s: nat, g | s < |slots| && g in Popped(slots, pos)[s] :: g in slots[s]
  {
    assert slots[pos] == [slots[pos][0]] + slots[pos][1..];
  }

  lemma TracksUnpopped(w: Wheel, v: Wheel, g: Handle, e: Entry)
    requires Tracks(w, g, e, 0) && w.tick < |w.slots| && w.slots[w.tick] != [] && g != w.slots[w.tick][0]
    requires v.slots == Popped(w.slots, w.tick) && v.now == w.now && v.tick == w.tick
    requires g in v.heap && v.heap[g] == w.heap[g]
    ensures Tracks(v, g, e, 0)
  {
    hide Gap, SlotAt, Effective;
    PoppedOthers(w.slots, w.tick);
  }

  /** With more than one reference left, the last one is still to come where it was. */
  lemma StillThere(w: Wheel, h: Handle, e: Entry)
    requires Tracks(w, h, e, 0) && w.tick < |w.slots| && w.slots[w.tick] != [] && h == w.slots[w.tick][0]
    requires All(w.slots)[h] > 1
    ensures h in Popped(w.slots, w.tick)[SlotAt(w.tick, e.due - w.now)]
  {
    hide All;
    var s := SlotAt(w.tick, e.due - w.now);
    if s == w.tick {
      assert e.due == w.now;
      OnlySlot(w.slots, w.tick, h);
      var slot := w.slots[w.tick];
      assert slot == [slot[0]] + slot[1..];
      assert multiset(slot)[h] == 1 + multiset(slot[1..])[h];
    }
  }

  lemma TracksPopped(w: Wheel, v: Wheel, h: Handle, e: Entry)
    requires Tracks(w, h, e, 0) && w.tick < |w.slots| && w.slots[w.tick] != [] && h == w.slots[w.tick][0]
    requires All(w.slots)[h] > 1
    requires v.slots == Popped(w.slots, w.tick) && v.now == w.now && v.tick == w.tick
    requires h in v.heap && v.heap[h].delay == w.heap[h].delay && v.heap[h].canceled == w.heap[h].canceled
    ensures Tracks(v, h, e, 0)
  {
    hide All, Gap, SlotAt, Effective;
    StillThere(w, h, e);
    PoppedOthers(w.slots, w.tick);
  }

  /** The last reference of a task is dropped at its deadline. */
  lemma LastIsDue(w: Wheel, h: Handle, e: Entry)
    requires Tracks(w, h, e, 0) && w.tick < |w.slots| && w.slots[w.tick] != [] && h == w.slots[w.tick][0]
    requires All(w.slots)[h] == 1
    ensures e.due == w.now
  {
    hide All, Effective;
    var s := SlotAt(w.tick, e.due - w.now);
    if s != w.tick {
      TwoSlots(w.slots, s, w.tick, h);
    }
  }
}
