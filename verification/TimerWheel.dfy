/** The timing wheel as the object whose slots, index and current tick the loop thread updates. */
module TimerWheel {
  import opened WheelModel
  import Deadlines
  import TimerRuns

  lemma Tracked(w: Wheel, id: Id)
    requires Sound(w) && id in w.timers
    ensures w.timers[id] in w.heap && |w.slots| == CAPACITY
  {
    hide All, Counts;
  }

  class TimeTaskWheel {
    var tick: nat
    var slots: seq<seq<Handle>>
    var timers: map<Id, Handle>
    var heap: map<Handle, Task>
    var next: Handle
    ghost var now: nat
    ghost var log: seq<Firing>

    ghost function View(): Wheel
      reads this
    {
      Wheel(now, tick, slots, timers, heap, next, log)
    }

    ghost predicate Valid()
      reads this
    {
      Sound(View())
    }

    constructor ()
      ensures Valid() && View() == START
    {
      tick, slots, timers, heap, next, now, log := 0, NoTasks(CAPACITY), map[], map[], 0, 0, [];
      new;
      StartSound();
    }

    /** Another shared pointer to `h`, at the end of slot `pos`. */
    method PushBack(pos: nat, h: Handle)
      requires pos < |slots| && h in heap
      modifies this
      ensures View() == Push(old(View()), pos, h)
    {
      slots := slots[pos := slots[pos] + [h]];
      heap := heap[h := heap[h].(refs := heap[h].refs + 1)];
    }

    method SetTimeTask(id: Id, time: Uint64)
      requires Valid()
      modifies this
      ensures Valid() && View() == SetTask(old(View()), id, time)
    {
      hide Sound, Push;
      ghost var w := View();
      SetSound(w, id, time);
      Deadlines.SoundShape(w);
      var h := next;
      next := next + 1;
      heap := heap[h := Task(id, time, false, 0)];
      timers := timers[id := h];
      PushBack(SetSlot(tick, time), h);
    }

    /** Outside this precondition the source's int sum overflows, or the index it gives is none. */
    method FlushTimeTask(id: Id)
      requires Valid()
      requires id in timers && timers[id] in heap ==> FlushDefined(tick, heap[timers[id]].delay)
      modifies this
      ensures Valid() && View() == FlushTask(old(View()), id)
    {
      hide Sound, Push, FlushDefined, FlushSlot;
      Deadlines.FlushSound(View(), id);
      if id in timers {
        Tracked(View(), id);
        var h := timers[id];
        var time := heap[h].delay;
        PushBack(FlushSlot(tick, time), h);
      }
    }

    method RemoveTimeTask(id: Id)
      requires Valid()
      modifies this
      ensures Valid() && View() == CancelTask(old(View()), id)
    {
      CancelSound(View(), id);
      if id in timers {
        var h := timers[id];
        heap := heap[h := heap[h].(canceled := true)];
      }
    }

    /** The task's callback, which the wheel only counts. */
    method Callback(id: Id)
      modifies this`log
      ensures log == old(log) + [Firing(now, id)]
    {
      log := log + [Firing(now, id)];
    }

    /** Excutetimer */
    method ExecuteTimer(id: Id)
      modifies this`timers
      ensures timers == old(timers) - {id}
    {
      if id in timers {
        timers := timers - {id};
      }
    }

    /** A shared pointer to `h` is destroyed, and with the last one the task. */
    method ReleaseRef(h: Handle)
      requires h in heap && heap[h].refs > 0
      modifies this
      ensures View() == Unref(old(View()), h)
    {
      var task := heap[h];
      if task.refs > 1 {
        heap := heap[h := task.(refs := task.refs - 1)];
      } else {
        if !task.canceled {
          Callback(task.id);
        }
        ExecuteTimer(task.id);
        heap := heap - {h};
      }
    }

    /** One element of the current slot is destroyed. */
    method DestroyFirst()
      requires Valid() && tick < |slots| && slots[tick] != []
      requires slots[tick][0] in heap && heap[slots[tick][0]].refs > 0
      modifies this
      ensures Valid() && View() == DropFirst(old(View()))
    {
      hide Sound, Unref;
      DropSound(View());
      var h := slots[tick][0];
      slots := slots[tick := slots[tick][1..]];
      ReleaseRef(h);
    }

    method RunTimer()
      requires Valid()
      modifies this
      ensures Valid() && View() == WheelModel.RunTimer(old(View()))
    {
      hide Sound, DropFirst;
      Deadlines.SoundShape(View());
      ghost var start := Advance(View());
      tick := (tick + 1) % CAPACITY;
      now := now + 1;
      while slots[tick] != []
        invariant tick < |slots| && Valid() && Drain(View()) == Drain(start)
        decreases |slots[tick]|
      {
        DropIsPossible(View());
        DropShrinks(View());
        DestroyFirst();
      }
    }

    method HasTimer(id: Id) returns (found: bool)
      requires Valid()
      ensures found <==> id in timers
      ensures Owned(View()) ==>
              (found <==> exists s: nat, h: Handle :: s < CAPACITY && h in slots[s] && h in heap && heap[h].id == id)
    {
      found := id in timers;
      if Owned(View()) {
        TimerRuns.IndexIff(View(), id);
      }
    }
  }
}
