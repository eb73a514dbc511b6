/** Enabling a timeout while its timer is still pending: several tasks under one id. */
module Reenabling {
  import opened WheelModel
  import opened Deadlines
  import opened TimerRuns
  import opened TaskTable
  import opened TaskFates
  import opened TimerContracts
  import opened IdleTimeout

  // ---- what is lost with the index entry ----

  /** The operations that are not about this id. */
  function Without(ops: seq<Op>, id: Id): seq<Op>
    decreases |ops|
  {
    if ops == [] then []
    else (if ops[0].Tick? || ops[0].id != id then [ops[0]] else []) + Without(ops[1..], id)
  }

  lemma {:induction false} DrainForgets(w: Wheel, id: Id)
    requires Sound(w) && id !in w.timers
    ensures id !in Drain(w).timers
    decreases if w.tick < |w.slots| then |w.slots[w.tick]| else 0
  {
    hide Counts, All, Lockable;
    if w.slots[w.tick] != [] {
      DropIsPossible(w);
      DropSound(w);
      DropShrinks(w);
      DrainForgets(DropFirst(w), id);
    }
  }

  lemma NotBack(w: Wheel, op: Op, id: Id)
    requires Sound(w) && id !in w.timers && (op.Set? ==> op.id != id)
    ensures id !in Step(w, op).timers
    ensures !op.Tick? && op.id == id ==> Step(w, op) == w
  {
    hide Counts, All, Lockable, SetSlot, FlushSlot, FlushDefined;
    if op.Tick? {
      DrainForgets(Advance(w), id);
    }
  }

  /** Once an id has left the index, flushing or cancelling it has no effect at all. */
  lemma {:induction false} OutOfReach(w: Wheel, ops: seq<Op>, id: Id)
    requires Sound(w) && id !in w.timers && NeverSet(ops, id)
    ensures Run(w, ops) == Run(w, Without(ops, id))
    decreases |ops|
  {
    hide Sound, Step;
    if ops != [] {
      var op, rest := ops[0], ops[1..];
      assert op in ops && forall o | o in rest :: o in ops;
      StepSound(w, op);
      NotBack(w, op, id);
      OutOfReach(Step(w, op), rest, id);
      if op.Tick? || op.id != id {
        RunFirst(w, op, Without(rest, id));
      } else {
        assert [] + Without(rest, id) == Without(rest, id);
      }
    }
  }

  /**
   * So from then on, in any state of any run, events and cancels change nothing for the tasks of the id that still
   * live: each runs at the deadline it has, unless it was cancelled, and the id stays out of the index.
   */
  lemma RenewalLost(w: Wheel, b: Table, id: Id, ops: seq<Op>, t: nat)
    requires Recorded(w, b, 1) && id !in w.timers && NeverSet(ops, id)
    ensures Sound(w)
    ensures var v := Run(w, ops);
            && v == Run(w, Without(ops, id)) && v.now == w.now + Ticks(ops) && id !in v.timers
            && Ran(v, t, id) == Ran(w, t, id) + |Ends(b, Pending(b, id), t, v.now)|
  {
    hide Recorded, Sound, NeverSet, Run, Ticks, Ran, Fate, Ends, Without;
    IdContract(w, b, id, ops, t);
    OutOfReach(w, ops, id);
    assert Others(b, id) == Pending(b, id);
  }

  // ---- enabling a timeout ----

  /** EnableTimeoutDelInLoop on the wheel: a flush if HasTimer, then a new task all the same. */
  function Enabled(w: Wheel, id: Id, sec: Delay): (v: Wheel)
    requires Sound(w)
    ensures Sound(v)
  {
    FlushSound(w, id);
    SetSound(FlushTask(w, id), id, sec);
    SetTask(FlushTask(w, id), id, sec)
  }

  lemma EnabledIs(c: Timed, id: Id, sec: Delay)
    requires Sound(c.wheel)
    ensures Happens(c, id, EnableTimeout(sec)).wheel == Enabled(c.wheel, id, sec)
  {
    var w := c.wheel;
    hide Sound, SetTask;
    FlushSound(w, id);
    RunFirst(FlushTask(w, id), Set(id, sec), []);
    var sets: seq<Op> := [Set(id, sec)];
    assert sets + [] == sets;
    assert [] + sets == sets;
    if id in w.timers {
      RunFirst(w, Flush(id), sets);
    }
  }

  /** The live tasks of this id. */
  function Pending(b: Table, id: Id): set<Handle> {
    set h | h in b.jobs && b.jobs[h].id == id && b.now < b.jobs[h].entry.due
  }

  /** The table after it. */
  function Again(b: Table, id: Id, sec: Delay): Table {
    Made(Touched(b, Flush(id)), id, sec)
  }

  lemma AgainRecorded(c: Timed, b: Table, id: Id, sec: Delay)
    requires Recorded(c.wheel, b, 1)
    ensures Sound(c.wheel) && Recorded(Happens(c, id, EnableTimeout(sec)).wheel, Again(b, id, sec), 1)
  {
    RecordedSound(c.wheel, b);
    hide Recorded, Sound, SetTask, FlushTask, Made, Touched, Happens;
    EnabledIs(c, id, sec);
    FlushRecorded(c.wheel, b, id);
    SetRecorded(FlushTask(c.wheel, id), Touched(b, Flush(id)), id, sec);
  }

  lemma RecordedFlush(w: Wheel, b: Table, id: Id)
    requires Recorded(w, b, 1)
    ensures Kept(Touched(b, Flush(id))) && Kept(b)
  {
    hide Recorded;
    RecordedKept(w, b);
    StepKept(b, Flush(id));
  }

  /** The tasks that the new one pushes out of the index are all that were pending. */
  lemma AllPushedOut(b: Table, id: Id, sec: Delay)
    requires Kept(b)
    ensures var c := Made(b, id, sec);
            && Others(c, id) == Pending(b, id) && Dues(c, Others(c, id)) == Dues(b, Pending(b, id))
            && id in c.index && c.index[id] in c.jobs && c.now == b.now
            && c.jobs[c.index[id]].entry == Entry(b.now + Effective(sec), sec, false)
            && forall t: nat, now: nat :: Ends(c, Others(c, id), t, now) == Ends(b, Pending(b, id), t, now)
  {
    hide Effective;
  }

  /** Which are all live tasks of the id, the one in the index due its delay from now, the others when they were due. */
  lemma PendingIs(w: Wheel, b: Table, id: Id)
    requires Recorded(w, b, 1)
    ensures var d := Touched(b, Flush(id));
            && (forall h :: h in Pending(d, id) <==> h in w.heap && w.heap[h].id == id)
            && (forall h | h in Pending(d, id) ::
                  && h in b.jobs && h in d.jobs && d.jobs[h].entry.canceled == w.heap[h].canceled
                  && d.jobs[h].entry.due == if id in w.timers && w.timers[id] == h
                                            then w.now + Effective(w.heap[h].delay) else b.jobs[h].entry.due)
  {
    hide Recorded, Sound, Kept, Touched, Effective, Ran, Callbacks;
    RecordedIs(w, b);
    RecordedKept(w, b);
    FlushedJobs(b, id);
    PendingIsLive(w, b, id);
  }

  lemma PendingIsLive(w: Wheel, b: Table, id: Id)
    requires Stands(w, b)
    ensures forall h :: h in Pending(b, id) <==> h in w.heap && w.heap[h].id == id
  {
  }

  lemma FlushedJobs(b: Table, id: Id)
    requires Kept(b)
    ensures var d := Touched(b, Flush(id));
            && Pending(d, id) == Pending(b, id) && d.jobs.Keys == b.jobs.Keys
            && forall h | h in b.jobs ::
                 && d.jobs[h].entry.canceled == b.jobs[h].entry.canceled
                 && d.jobs[h].entry.due == if id in b.index && b.index[id] == h
                                           then b.now + Effective(b.jobs[h].entry.delay) else b.jobs[h].entry.due
  {
    hide Effective;
  }

  /**
   * Enabling a timeout, in any state of any run, and then any flushes and cancels of it: the new task meets its fate,
   * each task that was pending runs at its time unless it was cancelled before, whatever is flushed and cancelled now,
   * and the id leaves the index with the first of them.
   */
  lemma EnableContract(c: Timed, b: Table, id: Id, sec: Delay, rest: seq<Op>, t: nat)
    requires Recorded(c.wheel, b, 1) && NeverSet(rest, id)
    ensures Sound(c.wheel)
    ensures var w, v, d := c.wheel, Run(Happens(c, id, EnableTimeout(sec)).wheel, rest), Touched(b, Flush(id));
            var dues := Dues(d, Pending(d, id));
            var f := Fate(w.now, Entry(w.now + Effective(sec), sec, false), dues, rest, id);
            && v.now == w.now + Ticks(rest)
            && (id in v.timers <==> v.now < f.due && forall due | due in dues :: v.now < due)
            && Ran(v, t, id) == Ran(w, t, id) + Adds(f, t, v.now) + |Ends(d, Pending(d, id), t, v.now)|
  {
    hide Recorded, Sound, Kept, NeverSet, Run, Ticks, Ran, Happens, Fate, Adds, Touched, Others, Dues, Ends, Effective;
    hide Made, Pending;
    AgainRecorded(c, b, id, sec);
    RecordedFlush(c.wheel, b, id);
    AllPushedOut(Touched(b, Flush(id)), id, sec);
    SameIndex(c.wheel, b);
    StepKept(b, Flush(id));
    FlushKeepsNow(b, id);
    EnableLogs(c, id, sec);
    IdContract(Happens(c, id, EnableTimeout(sec)).wheel, Again(b, id, sec), id, rest, t);
  }

  lemma FlushKeepsNow(b: Table, id: Id)
    ensures Touched(b, Flush(id)).now == b.now
  {
  }

  lemma EnableLogs(c: Timed, id: Id, sec: Delay)
    requires Sound(c.wheel)
    ensures forall t: nat :: Ran(Happens(c, id, EnableTimeout(sec)).wheel, t, id) == Ran(c.wheel, t, id)
  {
    hide Sound, SetTask, Happens;
    EnabledIs(c, id, sec);
    var u := FlushTask(c.wheel, id);
    FlushSound(c.wheel, id);
    SoundShape(u);
    SameLogs(u, SetTask(u, id, sec), id, sec);
    FlushLogs(c.wheel, id);
  }

  lemma FlushLogs(w: Wheel, id: Id)
    requires Sound(w)
    ensures FlushTask(w, id).log == w.log
  {
    hide Counts, All, FlushDefined, FlushSlot;
  }

  /**
   * Nothing done afterwards, no event, no DisableTimeout, no ReleaseInloop, and no timeout enabled yet again, can stop
   * or move a task that was pending when the timeout was enabled: it lives until its time and runs then.
   */
  lemma OldTimerRuns(c: Timed, b: Table, id: Id, sec: Delay, rest: seq<Op>, h: Handle)
    requires Recorded(c.wheel, b, 1) && h in c.wheel.heap && c.wheel.heap[h].id == id
    ensures Sound(c.wheel) && h in b.jobs
    ensures var w, v := c.wheel, Run(Happens(c, id, EnableTimeout(sec)).wheel, rest);
            var due := if id in w.timers && w.timers[id] == h
                       then w.now + Effective(w.heap[h].delay) else b.jobs[h].entry.due;
            && v.now == w.now + Ticks(rest) && w.now < due && (h in v.heap <==> v.now < due)
            && (h in v.heap ==> v.heap[h].canceled == w.heap[h].canceled)
            && (due <= v.now && !w.heap[h].canceled ==> Ran(v, due, id) >= 1)
  {
    hide Recorded, Sound, Kept, Run, Ticks, Ran, Happens, Touched, Others, Effective, Made, Pending, Lost, Stands;
    AgainRecorded(c, b, id, sec);
    var d, e, u := Touched(b, Flush(id)), Again(b, id, sec), Happens(c, id, EnableTimeout(sec)).wheel;
    RecordedFlush(c.wheel, b, id);
    PendingIs(c.wheel, b, id);
    AllPushedOut(d, id, sec);
    OtherIsLost(e, id, h);
    OldIs(d, id, sec, h);
    SameIndex(c.wheel, b);
    FlushKeepsNow(b, id);
    MadeIs(d, id, sec);
    RecordedIs(u, e);
    LiveIs(u, e, h);
    LostTaskRuns(u, e, rest, h);
  }

  lemma OldIs(d: Table, id: Id, sec: Delay, h: Handle)
    requires Kept(d) && h in Pending(d, id)
    ensures h in d.jobs && h in Made(d, id, sec).jobs && Made(d, id, sec).jobs[h] == d.jobs[h]
  {
  }

  lemma MadeIs(d: Table, id: Id, sec: Delay)
    ensures Made(d, id, sec).now == d.now
  {
  }

  lemma LiveIs(w: Wheel, b: Table, h: Handle)
    requires Stands(w, b) && h in b.jobs && b.now < b.jobs[h].entry.due
    ensures h in w.heap && w.now == b.now
    ensures w.heap[h].id == b.jobs[h].id && w.heap[h].canceled == b.jobs[h].entry.canceled
  {
  }

  /** Those that will run. */
  function Uncancelled(b: Table, hs: set<Handle>): set<Handle> {
    set h | h in hs && h in b.jobs && !b.jobs[h].entry.canceled
  }

  /** The callback runs once, at the new timer's deadline. */
  predicate Once(f: Entry, d: Table, tasks: set<Handle>) {
    var runs := Uncancelled(d, tasks);
    if f.canceled then |runs| == 1 && Dues(d, runs) == {f.due} else runs == {}
  }

  lemma OnceEnds(f: Entry, d: Table, tasks: set<Handle>, t: nat, now: nat)
    requires Once(f, d, tasks) && f.due <= now
    ensures Adds(f, t, now) + |Ends(d, tasks, t, now)| == if t == f.due then 1 else 0
  {
    var runs := Uncancelled(d, tasks);
    if f.canceled {
      forall h | h in runs ensures d.jobs[h].entry.due == f.due {
        assert d.jobs[h].entry.due in Dues(d, runs);
      }
      assert Ends(d, tasks, t, now) == if t == f.due then runs else {};
    } else {
      forall h ensures h !in Ends(d, tasks, t, now) {
        assert h !in runs;
      }
      assert Ends(d, tasks, t, now) == {};
    }
  }

  lemma EndsOnce(f: Entry, d: Table, tasks: set<Handle>, now: nat)
    requires f.due <= now && forall h | h in tasks && h in d.jobs :: d.jobs[h].entry.due <= now
    requires forall t: nat :: Adds(f, t, now) + |Ends(d, tasks, t, now)| == if t == f.due then 1 else 0
    ensures Once(f, d, tasks)
  {
    var runs := Uncancelled(d, tasks);
    forall h | h in runs ensures f.canceled && d.jobs[h].entry.due == f.due {
      var t := d.jobs[h].entry.due;
      assert h in Ends(d, tasks, t, now);
      assert Adds(f, t, now) + |Ends(d, tasks, t, now)| == if t == f.due then 1 else 0;
    }
    assert Adds(f, f.due, now) + |Ends(d, tasks, f.due, now)| == 1;
    if f.canceled {
      assert Ends(d, tasks, f.due, now) == runs;
      if h :| h in runs {
        assert Dues(d, runs) == {f.due};
      }
    }
  }

  lemma OnceIff(f: Entry, d: Table, tasks: set<Handle>, now: nat)
    requires f.due <= now && forall due | due in Dues(d, tasks) :: due <= now
    ensures (forall t: nat :: Adds(f, t, now) + |Ends(d, tasks, t, now)| == if t == f.due then 1 else 0)
       <==> Once(f, d, tasks)
  {
    DuesPast(d, tasks, now);
    hide Adds, Ends, Once, Dues;
    if Once(f, d, tasks) {
      forall t: nat ensures Adds(f, t, now) + |Ends(d, tasks, t, now)| == if t == f.due then 1 else 0 {
        OnceEnds(f, d, tasks, t, now);
      }
    } else if forall t: nat :: Adds(f, t, now) + |Ends(d, tasks, t, now)| == if t == f.due then 1 else 0 {
      EndsOnce(f, d, tasks, now);
    }
  }

  /** With all deadlines past, it does so if and only if exactly one of all the tasks is uncancelled, and due then. */
  lemma RunsOnceIff(c: Timed, b: Table, id: Id, sec: Delay, rest: seq<Op>)
    requires Recorded(c.wheel, b, 1) && NeverSet(rest, id)
    ensures Sound(c.wheel)
    ensures var w, v, d := c.wheel, Run(Happens(c, id, EnableTimeout(sec)).wheel, rest), Touched(b, Flush(id));
            var dues := Dues(d, Pending(d, id));
            var f := Fate(w.now, Entry(w.now + Effective(sec), sec, false), dues, rest, id);
            f.due <= v.now && (forall due | due in dues :: due <= v.now) ==>
              ((forall t: nat :: Ran(v, t, id) == Ran(w, t, id) + if t == f.due then 1 else 0)
               <==> Once(f, d, Pending(d, id)))
  {
    hide *;
    RecordedSound(c.wheel, b);
    var w, v, d := c.wheel, Run(Happens(c, id, EnableTimeout(sec)).wheel, rest), Touched(b, Flush(id));
    var dues := Dues(d, Pending(d, id));
    var f := Fate(w.now, Entry(w.now + Effective(sec), sec, false), dues, rest, id);
    forall t: nat ensures
      Ran(v, t, id) == Ran(w, t, id) + (Adds(f, t, v.now) + |Ends(d, Pending(d, id), t, v.now)|) {
      EnableContract(c, b, id, sec, rest, t);
    }
    if f.due <= v.now && forall due | due in dues :: due <= v.now {
      OnceIff(f, d, Pending(d, id), v.now);
    }
  }

  lemma DuesPast(d: Table, hs: set<Handle>, now: nat)
    requires forall due | due in Dues(d, hs) :: due <= now
    ensures forall h | h in hs && h in d.jobs :: d.jobs[h].entry.due <= now
  {
    forall h | h in hs && h in d.jobs ensures d.jobs[h].entry.due <= now {
      assert d.jobs[h].entry.due in Dues(d, hs);
    }
  }

  /**
   * A timeout cancelled, as DisableTimeout and ReleaseInloop do, in any state of any run: the callback still runs if
   * and only if a live task of its id outside the index is not cancelled, which is one that was pending, uncancelled,
   * when a timeout was enabled.
   */
  lemma RunsCancelledIff(w: Wheel, b: Table, id: Id, later: seq<Op>)
    requires Recorded(w, b, 1) && NeverSet(later, id)
    ensures Sound(w)
    ensures var v := Run(w, [Cancels(id)] + later);
            (exists t: nat :: Ran(v, t, id) > Ran(w, t, id)) <==>
            exists h :: h in Others(b, id) && h in b.jobs && !b.jobs[h].entry.canceled && b.jobs[h].entry.due <= v.now
  {
    hide *;
    RecordedSound(w, b);
    var v := Run(w, [Cancels(id)] + later);
    forall t: nat ensures Ran(v, t, id) == Ran(w, t, id) + |Ends(b, Others(b, id), t, v.now)| {
      CancelledOutcome(w, b, id, later, t);
    }
    SomeEnd(b, Others(b, id), v.now);
  }

  lemma CancelledOutcome(w: Wheel, b: Table, id: Id, later: seq<Op>, t: nat)
    requires Recorded(w, b, 1) && NeverSet(later, id)
    ensures Sound(w)
    ensures var v := Run(w, [Cancels(id)] + later);
            Ran(v, t, id) == Ran(w, t, id) + |Ends(b, Others(b, id), t, v.now)|
  {
    hide Recorded, Sound, NeverSet, Run, Ticks, Ran, Fate, Others, Dues, Ends;
    FirstNeverSet(Cancels(id), later, id);
    IdContract(w, b, id, [Cancels(id)] + later, t);
    if id in b.index {
      CanceledNow(b.now, b.jobs[b.index[id]].entry, Dues(b, Others(b, id)), later, id);
    }
  }

  lemma SomeEnd(b: Table, hs: set<Handle>, now: nat)
    ensures (exists t: nat :: |Ends(b, hs, t, now)| > 0) <==>
            exists h :: h in hs && h in b.jobs && !b.jobs[h].entry.canceled && b.jobs[h].entry.due <= now
  {
    if t: nat :| |Ends(b, hs, t, now)| > 0 {
      var h :| h in Ends(b, hs, t, now);
    }
    if h :| h in hs && h in b.jobs && !b.jobs[h].entry.canceled && b.jobs[h].entry.due <= now {
      assert h in Ends(b, hs, b.jobs[h].entry.due, now);
      assert |Ends(b, hs, b.jobs[h].entry.due, now)| > 0;
    }
  }

  lemma CanceledNow(now: nat, e: Entry, others: set<nat>, later: seq<Op>, id: Id)
    ensures Fate(now, e, others, [Cancels(id)] + later, id).canceled
  {
    assert ([Cancels(id)] + later)[1..] == later;
    CanceledFate(now, e.(canceled := true), others, later, id);
  }

  // ---- at an input ----

  lemma StartReached(id: Id)
    ensures Reached(START, id)
  {
    hide Sound;
    StartSound();
    assert FreshForFromStart([], id) && RunFromStart([]) == START;
  }

  lemma FirstSet(id: Id)
    ensures var w := SetTask(START, id, 2);
            && w.now == 0 && w.tick == 0 && w.log == [] && w.slots[1] == []
            && w.timers == map[id := 0] && w.heap == map[0 := Task(id, 2, false, 1)]
  {
    hide Sound;
    assert SetTask(START, id, 2).heap == map[0 := Task(id, 2, false, 1)];
  }

  /** A new loop on which one connection, with timer `id`, has enabled a timeout of 2 seconds. */
  lemma FirstTimer(id: Id) returns (w: Wheel)
    ensures Sound(START) && w == SetTask(START, id, 2) && Reached(w, id)
    ensures w.now == 0 && w.tick == 0 && w.log == [] && w.slots[1] == []
    ensures w.timers == map[id := 0] && w.heap == map[0 := Task(id, 2, false, 1)]
  {
    hide Sound, Reached, SetTask, Run;
    StartSound();
    FirstSet(id);
    w := SetTask(START, id, 2);
    StartReached(id);
    RunFirst(START, Set(id, 2), []);
    assert [Set(id, 2)] + [] == [Set(id, 2)];
    OneSetIsFresh(id);
    ReachedAfter(START, [Set(id, 2)], id);
    RunNone(w);
  }

  lemma OneSetIsFresh(id: Id)
    requires Sound(START)
    ensures FreshFor(START, [Set(id, 2)], id)
  {
    hide Sound, Step;
    StepSound(START, Set(id, 2));
    assert [Set(id, 2)][1..] == [];
  }

  lemma RunNone(w: Wheel)
    requires Sound(w)
    ensures Run(w, []) == w
  {
  }

  lemma EnableFirst(id: Id) returns (w: Wheel)
    ensures Sound(START) && Reached(w, id) && Happens(Timed(START, false), id, EnableTimeout(2)) == Timed(w, true)
    ensures w == SetTask(START, id, 2)
    ensures w.now == 0 && w.tick == 0 && w.log == [] && w.slots[1] == []
    ensures w.timers == map[id := 0] && w.heap == map[0 := Task(id, 2, false, 1)]
  {
    w := FirstTimer(id);
    hide Sound, Reached, SetTask, Run;
    EnabledIs(Timed(START, false), id, 2);
  }

  /** One second later: the timer is still pending. */
  lemma ASecondLater(id: Id) returns (c: Timed)
    ensures Sound(START)
    ensures c == AllHappen(Timed(START, false), id, [EnableTimeout(2), SecondPasses]) && Reached(c.wheel, id)
    ensures c.enabled && c.wheel.now == 1 && c.wheel.log == []
    ensures c.wheel.timers == map[id := 0] && c.wheel.heap == map[0 := Task(id, 2, false, 1)]
  {
    hide Sound, Reached, Drain, Step, SetTask;
    var w := EnableFirst(id);
    EmptyTick(w);
    RunFirst(w, Tick, []);
    assert [Tick] + [] == [Tick];
    NeverSetIsFresh(w, [Tick], id);
    ReachedAfter(w, [Tick], id);
    TickIs(w);
    c := Happens(Timed(w, true), id, SecondPasses);
    TwoHappen(Timed(START, false), id, EnableTimeout(2), SecondPasses);
  }

  lemma EmptyTick(w: Wheel)
    requires Sound(w) && w.tick == 0 && w.slots[1] == []
    ensures RunTimer(w) == w.(now := w.now + 1, tick := 1)
  {
    hide Lockable, Counts, All, DropFirst;
    assert Drain(Advance(w)) == Advance(w);
  }

  lemma TickIs(w: Wheel)
    requires Sound(w)
    ensures Step(w, Tick) == RunTimer(w)
  {
    hide Sound;
  }

  lemma TwoHappen(c: Timed, id: Id, h: Happening, k: Happening)
    requires Sound(c.wheel)
    ensures AllHappen(c, id, [h, k]) == Happens(Happens(c, id, h), id, k)
  {
    hide Sound, Happens;
    var d, hs, ks := Happens(c, id, h), [h, k], [k];
    assert hs[1..] == ks && ks[1..] == [];
    assert AllHappen(d, id, ks) == Happens(d, id, k);
  }

  /** Or DisableTimeout in the same second: the timer is pending and cancelled. */
  lemma DisabledAtOnce(id: Id) returns (c: Timed)
    ensures Sound(START)
    ensures c == AllHappen(Timed(START, false), id, [EnableTimeout(2), DisableTimeout]) && Reached(c.wheel, id)
    ensures c.wheel.now == 0 && c.wheel.log == []
    ensures c.wheel.timers == map[id := 0] && c.wheel.heap == map[0 := Task(id, 2, true, 1)]
  {
    hide Lockable, Counts, All;
    var w := EnableFirst(id);
    RunFirst(w, Cancels(id), []);
    assert [Cancels(id)] + [] == [Cancels(id)];
    assert CancelTask(w, id).heap == map[0 := Task(id, 2, true, 1)];
    hide Sound, Step, SetTask;
    NeverSetIsFresh(w, [Cancels(id)], id);
    ReachedAfter(w, [Cancels(id)], id);
    c := Happens(Timed(w, true), id, DisableTimeout);
    TwoHappen(Timed(START, false), id, EnableTimeout(2), DisableTimeout);
  }

  lemma EnabledAgain(c: Timed, id: Id, sec: Delay, hs: seq<Happening>)
    requires Sound(c.wheel) && Idling(hs, id)
    ensures AllHappen(c, id, [EnableTimeout(sec)] + hs).wheel
         == Run(Happens(c, id, EnableTimeout(sec)).wheel, CallsOf(id, hs))
  {
    hide Sound, Run;
    var d := Happens(c, id, EnableTimeout(sec));
    assert ([EnableTimeout(sec)] + hs)[1..] == hs;
    CallsWhileEnabled(d, id, hs);
    HappenRun(d, id, hs);
  }

  /** Two seconds, an event, three seconds. */
  const SIX: seq<Happening> :=
    [SecondPasses, SecondPasses, EventDispatched, SecondPasses, SecondPasses, SecondPasses]

  /** What SIX makes of the wheel. */
  function SixOps(id: Id): seq<Op> {
    [Tick, Tick, Flush(id), Tick, Tick, Tick]
  }

  lemma SixCalls(id: Id)
    ensures Idling(SIX, id) && CallsOf(id, SIX) == SixOps(id) && NeverSet(SixOps(id), id) && Ticks(SixOps(id)) == 5
  {
    var h4: seq<Happening> := [EventDispatched, SecondPasses, SecondPasses, SecondPasses];
    var o2: seq<Op>, o3: seq<Op> := [Tick, Tick], [Tick, Tick, Tick];
    assert SIX[1..][1..] == h4;
    assert h4[1..][1..] == [SecondPasses, SecondPasses];
    assert CallsOf(id, h4) == [Flush(id)] + o3;
    assert o3[1..] == o2 && o2[1..] == [Tick];
    assert Ticks(o2) == 2;
    assert Ticks(o3) == 3;
    TicksAppend([Flush(id)], o3);
    TicksAppend(o2, [Flush(id)] + o3);
    assert o2 + ([Flush(id)] + o3) == SixOps(id);
  }

  /** A timer that is due in three seconds or more, while another goes after two. */
  lemma SixFate(now: nat, e: Entry, id: Id)
    requires e.due > now + 2
    ensures Fate(now, e, {now + 2}, SixOps(id), id) == e
  {
    var ops := SixOps(id);
    assert ops[1..][0] == Tick;
    assert Fate(now + 1, e, {now + 2}, ops[1..], id) == e;
  }

  /** The one task on the wheel is enabled again. */
  lemma OnePending(w: Wheel, b: Table, id: Id, canceled: bool)
    requires Recorded(w, b, 1) && w.timers == map[id := 0] && w.heap == map[0 := Task(id, 2, canceled, 1)]
    ensures var d := Touched(b, Flush(id));
            && Pending(d, id) == {0} && 0 in d.jobs && Dues(d, {0}) == {w.now + 2}
            && d.jobs[0].entry.due == w.now + 2 && d.jobs[0].entry.canceled == canceled
  {
    PendingIs(w, b, id);
    hide Recorded, Pending, Touched;
    var d := Touched(b, Flush(id));
    assert 0 in Pending(d, id);
    assert Pending(d, id) == {0};
  }

  lemma OneEnd(d: Table, t: nat, now: nat)
    requires 0 in d.jobs
    ensures |Ends(d, {0}, t, now)| == Adds(d.jobs[0].entry, t, now)
  {
    assert Ends(d, {0}, t, now) == if Adds(d.jobs[0].entry, t, now) == 1 then {0} else {};
  }

  lemma SixRun(c: Timed, id: Id, canceled: bool, t: nat)
    requires Reached(c.wheel, id)
    requires c.wheel.timers == map[id := 0] && c.wheel.heap == map[0 := Task(id, 2, canceled, 1)]
    ensures var w, v := c.wheel, AllHappen(c, id, [EnableTimeout(5)] + SIX).wheel;
            v.now == w.now + 5
            && Ran(v, t, id) == Ran(w, t, id) + (if t == w.now + 5 then 1 else 0)
                                + (if t == w.now + 2 && !canceled then 1 else 0)
  {
    hide Reached, Sound, Run, Ran, Happens, AllHappen, CallsOf, Idling, Ticks, NeverSet, Fate, SixOps, Recorded, Kept;
    hide Touched, Pending, Dues, Ends, Others;
    var b := TableOf(c.wheel, id);
    SixCalls(id);
    EnabledAgain(c, id, 5, SIX);
    OnePending(c.wheel, b, id, canceled);
    EnableContract(c, b, id, 5, SixOps(id), t);
    OneEnd(Touched(b, Flush(id)), t, c.wheel.now + 5);
    SixFate(c.wheel.now, Entry(c.wheel.now + 5, 5, false), id);
  }

  lemma NoneRanYet(w: Wheel, t: nat, id: Id)
    requires w.log == []
    ensures Ran(w, t, id) == 0
  {
  }

  /**
   * A timeout of 2 enabled at tick 0 and one of 5 at tick 1: the callback runs at tick 3 all the same, and
   * the event dispatched there no longer renews the second timer, which runs at tick 6.
   */
  lemma EnabledTwice(id: Id)
    ensures Sound(START)
    ensures var hs := [EnableTimeout(2), SecondPasses];
            var v := AllHappen(AllHappen(Timed(START, false), id, hs), id, [EnableTimeout(5)] + SIX).wheel;
            v.now == 6 && Ran(v, 3, id) == 1 && Ran(v, 6, id) == 1
  {
    hide Sound, Reached, Happens, AllHappen, Ran;
    var c := ASecondLater(id);
    SixRun(c, id, false, 3);
    SixRun(c, id, false, 6);
    NoneRanYet(c.wheel, 3, id);
    NoneRanYet(c.wheel, 6, id);
  }

  /**
   * A timeout of 2 enabled, disabled, and one of 5 enabled, all at tick 0: the event dispatched at tick 2 does
   * not renew it, and the callback runs at tick 5.
   */
  lemma DisabledThenEnabled(id: Id)
    ensures Sound(START)
    ensures var hs := [EnableTimeout(2), DisableTimeout];
            var v := AllHappen(AllHappen(Timed(START, false), id, hs), id, [EnableTimeout(5)] + SIX).wheel;
            v.now == 5 && Ran(v, 2, id) == 0 && Ran(v, 5, id) == 1
  {
    hide Sound, Reached, Happens, AllHappen, Ran;
    var c := DisabledAtOnce(id);
    SixRun(c, id, true, 2);
    SixRun(c, id, true, 5);
    NoneRanYet(c.wheel, 2, id);
    NoneRanYet(c.wheel, 5, id);
  }

  lemma KnownOnceEnabled(w: Wheel, id: Id, sec: Delay)
    requires Sound(w)
    ensures id in Enabled(w, id, sec).timers
  {
    FlushSound(w, id);
    SoundShape(FlushTask(w, id));
    hide Sound, FlushTask, SetSlot;
  }

  lemma TwoSeconds(c: Timed, id: Id)
    requires Sound(c.wheel)
    ensures AllCalls(c, id, [SecondPasses, SecondPasses]) == [Tick, Tick]
  {
    hide Sound, Happens;
    var hs: seq<Happening> := [SecondPasses, SecondPasses];
    var d := Happens(c, id, SecondPasses);
    assert hs[1..] == [SecondPasses];
    var one: seq<Happening> := [SecondPasses];
    assert one[1..] == [];
    assert AllCalls(d, id, one) == [Tick] + [];
    assert AllCalls(c, id, hs) == [Tick] + AllCalls(d, id, one);
  }

  lemma ReleasedCalls(c: Timed, id: Id)
    requires Sound(c.wheel)
    ensures AllHappen(c, id, [EnableTimeout(5), Released, SecondPasses, SecondPasses]).wheel
         == Run(Happens(c, id, EnableTimeout(5)).wheel, [Cancels(id), Tick, Tick])
  {
    hide Sound, Run;
    EnabledIs(c, id, 5);
    KnownOnceEnabled(c.wheel, id, 5);
    hide Happens;
    var d := Happens(c, id, EnableTimeout(5));
    var hs: seq<Happening> := [Released, SecondPasses, SecondPasses];
    assert [EnableTimeout(5), Released, SecondPasses, SecondPasses][1..] == hs;
    HappenRun(d, id, hs);
    var e := Happens(d, id, Released);
    assert hs[1..] == [SecondPasses, SecondPasses];
    TwoSeconds(e, id);
    assert AllCalls(d, id, hs) == [Cancels(id)] + AllCalls(e, id, hs[1..]);
    assert [Cancels(id)] + [Tick, Tick] == [Cancels(id), Tick, Tick];
  }

  /** A timeout of 2 enabled at tick 0 and one of 5 at tick 1, and ReleaseInloop then: the callback runs at tick 3. */
  lemma ReleasedButRuns(id: Id)
    ensures Sound(START)
    ensures var hs := [EnableTimeout(2), SecondPasses];
            var v := AllHappen(AllHappen(Timed(START, false), id, hs), id,
                               [EnableTimeout(5), Released, SecondPasses, SecondPasses]).wheel;
            v.now == 3 && Ran(v, 3, id) >= 1
  {
    hide Sound, Reached, Happens, AllHappen, Ran, Run, Recorded, Kept, Others;
    var c := ASecondLater(id);
    ReleasedCalls(c, id);
    var ops: seq<Op> := [Cancels(id), Tick, Tick];
    var two: seq<Op>, one: seq<Op> := [Tick, Tick], [Tick];
    assert ops[1..] == two && two[1..] == one && one[1..] == [];
    assert Ticks(one) == 1 && Ticks(two) == 2 && Ticks(ops) == 2;
    var b := TableOf(c.wheel, id);
    OldTimerRuns(c, b, id, 5, ops, 0);
  }
}
