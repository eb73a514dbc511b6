/** Every run of the wheel, with fresh ids or without, refines a table of all tasks ever made and their deadlines. */
module TaskTable {
  import opened WheelModel
  import opened Deadlines
  import opened TimerRuns

  datatype Job = Job(id: Id, entry: Entry)

  /** `index` has the last task of each id, until a task of that id ends; a task ends at its deadline. */
  datatype Table = Table(now: nat, next: Handle, jobs: map<Handle, Job>, index: map<Id, Handle>)

  const EMPTY: Table := Table(0, 0, map[], map[])

  function Made(b: Table, id: Id, delay: Delay): Table {
    var job := Job(id, Entry(b.now + Effective(delay), delay, false));
    b.(jobs := b.jobs[b.next := job], index := b.index[id := b.next], next := b.next + 1)
  }

  /** What one flush or cancel makes of a deadline. */
  function Moved(now: nat, e: Entry, op: Op, id: Id): Entry {
    match op
    case Flush(i) => if i == id then e.(due := now + Effective(e.delay)) else e
    case Cancels(i) => if i == id then e.(canceled := true) else e
    case _ => e
  }

  /** A flush or a cancel is about the task in the index, and no other. */
  function Touched(b: Table, op: Op): Table
    requires op.Flush? || op.Cancels?
  {
    if op.id in b.index && b.index[op.id] in b.jobs then
      var h := b.index[op.id];
      b.(jobs := b.jobs[h := b.jobs[h].(entry := Moved(b.now, b.jobs[h].entry, op, op.id))])
    else b
  }

  /** The ids of the tasks that end now. */
  function Ending(b: Table): set<Id> {
    set h | h in b.jobs && b.jobs[h].entry.due == b.now :: b.jobs[h].id
  }

  function Passed(b: Table): Table {
    var c := b.(now := b.now + 1);
    c.(index := c.index - Ending(c))
  }

  function TableStep(b: Table, op: Op): Table {
    match op
    case Set(id, delay) => Made(b, id, delay)
    case Flush(id) => Touched(b, op)
    case Cancels(id) => Touched(b, op)
    case Tick => Passed(b)
  }

  function TableRun(b: Table, ops: seq<Op>): Table
    decreases |ops|
  {
    if ops == [] then b else TableRun(TableStep(b, ops[0]), ops[1..])
  }

  // ---- the relation ----

  /** The tasks of this id that have run their callback in the run_timer call numbered `t`. */
  function Callbacks(b: Table, t: nat, id: Id): set<Handle> {
    set h | h in b.jobs && b.jobs[h].id == id && b.jobs[h].entry.due == t <= b.now && !b.jobs[h].entry.canceled
  }

  /** The same, of the tasks that are gone. */
  function Gone(w: Wheel, b: Table, t: nat, id: Id): set<Handle> {
    set h | h in b.jobs && h !in w.heap && b.jobs[h].id == id && b.jobs[h].entry.due == t && !b.jobs[h].entry.canceled
  }

  ghost predicate Counted(w: Wheel, b: Table) {
    forall t: nat, id: Id :: Ran(w, t, id) == |Gone(w, b, t, id)|
  }

  predicate Listed(w: Wheel, b: Table, lo: nat) {
    && (forall h | h in b.jobs :: h < b.next && (h !in w.heap ==> b.jobs[h].entry.due <= b.now))
    && (forall h | h in w.heap ::
          h in b.jobs && w.heap[h].id == b.jobs[h].id && Tracks(w, h, b.jobs[h].entry, lo))
  }

  /** The table records the wheel; while the current slot is drained, `lo` is 0. */
  ghost predicate Recorded(w: Wheel, b: Table, lo: nat) {
    && Sound(w) && w.now == b.now && w.next == b.next && w.timers == b.index
    && Listed(w, b, lo) && Counted(w, b)
  }

  /** What a table says of the wheel it records. */
  predicate Stands(w: Wheel, b: Table) {
    && w.now == b.now && w.timers == b.index
    && (forall h | h in b.jobs :: h in w.heap <==> b.now < b.jobs[h].entry.due)
    && (forall h | h in w.heap ::
          && h in b.jobs && w.heap[h].id == b.jobs[h].id
          && w.heap[h].delay == b.jobs[h].entry.delay && w.heap[h].canceled == b.jobs[h].entry.canceled)
  }

  lemma RecordedIs(w: Wheel, b: Table)
    requires Recorded(w, b, 1)
    ensures Sound(w) && Stands(w, b)
    ensures forall t: nat, id: Id :: Ran(w, t, id) == |Callbacks(b, t, id)|
  {
    hide Sound, SlotAt, Gap, Effective, Ran;
    forall t: nat, id: Id ensures Gone(w, b, t, id) == Callbacks(b, t, id) {
    }
  }

  lemma StartRecorded()
    ensures Recorded(START, EMPTY, 1)
  {
    StartSound();
    hide Sound, NoTasks;
    assert START.log == [];
  }

  // ---- set, flush, cancel ----

  /** What is counted is about tasks that are gone; those do not change. */
  lemma CountedStill(w: Wheel, b: Table, v: Wheel, c: Table)
    requires Counted(w, b) && v.log == w.log
    requires forall h :: (h in b.jobs && h !in w.heap) <==> (h in c.jobs && h !in v.heap)
    requires forall h | h in b.jobs && h !in w.heap :: c.jobs[h] == b.jobs[h]
    ensures Counted(v, c)
  {
    forall t: nat, id: Id ensures Ran(v, t, id) == |Gone(v, c, t, id)| {
      assert Ran(w, t, id) == |Gone(w, b, t, id)|;
      assert Gone(v, c, t, id) == Gone(w, b, t, id);
    }
  }

  lemma PushedIs(w: Wheel, v: Wheel, h: Handle, id: Id, t: Task)
    requires Pushed(w, v, h, id, t)
    ensures |w.slots| == CAPACITY && w.tick < CAPACITY && v.now == w.now && v.tick == w.tick && v.log == w.log
    ensures var pos := SlotAt(w.tick, t.delay); v.slots == w.slots[pos := w.slots[pos] + [h]]
    ensures v.heap == w.heap[h := t] && v.timers == w.timers[id := h]
  {
    hide SlotAt;
  }

  /** After a push of task `h`, now `t`, at its full delay, it is due after that delay, and the others as before. */
  lemma PushListed(w: Wheel, b: Table, v: Wheel, h: Handle, t: Task, next: Handle)
    requires Listed(w, b, 1) && Pushed(w, v, h, t.id, t) && Ordinary(t.delay) && w.now == b.now
    requires forall s: nat | s < CAPACITY && h in w.slots[s] :: Gap(w.tick, s, 1) <= Effective(t.delay)
    requires h < next && b.next <= next && h !in b.jobs.Keys - w.heap.Keys
    ensures var e := Entry(w.now + Effective(t.delay), t.delay, t.canceled);
            Listed(v, b.(jobs := b.jobs[h := Job(t.id, e)], next := next), 1)
  {
    hide Pushed, Tracks, SlotAt, Gap, Effective;
    PushedIs(w, v, h, t.id, t);
    SlotOfDelay(w.tick, t.delay);
    TracksPushed(w, v, SlotAt(w.tick, t.delay), h, t);
    var c := b.(jobs := b.jobs[h := Job(t.id, Entry(w.now + Effective(t.delay), t.delay, t.canceled))], next := next);
    forall g | g in v.heap
      ensures g in c.jobs && v.heap[g].id == c.jobs[g].id && Tracks(v, g, c.jobs[g].entry, 1)
    {
      if g != h {
        TracksOther(w, v, SlotAt(w.tick, t.delay), h, g, b.jobs[g].entry);
      }
    }
  }

  lemma SetRecorded(w: Wheel, b: Table, id: Id, delay: Delay)
    requires Recorded(w, b, 1)
    ensures Recorded(SetTask(w, id, delay), Made(b, id, delay), 1)
  {
    hide Sound, Listed, Counted, Pushed, SetTask, Gap, SlotAt, Effective;
    SoundShape(w);
    var v, c, t := SetTask(w, id, delay), Made(b, id, delay), Task(id, delay, false, 1);
    NextUnused(w);
    SetSound(w, id, delay);
    SetShape(w, id, delay);
    PushedIs(w, v, w.next, id, t);
    NextIsNew(w, b);
    PushListed(w, b, v, w.next, t, w.next + 1);
    SameListing(v, b.(jobs := c.jobs, next := c.next), c);
    CountedStill(w, b, v, c);
    NextOfSet(w, id, delay);
  }

  lemma NextOfSet(w: Wheel, id: Id, delay: Delay)
    requires |w.slots| == CAPACITY
    ensures SetTask(w, id, delay).next == w.next + 1
  {
    hide SetSlot;
  }

  lemma NextIsNew(w: Wheel, b: Table)
    requires Listed(w, b, 1) && w.next == b.next
    ensures b.next !in b.jobs
  {
    hide Tracks;
  }

  lemma SameListing(w: Wheel, b: Table, c: Table)
    requires Listed(w, b, 1) && c.jobs == b.jobs && c.next == b.next && c.now == b.now
    ensures Listed(w, c, 1)
  {
    hide Tracks;
  }

  lemma FlushNothing(w: Wheel, id: Id)
    requires Sound(w) && id !in w.timers
    ensures FlushTask(w, id) == w
  {
  }

  lemma OwnTask(w: Wheel, id: Id)
    requires Sound(w) && id in w.timers
    ensures w.timers[id] in w.heap && w.heap[w.timers[id]].id == id
  {
    hide All, Counts;
  }

  lemma TaskListed(w: Wheel, b: Table, h: Handle, lo: nat)
    requires Listed(w, b, lo) && h in w.heap
    ensures h in b.jobs && w.heap[h].id == b.jobs[h].id && Tracks(w, h, b.jobs[h].entry, lo) && h < b.next
    ensures w.heap[h].delay == b.jobs[h].entry.delay && w.heap[h].canceled == b.jobs[h].entry.canceled
  {
    TrackedEntry(w, h, b.jobs[h].entry, lo);
    hide Tracks;
  }

  lemma FlushRecorded(w: Wheel, b: Table, id: Id)
    requires Recorded(w, b, 1)
    ensures Recorded(FlushTask(w, id), Touched(b, Flush(id)), 1)
  {
    hide Sound, Listed, Counted, Pushed, FlushTask, Gap, SlotAt, Effective, Tracks;
    FlushSound(w, id);
    if id in w.timers {
      var h, v, c := w.timers[id], FlushTask(w, id), Touched(b, Flush(id));
      OwnTask(w, id);
      TaskListed(w, b, h, 1);
      var t := w.heap[h].(refs := w.heap[h].refs + 1);
      FlushShape(w, id);
      PushedIs(w, v, h, id, t);
      TrackedGaps(w, h, b.jobs[h].entry);
      PushListed(w, b, v, h, t, b.next);
      CountedStill(w, b, v, c);
      NextOfFlush(w, id);
    } else {
      FlushNothing(w, id);
    }
  }

  lemma NextOfFlush(w: Wheel, id: Id)
    requires Sound(w)
    ensures FlushTask(w, id).next == w.next
  {
    hide Counts, All, FlushDefined, FlushSlot;
  }

  lemma CancelRecorded(w: Wheel, b: Table, id: Id)
    requires Recorded(w, b, 1)
    ensures Recorded(CancelTask(w, id), Touched(b, Cancels(id)), 1)
  {
    hide Sound, Listed, Counted, Tracks;
    CancelSound(w, id);
    if id in w.timers {
      OwnTask(w, id);
      var h, v, c := w.timers[id], CancelTask(w, id), Touched(b, Cancels(id));
      TaskListed(w, b, h, 1);
      CancelListed(w, b, v, c, h);
      CountedStill(w, b, v, c);
    }
  }

  lemma CancelListed(w: Wheel, b: Table, v: Wheel, c: Table, h: Handle)
    requires Listed(w, b, 1) && h in w.heap && h in b.jobs && v == w.(heap := w.heap[h := w.heap[h].(canceled := true)])
    requires c == b.(jobs := b.jobs[h := b.jobs[h].(entry := b.jobs[h].entry.(canceled := true))])
    ensures Listed(v, c, 1)
  {
    hide Tracks;
    forall g | g in v.heap
      ensures g in c.jobs && v.heap[g].id == c.jobs[g].id && Tracks(v, g, c.jobs[g].entry, 1)
    {
      TrackedEntry(w, g, b.jobs[g].entry, 1);
      TracksFlag(w, v, g, b.jobs[g].entry, c.jobs[g].entry);
    }
  }

  // ---- tick ----

  lemma AdvanceRecorded(w: Wheel, b: Table)
    requires Recorded(w, b, 1)
    ensures Recorded(Advance(w), b.(now := b.now + 1), 0)
  {
    hide Sound, Tracks, Counted;
    var v, c := Advance(w), b.(now := b.now + 1);
    forall g | g in v.heap ensures Tracks(v, g, c.jobs[g].entry, 0) {
      TracksAdvanced(w, g, b.jobs[g].entry);
    }
    CountedStill(w, b, v, c);
  }

  /** The ids of the tasks that are still to end now. */
  function StillEnding(w: Wheel, b: Table): set<Id> {
    set h | h in w.heap && h in b.jobs && b.jobs[h].entry.due == b.now :: b.jobs[h].id
  }

  lemma DrainedRecorded(w: Wheel, b: Table)
    requires Recorded(w, b, 0) && w.tick < |w.slots| && w.slots[w.tick] == []
    ensures StillEnding(w, b) == {} && Recorded(w, b, 1)
  {
    hide Sound, Tracks, Counted;
    forall g | g in w.heap ensures b.jobs[g].entry.due != b.now && Tracks(w, g, b.jobs[g].entry, 1) {
      TracksNext(w, g, b.jobs[g].entry);
    }
  }

  /** What one reference's end adds to the log. */
  function LastWords(w: Wheel, g: Handle): seq<Firing>
    requires g in w.heap
  {
    if w.heap[g].refs > 1 || w.heap[g].canceled then [] else [Firing(w.now, w.heap[g].id)]
  }

  /** What is the same after one reference of the current slot has gone. */
  lemma DropIs(w: Wheel, g: Handle)
    requires w.tick < |w.slots| && w.slots[w.tick] != [] && w.slots[w.tick][0] == g
    requires g in w.heap && w.heap[g].refs > 0
    ensures var v := DropFirst(w);
            && v.now == w.now && v.tick == w.tick && v.slots == Popped(w.slots, w.tick) && v.next == w.next
            && v.log == w.log + LastWords(w, g)
            && (w.heap[g].refs > 1 ==>
                  v.timers == w.timers && v.heap == w.heap[g := w.heap[g].(refs := w.heap[g].refs - 1)])
            && (w.heap[g].refs == 1 ==> v.timers == w.timers - {w.heap[g].id} && v.heap == w.heap - {g})
  {
  }

  lemma CountOf(w: Wheel, h: Handle)
    requires Sound(w) && h in w.heap
    ensures w.heap[h].refs == All(w.slots)[h]
  {
    hide All;
  }

  /** One of several references to a task goes. */
  lemma DropOne(w: Wheel, b: Table, g: Handle)
    requires Recorded(w, b, 0) && w.tick < |w.slots| && w.slots[w.tick] != [] && w.slots[w.tick][0] == g
    requires g in w.heap && w.heap[g].refs > 1
    ensures Recorded(DropFirst(w), b, 0) && StillEnding(DropFirst(w), b) == StillEnding(w, b)
  {
    hide Sound, Tracks, DropFirst, All, Counted;
    DropSound(w);
    var v := DropFirst(w);
    DropIs(w, g);
    CountOf(w, g);
    forall h | h in v.heap ensures Tracks(v, h, b.jobs[h].entry, 0) {
      if h == g {
        TracksPopped(w, v, g, b.jobs[g].entry);
      } else {
        TracksUnpopped(w, v, h, b.jobs[h].entry);
      }
    }
    assert w.log + [] == w.log;
    CountedStill(w, b, v, b);
  }

  lemma LastListed(w: Wheel, b: Table, v: Wheel, c: Table, g: Handle)
    requires Listed(w, b, 0) && w.tick < |w.slots| && w.slots[w.tick] != [] && w.slots[w.tick][0] == g
    requires v.slots == Popped(w.slots, w.tick) && v.now == w.now && v.tick == w.tick && v.heap == w.heap - {g}
    requires g in b.jobs && b.jobs[g].entry.due == b.now
    requires c.jobs == b.jobs && c.next == b.next && c.now == b.now
    ensures Listed(v, c, 0)
  {
    hide Tracks;
    forall h | h in v.heap ensures Tracks(v, h, c.jobs[h].entry, 0) {
      TracksUnpopped(w, v, h, b.jobs[h].entry);
    }
  }

  lemma OneMore(w: Wheel, b: Table, v: Wheel, c: Table, g: Handle, t: nat, id: Id)
    requires v.heap == w.heap - {g} && c.jobs == b.jobs && g in w.heap && g in b.jobs
    requires w.heap[g].id == b.jobs[g].id && w.heap[g].canceled == b.jobs[g].entry.canceled && w.heap[g].refs == 1
    requires b.jobs[g].entry.due == w.now && v.log == w.log + LastWords(w, g)
    requires Ran(w, t, id) == |Gone(w, b, t, id)|
    ensures Ran(v, t, id) == |Gone(v, c, t, id)|
  {
    var more := if t == w.now && id == w.heap[g].id && !w.heap[g].canceled then {g} else {};
    assert Gone(v, c, t, id) == Gone(w, b, t, id) + more;
    assert Gone(w, b, t, id) !! more;
    assert multiset(v.log) == multiset(w.log) + multiset(LastWords(w, g));
  }

  lemma LastCounted(w: Wheel, b: Table, v: Wheel, c: Table, g: Handle)
    requires v.heap == w.heap - {g} && c.jobs == b.jobs && g in w.heap && g in b.jobs
    requires w.heap[g].id == b.jobs[g].id && w.heap[g].canceled == b.jobs[g].entry.canceled && w.heap[g].refs == 1
    requires b.jobs[g].entry.due == w.now && v.log == w.log + LastWords(w, g)
    requires Counted(w, b)
    ensures Counted(v, c)
  {
    hide Ran, Gone, LastWords;
    forall t: nat, id: Id ensures Ran(v, t, id) == |Gone(v, c, t, id)| {
      OneMore(w, b, v, c, g, t, id);
    }
  }

  lemma LastEnding(w: Wheel, b: Table, v: Wheel, c: Table, g: Handle)
    requires v.heap == w.heap - {g} && c.jobs == b.jobs && c.now == b.now && g in w.heap && g in b.jobs
    requires b.jobs[g].entry.due == b.now && c.index == b.index - {b.jobs[g].id}
    ensures c.index - StillEnding(v, c) == b.index - StillEnding(w, b)
  {
    assert StillEnding(w, b) == StillEnding(v, c) + {b.jobs[g].id} by {
      forall i ensures i in StillEnding(w, b) <==> i in StillEnding(v, c) || i == b.jobs[g].id {
        if h :| h in w.heap && h in b.jobs && b.jobs[h].entry.due == b.now && b.jobs[h].id == i && h != g {
          assert h in v.heap;
        }
      }
    }
  }

  /** The last reference to a task goes, and with it the task. */
  lemma DropLast(w: Wheel, b: Table, g: Handle)
    requires Recorded(w, b, 0) && w.tick < |w.slots| && w.slots[w.tick] != [] && w.slots[w.tick][0] == g
    requires g in w.heap && w.heap[g].refs == 1
    ensures g in b.jobs && b.jobs[g].entry.due == b.now
    ensures var c := b.(index := b.index - {b.jobs[g].id});
            Recorded(DropFirst(w), c, 0) && c.index - StillEnding(DropFirst(w), c) == b.index - StillEnding(w, b)
  {
    hide Sound, Tracks, DropFirst, All, Counted, Listed, StillEnding;
    DropSound(w);
    var v := DropFirst(w);
    DropIs(w, g);
    CountOf(w, g);
    TaskListed(w, b, g, 0);
    LastIsDue(w, g, b.jobs[g].entry);
    var c := b.(index := b.index - {b.jobs[g].id});
    LastListed(w, b, v, c, g);
    LastCounted(w, b, v, c, g);
    LastEnding(w, b, v, c, g);
  }

  lemma {:induction false} DrainRecorded(w: Wheel, b: Table)
    requires Recorded(w, b, 0)
    ensures Recorded(Drain(w), b.(index := b.index - StillEnding(w, b)), 1)
    decreases if w.tick < |w.slots| then |w.slots[w.tick]| else 0
  {
    hide Counts, All, Lockable, Listed, Counted, StillEnding;
    if w.slots[w.tick] == [] {
      DrainedRecorded(w, b);
      assert b.index - {} == b.index;
    } else {
      DropIsPossible(w);
      DropSound(w);
      DropShrinks(w);
      var g := w.slots[w.tick][0];
      hide Recorded, DropFirst, Sound;
      if w.heap[g].refs > 1 {
        DropOne(w, b, g);
        DrainRecorded(DropFirst(w), b);
      } else {
        DropLast(w, b, g);
        DrainRecorded(DropFirst(w), b.(index := b.index - {b.jobs[g].id}));
      }
    }
  }

  lemma NoneEndedBefore(w: Wheel, b: Table)
    requires Sound(w) && Listed(w, b, 1)
    ensures var c := b.(now := b.now + 1); StillEnding(Advance(w), c) == Ending(c)
  {
    hide Sound, Tracks;
  }

  lemma TickRecorded(w: Wheel, b: Table)
    requires Recorded(w, b, 1)
    ensures Recorded(RunTimer(w), Passed(b), 1)
  {
    AdvanceRecorded(w, b);
    NoneEndedBefore(w, b);
    hide Recorded, Drain, StillEnding, Ending, Listed;
    DrainRecorded(Advance(w), b.(now := b.now + 1));
  }

  // ---- runs ----

  lemma StepRecorded(w: Wheel, b: Table, op: Op)
    requires Recorded(w, b, 1)
    ensures Recorded(Step(w, op), TableStep(b, op), 1)
  {
    RecordedSound(w, b);
    hide Recorded, SetTask, FlushTask, CancelTask, RunTimer, Made, Touched, Passed;
    match op
    case Set(id, delay) => SetRecorded(w, b, id, delay);
    case Flush(id) => FlushRecorded(w, b, id);
    case Cancels(id) => CancelRecorded(w, b, id);
    case Tick => TickRecorded(w, b);
  }

  lemma RecordedSound(w: Wheel, b: Table)
    requires Recorded(w, b, 1)
    ensures Sound(w)
  {
  }

  lemma {:induction false} RunRecorded(w: Wheel, b: Table, ops: seq<Op>)
    requires Sound(w) && Recorded(w, b, 1)
    ensures Recorded(Run(w, ops), TableRun(b, ops), 1)
    decreases |ops|
  {
    hide Recorded, Sound, Step, TableStep;
    if ops != [] {
      StepSound(w, ops[0]);
      StepRecorded(w, b, ops[0]);
      RunRecorded(Step(w, ops[0]), TableStep(b, ops[0]), ops[1..]);
    }
  }

  /** In every run of set, flush, cancel and tick, under whatever ids, the wheel is the table. */
  lemma EveryRunRecorded(ops: seq<Op>)
    ensures var w, b := RunFromStart(ops), TableRun(EMPTY, ops);
            && Recorded(w, b, 1) && Stands(w, b)
            && forall t: nat, id: Id :: Ran(w, t, id) == |Callbacks(b, t, id)|
  {
    StartSound();
    StartRecorded();
    hide Recorded, Sound, Run, TableRun, Stands, Ran, Callbacks;
    RunRecorded(START, EMPTY, ops);
    RecordedIs(RunFromStart(ops), TableRun(EMPTY, ops));
  }
}
