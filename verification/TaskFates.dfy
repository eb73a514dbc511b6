/** What becomes of each task of one id: the one in the index, and those that a later one has pushed out of it. */
module TaskFates {
  import opened WheelModel
  import opened Deadlines
  import opened TimerRuns
  import opened TaskTable

  // ---- tables ----

  /** A task in the index is one of its id, and has not ended. */
  predicate Kept(b: Table) {
    && (forall h | h in b.jobs :: h < b.next)
    && (forall id | id in b.index ::
          b.index[id] in b.jobs && b.jobs[b.index[id]].id == id && b.now < b.jobs[b.index[id]].entry.due)
  }

  lemma RecordedKept(w: Wheel, b: Table)
    requires Recorded(w, b, 1)
    ensures Kept(b)
  {
    RecordedIs(w, b);
    hide Counts, All, Tracks, Counted, Ran, Callbacks;
  }

  /** The index has another task of this id, or none. */
  predicate Lost(b: Table, h: Handle) {
    h in b.jobs && !(b.jobs[h].id in b.index && b.index[b.jobs[h].id] == h)
  }

  lemma PassedKept(b: Table)
    requires Kept(b)
    ensures Kept(Passed(b))
  {
    var c := Passed(b);
    forall id | id in c.index ensures c.now < c.jobs[c.index[id]].entry.due {
      assert id !in Ending(c);
    }
  }

  lemma StepKept(b: Table, op: Op)
    requires Kept(b)
    ensures Kept(TableStep(b, op)) && TableStep(b, op).now == b.now + if op.Tick? then 1 else 0
  {
    hide Effective;
    if op.Tick? {
      PassedKept(b);
      hide Kept;
    }
  }

  /** Nothing that is done, with its id or any other, changes a task that is not in the index, or brings it back. */
  lemma StepLost(b: Table, op: Op, h: Handle)
    requires Kept(b) && Lost(b, h)
    ensures var c := TableStep(b, op); Lost(c, h) && c.jobs[h] == b.jobs[h]
  {
    hide Effective, Ending;
  }

  lemma {:induction false} RunLost(b: Table, ops: seq<Op>, h: Handle)
    requires Kept(b) && Lost(b, h)
    ensures var c := TableRun(b, ops); Kept(c) && Lost(c, h) && c.jobs[h] == b.jobs[h] && c.now == b.now + Ticks(ops)
    decreases |ops|
  {
    hide Kept, Lost, TableStep;
    if ops != [] {
      StepKept(b, ops[0]);
      StepLost(b, ops[0], h);
      RunLost(TableStep(b, ops[0]), ops[1..], h);
    }
    LostIs(b, h);
    LostIs(TableRun(b, ops), h);
  }

  lemma LostIs(b: Table, h: Handle)
    requires Lost(b, h)
    ensures h in b.jobs
  {
  }

  lemma {:induction false} RunKept(b: Table, ops: seq<Op>)
    requires Kept(b)
    ensures Kept(TableRun(b, ops)) && TableRun(b, ops).now == b.now + Ticks(ops)
    decreases |ops|
  {
    hide Kept, TableStep;
    if ops != [] {
      StepKept(b, ops[0]);
      RunKept(TableStep(b, ops[0]), ops[1..]);
    }
  }

  /**
   * A live task that is not in the index, in any state of any run and whatever is done afterwards, also under its own
   * id: it lives until its deadline, with its flag as it is, and then runs its callback unless it was cancelled.
   */
  lemma LostTaskRuns(w: Wheel, b: Table, ops: seq<Op>, h: Handle)
    requires Recorded(w, b, 1) && h in w.heap && Lost(b, h)
    ensures Sound(w)
    ensures var v, e, id := Run(w, ops), b.jobs[h].entry, w.heap[h].id;
            && v.now == w.now + Ticks(ops) && w.now < e.due && (h in v.heap <==> v.now < e.due)
            && (h in v.heap ==> v.heap[h].id == id && v.heap[h].canceled == w.heap[h].canceled)
            && (e.due <= v.now && !w.heap[h].canceled ==> Ran(v, e.due, id) >= 1)
  {
    hide Recorded, Sound, Kept, Lost, Run, TableRun, Ran, Callbacks;
    RecordedIs(w, b);
    RecordedKept(w, b);
    LostIs(b, h);
    var c, t, id := TableRun(b, ops), b.jobs[h].entry.due, w.heap[h].id;
    RunRecorded(w, b, ops);
    RunLost(b, ops, h);
    LostIs(c, h);
    RecordedIs(Run(w, ops), c);
    if t <= c.now && !w.heap[h].canceled {
      OneCallback(c, t, id, h);
    }
  }

  lemma OneCallback(b: Table, t: nat, id: Id, h: Handle)
    requires h in b.jobs && b.jobs[h].id == id && b.jobs[h].entry.due == t <= b.now && !b.jobs[h].entry.canceled
    ensures |Callbacks(b, t, id)| >= 1
  {
    assert h in Callbacks(b, t, id);
    assert {h} <= Callbacks(b, t, id);
    Smaller({h}, Callbacks(b, t, id));
  }

  lemma Smaller(a: set<Handle>, b: set<Handle>)
    requires a <= b
    ensures |a| <= |b|
  {
    assert b == a + (b - a);
    assert |b| == |a| + |b - a|;
  }

  // ---- the task in the index ----

  /** The live tasks of this id that are not in the index. */
  function Others(b: Table, id: Id): set<Handle> {
    set h | h in b.jobs && b.jobs[h].id == id && b.now < b.jobs[h].entry.due
            && !(id in b.index && b.index[id] == h)
  }

  function Dues(b: Table, hs: set<Handle>): set<nat> {
    set h | h in hs && h in b.jobs :: b.jobs[h].entry.due
  }

  /**
   * The deadline of a timer after these operations, or when it left the index if that was before: at its own
   * deadline, at the deadline of another task of its id, or when a new one was set.
   */
  function Fate(now: nat, e: Entry, others: set<nat>, ops: seq<Op>, id: Id): Entry
    decreases |ops|
  {
    if ops == [] then e
    else if ops[0].Tick? then
      if now + 1 == e.due || now + 1 in others then e else Fate(now + 1, e, others, ops[1..], id)
    else if ops[0].Set? && ops[0].id == id then e
    else Fate(now, Moved(now, e, ops[0], id), others, ops[1..], id)
  }

  /** While the task stays in the index, the others stay what they are. */
  lemma TickFate(b: Table, id: Id)
    requires Kept(b) && id in b.index
    ensures var h, c, dues := b.index[id], Passed(b), Dues(b, Others(b, id));
            && (id in c.index <==> b.now + 1 != b.jobs[h].entry.due && b.now + 1 !in dues)
            && (id in c.index ==> c.index[id] == h && Dues(c, Others(c, id)) == dues)
            && c.jobs == b.jobs && c.now == b.now + 1
  {
    var h, c := b.index[id], Passed(b);
    assert id in Ending(c) <==> b.now + 1 == b.jobs[h].entry.due || b.now + 1 in Dues(b, Others(b, id)) by {
      if b.now + 1 in Dues(b, Others(b, id)) {
        var g :| g in Others(b, id) && b.jobs[g].entry.due == b.now + 1;
        assert b.jobs[g].id == id;
      }
    }
    if id in c.index {
      assert Others(c, id) == Others(b, id) by {
        forall g | g in Others(b, id) ensures g in Others(c, id) {
          assert b.jobs[g].entry.due in Dues(b, Others(b, id));
        }
      }
    }
  }

  /** Any other operation but a set under this id. */
  lemma MovedFate(b: Table, op: Op, id: Id)
    requires Kept(b) && id in b.index && !op.Tick? && (op.Set? ==> op.id != id)
    ensures var h, c := b.index[id], TableStep(b, op);
            && id in c.index && c.index[id] == h && c.now == b.now && Dues(c, Others(c, id)) == Dues(b, Others(b, id))
            && h in c.jobs && c.jobs[h] == Job(id, Moved(b.now, b.jobs[h].entry, op, id))
  {
    hide Effective;
    var c := TableStep(b, op);
    assert forall g | g in Others(b, id) :: c.jobs[g] == b.jobs[g];
    assert Others(c, id) == Others(b, id);
  }

  lemma SetLoses(b: Table, id: Id, delay: Delay)
    requires Kept(b) && id in b.index
    ensures var h, c := b.index[id], Made(b, id, delay); Lost(c, h) && c.jobs[h] == b.jobs[h]
  {
    hide Effective;
  }

  lemma KeptIs(b: Table, id: Id)
    requires Kept(b) && id in b.index
    ensures b.index[id] in b.jobs && b.jobs[b.index[id]].id == id && b.now < b.jobs[b.index[id]].entry.due
  {
  }

  lemma OutIsLost(b: Table, h: Handle)
    requires h in b.jobs && b.jobs[h].id !in b.index
    ensures Lost(b, h)
  {
  }

  /** The task in the index meets its fate, whatever is done. */
  lemma {:induction false} FateIs(b: Table, id: Id, ops: seq<Op>)
    requires Kept(b) && id in b.index
    ensures b.index[id] in b.jobs
    ensures var h, c := b.index[id], TableRun(b, ops);
            h in c.jobs && c.jobs[h] == Job(id, Fate(b.now, b.jobs[h].entry, Dues(b, Others(b, id)), ops, id))
    decreases |ops|
  {
    hide Kept, Lost, TableStep, Effective, Moved, Others, Dues, Passed, Made;
    KeptIs(b, id);
    if ops != [] {
      var op, rest, h := ops[0], ops[1..], b.index[id];
      var c := TableStep(b, op);
      StepKept(b, op);
      if op.Tick? {
        TickFate(b, id);
        TickIsPassed(b);
        if id in c.index {
          FateIs(c, id, rest);
        } else {
          OutIsLost(c, h);
          RunLost(c, rest, h);
          LostIs(TableRun(c, rest), h);
        }
      } else if op.Set? && op.id == id {
        SetIsMade(b, op);
        SetLoses(b, id, op.delay);
        RunLost(c, rest, h);
        LostIs(TableRun(c, rest), h);
      } else {
        MovedFate(b, op, id);
        FateIs(c, id, rest);
      }
    }
  }

  lemma TickIsPassed(b: Table)
    ensures TableStep(b, Tick) == Passed(b)
  {
  }

  lemma SetIsMade(b: Table, op: Op)
    requires op.Set?
    ensures TableStep(b, op) == Made(b, op.id, op.delay)
  {
  }

  /** An id that is not in the index stays out of it until it is set. */
  lemma {:induction false} StaysOut(b: Table, id: Id, ops: seq<Op>)
    requires id !in b.index && NeverSet(ops, id)
    ensures id !in TableRun(b, ops).index
    decreases |ops|
  {
    hide Ending;
    if ops != [] {
      assert ops[0] in ops && forall o | o in ops[1..] :: o in ops;
      StaysOut(TableStep(b, ops[0]), id, ops[1..]);
    }
  }

  /** It leaves the index with the first of its tasks, and only then. */
  lemma {:induction false} LeavesIff(b: Table, id: Id, ops: seq<Op>)
    requires Kept(b) && id in b.index && NeverSet(ops, id)
    ensures b.index[id] in b.jobs
    ensures var c, dues := TableRun(b, ops), Dues(b, Others(b, id));
            var f := Fate(b.now, b.jobs[b.index[id]].entry, dues, ops, id);
            id in c.index <==> c.now < f.due && forall d | d in dues :: c.now < d
    decreases |ops|
  {
    hide Kept, TableStep, Effective, Moved, Others, Dues, Passed;
    KeptIs(b, id);
    if ops == [] {
      OthersLive(b, id);
    } else {
      var op, rest := ops[0], ops[1..];
      var c := TableStep(b, op);
      assert op in ops && forall o | o in rest :: o in ops;
      StepKept(b, op);
      if op.Tick? {
        TickFate(b, id);
        TickIsPassed(b);
        if id in c.index {
          LeavesIff(c, id, rest);
        } else {
          StaysOut(c, id, rest);
          RunKept(c, rest);
        }
      } else {
        MovedFate(b, op, id);
        LeavesIff(c, id, rest);
      }
    }
  }

  lemma OthersLive(b: Table, id: Id)
    ensures forall d | d in Dues(b, Others(b, id)) :: b.now < d
  {
  }

  // ---- all callbacks of one id ----

  /** The callbacks of these tasks in the run_timer call numbered `t`, by `now`. */
  function Ends(b: Table, hs: set<Handle>, t: nat, now: nat): set<Handle> {
    set h | h in hs && h in b.jobs && b.jobs[h].entry.due == t <= now && !b.jobs[h].entry.canceled
  }

  /** The callback of a task with this deadline. */
  function Adds(e: Entry, t: nat, now: nat): nat {
    if t == e.due <= now && !e.canceled then 1 else 0
  }

  /** No tasks of an id are made unless it is set. */
  lemma {:induction false} NoneMade(b: Table, id: Id, ops: seq<Op>)
    requires Kept(b) && NeverSet(ops, id)
    ensures var c := TableRun(b, ops);
            forall h | h in c.jobs && c.jobs[h].id == id :: h in b.jobs && b.jobs[h].id == id
    decreases |ops|
  {
    hide Kept, Ending, Effective;
    if ops != [] {
      assert ops[0] in ops && forall o | o in ops[1..] :: o in ops;
      StepKept(b, ops[0]);
      NoneMade(TableStep(b, ops[0]), id, ops[1..]);
    }
  }

  lemma GoneIsLost(b: Table, h: Handle)
    requires Kept(b) && h in b.jobs && b.jobs[h].entry.due <= b.now
    ensures Lost(b, h)
  {
  }

  lemma OtherIsLost(b: Table, id: Id, h: Handle)
    requires h in Others(b, id)
    ensures Lost(b, h) && b.jobs[h].id == id && b.now < b.jobs[h].entry.due
  {
  }

  lemma OneOfThree(b: Table, id: Id, h: Handle)
    requires h in b.jobs && b.jobs[h].id == id
    ensures b.jobs[h].entry.due <= b.now || h in Others(b, id) || (id in b.index && b.index[id] == h)
  {
  }

  /** The task in the index, as far as it runs. */
  function Own(c: Table, b: Table, id: Id, t: nat): set<Handle> {
    if id in b.index then Ends(c, {b.index[id]}, t, c.now) else {}
  }

  lemma CallbacksSplit(b: Table, id: Id, ops: seq<Op>, t: nat)
    requires Kept(b) && NeverSet(ops, id)
    ensures var c := TableRun(b, ops);
            Callbacks(c, t, id) == Callbacks(b, t, id) + Ends(b, Others(b, id), t, c.now) + Own(c, b, id, t)
  {
    hide Kept, Lost, TableRun, Others, NeverSet;
    var c := TableRun(b, ops);
    NoneMade(b, id, ops);
    RunKept(b, ops);
    forall h | h in b.jobs && b.jobs[h].id == id && (b.jobs[h].entry.due <= b.now || h in Others(b, id))
      ensures h in c.jobs && c.jobs[h] == b.jobs[h]
    {
      if h in Others(b, id) {
        OtherIsLost(b, id, h);
      } else {
        GoneIsLost(b, h);
      }
      RunLost(b, ops, h);
      LostIs(c, h);
    }
    if id in b.index {
      FateIs(b, id, ops);
    }
    forall h | h in b.jobs && b.jobs[h].id == id
      ensures b.jobs[h].entry.due <= b.now || h in Others(b, id) || (id in b.index && b.index[id] == h)
    {
      OneOfThree(b, id, h);
    }
    forall h | h in Others(b, id) ensures h in b.jobs && b.jobs[h].id == id && b.now < b.jobs[h].entry.due {
      OtherIsLost(b, id, h);
      LostIs(b, h);
    }
  }

  lemma SumOfThree(a: set<Handle>, b: set<Handle>, c: set<Handle>)
    requires a !! b && (a + b) !! c
    ensures |a + b + c| == |a| + |b| + |c|
  {
  }

  /** What becomes of the task in the index. */
  function FateOf(b: Table, id: Id, ops: seq<Op>): Entry
    requires id in b.index && b.index[id] in b.jobs
  {
    Fate(b.now, b.jobs[b.index[id]].entry, Dues(b, Others(b, id)), ops, id)
  }

  lemma OwnCount(b: Table, id: Id, ops: seq<Op>, t: nat)
    requires Kept(b) && id in b.index
    ensures b.index[id] in b.jobs
    ensures var c := TableRun(b, ops); |Own(c, b, id, t)| == Adds(FateOf(b, id, ops), t, c.now)
  {
    hide Kept, TableRun, Fate, Dues, Others;
    KeptIs(b, id);
    FateIs(b, id, ops);
    var c, h := TableRun(b, ops), b.index[id];
    assert Own(c, b, id, t) == if Adds(c.jobs[h].entry, t, c.now) == 1 then {h} else {};
  }

  lemma ThreeApart(b: Table, id: Id, c: Table, t: nat)
    requires Kept(b)
    ensures Callbacks(b, t, id) !! Ends(b, Others(b, id), t, c.now)
    ensures (Callbacks(b, t, id) + Ends(b, Others(b, id), t, c.now)) !! Own(c, b, id, t)
  {
  }

  lemma CallbackCount(b: Table, id: Id, ops: seq<Op>, t: nat)
    requires Kept(b) && NeverSet(ops, id)
    ensures id in b.index ==> b.index[id] in b.jobs
    ensures var c := TableRun(b, ops);
            |Callbacks(c, t, id)| == |Callbacks(b, t, id)| + |Ends(b, Others(b, id), t, c.now)|
                                     + if id in b.index then Adds(FateOf(b, id, ops), t, c.now) else 0
  {
    hide Kept, TableRun, Callbacks, Others, Ends, Adds, NeverSet, FateOf;
    var c := TableRun(b, ops);
    CallbacksSplit(b, id, ops, t);
    ThreeApart(b, id, c, t);
    SumOfThree(Callbacks(b, t, id), Ends(b, Others(b, id), t, c.now), Own(c, b, id, t));
    if id in b.index {
      KeptIs(b, id);
      OwnCount(b, id, ops, t);
    }
  }

  /**
   * One id in any state of any run, and any flushes and cancels of it from then on, whatever is done with the others:
   * its callback runs at the deadline of each live task outside the index, unless that was cancelled, and as the one
   * in the index fares; and the id leaves the index with the first of them.
   */
  lemma IdContract(w: Wheel, b: Table, id: Id, ops: seq<Op>, t: nat)
    requires Recorded(w, b, 1) && NeverSet(ops, id)
    ensures Sound(w) && w.now == b.now && w.timers == b.index && (id in b.index ==> b.index[id] in b.jobs)
    ensures var v, others := Run(w, ops), Others(b, id);
            && v.now == w.now + Ticks(ops)
            && (id in v.timers <==>
                  id in b.index && v.now < FateOf(b, id, ops).due && forall d | d in Dues(b, others) :: v.now < d)
            && Ran(v, t, id) == Ran(w, t, id) + |Ends(b, others, t, v.now)|
                                + if id in b.index then Adds(FateOf(b, id, ops), t, v.now) else 0
  {
    hide Recorded, Sound, Kept, Run, TableRun, Ran, Callbacks, Others, Dues, Ends, Adds, NeverSet, Fate;
    RecordedIs(w, b);
    RecordedKept(w, b);
    RunRecorded(w, b, ops);
    RecordedIs(Run(w, ops), TableRun(b, ops));
    RunKept(b, ops);
    CallbackCount(b, id, ops, t);
    if id in b.index {
      LeavesIff(b, id, ops);
    } else {
      StaysOut(b, id, ops);
    }
  }

  // ---- fates ----

  /** Left alone, a task keeps its deadline. */
  lemma {:induction false} ApartFate(now: nat, e: Entry, others: set<nat>, ops: seq<Op>, id: Id)
    requires Apart(ops, id)
    ensures Fate(now, e, others, ops, id) == e
    decreases |ops|
  {
    if ops != [] {
      assert ops[0] in ops && forall o | o in ops[1..] :: o in ops;
      ApartFate(if ops[0].Tick? then now + 1 else now, e, others, ops[1..], id);
    }
  }

  lemma {:induction false} CanceledFate(now: nat, e: Entry, others: set<nat>, ops: seq<Op>, id: Id)
    requires e.canceled
    ensures Fate(now, e, others, ops, id).canceled
    decreases |ops|
  {
    hide Effective;
    if ops != [] {
      if !ops[0].Tick? {
        CanceledFate(now, Moved(now, e, ops[0], id), others, ops[1..], id);
      } else if now + 1 != e.due && now + 1 !in others {
        CanceledFate(now + 1, e, others, ops[1..], id);
      }
    }
  }

  lemma ApartIsNeverSet(ops: seq<Op>, id: Id)
    requires Apart(ops, id)
    ensures NeverSet(ops, id)
  {
  }
}
