/** With fresh ids the wheel is a map from ids to deadlines; and what becomes of one timer whose own id is fresh. */
module TimerContracts {
  import opened WheelModel
  import opened Deadlines
  import opened TimerRuns
  import opened TaskTable
  import opened TaskFates

  // ---- one id ----

  /** The timer of this id is never set while HasTimer knows the id; of other ids nothing is asked. */
  predicate FreshFor(w: Wheel, ops: seq<Op>, id: Id)
    requires Sound(w)
    decreases |ops|
  {
    if ops == [] then true
    else
      StepSound(w, ops[0]);
      (ops[0].Set? && ops[0].id == id ==> id !in w.timers) && FreshFor(Step(w, ops[0]), ops[1..], id)
  }

  lemma {:induction false} NeverSetIsFresh(w: Wheel, ops: seq<Op>, id: Id)
    requires Sound(w) && NeverSet(ops, id)
    ensures FreshFor(w, ops, id)
    decreases |ops|
  {
    hide Sound, Step;
    if ops != [] {
      assert ops[0] in ops && forall o | o in ops[1..] :: o in ops;
      StepSound(w, ops[0]);
      NeverSetIsFresh(Step(w, ops[0]), ops[1..], id);
    }
  }

  /** A run with fresh ids throughout is one for every id. */
  lemma {:induction false} FreshIsFreshFor(w: Wheel, ops: seq<Op>, id: Id)
    requires Sound(w) && Fresh(w, ops)
    ensures FreshFor(w, ops, id)
    decreases |ops|
  {
    hide Sound, Step;
    if ops != [] {
      StepSound(w, ops[0]);
      FreshIsFreshFor(Step(w, ops[0]), ops[1..], id);
    }
  }

  lemma {:induction false} FreshForAppend(w: Wheel, xs: seq<Op>, ys: seq<Op>, id: Id)
    requires Sound(w)
    ensures FreshFor(w, xs + ys, id) <==> FreshFor(w, xs, id) && FreshFor(Run(w, xs), ys, id)
    decreases |xs|
  {
    hide Sound, Step;
    if xs == [] {
      assert xs + ys == ys;
    } else {
      assert (xs + ys)[1..] == xs[1..] + ys;
      StepSound(w, xs[0]);
      FreshForAppend(Step(w, xs[0]), xs[1..], ys, id);
    }
  }

  predicate FreshForFromStart(ops: seq<Op>, id: Id) {
    StartSound();
    FreshFor(START, ops, id)
  }

  /** A wheel that runs reach in which this id is fresh whenever it is set. */
  ghost predicate Reached(w: Wheel, id: Id)
    ensures Reached(w, id) ==> Sound(w)
  {
    exists ops :: FreshForFromStart(ops, id) && RunFromStart(ops) == w
  }

  /** The contracts below can be chained: what they start from is again reached. */
  lemma ReachedAfter(w: Wheel, ops: seq<Op>, id: Id)
    requires Reached(w, id) && FreshFor(w, ops, id)
    ensures Reached(Run(w, ops), id)
  {
    hide Sound, FreshFor, Run;
    var before :| FreshForFromStart(before, id) && RunFromStart(before) == w;
    StartSound();
    RunAppend(START, before, ops);
    FreshForAppend(START, before, ops, id);
    assert FreshForFromStart(before + ops, id) && RunFromStart(before + ops) == Run(w, ops);
  }

  lemma StepOthers(b: Table, op: Op, id: Id)
    requires Kept(b) && !op.Tick? && (op.Set? && op.id == id ==> id !in b.index)
    ensures Others(TableStep(b, op), id) <= Others(b, id)
  {
    hide Effective;
    if id in b.index {
      MovedFate(b, op, id);
    }
  }

  lemma TickOthers(b: Table, id: Id)
    requires Kept(b)
    ensures Others(Passed(b), id) <= Others(b, id) + if id in b.index then {b.index[id]} else {}
  {
    hide Ending;
  }

  /** A fresh id has no live task but the one in the index. */
  lemma StepAlone(b: Table, op: Op, id: Id)
    requires Kept(b) && Others(b, id) == {} && (op.Set? && op.id == id ==> id !in b.index)
    ensures Others(TableStep(b, op), id) == {}
  {
    if op.Tick? {
      TickOthers(b, id);
      if id in b.index {
        TickFate(b, id);
        assert Dues(b, {}) == {};
        hide Ending;
        assert b.index[id] !in Others(Passed(b), id);
      }
    } else {
      StepOthers(b, op, id);
    }
  }

  lemma {:induction false} RunAlone(w: Wheel, b: Table, ops: seq<Op>, id: Id)
    requires Sound(w) && Recorded(w, b, 1) && Others(b, id) == {} && FreshFor(w, ops, id)
    ensures Recorded(Run(w, ops), TableRun(b, ops), 1) && Others(TableRun(b, ops), id) == {}
    decreases |ops|
  {
    hide Recorded, Sound, Step, TableStep, Others;
    if ops != [] {
      StepSound(w, ops[0]);
      RecordedKept(w, b);
      SameIndex(w, b);
      StepRecorded(w, b, ops[0]);
      StepAlone(b, ops[0], id);
      RunAlone(Step(w, ops[0]), TableStep(b, ops[0]), ops[1..], id);
    }
  }

  lemma SameIndex(w: Wheel, b: Table)
    requires Recorded(w, b, 1)
    ensures w.timers == b.index && w.now == b.now
  {
  }

  lemma TableOf(w: Wheel, id: Id) returns (b: Table)
    requires Reached(w, id)
    ensures Recorded(w, b, 1) && Kept(b) && Others(b, id) == {} && w.timers == b.index && w.now == b.now
  {
    hide Sound, FreshFor, Run, TableRun, Recorded, Kept;
    var ops :| FreshForFromStart(ops, id) && RunFromStart(ops) == w;
    StartRecorded();
    StartSound();
    assert Others(EMPTY, id) == {};
    RunAlone(START, EMPTY, ops, id);
    b := TableRun(EMPTY, ops);
    RecordedKept(w, b);
    SameIndex(w, b);
  }

  // ---- what follows for it ----

  /** The contract of an id whose only live task is the one in the index. */
  lemma Outcome(w: Wheel, b: Table, id: Id, ops: seq<Op>, e: Entry, t: nat)
    requires Recorded(w, b, 1) && NeverSet(ops, id) && Others(b, id) == {}
    requires id in b.index && b.index[id] in b.jobs && b.jobs[b.index[id]].entry == e
    ensures Sound(w)
    ensures var v, f := Run(w, ops), Fate(w.now, e, {}, ops, id);
            && v.now == w.now + Ticks(ops)
            && (id in v.timers <==> v.now < f.due)
            && Ran(v, t, id) == Ran(w, t, id) + if t == f.due <= v.now && !f.canceled then 1 else 0
  {
    hide Recorded, Sound, NeverSet, Run, Ran, Fate, Ticks;
    IdContract(w, b, id, ops, t);
    assert Dues(b, {}) == {} && Ends(b, {}, t, Run(w, ops).now) == {};
  }

  /** A timer set under a fresh id: what is done from then on decides its fate. */
  lemma SetOutcome(w: Wheel, id: Id, delay: Delay, ops: seq<Op>, t: nat)
    requires Reached(w, id) && id !in w.timers && NeverSet(ops, id)
    ensures var v := Run(w, [Set(id, delay)] + ops);
            var f := Fate(w.now, Entry(w.now + Effective(delay), delay, false), {}, ops, id);
            && v.now == w.now + Ticks(ops)
            && (id in v.timers <==> v.now < f.due)
            && Ran(v, t, id) == Ran(w, t, id) + if t == f.due <= v.now && !f.canceled then 1 else 0
  {
    hide Reached, Sound, Recorded, Kept, NeverSet, Ran, SetTask, Effective, Run, Ticks, Fate, Others;
    var b := TableOf(w, id);
    SoundShape(w);
    RunFirst(w, Set(id, delay), ops);
    SetRecorded(w, b, id, delay);
    var u, c := SetTask(w, id, delay), Made(b, id, delay);
    StepAlone(b, Set(id, delay), id);
    SameLogs(w, u, id, delay);
    Outcome(u, c, id, ops, Entry(b.now + Effective(delay), delay, false), t);
  }

  lemma SameLogs(w: Wheel, v: Wheel, id: Id, delay: Delay)
    requires |w.slots| == CAPACITY && v == SetTask(w, id, delay)
    ensures v.now == w.now && forall t: nat, i: Id :: Ran(w, t, i) == Ran(v, t, i)
  {
    hide SetSlot;
  }

  /** A timer set under a fresh id and left alone runs exactly once, its delay after, and leaves the index then. */
  lemma SetContract(w: Wheel, id: Id, delay: Delay, rest: seq<Op>, t: nat)
    requires Reached(w, id) && id !in w.timers && Apart(rest, id)
    ensures var v, due := Run(w, [Set(id, delay)] + rest), w.now + Effective(delay);
            && v.now == w.now + Ticks(rest)
            && (id in v.timers <==> v.now < due)
            && Ran(v, t, id) == Ran(w, t, id) + if t == due <= v.now then 1 else 0
  {
    hide Reached, Sound, Apart, Ran, Effective, Run, Ticks, Fate, NeverSet;
    ApartIsNeverSet(rest, id);
    ApartFate(w.now, Entry(w.now + Effective(delay), delay, false), {}, rest, id);
    SetOutcome(w, id, delay, rest, t);
  }

  /** The pending timer of a fresh id. */
  lemma PendingTimer(w: Wheel, id: Id, ops: seq<Op>, t: nat) returns (e: Entry)
    requires Reached(w, id) && id in w.timers && NeverSet(ops, id)
    ensures w.timers[id] in w.heap
    ensures e.delay == w.heap[w.timers[id]].delay && e.canceled == w.heap[w.timers[id]].canceled && w.now < e.due
    ensures var v, f := Run(w, ops), Fate(w.now, e, {}, ops, id);
            && v.now == w.now + Ticks(ops)
            && (id in v.timers <==> v.now < f.due)
            && Ran(v, t, id) == Ran(w, t, id) + if t == f.due <= v.now && !f.canceled then 1 else 0
  {
    hide Reached, Sound, Recorded, Kept, NeverSet, Ran, Run, Ticks, Fate, Others;
    var b := TableOf(w, id);
    KeptIs(b, id);
    RecordedIs(w, b);
    e := b.jobs[b.index[id]].entry;
    Outcome(w, b, id, ops, e, t);
  }

  lemma FirstFate(now: nat, e: Entry, op: Op, rest: seq<Op>, id: Id)
    requires op == Flush(id) || op == Cancels(id)
    ensures Fate(now, e, {}, [op] + rest, id) == Fate(now, Moved(now, e, op, id), {}, rest, id)
  {
    assert ([op] + rest)[1..] == rest;
  }

  lemma FirstNeverSet(op: Op, rest: seq<Op>, id: Id)
    requires !op.Set? && NeverSet(rest, id)
    ensures NeverSet([op] + rest, id) && (!op.Tick? ==> Ticks([op] + rest) == Ticks(rest))
  {
    assert ([op] + rest)[1..] == rest;
  }

  /** A timer flushed and left alone runs exactly once, its delay after the flush, unless cancelled. */
  lemma FlushContract(w: Wheel, id: Id, rest: seq<Op>, t: nat)
    requires Reached(w, id) && id in w.timers && Apart(rest, id)
    ensures w.timers[id] in w.heap
    ensures var v, task := Run(w, [Flush(id)] + rest), w.heap[w.timers[id]];
            var due := w.now + Effective(task.delay);
            && v.now == w.now + Ticks(rest)
            && (id in v.timers <==> v.now < due)
            && Ran(v, t, id) == Ran(w, t, id) + if t == due <= v.now && !task.canceled then 1 else 0
  {
    hide Reached, Sound, Apart, Ran, Effective, Run, Ticks, Fate, NeverSet;
    ApartIsNeverSet(rest, id);
    FirstNeverSet(Flush(id), rest, id);
    var e := PendingTimer(w, id, [Flush(id)] + rest, t);
    FirstFate(w.now, e, Flush(id), rest, id);
    ApartFate(w.now, Moved(w.now, e, Flush(id), id), {}, rest, id);
  }

  /** A cancelled timer never runs, whatever else happens, until its id is set again. */
  lemma CancelContract(w: Wheel, id: Id, rest: seq<Op>, t: nat)
    requires Reached(w, id) && NeverSet(rest, id)
    ensures Ran(Run(w, [Cancels(id)] + rest), t, id) == Ran(w, t, id)
  {
    hide Reached, Sound, Recorded, Kept, Ran, Run, Ticks, Fate, NeverSet, Others;
    var ops := [Cancels(id)] + rest;
    FirstNeverSet(Cancels(id), rest, id);
    if id in w.timers {
      var e := PendingTimer(w, id, ops, t);
      FirstFate(w.now, e, Cancels(id), rest, id);
      CanceledFate(w.now, Moved(w.now, e, Cancels(id), id), {}, rest, id);
    } else {
      var b := TableOf(w, id);
      IdContract(w, b, id, ops, t);
      assert Ends(b, {}, t, Run(w, ops).now) == {};
    }
  }

  /** Up to its deadline, a task left alone has nothing behind it. */
  lemma {:induction false} ApartThenFate(now: nat, e: Entry, before: seq<Op>, after: seq<Op>, id: Id)
    requires Apart(before, id) && now + Ticks(before) < e.due
    ensures Fate(now, e, {}, before + after, id) == Fate(now + Ticks(before), e, {}, after, id)
    decreases |before|
  {
    if before == [] {
      assert before + after == after;
    } else {
      assert (before + after)[1..] == before[1..] + after;
      assert before[0] in before && forall o | o in before[1..] :: o in before;
      ApartThenFate(if before[0].Tick? then now + 1 else now, e, before[1..], after, id);
    }
  }

  lemma {:induction false} TicksAppend(xs: seq<Op>, ys: seq<Op>)
    ensures Ticks(xs + ys) == Ticks(xs) + Ticks(ys)
    decreases |xs|
  {
    if xs == [] {
      assert xs + ys == ys;
    } else {
      assert (xs + ys)[1..] == xs[1..] + ys;
      TicksAppend(xs[1..], ys);
    }
  }

  lemma NeverSetAppend(xs: seq<Op>, ys: seq<Op>, id: Id)
    ensures NeverSet(xs + ys, id) <==> NeverSet(xs, id) && NeverSet(ys, id)
  {
    assert forall op :: op in xs + ys <==> op in xs || op in ys;
  }

  /** A timer cancelled before its deadline never runs; its id leaves the index at that deadline all the same. */
  lemma CancelledInTime(w: Wheel, id: Id, delay: Delay, before: seq<Op>, after: seq<Op>, t: nat)
    requires Reached(w, id) && id !in w.timers && Apart(before, id) && Apart(after, id)
    requires Ticks(before) < Effective(delay)
    ensures var v := Run(Run(w, [Set(id, delay)] + before), [Cancels(id)] + after);
            && v.now == w.now + Ticks(before) + Ticks(after)
            && (id in v.timers <==> v.now < w.now + Effective(delay))
            && Ran(v, t, id) == Ran(w, t, id)
  {
    hide Reached, Sound, Apart, Ran, Effective, Run, Ticks, Fate, NeverSet;
    var e, later := Entry(w.now + Effective(delay), delay, false), [Cancels(id)] + after;
    ApartIsNeverSet(before, id);
    ApartIsNeverSet(after, id);
    FirstNeverSet(Cancels(id), after, id);
    NeverSetAppend(before, later, id);
    TicksAppend(before, later);
    RunAppend(w, [Set(id, delay)] + before, later);
    assert [Set(id, delay)] + before + later == [Set(id, delay)] + (before + later);
    SetOutcome(w, id, delay, before + later, t);
    ApartThenFate(w.now, e, before, later, id);
    var now := w.now + Ticks(before);
    FirstFate(now, e, Cancels(id), after, id);
    ApartFate(now, e.(canceled := true), {}, after, id);
  }

  // ---- all ids ----

  datatype Plan = Plan(now: nat, pending: map<Id, Entry>, fired: multiset<Firing>)

  const NOTHING: Plan := Plan(0, map[], multiset{})

  /** The callbacks that run at the current tick. */
  function Expiring(a: Plan): set<Firing> {
    set id | id in a.pending && a.pending[id].due == a.now && !a.pending[id].canceled :: Firing(a.now, id)
  }

  /** Time passes, and all deadlines that have come leave. */
  function TickOver(a: Plan): Plan {
    var c := a.(now := a.now + 1);
    c.(pending := map id | id in c.pending && c.pending[id].due != c.now :: c.pending[id],
       fired := c.fired + multiset(Expiring(c)))
  }

  function PlanStep(a: Plan, op: Op): Plan {
    match op
    case Set(id, delay) => a.(pending := a.pending[id := Entry(a.now + Effective(delay), delay, false)])
    case Tick => TickOver(a)
    case _ =>
      if op.id !in a.pending then a
      else a.(pending := a.pending[op.id := Moved(a.now, a.pending[op.id], op, op.id)])
  }

  function PlanRun(a: Plan, ops: seq<Op>): Plan
    decreases |ops|
  {
    if ops == [] then a else PlanRun(PlanStep(a, ops[0]), ops[1..])
  }

  /** How often the callback of `id` ran in the run_timer call numbered `t`. */
  function Fired(a: Plan, t: nat, id: Id): nat {
    a.fired[Firing(t, id)]
  }

  predicate SamePending(b: Table, a: Plan, id: Id) {
    if id in b.index then id in a.pending && b.index[id] in b.jobs && b.jobs[b.index[id]].entry == a.pending[id]
    else id !in a.pending
  }

  /** As far as this id is concerned, the table is the plan. */
  ghost predicate Follows(b: Table, a: Plan, id: Id) {
    && a.now == b.now && Others(b, id) == {} && SamePending(b, a, id)
    && forall t: nat :: Fired(a, t, id) == |Callbacks(b, t, id)|
  }

  lemma TickOutcome(a: Plan, id: Id, t: nat)
    ensures var b := TickOver(a);
            && b.now == a.now + 1
            && (id in b.pending <==> id in a.pending && a.pending[id].due != b.now)
            && (id in b.pending ==> b.pending[id] == a.pending[id])
            && Fired(b, t, id) == Fired(a, t, id)
                 + if id in a.pending && a.pending[id].due == b.now == t && !a.pending[id].canceled then 1 else 0
  {
    var c := a.(now := a.now + 1);
    assert Firing(t, id) in Expiring(c) <==>
           id in a.pending && a.pending[id].due == c.now == t && !a.pending[id].canceled;
  }

  lemma StepPending(b: Table, a: Plan, id: Id, op: Op)
    requires Kept(b) && SamePending(b, a, id) && a.now == b.now && !op.Tick?
    requires op.Set? && op.id == id ==> id !in b.index
    ensures SamePending(TableStep(b, op), PlanStep(a, op), id)
  {
    hide Effective, Others, Dues;
    if id in b.index {
      MovedFate(b, op, id);
    }
  }

  /** An operation that is no tick runs nothing, and does to one entry what it does to its task. */
  lemma StepFollows(b: Table, a: Plan, id: Id, op: Op)
    requires Kept(b) && Follows(b, a, id) && !op.Tick? && (op.Set? && op.id == id ==> id !in b.index)
    ensures Follows(TableStep(b, op), PlanStep(a, op), id)
  {
    StepAlone(b, op, id);
    StepPending(b, a, id, op);
    StepKept(b, op);
    PlanFires(a, op, id);
    hide Kept, SamePending, Others, Callbacks, TableStep, PlanStep, Fired;
    forall t: nat ensures Fired(PlanStep(a, op), t, id) == |Callbacks(TableStep(b, op), t, id)| {
      LaterCallbacks(b, op, id, t);
    }
  }

  lemma PlanFires(a: Plan, op: Op, id: Id)
    requires !op.Tick?
    ensures PlanStep(a, op).now == a.now && forall t: nat :: Fired(PlanStep(a, op), t, id) == Fired(a, t, id)
  {
    hide Effective, TickOver;
  }

  lemma LaterCallbacks(b: Table, op: Op, id: Id, t: nat)
    requires Kept(b) && !op.Tick?
    ensures Callbacks(TableStep(b, op), t, id) == Callbacks(b, t, id)
  {
  }

  lemma OneEnds(b: Table, id: Id, t: nat)
    requires Kept(b) && Others(b, id) == {}
    ensures var c := Passed(b);
            |Callbacks(c, t, id)| == |Callbacks(b, t, id)|
              + if id in b.index && Adds(b.jobs[b.index[id]].entry, t, c.now) == 1 then 1 else 0
  {
    var tick: seq<Op> := [Tick];
    assert tick[1..] == [] && TableRun(b, tick) == Passed(b);
    CallbackCount(b, id, tick, t);
    assert Ends(b, {}, t, b.now + 1) == {};
    if id in b.index {
      assert Fate(b.now, b.jobs[b.index[id]].entry, Dues(b, Others(b, id)), tick, id) == b.jobs[b.index[id]].entry;
    }
  }

  lemma TickFollows(b: Table, a: Plan, id: Id)
    requires Kept(b) && Follows(b, a, id)
    ensures Follows(Passed(b), TickOver(a), id)
  {
    StepAlone(b, Tick, id);
    TickIsPassed(b);
    hide Others, Callbacks, TickOver, Fired;
    forall t: nat ensures Fired(TickOver(a), t, id) == |Callbacks(Passed(b), t, id)| {
      TickOutcome(a, id, t);
      OneEnds(b, id, t);
    }
    TickOutcome(a, id, 0);
    if id in b.index {
      TickFate(b, id);
      assert Dues(b, {}) == {};
    }
  }

  /** In a run in which one id is fresh, the wheel does with it what the plan does, whatever is done with the others. */
  lemma {:induction false} RunFor(w: Wheel, b: Table, a: Plan, id: Id, ops: seq<Op>)
    requires Sound(w) && Recorded(w, b, 1) && Follows(b, a, id) && FreshFor(w, ops, id)
    ensures Recorded(Run(w, ops), TableRun(b, ops), 1) && Follows(TableRun(b, ops), PlanRun(a, ops), id)
    decreases |ops|
  {
    hide Recorded, Follows, Sound, Step, TableStep, PlanStep, Kept;
    if ops != [] {
      var op := ops[0];
      StepSound(w, op);
      SameIndex(w, b);
      RecordedKept(w, b);
      StepRecorded(w, b, op);
      if op.Tick? {
        TickFollows(b, a, id);
        TickIsPassed(b);
        TickIsOver(a);
      } else {
        StepFollows(b, a, id, op);
      }
      RunFor(Step(w, op), TableStep(b, op), PlanStep(a, op), id, ops[1..]);
    }
  }

  lemma TickIsOver(a: Plan)
    ensures PlanStep(a, Tick) == TickOver(a)
  {
  }

  lemma StartFollows(id: Id)
    ensures Follows(EMPTY, NOTHING, id)
  {
    assert Others(EMPTY, id) == {};
    forall t: nat ensures Callbacks(EMPTY, t, id) == {} {
    }
  }

  predicate AllTracked(w: Wheel, pending: map<Id, Entry>) {
    pending.Keys == w.timers.Keys && forall id | id in w.timers :: Tracks(w, w.timers[id], pending[id], 1)
  }

  /** The wheel refines the map of deadlines: the same ids are known, and the same callbacks ran at the same ticks. */
  lemma WheelRefines(ops: seq<Op>)
    requires FreshFromStart(ops)
    ensures var w, a := RunFromStart(ops), PlanRun(NOTHING, ops);
            && Sound(w) && Owned(w) && w.now == a.now
            && w.timers.Keys == a.pending.Keys && AllTracked(w, a.pending) && multiset(w.log) == a.fired
  {
    hide Recorded, Follows, Sound, Run, TableRun, PlanRun, Fresh, FreshFor, Owned, AllTracked;
    StartSound();
    StartRecorded();
    var w, b, a := RunFromStart(ops), TableRun(EMPTY, ops), PlanRun(NOTHING, ops);
    RunRecorded(START, EMPTY, ops);
    forall id: Id ensures Follows(b, a, id) {
      StartFollows(id);
      FreshIsFreshFor(START, ops, id);
      RunFor(START, EMPTY, NOTHING, id, ops);
    }
    AllFollow(w, b, a);
  }

  lemma AllFollow(w: Wheel, b: Table, a: Plan)
    requires Recorded(w, b, 1) && forall id: Id :: Follows(b, a, id)
    ensures Sound(w) && Owned(w) && w.now == a.now
    ensures w.timers.Keys == a.pending.Keys && AllTracked(w, a.pending) && multiset(w.log) == a.fired
  {
    RecordedIs(w, b);
    FollowOwned(w, b, a);
    FollowTracked(w, b, a);
    hide Recorded, Sound, Owned, AllTracked, Others, Callbacks;
    assert Follows(b, a, 0);
    forall id: Id ensures id in w.timers <==> id in a.pending {
      assert Follows(b, a, id);
    }
    forall f: Firing ensures multiset(w.log)[f] == a.fired[f] {
      assert Follows(b, a, f.id);
      assert Fired(a, f.at, f.id) == Ran(w, f.at, f.id);
      assert f == Firing(f.at, f.id);
    }
  }

  lemma FollowOwned(w: Wheel, b: Table, a: Plan)
    requires Stands(w, b) && forall id: Id :: Follows(b, a, id)
    ensures Owned(w)
  {
    hide Callbacks;
    forall h | h in w.heap ensures w.heap[h].id in w.timers && w.timers[w.heap[h].id] == h {
      assert Follows(b, a, w.heap[h].id);
      assert h !in Others(b, w.heap[h].id);
    }
  }

  lemma FollowTracked(w: Wheel, b: Table, a: Plan)
    requires Recorded(w, b, 1) && forall id: Id :: Follows(b, a, id)
    ensures AllTracked(w, a.pending)
  {
    hide Sound, Tracks, Counted, Callbacks, Others;
    RecordedSound(w, b);
    forall id: Id
      ensures (id in w.timers <==> id in a.pending) && (id in w.timers ==> Tracks(w, w.timers[id], a.pending[id], 1))
    {
      assert Follows(b, a, id);
      if id in w.timers {
        OwnTask(w, id);
      }
    }
  }
}
