/** A connection's idle timeout: what Connection asks of the wheel, and when the wheel releases it. */
module IdleTimeout {
  import opened WheelModel
  import opened Deadlines
  import opened TimerRuns
  import opened TaskTable
  import opened TaskFates
  import opened TimerContracts

  /** What can happen on the loop thread, as seen from one connection; `Elsewhere` is any other use of the wheel. */
  datatype Happening =
    | EnableTimeout(sec: Delay)
    | DisableTimeout
    | EventDispatched
    | Released
    | Elsewhere(op: Op)
    | SecondPasses

  /** The loop's wheel, and the connection's Is_Enable_Time_del. */
  datatype Timed = Timed(wheel: Wheel, enabled: bool)

  /** The wheel calls that one happening makes, with `id` the connection's timer. */
  function Calls(c: Timed, id: Id, h: Happening): seq<Op> {
    match h
    case EnableTimeout(sec) => (if id in c.wheel.timers then [Flush(id)] else []) + [Set(id, sec)]
    case DisableTimeout => if id in c.wheel.timers then [Cancels(id)] else []
    case EventDispatched => if c.enabled then [Flush(id)] else []
    case Released => if id in c.wheel.timers then [Cancels(id)] else []
    case Elsewhere(op) => [op]
    case SecondPasses => [Tick]
  }

  function Happens(c: Timed, id: Id, h: Happening): (d: Timed)
    requires Sound(c.wheel)
    ensures Sound(d.wheel)
  {
    Timed(Run(c.wheel, Calls(c, id, h)),
          match h
          case EnableTimeout(_) => true
          case DisableTimeout => false
          case Released => c.enabled && id !in c.wheel.timers
          case _ => c.enabled)
  }

  function AllHappen(c: Timed, id: Id, hs: seq<Happening>): (d: Timed)
    requires Sound(c.wheel)
    ensures Sound(d.wheel)
    decreases |hs|
  {
    if hs == [] then c else AllHappen(Happens(c, id, hs[0]), id, hs[1..])
  }

  function AllCalls(c: Timed, id: Id, hs: seq<Happening>): seq<Op>
    requires Sound(c.wheel)
    decreases |hs|
  {
    if hs == [] then [] else Calls(c, id, hs[0]) + AllCalls(Happens(c, id, hs[0]), id, hs[1..])
  }

  lemma {:induction false} HappenRun(c: Timed, id: Id, hs: seq<Happening>)
    requires Sound(c.wheel)
    ensures AllHappen(c, id, hs).wheel == Run(c.wheel, AllCalls(c, id, hs))
    decreases |hs|
  {
    hide Sound, Calls;
    if hs != [] {
      var d := Happens(c, id, hs[0]);
      HappenRun(d, id, hs[1..]);
      RunAppend(c.wheel, Calls(c, id, hs[0]), AllCalls(d, id, hs[1..]));
    }
  }

  /** Only the connection's own events, other timers, and time. */
  predicate Idling(hs: seq<Happening>, id: Id) {
    forall h | h in hs ::
      h.EventDispatched? || h.SecondPasses? || (h.Elsewhere? && !h.op.Tick? && h.op.id != id)
  }

  function Seconds(hs: seq<Happening>): nat
    decreases |hs|
  {
    if hs == [] then 0 else (if hs[0].SecondPasses? then 1 else 0) + Seconds(hs[1..])
  }

  /** When the connection was last active, among the events less than `sec` seconds apart; before, it was at `last`. */
  function LastActive(now: nat, last: nat, sec: nat, hs: seq<Happening>): nat
    decreases |hs|
  {
    if hs == [] then last
    else
      match hs[0]
      case EventDispatched => LastActive(now, if now < last + sec then now else last, sec, hs[1..])
      case SecondPasses => LastActive(now + 1, last, sec, hs[1..])
      case _ => LastActive(now, last, sec, hs[1..])
  }

  function CallOf(id: Id, h: Happening): Op {
    match h
    case Elsewhere(op) => op
    case SecondPasses => Tick
    case _ => Flush(id)
  }

  function CallsOf(id: Id, hs: seq<Happening>): seq<Op>
    decreases |hs|
  {
    if hs == [] then [] else [CallOf(id, hs[0])] + CallsOf(id, hs[1..])
  }

  lemma {:induction false} CallsWhileEnabled(c: Timed, id: Id, hs: seq<Happening>)
    requires Sound(c.wheel) && c.enabled && Idling(hs, id)
    ensures AllCalls(c, id, hs) == CallsOf(id, hs)
    decreases |hs|
  {
    hide Sound, Run;
    if hs != [] {
      assert hs[0] in hs && forall h | h in hs[1..] :: h in hs;
      CallsWhileEnabled(Happens(c, id, hs[0]), id, hs[1..]);
    }
  }

  /** After the deadline, events no longer count. */
  lemma {:induction false} TooLate(now: nat, last: nat, sec: nat, hs: seq<Happening>)
    requires last + sec <= now
    ensures LastActive(now, last, sec, hs) == last
    decreases |hs|
  {
    if hs != [] {
      TooLate(if hs[0].SecondPasses? then now + 1 else now, last, sec, hs[1..]);
    }
  }

  /** While the timer is pending, an event renews it and anything else but time leaves it. */
  lemma {:induction false} IdleFate(now: nat, last: nat, sec: Delay, id: Id, hs: seq<Happening>)
    requires 1 <= sec <= CAPACITY && now < last + sec && Idling(hs, id)
    ensures Fate(now, Entry(last + sec, sec, false), {}, CallsOf(id, hs), id)
         == Entry(LastActive(now, last, sec, hs) + sec, sec, false)
    decreases |hs|
  {
    if hs != [] {
      var h, rest, e := hs[0], hs[1..], Entry(last + sec, sec, false);
      assert h in hs && forall k | k in rest :: k in hs;
      assert ([CallOf(id, h)] + CallsOf(id, rest))[1..] == CallsOf(id, rest);
      if !h.SecondPasses? {
        IdleFate(now, if h.EventDispatched? then now else last, sec, id, rest);
      } else if now + 1 < last + sec {
        IdleFate(now + 1, last, sec, id, rest);
      } else {
        TooLate(now + 1, last, sec, rest);
      }
    }
  }

  lemma {:induction false} SecondsAreTicks(id: Id, hs: seq<Happening>)
    requires Idling(hs, id)
    ensures Ticks(CallsOf(id, hs)) == Seconds(hs)
    decreases |hs|
  {
    if hs != [] {
      assert hs[0] in hs && forall h | h in hs[1..] :: h in hs;
      assert ([CallOf(id, hs[0])] + CallsOf(id, hs[1..]))[1..] == CallsOf(id, hs[1..]);
      SecondsAreTicks(id, hs[1..]);
    }
  }

  lemma {:induction false} IdleNeverSets(id: Id, hs: seq<Happening>)
    requires Idling(hs, id)
    ensures NeverSet(CallsOf(id, hs), id)
    decreases |hs|
  {
    if hs != [] {
      assert hs[0] in hs && forall h | h in hs[1..] :: h in hs;
      IdleNeverSets(id, hs[1..]);
    }
  }

  /** The wheel calls made from enabling the timeout on. */
  lemma EnabledRun(c: Timed, id: Id, sec: Delay, hs: seq<Happening>)
    requires Sound(c.wheel) && id !in c.wheel.timers && Idling(hs, id)
    ensures AllHappen(c, id, [EnableTimeout(sec)] + hs).wheel == Run(c.wheel, [Set(id, sec)] + CallsOf(id, hs))
    ensures NeverSet(CallsOf(id, hs), id)
  {
    hide Sound, Idling, Run, SetTask, NeverSet;
    IdleNeverSets(id, hs);
    var d := Happens(c, id, EnableTimeout(sec));
    assert ([EnableTimeout(sec)] + hs)[1..] == hs;
    CallsWhileEnabled(d, id, hs);
    HappenRun(c, id, [EnableTimeout(sec)] + hs);
    assert [] + [Set(id, sec)] == [Set(id, sec)];
  }

  /** With its timeout enabled, and nothing else releasing it, a connection is released exactly `sec`
      seconds after the later of enabling the timeout and the last event dispatched before that. */
  lemma ReleasedWhenIdle(c: Timed, id: Id, sec: Delay, hs: seq<Happening>, t: nat)
    requires Reached(c.wheel, id) && id !in c.wheel.timers && 1 <= sec <= CAPACITY && Idling(hs, id)
    ensures var v, w := AllHappen(c, id, [EnableTimeout(sec)] + hs).wheel, c.wheel;
            var due := LastActive(w.now, w.now, sec, hs) + sec;
            && v.now == w.now + Seconds(hs)
            && (id in v.timers <==> v.now < due)
            && Ran(v, t, id) == Ran(w, t, id) + if t == due <= v.now then 1 else 0
  {
    hide Reached, Sound, Idling, Ran, Run, LastActive, Seconds, AllHappen, Fate, NeverSet, Ticks;
    EnabledRun(c, id, sec, hs);
    SetOutcome(c.wheel, id, sec, CallsOf(id, hs), t);
    IdleFate(c.wheel.now, c.wheel.now, sec, id, hs);
    SecondsAreTicks(id, hs);
  }

  /** Nothing enables the timeout, or sets its timer, again. */
  predicate Unrevived(hs: seq<Happening>, id: Id) {
    forall h | h in hs :: !h.EnableTimeout? && (h.Elsewhere? ==> !h.op.Set? || h.op.id != id)
  }

  lemma CallsNeverSet(c: Timed, id: Id, h: Happening)
    requires Unrevived([h], id)
    ensures NeverSet(Calls(c, id, h), id)
  {
    assert h in [h];
  }

  lemma {:induction false} NeverSetAgain(c: Timed, id: Id, hs: seq<Happening>)
    requires Sound(c.wheel) && Unrevived(hs, id)
    ensures NeverSet(AllCalls(c, id, hs), id)
    decreases |hs|
  {
    hide Sound, Run, Calls;
    if hs != [] {
      assert hs[0] in hs && Unrevived([hs[0]], id) && Unrevived(hs[1..], id);
      CallsNeverSet(c, id, hs[0]);
      NeverSetAgain(Happens(c, id, hs[0]), id, hs[1..]);
    }
  }

  lemma NotAfterCancel(c: Timed, id: Id, h: Happening, hs: seq<Happening>, t: nat)
    requires Reached(c.wheel, id) && Unrevived(hs, id) && (h.Released? || h.DisableTimeout?)
    ensures Ran(AllHappen(c, id, [h] + hs).wheel, t, id) == Ran(c.wheel, t, id)
  {
    hide Reached, Sound, Unrevived, NeverSet, Ran, CancelTask;
    var d := Happens(c, id, h);
    var ops := AllCalls(d, id, hs);
    assert ([h] + hs)[1..] == hs;
    assert [] + ops == ops;
    RunFirst(c.wheel, Cancels(id), []);
    assert [Cancels(id)] + [] == [Cancels(id)];
    if id !in c.wheel.timers {
      CancelNothing(c.wheel, id);
    }
    NeverSetAgain(d, id, hs);
    HappenRun(d, id, hs);
    RunFirst(c.wheel, Cancels(id), ops);
    CancelContract(c.wheel, id, ops, t);
  }

  /** Once ReleaseInloop has run, the timer's callback never does. */
  lemma NotAfterRelease(c: Timed, id: Id, hs: seq<Happening>, t: nat)
    requires Reached(c.wheel, id) && Unrevived(hs, id)
    ensures Ran(AllHappen(c, id, [Released] + hs).wheel, t, id) == Ran(c.wheel, t, id)
  {
    hide *;
    NotAfterCancel(c, id, Released, hs, t);
  }

  /** A wheel call that is time, a cancel of this timer, or made for somebody else. */
  predicate Quiet(op: Op, id: Id, hs: seq<Happening>) {
    op == Tick || op == Cancels(id) || Elsewhere(op) in hs
  }

  /** Once the timeout is off it stays off, and events make no wheel calls, until it is enabled again. */
  lemma {:induction false} OffIsQuiet(c: Timed, id: Id, hs: seq<Happening>)
    requires Sound(c.wheel) && !c.enabled && forall h | h in hs :: !h.EnableTimeout?
    ensures !AllHappen(c, id, hs).enabled && forall op | op in AllCalls(c, id, hs) :: Quiet(op, id, hs)
    decreases |hs|
  {
    hide Sound, Run;
    if hs != [] {
      var d, rest := Happens(c, id, hs[0]), hs[1..];
      assert hs[0] in hs && forall h | h in rest :: h in hs;
      OffIsQuiet(d, id, rest);
      forall op | op in Calls(c, id, hs[0]) + AllCalls(d, id, rest) ensures Quiet(op, id, hs) {
        assert op in Calls(c, id, hs[0]) || Quiet(op, id, rest);
      }
    }
  }

  /** So DisableTimeout ends it: its callback never runs, and no event renews or moves anything. */
  lemma DisabledIsOver(c: Timed, id: Id, hs: seq<Happening>, t: nat)
    requires Reached(c.wheel, id) && Unrevived(hs, id)
    ensures var d := AllHappen(c, id, [DisableTimeout] + hs);
            !d.enabled && Ran(d.wheel, t, id) == Ran(c.wheel, t, id)
    ensures forall op | op in AllCalls(Happens(c, id, DisableTimeout), id, hs) :: Quiet(op, id, hs)
  {
    hide Reached, Sound, Ran, Run, Quiet;
    NotAfterCancel(c, id, DisableTimeout, hs, t);
    assert ([DisableTimeout] + hs)[1..] == hs;
    OffIsQuiet(Happens(c, id, DisableTimeout), id, hs);
  }

  /** ReleaseInloop switches the timeout off where HasTimer knows the timer, and leaves it as it is elsewhere. */
  lemma ReleaseSwitchesOff(c: Timed, id: Id)
    requires Sound(c.wheel)
    ensures Happens(c, id, Released) == if id in c.wheel.timers then Happens(c, id, DisableTimeout) else c
    ensures !Happens(c, id, DisableTimeout).enabled
  {
    hide Sound;
  }

  lemma CancelNothing(w: Wheel, id: Id)
    requires id !in w.timers
    ensures CancelTask(w, id) == w
  {
  }
}
