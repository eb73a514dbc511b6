/** The event loop: any number of producer threads and one loop thread, interleaved step by step. */
module EventLoop {

  type Fd = nat
  type Chan = nat
  type Thread = nat

  const LOOP: Thread := 0
  /** The eventfd, its channel, and the counter value at which a write of 1 would block. */
  const EFD: Fd := 0
  const EFD_CHANNEL: Chan := 0
  const EFD_MAX: nat := 0xFFFF_FFFF_FFFF_FFFE

  // ---- the poller ----

  /** `channels` is the poller's map, `kernel` the descriptors epoll watches. */
  datatype Registry = Registry(channels: map<Fd, Chan>, kernel: set<Fd>)

  /** UpdateEvent: epoll_ctl adds a new descriptor unless it fails, the map gets it either way. */
  function Update(r: Registry, fd: Fd, ch: Chan, added: bool): Registry {
    if fd in r.channels then r
    else Registry(r.channels[fd := ch], if added then r.kernel + {fd} else r.kernel)
  }

  function Remove(r: Registry, fd: Fd): Registry {
    Registry(r.channels - {fd}, r.kernel - {fd})
  }

  predicate Known(r: Registry, fds: seq<Fd>) {
    forall fd | fd in fds :: fd in r.channels
  }

  function Lookup(r: Registry, fds: seq<Fd>): (active: seq<(Fd, Chan)>)
    requires Known(r, fds)
    ensures |active| == |fds|
    ensures forall i | 0 <= i < |fds| :: active[i] == (fds[i], r.channels[fds[i]])
  {
    if fds == [] then [] else [(fds[0], r.channels[fds[0]])] + Lookup(r, fds[1..])
  }

  // ---- the loop ----

  /** What a queued callable does to the poller: ReleaseInloop of the connection whose channel is `ch` removes `fd`. */
  datatype Task = Plain(name: nat) | ReleaseConn(fd: Fd, ch: Chan)

  datatype Phase = Polling | Dispatching(active: seq<(Fd, Chan)>) | Running(batch: seq<Task>) | Aborted

  /** `writers` are the threads that have pushed a task and not yet written the eventfd;
      `enqueued` and `executed` are the histories. */
  datatype Loop = Loop(
    phase: Phase,
    queue: seq<Task>,
    counter: nat,
    writers: set<Thread>,
    reg: Registry,
    enqueued: seq<Task>,
    executed: seq<Task>)

  const START: Loop := Loop(Polling, [], 0, {}, Registry(map[EFD := EFD_CHANNEL], {EFD}), [], [])

  /** `Push` and `Write` are the two halves of QueueInLoop, by any thread; `Interrupted` is a write that
      returns EINTR, and `ReadInterrupted` a dispatch to the eventfd whose read does. `Register` and `Closed`
      are what handlers and tasks do to the poller and the kernel. */
  datatype Step =
    | Push(t: Thread, task: Task)
    | Write(t: Thread)
    | Interrupted(t: Thread)
    | Poll(ready: seq<Fd>)
    | NoPoll
    | Dispatch
    | ReadInterrupted
    | Register(fd: Fd, ch: Chan, added: bool)
    | Closed(fd: Fd)
    | Swap
    | RunTask
    | EndBatch

  predicate LoopFree(s: Loop) {
    LOOP !in s.writers
  }

  predicate Enabled(s: Loop, step: Step) {
    match step
    case Push(t, task) =>
      t !in s.writers && (t == LOOP ==> !s.phase.Polling?) && (task.ReleaseConn? ==> task.fd != EFD)
    case Write(t) => t in s.writers
    case Interrupted(t) => t in s.writers
    case Poll(ready) =>
      && s.phase.Polling? && LoopFree(s) && ready != []
      && (forall fd | fd in ready :: fd in s.reg.kernel) && (EFD in ready ==> s.counter > 0)
    case NoPoll => s.phase.Polling? && LoopFree(s)
    case Dispatch => s.phase.Dispatching? && s.phase.active != [] && LoopFree(s)
    case ReadInterrupted =>
      s.phase.Dispatching? && s.phase.active != [] && s.phase.active[0].1 == EFD_CHANNEL && LoopFree(s)
    case Register(fd, ch, _) =>
      (s.phase.Dispatching? || s.phase.Running?) && LoopFree(s) && fd != EFD && ch != EFD_CHANNEL
    case Closed(fd) => fd != EFD
    case Swap => s.phase == Dispatching([]) && LoopFree(s)
    case RunTask => s.phase.Running? && s.phase.batch != [] && LoopFree(s)
    case EndBatch => s.phase == Running([]) && LoopFree(s)
  }

  function Do(s: Loop, step: Step): Loop
    requires Enabled(s, step)
  {
    match step
    case Push(t, task) =>
      s.(queue := s.queue + [task], enqueued := s.enqueued + [task], writers := s.writers + {t})
    case Write(t) =>
      s.(counter := if s.counter < EFD_MAX then s.counter + 1 else s.counter, writers := s.writers - {t})
    case Interrupted(t) => s.(writers := s.writers - {t})
    case Poll(ready) => s.(phase := if Known(s.reg, ready) then Dispatching(Lookup(s.reg, ready)) else Aborted)
    case NoPoll => s.(phase := Dispatching([]))
    case Dispatch =>
      s.(phase := Dispatching(s.phase.active[1..]),
         counter := if s.phase.active[0].1 == EFD_CHANNEL then 0 else s.counter)
    case ReadInterrupted => s.(phase := Dispatching(s.phase.active[1..]))
    case Register(fd, ch, added) => s.(reg := Update(s.reg, fd, ch, added))
    case Closed(fd) => s.(reg := s.reg.(kernel := s.reg.kernel - {fd}))
    case Swap => s.(phase := Running(s.queue), queue := [])
    case RunTask =>
      var task := s.phase.batch[0];
      s.(phase := Running(s.phase.batch[1..]),
         reg := if task.ReleaseConn? then Remove(s.reg, task.fd) else s.reg,
         executed := s.executed + [task])
    case EndBatch => s.(phase := Polling)
  }

  predicate Possible(s: Loop, steps: seq<Step>)
    decreases |steps|
  {
    steps == [] || (Enabled(s, steps[0]) && Possible(Do(s, steps[0]), steps[1..]))
  }

  function After(s: Loop, steps: seq<Step>): Loop
    requires Possible(s, steps)
    decreases |steps|
  {
    if steps == [] then s else After(Do(s, steps[0]), steps[1..])
  }

  // ---- what holds in every reachable state ----

  /** The tasks swapped out and not yet run. */
  function Batch(s: Loop): seq<Task> {
    if s.phase.Running? then s.phase.batch else []
  }

  /** Every task is executed once, in the order the pushes took the lock. */
  predicate Fifo(s: Loop) {
    s.enqueued == s.executed + Batch(s) + s.queue
  }

  /** Everything epoll watches is in the map; the eventfd is in both; each channel about to be
      dispatched is still the registered one. */
  predicate Registered(s: Loop) {
    && !s.phase.Aborted?
    && s.reg.kernel <= s.reg.channels.Keys
    && EFD in s.reg.kernel && s.reg.channels[EFD] == EFD_CHANNEL
    && (s.phase.Dispatching? ==>
          forall e | e in s.phase.active :: e.0 in s.reg.channels && s.reg.channels[e.0] == e.1)
    && (forall t | t in Batch(s) + s.queue :: t.ReleaseConn? ==> t.fd != EFD)
  }

  /** With tasks queued and no swap due before the next epoll_wait, it will not block for long. */
  predicate Wakeful(s: Loop) {
    s.queue != [] && (s.phase.Polling? || s.phase.Running?) ==> s.counter > 0 || s.writers != {}
  }

  lemma StepFifo(s: Loop, step: Step)
    requires Enabled(s, step) && Fifo(s)
    ensures Fifo(Do(s, step))
  {
    hide Lookup, Known;
    match step
    case Push(t, task) =>
      assert (s.executed + Batch(s) + s.queue) + [task] == s.executed + Batch(s) + (s.queue + [task]);
    case Swap =>
      assert s.executed + [] + s.queue == s.executed + s.queue + [];
    case RunTask =>
      var b := s.phase.batch;
      assert b == [b[0]] + b[1..];
      assert s.executed + ([b[0]] + b[1..]) + s.queue == (s.executed + [b[0]]) + b[1..] + s.queue;
    case _ =>
  }

  lemma StepRegistered(s: Loop, step: Step)
    requires Enabled(s, step) && Registered(s)
    ensures Registered(Do(s, step))
  {
  }

  lemma StepWakeful(s: Loop, step: Step)
    requires Enabled(s, step) && Wakeful(s) && !step.Interrupted?
    ensures Wakeful(Do(s, step))
  {
    hide Lookup, Known;
  }

  lemma {:induction false} RunKeeps(s: Loop, steps: seq<Step>)
    requires Possible(s, steps) && Fifo(s) && Registered(s)
    ensures Fifo(After(s, steps)) && Registered(After(s, steps))
    decreases |steps|
  {
    hide Fifo, Registered, Enabled, Do;
    if steps != [] {
      StepFifo(s, steps[0]);
      StepRegistered(s, steps[0]);
      RunKeeps(Do(s, steps[0]), steps[1..]);
    }
  }

  /** In every interleaving: exactly-once FIFO, and no dispatch to, or poll of, an unregistered channel. */
  lemma EveryRun(steps: seq<Step>)
    requires Possible(START, steps)
    ensures Fifo(After(START, steps)) && Registered(After(START, steps))
  {
    RunKeeps(START, steps);
  }

  /** The eventfd's counter never exceeds the largest value it can hold, and wake-ups beyond that are not needed. */
  lemma {:induction false} CounterFits(s: Loop, steps: seq<Step>)
    requires Possible(s, steps) && s.counter <= 0xFFFF_FFFF_FFFF_FFFE
    ensures After(s, steps).counter <= 0xFFFF_FFFF_FFFF_FFFE
    decreases |steps|
  {
    hide Lookup, Known, Update, Remove;
    if steps != [] {
      CounterFits(Do(s, steps[0]), steps[1..]);
    }
  }

  lemma First(s: Loop, step: Step, rest: seq<Step>)
    requires Enabled(s, step) && Possible(Do(s, step), rest)
    ensures Possible(s, [step] + rest) && After(s, [step] + rest) == After(Do(s, step), rest)
  {
    hide Enabled, Do;
    assert ([step] + rest)[1..] == rest;
  }

  /** The write given up was the last one to come, the counter is zero, and no swap is due before epoll_wait. */
  predicate Loses(s: Loop, step: Step) {
    && step.Interrupted? && s.queue != [] && (s.phase.Polling? || s.phase.Running?)
    && s.counter == 0 && s.writers == {step.t}
  }

  /** A step loses the wake-up if and only if it is such a write. */
  lemma LosesIff(s: Loop, step: Step)
    requires Enabled(s, step) && Wakeful(s)
    ensures Wakeful(Do(s, step)) <==> !Loses(s, step)
  {
    if step.Interrupted? {
      assert s.writers - {step.t} == {} ==> s.writers <= {step.t};
    } else {
      StepWakeful(s, step);
    }
  }

  predicate AlwaysWakeful(s: Loop, steps: seq<Step>)
    requires Possible(s, steps)
    decreases |steps|
  {
    Wakeful(s) && (steps == [] || AlwaysWakeful(Do(s, steps[0]), steps[1..]))
  }

  predicate NeverLoses(s: Loop, steps: seq<Step>)
    requires Possible(s, steps)
    decreases |steps|
  {
    steps == [] || (!Loses(s, steps[0]) && NeverLoses(Do(s, steps[0]), steps[1..]))
  }

  lemma {:induction false} WakefulIff(s: Loop, steps: seq<Step>)
    requires Possible(s, steps) && Wakeful(s)
    ensures AlwaysWakeful(s, steps) <==> NeverLoses(s, steps)
    decreases |steps|
  {
    hide Wakeful, Loses, Enabled, Do;
    if steps != [] {
      LosesIff(s, steps[0]);
      if !Loses(s, steps[0]) {
        WakefulIff(Do(s, steps[0]), steps[1..]);
      } else {
        NotWakeful(Do(s, steps[0]), steps[1..]);
      }
    }
  }

  lemma NotWakeful(s: Loop, steps: seq<Step>)
    requires Possible(s, steps) && !Wakeful(s)
    ensures !AlwaysWakeful(s, steps)
  {
  }

  /** In every interleaving, no wake-up is lost at any point if and only if no write is given up as the last hope. */
  lemma NoLostWakeUpIff(steps: seq<Step>)
    requires Possible(START, steps)
    ensures AlwaysWakeful(START, steps) <==> NeverLoses(START, steps)
  {
    WakefulIff(START, steps);
  }

  /** The failing input: one push whose write is interrupted. */
  lemma InterruptedWriteLoses(t: Thread, task: Task)
    requires t != LOOP && task.Plain?
    ensures var steps := [Push(t, task), Interrupted(t)];
            Possible(START, steps) && !NeverLoses(START, steps) && !AlwaysWakeful(START, steps)
            && !Wakeful(After(START, steps))
  {
    var s := Do(START, Push(t, task));
    First(s, Interrupted(t), []);
    First(START, Push(t, task), [Interrupted(t)]);
    assert [Interrupted(t)] + [] == [Interrupted(t)];
    var steps := [Push(t, task), Interrupted(t)];
    assert [Push(t, task)] + [Interrupted(t)] == steps;
    assert steps[1..] == [Interrupted(t)];
    assert s.writers == {t};
    assert Loses(s, Interrupted(t));
    NoLostWakeUpIff(steps);
  }

  // ---- a release that comes twice ----

  /** An entry leaves the map only by the release of its own channel. */
  predicate TakesOwn(s: Loop, step: Step)
    requires Enabled(s, step)
  {
    forall f | f in s.reg.channels && f !in Do(s, step).reg.channels ::
      step == RunTask && s.phase.batch[0] == ReleaseConn(f, s.reg.channels[f])
  }

  /** The release about to run finds its descriptor registered for its own channel, or not at all. */
  predicate FindsOwn(s: Loop, step: Step)
    requires Enabled(s, step)
  {
    step.RunTask? && s.phase.batch[0].ReleaseConn? && s.phase.batch[0].fd in s.reg.channels ==>
      s.reg.channels[s.phase.batch[0].fd] == s.phase.batch[0].ch
  }

  predicate AllTakeOwn(s: Loop, steps: seq<Step>)
    requires Possible(s, steps)
    decreases |steps|
  {
    steps == [] || (TakesOwn(s, steps[0]) && AllTakeOwn(Do(s, steps[0]), steps[1..]))
  }

  predicate AllFindOwn(s: Loop, steps: seq<Step>)
    requires Possible(s, steps)
    decreases |steps|
  {
    steps == [] || (FindsOwn(s, steps[0]) && AllFindOwn(Do(s, steps[0]), steps[1..]))
  }

  /** In any run, no release takes another channel out of the map if and only if each finds its own, or none. */
  lemma {:induction false} TakesOwnIff(s: Loop, steps: seq<Step>)
    requires Possible(s, steps)
    ensures AllTakeOwn(s, steps) <==> AllFindOwn(s, steps)
    decreases |steps|
  {
    hide Enabled, Do, TakesOwn, FindsOwn;
    if steps != [] {
      OwnStep(s, steps[0]);
      TakesOwnIff(Do(s, steps[0]), steps[1..]);
    }
  }

  lemma OwnStep(s: Loop, step: Step)
    requires Enabled(s, step)
    ensures TakesOwn(s, step) <==> FindsOwn(s, step)
  {
    hide Lookup, Known;
    if step.RunTask? {
      var task := s.phase.batch[0];
      if task.ReleaseConn? && task.fd in s.reg.channels {
        assert task.fd !in Do(s, step).reg.channels;
      }
    }
  }

  /** Released once, and the descriptor registered anew. */
  lemma ReleasedOnce(fd: Fd, ch: Chan, other: Chan) returns (s: Loop)
    requires fd != EFD && ch != EFD_CHANNEL && other != EFD_CHANNEL
    ensures var task := ReleaseConn(fd, ch);
            var steps := [NoPoll, Register(fd, ch, true), Push(1, task), Write(1), Push(2, task), Write(2),
                          Swap, RunTask, Register(fd, other, true)];
            Possible(START, steps) && s == After(START, steps)
            && s.phase == Running([task]) && s.writers == {} && s.executed == [task]
            && fd in s.reg.channels && s.reg.channels[fd] == other
  {
    var task, last := ReleaseConn(fd, ch), Register(fd, other, true);
    var before := [NoPoll, Register(fd, ch, true), Push(1, task), Write(1), Push(2, task), Write(2), Swap, RunTask];
    var s8 := FirstRelease(fd, ch);
    s := Do(s8, last);
    First(s8, last, []);
    hide Possible, After, Enabled, Do;
    var one: seq<Step> := [last];
    assert [last] + [] == one;
    Both(START, before, one);
    assert before + one == [NoPoll, Register(fd, ch, true), Push(1, task), Write(1), Push(2, task), Write(2),
                            Swap, RunTask, Register(fd, other, true)];
  }

  /**
   * The failing input: a connection released twice, whose descriptor the close callback of the first release
   * has registered for a new connection. That one is then out of the map without ever being released.
   */
  lemma SecondReleaseRemovesAnother(fd: Fd, ch: Chan, other: Chan)
    requires fd != EFD && ch != EFD_CHANNEL && other != EFD_CHANNEL && ch != other
    ensures var task := ReleaseConn(fd, ch);
            var steps := [NoPoll, Register(fd, ch, true), Push(1, task), Write(1), Push(2, task), Write(2),
                          Swap, RunTask, Register(fd, other, true)];
            && Possible(START, steps)
            && fd in After(START, steps).reg.channels && After(START, steps).reg.channels[fd] == other
            && Possible(START, steps + [RunTask]) && fd !in After(START, steps + [RunTask]).reg.channels
            && After(START, steps + [RunTask]).executed == [task, task]
  {
    var s9 := ReleasedOnce(fd, ch, other);
    First(s9, RunTask, []);
    var one: seq<Step> := [RunTask];
    assert [RunTask] + [] == one;
    hide Possible, After, Enabled;
    Both(START, [NoPoll, Register(fd, ch, true), Push(1, ReleaseConn(fd, ch)), Write(1), Push(2, ReleaseConn(fd, ch)),
                 Write(2), Swap, RunTask, Register(fd, other, true)], one);
  }

  lemma TwoSteps(s: Loop, a: Step, b: Step) returns (v: Loop)
    requires Enabled(s, a) && Enabled(Do(s, a), b)
    ensures v == Do(Do(s, a), b) && Possible(s, [a, b]) && After(s, [a, b]) == v
  {
    hide Enabled, Do;
    v := Do(Do(s, a), b);
    First(Do(s, a), b, []);
    First(s, a, [b] + []);
    assert [a] + ([b] + []) == [a, b];
  }

  /** A push and its write. */
  lemma Queues(s: Loop, t: Thread, task: Task) returns (v: Loop)
    requires t !in s.writers && t != LOOP && s.counter < EFD_MAX && (task.ReleaseConn? ==> task.fd != EFD)
    ensures Possible(s, [Push(t, task), Write(t)]) && v == After(s, [Push(t, task), Write(t)])
    ensures v == s.(queue := s.queue + [task], enqueued := s.enqueued + [task], counter := s.counter + 1)
  {
    v := TwoSteps(s, Push(t, task), Write(t));
    assert s.writers + {t} - {t} == s.writers;
  }

  lemma Swaps(s: Loop, fd: Fd, ch: Chan) returns (v: Loop)
    requires s.phase == Dispatching([]) && LoopFree(s) && s.queue != [] && s.queue[0] == ReleaseConn(fd, ch)
    ensures Possible(s, [Swap, RunTask]) && v == After(s, [Swap, RunTask])
    ensures v == s.(phase := Running(s.queue[1..]), queue := [], reg := Remove(s.reg, fd),
                    executed := s.executed + [s.queue[0]])
  {
    v := TwoSteps(s, Swap, RunTask);
  }

  lemma Registers(fd: Fd, ch: Chan) returns (v: Loop)
    requires fd != EFD && ch != EFD_CHANNEL
    ensures Possible(START, [NoPoll, Register(fd, ch, true)]) && v == After(START, [NoPoll, Register(fd, ch, true)])
    ensures v == START.(phase := Dispatching([]), reg := Update(START.reg, fd, ch, true))
  {
    v := TwoSteps(START, NoPoll, Register(fd, ch, true));
  }

  lemma FirstRelease(fd: Fd, ch: Chan) returns (s: Loop)
    requires fd != EFD && ch != EFD_CHANNEL
    ensures var task := ReleaseConn(fd, ch);
            var steps := [NoPoll, Register(fd, ch, true), Push(1, task), Write(1), Push(2, task), Write(2),
                          Swap, RunTask];
            Possible(START, steps) && s == After(START, steps)
            && s.phase == Running([task]) && s.writers == {} && fd !in s.reg.channels && s.executed == [task]
  {
    hide Possible, After, Enabled, Do, Update;
    var task := ReleaseConn(fd, ch);
    var s1 := Registers(fd, ch);
    var s2 := Queues(s1, 1, task);
    var s3 := Queues(s2, 2, task);
    assert s3.queue == [task, task] && s3.queue[1..] == [task];
    assert [] + [task] == [task];
    s := Swaps(s3, fd, ch);
    var a, b, c, d: seq<Step> :=
      [NoPoll, Register(fd, ch, true)], [Push(1, task), Write(1)], [Push(2, task), Write(2)], [Swap, RunTask];
    Both(START, a, b);
    Both(START, a + b, c);
    Both(START, a + b + c, d);
    assert a + b + c + d == [NoPoll, Register(fd, ch, true), Push(1, task), Write(1), Push(2, task), Write(2),
                             Swap, RunTask];
  }

  lemma {:induction false} Both(s: Loop, xs: seq<Step>, ys: seq<Step>)
    requires Possible(s, xs) && Possible(After(s, xs), ys)
    ensures Possible(s, xs + ys) && After(s, xs + ys) == After(After(s, xs), ys)
    decreases |xs|
  {
    hide Enabled, Do;
    if xs == [] {
      assert xs + ys == ys;
    } else {
      assert (xs + ys)[1..] == xs[1..] + ys;
      Both(Do(s, xs[0]), xs[1..], ys);
    }
  }

  // ---- whose channel a descriptor has ----

  /** No release of this descriptor runs. */
  predicate Unreleased(s: Loop, steps: seq<Step>, fd: Fd)
    requires Possible(s, steps)
    decreases |steps|
  {
    steps == [] ||
    (!(steps[0].RunTask? && s.phase.batch[0].ReleaseConn? && s.phase.batch[0].fd == fd)
     && Unreleased(Do(s, steps[0]), steps[1..], fd))
  }

  lemma KeepsChannel(s: Loop, step: Step, fd: Fd)
    requires Enabled(s, step) && fd in s.reg.channels
    requires !(step.RunTask? && s.phase.batch[0].ReleaseConn? && s.phase.batch[0].fd == fd)
    ensures fd in Do(s, step).reg.channels && Do(s, step).reg.channels[fd] == s.reg.channels[fd]
  {
    hide Lookup, Known;
  }

  lemma {:induction false} KeepsChannels(s: Loop, steps: seq<Step>, fd: Fd)
    requires Possible(s, steps) && Unreleased(s, steps, fd) && fd in s.reg.channels
    ensures fd in After(s, steps).reg.channels && After(s, steps).reg.channels[fd] == s.reg.channels[fd]
    decreases |steps|
  {
    hide Enabled, Do;
    if steps != [] {
      KeepsChannel(s, steps[0], fd);
      KeepsChannels(Do(s, steps[0]), steps[1..], fd);
    }
  }

  /**
   * A new connection has its own channel in the map, from its registration until a release of its descriptor, if
   * and only if the descriptor was not in the map before; otherwise the map keeps the channel that was.
   */
  lemma OwnChannelIff(s: Loop, fd: Fd, ch: Chan, added: bool, steps: seq<Step>)
    requires Enabled(s, Register(fd, ch, added)) && ch !in s.reg.channels.Values
    requires Possible(Do(s, Register(fd, ch, added)), steps) && Unreleased(Do(s, Register(fd, ch, added)), steps, fd)
    ensures var v := After(Do(s, Register(fd, ch, added)), steps);
            fd in v.reg.channels && (v.reg.channels[fd] == ch <==> fd !in s.reg.channels)
  {
    hide Enabled, Possible, After, Unreleased;
    var v := Do(s, Register(fd, ch, added));
    if fd in s.reg.channels {
      assert s.reg.channels[fd] in s.reg.channels.Values;
    }
    KeepsChannels(v, steps, fd);
  }

  /** No release of this descriptor runs, and the kernel does not close it. */
  predicate LeftOpen(s: Loop, steps: seq<Step>, fd: Fd)
    requires Possible(s, steps)
  {
    Unreleased(s, steps, fd) && Closed(fd) !in steps
  }

  lemma KeepsWatch(s: Loop, step: Step, fd: Fd)
    requires Enabled(s, step) && step != Closed(fd)
    requires !(step.RunTask? && s.phase.batch[0].ReleaseConn? && s.phase.batch[0].fd == fd)
    ensures fd in s.reg.kernel ==> fd in Do(s, step).reg.kernel
  {
    hide Lookup, Known;
  }

  lemma {:induction false} KeepsWatching(s: Loop, steps: seq<Step>, fd: Fd)
    requires Possible(s, steps) && LeftOpen(s, steps, fd) && fd in s.reg.kernel
    ensures fd in After(s, steps).reg.kernel
    decreases |steps|
  {
    hide Enabled, Do;
    if steps != [] {
      assert steps[0] in steps && forall x | x in steps[1..] :: x in steps;
      KeepsWatch(s, steps[0], fd);
      KeepsWatching(Do(s, steps[0]), steps[1..], fd);
    }
  }

  /**
   * A descriptor that is registered is watched by epoll, until it is closed or a release of it runs, if and only if it
   * was watched before or it was new and epoll_ctl succeeded; so epoll_wait may report it.
   */
  lemma WatchedIff(s: Loop, fd: Fd, ch: Chan, added: bool)
    requires Enabled(s, Register(fd, ch, added))
    ensures var v := Do(s, Register(fd, ch, added));
            && (fd in v.reg.kernel <==> fd in s.reg.kernel || (fd !in s.reg.channels && added))
            && (fd in v.reg.kernel ==> forall steps | Possible(v, steps) && LeftOpen(v, steps, fd) ::
                                         fd in After(v, steps).reg.kernel)
  {
    hide Possible, After, LeftOpen;
    var v := Do(s, Register(fd, ch, added));
    if fd in v.reg.kernel {
      forall steps | Possible(v, steps) && LeftOpen(v, steps, fd) ensures fd in After(v, steps).reg.kernel {
        KeepsWatching(v, steps, fd);
      }
    }
  }

  /** What the kernel closes it no longer watches or reports; the map keeps the entry until a release of it runs. */
  lemma ClosedIsNotReported(s: Loop, fd: Fd)
    requires Enabled(s, Closed(fd))
    ensures var v := Do(s, Closed(fd));
            && v.reg.channels == s.reg.channels && v.reg.kernel == s.reg.kernel - {fd}
            && forall ready | Enabled(v, Poll(ready)) :: fd !in ready
  {
  }

  /**
   * The failing input: a released connection that sends again is back in the map, although epoll_ctl fails; the next
   * connection on that descriptor then gets neither its channel into the map nor its descriptor into epoll.
   */
  lemma DeadChannelStays(fd: Fd, ch: Chan, other: Chan)
    requires fd != EFD && ch != EFD_CHANNEL && other != EFD_CHANNEL && ch != other
    ensures var steps := [NoPoll, Register(fd, ch, true), Push(1, ReleaseConn(fd, ch)), Write(1), Swap, RunTask,
                          Register(fd, ch, false), Register(fd, other, true)];
            Possible(START, steps)
            && var v := After(START, steps);
               fd in v.reg.channels && v.reg.channels[fd] == ch && fd !in v.reg.kernel
  {
    hide Possible, After, Enabled, Do;
    var task := ReleaseConn(fd, ch);
    var s1 := Registers(fd, ch);
    var s2 := Queues(s1, 1, task);
    assert s2.queue == [task];
    var s3 := Swaps(s2, fd, ch);
    var s4 := Reregisters(s3, fd, ch, other);
    var a, b, c, d: seq<Step> :=
      [NoPoll, Register(fd, ch, true)], [Push(1, task), Write(1)], [Swap, RunTask],
      [Register(fd, ch, false), Register(fd, other, true)];
    Both(START, a, b);
    Both(START, a + b, c);
    Both(START, a + b + c, d);
    assert a + b + c + d == [NoPoll, Register(fd, ch, true), Push(1, task), Write(1), Swap, RunTask,
                             Register(fd, ch, false), Register(fd, other, true)];
  }

  lemma Reregisters(s: Loop, fd: Fd, ch: Chan, other: Chan) returns (v: Loop)
    requires s.phase.Running? && LoopFree(s) && fd != EFD && ch != EFD_CHANNEL && other != EFD_CHANNEL
    requires fd !in s.reg.channels && fd !in s.reg.kernel
    ensures Possible(s, [Register(fd, ch, false), Register(fd, other, true)])
    ensures v == After(s, [Register(fd, ch, false), Register(fd, other, true)])
    ensures v.reg == Registry(s.reg.channels[fd := ch], s.reg.kernel)
  {
    v := TwoSteps(s, Register(fd, ch, false), Register(fd, other, true));
  }

  // ---- a queued task is executed by the next round ----

  lemma StepKeepsQueued(s: Loop, step: Step)
    requires Enabled(s, step)
    ensures s.enqueued <= Do(s, step).enqueued
  {
    hide Lookup, Known;
  }

  lemma {:induction false} RunKeepsQueued(s: Loop, steps: seq<Step>)
    requires Possible(s, steps)
    ensures s.enqueued <= After(s, steps).enqueued
    decreases |steps|
  {
    hide Enabled, Do;
    if steps != [] {
      StepKeepsQueued(s, steps[0]);
      RunKeepsQueued(Do(s, steps[0]), steps[1..]);
    }
  }

  /** The first `n` tasks are executed or in the batch. */
  predicate Covers(s: Loop, n: nat) {
    n <= |s.executed| + |Batch(s)|
  }

  lemma StepCovers(s: Loop, step: Step, n: nat)
    requires Enabled(s, step) && Fifo(s)
    ensures Covers(s, n) ==> Covers(Do(s, step), n)
    ensures step.Swap? && n <= |s.enqueued| ==> Covers(Do(s, step), n)
  {
    hide Lookup, Known;
  }

  lemma {:induction false} RunCovers(s: Loop, steps: seq<Step>, n: nat)
    requires Possible(s, steps) && Fifo(s) && (Covers(s, n) || (n <= |s.enqueued| && Swap in steps))
    ensures Covers(After(s, steps), n)
    decreases |steps|
  {
    hide Enabled, Do, Fifo, Covers;
    if steps != [] {
      var step, rest := steps[0], steps[1..];
      assert steps == [step] + rest;
      StepFifo(s, step);
      StepCovers(s, step, n);
      StepKeepsQueued(s, step);
      RunCovers(Do(s, step), rest, n);
    }
  }

  /** In every run, whatever was enqueued before a swap has been executed when the loop is back at epoll_wait. */
  lemma ExecutedByNextRound(s: Loop, steps: seq<Step>)
    requires Possible(s, steps) && Fifo(s) && Registered(s) && Swap in steps && After(s, steps).phase.Polling?
    ensures s.enqueued <= After(s, steps).executed
  {
    hide Registered, Possible, After, Enabled;
    var v := After(s, steps);
    RunKeepsQueued(s, steps);
    RunKeeps(s, steps);
    RunCovers(s, steps, |s.enqueued|);
    assert v.enqueued == v.executed + [] + v.queue;
    assert s.enqueued == v.enqueued[..|s.enqueued|];
  }

  function RunTasks(n: nat): seq<Step> {
    if n == 0 then [] else [RunTask] + RunTasks(n - 1)
  }

  /** One round of Start's loop that wakes for the eventfd alone, with `n` tasks to run. */
  function Round(n: nat): seq<Step> {
    [Poll([EFD]), Dispatch, Swap] + (RunTasks(n) + [EndBatch])
  }

  /** What running these tasks leaves of the poller. */
  function Released(r: Registry, batch: seq<Task>): Registry
    decreases |batch|
  {
    if batch == [] then r
    else Released(if batch[0].ReleaseConn? then Remove(r, batch[0].fd) else r, batch[1..])
  }

  lemma {:induction false} RunsBatch(s: Loop, n: nat)
    requires s.phase.Running? && LoopFree(s) && n == |s.phase.batch|
    ensures Possible(s, RunTasks(n) + [EndBatch])
    ensures After(s, RunTasks(n) + [EndBatch])
         == s.(phase := Polling, executed := s.executed + s.phase.batch, reg := Released(s.reg, s.phase.batch))
    decreases n
  {
    hide Remove;
    var b := s.phase.batch;
    if n == 0 {
      assert RunTasks(0) + [EndBatch] == [EndBatch] + [];
      assert s.executed + b == s.executed;
      First(s, EndBatch, []);
    } else {
      var next := Do(s, RunTask);
      RunsBatch(next, n - 1);
      First(s, RunTask, RunTasks(n - 1) + [EndBatch]);
      assert RunTasks(n) + [EndBatch] == [RunTask] + (RunTasks(n - 1) + [EndBatch]);
      assert s.executed + b == (s.executed + [b[0]]) + b[1..];
    }
  }

  /** The three steps from epoll_wait, woken by the eventfd, to the batch. */
  lemma WakesUp(s: Loop) returns (s1: Loop, s2: Loop)
    requires Registered(s) && s.counter > 0 && LoopFree(s) && s.phase.Polling?
    ensures Enabled(s, Poll([EFD])) && s1 == Do(s, Poll([EFD]))
    ensures Enabled(s1, Dispatch) && s2 == Do(s1, Dispatch) && Enabled(s2, Swap)
    ensures Do(s2, Swap) == s.(phase := Running(s.queue), queue := [], counter := 0)
  {
    s1 := Do(s, Poll([EFD]));
    assert Lookup(s.reg, [EFD]) == [(EFD, EFD_CHANNEL)];
    s2 := Do(s1, Dispatch);
  }

  /** A read of the eventfd that is interrupted leaves its counter positive, so the next epoll_wait reports it again. */
  lemma InterruptedReadIsSeenAgain(s: Loop)
    requires Registered(s) && s.counter > 0 && LoopFree(s) && s.phase.Polling? && s.writers == {}
    ensures var steps := [Poll([EFD]), ReadInterrupted, Swap] + (RunTasks(|s.queue|) + [EndBatch]);
            && Possible(s, steps)
            && var v := After(s, steps);
               v.phase.Polling? && v.queue == [] && v.counter == s.counter && v.executed == s.executed + s.queue
  {
    hide Released, RunTasks, Possible, After;
    var s1 := Do(s, Poll([EFD]));
    assert Lookup(s.reg, [EFD]) == [(EFD, EFD_CHANNEL)];
    var s2 := Do(s1, ReadInterrupted);
    var s3 := Do(s2, Swap);
    var n, rest := |s.queue|, RunTasks(|s.queue|) + [EndBatch];
    hide Enabled, Do, Registered;
    RunsBatch(s3, n);
    First(s2, Swap, rest);
    First(s1, ReadInterrupted, [Swap] + rest);
    First(s, Poll([EFD]), [ReadInterrupted] + ([Swap] + rest));
    assert [Poll([EFD]), ReadInterrupted, Swap] + rest == [Poll([EFD])] + ([ReadInterrupted] + ([Swap] + rest));
  }

  /** From any reachable state at epoll_wait with every write done, a round is possible and runs all that is queued. */
  lemma QueuedIsRun(s: Loop)
    requires Fifo(s) && Registered(s) && Wakeful(s)
    requires s.phase.Polling? && s.writers == {} && s.queue != []
    ensures Possible(s, Round(|s.queue|))
    ensures var v := After(s, Round(|s.queue|));
            v.phase.Polling? && v.queue == [] && v.executed == s.enqueued && v.reg == Released(s.reg, s.queue)
  {
    hide Released, RunTasks, Enabled, Do, Registered, Possible, After;
    var n := |s.queue|;
    var s1, s2 := WakesUp(s);
    var s3 := Do(s2, Swap);
    var rest := RunTasks(n) + [EndBatch];
    RunsBatch(s3, n);
    First(s2, Swap, rest);
    First(s1, Dispatch, [Swap] + rest);
    First(s, Poll([EFD]), [Dispatch] + ([Swap] + rest));
    assert Round(n) == [Poll([EFD])] + ([Dispatch] + ([Swap] + rest));
    assert s.executed + [] + s.queue == s.executed + s.queue;
  }

  // ---- the objects ----

  /** The poller's map and the loop's task queue, as the loop thread updates them; `kernel` is epoll's side. */
  class Poller {
    var channels: map<Fd, Chan>
    ghost var kernel: set<Fd>

    ghost function View(): Registry
      reads this
    {
      Registry(channels, kernel)
    }

    constructor ()
      ensures View() == Registry(map[], {})
    {
      channels, kernel := map[], {};
    }

    method UpdateEvent(fd: Fd, ch: Chan, ghost added: bool)
      modifies this
      ensures View() == Update(old(View()), fd, ch, added)
    {
      if fd !in channels {
        kernel := if added then kernel + {fd} else kernel;
        channels := channels[fd := ch];
        return;
      }
    }

    method RemoveEvent(fd: Fd)
      modifies this
      ensures View() == Remove(old(View()), fd)
    {
      if fd in channels {
        channels := channels - {fd};
      }
      kernel := kernel - {fd};
    }

    /** The channels of the descriptors epoll_wait returned; the source asserts that each has one. */
    method Poll(ready: seq<Fd>) returns (active: seq<(Fd, Chan)>)
      requires Known(View(), ready)
      ensures active == Lookup(View(), ready)
    {
      active := [];
      for i := 0 to |ready|
        invariant |active| == i && forall k | 0 <= k < i :: active[k] == (ready[k], channels[ready[k]])
      {
        var fd := ready[i];
        active := active + [(fd, channels[fd])];
      }
    }
  }

  function Flatten(arrivals: seq<seq<Task>>): seq<Task> {
    if arrivals == [] then [] else Flatten(arrivals[..|arrivals| - 1]) + arrivals[|arrivals| - 1]
  }

  class TaskLoop {
    var taskQueue: seq<Task>
    /** The eventfd's counter. */
    var counter: nat
    const poller: Poller
    ghost var executed: seq<Task>

    ghost function View(): Reactor
      reads this, poller
    {
      Reactor(poller.View(), taskQueue)
    }

    constructor ()
      ensures fresh(poller) && View() == Reactor(Registry(map[], {}), []) && executed == [] && counter == 0
    {
      poller := new Poller();
      taskQueue, executed, counter := [], [], 0;
    }

    /** QueueInLoop by one thread: the push under the lock, and the write that wakes the loop. */
    method QueueInLoop(task: Task)
      modifies this`taskQueue, this`counter
      ensures taskQueue == old(taskQueue) + [task]
      ensures counter == (if old(counter) < EFD_MAX then old(counter) + 1 else old(counter)) > 0
    {
      taskQueue := taskQueue + [task];
      if counter < EFD_MAX {
        counter := counter + 1;
      }
    }

    /** One task, while which these other tasks arrive, from itself or from any thread. */
    method Execute(task: Task, arrivals: seq<Task>)
      modifies this`executed, this`taskQueue, this`counter, poller
      ensures executed == old(executed) + [task] && taskQueue == old(taskQueue) + arrivals
      ensures poller.View() == Released(old(poller.View()), [task])
    {
      if task.ReleaseConn? {
        poller.RemoveEvent(task.fd);
      }
      for i := 0 to |arrivals|
        modifies this`taskQueue, this`counter
        invariant taskQueue == old(taskQueue) + arrivals[..i]
      {
        QueueInLoop(arrivals[i]);
      }
      executed := executed + [task];
      assert [task][1..] == [] && arrivals[..|arrivals|] == arrivals;
    }

    /** RunAlltask: the queue is swapped out and run; what arrives meanwhile waits, in order, for the next round. */
    method RunAllTask(arrivals: seq<seq<Task>>)
      requires |arrivals| == |taskQueue|
      modifies this`taskQueue, this`executed, this`counter, poller
      ensures executed == old(executed) + old(taskQueue) && taskQueue == Flatten(arrivals)
      ensures poller.View() == Released(old(poller.View()), old(taskQueue))
    {
      var batch := taskQueue;
      taskQueue := [];
      for i := 0 to |batch|
        invariant executed == old(executed) + batch[..i] && taskQueue == Flatten(arrivals[..i])
        invariant Released(poller.View(), batch[i..]) == Released(old(poller.View()), batch)
      {
        ghost var rest := batch[i..];
        Execute(batch[i], arrivals[i]);
        assert rest[1..] == batch[i + 1..];
        assert arrivals[..i + 1][..i] == arrivals[..i];
      }
      assert arrivals[..|batch|] == arrivals && batch[..|batch|] == batch;
    }
  }

  // ---- what one connection's handlers do to the loop ----

  /** The poller's registry and the task queue. */
  datatype Reactor = Reactor(reg: Registry, queue: seq<Task>)

  function Releases(fd: Fd, ch: Chan, n: nat): seq<Task> {
    if n == 0 then [] else Releases(fd, ch, n - 1) + [ReleaseConn(fd, ch)]
  }

  /** At most one descriptor is new in the map, no entry is gone or changed, and `n` releases are queued. */
  predicate Reacted(a: Reactor, b: Reactor, fd: Fd, ch: Chan, n: nat) {
    && (b.reg == a.reg || b.reg == Update(a.reg, fd, ch, true) || b.reg == Update(a.reg, fd, ch, false))
    && b.queue == a.queue + Releases(fd, ch, n)
  }

  lemma {:induction false} MoreReleases(fd: Fd, ch: Chan, m: nat, n: nat)
    ensures Releases(fd, ch, m) + Releases(fd, ch, n) == Releases(fd, ch, m + n)
  {
    if n != 0 {
      MoreReleases(fd, ch, m, n - 1);
    }
  }

  lemma ReactedTwice(a: Reactor, b: Reactor, c: Reactor, fd: Fd, ch: Chan, m: nat, n: nat)
    requires Reacted(a, b, fd, ch, m) && Reacted(b, c, fd, ch, n)
    ensures Reacted(a, c, fd, ch, m + n)
  {
    MoreReleases(fd, ch, m, n);
    assert (a.queue + Releases(fd, ch, m)) + Releases(fd, ch, n)
        == a.queue + (Releases(fd, ch, m) + Releases(fd, ch, n));
    hide Releases;
  }

  lemma ReactedKeeps(a: Reactor, b: Reactor, fd: Fd, ch: Chan, n: nat)
    requires Reacted(a, b, fd, ch, n)
    ensures forall f | f in a.reg.channels :: f in b.reg.channels && b.reg.channels[f] == a.reg.channels[f]
    ensures a.reg.kernel <= b.reg.kernel
  {
  }

  /** The steps of the loop thread that a handler makes. */
  function HandlerSteps(a: Reactor, b: Reactor, fd: Fd, ch: Chan, n: nat): seq<Step> {
    (if b.reg == a.reg then [] else [Register(fd, ch, b.reg == Update(a.reg, fd, ch, true))]) + QueueSteps(fd, ch, n)
  }

  function QueueSteps(fd: Fd, ch: Chan, n: nat): seq<Step> {
    if n == 0 then [] else [Push(LOOP, ReleaseConn(fd, ch)), Write(LOOP)] + QueueSteps(fd, ch, n - 1)
  }

  lemma {:induction false} QueueRuns(s: Loop, fd: Fd, ch: Chan, n: nat)
    requires LoopFree(s) && s.phase.Dispatching? && fd != EFD
    ensures Possible(s, QueueSteps(fd, ch, n))
    ensures var v := After(s, QueueSteps(fd, ch, n));
            v.phase == s.phase && v.reg == s.reg && v.queue == s.queue + Releases(fd, ch, n) && v.writers == s.writers
    decreases n
  {
    if n == 0 {
      assert s.queue + [] == s.queue;
    } else {
      var task := ReleaseConn(fd, ch);
      var s1 := Do(s, Push(LOOP, task));
      var s2 := Do(s1, Write(LOOP));
      assert s2.writers == s.writers;
      QueueRuns(s2, fd, ch, n - 1);
      First(s1, Write(LOOP), QueueSteps(fd, ch, n - 1));
      First(s, Push(LOOP, task), [Write(LOOP)] + QueueSteps(fd, ch, n - 1));
      hide Possible, After, Do, Enabled;
      assert [Push(LOOP, task)] + ([Write(LOOP)] + QueueSteps(fd, ch, n - 1)) == QueueSteps(fd, ch, n);
      MoreReleases(fd, ch, 1, n - 1);
      assert Releases(fd, ch, 1) == [task];
      assert s.queue + ([task] + Releases(fd, ch, n - 1)) == (s.queue + [task]) + Releases(fd, ch, n - 1);
    }
  }

  /**
   * Such a handler is a run of the loop thread's steps: after any dispatch, whatever it did, each channel
   * still to be dispatched is registered, and its releases wait behind the dispatch loop.
   */
  lemma HandlerRuns(s: Loop, b: Reactor, fd: Fd, ch: Chan, n: nat)
    requires Fifo(s) && Registered(s) && LoopFree(s) && s.phase.Dispatching? && fd != EFD && ch != EFD_CHANNEL
    requires Reacted(Reactor(s.reg, s.queue), b, fd, ch, n)
    ensures var steps := HandlerSteps(Reactor(s.reg, s.queue), b, fd, ch, n);
            Possible(s, steps) && var v := After(s, steps);
                                  v.phase == s.phase && v.reg == b.reg && v.queue == b.queue && Registered(v)
  {
    hide Registered, Fifo, Possible, After;
    var steps := HandlerSteps(Reactor(s.reg, s.queue), b, fd, ch, n);
    if b.reg == s.reg {
      QueueRuns(s, fd, ch, n);
      assert [] + QueueSteps(fd, ch, n) == QueueSteps(fd, ch, n);
    } else {
      var step := Register(fd, ch, b.reg == Update(s.reg, fd, ch, true));
      QueueRuns(Do(s, step), fd, ch, n);
      First(s, step, QueueSteps(fd, ch, n));
    }
    RunKeeps(s, steps);
  }
}
