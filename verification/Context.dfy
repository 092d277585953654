// src/runtime/context.cpp: the loop of one worker over its engine.

module Context {
  import opened Common
  import E = Engine
  import W = WorkerSteps

  const IO_POLL_SIZE: nat := 64

  // The scheduler's pending_tasks_, shared with every context.
  class Counter {
    var value: nat

    constructor ()
      ensures value == 0
    {
      value := 0;
    }

    method Increment()
      modifies this
      ensures value == old(value) + 1
    {
      value := value + 1;
    }

    // True is "it was one". At zero it wraps around.
    method Decrement() returns (last: bool)
      modifies this
      ensures value == if old(value) == 0 then 0xFFFF_FFFF_FFFF_FFFF else old(value) - 1
      ensures last <==> old(value) == 1
    {
      last := value == 1;
      value := if value == 0 then WORD - 1 else value - 1;
    }
  }

  // --- What a resumed coroutine does to its worker's engine ---

  // It, or another thread meanwhile, pushes a coroutine on the task queue; it
  // suspends one in io_suspend_once(), in a read or in a write.
  datatype Act = Pushes(h: Handle) | Waits(h: Handle) | Reads(a: E.Awaiter, h: Handle) | Writes(a: E.Awaiter, h: Handle)

  // One turn: the acts from resume() to the next suspension, what others than
  // this worker's reports do to the counter of unfinished coroutines meanwhile,
  // and whether the coroutine is done afterwards.
  datatype Turn = Turn(acts: seq<Act>, others: int, done: bool)

  // A coroutine lives suspended in an awaiter's request until the request is
  // answered, so an act that names an awaiter under way cannot happen; it is
  // taken to do nothing.
  predicate Possible(b: E.Books, act: Act) {
    act.Reads? || act.Writes? ==> act.a !in E.InPipeline(b)
  }

  function AfterAct(b: E.Books, act: Act): E.Books {
    if !Possible(b, act) then b
    else
      match act
      case Pushes(_) => b
      case Waits(h) => E.WaitAsked(b, h)
      case Reads(a, h) => E.ReadAsked(b, a, h)
      case Writes(a, h) => E.WriteAsked(b, a, h)
  }

  function AfterActs(b: E.Books, acts: seq<Act>): E.Books {
    if acts == [] then b else AfterAct(AfterActs(b, acts[..|acts| - 1]), acts[|acts| - 1])
  }

  function PushedBy(acts: seq<Act>): seq<Handle> {
    if acts == [] then []
    else
      var last := acts[|acts| - 1];
      PushedBy(acts[..|acts| - 1]) + if last.Pushes? then [last.h] else []
  }

  lemma OneMoreAct(b: E.Books, acts: seq<Act>, act: Act)
    ensures AfterActs(b, acts + [act]) == AfterAct(AfterActs(b, acts), act)
    ensures PushedBy(acts + [act]) == PushedBy(acts) + if act.Pushes? then [act.h] else []
  {
    assert (acts + [act])[..|acts|] == acts;
  }

  // --- The same for the first n turns of a batch ---

  function AfterTurns(b: E.Books, turns: nat -> Turn, n: nat): E.Books {
    if n == 0 then b else AfterActs(AfterTurns(b, turns, n - 1), turns(n - 1).acts)
  }

  function PushedIn(turns: nat -> Turn, n: nat): seq<Handle> {
    if n == 0 then [] else PushedIn(turns, n - 1) + PushedBy(turns(n - 1).acts)
  }

  function ByOthers(turns: nat -> Turn, n: nat): int {
    if n == 0 then 0 else ByOthers(turns, n - 1) + turns(n - 1).others
  }

  // The coroutines for which done() was true.
  function Finished(batch: seq<Handle>, turns: nat -> Turn): seq<Handle> {
    if batch == [] then []
    else
      var last := |batch| - 1;
      Finished(batch[..last], turns) + if turns(last).done then [batch[last]] else []
  }

  // Every coroutine that is done is reported once, and no other.
  lemma {:induction false} FinishedMeans(batch: seq<Handle>, turns: nat -> Turn)
    ensures |Finished(batch, turns)| == |set i: nat | i < |batch| && turns(i).done|
    ensures forall h :: h in Finished(batch, turns) <==> exists i: nat :: i < |batch| && turns(i).done && batch[i] == h
    decreases |batch|
  {
    if batch == [] {
      assert (set i: nat | i < 0 && turns(i).done) == {};
    } else {
      var last := |batch| - 1;
      FinishedMeans(batch[..last], turns);
      assert (set i: nat | i < |batch| && turns(i).done) ==
             (set i: nat | i < last && turns(i).done) + if turns(last).done then {last} else {};
    }
  }

  // What others do adds up.
  lemma {:induction false} ByOthersMeans(turns: nat -> Turn, n: nat, each: int)
    requires forall i: nat :: i < n ==> turns(i).others == each
    ensures ByOthers(turns, n) == n * each
    decreases n
  {
    if n > 0 { ByOthersMeans(turns, n - 1, each); }
  }

  // What the outside does in one round of the worker's loop: the turns of the
  // batch, what others push during each completion and while the worker waits,
  // and whether stop is requested at the test and at the end of the wait.
  datatype World = World(turns: nat -> Turn, outside: nat -> seq<Handle>, pushed: seq<Handle>, stop: bool, stopLater: bool)

  datatype RoundOutcome = Worked | Progressed | Left | Woken | Asleep | Failed(outcome: E.PollOutcome)

  // Such acts only add to what is waiting, queued and requested; the ring, the
  // kernel and what has been answered stay as they are.
  ghost predicate Grows(b: E.Books, c: E.Books) {
    && b.waiting <= c.waiting && b.toRead <= c.toRead && b.toWrite <= c.toWrite && b.requested <= c.requested
    && c.prepared == b.prepared && c.kernel == b.kernel && c.completions == b.completions
    && |c.requested| - |b.requested| == |c.toRead| - |b.toRead| + |c.toWrite| - |b.toWrite|
  }

  lemma {:induction false} ActsGrow(b: E.Books, acts: seq<Act>)
    ensures Grows(b, AfterActs(b, acts))
    decreases |acts|
  {
    hide E.InPipeline;
    if acts == [] {
    } else {
      ActsGrow(b, acts[..|acts| - 1]);
    }
  }

  lemma {:induction false} TurnsGrow(b: E.Books, turns: nat -> Turn, n: nat)
    ensures Grows(b, AfterTurns(b, turns, n))
    decreases n
  {
    hide AfterActs;
    if n > 0 {
      TurnsGrow(b, turns, n - 1);
      ActsGrow(AfterTurns(b, turns, n - 1), turns(n - 1).acts);
      hide Grows;
      GrowsOn(b, AfterTurns(b, turns, n - 1), AfterTurns(b, turns, n));
    } else {
      GrowsNot(b);
    }
  }

  lemma GrowsNot(b: E.Books)
    ensures Grows(b, b)
  {
  }

  lemma GrowsOn(a: E.Books, b: E.Books, c: E.Books)
    requires Grows(a, b) && Grows(b, c)
    ensures Grows(a, c)
  {
  }

  // The counter is x, up to wrapping around.
  ghost predicate Counts(value: nat, x: int) { (value - x) % 0x1_0000_0000_0000_0000 == 0 }

  lemma WrapsDown(x: int)
    ensures (if x % WORD == 0 then WORD - 1 else x % WORD - 1) == (x - 1) % WORD
  {
  }

  lemma CountOn(v: nat, x: int, d: int)
    requires Counts(v, x)
    ensures Counts((v + d) % WORD, x + d)
  {
    var w := (v + d) % WORD;
    assert w - (x + d) == (w - (v + d)) + (v - x);
  }

  lemma CountIs(v: nat, x: int)
    requires Counts(v, x) && v < WORD
    ensures v == x % 0x1_0000_0000_0000_0000
  {
  }

  class Context {
    const engine: E.Engine
    const pendingTasks: Counter
    var workBatch: seq<Handle>
    // The part of the batch still to be resumed; everything ever pushed on the
    // task queue, everything ever resumed, and every coroutine reported to
    // on_task_completed, in order.
    ghost var toResume: seq<Handle>
    ghost var enqueued: seq<Handle>
    ghost var resumed: seq<Handle>
    ghost var completed: seq<Handle>

    // At every moment what was pushed is what was resumed, then the rest of
    // the batch, then the queue.
    ghost predicate InOrder()
      reads this, engine`tasks
    {
      enqueued == resumed + toResume + engine.tasks
    }

    // What holds whenever the worker's loop comes round.
    ghost predicate Ready()
      reads this, engine, engine.uring
    {
      && engine.Valid() && engine.pendingSubmit == 0 && engine.inflightTasks == 0
      && InOrder() && toResume == []
    }

    // Nothing anywhere in the engine, the kernel included.
    ghost predicate Idle()
      reads this, engine, engine.uring
    {
      engine.tasks == [] && engine.ioWaiting == [] && E.InPipeline(engine.Io()) == multiset{}
    }

    constructor (pendingTasks: Counter)
      ensures this.pendingTasks == pendingTasks && fresh(engine) && fresh(engine.uring)
      ensures Ready() && resumed == [] && workBatch == [] && engine.tasks == []
    {
      this.pendingTasks := pendingTasks;
      engine := new E.Engine();
      workBatch, toResume, enqueued, resumed, completed := [], [], [], [], [];
    }

    // Any thread may call this at any time.
    method SubmitTask(h: Handle)
      modifies engine`tasks, `enqueued
      ensures engine.tasks == old(engine.tasks) + [h] && enqueued == old(enqueued) + [h]
      ensures old(InOrder()) ==> InOrder()
    {
      engine.SubmitTask(h);
      enqueued := enqueued + [h];
      assert resumed + toResume + (old(engine.tasks) + [h]) == (resumed + toResume + old(engine.tasks)) + [h];
    }

    // submit_tracked_task; None is a null handle. It is not asked whether the
    // scheduler still accepts coroutines.
    method SubmitTracked(h: Option<Handle>)
      modifies pendingTasks, engine`tasks, `enqueued
      ensures pendingTasks.value == old(pendingTasks.value) + if h.Some? then 1 else 0
      ensures engine.tasks == old(engine.tasks) + if h.Some? then [h.value] else []
      ensures enqueued == old(enqueued) + if h.Some? then [h.value] else []
      ensures old(InOrder()) ==> InOrder()
    {
      if h.None? { return; }
      pendingTasks.Increment();
      SubmitTask(h.value);
    }

    method PerformAct(act: Act)
      requires engine.Valid()
      modifies engine`tasks, engine`ioWaiting, engine`readQueue, engine`writeQueue, engine`inflightIo
      modifies engine`handleOf, engine`requested
      ensures engine.Valid() && engine.Io() == AfterAct(old(engine.Io()), act)
      ensures engine.tasks == old(engine.tasks) + if act.Pushes? then [act.h] else []
    {
      hide E.Balanced, E.IoUring.Outstanding, E.InPipeline, AfterAct;
      ActMeans(engine.Io(), act);
      match act
      case Pushes(h) => engine.SubmitTask(h);
      case Waits(h) => engine.SubmitIoWaiting(h);
      case Reads(a, h) =>
        var underWay := UnderWay(a);
        if !underWay { engine.AwaitRead(a, h); }
      case Writes(a, h) =>
        var underWay := UnderWay(a);
        if !underWay { engine.AwaitWrite(a, h); }
    }

    method UnderWay(a: E.Awaiter) returns (b: bool)
      ensures b <==> a in E.InPipeline(engine.Io())
    {
      b := a in engine.readQueue || a in engine.writeQueue || a in engine.uring.prepared ||
           a in engine.uring.Outstanding();
    }

    method PerformActs(acts: seq<Act>)
      requires engine.Valid()
      modifies engine`tasks, engine`ioWaiting, engine`readQueue, engine`writeQueue, engine`inflightIo
      modifies engine`handleOf, engine`requested
      ensures engine.Valid() && engine.Io() == AfterActs(old(engine.Io()), acts)
      ensures engine.tasks == old(engine.tasks) + PushedBy(acts)
    {
      hide E.Balanced, E.InPipeline, E.IoUring.Outstanding, AfterAct, AfterActs, PushedBy, Possible;
      ghost var b, queue := engine.Io(), engine.tasks;
      NoActs(b);
      for i := 0 to |acts|
        invariant engine.Valid() && engine.Io() == AfterActs(b, acts[..i])
        invariant engine.tasks == queue + PushedBy(acts[..i])
      {
        PerformAct(acts[i]);
        OneMoreAct(b, acts[..i], acts[i]);
        assert acts[..i] + [acts[i]] == acts[..i + 1];
      }
      assert acts[..|acts|] == acts;
    }

    // The next coroutine of the batch: resume() until it suspends, the test
    // for done(), and the report if it is.
    method ResumeNext(h: Handle, turn: Turn)
      requires engine.Valid() && InOrder() && toResume != [] && toResume[0] == h
      modifies pendingTasks, `toResume, `enqueued, `resumed, `completed
      modifies engine`tasks, engine`ioWaiting, engine`readQueue, engine`writeQueue, engine`inflightIo
      modifies engine`handleOf, engine`requested, engine`inflightTasks
      ensures engine.Valid() && InOrder() && engine.inflightTasks == old(engine.inflightTasks)
      ensures resumed == old(resumed) + [h] && toResume == old(toResume)[1..]
      ensures engine.Io() == AfterActs(old(engine.Io()), turn.acts)
      ensures engine.tasks == old(engine.tasks) + PushedBy(turn.acts)
      ensures completed == old(completed) + if turn.done then [h] else []
      ensures pendingTasks.value ==
                (old(pendingTasks.value) + turn.others - if turn.done then 1 else 0) % 0x1_0000_0000_0000_0000
    {
      hide E.Balanced, E.InPipeline, E.IoUring.Outstanding, AfterActs, PushedBy;
      ghost var queue := engine.tasks;
      engine.OnTaskResumeBegin();
      PerformActs(turn.acts);
      enqueued := enqueued + PushedBy(turn.acts);
      NextInOrder(resumed, toResume, queue, PushedBy(turn.acts));
      resumed, toResume := resumed + [h], toResume[1..];
      pendingTasks.value := (pendingTasks.value + turn.others) % WORD;
      engine.OnTaskResumeEnd();
      if turn.done {
        completed := completed + [h];
        WrapsDown(old(pendingTasks.value) + turn.others);
        var _ := pendingTasks.Decrement();
      }
    }

    // The coroutines resumed are the first min(64, size) of the queue, in
    // order; the counter has moved by what others did, less the number of
    // coroutines that are done.
    method ProcessWorkOnce(turns: nat -> Turn) returns (worked: bool)
      requires engine.Valid() && InOrder() && toResume == []
      modifies pendingTasks, `workBatch, `toResume, `enqueued, `resumed, `completed
      modifies engine`tasks, engine`ioWaiting, engine`readQueue, engine`writeQueue, engine`inflightIo
      modifies engine`handleOf, engine`requested, engine`inflightTasks
      ensures engine.Valid() && InOrder() && toResume == []
      ensures worked <==> old(engine.tasks) != []
      ensures worked ==>
                var n := Min(64, |old(engine.tasks)|);
                var done := |set i: nat | i < n && turns(i).done|;
                && resumed == old(resumed) + old(engine.tasks)[..n]
                && engine.tasks == old(engine.tasks)[n..] + PushedIn(turns, n)
                && engine.Io() == AfterTurns(old(engine.Io()), turns, n)
                && completed == old(completed) + Finished(old(engine.tasks)[..n], turns)
                && |completed| == |old(completed)| + done
                && pendingTasks.value == (old(pendingTasks.value) + ByOthers(turns, n) - done) % 0x1_0000_0000_0000_0000
      ensures engine.inflightTasks == old(engine.inflightTasks)
      ensures !worked ==>
                && workBatch == old(workBatch) && engine.tasks == old(engine.tasks) && engine.Io() == old(engine.Io())
                && resumed == old(resumed) && completed == old(completed)
                && pendingTasks.value == old(pendingTasks.value)
    {
      hide E.Balanced, Counts, E.InPipeline, E.IoUring.Outstanding, AfterTurns, PushedIn, Finished, ByOthers;
      ghost var queue := engine.tasks;
      var popped;
      workBatch, popped := engine.PopBatch(workBatch, W.BATCH_SIZE);
      assert queue == queue[..popped] + queue[popped..];
      if popped == 0 { return false; }
      toResume := workBatch;
      assert resumed + [] + queue == resumed + workBatch + engine.tasks;
      FinishedMeans(workBatch, turns);
      ProcessBatch(turns);
      worked := true;
    }

    method ProcessBatch(turns: nat -> Turn)
      requires engine.Valid() && InOrder() && toResume == workBatch != []
      modifies pendingTasks, `toResume, `enqueued, `resumed, `completed
      modifies engine`tasks, engine`ioWaiting, engine`readQueue, engine`writeQueue, engine`inflightIo
      modifies engine`handleOf, engine`requested, engine`inflightTasks
      ensures engine.Valid() && InOrder() && toResume == []
      ensures resumed == old(resumed) + workBatch
      ensures engine.tasks == old(engine.tasks) + PushedIn(turns, |workBatch|)
      ensures engine.Io() == AfterTurns(old(engine.Io()), turns, |workBatch|)
      ensures completed == old(completed) + Finished(workBatch, turns)
      ensures pendingTasks.value ==
                (old(pendingTasks.value) + ByOthers(turns, |workBatch|) - |Finished(workBatch, turns)|)
                % 0x1_0000_0000_0000_0000
      ensures engine.inflightTasks == old(engine.inflightTasks)
    {
      hide E.Balanced, Counts, E.InPipeline, E.IoUring.Outstanding, AfterActs, AfterTurns, PushedBy, PushedIn, Finished,
           ByOthers;
      ghost var b, queue, before, reports, value := engine.Io(), engine.tasks, resumed, completed, pendingTasks.value;
      NoTurns(b, turns, value);
      for i := 0 to |workBatch|
        invariant toResume == workBatch[i..]
        invariant engine.Valid() && InOrder() && engine.Io() == AfterTurns(b, turns, i)
        invariant resumed == before + workBatch[..i] && engine.tasks == queue + PushedIn(turns, i)
        invariant completed == reports + Finished(workBatch[..i], turns)
        invariant Counts(pendingTasks.value, value + ByOthers(turns, i) - |Finished(workBatch[..i], turns)|)
        invariant i > 0 ==> pendingTasks.value < WORD
        invariant engine.inflightTasks == old(engine.inflightTasks)
      {
        var turn := turns(i);
        CountOn(pendingTasks.value, value + ByOthers(turns, i) - |Finished(workBatch[..i], turns)|,
                turn.others - if turn.done then 1 else 0);
        OneMoreTurn(b, turns, workBatch, i);
        TakeOneMore(before, workBatch, i);
        Regroup(queue, PushedIn(turns, i), PushedBy(turn.acts));
        Regroup(reports, Finished(workBatch[..i], turns), if turn.done then [workBatch[i]] else []);
        ResumeNext(workBatch[i], turn);
      }
      assert workBatch[..|workBatch|] == workBatch;
      CountIs(pendingTasks.value, value + ByOthers(turns, |workBatch|) - |Finished(workBatch, turns)|);
    }

    // With nothing left over, a poll of this size never runs out of ring
    // entries, and short of an exception it leaves nothing over.
    method PollIoOnce(outside: nat -> seq<Handle>)
      returns (progress: bool, outcome: E.PollOutcome, ghost arrived: seq<E.Arrival>)
      requires Ready()
      modifies `enqueued, engine`tasks, engine`ioWaiting, engine`readQueue, engine`writeQueue, engine`inflightIo
      modifies engine`pendingSubmit, engine`resultOf, engine`completions, engine.uring
      ensures outcome != E.RingFull && engine.Valid() && InOrder()
      ensures E.Polled(old(engine.Io()), old(engine.tasks), old(engine.resultOf), 64, outcome, arrived,
                       engine.pendingSubmit, engine.Io(), engine.tasks, engine.resultOf)
      ensures old(engine.tasks) <= engine.tasks
      ensures outcome.Progress? ==> Ready() && outcome.n <= 192
      ensures !outcome.Progress? ==> engine.uring.broken
      ensures outcome.Progress? ==>
                |arrived| == 64 || (engine.uring.ready == [] && |arrived| >= |old(engine.uring.ready)|)
      ensures forall i :: 0 <= i < |arrived| && i < |old(engine.uring.ready)| ==>
                && arrived[i].done.awaiter == old(engine.uring.ready)[i].awaiter
                && arrived[i].done.result == old(engine.uring.ready)[i].result
      ensures progress <==>
                && outcome.Progress?
                && (old(engine.ioWaiting) != [] || old(engine.readQueue) != [] || old(engine.writeQueue) != []
                    || arrived != [])
      ensures outcome.Progress? && !progress ==>
                && engine.tasks == old(engine.tasks)
                && engine.ioWaiting == [] && engine.readQueue == [] && engine.writeQueue == []
      ensures outcome.Progress? ==>
                |E.InPipeline(engine.Io())| + |arrived| == |E.InPipeline(old(engine.Io()))|
    {
      hide E.Balanced, E.Polled, E.InPipeline, E.IoUring.Outstanding;
      ghost var b, queue, results := engine.Io(), engine.tasks, engine.resultOf;
      outcome, arrived := engine.PollIo(IO_POLL_SIZE, outside);
      E.PolledMeans(b, queue, results, IO_POLL_SIZE, outcome, arrived,
                    engine.pendingSubmit, engine.Io(), engine.tasks, engine.resultOf);
      E.Ledger(b);
      E.Ledger(engine.Io());
      progress := outcome.Progress? && outcome.n > 0;
      ghost var pushed := engine.tasks[|queue|..];
      assert engine.tasks == queue + pushed;
      enqueued := enqueued + pushed;
      assert resumed + toResume + (queue + pushed) == (resumed + toResume + queue) + pushed;
    }

    // wait_or_idle, during which other threads push what they like: it returns
    // only if stop is requested or there is something to do.
    method WaitOrIdle(stopRequested: bool, pushed: seq<Handle>) returns (woken: bool)
      requires engine.Valid() && InOrder()
      modifies engine`tasks, `enqueued
      ensures engine.Valid() && InOrder() && engine.tasks == old(engine.tasks) + pushed
      ensures enqueued == old(enqueued) + pushed
      ensures woken <==>
                || stopRequested || engine.tasks != [] || engine.ioWaiting != []
                || E.InPipeline(engine.Io()) != multiset{}
    {
      hide E.Balanced, E.InPipeline, E.IoUring.Outstanding;
      ghost var queue := engine.tasks;
      engine.LetOthersPush(pushed);
      enqueued := enqueued + pushed;
      assert resumed + toResume + (queue + pushed) == (resumed + toResume + queue) + pushed;
      woken := engine.MayProceed(stopRequested);
    }

    // One round of run(). The worker works off its queue before it polls, is
    // kept from neither by the other, leaves exactly when stop is requested
    // and it has nothing at all, and sleeps only when it has nothing at all.
    method Round(w: World) returns (r: RoundOutcome)
      requires Ready()
      modifies this, pendingTasks, engine, engine.uring
      ensures InOrder() && (!r.Failed? ==> Ready())
      ensures r.Failed? ==> r.outcome != E.RingFull && engine.uring.broken
      ensures r == Worked <==> old(engine.tasks) != []
      ensures r == Worked ==>
                var n := Min(64, |old(engine.tasks)|);
                && resumed == old(resumed) + old(engine.tasks)[..n]
                && engine.tasks == old(engine.tasks)[n..] + PushedIn(w.turns, n)
                && pendingTasks.value ==
                     (old(pendingTasks.value) + ByOthers(w.turns, n) - |set i: nat | i < n && w.turns(i).done|)
                     % 0x1_0000_0000_0000_0000
      ensures r != Worked ==>
                resumed == old(resumed) && completed == old(completed) && pendingTasks.value == old(pendingTasks.value)
      ensures r == Progressed || r.Failed? || old(engine.tasks) != [] ||
              (old(engine.ioWaiting) == [] && old(engine.readQueue) == [] && old(engine.writeQueue) == [] &&
               old(engine.uring.ready) == [])
      ensures old(Idle()) ==> r != Progressed && (w.stop ==> r == Left || r.Failed?)
      ensures r == Left ==> w.stop && Idle()
      ensures r == Asleep ==> !w.stopLater && Idle()
      ensures r == Woken ==> engine.tasks == w.pushed && (w.stopLater || !Idle())
      ensures old(enqueued) <= enqueued && old(resumed) <= resumed
    {
      hide E.Balanced, E.Polled, E.InPipeline, E.IoUring.Outstanding, AfterTurns, PushedIn, Finished, ByOthers;
      ghost var queue, n := engine.tasks, Min(64, |engine.tasks|);
      StillInOrder(resumed, queue, n, PushedIn(w.turns, n));
      var worked := ProcessWorkOnce(w.turns);
      if worked { return Worked; }
      r := QuietRound(w);
    }

    // The rest of a round for which there was no coroutine to resume.
    method QuietRound(w: World) returns (r: RoundOutcome)
      requires Ready() && engine.tasks == []
      modifies `enqueued, engine, engine.uring
      ensures InOrder() && (!r.Failed? ==> Ready()) && r != Worked
      ensures r.Failed? ==> r.outcome != E.RingFull && engine.uring.broken
      ensures r == Progressed || r.Failed? ||
              (old(engine.ioWaiting) == [] && old(engine.readQueue) == [] && old(engine.writeQueue) == [] &&
               old(engine.uring.ready) == [])
      ensures old(Idle()) ==> r != Progressed && (w.stop ==> r == Left || r.Failed?)
      ensures r == Left ==> w.stop && Idle()
      ensures r == Asleep ==> !w.stopLater && Idle()
      ensures r == Woken ==> engine.tasks == w.pushed && (w.stopLater || !Idle())
      ensures old(enqueued) <= enqueued
    {
      hide E.Balanced, E.Polled, E.InPipeline, E.IoUring.Outstanding;
      E.Emptied(engine.Io());
      var progress, outcome;
      ghost var arrived;
      progress, outcome, arrived := PollIoOnce(w.outside);
      if !outcome.Progress? { return Failed(outcome); }
      if progress { return Progressed; }
      var stop := engine.CanStop(w.stop);
      if stop { return Left; }
      var woken := WaitOrIdle(w.stopLater, w.pushed);
      r := if woken then Woken else Asleep;
    }

    // run(), as long as the worlds last. It is left only once stop has been
    // requested, and then, as when it sleeps on, everything that was ever
    // enqueued has been resumed and nothing is anywhere in the engine.
    method Run(worlds: seq<World>) returns (end: Option<RoundOutcome>)
      requires Ready()
      modifies this, pendingTasks, engine, engine.uring
      ensures end.Some? ==> end.value == Left || end.value == Asleep || end.value.Failed?
      ensures end == Some(Left) ==> exists i :: 0 <= i < |worlds| && worlds[i].stop
      ensures end == Some(Left) || end == Some(Asleep) ==> Idle() && resumed == enqueued
      ensures end.Some? && end.value.Failed? ==> end.value.outcome != E.RingFull && engine.uring.broken
      ensures end == None ==> Ready()
      ensures InOrder() && old(enqueued) <= enqueued && old(resumed) <= resumed
    {
      hide E.Balanced, E.InPipeline, E.IoUring.Outstanding, PushedIn, ByOthers;
      for i := 0 to |worlds|
        invariant Ready() && old(enqueued) <= enqueued && old(resumed) <= resumed
      {
        var r := Round(worlds[i]);
        if r == Left || r == Asleep || r.Failed? { return Some(r); }
      }
      end := None;
    }
  }

  lemma ActMeans(b: E.Books, act: Act)
    ensures match act
            case Pushes(_) => AfterAct(b, act) == b
            case Waits(h) => AfterAct(b, act) == E.WaitAsked(b, h)
            case Reads(a, h) => AfterAct(b, act) == if a in E.InPipeline(b) then b else E.ReadAsked(b, a, h)
            case Writes(a, h) => AfterAct(b, act) == if a in E.InPipeline(b) then b else E.WriteAsked(b, a, h)
  {
  }

  lemma NoActs(b: E.Books)
    ensures AfterActs(b, []) == b && PushedBy([]) == []
  {
  }

  lemma NoTurns(b: E.Books, turns: nat -> Turn, value: nat)
    ensures AfterTurns(b, turns, 0) == b && PushedIn(turns, 0) == [] && Finished([], turns) == []
    ensures ByOthers(turns, 0) == 0 && Counts(value, value)
  {
  }

  lemma OneMoreTurn(b: E.Books, turns: nat -> Turn, batch: seq<Handle>, i: nat)
    requires i < |batch|
    ensures AfterTurns(b, turns, i + 1) == AfterActs(AfterTurns(b, turns, i), turns(i).acts)
    ensures PushedIn(turns, i + 1) == PushedIn(turns, i) + PushedBy(turns(i).acts)
    ensures ByOthers(turns, i + 1) == ByOthers(turns, i) + turns(i).others
    ensures Finished(batch[..i + 1], turns) == Finished(batch[..i], turns) + if turns(i).done then [batch[i]] else []
  {
    assert batch[..i + 1][..i] == batch[..i];
  }

  lemma TakeOneMore(before: seq<Handle>, batch: seq<Handle>, i: nat)
    requires i < |batch|
    ensures (before + batch[..i]) + [batch[i]] == before + batch[..i + 1] && batch[i..][1..] == batch[i + 1..]
  {
  }

  lemma NextInOrder(before: seq<Handle>, batch: seq<Handle>, queue: seq<Handle>, pushed: seq<Handle>)
    requires batch != []
    ensures (before + batch + queue) + pushed == (before + [batch[0]]) + batch[1..] + (queue + pushed)
  {
  }

  lemma StillInOrder(before: seq<Handle>, queue: seq<Handle>, n: nat, pushed: seq<Handle>)
    requires n <= |queue|
    ensures before + [] + queue <= (before + queue[..n]) + [] + (queue[n..] + pushed)
  {
    assert (before + queue[..n]) + [] + (queue[n..] + pushed) == (before + [] + queue) + pushed;
  }

  // reschedule_or_resume, the way out of every wait queue: on a worker the
  // coroutine goes to the back of that worker's queue, elsewhere it is to be
  // resumed on the spot.
  method Reschedule(h: Option<Handle>, local: Context?) returns (onTheSpot: bool)
    modifies if local != null then {local, local.engine} else {}
    ensures onTheSpot <==> h.Some? && local == null
    ensures local != null ==>
              && (old(local.InOrder()) ==> local.InOrder()) && local.resumed == old(local.resumed)
              && local.engine.tasks == old(local.engine.tasks) + if h.Some? then [h.value] else []
  {
    if h.None? { return false; }
    if local != null {
      local.SubmitTask(h.value);
      return false;
    }
    onTheSpot := true;
  }

  // YieldAwaiter::await_suspend; without a worker the coroutine goes on and
  // await_resume throws.
  method Yield(h: Handle, local: Context?) returns (suspend: bool, missingContext: bool)
    modifies if local != null then {local, local.engine} else {}
    ensures suspend == (local != null) && missingContext == !suspend
    ensures local != null ==>
              && (old(local.InOrder()) ==> local.InOrder())
              && local.engine.tasks == old(local.engine.tasks) + [h]
  {
    if local == null { return false, true; }
    local.SubmitTask(h);
    return true, false;
  }

  datatype TrackedSubmission = Ignored | Tracked | DestroyedAndThrown

  // submit_to_scheduler for a handle.
  method SubmitToScheduler(h: Option<Handle>, local: Context?) returns (r: TrackedSubmission)
    modifies if local != null then {local, local.engine, local.pendingTasks} else {}
    ensures r == if h.None? then Ignored else if local == null then DestroyedAndThrown else Tracked
    ensures r == Tracked ==>
              && (old(local.InOrder()) ==> local.InOrder())
              && local.pendingTasks.value == old(local.pendingTasks.value) + 1
              && local.engine.tasks == old(local.engine.tasks) + [h.value]
    ensures r == Ignored && local != null ==>
              local.pendingTasks.value == old(local.pendingTasks.value) && local.engine.tasks == old(local.engine.tasks)
  {
    if h.None? { return Ignored; }
    if local == null { return DestroyedAndThrown; }
    local.SubmitTracked(h);
    r := Tracked;
  }
}
