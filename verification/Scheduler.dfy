// src/runtime/scheduler.cpp: which coroutines are accepted, how many of them
// have not finished, and when loop() lets go.

module Scheduler {
  import opened Common
  import C = Context
  import D = Dispatcher

  // The state under state_mutex_ with the two atomics. pending is the counter
  // of accepted coroutines that have not finished; it is an int, so that an
  // underflow would show.
  datatype Sched = Sched(
    initialized: bool,
    accepting: bool,
    stopRequested: bool,
    pending: int,
    contexts: nat,
    next: nat)

  function Initialize(s: Sched, count: nat): Sched {
    if s.initialized then s
    else Sched(true, true, false, 0, if count == 0 then 1 else count, 0)
  }

  // The locked block of submit_new: the context to enqueue on, or a refusal.
  // An initialized scheduler always has contexts.
  function Accept(s: Sched): (Sched, Option<nat>) {
    if !s.initialized || !s.accepting || s.contexts == 0 then (s, None)
    else (s.(pending := s.pending + 1, next := D.Ticket(s.next, 1)), Some(D.Choice(s.next, 0, s.contexts)))
  }

  // on_task_completed.
  function TaskCompleted(s: Sched): Sched { s.(pending := s.pending - 1) }

  // The predicate of the wait in loop().
  predicate LoopReady(s: Sched) { s.stopRequested || s.pending == 0 }

  function CloseDoor(s: Sched): Sched { s.(accepting := false) }

  // shutdown_contexts: the contexts are taken out of the scheduler.
  function Shutdown(s: Sched): Sched {
    if s.initialized then s.(initialized := false, contexts := 0) else s
  }

  datatype Submission = Ignored | Destroyed | Accepted

  datatype LoopOutcome = NotInitialized | KeepsWaiting | Passed

  // Two workers share nothing but the counter.
  ghost predicate Apart(c: C.Context, d: C.Context) {
    c != d && c.engine != d.engine && c.engine.uring != d.engine.uring
  }

  method MakeContexts(n: nat, pendingTasks: C.Counter) returns (made: seq<C.Context>)
    ensures |made| == n
    ensures forall c :: c in made ==>
              && fresh(c) && fresh(c.engine) && fresh(c.engine.uring)
              && c.pendingTasks == pendingTasks && c.Ready() && c.engine.tasks == []
    ensures forall i, j :: 0 <= i < j < |made| ==> Apart(made[i], made[j])
  {
    hide C.Context.Ready;
    made := [];
    for k := 0 to n
      invariant |made| == k
      invariant forall c :: c in made ==>
                  && fresh(c) && fresh(c.engine) && fresh(c.engine.uring)
                  && c.pendingTasks == pendingTasks && c.Ready() && c.engine.tasks == []
      invariant forall i, j :: 0 <= i < j < |made| ==> Apart(made[i], made[j])
    {
      var c := new C.Context(pendingTasks);
      made := made + [c];
    }
  }

  class Scheduler {
    var contexts: seq<C.Context>
    const dispatcher: D.Dispatcher
    const pendingTasks: C.Counter
    var stopRequested: bool
    var accepting: bool
    var initialized: bool

    ghost predicate Valid()
      reads this, dispatcher
    {
      && dispatcher.Valid()
      && (initialized ==> dispatcher.contextCount == |contexts| > 0)
      && (!initialized ==> contexts == [])
    }

    ghost function State(): Sched
      reads this, dispatcher, pendingTasks
    {
      Sched(initialized, accepting, stopRequested, pendingTasks.value, |contexts|, dispatcher.next)
    }

    constructor ()
      ensures Valid() && State() == Sched(false, false, false, 0, 0, 0)
      ensures fresh(dispatcher) && fresh(pendingTasks)
    {
      contexts := [];
      dispatcher := new D.Dispatcher();
      pendingTasks := new C.Counter();
      stopRequested, accepting, initialized := false, false, false;
    }

    // A second call changes nothing.
    method Init(count: nat)
      requires Valid()
      modifies this, dispatcher, pendingTasks
      ensures Valid() && State() == Initialize(old(State()), count)
      ensures initialized && (old(initialized) ==> State() == old(State()))
      ensures !old(initialized) ==>
                && |contexts| == (if count == 0 then 1 else count) && dispatcher.next == 0
                && accepting && !stopRequested && pendingTasks.value == 0
      ensures old(initialized) ==> contexts == old(contexts)
      ensures !old(initialized) ==>
                && (forall c :: c in contexts ==>
                      && fresh(c) && fresh(c.engine) && fresh(c.engine.uring)
                      && c.pendingTasks == pendingTasks && c.Ready() && c.engine.tasks == [])
                && (forall i, j :: 0 <= i < j < |contexts| ==> Apart(contexts[i], contexts[j]))
    {
      hide C.Context.Ready, Apart;
      if initialized { return; }
      var workers := if count == 0 then 1 else count;
      var made := MakeContexts(workers, pendingTasks);
      contexts := made;
      assert forall c :: c in made ==> c.Ready() && c.engine.tasks == [];
      dispatcher.Init(workers);
      pendingTasks.value := 0;
      stopRequested, accepting, initialized := false, true, true;
    }

    // The locked block of submit_new. A null handle is ignored, a refused one
    // destroyed.
    method AcceptNew(h: Option<Handle>) returns (r: Submission, target: C.Context?)
      requires Valid()
      modifies dispatcher`next, pendingTasks
      ensures Valid()
      ensures r == Ignored <==> h.None?
      ensures r != Accepted ==> State() == old(State()) && target == null
      ensures r == Accepted <==> h.Some? && initialized && accepting
      ensures h.Some? ==> (r == Accepted <==> Accept(old(State())).1.Some?)
      ensures r == Accepted ==>
                && State() == Accept(old(State())).0 && |contexts| > 0
                && target == contexts[old(dispatcher.next) % |contexts|]
                && pendingTasks.value == old(pendingTasks.value) + 1
                && dispatcher.next ==
                     if old(dispatcher.next) == 0xFFFF_FFFF_FFFF_FFFF then 0 else old(dispatcher.next) + 1
    {
      if h.None? { return Ignored, null; }
      if !initialized || !accepting { return Destroyed, null; }
      pendingTasks.Increment();
      var i := dispatcher.Dispatch();
      return Accepted, contexts[i];
    }

    // submit_new: enqueueing on the target is a step of its own, after the
    // lock has been given up.
    method SubmitNew(h: Option<Handle>) returns (r: Submission, target: C.Context?)
      requires Valid()
      modifies dispatcher`next, pendingTasks
      modifies (set c | c in contexts)`enqueued, (set c | c in contexts :: c.engine)`tasks
      ensures Valid()
      ensures r == Ignored <==> h.None?
      ensures r != Accepted ==> State() == old(State()) && target == null
      ensures r != Accepted ==> forall c :: c in contexts ==> c.engine.tasks == old(c.engine.tasks)
      ensures r == Accepted <==> h.Some? && initialized && accepting
      ensures r == Accepted ==>
                && |contexts| > 0 && State() == Accept(old(State())).0
                && pendingTasks.value == old(pendingTasks.value) + 1
                && dispatcher.next == (if old(dispatcher.next) == 0xFFFF_FFFF_FFFF_FFFF then 0 else old(dispatcher.next) + 1)
                && var i := old(dispatcher.next) % |contexts|;
                && target == contexts[i]
                && target.engine.tasks == old(contexts[i].engine.tasks) + [h.value]
                && (old(contexts[i].InOrder()) ==> target.InOrder())
      ensures r == Accepted ==>
                forall c :: c in contexts && c.engine != target.engine ==> c.engine.tasks == old(c.engine.tasks)
    {
      r, target := AcceptNew(h);
      if r == Accepted { target.SubmitTask(h.value); }
    }

    // True is "notify the loop": the last unfinished coroutine is done. A
    // counter at zero would wrap around.
    method OnTaskCompleted() returns (last: bool)
      modifies pendingTasks
      ensures old(pendingTasks.value) > 0 ==> State() == TaskCompleted(old(State()))
      ensures old(pendingTasks.value) == 0 ==> pendingTasks.value == 0xFFFF_FFFF_FFFF_FFFF
      ensures old(pendingTasks.value) > 0 ==> pendingTasks.value == old(pendingTasks.value) - 1
      ensures last <==> pendingTasks.value == 0
    {
      last := pendingTasks.Decrement();
    }

    // One wake-up of loop(): the test of its wait, and the closing of the
    // door in the same critical section.
    method LoopWakes() returns (r: LoopOutcome)
      requires Valid()
      modifies `accepting
      ensures Valid()
      ensures r == NotInitialized <==> !initialized
      ensures r == Passed <==> initialized && (stopRequested || pendingTasks.value == 0)
      ensures State() == if r == Passed then CloseDoor(old(State())) else old(State())
      ensures r == Passed ==> !accepting
    {
      if !initialized { return NotInitialized; }
      if !(stopRequested || pendingTasks.value == 0) { return KeepsWaiting; }
      accepting := false;
      r := Passed;
    }

    method ShutdownContexts() returns (toJoin: seq<C.Context>)
      requires Valid()
      modifies `contexts, `initialized
      ensures Valid() && State() == Shutdown(old(State()))
      ensures toJoin == old(contexts) && contexts == [] && !initialized
    {
      if !initialized { return []; }
      toJoin := contexts;
      contexts, initialized := [], false;
    }

    method Stop() returns (toJoin: seq<C.Context>)
      requires Valid()
      modifies `contexts, `initialized, `accepting, `stopRequested
      ensures Valid()
      ensures !old(initialized) ==> State() == old(State()) && toJoin == []
      ensures old(initialized) ==>
                && toJoin == old(contexts) && State() == Shutdown(CloseDoor(old(State())).(stopRequested := true))
                && contexts == [] && !initialized && !accepting && stopRequested
    {
      if !initialized { return []; }
      accepting, stopRequested := false, true;
      toJoin := ShutdownContexts();
    }
  }

  // --- Runs of submissions ---

  // The state after k submissions in a row, and the contexts they went to.
  function AfterSubmissions(s: Sched, k: nat): Sched {
    if k == 0 then s else Accept(AfterSubmissions(s, k - 1)).0
  }

  function Targets(s: Sched, k: nat): (ts: seq<Option<nat>>)
    ensures |ts| == k
  {
    if k == 0 then [] else Targets(s, k - 1) + [Accept(AfterSubmissions(s, k - 1)).1]
  }

  // An initialized scheduler that accepts takes every submission, and hands
  // them round: before the 64-bit counter wraps, the i-th of k submissions
  // goes to context (t + i) mod n, so that each context gets floor(k / n) or
  // ceil(k / n) of them.
  lemma SubmissionsGoRound(s: Sched, k: nat)
    requires s.initialized && s.accepting && s.contexts > 0 && s.next + k <= 0x1_0000_0000_0000_0000
    ensures AfterSubmissions(s, k).pending == s.pending + k
    ensures var ts, n := Targets(s, k), s.contexts;
            && (forall i :: 0 <= i < k ==> ts[i] == Some((s.next + i) % n))
            && (forall j :: 0 <= j < n ==>
                  k / n <= |set i | 0 <= i < |ts| && ts[i] == Some(j)| <= (k + n - 1) / n)
  {
    hide D.Count, Targets, Accept, AfterSubmissions;
    var ts, n := Targets(s, k), s.contexts;
    EachGoesOn(s, k);
    D.RoundRobinBalanced(s.next, k, n);
    forall j | 0 <= j < n
      ensures k / n <= |set i | 0 <= i < |ts| && ts[i] == Some(j)| <= (k + n - 1) / n
    {
      Tally(s, k, j);
    }
  }

  function Positions(ts: seq<Option<nat>>, j: nat): set<int> { set i | 0 <= i < |ts| && ts[i] == Some(j) }

  lemma PositionsGrow(ts: seq<Option<nat>>, x: Option<nat>, j: nat)
    ensures |Positions(ts + [x], j)| == |Positions(ts, j)| + if x == Some(j) then 1 else 0
  {
    assert Positions(ts + [x], j) == Positions(ts, j) + if x == Some(j) then {|ts|} else {};
  }

  lemma {:induction false} Tally(s: Sched, k: nat, j: nat)
    requires s.initialized && s.accepting && s.contexts > 0 && s.next + k <= WORD
    ensures |Positions(Targets(s, k), j)| == D.Count(s.next, k, s.contexts, j)
    decreases k
  {
    hide Positions;
    if k == 0 {
      NoPositions(j);
    } else {
      Tally(s, k - 1, j);
      EachGoesOn(s, k);
      D.NoWrap(s.next + k - 1);
      PositionsGrow(Targets(s, k - 1), Targets(s, k)[k - 1], j);
    }
  }

  lemma NoPositions(j: nat)
    ensures Positions([], j) == {}
  {
  }

  lemma {:induction false} EachGoesOn(s: Sched, k: nat)
    requires s.initialized && s.accepting && s.contexts > 0 && s.next + k <= WORD
    ensures var t := AfterSubmissions(s, k);
            && t.initialized && t.accepting && t.contexts == s.contexts && t.pending == s.pending + k
            && (s.next + k < WORD ==> t.next == s.next + k)
    ensures forall i :: 0 <= i < k ==> Targets(s, k)[i] == Some((s.next + i) % s.contexts)
    decreases k
  {
    hide Accept;
    if k > 0 {
      EachGoesOn(s, k - 1);
      OneGoesOn(AfterSubmissions(s, k - 1));
    }
  }

  lemma OneGoesOn(s: Sched)
    requires s.initialized && s.accepting && s.contexts > 0 && s.next < WORD
    ensures Accept(s) == (s.(pending := s.pending + 1,
                             next := if s.next == 0xFFFF_FFFF_FFFF_FFFF then 0 else s.next + 1),
                          Some(s.next % s.contexts))
  {
    D.TicketIs(s.next, 0);
    D.TicketIs(s.next, 1);
    D.NoWrap(s.next);
    if s.next + 1 < WORD { D.NoWrap(s.next + 1); }
  }
}
