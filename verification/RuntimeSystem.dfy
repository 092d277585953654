// Every interleaving of a scheduler, its workers and the kernel. Coroutines
// are the tracked roots. One step is one critical section, one kernel action,
// or one event in the life of a running coroutine; suspending, with the test
// for done() after it, is a single step.

module RuntimeSystem {
  import opened Common
  import opened Scheduler
  import opened WorkerSteps

  // --- The whole runtime ---

  // loop(): waiting, past its wait with the mutex held, or past the closing
  // of the door.
  datatype Loop = Waiting | Through | Closed

  // gap holds what has been counted as accepted but not yet pushed on the
  // queue of its target. parked is everything suspended at user level: in a
  // wait queue, or taken off it and about to be rescheduled. results are the
  // result fields of the awaiters; accepted, finished and refused are
  // histories.
  datatype Sys = Sys(
    sched: Sched,
    workers: seq<Worker>,
    gap: map<Handle, nat>,
    parked: multiset<Handle>,
    results: map<Handle, int>,
    loop: Loop,
    accepted: seq<Handle>,
    finished: seq<Handle>,
    refused: seq<Handle>)

  datatype Event =
    | Init(count: nat)
    | Submit(h: Handle)           // submit_new up to the gap
    | Track(i: nat, h: Handle)    // submit_tracked_task up to the gap, by worker i
    | Enqueue(h: Handle)          // out of the gap
    | Wake(i: nat, h: Handle)     // reschedule_or_resume on worker i
    | Act(i: nat, l: Local)
    | Park(i: nat)
    | Finish(i: nat)
    | Answer(i: nat, h: Handle, result: int)
    | LoopPasses
    | LoopCloses
    | Swap                        // shutdown_contexts after loop()

  predicate Runs(s: Sys, i: nat) { i < |s.workers| && s.workers[i].running.Some? }

  // A coroutine handed to the scheduler is a new one. While loop() holds the
  // mutex nobody else is in a critical section of it.
  predicate Enabled(s: Sys, e: Event) {
    match e
    case Init(_) => s.loop != Through
    case Submit(h) => h !in s.accepted && h !in s.refused && s.loop != Through
    case Track(i, h) => Runs(s, i) && h !in s.accepted && h !in s.refused
    case Enqueue(h) => h in s.gap && s.gap[h] < |s.workers|
    case Wake(i, h) => Runs(s, i) && h in s.parked
    case Act(i, l) => i < |s.workers| && CanDo(s.workers[i], l) && !l.Leave? && !l.Push? && !l.Complete?
    case Park(i) => Runs(s, i)
    case Finish(i) => Runs(s, i)
    case Answer(i, h, _) => i < |s.workers| && CanDo(s.workers[i], Complete(h))
    case LoopPasses => s.sched.initialized && LoopReady(s.sched) && s.loop == Waiting
    case LoopCloses => s.loop == Through
    case Swap => s.loop == Closed
  }

  function OnWorker(s: Sys, i: nat, l: Local): Sys
    requires i < |s.workers| && CanDo(s.workers[i], l)
  {
    s.(workers := s.workers[i := Do(s.workers[i], l)])
  }

  function Step(s: Sys, e: Event): Sys
    requires Enabled(s, e)
  {
    match e
    case Init(count) =>
      if s.sched.initialized then s
      else
        var sched := Initialize(s.sched, count);
        s.(sched := sched, workers := seq(sched.contexts, i => IDLE), loop := Waiting)
    case Submit(h) =>
      var (sched, target) := Accept(s.sched);
      if target.None? then s.(refused := s.refused + [h])
      else s.(sched := sched, gap := s.gap[h := target.value], accepted := s.accepted + [h])
    case Track(i, h) =>
      s.(sched := s.sched.(pending := s.sched.pending + 1), gap := s.gap[h := i], accepted := s.accepted + [h])
    case Enqueue(h) => OnWorker(s, s.gap[h], Push(h)).(gap := s.gap - {h})
    case Wake(i, h) => OnWorker(s, i, Push(h)).(parked := s.parked - multiset{h})
    case Act(i, l) => OnWorker(s, i, l)
    case Park(i) => OnWorker(s, i, Leave).(parked := s.parked + InHand(s.workers[i]))
    case Finish(i) =>
      OnWorker(s, i, Leave).(finished := s.finished + [s.workers[i].running.value], sched := TaskCompleted(s.sched))
    case Answer(i, h, result) => OnWorker(s, i, Complete(h)).(results := s.results[h := result])
    case LoopPasses => s.(loop := Through)
    case LoopCloses => s.(sched := CloseDoor(s.sched), loop := Closed)
    case Swap => s.(sched := Shutdown(s.sched))
  }

  // An event that is not enabled changes nothing, so every list is a run.
  function Apply(s: Sys, e: Event): Sys {
    if Enabled(s, e) then Step(s, e) else s
  }

  function Run(s: Sys, es: seq<Event>): Sys
    decreases |es|
  {
    if es == [] then s else Run(Apply(s, es[0]), es[1..])
  }

  const START := Sys(Sched(false, false, false, 0, 0, 0), [], map[], multiset{}, map[], Waiting, [], [], [])

  // --- Where every coroutine is ---

  function Held(ws: seq<Worker>): multiset<Handle> {
    if ws == [] then multiset{} else At(ws[0]) + Held(ws[1..])
  }

  // Every place a coroutine can be, with multiplicity.
  function Places(s: Sys): multiset<Handle> {
    Held(s.workers) + s.parked + multiset(s.gap.Keys) + multiset(s.finished)
  }

  ghost predicate Conserved(s: Sys) {
    && Places(s) == multiset(s.accepted)
    && (forall h :: multiset(s.accepted)[h] <= 1)
  }

  ghost predicate Sized(s: Sys) {
    && s.sched.pending == |s.accepted| - |s.finished|
    && (s.sched.initialized ==> s.sched.contexts == |s.workers| > 0)
    && !s.sched.stopRequested
    && (forall h :: h in s.gap ==> s.gap[h] < |s.workers|)
  }

  // Once loop() is past its wait, nothing is unfinished.
  ghost predicate Quiet(s: Sys) {
    && (!s.sched.initialized || s.loop != Waiting ==> |s.accepted| == |s.finished|)
    && (s.loop == Closed ==> !s.sched.accepting)
    && (s.sched.accepting ==> s.sched.initialized)
  }

  ghost predicate WorkersOk(s: Sys) {
    forall i :: 0 <= i < |s.workers| ==> WorkerOk(s.workers[i])
  }

  ghost predicate Inv(s: Sys) { Conserved(s) && Sized(s) && Quiet(s) && WorkersOk(s) }

  lemma {:induction false} HeldUpdate(ws: seq<Worker>, i: nat, w: Worker)
    requires i < |ws|
    ensures Held(ws[i := w]) + At(ws[i]) == Held(ws) + At(w)
    decreases |ws|
  {
    hide At;
    var rest := ws[1..];
    if i == 0 {
      assert ws[i := w][1..] == rest;
    } else {
      assert ws[i := w][1..] == rest[i - 1 := w] && rest[i - 1] == ws[i];
      HeldUpdate(rest, i - 1, w);
      AddFirst(At(ws[0]), Held(rest[i - 1 := w]), At(ws[i]), Held(rest), At(w));
    }
  }

  lemma AddFirst(first: multiset<Handle>, a: multiset<Handle>, x: multiset<Handle>, b: multiset<Handle>, y: multiset<Handle>)
    requires a + x == b + y
    ensures (first + a) + x == (first + b) + y
  {
    forall h ensures ((first + a) + x)[h] == ((first + b) + y)[h] {
      assert (a + x)[h] == (b + y)[h];
    }
  }

  lemma {:induction false} HeldIdle(ws: seq<Worker>)
    requires forall i :: 0 <= i < |ws| ==> ws[i] == IDLE
    ensures Held(ws) == multiset{}
    decreases |ws|
  {
    if ws == [] {
    } else {
      HeldIdle(ws[1..]);
    }
  }

  lemma {:induction false} HeldHas(ws: seq<Worker>, i: nat)
    requires i < |ws|
    ensures At(ws[i]) <= Held(ws)
    decreases |ws|
  {
    hide At;
    if i > 0 { HeldHas(ws[1..], i - 1); }
  }

  lemma Cancel(a: multiset<Handle>, b: multiset<Handle>, x: multiset<Handle>, y: multiset<Handle>,
               gain: multiset<Handle>, loss: multiset<Handle>)
    requires a + x == b + y && y + loss == x + gain
    ensures a + loss == b + gain
  {
    forall h ensures (a + loss)[h] == (b + gain)[h] {
      assert (a + x)[h] == (b + y)[h] && (y + loss)[h] == (x + gain)[h];
    }
  }

  lemma LocalHeld(s: Sys, i: nat, l: Local)
    requires i < |s.workers| && CanDo(s.workers[i], l) && WorkersOk(s)
    ensures Held(OnWorker(s, i, l).workers) + Loss(s.workers[i], l) == Held(s.workers) + Gain(l)
    ensures WorkersOk(OnWorker(s, i, l))
  {
    hide At, Do, Loss, Gain, Held, WorkerOk;
    var w := s.workers[i];
    LocalKeeps(w, l);
    HeldUpdate(s.workers, i, Do(w, l));
    Cancel(Held(OnWorker(s, i, l).workers), Held(s.workers), At(w), At(Do(w, l)), Gain(l), Loss(w, l));
  }

  lemma SizeOfPlaces(s: Sys)
    ensures |Places(s)| == |Held(s.workers)| + |s.parked| + |s.gap.Keys| + |s.finished|
  {
    hide Held;
  }

  // A running coroutine has not finished: pending is not zero, and the
  // decrement at the end of it cannot underflow.
  lemma RunningIsPending(s: Sys, i: nat)
    requires Conserved(s) && Runs(s, i)
    ensures |s.finished| < |s.accepted|
  {
    HeldHas(s.workers, i);
    RunningIsHere(s.workers[i]);
    SizeOfPlaces(s);
    hide At, Held, Places;
    assert s.workers[i].running.value in Held(s.workers);
  }

  lemma RunningIsHere(w: Worker)
    requires w.running.Some?
    ensures w.running.value in At(w)
  {
  }

  lemma NewcomerKeeps(s: Sys, t: Sys, h: Handle, target: nat)
    requires Inv(s) && h !in s.accepted && target < |s.workers|
    requires t == s.(sched := t.sched, gap := s.gap[h := target], accepted := s.accepted + [h])
    requires t.sched == s.sched.(pending := s.sched.pending + 1, next := t.sched.next)
    requires s.sched.initialized && s.loop == Waiting
    ensures Inv(t)
  {
    hide Held, Places, WorkersOk;
    PlacesOnArrival(s, t, h, target);
    WorkersUntouched(s, t);
    Distinct(s.accepted, h);
  }

  lemma Distinct(a: seq<Handle>, h: Handle)
    requires h !in a && forall x :: multiset(a)[x] <= 1
    ensures multiset(a + [h]) == multiset(a) + multiset{h}
    ensures forall x :: multiset(a + [h])[x] <= 1
  {
    assert h !in multiset(a);
  }

  lemma GapIsAPlace(s: Sys, h: Handle)
    requires h in s.gap
    ensures h in Places(s)
  {
    hide Held;
    var inGap: multiset<Handle> := multiset(s.gap.Keys);
    assert h in s.gap.Keys && inGap[h] == 1;
    assert Places(s)[h] >= inGap[h];
  }

  lemma PlacesOnArrival(s: Sys, t: Sys, h: Handle, target: nat)
    requires h !in multiset(s.accepted) && Places(s) == multiset(s.accepted)
    requires t.workers == s.workers && t.parked == s.parked && t.finished == s.finished && t.gap == s.gap[h := target]
    ensures Places(t) == Places(s) + multiset{h}
  {
    hide Held;
    if h in s.gap { GapIsAPlace(s, h); }
    assert t.gap.Keys == s.gap.Keys + {h};
    assert multiset(t.gap.Keys) == multiset(s.gap.Keys) + multiset{h};
  }

  lemma SubmitKeeps(s: Sys, h: Handle)
    requires Inv(s) && Enabled(s, Submit(h))
    ensures Inv(Step(s, Submit(h)))
  {
    var (sched, target) := Accept(s.sched);
    if target.Some? {
      NewcomerKeeps(s, Step(s, Submit(h)), h, target.value);
    }
  }

  lemma TrackKeeps(s: Sys, i: nat, h: Handle)
    requires Inv(s) && Enabled(s, Track(i, h))
    ensures Inv(Step(s, Track(i, h)))
  {
    RunningIsPending(s, i);
    NewcomerKeeps(s, Step(s, Track(i, h)), h, i);
  }

  // A step that moves a coroutine from place to place.
  lemma MoveKeeps(s: Sys, t: Sys)
    requires Inv(s) && WorkersOk(t) && Places(t) == Places(s)
    requires |t.workers| == |s.workers| && t.gap.Keys <= s.gap.Keys
    requires forall h :: h in t.gap ==> t.gap[h] == s.gap[h]
    requires t.sched == s.sched && t.loop == s.loop && t.accepted == s.accepted && t.finished == s.finished
    ensures Inv(t)
  {
    hide Places, WorkerOk;
  }

  // The same coroutines, differently placed.
  lemma PlacesOnEnqueue(s: Sys, t: Sys, h: Handle)
    requires Held(t.workers) + multiset{} == Held(s.workers) + multiset{h}
    requires h in s.gap && t.gap == s.gap - {h} && t.parked == s.parked && t.finished == s.finished
    ensures Places(t) == Places(s)
  {
    hide Held;
    assert s.gap.Keys == t.gap.Keys + {h};
    assert multiset(s.gap.Keys) == multiset(t.gap.Keys) + multiset{h};
    assert Held(t.workers) == Held(s.workers) + multiset{h};
  }

  lemma AddNothing(m: multiset<Handle>)
    ensures m + multiset{} == m
  {
  }

  lemma PlacesOnWake(s: Sys, t: Sys, h: Handle)
    requires Held(t.workers) + multiset{} == Held(s.workers) + multiset{h}
    requires h in s.parked && t.parked == s.parked - multiset{h} && t.gap == s.gap && t.finished == s.finished
    ensures Places(t) == Places(s)
  {
    hide Held;
    assert Held(t.workers) == Held(s.workers) + multiset{h};
    assert s.parked == t.parked + multiset{h};
  }

  lemma PlacesOnAct(s: Sys, t: Sys)
    requires Held(t.workers) + multiset{} == Held(s.workers) + multiset{}
    requires t.gap == s.gap && t.parked == s.parked && t.finished == s.finished
    ensures Places(t) == Places(s)
  {
    hide Held;
    AddNothing(Held(t.workers));
    AddNothing(Held(s.workers));
  }

  lemma PlacesOnLeave(s: Sys, t: Sys, h: Handle)
    requires Held(t.workers) + multiset{h} == Held(s.workers) + multiset{} && t.gap == s.gap
    requires multiset(t.finished) + t.parked == multiset(s.finished) + s.parked + multiset{h}
    ensures Places(t) == Places(s)
  {
    hide Held;
    forall x ensures Places(t)[x] == Places(s)[x] {
      assert (Held(t.workers) + multiset{h})[x] == (Held(s.workers) + multiset{})[x];
      assert (multiset(t.finished) + t.parked)[x] == (multiset(s.finished) + s.parked + multiset{h})[x];
    }
  }

  lemma EnqueueKeeps(s: Sys, h: Handle)
    requires Inv(s) && Enabled(s, Enqueue(h))
    ensures Inv(Step(s, Enqueue(h)))
  {
    hide Held, WorkerOk, Do, At, Places, Conserved, Sized, Quiet, WorkersOk;
    LocalHeld(s, s.gap[h], Push(h));
    PlacesOnEnqueue(s, Step(s, Enqueue(h)), h);
    WorkersUntouched(OnWorker(s, s.gap[h], Push(h)), Step(s, Enqueue(h)));
    MoveKeeps(s, Step(s, Enqueue(h)));
  }

  lemma WakeKeeps(s: Sys, i: nat, h: Handle)
    requires Inv(s) && Enabled(s, Wake(i, h))
    ensures Inv(Step(s, Wake(i, h)))
  {
    hide Held, WorkerOk, Do, At, Places, Conserved, Sized, Quiet, WorkersOk;
    LocalHeld(s, i, Push(h));
    PlacesOnWake(s, Step(s, Wake(i, h)), h);
    WorkersUntouched(OnWorker(s, i, Push(h)), Step(s, Wake(i, h)));
    MoveKeeps(s, Step(s, Wake(i, h)));
  }

  lemma ActKeeps(s: Sys, i: nat, l: Local)
    requires Inv(s) && i < |s.workers| && CanDo(s.workers[i], l) && !l.Leave? && !l.Push?
    ensures Inv(OnWorker(s, i, l))
  {
    hide Held, WorkerOk, Do, At, Places, Conserved, Sized, Quiet, WorkersOk;
    LocalHeld(s, i, l);
    PlacesOnAct(s, OnWorker(s, i, l));
    MoveKeeps(s, OnWorker(s, i, l));
  }

  lemma ParkKeeps(s: Sys, i: nat)
    requires Inv(s) && Enabled(s, Park(i))
    ensures Inv(Step(s, Park(i)))
  {
    hide Held, WorkerOk, Do, At, Places, Conserved, Sized, Quiet, WorkersOk;
    LocalHeld(s, i, Leave);
    PlacesOnLeave(s, Step(s, Park(i)), s.workers[i].running.value);
    WorkersUntouched(OnWorker(s, i, Leave), Step(s, Park(i)));
    MoveKeeps(s, Step(s, Park(i)));
  }

  lemma FinishKeeps(s: Sys, i: nat)
    requires Inv(s) && Enabled(s, Finish(i))
    ensures Inv(Step(s, Finish(i))) && s.sched.pending > 0
  {
    hide Held, WorkerOk, Do, At, Places, WorkersOk;
    RunningIsPending(s, i);
    LocalHeld(s, i, Leave);
    PlacesOnLeave(s, Step(s, Finish(i)), s.workers[i].running.value);
    WorkersUntouched(OnWorker(s, i, Leave), Step(s, Finish(i)));
  }

  lemma WorkersUntouched(s: Sys, t: Sys)
    requires WorkersOk(s) && t.workers == s.workers
    ensures WorkersOk(t)
  {
  }

  lemma EmptyPlaces(s: Sys)
    requires Conserved(s) && |s.accepted| == |s.finished|
    ensures Held(s.workers) == multiset{} && s.parked == multiset{} && s.gap == map[]
  {
    SizeOfPlaces(s);
    hide Held, Places;
    assert s.gap.Keys == {};
  }

  lemma IdleOk(s: Sys)
    requires forall i :: 0 <= i < |s.workers| ==> s.workers[i] == IDLE
    ensures WorkersOk(s)
  {
  }

  lemma SamePlaces(s: Sys, t: Sys)
    requires Held(t.workers) == Held(s.workers)
    requires t.gap == s.gap && t.parked == s.parked && t.finished == s.finished
    ensures Places(t) == Places(s)
  {
    hide Held;
  }

  lemma InitKeeps(s: Sys, count: nat)
    requires Inv(s) && Enabled(s, Init(count))
    ensures Inv(Step(s, Init(count)))
  {
    hide Held, Places, WorkersOk, At;
    if !s.sched.initialized {
      var t := Step(s, Init(count));
      EmptyPlaces(s);
      HeldIdle(t.workers);
      IdleOk(t);
      SamePlaces(s, t);
    }
  }

  lemma DoorKeeps(s: Sys, e: Event)
    requires Inv(s) && Enabled(s, e) && (e.LoopPasses? || e.LoopCloses? || e.Swap?)
    ensures Inv(Step(s, e))
  {
    hide Held, Places, WorkersOk;
    SamePlaces(s, Step(s, e));
    WorkersUntouched(s, Step(s, e));
  }

  lemma StepKeeps(s: Sys, e: Event)
    requires Inv(s)
    ensures Inv(Apply(s, e))
  {
    hide Inv, Do, At;
    if Enabled(s, e) {
      match e
      case Init(count) => InitKeeps(s, count);
      case Submit(h) => SubmitKeeps(s, h);
      case Track(i, h) => TrackKeeps(s, i, h);
      case Enqueue(h) => EnqueueKeeps(s, h);
      case Wake(i, h) => WakeKeeps(s, i, h);
      case Act(i, l) => ActKeeps(s, i, l);
      case Park(i) => ParkKeeps(s, i);
      case Finish(i) => FinishKeeps(s, i);
      case Answer(i, h, result) =>
        ActKeeps(s, i, Complete(h));
        ResultsOnly(OnWorker(s, i, Complete(h)), h, result);
      case LoopPasses => DoorKeeps(s, e);
      case LoopCloses => DoorKeeps(s, e);
      case Swap => DoorKeeps(s, e);
    }
  }

  lemma ResultsOnly(s: Sys, h: Handle, result: int)
    requires Inv(s)
    ensures Inv(s.(results := s.results[h := result]))
  {
    hide Held, Places, WorkersOk;
    SamePlaces(s, s.(results := s.results[h := result]));
    WorkersUntouched(s, s.(results := s.results[h := result]));
  }

  lemma {:induction false} RunKeeps(s: Sys, es: seq<Event>)
    requires Inv(s)
    ensures Inv(Run(s, es))
    decreases |es|
  {
    hide Inv, Apply;
    if es == [] {
    } else {
      StepKeeps(s, es[0]);
      RunKeeps(Apply(s, es[0]), es[1..]);
    }
  }

  lemma StartHolds()
    ensures Inv(START)
  {
  }

  // Conservation over every run: an accepted coroutine is in exactly one
  // place, once, and nothing else is anywhere; pending counts the unfinished;
  // each worker's I/O counter is its I/O in flight, and each worker resumes in
  // the order of its queue.
  lemma EveryCoroutineInOnePlace(es: seq<Event>)
    ensures var s := Run(START, es);
            && (forall h :: Places(s)[h] == if h in s.accepted then 1 else 0)
            && s.sched.pending == |s.accepted| - |s.finished| >= 0
            && (forall i :: 0 <= i < |s.workers| ==>
                  && s.workers[i].inflightIo == |InIo(s.workers[i])|
                  && s.workers[i].enqueued == s.workers[i].resumed + s.workers[i].batch + s.workers[i].tasks)
  {
    StartHolds();
    RunKeeps(START, es);
    var s := Run(START, es);
    SizeOfPlaces(s);
    hide Places, InIo;
    forall h ensures Places(s)[h] == if h in s.accepted then 1 else 0 {
      assert multiset(s.accepted)[h] <= 1;
    }
    forall i | 0 <= i < |s.workers| ensures WorkerOk(s.workers[i]) { }
  }

  // on_task_completed never decrements a counter that is zero.
  lemma PendingNeverUnderflows(es: seq<Event>, i: nat)
    requires Enabled(Run(START, es), Finish(i))
    ensures Run(START, es).sched.pending > 0
  {
    StartHolds();
    RunKeeps(START, es);
    FinishKeeps(Run(START, es), i);
  }

  // --- What loop() may rely on ---

  predicate WorkerEmpty(w: Worker) {
    && w.tasks == [] && w.batch == [] && w.running.None? && w.ioWaiting == [] && w.toRead == []
    && w.toWrite == [] && w.prepared == [] && w.kernel == multiset{} && w.inflightIo == 0
  }

  ghost predicate AllDone(s: Sys) {
    && s.sched.pending == 0 && s.parked == multiset{} && s.gap == map[]
    && (forall i :: 0 <= i < |s.workers| ==> WorkerEmpty(s.workers[i]))
    && multiset(s.finished) == multiset(s.accepted)
  }

  lemma NothingHere(w: Worker)
    requires At(w) == multiset{} && w.inflightIo == |InIo(w)|
    ensures WorkerEmpty(w)
  {
    hide At, InIo, Ready, InHand;
    SizeAt(w);
    SizeInIo(w);
  }

  lemma SizeAt(w: Worker)
    ensures |At(w)| == |w.tasks| + |w.batch| + (if w.running.Some? then 1 else 0) + |w.ioWaiting| + |w.toRead| +
                       |w.toWrite| + |w.prepared| + |w.kernel|
  {
    hide InIo;
    SizeInIo(w);
    assert |At(w)| == |Ready(w)| + |InHand(w)| + |InIo(w)|;
  }

  lemma DoneIsEmpty(s: Sys)
    requires Inv(s) && s.loop != Waiting
    ensures AllDone(s)
  {
    EmptyPlaces(s);
    forall i | 0 <= i < |s.workers| ensures WorkerEmpty(s.workers[i]) {
      HeldHas(s.workers, i);
      assert WorkerOk(s.workers[i]);
      hide At, Held, InIo;
      assert At(s.workers[i]) == multiset{};
      NothingHere(s.workers[i]);
    }
    FinishedAll(s);
  }

  lemma FinishedAll(s: Sys)
    requires Conserved(s) && Held(s.workers) == multiset{} && s.parked == multiset{} && s.gap == map[]
    ensures multiset(s.finished) == multiset(s.accepted)
  {
    hide Held;
    assert s.gap.Keys == {};
    assert Places(s) == multiset(s.finished);
  }

  predicate NoInit(es: seq<Event>) { forall k :: 0 <= k < |es| ==> !es[k].Init? }

  lemma DoorStaysShut(s: Sys, e: Event)
    requires Inv(s) && s.loop != Waiting && !e.Init?
    ensures Apply(s, e).loop != Waiting && Apply(s, e).accepted == s.accepted
  {
    hide Inv, Do, Held, Places;
    DoneIsEmpty(s);
    assert s.loop == Closed ==> !s.sched.accepting by { ShutDoor(s); }
  }

  lemma ShutDoor(s: Sys)
    requires Inv(s)
    ensures s.loop == Closed ==> !s.sched.accepting
  {
  }

  lemma {:induction false} StaysDone(s: Sys, es: seq<Event>)
    requires Inv(s) && s.loop != Waiting && NoInit(es)
    ensures AllDone(Run(s, es)) && Run(s, es).accepted == s.accepted
    decreases |es|
  {
    hide Inv, Apply, AllDone;
    DoneIsEmpty(s);
    if es == [] {
    } else {
      StepKeeps(s, es[0]);
      DoorStaysShut(s, es[0]);
      assert NoInit(es[1..]);
      StaysDone(Apply(s, es[0]), es[1..]);
    }
  }

  // Completion safety: once loop() is past its wait because pending is zero,
  // no accepted coroutine is queued, running, parked, in I/O or in the gap
  // before its enqueueing; nothing is accepted afterwards, unless init() is
  // called again; and every worker passes the test of can_stop.
  lemma LoopPassesOnlyWhenDone(es: seq<Event>, more: seq<Event>)
    requires Run(START, es).loop != Waiting && NoInit(more)
    ensures AllDone(Run(START, es))
    ensures AllDone(Run(Run(START, es), more))
    ensures Run(Run(START, es), more).accepted == Run(START, es).accepted
  {
    StartHolds();
    RunKeeps(START, es);
    DoneIsEmpty(Run(START, es));
    StaysDone(Run(START, es), more);
  }

  // loop() gets past its wait exactly when the scheduler is initialized and
  // everything it ever accepted has finished.
  lemma LoopPassesExactly(es: seq<Event>)
    ensures var s := Run(START, es);
            s.loop == Waiting ==>
              (Apply(s, LoopPasses).loop != Waiting <==> s.sched.initialized && multiset(s.finished) == multiset(s.accepted))
  {
    var s := Run(START, es);
    StartHolds();
    RunKeeps(START, es);
    CountsAgree(s);
    assert |multiset(s.finished)| == |s.finished| && |multiset(s.accepted)| == |s.accepted|;
    if Enabled(s, LoopPasses) {
      StepKeeps(s, LoopPasses);
      DoneIsEmpty(Step(s, LoopPasses));
    }
  }

  lemma CountsAgree(s: Sys)
    requires Inv(s)
    ensures s.sched.pending == |s.accepted| - |s.finished| && !s.sched.stopRequested
    ensures s.sched.initialized ==> s.sched.contexts == |s.workers| > 0
  {
  }

  // From init() until the loop closes the door the scheduler accepts.
  predicate Open(s: Sys) { s.sched.initialized && s.loop != Closed ==> s.sched.accepting }

  lemma {:induction false} StaysOpen(s: Sys, es: seq<Event>)
    requires Inv(s) && Open(s)
    ensures Open(Run(s, es))
    decreases |es|
  {
    hide Inv, Do;
    if es != [] {
      StepKeeps(s, es[0]);
      assert Open(Apply(s, es[0]));
      hide Apply, Open;
      StaysOpen(Apply(s, es[0]), es[1..]);
    }
  }

  // In every run: a new coroutine submitted to an initialized scheduler before
  // its loop closes the door is accepted, counted, and on its way to the
  // worker whose turn it is; without init(), or after the door is closed, it
  // is refused, and nothing else happens.
  lemma SubmitIsAnswered(es: seq<Event>, h: Handle)
    requires var s := Run(START, es); h !in s.accepted && h !in s.refused && s.loop != Through
    ensures var s := Run(START, es);
            var t := Apply(s, Submit(h));
            if s.sched.initialized && s.loop == Waiting then
              && |s.workers| > 0
              && t.accepted == s.accepted + [h] && t.refused == s.refused && t.workers == s.workers
              && t.gap == s.gap[h := s.sched.next % |s.workers|]
              && t.sched.pending == s.sched.pending + 1
              && t.sched.next == if s.sched.next == 0xFFFF_FFFF_FFFF_FFFF then 0 else s.sched.next + 1
            else
              t == s.(refused := s.refused + [h])
  {
    var s := Run(START, es);
    StartHolds();
    RunKeeps(START, es);
    StaysOpen(START, es);
    CountsAgree(s);
    ShutDoor(s);
    NextInRange(START, es);
    hide Inv, Run, Apply;
    SubmitStep(s, h);
  }

  lemma SubmitStep(s: Sys, h: Handle)
    requires h !in s.accepted && h !in s.refused && s.loop != Through && s.sched.next < WORD
    requires s.sched.initialized ==> s.sched.contexts > 0
    ensures var t := Apply(s, Submit(h));
            if s.sched.initialized && s.sched.accepting then
              t == s.(accepted := s.accepted + [h], gap := s.gap[h := s.sched.next % s.sched.contexts],
                      sched := s.sched.(pending := s.sched.pending + 1,
                                        next := if s.sched.next == 0xFFFF_FFFF_FFFF_FFFF then 0 else s.sched.next + 1))
            else
              t == s.(refused := s.refused + [h])
  {
    if s.sched.initialized && s.sched.accepting { OneGoesOn(s.sched); }
  }

  lemma {:induction false} NextInRange(s: Sys, es: seq<Event>)
    requires s.sched.next < WORD
    ensures Run(s, es).sched.next < WORD
    decreases |es|
  {
    hide Do;
    if es != [] {
      assert Apply(s, es[0]).sched.next < WORD;
      NextInRange(Apply(s, es[0]), es[1..]);
    }
  }

  // From the gap, and from a wait queue when worker i wakes it, a coroutine can
  // always go on to the back of the queue of a worker.
  lemma EntersWorker(s: Sys, i: nat, h: Handle)
    requires i < |s.workers|
    ensures var w := s.workers[i];
            var queued := w.(tasks := w.tasks + [h], enqueued := w.enqueued + [h]);
            && (h in s.gap && s.gap[h] == i ==>
                  Apply(s, Enqueue(h)) == s.(workers := s.workers[i := queued], gap := s.gap - {h}))
            && (w.running.Some? && h in s.parked ==>
                  Apply(s, Wake(i, h)) == s.(workers := s.workers[i := queued], parked := s.parked - multiset{h}))
  {
  }

  // At the end of its turn it can always be parked at user level, or finish
  // with the counter down by one, which was not zero.
  lemma LeavesWorker(s: Sys, i: nat, h: Handle)
    requires Inv(s) && i < |s.workers| && s.workers[i].running == Some(h)
    ensures var left := s.workers[i := s.workers[i].(running := None)];
            && Apply(s, Park(i)) == s.(workers := left, parked := s.parked + multiset{h})
            && Apply(s, Finish(i)) ==
                 s.(workers := left, finished := s.finished + [h], sched := s.sched.(pending := s.sched.pending - 1))
            && s.sched.pending > 0
  {
    hide Inv, Held, At, Places;
    RunningHolds(s, i);
    CountsAgree(s);
  }

  lemma RunningHolds(s: Sys, i: nat)
    requires Inv(s) && Runs(s, i)
    ensures |s.finished| < |s.accepted|
  {
    RunningIsPending(s, i);
  }

  // While something is unfinished and not parked at user level, some step of
  // the runtime itself or of a running coroutine is possible and changes
  // something.
  lemma NotStuck(s: Sys) returns (e: Event)
    requires Inv(s) && |s.parked| < s.sched.pending
    ensures Enabled(s, e) && (e.Enqueue? || e.Act? || e.Finish? || e.Answer?)
    ensures Apply(s, e) != s
  {
    hide Inv, Enabled, CanDo, Do, At, Held, Places, Ready, InIo, InHand;
    if h :| h in s.gap {
      GapCanClose(s, h);
      e := Enqueue(h);
      GapCloses(s, h);
    } else {
      HeldIsNotEmpty(s);
      var i := SomeoneHolds(s.workers);
      e := WorkerCanAct(s.workers[i], i);
      WorkerStepEnabled(s, i, e);
      WorkerStepMoves(s, i, e);
    }
  }

  lemma GapCloses(s: Sys, h: Handle)
    requires Enabled(s, Enqueue(h))
    ensures Apply(s, Enqueue(h)) != s
  {
    hide Do;
    assert h !in Apply(s, Enqueue(h)).gap;
  }

  lemma WorkerStepMoves(s: Sys, i: nat, e: Event)
    requires i < |s.workers| && Enabled(s, e)
    requires match e
             case Act(j, _) => j == i
             case Finish(j) => j == i
             case Answer(j, _, _) => j == i
             case _ => false
    ensures Apply(s, e) != s
  {
    var l := match e case Act(_, l) => l case Finish(_) => Leave case Answer(_, h, _) => Complete(h);
    StepMoves(s.workers[i], l);
    hide Do;
    assert Apply(s, e).workers[i] == Do(s.workers[i], l);
  }

  lemma StepMoves(w: Worker, l: Local)
    requires CanDo(w, l) && !l.Push?
    ensures Do(w, l) != w
  {
    match l
    case Complete(h) => assert |w.tasks + [h]| == |w.tasks| + 1;
    case ReadyWaiting => assert |w.ioWaiting[1..]| == |w.ioWaiting| - 1;
    case _ =>
  }

  lemma GapCanClose(s: Sys, h: Handle)
    requires Inv(s) && h in s.gap
    ensures Enabled(s, Enqueue(h))
  {
  }

  lemma HeldIsNotEmpty(s: Sys)
    requires Inv(s) && |s.parked| < s.sched.pending && forall h :: h !in s.gap
    ensures |Held(s.workers)| > 0
  {
    hide Held, Places, WorkersOk, Quiet;
    SizeOfPlaces(s);
    assert s.gap.Keys == {};
    assert |multiset(s.accepted)| == |s.accepted|;
  }

  lemma WorkerStepEnabled(s: Sys, i: nat, e: Event)
    requires i < |s.workers|
    requires match e
             case Act(j, l) => j == i && CanDo(s.workers[i], l) && !l.Leave? && !l.Push? && !l.Complete?
             case Finish(j) => j == i && s.workers[i].running.Some?
             case Answer(j, h, _) => j == i && CanDo(s.workers[i], Complete(h))
             case _ => false
    ensures Enabled(s, e)
  {
  }

  lemma {:induction false} SomeoneHolds(ws: seq<Worker>) returns (i: nat)
    requires |Held(ws)| > 0
    ensures i < |ws| && |At(ws[i])| > 0
    decreases |ws|
  {
    hide At;
    if |At(ws[0])| > 0 {
      i := 0;
    } else {
      i := SomeoneHolds(ws[1..]);
      i := i + 1;
    }
  }

  lemma WorkerCanAct(w: Worker, i: nat) returns (e: Event)
    requires |At(w)| > 0
    ensures match e
            case Act(j, l) => j == i && CanDo(w, l) && !l.Leave? && !l.Push? && !l.Complete?
            case Finish(j) => j == i && w.running.Some?
            case Answer(j, h, _) => j == i && CanDo(w, Complete(h))
            case _ => false
  {
    hide At, InIo, Ready, InHand;
    SizeAt(w);
    if w.running.Some? { return Finish(i); }
    if w.batch != [] { return Act(i, ResumeNext); }
    if w.tasks != [] { return Act(i, Refill); }
    if w.ioWaiting != [] { return Act(i, ReadyWaiting); }
    if w.toRead != [] { return Act(i, PrepareRead); }
    if w.toWrite != [] { return Act(i, PrepareWrite); }
    if w.prepared != [] { return Act(i, SubmitSome(1)); }
    var h :| h in w.kernel;
    e := Answer(i, h, 0);
  }

  // --- A result stays until its coroutine runs ---

  predicate Resumes(s: Sys, e: Event, i: nat, h: Handle) {
    i < |s.workers| && s.workers[i].batch != [] && s.workers[i].batch[0] == h && e == Act(i, ResumeNext)
  }

  predicate NotResumed(s: Sys, es: seq<Event>, i: nat, h: Handle)
    decreases |es|
  {
    es == [] || (!Resumes(s, es[0], i, h) && NotResumed(Apply(s, es[0]), es[1..], i, h))
  }

  ghost predicate Holds(s: Sys, i: nat, h: Handle) {
    i < |s.workers| && h in Ready(s.workers[i])
  }

  lemma {:induction false} HeldTwo(ws: seq<Worker>, i: nat, j: nat)
    requires i < j < |ws|
    ensures At(ws[i]) + At(ws[j]) <= Held(ws)
    decreases |ws|
  {
    hide At;
    if i == 0 {
      HeldHas(ws[1..], j - 1);
    } else {
      HeldTwo(ws[1..], i - 1, j - 1);
    }
  }

  lemma ReadyNotInKernel(w: Worker, h: Handle)
    requires h in Ready(w) && At(w)[h] <= 1
    ensures h !in w.kernel
  {
    assert At(w)[h] == Ready(w)[h] + InHand(w)[h] + InIo(w)[h];
    assert InIo(w)[h] >= w.kernel[h];
  }

  lemma ReadyIsHere(w: Worker, h: Handle)
    ensures h in Ready(w) ==> h in At(w)
    ensures h in w.kernel ==> h in At(w)
  {
  }

  // No operation of a coroutine that is ready to run can be in a kernel.
  lemma ReadyHasNoIo(s: Sys, i: nat, j: nat, h: Handle)
    requires Conserved(s) && Holds(s, i, h) && j < |s.workers|
    ensures h !in s.workers[j].kernel
  {
    hide At, Ready;
    assert Places(s)[h] <= 1;
    assert Held(s.workers)[h] <= 1 by {
      hide Held;
      assert Places(s)[h] >= Held(s.workers)[h];
    }
    HeldHas(s.workers, j);
    ReadyIsHere(s.workers[i], h);
    ReadyIsHere(s.workers[j], h);
    if i == j {
      ReadyNotInKernel(s.workers[j], h);
    } else if i < j {
      HeldTwo(s.workers, i, j);
    } else {
      HeldTwo(s.workers, j, i);
    }
  }

  lemma StaysReady(w: Worker, l: Local, h: Handle)
    requires CanDo(w, l) && h in Ready(w) && !(l.ResumeNext? && w.batch[0] == h)
    ensures h in Ready(Do(w, l))
  {
    ReadyIn(w, h);
    ReadyIn(Do(w, l), h);
    hide Ready;
    if l.Refill? {
      var n := Min(BATCH_SIZE, |w.tasks|);
      assert w.tasks == w.tasks[..n] + w.tasks[n..];
    } else if l.ResumeNext? {
      assert w.batch == [w.batch[0]] + w.batch[1..];
    }
  }

  lemma ReadyIn(w: Worker, h: Handle)
    ensures h in Ready(w) <==> h in w.tasks || h in w.batch
  {
  }

  lemma OnWorkerStaysReady(s: Sys, j: nat, l: Local, i: nat, h: Handle)
    requires j < |s.workers| && CanDo(s.workers[j], l) && Holds(s, i, h)
    requires j == i ==> !(l.ResumeNext? && s.workers[i].batch[0] == h)
    ensures Holds(OnWorker(s, j, l), i, h)
  {
    hide Do, Ready;
    if i == j { StaysReady(s.workers[i], l, h); }
  }

  lemma ReadyMeansInitialized(s: Sys, i: nat, h: Handle)
    requires Inv(s) && Holds(s, i, h)
    ensures s.sched.initialized && Conserved(s)
  {
    hide Ready, Held, At, Places;
    if !s.sched.initialized {
      EmptyPlaces(s);
      HeldHas(s.workers, i);
      ReadyIsHere(s.workers[i], h);
      assert false;
    }
  }

  lemma ResultKept(s: Sys, e: Event, i: nat, h: Handle)
    requires Inv(s) && Holds(s, i, h) && h in s.results && !Resumes(s, e, i, h)
    ensures var t := Apply(s, e);
            Holds(t, i, h) && h in t.results && t.results[h] == s.results[h]
  {
    hide Inv, Do, Ready, Held, At, Places, Conserved;
    if Enabled(s, e) {
      ReadyMeansInitialized(s, i, h);
      match e
      case Init(_) =>
      case Enqueue(x) => OnWorkerStaysReady(s, s.gap[x], Push(x), i, h);
      case Wake(j, x) => OnWorkerStaysReady(s, j, Push(x), i, h);
      case Act(j, l) => OnWorkerStaysReady(s, j, l, i, h);
      case Park(j) => OnWorkerStaysReady(s, j, Leave, i, h);
      case Finish(j) => OnWorkerStaysReady(s, j, Leave, i, h);
      case Answer(j, x, _) =>
        ReadyHasNoIo(s, i, j, h);
        OnWorkerStaysReady(s, j, Complete(x), i, h);
      case _ =>
    }
  }

  lemma {:induction false} ResultStays(s: Sys, es: seq<Event>, i: nat, h: Handle)
    requires Inv(s) && Holds(s, i, h) && h in s.results && NotResumed(s, es, i, h)
    ensures var t := Run(s, es);
            Holds(t, i, h) && h in t.results && t.results[h] == s.results[h]
    decreases |es|
  {
    hide Inv, Apply, Holds, Resumes;
    if es == [] {
    } else {
      StepKeeps(s, es[0]);
      ResultKept(s, es[0], i, h);
      ResultStays(Apply(s, es[0]), es[1..], i, h);
    }
  }

  // Whatever happens between the completion of an operation and the next
  // resumption of its coroutine, the coroutine is ready at that worker and
  // finds the result of its own completion.
  lemma ResultIsItsOwn(es: seq<Event>, i: nat, h: Handle, result: int, more: seq<Event>)
    requires Enabled(Run(START, es), Answer(i, h, result))
    requires NotResumed(Apply(Run(START, es), Answer(i, h, result)), more, i, h)
    ensures var t := Run(Apply(Run(START, es), Answer(i, h, result)), more);
            Holds(t, i, h) && h in t.results && t.results[h] == result
  {
    hide Inv, Apply, Enabled, Holds;
    StartHolds();
    RunKeeps(START, es);
    var s := Run(START, es);
    StepKeeps(s, Answer(i, h, result));
    AnswerMakesReady(s, i, h, result);
    ResultStays(Apply(s, Answer(i, h, result)), more, i, h);
  }

  lemma AnswerMakesReady(s: Sys, i: nat, h: Handle, result: int)
    requires Enabled(s, Answer(i, h, result))
    ensures var t := Apply(s, Answer(i, h, result));
            Holds(t, i, h) && h in t.results && t.results[h] == result
  {
    assert Do(s.workers[i], Complete(h)).tasks[|s.workers[i].tasks|] == h;
    assert h in multiset(Do(s.workers[i], Complete(h)).tasks);
  }
}
