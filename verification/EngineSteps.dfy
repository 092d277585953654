// The methods of the engine and the context, as their contracts give them,
// perform the worker's small steps.

module EngineSteps {
  import opened Common
  import opened WorkerSteps
  import E = Engine
  import C = Context

  // --- Lists of steps ---

  // Nothing if some step is not possible where it comes.
  function Perform(w: Worker, ls: seq<Local>): Option<Worker>
    decreases |ls|
  {
    if ls == [] then Some(w)
    else if CanDo(w, ls[0]) then Perform(Do(w, ls[0]), ls[1..])
    else None
  }

  function Times(n: nat, l: Local): seq<Local> { if n == 0 then [] else [l] + Times(n - 1, l) }

  function Pushes(hs: seq<Handle>): seq<Local> {
    if hs == [] then [] else Pushes(hs[..|hs| - 1]) + [Push(hs[|hs| - 1])]
  }

  // Nothing, if there is nothing to submit.
  function Submits(n: nat): seq<Local> { if n == 0 then [] else [SubmitSome(n)] }

  lemma {:induction false} Chain(w: Worker, a: seq<Local>, b: seq<Local>)
    ensures Perform(w, a + b) ==
              if Perform(w, a).Some? then Perform(Perform(w, a).value, b) else None
    decreases |a|
  {
    hide Do, CanDo;
    if a == [] {
      assert a + b == b;
    } else {
      assert (a + b)[1..] == a[1..] + b;
      if CanDo(w, a[0]) { Chain(Do(w, a[0]), a[1..], b); }
    }
  }

  lemma OneMore(w: Worker, v: Worker, ls: seq<Local>, l: Local)
    requires Perform(w, ls) == Some(v) && CanDo(v, l)
    ensures Perform(w, ls + [l]) == Some(Do(v, l))
  {
    hide Do, CanDo;
    Chain(w, ls, [l]);
    assert [l][1..] == [];
    assert Perform(Do(v, l), []) == Some(Do(v, l));
  }

  // --- An engine and its context seen as a worker ---

  type Names = map<E.Awaiter, Handle>

  function NameOf(a: E.Awaiter, names: Names): Handle { if a in names then names[a] else 0 }

  // The coroutines suspended on a queue of awaiters.
  function Coroutines(q: seq<E.Awaiter>, names: Names): seq<Handle> {
    seq(|q|, i requires 0 <= i < |q| => NameOf(q[i], names))
  }

  ghost function Pick(m: multiset<E.Awaiter>): (a: E.Awaiter)
    requires |m| > 0
    ensures a in m
  {
    var a :| a in m;
    a
  }

  ghost function InKernel(m: multiset<E.Awaiter>, names: Names): multiset<Handle>
    decreases |m|
  {
    if |m| == 0 then multiset{}
    else InKernel(m - multiset{Pick(m)}, names) + multiset{NameOf(Pick(m), names)}
  }

  ghost function View(b: E.Books, tasks: seq<Handle>, batch: seq<Handle>, running: Option<Handle>,
                      resumed: seq<Handle>): Worker
  {
    Worker(tasks, batch, running, b.waiting, Coroutines(b.toRead, b.handleOf), Coroutines(b.toWrite, b.handleOf),
           Coroutines(b.prepared, b.handleOf), InKernel(b.kernel, b.handleOf), b.inflight,
           resumed + batch + tasks, resumed)
  }

  lemma UnfoldKernel(m: multiset<E.Awaiter>, names: Names)
    requires |m| > 0
    ensures InKernel(m, names) == InKernel(m - multiset{Pick(m)}, names) + multiset{NameOf(Pick(m), names)}
  {
  }

  lemma Without(m: multiset<E.Awaiter>, a: E.Awaiter)
    requires a in m
    ensures |m - multiset{a}| == |m| - 1
  {
  }

  lemma TwoOut(m: multiset<E.Awaiter>, a: E.Awaiter, b: E.Awaiter)
    requires a in m && b in m && a != b
    ensures a in m - multiset{b} && b in m - multiset{a}
    ensures m - multiset{b} - multiset{a} == m - multiset{a} - multiset{b}
  {
  }

  lemma Swap(k: multiset<Handle>, x: Handle, y: Handle)
    ensures k + multiset{x} + multiset{y} == k + multiset{y} + multiset{x}
  {
  }

  // It does not matter in which order the bag is counted.
  lemma {:induction false} TakeFromKernel(m: multiset<E.Awaiter>, names: Names, a: E.Awaiter)
    requires a in m
    ensures InKernel(m, names) == InKernel(m - multiset{a}, names) + multiset{NameOf(a, names)}
    decreases |m|
  {
    hide InKernel, NameOf;
    var b := Pick(m);
    UnfoldKernel(m, names);
    if a == b {
    } else {
      TwoOut(m, a, b);
      Without(m, a);
      Without(m, b);
      TakeFromKernel(m - multiset{b}, names, a);
      TakeFromKernel(m - multiset{a}, names, b);
      Swap(InKernel(m - multiset{a} - multiset{b}, names), NameOf(a, names), NameOf(b, names));
    }
  }

  lemma LastOut(m: multiset<E.Awaiter>, init: seq<E.Awaiter>, a: E.Awaiter)
    ensures a in m + multiset(init + [a])
    ensures m + multiset(init + [a]) - multiset{a} == m + multiset(init)
  {
    assert multiset(init + [a]) == multiset(init) + multiset{a};
  }

  lemma LastName(init: seq<E.Awaiter>, a: E.Awaiter, names: Names, k: multiset<Handle>)
    ensures k + multiset(Coroutines(init + [a], names)) ==
              k + multiset(Coroutines(init, names)) + multiset{NameOf(a, names)}
  {
    assert Coroutines(init + [a], names) == Coroutines(init, names) + [NameOf(a, names)];
  }

  lemma {:induction false} AddToKernel(m: multiset<E.Awaiter>, q: seq<E.Awaiter>, names: Names)
    ensures InKernel(m + multiset(q), names) == InKernel(m, names) + multiset(Coroutines(q, names))
    decreases |q|
  {
    hide InKernel, NameOf, Coroutines;
    if q == [] {
      NothingAdded(m, names);
    } else {
      var init, a := q[..|q| - 1], q[|q| - 1];
      assert q == init + [a];
      AddToKernel(m, init, names);
      LastOut(m, init, a);
      TakeFromKernel(m + multiset(q), names, a);
      LastName(init, a, names, InKernel(m, names));
    }
  }

  lemma NothingAdded(m: multiset<E.Awaiter>, names: Names)
    ensures m + multiset([]) == m && multiset(Coroutines([], names)) == multiset{}
  {
  }

  lemma {:induction false} KernelRenamed(m: multiset<E.Awaiter>, names: Names, a: E.Awaiter, h: Handle)
    requires a !in m
    ensures InKernel(m, names[a := h]) == InKernel(m, names)
    decreases |m|
  {
    if |m| == 0 {
    } else {
      KernelRenamed(m - multiset{Pick(m)}, names, a, h);
    }
  }

  lemma QueueRenamed(q: seq<E.Awaiter>, names: Names, a: E.Awaiter, h: Handle)
    requires a !in q
    ensures Coroutines(q, names[a := h]) == Coroutines(q, names)
  {
  }

  // --- Engine.SubmitTask, PopBatch, SubmitIoWaiting, AwaitRead, AwaitWrite ---

  lemma SubmitTaskIsAStep(b: E.Books, tasks: seq<Handle>, batch: seq<Handle>, running: Option<Handle>,
                          resumed: seq<Handle>, h: Handle)
    ensures Do(View(b, tasks, batch, running, resumed), Push(h)) == View(b, tasks + [h], batch, running, resumed)
  {
    assert resumed + batch + (tasks + [h]) == (resumed + batch + tasks) + [h];
  }

  lemma PopBatchIsAStep(b: E.Books, tasks: seq<Handle>, resumed: seq<Handle>)
    requires tasks != []
    ensures var n, w := Min(64, |tasks|), View(b, tasks, [], None, resumed);
            CanDo(w, Refill) && Do(w, Refill) == View(b, tasks[n..], tasks[..n], None, resumed)
  {
    var n := Min(BATCH_SIZE, |tasks|);
    assert tasks == tasks[..n] + tasks[n..];
    assert resumed + [] + tasks == resumed + tasks[..n] + tasks[n..];
  }

  lemma SubmitIoWaitingIsAStep(b: E.Books, tasks: seq<Handle>, batch: seq<Handle>, resumed: seq<Handle>, h: Handle)
    ensures Do(View(b, tasks, batch, Some(h), resumed), AwaitIo) ==
              View(E.WaitAsked(b, h), tasks, batch, None, resumed)
  {
  }

  lemma AwaitsAreSteps(b: E.Books, tasks: seq<Handle>, batch: seq<Handle>, resumed: seq<Handle>,
                       a: E.Awaiter, h: Handle)
    requires a !in E.InPipeline(b)
    ensures var w := View(b, tasks, batch, Some(h), resumed);
            && Do(w, AwaitRead) == View(E.ReadAsked(b, a, h), tasks, batch, None, resumed)
            && Do(w, AwaitWrite) == View(E.WriteAsked(b, a, h), tasks, batch, None, resumed)
  {
    hide InKernel, Coroutines, NameOf, E.InPipeline;
    NotQueued(b, a);
    QueueRenamed(b.toRead, b.handleOf, a, h);
    QueueRenamed(b.toWrite, b.handleOf, a, h);
    QueueRenamed(b.prepared, b.handleOf, a, h);
    KernelRenamed(b.kernel, b.handleOf, a, h);
    var names := b.handleOf[a := h];
    NameLast(b.toRead, a, names);
    NameLast(b.toWrite, a, names);
  }

  lemma NotQueued(b: E.Books, a: E.Awaiter)
    requires a !in E.InPipeline(b)
    ensures a !in b.toRead && a !in b.toWrite && a !in b.prepared && a !in b.kernel
  {
    assert a !in multiset(b.toRead) && a !in multiset(b.toWrite) && a !in multiset(b.prepared) && a !in b.kernel;
  }

  lemma NameLast(q: seq<E.Awaiter>, a: E.Awaiter, names: Names)
    requires a in names
    ensures Coroutines(q + [a], names) == Coroutines(q, names) + [names[a]]
  {
  }

  // --- Engine.ReadyWaiting, PrepareFrom, SubmitAll ---

  lemma {:induction false} ReadyWaitingIsSteps(b: E.Books, tasks: seq<Handle>, batch: seq<Handle>,
                                               resumed: seq<Handle>, n: nat)
    requires n <= |b.waiting|
    ensures Perform(View(b, tasks, batch, None, resumed), Times(n, ReadyWaiting)) ==
              Some(View(E.Readied(b, n), tasks + b.waiting[..n], batch, None, resumed))
    decreases n
  {
    if n == 0 {
      assert E.Readied(b, 0) == b && tasks + b.waiting[..0] == tasks;
    } else {
      hide View;
      var c := E.Readied(b, 1);
      assert Times(n, ReadyWaiting)[1..] == Times(n - 1, ReadyWaiting);
      OneReady(b, tasks, batch, resumed);
      ReadyWaitingIsSteps(c, tasks + [b.waiting[0]], batch, resumed, n - 1);
      assert (tasks + [b.waiting[0]]) + c.waiting[..n - 1] == tasks + b.waiting[..n];
      assert E.Readied(c, n - 1) == E.Readied(b, n);
    }
  }

  lemma OneReady(b: E.Books, tasks: seq<Handle>, batch: seq<Handle>, resumed: seq<Handle>)
    requires b.waiting != []
    ensures var w := View(b, tasks, batch, None, resumed);
            && CanDo(w, ReadyWaiting)
            && Do(w, ReadyWaiting) == View(E.Readied(b, 1), tasks + [b.waiting[0]], batch, None, resumed)
  {
    assert resumed + batch + (tasks + [b.waiting[0]]) == (resumed + batch + tasks) + [b.waiting[0]];
  }

  lemma {:induction false} PreparedReadsAreSteps(b: E.Books, tasks: seq<Handle>, batch: seq<Handle>,
                                                 resumed: seq<Handle>, r: nat)
    requires r <= |b.toRead|
    ensures Perform(View(b, tasks, batch, None, resumed), Times(r, PrepareRead)) ==
              Some(View(E.Prepared(b, r, 0), tasks, batch, None, resumed))
    decreases r
  {
    if r == 0 {
      assert E.Prepared(b, 0, 0) == b;
    } else {
      hide View;
      var c := E.Prepared(b, 1, 0);
      assert Times(r, PrepareRead)[1..] == Times(r - 1, PrepareRead);
      OneRead(b, tasks, batch, resumed);
      PreparedReadsAreSteps(c, tasks, batch, resumed, r - 1);
      assert c.prepared + c.toRead[..r - 1] == b.prepared + b.toRead[..r];
      assert E.Prepared(c, r - 1, 0) == E.Prepared(b, r, 0);
    }
  }

  lemma OneRead(b: E.Books, tasks: seq<Handle>, batch: seq<Handle>, resumed: seq<Handle>)
    requires b.toRead != []
    ensures var w := View(b, tasks, batch, None, resumed);
            CanDo(w, PrepareRead) && Do(w, PrepareRead) == View(E.Prepared(b, 1, 0), tasks, batch, None, resumed)
  {
    var c := E.Prepared(b, 1, 0);
    assert c.prepared == b.prepared + [b.toRead[0]] && c.toWrite == b.toWrite;
    assert Coroutines(c.toRead, b.handleOf) == Coroutines(b.toRead, b.handleOf)[1..];
    assert Coroutines(c.prepared, b.handleOf) ==
           Coroutines(b.prepared, b.handleOf) + [Coroutines(b.toRead, b.handleOf)[0]];
  }

  lemma {:induction false} PreparedWritesAreSteps(b: E.Books, tasks: seq<Handle>, batch: seq<Handle>,
                                                  resumed: seq<Handle>, n: nat)
    requires n <= |b.toWrite|
    ensures Perform(View(b, tasks, batch, None, resumed), Times(n, PrepareWrite)) ==
              Some(View(E.Prepared(b, 0, n), tasks, batch, None, resumed))
    decreases n
  {
    if n == 0 {
      assert E.Prepared(b, 0, 0) == b;
    } else {
      hide View;
      var c := E.Prepared(b, 0, 1);
      assert Times(n, PrepareWrite)[1..] == Times(n - 1, PrepareWrite);
      OneWrite(b, tasks, batch, resumed);
      PreparedWritesAreSteps(c, tasks, batch, resumed, n - 1);
      assert c.prepared + [] + c.toWrite[..n - 1] == b.prepared + [] + b.toWrite[..n];
      assert E.Prepared(c, 0, n - 1) == E.Prepared(b, 0, n);
    }
  }

  lemma OneWrite(b: E.Books, tasks: seq<Handle>, batch: seq<Handle>, resumed: seq<Handle>)
    requires b.toWrite != []
    ensures var w := View(b, tasks, batch, None, resumed);
            CanDo(w, PrepareWrite) && Do(w, PrepareWrite) == View(E.Prepared(b, 0, 1), tasks, batch, None, resumed)
  {
    var c := E.Prepared(b, 0, 1);
    assert c.prepared == b.prepared + [b.toWrite[0]] && c.toRead == b.toRead;
    assert Coroutines(c.toWrite, b.handleOf) == Coroutines(b.toWrite, b.handleOf)[1..];
    assert Coroutines(c.prepared, b.handleOf) ==
           Coroutines(b.prepared, b.handleOf) + [Coroutines(b.toWrite, b.handleOf)[0]];
  }

  lemma SubmittedIsSteps(b: E.Books, tasks: seq<Handle>, batch: seq<Handle>, resumed: seq<Handle>, n: nat)
    requires n <= |b.prepared|
    ensures Perform(View(b, tasks, batch, None, resumed), Submits(n)) ==
              Some(View(E.Submitted(b, n), tasks, batch, None, resumed))
  {
    hide View, Do, CanDo, E.Submitted;
    var w := View(b, tasks, batch, None, resumed);
    if n == 0 {
      assert E.Submitted(b, 0) == b by { NothingSubmitted(b); }
    } else {
      OneSubmit(b, tasks, batch, resumed, n);
      OneMore(w, w, [], SubmitSome(n));
      assert [] + [SubmitSome(n)] == [SubmitSome(n)];
    }
  }

  lemma NothingSubmitted(b: E.Books)
    ensures E.Submitted(b, 0) == b
  {
  }

  lemma OneSubmit(b: E.Books, tasks: seq<Handle>, batch: seq<Handle>, resumed: seq<Handle>, n: nat)
    requires 0 < n <= |b.prepared|
    ensures var w := View(b, tasks, batch, None, resumed);
            && CanDo(w, SubmitSome(n))
            && Do(w, SubmitSome(n)) == View(E.Submitted(b, n), tasks, batch, None, resumed)
  {
    hide InKernel;
    AddToKernel(b.kernel, b.prepared[..n], b.handleOf);
    var all := Coroutines(b.prepared, b.handleOf);
    assert Coroutines(b.prepared[..n], b.handleOf) == all[..n];
    assert Coroutines(b.prepared[n..], b.handleOf) == all[n..];
  }

  // --- Engine.ReapOne and Reap ---

  lemma {:induction false} PushesAreSteps(b: E.Books, tasks: seq<Handle>, batch: seq<Handle>,
                                          running: Option<Handle>, resumed: seq<Handle>, hs: seq<Handle>)
    ensures Perform(View(b, tasks, batch, running, resumed), Pushes(hs)) ==
              Some(View(b, tasks + hs, batch, running, resumed))
    decreases |hs|
  {
    if hs == [] {
      assert tasks + hs == tasks;
    } else {
      hide View;
      var init, h := hs[..|hs| - 1], hs[|hs| - 1];
      PushesAreSteps(b, tasks, batch, running, resumed, init);
      SubmitTaskIsAStep(b, tasks + init, batch, running, resumed, h);
      OneMore(View(b, tasks, batch, running, resumed), View(b, tasks + init, batch, running, resumed), Pushes(init),
              Push(h));
      assert hs == init + [h];
      assert tasks + hs == (tasks + init) + [h];
    }
  }

  // One completion: what others push meanwhile, then the coroutine itself.
  lemma ReapOneIsSteps(b: E.Books, tasks: seq<Handle>, batch: seq<Handle>, resumed: seq<Handle>, r: E.Arrival)
    requires r.done.awaiter in b.kernel && b.inflight > 0
    requires r.done.awaiter in b.handleOf && r.done.handle == b.handleOf[r.done.awaiter]
    ensures Perform(View(b, tasks, batch, None, resumed), Pushes(r.outside) + [Complete(r.done.handle)]) ==
              Some(View(E.AnswerGiven(b, r.done.awaiter, r.done.result), tasks + r.outside + [r.done.handle],
                        batch, None, resumed))
  {
    var queue := tasks + r.outside;
    PushesAreSteps(b, tasks, batch, None, resumed, r.outside);
    OneAnswer(b, queue, batch, resumed, r.done);
    hide View, Do;
    OneMore(View(b, tasks, batch, None, resumed), View(b, queue, batch, None, resumed), Pushes(r.outside),
            Complete(r.done.handle));
  }

  lemma OneAnswer(b: E.Books, tasks: seq<Handle>, batch: seq<Handle>, resumed: seq<Handle>, c: E.Completion)
    requires c.awaiter in b.kernel && b.inflight > 0 && c.awaiter in b.handleOf && c.handle == b.handleOf[c.awaiter]
    ensures var w := View(b, tasks, batch, None, resumed);
            && CanDo(w, Complete(c.handle))
            && Do(w, Complete(c.handle)) ==
                 View(E.AnswerGiven(b, c.awaiter, c.result), tasks + [c.handle], batch, None, resumed)
  {
    hide InKernel;
    TakeFromKernel(b.kernel, b.handleOf, c.awaiter);
    MinusPlus(InKernel(b.kernel - multiset{c.awaiter}, b.handleOf), c.handle);
    assert resumed + batch + (tasks + [c.handle]) == (resumed + batch + tasks) + [c.handle];
  }

  lemma MinusPlus(k: multiset<Handle>, h: Handle)
    ensures h in k + multiset{h} && k + multiset{h} - multiset{h} == k
  {
  }

  function ReapSteps(rs: seq<E.Arrival>): seq<Local> {
    if rs == [] then []
    else
      var last := rs[|rs| - 1];
      ReapSteps(rs[..|rs| - 1]) + (Pushes(last.outside) + [Complete(last.done.handle)])
  }

  lemma {:induction false} ReapIsSteps(b: E.Books, tasks: seq<Handle>, batch: seq<Handle>, resumed: seq<Handle>,
                                       rs: seq<E.Arrival>)
    requires E.Answered(E.CompletionsOf(rs)) <= b.kernel && |rs| <= b.inflight
    requires forall r :: r in rs ==> r.done.awaiter in b.handleOf && r.done.handle == b.handleOf[r.done.awaiter]
    ensures Perform(View(b, tasks, batch, None, resumed), ReapSteps(rs)) ==
              Some(View(E.AllAnswered(b, E.CompletionsOf(rs)), tasks + E.HandlesOf(rs), batch, None, resumed))
    decreases |rs|
  {
    hide View, Do, CanDo, E.Answered, E.AllAnswered, E.AnswerGiven, E.HandlesOf, E.CompletionsOf;
    if rs == [] {
      NothingReaped(b, tasks);
    } else {
      var init, r := rs[..|rs| - 1], rs[|rs| - 1];
      assert rs == init + [r];
      E.ArrivalsGrow(init, r);
      var cs := E.CompletionsOf(init);
      AnsweredLast(b, cs, r.done);
      ReapIsSteps(b, tasks, batch, resumed, init);
      var c, queue := E.AllAnswered(b, cs), tasks + E.HandlesOf(init);
      AfterAnswers(b, cs);
      E.AnswersGrow(b, c, cs, r.done);
      ReapOneIsSteps(c, queue, batch, resumed, r);
      assert tasks + (E.HandlesOf(init) + (r.outside + [r.done.handle])) == queue + r.outside + [r.done.handle];
      Chain(View(b, tasks, batch, None, resumed), ReapSteps(init), Pushes(r.outside) + [Complete(r.done.handle)]);
    }
  }

  lemma NothingReaped(b: E.Books, tasks: seq<Handle>)
    ensures E.AllAnswered(b, E.CompletionsOf([])) == b && tasks + E.HandlesOf([]) == tasks
  {
    assert b.completions + [] == b.completions;
  }

  lemma AfterAnswers(b: E.Books, cs: seq<E.Completion>)
    ensures var c := E.AllAnswered(b, cs);
            c.kernel == b.kernel - E.Answered(cs) && c.handleOf == b.handleOf && c.inflight == Excess(b.inflight, |cs|)
  {
  }

  lemma AnsweredLast(b: E.Books, cs: seq<E.Completion>, c: E.Completion)
    requires E.Answered(cs + [c]) <= b.kernel
    ensures E.Answered(cs) <= b.kernel && c.awaiter in b.kernel - E.Answered(cs)
  {
    E.AnsweredGrows(cs, c);
    assert (E.Answered(cs) + multiset{c.awaiter})[c.awaiter] == E.Answered(cs)[c.awaiter] + 1;
  }

  // --- Engine.PollIo ---

  lemma TwoStages(b: E.Books, r: nat, v: nat)
    requires r <= |b.toRead| && v <= |b.toWrite|
    ensures E.Prepared(b, r, 0).toWrite == b.toWrite
    ensures E.Prepared(E.Prepared(b, r, 0), 0, v) == E.Prepared(b, r, v)
  {
  }

  // The locked block, with `left` entries not taken.
  lemma StartIsSteps(b: E.Books, tasks: seq<Handle>, batch: seq<Handle>, resumed: seq<Handle>, max: nat, left: nat)
    returns (ls: seq<Local>)
    requires left <= E.SubmitCount(b, max)
    ensures Perform(View(b, tasks, batch, None, resumed), ls) ==
              Some(View(E.Started(b, max, left), tasks + E.Woken(b, max), batch, None, resumed))
  {
    hide View, Perform, E.Submitted;
    var n, r, v := E.ReadyCount(b, max), E.ReadCount(b, max), E.WriteCount(b, max);
    var queue := tasks + E.Woken(b, max);
    var b1 := E.Readied(b, n);
    var b2 := E.Prepared(b1, r, 0);
    TwoStages(b1, r, v);
    var b3 := E.Prepared(b1, r, v);
    var k := E.SubmitCount(b, max) - left;
    ReadyWaitingIsSteps(b, tasks, batch, resumed, n);
    PreparedReadsAreSteps(b1, queue, batch, resumed, r);
    PreparedWritesAreSteps(b2, queue, batch, resumed, v);
    SubmittedIsSteps(b3, queue, batch, resumed, k);
    ls := Join4(View(b, tasks, batch, None, resumed), Times(n, ReadyWaiting), Times(r, PrepareRead),
                Times(v, PrepareWrite), Submits(k));
  }

  lemma Join4(w: Worker, a: seq<Local>, b: seq<Local>, c: seq<Local>, d: seq<Local>) returns (ls: seq<Local>)
    requires Perform(w, a).Some?
    requires Perform(Perform(w, a).value, b).Some?
    requires Perform(Perform(Perform(w, a).value, b).value, c).Some?
    ensures Perform(w, ls) == Perform(Perform(Perform(Perform(w, a).value, b).value, c).value, d)
  {
    hide Perform;
    Chain(w, a, b);
    Chain(w, a + b, c);
    Chain(w, a + b + c, d);
    ls := a + b + c + d;
  }

  // Whatever poll_io does short of exhausting the ring, as its contract says
  // it, is a list of small steps of the worker.
  lemma PollIoIsSteps(b: E.Books, tasks: seq<Handle>, results: map<E.Awaiter, int>, max: nat,
                      outcome: E.PollOutcome, arrived: seq<E.Arrival>,
                      left: nat, c: E.Books, queue: seq<Handle>, resultOf: map<E.Awaiter, int>,
                      batch: seq<Handle>, resumed: seq<Handle>)
    returns (ls: seq<Local>)
    requires E.Polled(b, tasks, results, max, outcome, arrived, left, c, queue, resultOf)
    requires E.Balanced(b) && outcome != E.RingFull
    ensures Perform(View(b, tasks, batch, None, resumed), ls) == Some(View(c, queue, batch, None, resumed))
  {
    hide View, Perform, E.Balanced, E.Started, E.Woken;
    var w := View(b, tasks, batch, None, resumed);
    if max == 0 {
      ls := [];
      assert Perform(w, ls) == Some(w) by { PerformNothing(w); }
    } else if outcome == E.SubmitFailed {
      ls := StartIsSteps(b, tasks, batch, resumed, max, left);
    } else {
      var start := StartIsSteps(b, tasks, batch, resumed, max, 0);
      var d := E.Started(b, max, 0);
      EnoughInFlight(b, max, arrived);
      ReapIsSteps(d, tasks + E.Woken(b, max), batch, resumed, arrived);
      Chain(w, start, ReapSteps(arrived));
      ls := start + ReapSteps(arrived);
    }
  }

  lemma PerformNothing(w: Worker)
    ensures Perform(w, []) == Some(w)
  {
  }

  lemma EnoughInFlight(b: E.Books, max: nat, arrived: seq<E.Arrival>)
    requires E.Balanced(b) && E.Answered(E.CompletionsOf(arrived)) <= E.Started(b, max, 0).kernel
    ensures |arrived| <= E.Started(b, max, 0).inflight && E.Started(b, max, 0).handleOf == b.handleOf
  {
    hide E.Balanced, E.Answered, E.Started, E.CompletionsOf;
    StartedBalanced(b, max);
    StartedNames(b, max);
    KernelInFlight(E.Started(b, max, 0), E.CompletionsOf(arrived));
  }

  lemma StartedBalanced(b: E.Books, max: nat)
    requires E.Balanced(b)
    ensures E.Balanced(E.Started(b, max, 0))
  {
    hide E.Balanced, E.Submitted, E.Prepared, E.ReadCount, E.WriteCount, E.SubmitCount;
    var n := E.ReadyCount(b, max);
    E.Resumes(b, n);
    E.CountsAfterReady(b, n, max);
    E.PreparedSize(E.Readied(b, n), max);
    E.PipelineMoves(E.Readied(b, n), E.ReadCount(b, max), E.WriteCount(b, max), E.SubmitCount(b, max));
  }

  lemma KernelInFlight(b: E.Books, cs: seq<E.Completion>)
    requires E.Balanced(b) && E.Answered(cs) <= b.kernel
    ensures |cs| <= b.inflight
  {
    hide E.Balanced, E.InPipeline, E.Answered;
    E.Sizes(b);
    E.AnsweredSize(cs);
    SubBag(E.Answered(cs), b.kernel);
  }

  lemma StartedNames(b: E.Books, max: nat)
    ensures E.Started(b, max, 0).handleOf == b.handleOf
  {
  }

  lemma SubBag(a: multiset<E.Awaiter>, b: multiset<E.Awaiter>)
    requires a <= b
    ensures |a| <= |b|
  {
    assert b == a + (b - a);
  }

  // --- Context.ResumeNext, for a root coroutine ---

  // How the turn of a root ends: it goes to the back of the queue, suspends in
  // one of the three kinds of I/O, or is parked or finished.
  datatype Ending = Yields | WaitsIo | ReadsIo(a: E.Awaiter) | WritesIo(a: E.Awaiter) | Leaves

  // What the context sees of such a turn.
  function TurnActs(pushed: seq<Handle>, h: Handle, e: Ending): seq<C.Act> {
    PushActs(pushed) +
    match e
    case Yields => [C.Pushes(h)]
    case WaitsIo => [C.Waits(h)]
    case ReadsIo(a) => [C.Reads(a, h)]
    case WritesIo(a) => [C.Writes(a, h)]
    case Leaves => []
  }

  function PushActs(hs: seq<Handle>): seq<C.Act> {
    if hs == [] then [] else PushActs(hs[..|hs| - 1]) + [C.Pushes(hs[|hs| - 1])]
  }

  function EndStep(e: Ending): Local {
    match e
    case Yields => Yield
    case WaitsIo => AwaitIo
    case ReadsIo(_) => AwaitRead
    case WritesIo(_) => AwaitWrite
    case Leaves => Leave
  }

  lemma {:induction false} PushActsPush(b: E.Books, hs: seq<Handle>)
    ensures C.AfterActs(b, PushActs(hs)) == b && C.PushedBy(PushActs(hs)) == hs
    decreases |hs|
  {
    if hs == [] {
    } else {
      var init, h := hs[..|hs| - 1], hs[|hs| - 1];
      PushActsPush(b, init);
      C.OneMoreAct(b, PushActs(init), C.Pushes(h));
      assert hs == init + [h];
    }
  }

  lemma TurnIsSteps(b: E.Books, tasks: seq<Handle>, batch: seq<Handle>, resumed: seq<Handle>,
                    pushed: seq<Handle>, e: Ending)
    requires batch != [] && (e.ReadsIo? || e.WritesIo? ==> e.a !in E.InPipeline(b))
    ensures var h := batch[0];
            var acts := TurnActs(pushed, h, e);
            Perform(View(b, tasks, batch, None, resumed), [ResumeNext] + Pushes(pushed) + [EndStep(e)]) ==
              Some(View(C.AfterActs(b, acts), tasks + C.PushedBy(acts), batch[1..], None, resumed + [h]))
  {
    hide Perform, Pushes, C.AfterActs, C.PushedBy, PushActs, View;
    var h, rest, queue := batch[0], batch[1..], tasks + pushed;
    var w0 := View(b, tasks, batch, None, resumed);
    var w1 := View(b, tasks, rest, Some(h), resumed + [h]);
    var w2 := View(b, queue, rest, Some(h), resumed + [h]);
    ResumeIsAStep(b, tasks, batch, resumed);
    PushesAreSteps(b, tasks, rest, Some(h), resumed + [h], pushed);
    EndingIsAStep(b, tasks, pushed, rest, resumed + [h], h, e);
    PerformOne(w0, ResumeNext);
    Chain(w0, [ResumeNext], Pushes(pushed));
    OneMore(w0, w2, [ResumeNext] + Pushes(pushed), EndStep(e));
  }

  lemma PerformOne(w: Worker, l: Local)
    requires CanDo(w, l)
    ensures Perform(w, [l]) == Some(Do(w, l))
  {
    hide Do, CanDo;
    PerformNothing(w);
    OneMore(w, w, [], l);
    assert [] + [l] == [l];
  }

  lemma ResumeIsAStep(b: E.Books, tasks: seq<Handle>, batch: seq<Handle>, resumed: seq<Handle>)
    requires batch != []
    ensures var w := View(b, tasks, batch, None, resumed);
            && CanDo(w, ResumeNext)
            && Do(w, ResumeNext) == View(b, tasks, batch[1..], Some(batch[0]), resumed + [batch[0]])
  {
    assert resumed + batch + tasks == (resumed + [batch[0]]) + batch[1..] + tasks;
  }

  lemma EndingIsAStep(b: E.Books, tasks: seq<Handle>, pushed: seq<Handle>, batch: seq<Handle>, resumed: seq<Handle>,
                      h: Handle, e: Ending)
    requires e.ReadsIo? || e.WritesIo? ==> e.a !in E.InPipeline(b)
    ensures var w, acts := View(b, tasks + pushed, batch, Some(h), resumed), TurnActs(pushed, h, e);
            && CanDo(w, EndStep(e))
            && Do(w, EndStep(e)) == View(C.AfterActs(b, acts), tasks + C.PushedBy(acts), batch, None, resumed)
  {
    hide InKernel, Coroutines, PushActs, E.InPipeline, C.AfterActs, C.PushedBy;
    var queue, first, acts := tasks + pushed, PushActs(pushed), TurnActs(pushed, h, e);
    PushActsPush(b, pushed);
    if e.Leaves? {
      assert acts == first;
    } else {
      var last := acts[|first|];
      assert acts == first + [last];
      C.OneMoreAct(b, first, last);
      match e
      case Yields =>
        assert tasks + (pushed + [h]) == queue + [h];
        assert resumed + batch + (queue + [h]) == (resumed + batch + queue) + [h];
      case WaitsIo => SubmitIoWaitingIsAStep(b, queue, batch, resumed, h);
      case ReadsIo(a) => AwaitsAreSteps(b, queue, batch, resumed, a, h);
      case WritesIo(a) => AwaitsAreSteps(b, queue, batch, resumed, a, h);
    }
  }
}
