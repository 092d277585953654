// One worker as a value, and the steps it takes on its own: refilling and
// running its batch, and moving I/O requests along its pipeline.

module WorkerSteps {
  import opened Common

  const BATCH_SIZE: nat := 64

  // A worker with its engine; a read or write awaiter is named by the
  // coroutine suspended on it. enqueued and resumed are histories.
  datatype Worker = Worker(
    tasks: seq<Handle>,
    batch: seq<Handle>,
    running: Option<Handle>,
    ioWaiting: seq<Handle>,
    toRead: seq<Handle>,
    toWrite: seq<Handle>,
    prepared: seq<Handle>,
    kernel: multiset<Handle>,
    inflightIo: nat,
    enqueued: seq<Handle>,
    resumed: seq<Handle>)

  const IDLE := Worker([], [], None, [], [], [], [], multiset{}, 0, [], [])

  // What one worker does on its own. The leaving steps end the running
  // coroutine's turn: yield(), io_suspend_once(), a read, a write, parking in
  // a wait queue of user level, or finishing.
  datatype Local =
    | Refill
    | ResumeNext
    | Yield
    | AwaitIo
    | AwaitRead
    | AwaitWrite
    | Leave
    | Push(h: Handle)
    | ReadyWaiting
    | PrepareRead
    | PrepareWrite
    | SubmitSome(n: nat)
    | Complete(h: Handle)

  predicate CanDo(w: Worker, l: Local) {
    match l
    case Refill => w.batch == [] && w.running.None? && w.tasks != []
    case ResumeNext => w.running.None? && w.batch != []
    case Yield => w.running.Some?
    case AwaitIo => w.running.Some?
    case AwaitRead => w.running.Some?
    case AwaitWrite => w.running.Some?
    case Leave => w.running.Some?
    case Push(_) => true
    case ReadyWaiting => w.running.None? && w.ioWaiting != []
    case PrepareRead => w.running.None? && w.toRead != []
    case PrepareWrite => w.running.None? && w.toWrite != []
    case SubmitSome(n) => w.running.None? && 0 < n <= |w.prepared|
    case Complete(h) => w.running.None? && h in w.kernel
  }

  function Enqueued(w: Worker, h: Handle): Worker {
    w.(tasks := w.tasks + [h], enqueued := w.enqueued + [h])
  }

  // The counter of I/O in flight is a size_t; Excess stands for a decrement
  // that the invariant shows never to meet zero.
  function Do(w: Worker, l: Local): Worker
    requires CanDo(w, l)
  {
    match l
    case Refill =>
      var n := Min(BATCH_SIZE, |w.tasks|);
      w.(batch := w.tasks[..n], tasks := w.tasks[n..])
    case ResumeNext => w.(running := Some(w.batch[0]), batch := w.batch[1..], resumed := w.resumed + [w.batch[0]])
    case Yield => Enqueued(w, w.running.value).(running := None)
    case AwaitIo => w.(running := None, ioWaiting := w.ioWaiting + [w.running.value], inflightIo := w.inflightIo + 1)
    case AwaitRead => w.(running := None, toRead := w.toRead + [w.running.value], inflightIo := w.inflightIo + 1)
    case AwaitWrite => w.(running := None, toWrite := w.toWrite + [w.running.value], inflightIo := w.inflightIo + 1)
    case Leave => w.(running := None)
    case Push(h) => Enqueued(w, h)
    case ReadyWaiting =>
      Enqueued(w, w.ioWaiting[0]).(ioWaiting := w.ioWaiting[1..], inflightIo := Excess(w.inflightIo, 1))
    case PrepareRead => w.(toRead := w.toRead[1..], prepared := w.prepared + [w.toRead[0]])
    case PrepareWrite => w.(toWrite := w.toWrite[1..], prepared := w.prepared + [w.toWrite[0]])
    case SubmitSome(n) => w.(prepared := w.prepared[n..], kernel := w.kernel + multiset(w.prepared[..n]))
    case Complete(h) =>
      Enqueued(w, h).(kernel := w.kernel - multiset{h}, inflightIo := Excess(w.inflightIo, 1))
  }

  function InHand(w: Worker): multiset<Handle> {
    if w.running.Some? then multiset{w.running.value} else multiset{}
  }

  function Ready(w: Worker): multiset<Handle> { multiset(w.tasks) + multiset(w.batch) }

  function InIo(w: Worker): multiset<Handle> {
    multiset(w.ioWaiting) + multiset(w.toRead) + multiset(w.toWrite) + multiset(w.prepared) + w.kernel
  }

  // The coroutines somewhere in this worker.
  function At(w: Worker): multiset<Handle> { Ready(w) + InHand(w) + InIo(w) }

  // What a step brings to a worker from outside, and takes out of it.
  function Gain(l: Local): multiset<Handle> { if l.Push? then multiset{l.h} else multiset{} }

  function Loss(w: Worker, l: Local): multiset<Handle> { if l.Leave? then InHand(w) else multiset{} }

  // Between steps the counter is the I/O in flight, and what was enqueued is
  // what was resumed, then the batch, then the queue.
  ghost predicate WorkerOk(w: Worker) {
    && w.inflightIo == |InIo(w)|
    && w.enqueued == w.resumed + w.batch + w.tasks
  }

  function Count(a: seq<Handle>, h: Handle): nat { multiset(a)[h] }

  lemma SplitSeq(a: seq<Handle>, n: nat, h: Handle)
    requires n <= |a|
    ensures Count(a, h) == Count(a[..n], h) + Count(a[n..], h)
  {
    assert a == a[..n] + a[n..];
  }

  lemma Appended(a: seq<Handle>, x: Handle, h: Handle)
    ensures Count(a + [x], h) == Count(a, h) + if x == h then 1 else 0
  {
  }

  lemma Head(a: seq<Handle>, h: Handle)
    requires a != []
    ensures Count(a, h) == Count(a[1..], h) + if a[0] == h then 1 else 0
  {
    SplitSeq(a, 1, h);
    assert a[..1] == [a[0]];
  }

  lemma CountAt(w: Worker, h: Handle)
    ensures At(w)[h] == Count(w.tasks, h) + Count(w.batch, h) + InHand(w)[h] + Count(w.ioWaiting, h) +
                        Count(w.toRead, h) + Count(w.toWrite, h) + Count(w.prepared, h) + w.kernel[h]
  {
  }

  lemma SizeInIo(w: Worker)
    ensures |InIo(w)| == |w.ioWaiting| + |w.toRead| + |w.toWrite| + |w.prepared| + |w.kernel|
  {
  }

  lemma TaskCounts(w: Worker, l: Local, h: Handle)
    requires CanDo(w, l) && (l.Refill? || l.ResumeNext? || l.Yield? || l.Leave? || l.Push?)
    ensures At(Do(w, l))[h] + Loss(w, l)[h] == At(w)[h] + Gain(l)[h]
  {
    hide At, Count;
    CountAt(w, h);
    CountAt(Do(w, l), h);
    match l
    case Refill =>
      SplitSeq(w.tasks, Min(BATCH_SIZE, |w.tasks|), h);
      assert Count([], h) == 0 by { NoneCounted(h); }
    case ResumeNext => Head(w.batch, h);
    case Yield => Appended(w.tasks, w.running.value, h);
    case Leave =>
    case Push(x) => Appended(w.tasks, x, h);
  }

  lemma AwaitCounts(w: Worker, l: Local, h: Handle)
    requires CanDo(w, l) && (l.AwaitIo? || l.AwaitRead? || l.AwaitWrite?)
    ensures At(Do(w, l))[h] + Loss(w, l)[h] == At(w)[h] + Gain(l)[h]
  {
    hide At, Count;
    CountAt(w, h);
    CountAt(Do(w, l), h);
    match l
    case AwaitIo => Appended(w.ioWaiting, w.running.value, h);
    case AwaitRead => Appended(w.toRead, w.running.value, h);
    case AwaitWrite => Appended(w.toWrite, w.running.value, h);
  }

  lemma PollCounts(w: Worker, l: Local, h: Handle)
    requires CanDo(w, l) && (l.ReadyWaiting? || l.PrepareRead? || l.PrepareWrite? || l.SubmitSome? || l.Complete?)
    ensures At(Do(w, l))[h] + Loss(w, l)[h] == At(w)[h] + Gain(l)[h]
  {
    hide At, Count;
    CountAt(w, h);
    CountAt(Do(w, l), h);
    match l
    case ReadyWaiting =>
      Head(w.ioWaiting, h);
      Appended(w.tasks, w.ioWaiting[0], h);
    case PrepareRead =>
      Head(w.toRead, h);
      Appended(w.prepared, w.toRead[0], h);
    case PrepareWrite =>
      Head(w.toWrite, h);
      Appended(w.prepared, w.toWrite[0], h);
    case SubmitSome(n) =>
      SplitSeq(w.prepared, n, h);
      assert (w.kernel + multiset(w.prepared[..n]))[h] == w.kernel[h] + Count(w.prepared[..n], h) by {
        CountIs(w.prepared[..n], h);
      }
    case Complete(x) => Appended(w.tasks, x, h);
  }

  lemma LocalCounts(w: Worker, l: Local, h: Handle)
    requires CanDo(w, l)
    ensures At(Do(w, l))[h] + Loss(w, l)[h] == At(w)[h] + Gain(l)[h]
  {
    hide At, Do, Loss, Gain, CanDo;
    if l.AwaitIo? || l.AwaitRead? || l.AwaitWrite? {
      AwaitCounts(w, l, h);
    } else if l.ReadyWaiting? || l.PrepareRead? || l.PrepareWrite? || l.SubmitSome? || l.Complete? {
      PollCounts(w, l, h);
    } else {
      TaskCounts(w, l, h);
    }
  }

  lemma NoneCounted(h: Handle)
    ensures Count([], h) == 0
  {
  }

  lemma CountIs(a: seq<Handle>, h: Handle)
    ensures Count(a, h) == multiset(a)[h]
  {
  }

  lemma LocalMoves(w: Worker, l: Local)
    requires CanDo(w, l)
    ensures At(Do(w, l)) + Loss(w, l) == At(w) + Gain(l)
  {
    hide At, Loss, Gain, Do;
    forall h ensures (At(Do(w, l)) + Loss(w, l))[h] == (At(w) + Gain(l))[h] {
      LocalCounts(w, l, h);
    }
  }

  // No step finds the counter at zero when it has to go down.
  lemma LocalAccounts(w: Worker, l: Local)
    requires CanDo(w, l) && w.inflightIo == |InIo(w)|
    ensures Do(w, l).inflightIo == |InIo(Do(w, l))|
    ensures l.ReadyWaiting? || l.Complete? ==> w.inflightIo > 0
  {
    hide InIo;
    SizeInIo(w);
    SizeInIo(Do(w, l));
    match l
    case SubmitSome(n) => SizeOfSum(w.kernel, w.prepared[..n]);
    case Complete(h) => SizeWithout(w.kernel, h);
    case _ =>
  }

  lemma SizeOfSum(m: multiset<Handle>, a: seq<Handle>)
    ensures |m + multiset(a)| == |m| + |a|
  {
  }

  lemma SizeWithout(m: multiset<Handle>, h: Handle)
    requires h in m
    ensures |m - multiset{h}| == |m| - 1
  {
  }

  lemma LocalOrders(w: Worker, l: Local)
    requires CanDo(w, l) && w.enqueued == w.resumed + w.batch + w.tasks
    ensures var v := Do(w, l); v.enqueued == v.resumed + v.batch + v.tasks
  {
  }

  lemma LocalKeeps(w: Worker, l: Local)
    requires CanDo(w, l) && WorkerOk(w)
    ensures WorkerOk(Do(w, l)) && At(Do(w, l)) + Loss(w, l) == At(w) + Gain(l)
  {
    hide Do, At, InIo, Loss, Gain;
    LocalMoves(w, l);
    LocalAccounts(w, l);
    LocalOrders(w, l);
  }

  // --- Batches and a single queue ---

  // A list of steps; one that is not possible where it comes changes nothing.
  function Attempt(w: Worker, l: Local): Worker {
    if CanDo(w, l) then Do(w, l) else w
  }

  function RunLocal(w: Worker, ls: seq<Local>): Worker
    decreases |ls|
  {
    if ls == [] then w else RunLocal(Attempt(w, ls[0]), ls[1..])
  }

  // The simple form: one queue, popped one by one.
  datatype Fifo = Fifo(queue: seq<Handle>, resumed: seq<Handle>)

  datatype FifoEvent = In(h: Handle) | Out

  function ApplyFifo(f: Fifo, e: FifoEvent): Fifo {
    match e
    case In(h) => f.(queue := f.queue + [h])
    case Out => if f.queue == [] then f else Fifo(f.queue[1..], f.resumed + [f.queue[0]])
  }

  function RunFifo(f: Fifo, es: seq<FifoEvent>): Fifo
    decreases |es|
  {
    if es == [] then f else RunFifo(ApplyFifo(f, es[0]), es[1..])
  }

  function AsFifo(w: Worker): Fifo { Fifo(w.batch + w.tasks, w.resumed) }

  // What a step does to the single queue: it puts a coroutine in, takes one
  // out, or, like refilling the batch, is not seen.
  function SeenAs(w: Worker, l: Local): seq<FifoEvent> {
    if !CanDo(w, l) then []
    else
      match l
      case ResumeNext => [Out]
      case Yield => [In(w.running.value)]
      case Push(h) => [In(h)]
      case ReadyWaiting => [In(w.ioWaiting[0])]
      case Complete(h) => [In(h)]
      case _ => []
  }

  function Visible(w: Worker, ls: seq<Local>): seq<FifoEvent>
    decreases |ls|
  {
    if ls == [] then [] else SeenAs(w, ls[0]) + Visible(Attempt(w, ls[0]), ls[1..])
  }

  // Running in batches is running a single queue one by one, whatever is
  // pushed, yielded, read, written and completed in between: same resumptions
  // in the same order, and what arrives during a batch goes behind it.
  lemma {:induction false} BatchesAreFifo(w: Worker, ls: seq<Local>)
    ensures AsFifo(RunLocal(w, ls)) == RunFifo(AsFifo(w), Visible(w, ls))
    ensures w.enqueued == w.resumed + w.batch + w.tasks ==>
              var v := RunLocal(w, ls); v.enqueued == v.resumed + v.batch + v.tasks
    decreases |ls|
  {
    hide Attempt, SeenAs, AsFifo;
    if ls == [] {
    } else {
      var v := Attempt(w, ls[0]);
      OneStepIsFifo(w, ls[0]);
      if w.enqueued == w.resumed + w.batch + w.tasks { OneStepOrders(w, ls[0]); }
      BatchesAreFifo(v, ls[1..]);
      var one, rest := SeenAs(w, ls[0]), Visible(v, ls[1..]);
      if one == [] {
        assert one + rest == rest;
      } else {
        assert (one + rest)[1..] == rest;
      }
    }
  }

  lemma OneStepIsFifo(w: Worker, l: Local)
    ensures var es := SeenAs(w, l);
            && |es| <= 1
            && AsFifo(Attempt(w, l)) == if es == [] then AsFifo(w) else ApplyFifo(AsFifo(w), es[0])
  {
    if CanDo(w, l) && l.Refill? {
      var n := Min(BATCH_SIZE, |w.tasks|);
      assert w.tasks == w.tasks[..n] + w.tasks[n..];
    }
  }

  lemma OneStepOrders(w: Worker, l: Local)
    requires w.enqueued == w.resumed + w.batch + w.tasks
    ensures var v := Attempt(w, l); v.enqueued == v.resumed + v.batch + v.tasks
  {
    if CanDo(w, l) { LocalOrders(w, l); }
  }

  // Whatever the single queue would resume next the worker can resume, after
  // at most one refill.
  lemma NextIsReachable(w: Worker)
    requires w.batch + w.tasks != [] && w.running.None?
    ensures var v := RunLocal(w, [Refill, ResumeNext]);
            AsFifo(v) == ApplyFifo(AsFifo(w), Out) && v.running == Some((w.batch + w.tasks)[0])
  {
    var ls := [Refill, ResumeNext];
    assert ls[1..] == [ResumeNext] && ls[1..][1..] == [];
    OneStepIsFifo(w, Refill);
    OneStepIsFifo(Attempt(w, Refill), ResumeNext);
    assert RunLocal(w, ls) == Attempt(Attempt(w, Refill), ResumeNext);
  }
}
