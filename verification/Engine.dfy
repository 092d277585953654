// src/runtime/engine.cpp with include/runtime/io_awaiter.h and the ring of
// include/io_uring.h: the queues of one worker and its I/O pipeline.

module Engine {
  import opened Common

  const RING_DEPTH: nat := 256

  // A read or write awaiter is known by its address, which is the user_data
  // of its ring entry. Its fields live in the coroutine's frame; the engine
  // model keeps them as maps from addresses.
  type Awaiter = nat

  // A completed request: its awaiter, the coroutine suspended on it, and the
  // result the kernel gave.
  datatype Completion = Completion(awaiter: Awaiter, handle: Handle, result: int)

  // An entry of the completion queue.
  datatype Cqe = Cqe(awaiter: Awaiter, result: int)

  datatype Peek = Nothing | Failed | One(cqe: Cqe)

  function AwaitersOf(q: seq<Cqe>): multiset<Awaiter> {
    if q == [] then multiset{} else multiset{q[0].awaiter} + AwaitersOf(q[1..])
  }

  lemma {:induction false} AwaitersGrow(q: seq<Cqe>, c: Cqe)
    ensures AwaitersOf(q + [c]) == AwaitersOf(q) + multiset{c.awaiter}
    decreases |q|
  {
    if q == [] {
      assert q + [c] == [c] && [c][1..] == [];
    } else {
      assert (q + [c])[1..] == q[1..] + [c];
      AwaitersGrow(q[1..], c);
    }
  }

  lemma FrontTaken(kernel: multiset<Awaiter>, q: seq<Cqe>)
    requires q != []
    ensures q[0].awaiter in kernel + AwaitersOf(q)
    ensures kernel + AwaitersOf(q[1..]) == kernel + AwaitersOf(q) - multiset{q[0].awaiter}
  {
  }

  lemma CompletedOne(kernel: multiset<Awaiter>, q: seq<Cqe>, c: Cqe)
    requires c.awaiter in kernel
    ensures kernel - multiset{c.awaiter} + AwaitersOf(q + [c]) == kernel + AwaitersOf(q)
  {
    AwaitersGrow(q, c);
  }

  // The awaiters completed, with repetition over their successive requests.
  function Answered(cs: seq<Completion>): multiset<Awaiter> {
    if cs == [] then multiset{} else Answered(cs[..|cs| - 1]) + multiset{cs[|cs| - 1].awaiter}
  }

  lemma AnsweredGrows(cs: seq<Completion>, c: Completion)
    ensures Answered(cs + [c]) == Answered(cs) + multiset{c.awaiter}
  {
    assert (cs + [c])[..|cs|] == cs;
  }

  // One completion on its way back to the task queue, and what other threads
  // pushed there since the one before: the completion loop takes the mutex
  // anew for each.
  datatype Arrival = Arrival(outside: seq<Handle>, done: Completion)

  function HandlesOf(rs: seq<Arrival>): seq<Handle> {
    if rs == [] then []
    else
      var last := rs[|rs| - 1];
      HandlesOf(rs[..|rs| - 1]) + (last.outside + [last.done.handle])
  }

  function CompletionsOf(rs: seq<Arrival>): (cs: seq<Completion>)
    ensures |cs| == |rs|
  {
    if rs == [] then [] else CompletionsOf(rs[..|rs| - 1]) + [rs[|rs| - 1].done]
  }

  lemma ArrivalsGrow(rs: seq<Arrival>, r: Arrival)
    ensures HandlesOf(rs + [r]) == HandlesOf(rs) + (r.outside + [r.done.handle])
    ensures CompletionsOf(rs + [r]) == CompletionsOf(rs) + [r.done]
  {
    assert (rs + [r])[..|rs|] == rs;
  }

  // The I/O part of an engine, with every request ever queued by
  // submit_io_read and submit_io_write and every request answered. kernel is
  // what has been submitted and not yet been taken off the completion queue.
  datatype Books = Books(
    inflight: nat,
    waiting: seq<Handle>,
    toRead: seq<Awaiter>,
    toWrite: seq<Awaiter>,
    prepared: seq<Awaiter>,
    kernel: multiset<Awaiter>,
    handleOf: map<Awaiter, Handle>,
    requested: seq<Awaiter>,
    completions: seq<Completion>)

  // The read and write requests on their way through the engine.
  function InPipeline(b: Books): multiset<Awaiter> {
    multiset(b.toRead) + multiset(b.toWrite) + multiset(b.prepared) + b.kernel
  }

  // An awaiter has one request at a time, because its coroutine is suspended
  // on it; every request is in the pipeline or has been answered, once.
  ghost predicate Balanced(b: Books) {
    && b.inflight == |b.waiting| + |InPipeline(b)|
    && (forall a :: a in InPipeline(b) ==> InPipeline(b)[a] == 1 && a in b.handleOf)
    && multiset(b.requested) == InPipeline(b) + Answered(b.completions)
  }

  // --- The stages as functions of the books ---

  // b after one more request, by awaiter a of coroutine h.
  function ReadAsked(b: Books, a: Awaiter, h: Handle): Books {
    b.(inflight := b.inflight + 1, toRead := b.toRead + [a], handleOf := b.handleOf[a := h],
       requested := b.requested + [a])
  }

  function WriteAsked(b: Books, a: Awaiter, h: Handle): Books {
    b.(inflight := b.inflight + 1, toWrite := b.toWrite + [a], handleOf := b.handleOf[a := h],
       requested := b.requested + [a])
  }

  function WaitAsked(b: Books, h: Handle): Books {
    b.(inflight := b.inflight + 1, waiting := b.waiting + [h])
  }

  // The first n waiting coroutines have become ready.
  function Readied(b: Books, n: nat): Books
    requires n <= |b.waiting|
  {
    b.(inflight := Excess(b.inflight, n), waiting := b.waiting[n..])
  }

  // The first r reads and the first v writes have got their ring entries.
  function Prepared(b: Books, r: nat, v: nat): Books
    requires r <= |b.toRead| && v <= |b.toWrite|
  {
    b.(toRead := b.toRead[r..], toWrite := b.toWrite[v..], prepared := b.prepared + b.toRead[..r] + b.toWrite[..v])
  }

  // The kernel has taken the first n entries.
  function Submitted(b: Books, n: nat): Books
    requires n <= |b.prepared|
  {
    b.(prepared := b.prepared[n..], kernel := b.kernel + multiset(b.prepared[..n]))
  }

  // The kernel has answered the requests cs.
  function AllAnswered(b: Books, cs: seq<Completion>): Books {
    b.(inflight := Excess(b.inflight, |cs|), kernel := b.kernel - Answered(cs), completions := b.completions + cs)
  }

  // How much a call of poll_io(max) takes from each queue.
  function ReadyCount(b: Books, max: nat): nat { Min(max, |b.waiting|) }

  function ReadCount(b: Books, max: nat): nat { Min(max, |b.toRead|) }

  function WriteCount(b: Books, max: nat): nat { Min(max - ReadCount(b, max), |b.toWrite|) }

  function SubmitCount(b: Books, max: nat): nat { |b.prepared| + ReadCount(b, max) + WriteCount(b, max) }

  // The books after the locked block, with `left` of the entries not taken.
  function Started(b: Books, max: nat, left: nat): Books
    requires left <= SubmitCount(b, max)
  {
    Submitted(Prepared(Readied(b, ReadyCount(b, max)), ReadCount(b, max), WriteCount(b, max)), SubmitCount(b, max) - left)
  }

  lemma AskedPipelines(b: Books, a: Awaiter, h: Handle)
    ensures InPipeline(ReadAsked(b, a, h)) == InPipeline(b) + multiset{a}
    ensures InPipeline(WriteAsked(b, a, h)) == InPipeline(b) + multiset{a}
  {
  }

  lemma Asked(b: Books, a: Awaiter, h: Handle)
    requires Balanced(b) && a !in InPipeline(b)
    ensures Balanced(ReadAsked(b, a, h)) && Balanced(WriteAsked(b, a, h))
  {
    hide InPipeline, Balanced;
    AskedPipelines(b, a, h);
    Requested(b, ReadAsked(b, a, h), a);
    Requested(b, WriteAsked(b, a, h), a);
  }

  lemma Requested(b: Books, c: Books, a: Awaiter)
    requires Balanced(b) && a !in InPipeline(b) && InPipeline(c) == InPipeline(b) + multiset{a}
    requires c.waiting == b.waiting && c.inflight == b.inflight + 1 && c.completions == b.completions
    requires c.requested == b.requested + [a] && a in c.handleOf && b.handleOf.Keys <= c.handleOf.Keys
    ensures Balanced(c)
  {
    hide InPipeline;
  }

  lemma Renamed(b: Books, a: Awaiter, h: Handle)
    requires Balanced(b)
    ensures Balanced(b.(handleOf := b.handleOf[a := h]))
    ensures InPipeline(b.(handleOf := b.handleOf[a := h])) == InPipeline(b)
  {
    assert InPipeline(b.(handleOf := b.handleOf[a := h])) == InPipeline(b);
    hide InPipeline;
  }

  // b after the kernel has answered awaiter a.
  function AnswerGiven(b: Books, a: Awaiter, result: int): Books
    requires b.inflight > 0 && a in b.handleOf
  {
    b.(inflight := b.inflight - 1, kernel := b.kernel - multiset{a},
       completions := b.completions + [Completion(a, b.handleOf[a], result)])
  }

  lemma AnsweredNext(b: Books, cs: seq<Completion>, a: Awaiter, result: int)
    requires Answered(cs) <= b.kernel && a in AllAnswered(b, cs).kernel
    requires AllAnswered(b, cs).inflight > 0 && a in b.handleOf
    ensures var next := cs + [Completion(a, b.handleOf[a], result)];
            && Answered(next) <= b.kernel
            && AnswerGiven(AllAnswered(b, cs), a, result) == AllAnswered(b, next)
  {
    hide Answered;
    var c := Completion(a, b.handleOf[a], result);
    AnsweredGrows(cs, c);
    TakeOut(b.kernel, Answered(cs), a);
    Regroup(b.completions, cs, [c]);
  }

  lemma AnswersGrow(b: Books, c: Books, cs: seq<Completion>, done: Completion)
    requires Answered(cs) <= b.kernel && c == AllAnswered(b, cs) && done.awaiter in c.kernel && c.inflight > 0
    requires done.awaiter in c.handleOf && done.handle == c.handleOf[done.awaiter]
    ensures Answered(cs + [done]) <= b.kernel
    ensures AnswerGiven(c, done.awaiter, done.result) == AllAnswered(b, cs + [done])
  {
    AnsweredNext(b, cs, done.awaiter, done.result);
  }

  lemma TakeOut(m: multiset<Awaiter>, out: multiset<Awaiter>, a: Awaiter)
    requires out <= m && a in m - out
    ensures out + multiset{a} <= m && m - out - multiset{a} == m - (out + multiset{a})
  {
  }

  lemma KernelGives(b: Books, a: Awaiter)
    requires a in b.kernel
    ensures InPipeline(b) == InPipeline(b.(kernel := b.kernel - multiset{a})) + multiset{a}
  {
  }

  lemma SamePipeline(b: Books, c: Books)
    requires c.toRead == b.toRead && c.toWrite == b.toWrite && c.prepared == b.prepared && c.kernel == b.kernel
    ensures InPipeline(b) == InPipeline(c)
  {
  }

  lemma Answers(b: Books, a: Awaiter, result: int)
    requires Balanced(b) && a in b.kernel
    ensures a in InPipeline(b) && a in b.handleOf && b.inflight > 0
    ensures var c := AnswerGiven(b, a, result);
            Balanced(c) && a !in InPipeline(c) && forall x :: x in InPipeline(c) ==> x in InPipeline(b)
  {
    hide InPipeline, Answered;
    KernelGives(b, a);
    assert a in InPipeline(b);
    var c := AnswerGiven(b, a, result);
    SamePipeline(b.(kernel := b.kernel - multiset{a}), c);
    AnsweredGrows(b.completions, Completion(a, b.handleOf[a], result));
    OneOut(InPipeline(b), InPipeline(c), a);
    MoveOver(InPipeline(c), Answered(b.completions), a);
  }

  lemma OneOut(m: multiset<Awaiter>, n: multiset<Awaiter>, a: Awaiter)
    requires m == n + multiset{a} && forall x :: x in m ==> m[x] == 1
    ensures a !in n && |m| == |n| + 1
    ensures forall x :: x in n ==> x in m && n[x] == 1
  {
    assert m[a] == n[a] + 1;
    forall x | x in n ensures x in m && n[x] == 1 { assert m[x] == n[x] + if x == a then 1 else 0; }
  }

  lemma MoveOver(m: multiset<Awaiter>, n: multiset<Awaiter>, a: Awaiter)
    ensures (m + multiset{a}) + n == m + (n + multiset{a})
  {
  }

  // What a batch of completions leaves behind: the coroutines back in the
  // task queue in completion order, with outside pushes between them; every
  // awaiter completed with its own result, and every other awaiter with the
  // result it had.
  ghost predicate Delivered(base: seq<Handle>, results: map<Awaiter, int>, arrived: seq<Arrival>,
                            tasks: seq<Handle>, handleOf: map<Awaiter, Handle>, resultOf: map<Awaiter, int>)
  {
    && tasks == base + HandlesOf(arrived)
    && (forall r :: r in arrived ==>
          && r.done.awaiter in handleOf && r.done.handle == handleOf[r.done.awaiter]
          && r.done.awaiter in resultOf && r.done.result == resultOf[r.done.awaiter])
    && (forall a :: a in results && (forall r :: r in arrived ==> r.done.awaiter != a) ==>
          a in resultOf && resultOf[a] == results[a])
  }

  ghost predicate Gone(arrived: seq<Arrival>, pipeline: multiset<Awaiter>) {
    forall r :: r in arrived ==> r.done.awaiter !in pipeline
  }

  lemma NothingDelivered(b: Books, tasks: seq<Handle>, results: map<Awaiter, int>)
    ensures Delivered(tasks, results, [], tasks, b.handleOf, results)
    ensures CompletionsOf([]) == [] && AllAnswered(b, []) == b && Answered([]) == multiset{}
    ensures forall p :: Gone([], p)
  {
    assert b.completions + [] == b.completions;
  }

  lemma DeliverOne(base: seq<Handle>, results: map<Awaiter, int>, arrived: seq<Arrival>, tasks: seq<Handle>,
                   handleOf: map<Awaiter, Handle>, resultOf: map<Awaiter, int>, r: Arrival,
                   pipeline: multiset<Awaiter>, left: multiset<Awaiter>)
    requires Delivered(base, results, arrived, tasks, handleOf, resultOf) && Gone(arrived, pipeline)
    requires r.done.awaiter in pipeline && r.done.awaiter !in left && forall a :: a in left ==> a in pipeline
    requires r.done.awaiter in handleOf && r.done.handle == handleOf[r.done.awaiter]
    ensures Delivered(base, results, arrived + [r], tasks + r.outside + [r.done.handle], handleOf,
                      resultOf[r.done.awaiter := r.done.result])
    ensures Gone(arrived + [r], left)
  {
    hide HandlesOf;
    ArrivalsGrow(arrived, r);
    assert forall d :: d in arrived + [r] <==> d in arrived || d == r;
  }

  // Moving requests along the pipeline keeps the books.
  lemma Moves(b: Books, c: Books)
    requires Balanced(b) && InPipeline(b) == InPipeline(c)
    requires c.requested == b.requested && c.completions == b.completions && c.handleOf == b.handleOf
    requires c.inflight + |b.waiting| == b.inflight + |c.waiting|
    ensures Balanced(c)
  {
    hide InPipeline;
  }

  lemma Waits(b: Books, h: Handle)
    requires Balanced(b)
    ensures Balanced(WaitAsked(b, h))
  {
    Moves(b, WaitAsked(b, h));
  }

  lemma Resumes(b: Books, n: nat)
    requires n <= |b.waiting| && Balanced(b)
    ensures b.inflight >= |b.waiting| && Balanced(Readied(b, n))
  {
    Moves(b, Readied(b, n));
  }

  lemma Sizes(b: Books)
    ensures |InPipeline(b)| == |b.toRead| + |b.toWrite| + |b.prepared| + |b.kernel|
    ensures Balanced(b) ==> b.inflight == |b.waiting| + |InPipeline(b)|
  {
  }

  lemma Emptied(b: Books)
    ensures InPipeline(b) == multiset{} <==> |InPipeline(b)| == 0
    ensures InPipeline(b) == multiset{} ==>
              b.toRead == [] && b.toWrite == [] && b.prepared == [] && b.kernel == multiset{}
  {
    Sizes(b);
  }

  lemma {:induction false} AnsweredSize(cs: seq<Completion>)
    ensures |Answered(cs)| == |cs|
    decreases |cs|
  {
    if cs != [] { AnsweredSize(cs[..|cs| - 1]); }
  }

  // Every request ever made is under way or has been answered.
  lemma Ledger(b: Books)
    requires Balanced(b)
    ensures |b.requested| == |InPipeline(b)| + |b.completions|
  {
    hide InPipeline, Answered;
    AnsweredSize(b.completions);
    assert |multiset(b.requested)| == |InPipeline(b)| + |Answered(b.completions)|;
  }

  lemma OnlyKernel(b: Books)
    ensures InPipeline(b) == b.kernel <==> b.toRead == [] && b.toWrite == [] && b.prepared == []
  {
    assert |InPipeline(b)| == |b.toRead| + |b.toWrite| + |b.prepared| + |b.kernel|;
  }

  lemma PreparingMoves(b: Books, r: nat, v: nat)
    requires r <= |b.toRead| && v <= |b.toWrite|
    ensures InPipeline(Prepared(b, r, v)) == InPipeline(b)
  {
    assert b.toRead == b.toRead[..r] + b.toRead[r..];
    assert b.toWrite == b.toWrite[..v] + b.toWrite[v..];
  }

  lemma SubmittingMoves(b: Books, n: nat)
    requires n <= |b.prepared|
    ensures InPipeline(Submitted(b, n)) == InPipeline(b)
  {
    assert b.prepared == b.prepared[..n] + b.prepared[n..];
  }

  lemma PipelineMoves(b: Books, r: nat, v: nat, n: nat)
    requires Balanced(b) && r <= |b.toRead| && v <= |b.toWrite| && n <= |Prepared(b, r, v).prepared|
    ensures Balanced(Submitted(Prepared(b, r, v), n))
  {
    hide InPipeline, Balanced;
    PreparingMoves(b, r, v);
    SubmittingMoves(Prepared(b, r, v), n);
    Moves(b, Submitted(Prepared(b, r, v), n));
  }

  // --- What poll_io(max) makes of books b, a task queue and the results ---

  datatype PollOutcome = Progress(n: nat) | RingFull | SubmitFailed | PeekFailed

  // The part of the task queue that comes from the I/O waiting queue.
  function Woken(b: Books, max: nat): seq<Handle> { b.waiting[..ReadyCount(b, max)] }

  // b with its first n entries submitted so far.
  lemma SubmitMore(b: Books, n: nat, c: Books, k: nat, d: Books)
    requires n <= |b.prepared| && c == Submitted(b, n) && k <= |c.prepared| && d == Submitted(c, k)
    ensures n + k <= |b.prepared| && d == Submitted(b, n + k)
  {
    assert b.prepared[..n] + c.prepared[..k] == b.prepared[..n + k];
  }

  lemma SubmittedIs(b: Books, n: nat, c: Books)
    requires n <= |b.prepared| && c == b.(prepared := c.prepared, kernel := c.kernel)
    requires c.prepared == b.prepared[n..] && c.kernel == b.kernel + multiset(b.prepared[..n])
    ensures c == Submitted(b, n)
  {
  }

  lemma SubmitNone(b: Books)
    ensures b == Submitted(b, 0)
  {
  }

  // One awaiter has been taken off its queue and is nowhere any more.
  ghost predicate OneLost(b: Books, c: Books) {
    |InPipeline(c)| == |InPipeline(b)| - 1 && c.inflight == |c.waiting| + |InPipeline(c)| + 1
  }

  lemma Refused(b: Books, c: Books, r: nat, v: nat)
    requires Balanced(b) && r <= |b.toRead| && v <= |b.toWrite|
    requires c == Prepared(b, r, v).(toRead := c.toRead, toWrite := c.toWrite)
    requires |c.toRead| + |c.toWrite| == |b.toRead| - r + |b.toWrite| - v - 1
    ensures OneLost(b, c)
  {
    hide Balanced, InPipeline;
    Sizes(b);
    Sizes(c);
  }

  lemma PreparedSize(b: Books, max: nat)
    ensures |Prepared(b, ReadCount(b, max), WriteCount(b, max)).prepared| == SubmitCount(b, max)
    ensures forall n: nat :: n <= SubmitCount(b, max) ==>
              |Submitted(Prepared(b, ReadCount(b, max), WriteCount(b, max)), n).prepared| == SubmitCount(b, max) - n
  {
  }

  lemma CountsAfterReady(b: Books, n: nat, max: nat)
    requires n <= |b.waiting|
    ensures var c := Readied(b, n);
            && ReadCount(c, max) == ReadCount(b, max) && WriteCount(c, max) == WriteCount(b, max)
            && ReadCount(b, max) <= |c.toRead| && WriteCount(b, max) <= |c.toWrite|
            && SubmitCount(c, max) == SubmitCount(b, max) && |c.prepared| == |b.prepared|
            && forall d :: OneLost(c, d) ==> OneLost(b, d)
  {
    assert InPipeline(Readied(b, n)) == InPipeline(b);
  }

  // The locked block of poll_io.
  ghost predicate StartedIo(b: Books, tasks: seq<Handle>, max: nat, failure: Option<PollOutcome>, progressed: nat,
                            left: nat, c: Books, queue: seq<Handle>)
  {
    match failure
    case None =>
      && SubmitCount(b, max) <= RING_DEPTH && left == 0
      && progressed == ReadyCount(b, max) + SubmitCount(b, max)
      && c == Started(b, max, 0) && queue == tasks + Woken(b, max)
    case Some(SubmitFailed) =>
      && SubmitCount(b, max) <= RING_DEPTH && 0 < left <= SubmitCount(b, max)
      && c == Started(b, max, left) && queue == tasks + Woken(b, max)
    case Some(RingFull) => SubmitCount(b, max) > RING_DEPTH && OneLost(b, c)
    case _ => false
  }

  // The locked block without failure, then completions.
  ghost predicate Reaped(b: Books, tasks: seq<Handle>, results: map<Awaiter, int>, max: nat, arrived: seq<Arrival>,
                         left: nat, c: Books, queue: seq<Handle>, resultOf: map<Awaiter, int>)
  {
    && SubmitCount(b, max) <= RING_DEPTH && left == 0 && |arrived| <= max
    && Answered(CompletionsOf(arrived)) <= Started(b, max, 0).kernel
    && c == AllAnswered(Started(b, max, 0), CompletionsOf(arrived))
    && Delivered(tasks + Woken(b, max), results, arrived, queue, b.handleOf, resultOf)
  }

  ghost predicate Polled(b: Books, tasks: seq<Handle>, results: map<Awaiter, int>, max: nat,
                         outcome: PollOutcome, arrived: seq<Arrival>,
                         left: nat, c: Books, queue: seq<Handle>, resultOf: map<Awaiter, int>)
  {
    match outcome
    case Progress(n) =>
      if max == 0 then n == 0 && c == b && queue == tasks && resultOf == results && arrived == []
      else
        && Reaped(b, tasks, results, max, arrived, left, c, queue, resultOf)
        && n == ReadyCount(b, max) + SubmitCount(b, max) + |arrived|
    case PeekFailed => max > 0 && Reaped(b, tasks, results, max, arrived, left, c, queue, resultOf)
    case SubmitFailed =>
      && max > 0 && arrived == [] && resultOf == results
      && StartedIo(b, tasks, max, Some(SubmitFailed), 0, left, c, queue)
    case RingFull => max > 0 && SubmitCount(b, max) > RING_DEPTH && OneLost(b, c)
  }

  // poll_io(max) exhausts the ring exactly if what was left over and what it
  // prepares are more than the ring's 256 entries. Otherwise it takes up to max
  // off the I/O waiting queue, up to max off the two submission queues, reads
  // first, and as many completions as arrived; every request and every waiting
  // coroutine is still accounted for, no progress means that the I/O queues are
  // empty, and nothing is left over unless submit() failed.
  lemma PolledMeans(b: Books, tasks: seq<Handle>, results: map<Awaiter, int>, max: nat,
                    outcome: PollOutcome, arrived: seq<Arrival>,
                    left: nat, c: Books, queue: seq<Handle>, resultOf: map<Awaiter, int>)
    requires Polled(b, tasks, results, max, outcome, arrived, left, c, queue, resultOf) && max > 0
    ensures var n, r := Min(max, |b.waiting|), Min(max, |b.toRead|);
            var v := Min(max - r, |b.toWrite|);
            && (outcome == RingFull <==> |b.prepared| + r + v > 256)
            && (outcome != RingFull ==>
                  && c.waiting == b.waiting[n..] && c.toRead == b.toRead[r..] && c.toWrite == b.toWrite[v..]
                  && tasks + b.waiting[..n] <= queue
                  && c.requested == b.requested && c.handleOf == b.handleOf)
            && (outcome.Progress? ==> outcome.n == n + |b.prepared| + r + v + |arrived|)
            && (outcome.Progress? && b.prepared == [] ==> outcome.n <= 3 * max)
            && (outcome == SubmitFailed ==> c.prepared != [] && c.completions == b.completions)
    ensures b.prepared == [] && max <= 256 ==> outcome != RingFull
    ensures outcome == Progress(0) ==> c.waiting == [] && c.toRead == [] && c.toWrite == [] && queue == tasks
    ensures outcome.Progress? || outcome == PeekFailed ==>
              && left == 0 && c.prepared == [] && |c.completions| == |b.completions| + |arrived|
              && forall i :: 0 <= i < |arrived| ==> c.completions[|b.completions| + i] == arrived[i].done
  {
    hide Started, Reaped, SubmitCount, ReadyCount, Woken, OneLost;
    CountsMean(b, max);
    if outcome.Progress? || outcome == PeekFailed {
      ReapedMeans(b, tasks, results, max, arrived, left, c, queue, resultOf);
    } else if outcome == SubmitFailed {
      StartedMeans(b, max, left);
    }
  }

  lemma ReapedMeans(b: Books, tasks: seq<Handle>, results: map<Awaiter, int>, max: nat, arrived: seq<Arrival>,
                    left: nat, c: Books, queue: seq<Handle>, resultOf: map<Awaiter, int>)
    requires Reaped(b, tasks, results, max, arrived, left, c, queue, resultOf) && max > 0
    ensures var n, r := Min(max, |b.waiting|), Min(max, |b.toRead|);
            var v := Min(max - r, |b.toWrite|);
            && SubmitCount(b, max) <= 256 && |arrived| <= max
            && c.waiting == b.waiting[n..] && c.toRead == b.toRead[r..] && c.toWrite == b.toWrite[v..]
            && tasks + b.waiting[..n] <= queue && (n == |arrived| == 0 ==> queue == tasks)
            && (n == 0 ==> c.waiting == []) && (r == 0 ==> c.toRead == []) && (r == v == 0 ==> c.toWrite == [])
            && c.requested == b.requested && c.handleOf == b.handleOf
    ensures left == 0 && c.prepared == [] && |c.completions| == |b.completions| + |arrived|
    ensures forall i :: 0 <= i < |arrived| ==> c.completions[|b.completions| + i] == arrived[i].done
  {
    hide Started, AllAnswered, Answered, CompletionsOf, HandlesOf, SubmitCount, ReadyCount, Woken;
    CountsMean(b, max);
    StartedMeans(b, max, 0);
    AnsweredMeans(Started(b, max, 0), CompletionsOf(arrived));
    NoArrivals();
    CompletionsInOrder(arrived);
  }

  lemma CountsMean(b: Books, max: nat)
    ensures var r := Min(max, |b.toRead|);
            SubmitCount(b, max) == |b.prepared| + r + Min(max - r, |b.toWrite|)
    ensures ReadyCount(b, max) == Min(max, |b.waiting|) && Woken(b, max) == b.waiting[..Min(max, |b.waiting|)]
  {
  }

  lemma StartedMeans(b: Books, max: nat, left: nat)
    ensures var r := Min(max, |b.toRead|);
            var v := Min(max - r, |b.toWrite|);
            left <= SubmitCount(b, max) ==>
              var c := Started(b, max, left);
              && c.waiting == b.waiting[Min(max, |b.waiting|)..] && c.toRead == b.toRead[r..]
              && c.toWrite == b.toWrite[v..] && |c.prepared| == left
              && c.requested == b.requested && c.handleOf == b.handleOf && c.completions == b.completions
  {
  }

  lemma AnsweredMeans(b: Books, cs: seq<Completion>)
    ensures var c := AllAnswered(b, cs);
            && c.waiting == b.waiting && c.toRead == b.toRead && c.toWrite == b.toWrite && c.prepared == b.prepared
            && c.requested == b.requested && c.handleOf == b.handleOf && c.completions == b.completions + cs
  {
  }

  // When submit() fails, what is left over for the next poll are the last
  // entries, in order: earlier ones, then reads, then writes.
  lemma LeftOver(b: Books, tasks: seq<Handle>, results: map<Awaiter, int>, max: nat,
                 left: nat, c: Books, queue: seq<Handle>, resultOf: map<Awaiter, int>)
    requires Polled(b, tasks, results, max, SubmitFailed, [], left, c, queue, resultOf)
    ensures var r := Min(max, |b.toRead|);
            var v := Min(max - r, |b.toWrite|);
            var entries := b.prepared + b.toRead[..r] + b.toWrite[..v];
            && 0 < left <= |entries| && c.prepared == entries[|entries| - left..]
            && c.kernel == b.kernel + multiset(entries[..|entries| - left])
  {
  }

  lemma {:induction false} CompletionsInOrder(rs: seq<Arrival>)
    ensures |CompletionsOf(rs)| == |rs| && forall i :: 0 <= i < |rs| ==> CompletionsOf(rs)[i] == rs[i].done
    decreases |rs|
  {
    if rs != [] { CompletionsInOrder(rs[..|rs| - 1]); }
  }

  // Each coroutine is queued behind what others pushed before it, in the order
  // of the completions.
  lemma {:induction false} HandlesInOrder(rs: seq<Arrival>, i: nat)
    requires i < |rs|
    ensures HandlesOf(rs[..i]) + (rs[i].outside + [rs[i].done.handle]) <= HandlesOf(rs)
    decreases |rs|
  {
    hide HandlesOf;
    var last := |rs| - 1;
    assert rs == rs[..last] + [rs[last]];
    ArrivalsGrow(rs[..last], rs[last]);
    if i < last {
      HandlesInOrder(rs[..last], i);
      assert rs[..last][..i] == rs[..i];
    }
  }

  // With nobody else pushing, the coroutines queued are those completed.
  lemma {:induction false} HandlesAlone(rs: seq<Arrival>)
    requires forall k :: 0 <= k < |rs| ==> rs[k].outside == []
    ensures |HandlesOf(rs)| == |rs| && forall i :: 0 <= i < |rs| ==> HandlesOf(rs)[i] == rs[i].done.handle
    decreases |rs|
  {
    if rs != [] { HandlesAlone(rs[..|rs| - 1]); }
  }

  lemma NoArrivals()
    ensures HandlesOf([]) == []
  {
  }

  // What has been taken off the completion queue and what is still on it are
  // together what was on it before, and what the kernel has put behind that.
  ghost predicate TakenInTurn(before: seq<Cqe>, arrived: seq<Arrival>, after: seq<Cqe>) {
    before <= seq(|arrived|, i requires 0 <= i < |arrived| => Cqe(arrived[i].done.awaiter, arrived[i].done.result)) + after
  }

  lemma NothingTaken(before: seq<Cqe>, after: seq<Cqe>)
    requires before <= after
    ensures TakenInTurn(before, [], after)
  {
    assert forall s: seq<Cqe> :: |s| == 0 ==> s + after == after;
  }

  lemma OneTaken(before: seq<Cqe>, arrived: seq<Arrival>, middle: seq<Cqe>, r: Arrival, after: seq<Cqe>)
    requires TakenInTurn(before, arrived, middle) && middle <= [Cqe(r.done.awaiter, r.done.result)] + after
    ensures TakenInTurn(before, arrived + [r], after)
  {
    var all := arrived + [r];
    var taken := seq(|arrived|, i requires 0 <= i < |arrived| => Cqe(arrived[i].done.awaiter, arrived[i].done.result));
    assert seq(|all|, i requires 0 <= i < |all| => Cqe(all[i].done.awaiter, all[i].done.result)) ==
           taken + [Cqe(r.done.awaiter, r.done.result)];
    assert taken + ([Cqe(r.done.awaiter, r.done.result)] + after) == taken + [Cqe(r.done.awaiter, r.done.result)] + after;
  }

  lemma NoneTaken(before: seq<Cqe>, arrived: seq<Arrival>, middle: seq<Cqe>, after: seq<Cqe>)
    requires TakenInTurn(before, arrived, middle) && middle <= after
    ensures TakenInTurn(before, arrived, after)
  {
  }

  lemma TakenMeans(before: seq<Cqe>, arrived: seq<Arrival>, after: seq<Cqe>)
    requires TakenInTurn(before, arrived, after)
    ensures forall i :: 0 <= i < |arrived| && i < |before| ==>
              arrived[i].done.awaiter == before[i].awaiter && arrived[i].done.result == before[i].result
    ensures after == [] ==> |before| <= |arrived|
  {
  }

  lemma EarlierTaken(before: seq<Cqe>, middle: seq<Cqe>, arrived: seq<Arrival>, after: seq<Cqe>)
    requires before <= middle && TakenInTurn(middle, arrived, after)
    ensures TakenInTurn(before, arrived, after)
  {
  }

  // The ring: entries prepared but not submitted, the operations the kernel is
  // at work on, and its completion queue. Before every call the kernel may have
  // completed any of its operations, in any order and with any result, and may
  // have broken down or recovered.
  class IoUring {
    var prepared: seq<Awaiter>
    var kernel: multiset<Awaiter>
    var ready: seq<Cqe>
    var broken: bool

    constructor ()
      ensures prepared == [] && kernel == multiset{} && ready == []
    {
      prepared, kernel, ready, broken := [], multiset{}, [], false;
    }

    // The operations submitted and not yet taken off the completion queue.
    function Outstanding(): multiset<Awaiter>
      reads `kernel, `ready
    {
      kernel + AwaitersOf(ready)
    }

    method KernelActs()
      modifies `kernel, `ready, `broken
      ensures old(ready) <= ready && Outstanding() == old(Outstanding())
    {
      hide AwaitersOf;
      var n: int := *;
      while n > 0
        invariant old(ready) <= ready && Outstanding() == old(Outstanding())
      {
        if kernel != multiset{} {
          var a :| a in kernel;
          var result: int := *;
          CompletedOne(kernel, ready, Cqe(a, result));
          kernel, ready := kernel - multiset{a}, ready + [Cqe(a, result)];
        }
        n := n - 1;
      }
      broken := *;
    }

    // submit_read and submit_write: false is "no entry left", which throws.
    method Prepare(a: Awaiter) returns (ok: bool)
      modifies `prepared
      ensures ok <==> |old(prepared)| < 256
      ensures prepared == old(prepared) + if ok then [a] else []
    {
      ok := |prepared| < RING_DEPTH;
      if ok { prepared := prepared + [a]; }
    }

    // The kernel takes at least one of the entries offered, unless it is broken.
    method Submit() returns (n: int)
      modifies this
      ensures n <= |old(prepared)| && (n > 0 <==> !broken && old(prepared) != [])
      ensures n <= 0 ==> prepared == old(prepared) && Outstanding() == old(Outstanding())
      ensures n > 0 ==>
                prepared == old(prepared)[n..] && Outstanding() == old(Outstanding()) + multiset(old(prepared)[..n])
      ensures old(ready) <= ready
    {
      hide AwaitersOf;
      KernelActs();
      n := *;
      if broken || prepared == [] {
        return if n > 0 then 0 else n;
      }
      n := if n < 1 then 1 else if n > |prepared| then |prepared| else n;
      kernel := kernel + multiset(prepared[..n]);
      prepared := prepared[n..];
    }

    // The front of the completion queue, if there is one.
    method TryWaitOne() returns (p: Peek)
      modifies `kernel, `ready, `broken
      ensures p.Failed? <==> broken
      ensures p.Nothing? ==> ready == []
      ensures p.One? ==>
                && p.cqe.awaiter in old(Outstanding()) && Outstanding() == old(Outstanding()) - multiset{p.cqe.awaiter}
                && old(ready) <= [p.cqe] + ready
      ensures !p.One? ==> Outstanding() == old(Outstanding()) && old(ready) <= ready
    {
      hide AwaitersOf;
      KernelActs();
      if broken { return Failed; }
      if ready == [] { return Nothing; }
      FrontTaken(kernel, ready);
      assert ready == [ready[0]] + ready[1..];
      p := One(ready[0]);
      ready := ready[1..];
    }
  }

  class Engine {
    var tasks: seq<Handle>
    var ioWaiting: seq<Handle>
    var readQueue: seq<Awaiter>
    var writeQueue: seq<Awaiter>
    const uring: IoUring
    var pendingSubmit: nat
    var inflightTasks: nat
    var inflightIo: nat
    var handleOf: map<Awaiter, Handle>
    var resultOf: map<Awaiter, int>
    ghost var requested: seq<Awaiter>
    ghost var completions: seq<Completion>

    ghost function Io(): Books
      reads this, uring
    {
      Books(inflightIo, ioWaiting, readQueue, writeQueue, uring.prepared, uring.Outstanding(), handleOf, requested, completions)
    }

    // The accounting that holds between the steps of the worker.
    ghost predicate Valid()
      reads this, uring
    {
      pendingSubmit == |uring.prepared| <= RING_DEPTH && Balanced(Io())
    }

    constructor ()
      ensures Valid() && fresh(uring)
      ensures tasks == [] && ioWaiting == [] && InPipeline(Io()) == multiset{}
      ensures requested == [] && completions == []
      ensures inflightTasks == 0 && pendingSubmit == 0 && uring.ready == []
    {
      tasks, ioWaiting, readQueue, writeQueue := [], [], [], [];
      uring := new IoUring();
      pendingSubmit, inflightTasks, inflightIo := 0, 0, 0;
      handleOf, resultOf, requested, completions := map[], map[], [], [];
    }

    method SubmitTask(h: Handle)
      modifies `tasks
      ensures tasks == old(tasks) + [h]
    {
      tasks := tasks + [h];
    }

    method SubmitIoWaiting(h: Handle)
      requires Valid()
      modifies `ioWaiting, `inflightIo
      ensures Valid() && Io() == WaitAsked(old(Io()), h)
      ensures ioWaiting == old(ioWaiting) + [h] && inflightIo == old(inflightIo) + 1
    {
      hide Balanced, InPipeline;
      Waits(Io(), h);
      inflightIo := inflightIo + 1;
      ioWaiting := ioWaiting + [h];
    }

    // submit_io_read; None is a null awaiter.
    method SubmitIoRead(awaiter: Option<Awaiter>)
      requires Valid()
      requires awaiter.Some? ==> awaiter.value !in InPipeline(Io()) && awaiter.value in handleOf
      modifies `readQueue, `inflightIo, `requested
      ensures Valid()
      ensures Io() == if awaiter.None? then old(Io()) else ReadAsked(old(Io()), awaiter.value, handleOf[awaiter.value])
      ensures readQueue == old(readQueue) + (if awaiter.Some? then [awaiter.value] else [])
      ensures inflightIo == old(inflightIo) + if awaiter.Some? then 1 else 0
    {
      hide Balanced, InPipeline;
      if awaiter.None? { return; }
      var a := awaiter.value;
      Asked(Io(), a, handleOf[a]);
      assert handleOf[a := handleOf[a]] == handleOf;
      inflightIo := inflightIo + 1;
      readQueue := readQueue + [a];
      requested := requested + [a];
    }

    // submit_io_write; None is a null awaiter.
    method SubmitIoWrite(awaiter: Option<Awaiter>)
      requires Valid()
      requires awaiter.Some? ==> awaiter.value !in InPipeline(Io()) && awaiter.value in handleOf
      modifies `writeQueue, `inflightIo, `requested
      ensures Valid()
      ensures Io() == if awaiter.None? then old(Io()) else WriteAsked(old(Io()), awaiter.value, handleOf[awaiter.value])
      ensures writeQueue == old(writeQueue) + (if awaiter.Some? then [awaiter.value] else [])
      ensures inflightIo == old(inflightIo) + if awaiter.Some? then 1 else 0
    {
      hide Balanced, InPipeline;
      if awaiter.None? { return; }
      var a := awaiter.value;
      Asked(Io(), a, handleOf[a]);
      assert handleOf[a := handleOf[a]] == handleOf;
      inflightIo := inflightIo + 1;
      writeQueue := writeQueue + [a];
      requested := requested + [a];
    }

    // IoReadAwaiter::await_suspend and IoWriteAwaiter::await_suspend on a worker.
    method AwaitRead(a: Awaiter, h: Handle)
      requires Valid() && a !in InPipeline(Io())
      modifies `readQueue, `inflightIo, `requested, `handleOf
      ensures Valid() && Io() == ReadAsked(old(Io()), a, h)
      ensures readQueue == old(readQueue) + [a] && handleOf == old(handleOf)[a := h] && inflightIo == old(inflightIo) + 1
    {
      hide Balanced, InPipeline;
      Renamed(Io(), a, h);
      handleOf := handleOf[a := h];
      SubmitIoRead(Some(a));
    }

    method AwaitWrite(a: Awaiter, h: Handle)
      requires Valid() && a !in InPipeline(Io())
      modifies `writeQueue, `inflightIo, `requested, `handleOf
      ensures Valid() && Io() == WriteAsked(old(Io()), a, h)
      ensures writeQueue == old(writeQueue) + [a] && handleOf == old(handleOf)[a := h] && inflightIo == old(inflightIo) + 1
    {
      hide Balanced, InPipeline;
      Renamed(Io(), a, h);
      handleOf := handleOf[a := h];
      SubmitIoWrite(Some(a));
    }

    method TryPopTask() returns (h: Option<Handle>)
      modifies `tasks
      ensures h == if old(tasks) == [] then None else Some(old(tasks)[0])
      ensures old(tasks) == (if h.Some? then [h.value] else []) + tasks
    {
      if tasks == [] { return None; }
      h := Some(tasks[0]);
      tasks := tasks[1..];
    }

    // stale is what the caller's vector held; it is returned untouched when
    // nothing is popped.
    method PopBatch(stale: seq<Handle>, max: nat) returns (out: seq<Handle>, popped: nat)
      modifies `tasks
      ensures popped == Min(max, |old(tasks)|)
      ensures out == if popped == 0 then stale else old(tasks)[..popped]
      ensures tasks == old(tasks)[popped..]
    {
      if tasks == [] || max == 0 { return stale, 0; }
      out := [];
      while |out| < max && tasks != []
        invariant |out| <= Min(max, |old(tasks)|)
        invariant out == old(tasks)[..|out|] && tasks == old(tasks)[|out|..]
        decreases |tasks|
      {
        out := out + [tasks[0]];
        tasks := tasks[1..];
      }
      popped := |out|;
    }

    method ReadyWaiting(max: nat) returns (moved: nat)
      requires inflightIo >= |ioWaiting|
      modifies `tasks, `ioWaiting, `inflightIo
      ensures moved == Min(max, |old(ioWaiting)|)
      ensures tasks == old(tasks) + old(ioWaiting)[..moved]
      ensures Io() == Readied(old(Io()), moved)
    {
      moved := 0;
      while moved < max && ioWaiting != []
        invariant moved <= Min(max, |old(ioWaiting)|)
        invariant tasks == old(tasks) + old(ioWaiting)[..moved]
        invariant ioWaiting == old(ioWaiting)[moved..]
        invariant inflightIo == old(inflightIo) - moved
        decreases |ioWaiting|
      {
        tasks := tasks + [ioWaiting[0]];
        ioWaiting := ioWaiting[1..];
        inflightIo := inflightIo - 1;
        moved := moved + 1;
      }
    }

    // One of the two preparing loops, over its queue. An awaiter for which the
    // ring has no entry has already left the queue when the exception is thrown.
    method PrepareFrom(queue: seq<Awaiter>, max: nat) returns (rest: seq<Awaiter>, taken: nat, ok: bool)
      requires pendingSubmit == |uring.prepared| <= RING_DEPTH
      modifies `pendingSubmit, uring`prepared
      ensures ok <==> |old(uring.prepared)| + Min(max, |queue|) <= 256
      ensures ok ==> taken == Min(max, |queue|) && rest == queue[taken..]
      ensures !ok ==> taken < Min(max, |queue|) && rest == queue[taken + 1..]
      ensures uring.prepared == old(uring.prepared) + queue[..taken]
      ensures pendingSubmit == |uring.prepared| <= RING_DEPTH
    {
      rest, taken := queue, 0;
      while taken < max && rest != []
        invariant taken <= Min(max, |queue|) && rest == queue[taken..]
        invariant uring.prepared == old(uring.prepared) + queue[..taken]
        invariant pendingSubmit == |uring.prepared| <= RING_DEPTH
        decreases |rest|
      {
        var a := rest[0];
        rest := rest[1..];
        ok := uring.Prepare(a);
        if !ok { return; }
        pendingSubmit := pendingSubmit + 1;
        taken := taken + 1;
      }
      ok := true;
    }

    // Terminates however few entries each submit() takes. The test for a count
    // above the pending one never succeeds.
    method SubmitAll() returns (ok: bool, submitted: nat)
      requires pendingSubmit == |uring.prepared|
      modifies `pendingSubmit, uring
      ensures pendingSubmit == |uring.prepared| && (ok <==> pendingSubmit == 0)
      ensures submitted <= |old(uring.prepared)| && Io() == Submitted(old(Io()), submitted)
      ensures old(uring.ready) <= uring.ready && (!ok ==> uring.broken)
    {
      hide IoUring.Outstanding, Submitted;
      submitted := 0;
      ghost var b := Io();
      SubmitNone(b);
      while pendingSubmit > 0
        invariant pendingSubmit == |uring.prepared|
        invariant submitted <= |b.prepared| && Io() == Submitted(b, submitted)
        invariant old(uring.ready) <= uring.ready
        decreases pendingSubmit
      {
        ghost var c := Io();
        var n := uring.Submit();
        if n <= 0 { return false, submitted; }
        assert n <= pendingSubmit;
        SubmittedIs(c, n, Io());
        SubmitMore(b, submitted, c, n, Io());
        pendingSubmit := pendingSubmit - n;
        submitted := submitted + n;
      }
      ok := true;
    }

    // What other threads push on the task queue while its mutex is free.
    method LetOthersPush(pushed: seq<Handle>)
      modifies `tasks
      ensures tasks == old(tasks) + pushed
    {
      tasks := tasks + pushed;
    }

    // One round of the completion loop, during which others push what outside
    // says. The counter drops only after the coroutine is back in the task queue.
    method ReapOne(outside: seq<Handle>) returns (p: Peek, ghost r: Arrival)
      requires Valid()
      modifies `resultOf, `tasks, `inflightIo, `completions, uring`kernel, uring`ready, uring`broken
      ensures Valid() && (p.Failed? <==> uring.broken) && (p.Nothing? ==> uring.ready == [])
      ensures !p.One? ==>
                Io() == old(Io()) && tasks == old(tasks) && resultOf == old(resultOf) && old(uring.ready) <= uring.ready
      ensures p.One? ==>
                var a := r.done.awaiter;
                && p.cqe == Cqe(a, r.done.result) && r.outside == outside
                && old(uring.ready) <= [Cqe(a, r.done.result)] + uring.ready
                && a in old(Io().kernel) && a in handleOf && r.done.handle == handleOf[a] && old(inflightIo) > 0
                && Io() == AnswerGiven(old(Io()), a, r.done.result)
                && a !in InPipeline(Io()) && a in old(InPipeline(Io()))
                && (forall x :: x in InPipeline(Io()) ==> x in old(InPipeline(Io())))
                && resultOf == old(resultOf)[a := r.done.result]
                && tasks == old(tasks) + outside + [r.done.handle]
    {
      hide Balanced, InPipeline, IoUring.Outstanding;
      ghost var b := Io();
      p := uring.TryWaitOne();
      r := Arrival([], Completion(0, 0, 0));
      if p.One? {
        var a, result := p.cqe.awaiter, p.cqe.result;
        Answers(b, a, result);
        resultOf := resultOf[a := result];
        LetOthersPush(outside);
        r := Arrival(outside, Completion(a, handleOf[a], result));
        tasks := tasks + [handleOf[a]];
        inflightIo := inflightIo - 1;
        completions := completions + [r.done];
      }
    }

    // Short of a failure, what was in the completion queue is taken from its
    // front, up to max entries, and fewer than max are taken only if nothing
    // more is there.
    method Reap(max: nat, outside: nat -> seq<Handle>) returns (ok: bool, completed: nat, ghost arrived: seq<Arrival>)
      requires Valid()
      modifies `tasks, `inflightIo, `resultOf, `completions, uring`kernel, uring`ready, uring`broken
      ensures Valid() && completed == |arrived| <= max
      ensures Answered(CompletionsOf(arrived)) <= old(Io().kernel)
      ensures Io() == AllAnswered(old(Io()), CompletionsOf(arrived))
      ensures Delivered(old(tasks), old(resultOf), arrived, tasks, handleOf, resultOf)
      ensures ok ==> completed == max || (uring.ready == [] && completed >= |old(uring.ready)|)
      ensures !ok ==> uring.broken
      ensures TakenInTurn(old(uring.ready), arrived, uring.ready)
      ensures forall i :: 0 <= i < |arrived| ==> arrived[i].outside == outside(i)
    {
      hide *;
      completed, arrived := 0, [];
      ghost var b, base, results := Io(), tasks, resultOf;
      NothingDelivered(b, base, results);
      NothingTaken(uring.ready, uring.ready);
      IoOf();
      while completed < max
        invariant Valid() && completed == |arrived| <= max
        invariant Answered(CompletionsOf(arrived)) <= b.kernel && Io() == AllAnswered(b, CompletionsOf(arrived))
        invariant Delivered(base, results, arrived, tasks, handleOf, resultOf)
        invariant Gone(arrived, InPipeline(Io()))
        invariant TakenInTurn(old(uring.ready), arrived, uring.ready)
        invariant forall i :: 0 <= i < |arrived| ==> arrived[i].outside == outside(i)
      {
        ghost var c, queue, given, ready := Io(), tasks, resultOf, uring.ready;
        ghost var r;
        var p;
        IoOf();
        p, r := ReapOne(outside(completed));
        if !p.One? {
          NoneTaken(old(uring.ready), arrived, ready, uring.ready);
          TakenMeans(old(uring.ready), arrived, uring.ready);
          return p.Nothing?, completed, arrived;
        }
        OneTaken(old(uring.ready), arrived, ready, r, uring.ready);
        DeliverOne(base, results, arrived, queue, handleOf, given, r, InPipeline(c), InPipeline(Io()));
        ArrivalsGrow(arrived, r);
        AnswersGrow(b, c, CompletionsOf(arrived), r.done);
        completed, arrived := completed + 1, arrived + [r];
      }
      ok := true;
    }

    lemma IoOf()
      ensures Io().kernel == uring.Outstanding() && Io().handleOf == handleOf && Io().inflight == inflightIo
    {
    }

    // Both preparing loops: reads first, writes with what is left of max.
    method PrepareAll(max: nat) returns (ok: bool)
      requires pendingSubmit == |uring.prepared| <= RING_DEPTH && Balanced(Io())
      modifies `readQueue, `writeQueue, `pendingSubmit, uring`prepared
      ensures pendingSubmit == |uring.prepared| <= RING_DEPTH
      ensures ok <==> SubmitCount(old(Io()), max) <= RING_DEPTH
      ensures ok ==> Io() == Prepared(old(Io()), ReadCount(old(Io()), max), WriteCount(old(Io()), max))
      ensures !ok ==> OneLost(old(Io()), Io())
    {
      hide Balanced, OneLost;
      ghost var b := Io();
      var prepared, more;
      readQueue, prepared, ok := PrepareFrom(readQueue, max);
      if !ok {
        Refused(b, Io(), prepared, 0);
        return;
      }
      writeQueue, more, ok := PrepareFrom(writeQueue, max - prepared);
      if !ok { Refused(b, Io(), prepared, more); }
    }

    // The locked block of poll_io.
    method StartIo(max: nat) returns (failure: Option<PollOutcome>, progressed: nat)
      requires Valid()
      modifies `tasks, `ioWaiting, `readQueue, `writeQueue, `pendingSubmit, `inflightIo, uring
      ensures failure != Some(RingFull) ==> Valid()
      ensures StartedIo(old(Io()), old(tasks), max, failure, progressed, pendingSubmit, Io(), tasks)
      ensures old(uring.ready) <= uring.ready && (failure == Some(SubmitFailed) ==> uring.broken)
    {
      hide IoUring.Outstanding, Balanced, OneLost, Submitted, Prepared, ReadCount, WriteCount, SubmitCount;
      ghost var b, r, v := Io(), ReadCount(Io(), max), WriteCount(Io(), max);
      Resumes(b, ReadyCount(b, max));
      CountsAfterReady(b, ReadyCount(b, max), max);
      progressed := ReadyWaiting(max);
      var ok, submitted;
      ok := PrepareAll(max);
      if !ok { return Some(RingFull), progressed; }
      PreparedSize(Readied(b, progressed), max);
      ok, submitted := SubmitAll();
      PipelineMoves(Readied(b, progressed), r, v, submitted);
      if !ok { return Some(SubmitFailed), progressed; }
      return None, progressed + submitted;
    }

    // outside(i) is what other threads push while the i-th completion is on its
    // way. Unless the ring fails, the completion queue is emptied up to max.
    method PollIo(max: nat, outside: nat -> seq<Handle>) returns (outcome: PollOutcome, ghost arrived: seq<Arrival>)
      requires Valid()
      modifies `tasks, `ioWaiting, `readQueue, `writeQueue, `pendingSubmit, `inflightIo, `resultOf, `completions, uring
      ensures outcome != RingFull ==> Valid()
      ensures Polled(old(Io()), old(tasks), old(resultOf), max, outcome, arrived,
                     pendingSubmit, Io(), tasks, resultOf)
      ensures outcome == SubmitFailed || outcome == PeekFailed ==> uring.broken
      ensures outcome.Progress? ==> |arrived| == max || (uring.ready == [] && |arrived| >= |old(uring.ready)|)
      ensures forall i :: 0 <= i < |arrived| ==> arrived[i].outside == outside(i)
      ensures forall i :: 0 <= i < |arrived| && i < |old(uring.ready)| ==>
                && arrived[i].done.awaiter == old(uring.ready)[i].awaiter
                && arrived[i].done.result == old(uring.ready)[i].result
    {
      hide Balanced, OneLost, Delivered, Answered, AllAnswered, Started, Woken, TakenInTurn, IoUring.Outstanding;
      arrived := [];
      if max == 0 { return Progress(0), []; }
      var failure, progressed := StartIo(max);
      if failure.Some? { return failure.value, []; }
      var ok, completed;
      ghost var ready := uring.ready;
      ok, completed, arrived := Reap(max, outside);
      EarlierTaken(old(uring.ready), ready, arrived, uring.ready);
      TakenMeans(old(uring.ready), arrived, uring.ready);
      outcome := if ok then Progress(progressed + completed) else PeekFailed;
    }

    method OnTaskResumeBegin()
      modifies `inflightTasks
      ensures inflightTasks == old(inflightTasks) + 1
    {
      inflightTasks := inflightTasks + 1;
    }

    method OnTaskResumeEnd()
      requires inflightTasks > 0
      modifies `inflightTasks
      ensures inflightTasks == old(inflightTasks) - 1
    {
      inflightTasks := inflightTasks - 1;
    }

    // The two counters and four queues between them leave nothing out: a
    // worker that may stop has no coroutine anywhere, the kernel included.
    method CanStop(stopRequested: bool) returns (b: bool)
      requires Valid()
      ensures b <==> stopRequested && tasks == [] && ioWaiting == [] && inflightTasks == 0 && InPipeline(Io()) == multiset{}
    {
      hide Balanced, InPipeline;
      Sizes(Io());
      if !stopRequested { return false; }
      if tasks != [] || ioWaiting != [] || readQueue != [] || writeQueue != [] || pendingSubmit != 0 { return false; }
      if inflightTasks != 0 { return false; }
      if inflightIo != 0 { return false; }
      return true;
    }

    // The predicate of wait_for_work_or_stop: a worker goes to sleep only when
    // it has no task and no operation of any kind outstanding.
    method MayProceed(stopRequested: bool) returns (b: bool)
      requires Valid()
      ensures b <==> stopRequested || tasks != [] || ioWaiting != [] || InPipeline(Io()) != multiset{}
    {
      hide Balanced, InPipeline;
      Sizes(Io());
      b := stopRequested || tasks != [] || ioWaiting != [] || readQueue != [] || writeQueue != []
           || pendingSubmit != 0 || inflightIo != 0;
    }

    // empty() looks at the queues only: operations the kernel has do not count.
    method Empty() returns (b: bool)
      requires Valid()
      ensures b <==> tasks == [] && ioWaiting == [] && InPipeline(Io()) == uring.Outstanding()
    {
      hide Balanced, InPipeline;
      OnlyKernel(Io());
      b := tasks == [] && ioWaiting == [] && readQueue == [] && writeQueue == [] && pendingSubmit == 0;
    }
  }
}
