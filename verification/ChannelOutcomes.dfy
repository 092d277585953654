// What every operation of a channel returns, from what its caller can know.

module ChannelOutcomes {
  import opened Common
  import opened ChannelSpec
  import opened ChannelStream
  import opened ChannelRuns
  import opened ChannelBatch

  // There is someone to hand the value to, or a free place.
  predicate HasRoom<T>(c: Chan<T>) { c.receivers != [] || |c.buffer| < c.capacity }

  // On every reachable channel: which operation succeeds, which suspends,
  // which is turned away and which throws.
  lemma OutcomesAre<T>(c: Chan<T>, op: Op<T>)
    requires Shape(c)
    ensures var out, ready := Step(c, op).out, c.buffer + c.parked;
            match op
            case SendCallOp => out == if c.closed then Closed else Done
            case SendOp(_, _) => out == if c.closed then Closed else if HasRoom(c) then Done else Suspended
            case TrySendOp(_, _) => out == if c.closed then Closed else if HasRoom(c) then Done else Refused
            case TrySendManyOp(_, vs) =>
              out == if vs == [] then SentMany(0)
                     else if c.closed then Closed
                     else SentMany(Min(|vs|, |c.receivers| + c.capacity - |c.buffer|))
            case ReceiveOp(_) => out == if ready != [] then Got(ready[0]) else if c.closed then Closed else Suspended
            case TryReceiveOp(_) => out == if ready != [] then Got(ready[0]) else if c.closed then Closed else Refused
            case TryReceiveManyOp(_, m) =>
              out == if ready == [] && m > 0 && c.closed then Closed else GotMany(ready[..Min(m, |ready|)])
            case CloseOp => out == if c.closed then AlreadyClosed else Done
  {
    hide SendLoop, Drain;
    match op
    case TrySendManyOp(_, vs) => if !c.closed { BatchSend(c, vs); }
    case TryReceiveManyOp(_, m) => BatchReceive(c, m);
    case _ =>
  }

  // In every run from a new channel of this capacity, told from the trace
  // alone: a try_send goes through exactly if the channel is not closed and
  // fewer values have been accepted than asked for plus the capacity, and then
  // so does a co_await of send without suspending.
  lemma RoomInRuns<T>(capacity: nat, ops: seq<Op<T>>, h: Handle, v: T)
    ensures var (c, trace) := Run(Fresh<T>(capacity), ops);
            var closed := exists i :: 0 <= i < |ops| && ops[i].CloseOp?;
            var r := Read(trace);
            var room := |r.accepted| < |r.requested| + capacity;
            && c.closed == closed
            && Step(c, TrySendOp(h, v)).out == (if closed then Closed else if room then Done else Refused)
            && Step(c, SendOp(h, v)).out == (if closed then Closed else if room then Done else Suspended)
  {
    hide Run, Read, Step;
    var (c, trace) := Run(Fresh<T>(capacity), ops);
    TwoSidedFifo<T>(capacity, ops);
    ClosedByClose<T>(capacity, ops);
    OutcomesAre(c, TrySendOp(h, v));
    OutcomesAre(c, SendOp(h, v));
    AnswerSizes(Read(trace).answers);
  }

  lemma AnswerSizes<T>(answers: seq<Answer<T>>)
    ensures |AnswerValues(answers)| == |AnswerHandles(answers)| == |answers|
  {
  }

  lemma ClosedByClose<T>(capacity: nat, ops: seq<Op<T>>)
    ensures Run(Fresh<T>(capacity), ops).0.closed <==> exists i :: 0 <= i < |ops| && ops[i].CloseOp?
  {
    var s: Stream<T> := Stream(capacity, false, [], [], []);
    assert Abs(s, NO_STATS) == Fresh(capacity);
    hide Run;
    RunRefines(s, NO_STATS, ops);
    StreamFrame(s, ops);
  }

  // A new channel of capacity n holds n values and no more.
  lemma NewChannelHolds<T>(n: nat, h: Handle, vs: seq<T>)
    ensures var r := Step(Fresh<T>(n), TrySendManyOp(h, vs));
            && r.out == SentMany(Min(|vs|, n))
            && r.chan.buffer == vs[..Min(|vs|, n)] && r.chan.capacity == n && r.wakes == []
  {
    hide Step, SendSingly, SendLoop;
    var c := Fresh<T>(n);
    BatchSend(c, vs);
    StepIs(c, h, vs);
    CapacityKept(c, TrySendManyOp(h, vs));
    ReceivedNothing<T>(vs);
  }

  lemma StepIs<T>(c: Chan<T>, h: Handle, vs: seq<T>)
    requires c.Paired()
    ensures Step(c, TrySendManyOp(h, vs)) == TrySendMany(c, vs)
  {
  }

  lemma ReceivedNothing<T>(vs: seq<T>)
    ensures ReceivedAll([], vs[..0]) == [] && forall n :: 0 <= n <= |vs| ==> [] + vs[0..n] == vs[..n]
  {
  }

  lemma CapacityKept<T>(c: Chan<T>, op: Op<T>)
    requires Shape(c)
    ensures Step(c, op).chan.capacity == c.capacity
  {
    hide Step, WakesOf, OutcomeOf;
    RecoverInverts(c);
    StepRefines(Recover(c), c.stats, op);
  }
}
