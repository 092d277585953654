// Whole runs of a channel, read off the trace of results and wake-ups.

module ChannelRuns {
  import opened Common
  import opened ChannelSpec
  import opened ChannelStream

  // --- The shape of reachable states ---

  ghost predicate Shape<T>(c: Chan<T>) {
    && c.Paired()
    && |c.buffer| <= c.capacity
    && (c.senders != [] ==> |c.buffer| == c.capacity && c.receivers == [])
    && (c.receivers != [] ==> c.buffer == [] && c.senders == [])
    && (c.closed ==> c.senders == [] && c.receivers == [])
  }

  // A stream that c stands for, with the past forgotten.
  function Recover<T>(c: Chan<T>): Stream<T> {
    Stream(c.capacity, c.closed, c.buffer + c.parked, Repeat(0, |c.buffer|) + c.senders, c.receivers)
  }

  lemma AbsHasShape<T>(s: Stream<T>, stats: Stats)
    requires s.Valid()
    ensures Shape(Abs(s, stats))
  {
  }

  lemma RecoverInverts<T>(c: Chan<T>)
    requires Shape(c)
    ensures Recover(c).Valid() && Abs(Recover(c), c.stats) == c
  {
    var s := Recover(c);
    if c.receivers == [] {
      assert s.sends[s.Served()..s.Committed()] == c.buffer;
      assert s.sends[s.Committed()..] == c.parked;
      assert s.senders[s.Committed()..] == c.senders;
    }
  }

  // Parked senders imply a full buffer, parked receivers an empty one, a
  // closed channel parks nobody: kept by every operation.
  lemma ShapePreserved<T>(c: Chan<T>, op: Op<T>)
    requires Shape(c)
    ensures Shape(Step(c, op).chan)
  {
    var s := Recover(c);
    RecoverInverts(c);
    StepRefines(s, c.stats, op);
    AbsHasShape(Next(s, op), Step(c, op).chan.stats);
  }

  // --- Runs of the stream ---

  function RunStream<T>(s: Stream<T>, ops: seq<Op<T>>): (t: Stream<T>)
    requires s.Valid()
    ensures t.Valid()
  {
    if ops == [] then s
    else
      var before := RunStream(s, ops[..|ops| - 1]);
      StepRefines(before, NO_STATS, ops[|ops| - 1]);
      Next(before, ops[|ops| - 1])
  }

  lemma {:induction false} RunRefines<T>(s: Stream<T>, stats: Stats, ops: seq<Op<T>>)
    requires s.Valid()
    ensures var (c, trace) := Run(Abs(s, stats), ops);
            c == Abs(RunStream(s, ops), c.stats)
    decreases |ops|
  {
    if ops == [] {
    } else {
      var init := ops[..|ops| - 1];
      RunRefines(s, stats, init);
      StepRefines(RunStream(s, init), Run(Abs(s, stats), init).0.stats, ops[|ops| - 1]);
    }
  }

  // --- What a trace says ---

  function SendsAccepted<T>(e: Event<T>): seq<T> {
    match (e.op, e.out)
    case (SendOp(_, v), Done) => [v]
    case (SendOp(_, v), Suspended) => [v]
    case (TrySendOp(_, v), Done) => [v]
    case (TrySendManyOp(_, vs), SentMany(n)) => if n <= |vs| then vs[..n] else vs
    case _ => []
  }

  function RequestsAccepted<T>(e: Event<T>): seq<Handle> {
    match (e.op, e.out)
    case (ReceiveOp(h), Got(_)) => [h]
    case (ReceiveOp(h), Suspended) => [h]
    case (TryReceiveOp(h), Got(_)) => [h]
    case (TryReceiveManyOp(h, _), GotMany(vs)) => Repeat(h, |vs|)
    case _ => []
  }

  function Cut<A>(xs: seq<A>, n: nat): seq<A> {
    xs[..Excess(|xs|, n)]
  }

  datatype Kind = AnySender | AnyReceiver | Answering | SendClosing | ReceiveClosing

  predicate Picks<T>(k: Kind, w: Wake<T>) {
    match k
    case AnySender => w.Sent? || w.SendClosed?
    case AnyReceiver => w.Received? || w.ReceiveClosed?
    case Answering => w.Received?
    case SendClosing => w.SendClosed?
    case ReceiveClosing => w.ReceiveClosed?
  }

  function Filter<T>(k: Kind, wakes: seq<Wake<T>>): (r: seq<Wake<T>>)
    ensures forall i :: 0 <= i < |r| ==> Picks(k, r[i])
    ensures k.Answering? ==> forall i :: 0 <= i < |r| ==> r[i].Received?
  {
    if wakes == [] then []
    else (if Picks(k, wakes[0]) then [wakes[0]] else []) + Filter(k, wakes[1..])
  }

  function Handles<T>(wakes: seq<Wake<T>>): seq<Handle> {
    seq(|wakes|, i requires 0 <= i < |wakes| => wakes[i].handle)
  }

  datatype Answer<T> = Answer(handle: Handle, value: T)

  function Pair<T>(hs: seq<Handle>, vs: seq<T>): seq<Answer<T>>
    requires |hs| == |vs|
  {
    seq(|hs|, i requires 0 <= i < |hs| => Answer(hs[i], vs[i]))
  }

  // The values an event hands to receivers.
  function AnswersIn<T>(e: Event<T>): seq<Answer<T>> {
    match (e.op, e.out)
    case (ReceiveOp(h), Got(v)) => [Answer(h, v)]
    case (TryReceiveOp(h), Got(v)) => [Answer(h, v)]
    case (TryReceiveManyOp(h, _), GotMany(vs)) => Pair(Repeat(h, |vs|), vs)
    case _ => Told(Filter(Answering, e.wakes))
  }

  function Told<T>(wakes: seq<Wake<T>>): seq<Answer<T>>
    requires forall i :: 0 <= i < |wakes| ==> wakes[i].Received?
  {
    seq(|wakes|, i requires 0 <= i < |wakes| => Answer(wakes[i].handle, wakes[i].value))
  }

  function ParkedSender<T>(e: Event<T>): seq<Handle> {
    if e.op.SendOp? && e.out.Suspended? then [e.op.who] else []
  }

  function ParkedReceiver<T>(e: Event<T>): seq<Handle> {
    if e.op.ReceiveOp? && e.out.Suspended? then [e.op.who] else []
  }

  // What a trace says, each list in lock order:
  //  - accepted: values accepted, less those whose sender was told "channel is closed";
  //  - requested: receive requests, less those told "channel is closed" while parked;
  //  - answers: the values handed over, with their receivers;
  //  - the coroutines that parked, and those that were woken.
  datatype Reading<T> = Reading(
    accepted: seq<T>, requested: seq<Handle>, answers: seq<Answer<T>>,
    parkedSenders: seq<Handle>, wokenSenders: seq<Handle>,
    parkedReceivers: seq<Handle>, wokenReceivers: seq<Handle>)

  function ReadEvent<T>(r: Reading<T>, e: Event<T>): Reading<T> {
    Reading(
      Cut(r.accepted + SendsAccepted(e), |Filter(SendClosing, e.wakes)|),
      Cut(r.requested + RequestsAccepted(e), |Filter(ReceiveClosing, e.wakes)|),
      r.answers + AnswersIn(e),
      r.parkedSenders + ParkedSender(e), r.wokenSenders + Handles(Filter(AnySender, e.wakes)),
      r.parkedReceivers + ParkedReceiver(e), r.wokenReceivers + Handles(Filter(AnyReceiver, e.wakes)))
  }

  function Read<T>(trace: seq<Event<T>>): Reading<T> {
    if trace == [] then Reading([], [], [], [], [], [], [])
    else ReadEvent(Read(trace[..|trace| - 1]), trace[|trace| - 1])
  }

  // --- The wake-ups between two streams, by kind ---

  lemma {:induction false} FilterConcat<T>(k: Kind, a: seq<Wake<T>>, b: seq<Wake<T>>)
    ensures Filter(k, a + b) == Filter(k, a) + Filter(k, b)
    decreases |a|
  {
    if a == [] {
      assert a + b == b;
    } else {
      assert (a + b)[1..] == a[1..] + b;
      FilterConcat(k, a[1..], b);
    }
  }

  lemma {:induction false} FilterSame<T>(k: Kind, wakes: seq<Wake<T>>, picked: bool)
    requires forall i :: 0 <= i < |wakes| ==> Picks(k, wakes[i]) == picked
    ensures Filter(k, wakes) == if picked then wakes else []
    decreases |wakes|
  {
    if wakes == [] {
    } else {
      FilterSame(k, wakes[1..], picked);
    }
  }

  lemma WakeKinds<T>(k: Kind, s: Stream<T>, t: Stream<T>)
    requires s.Valid()
    ensures forall w :: w in AnsweredBetween(s, t) ==> Picks(k, w) == (k.AnyReceiver? || k.Answering?)
    ensures forall w :: w in CommittedBetween(s, t) ==> Picks(k, w) == k.AnySender?
    ensures forall w :: w in DroppedSends(s, t) ==> Picks(k, w) == (k.AnySender? || k.SendClosing?)
    ensures forall w :: w in DroppedRequests(s, t) ==> Picks(k, w) == (k.AnyReceiver? || k.ReceiveClosing?)
  {
  }

  lemma ReadWakes<T>(k: Kind, s: Stream<T>, t: Stream<T>)
    requires s.Valid()
    ensures Filter(k, WakesOf(s, t)) ==
              (match k
               case AnySender => CommittedBetween(s, t) + DroppedSends(s, t)
               case AnyReceiver => AnsweredBetween(s, t) + DroppedRequests(s, t)
               case Answering => AnsweredBetween(s, t)
               case SendClosing => DroppedSends(s, t)
               case ReceiveClosing => DroppedRequests(s, t))
  {
    hide Filter, AnsweredBetween, CommittedBetween, DroppedSends, DroppedRequests, Picks;
    WakeKinds(k, s, t);
    var a, c := AnsweredBetween(s, t), CommittedBetween(s, t);
    var ds, dr := DroppedSends(s, t), DroppedRequests(s, t);
    FilterConcat(k, a + c + ds, dr);
    FilterConcat(k, a + c, ds);
    FilterConcat(k, a, c);
    FilterSame(k, a, k.AnyReceiver? || k.Answering?);
    FilterSame(k, c, k.AnySender?);
    FilterSame(k, ds, k.AnySender? || k.SendClosing?);
    FilterSame(k, dr, k.AnyReceiver? || k.ReceiveClosing?);
  }

  // --- A trace read this way is the stream ---

  function EventOf<T>(s: Stream<T>, op: Op<T>): Event<T>
    requires s.Valid()
  {
    Event(op, OutcomeOf(s, op), WakesOf(s, Next(s, op)))
  }

  function ServedPairs<T>(s: Stream<T>): seq<Answer<T>> {
    Pair(s.requests[..s.Served()], s.sends[..s.Served()])
  }

  // Beside the stream, the ledger of each wait queue: those that parked are
  // those woken, then those still parked.
  ghost predicate Tells<T>(r: Reading<T>, s: Stream<T>)
    requires s.Valid()
  {
    && r.accepted == s.sends
    && r.requested == s.requests
    && r.answers == ServedPairs(s)
    && r.parkedSenders == r.wokenSenders + s.senders[s.Committed()..]
    && r.parkedReceivers == r.wokenReceivers + s.requests[s.Served()..]
  }

  lemma AcceptedStep<T>(s: Stream<T>, op: Op<T>)
    requires s.Valid()
    ensures var e := EventOf(s, op);
            Cut(s.sends + SendsAccepted(e), |Filter(SendClosing, e.wakes)|) == Next(s, op).sends
  {
    hide WakesOf, Filter;
    ReadWakes(SendClosing, s, Next(s, op));
  }

  lemma RequestedStep<T>(s: Stream<T>, op: Op<T>)
    requires s.Valid()
    ensures var e := EventOf(s, op);
            Cut(s.requests + RequestsAccepted(e), |Filter(ReceiveClosing, e.wakes)|) == Next(s, op).requests
  {
    hide WakesOf, Filter;
    ReadWakes(ReceiveClosing, s, Next(s, op));
  }

  // How many values an operation asks for.
  function Demand<T>(op: Op<T>): nat {
    match op
    case ReceiveOp(_) => 1
    case TryReceiveOp(_) => 1
    case TryReceiveManyOp(_, m) => m
    case _ => 0
  }

  // The requests answered on the way from s to t.
  function Newly<T>(s: Stream<T>, t: Stream<T>): seq<Answer<T>>
    requires s.Served() <= t.Served()
  {
    Pair(t.requests[s.Served()..t.Served()], t.sends[s.Served()..t.Served()])
  }

  lemma PairsGrow<T>(s: Stream<T>, t: Stream<T>)
    requires s.Served() <= t.Served()
    requires s.requests[..s.Served()] <= t.requests && s.sends[..s.Served()] <= t.sends
    ensures ServedPairs(t) == ServedPairs(s) + Newly(s, t)
  {
    assert s.requests[..s.Served()] == t.requests[..s.Served()];
    assert s.sends[..s.Served()] == t.sends[..s.Served()];
  }

  lemma AnswersOfSend<T>(s: Stream<T>, h: Handle, vs: seq<T>)
    requires s.Valid() && !s.closed
    ensures var t := Accept(s, h, vs);
            Told(AnsweredBetween(s, t)) == Newly(s, t) && ServedPairs(t) == ServedPairs(s) + Newly(s, t)
  {
    PairsGrow(s, Accept(s, h, vs));
  }

  lemma AnswersOfReceive<T>(s: Stream<T>, h: Handle, n: nat)
    requires s.Valid() && n <= s.Backlog()
    ensures var t := Request(s, h, n);
            Pair(Repeat(h, n), Answers(s, n)) == Newly(s, t) && ServedPairs(t) == ServedPairs(s) + Newly(s, t)
  {
    PairsGrow(s, Request(s, h, n));
  }

  lemma NoAnswers<T>(s: Stream<T>, t: Stream<T>)
    requires |t.sends| <= |s.sends|
    ensures Told(AnsweredBetween(s, t)) == []
  {
  }

  lemma SendAnswers<T>(s: Stream<T>, op: Op<T>)
    requires s.Valid() && (op.SendOp? || op.TrySendOp? || op.TrySendManyOp?)
    ensures Told(AnsweredBetween(s, Next(s, op))) + [] == Told(AnsweredBetween(s, Next(s, op)))
    ensures ServedPairs(s) + Told(AnsweredBetween(s, Next(s, op))) == ServedPairs(Next(s, op))
  {
    hide AnsweredBetween, Told, Newly, ServedPairs;
    if Next(s, op) == s {
      NoAnswers(s, s);
    } else {
      match op
      case SendOp(h, v) => AnswersOfSend(s, h, [v]);
      case TrySendOp(h, v) => AnswersOfSend(s, h, [v]);
      case TrySendManyOp(h, vs) => AnswersOfSend(s, h, vs[..Min(|vs|, s.Room())]);
    }
  }

  lemma ReceiveAnswers<T>(s: Stream<T>, op: Op<T>)
    requires s.Valid() && Demand(op) > 0
    ensures ServedPairs(s) + AnswersIn(EventOf(s, op)) == ServedPairs(Next(s, op))
  {
    hide WakesOf, Filter, Newly, ServedPairs;
    var n := Min(Demand(op), s.Backlog());
    AnswersOfReceive(s, op.who, n);
    ReadWakes(Answering, s, Next(s, op));
    NoAnswers(s, Next(s, op));
    if n == 0 {
      assert ServedPairs(Next(s, op)) == ServedPairs(s) by { PairsSame(s, Next(s, op)); }
      assert AnswersIn(EventOf(s, op)) == [] by { NobodyAnswered(s, op); }
    }
  }

  lemma NobodyAnswered<T>(s: Stream<T>, op: Op<T>)
    requires s.Valid() && Demand(op) > 0 && s.Backlog() == 0
    ensures AnswersIn(EventOf(s, op)) == []
  {
    hide WakesOf, Filter;
    ReadWakes(Answering, s, Next(s, op));
    NoAnswers(s, Next(s, op));
  }

  lemma PairsSame<T>(s: Stream<T>, t: Stream<T>)
    requires s.Served() == t.Served() && s.requests <= t.requests && s.sends == t.sends
    ensures ServedPairs(s) == ServedPairs(t)
  {
    assert s.requests[..s.Served()] == t.requests[..s.Served()];
  }

  lemma AnsweredStep<T>(s: Stream<T>, op: Op<T>)
    requires s.Valid()
    ensures ServedPairs(s) + AnswersIn(EventOf(s, op)) == ServedPairs(Next(s, op))
  {
    hide WakesOf, Filter, AnsweredBetween, Told;
    ReadWakes(Answering, s, Next(s, op));
    if Demand(op) > 0 {
      ReceiveAnswers(s, op);
    } else if op.SendOp? || op.TrySendOp? || op.TrySendManyOp? {
      SendAnswers(s, op);
    } else {
      NoAnswers(s, Next(s, op));
    }
  }

  // The parked senders and receivers that t no longer has.
  function LeavingSenders<T>(s: Stream<T>, t: Stream<T>): seq<Handle>
    requires s.Valid()
  {
    Handles(CommittedBetween(s, t) + DroppedSends(s, t))
  }

  function LeavingReceivers<T>(s: Stream<T>, t: Stream<T>): seq<Handle> {
    Handles(AnsweredBetween(s, t) + DroppedRequests(s, t))
  }

  lemma HandlesSent<T>(hs: seq<Handle>)
    ensures Handles(SentAll<T>(hs)) == hs
  {
  }

  lemma HandlesReceived<T>(hs: seq<Handle>, vs: seq<T>)
    requires |hs| == |vs|
    ensures Handles(ReceivedAll(hs, vs)) == hs
  {
  }

  lemma HandlesSame<T>(wakes: seq<Wake<T>>)
    ensures Handles<T>([]) == [] && wakes + [] == wakes
  {
  }

  lemma LeavingOnAccept<T>(s: Stream<T>, h: Handle, vs: seq<T>)
    requires s.Valid() && !s.closed
    ensures var t := Accept(s, h, vs);
            && LeavingSenders(s, t) == []
            && (|vs| <= s.Room() ==> t.senders[t.Committed()..] == s.senders[s.Committed()..])
            && (|vs| == 1 && s.Room() == 0 ==> t.senders[t.Committed()..] == s.senders[s.Committed()..] + [h])
            && s.requests[s.Served()..] == LeavingReceivers(s, t) + t.requests[t.Served()..]
  {
    hide LeavingSenders, LeavingReceivers;
    SendersOnAccept(s, h, vs);
    ReceiversOnAccept(s, h, vs);
  }

  lemma SendersOnAccept<T>(s: Stream<T>, h: Handle, vs: seq<T>)
    requires s.Valid() && !s.closed
    ensures var t := Accept(s, h, vs);
            && LeavingSenders(s, t) == []
            && (|vs| <= s.Room() ==> t.senders[t.Committed()..] == s.senders[s.Committed()..])
            && (|vs| == 1 && s.Room() == 0 ==> t.senders[t.Committed()..] == s.senders[s.Committed()..] + [h])
  {
    var t := Accept(s, h, vs);
    assert CommittedBetween(s, t) == [] && DroppedSends(s, t) == [];
  }

  lemma ReceiversOnAccept<T>(s: Stream<T>, h: Handle, vs: seq<T>)
    requires s.Valid() && !s.closed
    ensures var t := Accept(s, h, vs);
            s.requests[s.Served()..] == LeavingReceivers(s, t) + t.requests[t.Served()..]
  {
    hide Handles, ReceivedAll, Repeat;
    var t := Accept(s, h, vs);
    assert t.requests == s.requests && |t.sends| >= |s.sends|;
    assert DroppedRequests(s, t) == [];
    HandlesSame(AnsweredBetween(s, t));
    var lo, hi := |s.sends|, Min(|s.requests|, |t.sends|);
    if hi > lo {
      HandlesReceived(s.requests[lo..hi], t.sends[lo..hi]);
      assert s.requests[lo..] == s.requests[lo..hi] + s.requests[hi..];
    }
  }

  lemma ReceiversOnRequest<T>(s: Stream<T>, h: Handle, n: nat)
    requires s.Valid() && (n <= s.Backlog() || (n == 1 && !s.closed))
    ensures var t := Request(s, h, n);
            && LeavingReceivers(s, t) == []
            && (n <= s.Backlog() ==> t.requests[t.Served()..] == s.requests[s.Served()..])
            && (n == 1 && s.Backlog() == 0 ==> t.requests[t.Served()..] == s.requests[s.Served()..] + [h])
  {
    var t := Request(s, h, n);
    assert AnsweredBetween(s, t) == [] && DroppedRequests(s, t) == [];
  }

  lemma SendersOnRequest<T>(s: Stream<T>, h: Handle, n: nat)
    requires s.Valid() && (n <= s.Backlog() || (n == 1 && !s.closed))
    ensures var t := Request(s, h, n);
            s.senders[s.Committed()..] == LeavingSenders(s, t) + t.senders[t.Committed()..]
  {
    hide Handles, SentAll, Repeat;
    var t := Request(s, h, n);
    assert |t.requests| == |s.requests| + n by { RequestSize(s, h, n); }
    assert DroppedSends(s, t) == [];
    HandlesSame(CommittedBetween(s, t));
    var lo, hi := |s.requests| + s.capacity, Min(|s.sends|, |t.requests| + s.capacity);
    if hi > lo {
      HandlesSent<T>(s.senders[lo..hi]);
      assert s.senders[lo..] == s.senders[lo..hi] + s.senders[hi..];
    }
  }

  lemma RequestSize<T>(s: Stream<T>, h: Handle, n: nat)
    ensures |Request(s, h, n).requests| == |s.requests| + n
  {
  }

  lemma LeavingOnClose<T>(s: Stream<T>)
    requires s.Valid() && !s.closed
    ensures var t := Seal(s);
            && LeavingSenders(s, t) == s.senders[s.Committed()..] && t.senders[t.Committed()..] == []
            && LeavingReceivers(s, t) == s.requests[s.Served()..] && t.requests[t.Served()..] == []
  {
    var t := Seal(s);
    assert AnsweredBetween(s, t) == [] && CommittedBetween(s, t) == [];
    assert Handles(DroppedSends(s, t)) == s.senders[s.Committed()..];
    assert Handles(DroppedRequests(s, t)) == s.requests[s.Served()..];
  }

  lemma LeavingNothing<T>(s: Stream<T>)
    requires s.Valid()
    ensures LeavingSenders(s, s) == [] && LeavingReceivers(s, s) == []
  {
  }

  // What a step does to the two queues, told by the stream.
  ghost predicate Ledger<T>(s: Stream<T>, op: Op<T>)
    requires s.Valid()
  {
    var t, e := Next(s, op), EventOf(s, op);
    && t.Valid()
    && s.senders[s.Committed()..] + ParkedSender(e) == LeavingSenders(s, t) + t.senders[t.Committed()..]
    && s.requests[s.Served()..] + ParkedReceiver(e) == LeavingReceivers(s, t) + t.requests[t.Served()..]
  }

  lemma LedgerUnchanged<T>(s: Stream<T>, op: Op<T>)
    requires s.Valid() && Next(s, op) == s
    ensures Ledger(s, op)
  {
    hide WakesOf, LeavingSenders, LeavingReceivers;
    LeavingNothing(s);
  }

  lemma LedgerOfSends<T>(s: Stream<T>, op: Op<T>)
    requires s.Valid() && (op.SendOp? || op.TrySendOp? || op.TrySendManyOp?)
    ensures Ledger(s, op)
  {
    hide WakesOf, LeavingSenders, LeavingReceivers;
    if Next(s, op) == s {
      LedgerUnchanged(s, op);
    } else if op.TrySendManyOp? {
      LeavingOnAccept(s, op.who, op.items[..Min(|op.items|, s.Room())]);
    } else {
      LeavingOnAccept(s, op.who, [op.value]);
    }
  }

  lemma LedgerOfReceives<T>(s: Stream<T>, op: Op<T>)
    requires s.Valid() && (op.ReceiveOp? || op.TryReceiveOp? || op.TryReceiveManyOp?)
    ensures Ledger(s, op)
  {
    hide WakesOf, LeavingSenders, LeavingReceivers;
    if Next(s, op) == s {
      LedgerUnchanged(s, op);
    } else {
      var n := match op
               case ReceiveOp(_) => 1
               case TryReceiveOp(_) => Min(1, s.Backlog())
               case TryReceiveManyOp(_, m) => Min(m, s.Backlog());
      ReceiversOnRequest(s, op.who, n);
      SendersOnRequest(s, op.who, n);
    }
  }

  lemma LedgerOfOthers<T>(s: Stream<T>, op: Op<T>)
    requires s.Valid() && (op.SendCallOp? || op.CloseOp?)
    ensures Ledger(s, op)
  {
    hide WakesOf, LeavingSenders, LeavingReceivers;
    if Next(s, op) == s {
      LedgerUnchanged(s, op);
    } else {
      LeavingOnClose(s);
    }
  }

  lemma LedgerStep<T>(s: Stream<T>, op: Op<T>)
    requires s.Valid()
    ensures var t, e := Next(s, op), EventOf(s, op);
            && t.Valid()
            && s.senders[s.Committed()..] + ParkedSender(e) ==
               Handles(Filter(AnySender, e.wakes)) + t.senders[t.Committed()..]
            && s.requests[s.Served()..] + ParkedReceiver(e) ==
               Handles(Filter(AnyReceiver, e.wakes)) + t.requests[t.Served()..]
  {
    hide WakesOf, Filter, LeavingSenders, LeavingReceivers, Handles, Next;
    ReadLeaving(s, Next(s, op));
    if op.SendOp? || op.TrySendOp? || op.TrySendManyOp? {
      LedgerOfSends(s, op);
    } else if op.SendCallOp? || op.CloseOp? {
      LedgerOfOthers(s, op);
    } else {
      LedgerOfReceives(s, op);
    }
  }

  lemma ReadLeaving<T>(s: Stream<T>, t: Stream<T>)
    requires s.Valid()
    ensures Handles(Filter(AnySender, WakesOf(s, t))) == LeavingSenders(s, t)
    ensures Handles(Filter(AnyReceiver, WakesOf(s, t))) == LeavingReceivers(s, t)
  {
    hide WakesOf, Filter;
    ReadWakes(AnySender, s, t);
    ReadWakes(AnyReceiver, s, t);
  }

  lemma TellsStep<T>(r: Reading<T>, s: Stream<T>, op: Op<T>)
    requires s.Valid() && Next(s, op).Valid() && Tells(r, s)
    ensures Tells(ReadEvent(r, EventOf(s, op)), Next(s, op))
  {
    hide EventOf, Next, SendsAccepted, RequestsAccepted, AnswersIn, ParkedSender, ParkedReceiver, Filter, Handles;
    AcceptedStep(s, op);
    RequestedStep(s, op);
    AnsweredStep(s, op);
    LedgerStep(s, op);
    var t, e := Next(s, op), EventOf(s, op);
    Rebalance(r.wokenSenders, s.senders[s.Committed()..], ParkedSender(e),
            Handles(Filter(AnySender, e.wakes)), t.senders[t.Committed()..]);
    Rebalance(r.wokenReceivers, s.requests[s.Served()..], ParkedReceiver(e),
            Handles(Filter(AnyReceiver, e.wakes)), t.requests[t.Served()..]);
  }

  lemma Rebalance<A>(woken: seq<A>, before: seq<A>, parked: seq<A>, now: seq<A>, after: seq<A>)
    requires before + parked == now + after
    ensures woken + before + parked == woken + now + after
  {
    assert woken + before + parked == woken + (before + parked);
    assert woken + now + after == woken + (now + after);
  }

  lemma {:induction false} TraceTells<T>(s: Stream<T>, stats: Stats, ops: seq<Op<T>>)
    requires s == Stream(s.capacity, false, [], [], [])
    ensures Tells(Read(Run(Abs(s, stats), ops).1), RunStream(s, ops))
    decreases |ops|
  {
    hide WakesOf, Next, OutcomeOf, ReadEvent, Abs;
    if ops == [] {
    } else {
      var init, op := ops[..|ops| - 1], ops[|ops| - 1];
      TraceTells(s, stats, init);
      RunRefines(s, stats, init);
      var before, trace := RunStream(s, init), Run(Abs(s, stats), init).1;
      StepRefines(before, Run(Abs(s, stats), init).0.stats, op);
      TellsStep(Read(trace), before, op);
      assert Run(Abs(s, stats), ops).1[..|trace|] == trace;
    }
  }

  function AnswerValues<T>(answers: seq<Answer<T>>): seq<T> {
    seq(|answers|, i requires 0 <= i < |answers| => answers[i].value)
  }

  function AnswerHandles<T>(answers: seq<Answer<T>>): seq<Handle> {
    seq(|answers|, i requires 0 <= i < |answers| => answers[i].handle)
  }

  // The channel is a two-sided FIFO stream: in every run the accepted values
  // are those already handed over, then the buffer, then the parked senders'
  // values, and the k-th request that was not turned away gets the k-th value.
  // Every coroutine that parked was woken once, in queue order, or is parked.
  lemma TwoSidedFifo<T>(capacity: nat, ops: seq<Op<T>>)
    ensures var (c, trace) := Run(Fresh<T>(capacity), ops);
            var r := Read(trace);
            && Shape(c) && c.capacity == capacity
            && r.accepted == AnswerValues(r.answers) + c.buffer + c.parked
            && r.requested == AnswerHandles(r.answers) + c.receivers
            && |r.answers| == Min(|r.accepted|, |r.requested|)
            && (forall k :: 0 <= k < |r.answers| ==> r.answers[k] == Answer(r.requested[k], r.accepted[k]))
            && r.parkedSenders == r.wokenSenders + c.senders
            && r.parkedReceivers == r.wokenReceivers + c.receivers
  {
    hide Run, Read;
    var s: Stream<T> := Stream(capacity, false, [], [], []);
    assert Abs(s, NO_STATS) == Fresh(capacity);
    TraceTells(s, NO_STATS, ops);
    RunRefines(s, NO_STATS, ops);
    StreamFrame(s, ops);
    FifoOfStream(RunStream(s, ops), Run(Fresh<T>(capacity), ops).0.stats);
  }

  // The capacity is fixed, and a channel is closed from its first close() on.
  lemma {:induction false} StreamFrame<T>(s: Stream<T>, ops: seq<Op<T>>)
    requires s.Valid()
    ensures RunStream(s, ops).capacity == s.capacity
    ensures RunStream(s, ops).closed <==> s.closed || exists i :: 0 <= i < |ops| && ops[i].CloseOp?
    decreases |ops|
  {
    if ops != [] {
      var init := ops[..|ops| - 1];
      StreamFrame(s, init);
      assert forall i :: 0 <= i < |init| ==> init[i] == ops[i];
    }
  }

  lemma FifoOfStream<T>(s: Stream<T>, stats: Stats)
    requires s.Valid()
    ensures var c := Abs(s, stats);
            && Shape(c) && c.capacity == s.capacity
            && s.sends == AnswerValues(ServedPairs(s)) + c.buffer + c.parked
            && s.requests == AnswerHandles(ServedPairs(s)) + c.receivers
  {
    assert AnswerValues(ServedPairs(s)) == s.sends[..s.Served()];
    assert AnswerHandles(ServedPairs(s)) == s.requests[..s.Served()];
  }

  // --- Closing ---

  function TotalDemand<T>(ops: seq<Op<T>>): nat {
    if ops == [] then 0 else TotalDemand(ops[..|ops| - 1]) + Demand(ops[|ops| - 1])
  }

  predicate Sends<T>(op: Op<T>) {
    op.SendCallOp? || op.SendOp? || op.TrySendOp? || (op.TrySendManyOp? && op.items != [])
  }

  lemma ClosedNext<T>(s: Stream<T>, op: Op<T>)
    requires s.Valid() && s.closed
    ensures var t := Next(s, op);
            && t.Valid() && WakesOf(s, t) == []
            && t == s.(requests := t.requests) && s.requests <= t.requests
            && |t.requests| == |s.requests| + Min(Demand(op), s.Backlog())
    ensures !OutcomeOf(s, op).Suspended?
    ensures OutcomeOf(s, op).Closed? <==> Sends(op) || (Demand(op) > 0 && s.Backlog() == 0)
  {
    hide WakesOf;
    var t := Next(s, op);
    if |s.requests| < |t.requests| { OnlyCommits(s, t); } else { NothingChanges(s, t); }
  }

  lemma ClosedAnswers<T>(s: Stream<T>, op: Op<T>)
    requires s.Valid() && s.closed && s.requests == []
    ensures AnswerValues(AnswersIn(EventOf(s, op))) == s.sends[..Min(Demand(op), |s.sends|)]
  {
    hide WakesOf, Next, OutcomeOf, AnswersIn, Sends, Demand;
    ClosedNext(s, op);
    AnsweredStep(s, op);
    assert ServedPairs(s) == [];
    assert AnswersIn(EventOf(s, op)) == ServedPairs(Next(s, op));
  }

  // What is left of a closed channel once n values have been taken.
  lemma ClosedAbs<T>(s: Stream<T>, t: Stream<T>, stats: Stats, n: nat)
    requires s.Valid() && t.Valid() && s.closed && s.requests == [] && n <= |s.sends|
    requires t == s.(requests := t.requests) && |t.requests| == n
    ensures Abs(t, stats) == Abs(s, stats).(buffer := s.sends[n..])
    ensures Abs(s, stats).buffer == s.sends
  {
  }

  // One operation on a closed channel.
  lemma ClosedStep<T>(c: Chan<T>, op: Op<T>)
    requires Shape(c) && c.closed
    ensures var r := Step(c, op);
            var n := Min(Demand(op), |c.buffer|);
            && r.wakes == [] && !r.out.Suspended?
            && r.chan == c.(buffer := c.buffer[n..], stats := r.chan.stats)
            && AnswerValues(AnswersIn(Event(op, r.out, r.wakes))) == c.buffer[..n]
            && (r.out.Closed? <==> Sends(op) || (Demand(op) > 0 && c.buffer == []))
  {
    hide Step, WakesOf, Next, OutcomeOf, AnswersIn, Sends, Demand, Abs, AnswerValues;
    var s, r := Recover(c), Step(c, op);
    RecoverInverts(c);
    ShapeOfClosed(c);
    StepRefines(s, c.stats, op);
    ClosedNext(s, op);
    ClosedAnswers(s, op);
    ClosedAbs(s, s, c.stats, 0);
    ClosedAbs(s, Next(s, op), r.chan.stats, Min(Demand(op), |s.sends|));
    AbsStats(s, c.stats, r.chan.stats);
  }

  lemma ShapeOfClosed<T>(c: Chan<T>)
    requires Shape(c) && c.closed
    ensures Recover(c).closed && Recover(c).requests == []
  {
  }

  lemma AbsStats<T>(s: Stream<T>, a: Stats, b: Stats)
    requires s.Valid()
    ensures Abs(s, b) == Abs(s, a).(stats := b)
  {
  }

  lemma ReadNothing<T>()
    ensures Read<T>([]).answers == [] && AnswerValues(Read<T>([]).answers) == []
  {
  }

  lemma ReadLast<T>(trace: seq<Event<T>>, e: Event<T>)
    ensures AnswerValues(Read(trace + [e]).answers) == AnswerValues(Read(trace).answers) + AnswerValues(AnswersIn(e))
    ensures |Read(trace + [e]).answers| == |Read(trace).answers| + |AnswerValues(AnswersIn(e))|
  {
    hide AnswersIn, Filter, Handles, SendsAccepted, RequestsAccepted;
    assert (trace + [e])[..|trace|] == trace;
  }

  // c was closed, and d is c after a trace that asked for `demand` values.
  ghost predicate Drained<T>(c: Chan<T>, d: Chan<T>, trace: seq<Event<T>>, demand: nat) {
    && Shape(d) && d.closed
    && AnswerValues(Read(trace).answers) + d.buffer == c.buffer
    && |d.buffer| == Excess(|c.buffer|, demand)
    && (forall e <- trace :: e.wakes == [] && !e.out.Suspended? && (Sends(e.op) ==> e.out.Closed?))
  }

  lemma DrainedStep<T>(c: Chan<T>, d: Chan<T>, trace: seq<Event<T>>, demand: nat, op: Op<T>)
    requires Drained(c, d, trace, demand)
    ensures var r := Step(d, op);
            Drained(c, r.chan, trace + [Event(op, r.out, r.wakes)], demand + Demand(op))
  {
    hide Step, Shape, Demand, Sends, AnswersIn, Read, AnswerValues;
    ClosedStep(d, op);
    ShapePreserved(d, op);
    var r := Step(d, op);
    ReadLast(trace, Event(op, r.out, r.wakes));
  }

  // From the moment of closing on: nobody parks and nobody is woken, exactly
  // the buffered values still come out, in order, as far as they are asked
  // for, and every send fails; by ClosedStep so does every receive that finds
  // the buffer empty.
  lemma {:induction false} AfterClose<T>(c: Chan<T>, ops: seq<Op<T>>)
    requires Shape(c) && c.closed
    ensures Drained(c, Run(c, ops).0, Run(c, ops).1, TotalDemand(ops))
    decreases |ops|
  {
    hide Drained, Step;
    if ops == [] {
      DrainedStart(c);
    } else {
      AfterClose(c, ops[..|ops| - 1]);
      var (d, trace) := Run(c, ops[..|ops| - 1]);
      DrainedStep(c, d, trace, TotalDemand(ops[..|ops| - 1]), ops[|ops| - 1]);
    }
  }

  lemma DrainedStart<T>(c: Chan<T>)
    requires Shape(c) && c.closed
    ensures Drained(c, c, [], 0)
  {
    ReadNothing<T>();
  }

  // A completed send keeps its place in the stream for ever.
  lemma {:induction false} CommittedStays<T>(s: Stream<T>, ops: seq<Op<T>>, k: nat)
    requires s.Valid() && k < s.Committed()
    ensures var t := RunStream(s, ops);
            k < t.Committed() && t.sends[k] == s.sends[k] && t.senders[k] == s.senders[k]
    decreases |ops|
  {
    hide Next;
    if ops == [] {
    } else {
      CommittedStays(s, ops[..|ops| - 1], k);
      CommittedNext(RunStream(s, ops[..|ops| - 1]), ops[|ops| - 1], k);
    }
  }

  lemma CommittedNext<T>(s: Stream<T>, op: Op<T>, k: nat)
    requires s.Valid() && k < s.Committed()
    ensures var t := Next(s, op);
            k < t.Committed() && |t.senders| == |t.sends| && t.sends[k] == s.sends[k] && t.senders[k] == s.senders[k]
  {
  }

  // A closed channel's accepted values never change again.
  lemma {:induction false} ClosedSendsFixed<T>(s: Stream<T>, ops: seq<Op<T>>)
    requires s.Valid() && s.closed
    ensures var t := RunStream(s, ops); t.closed && t.sends == s.sends
    decreases |ops|
  {
    if ops == [] {
    } else {
      ClosedSendsFixed(s, ops[..|ops| - 1]);
    }
  }

  // Over any run a value once accepted stays at its place unless a close drops
  // it while its sender is parked; and once the channel is closed, what is in
  // the stream is exactly what has been committed.
  lemma {:induction false} AcceptedUnlessDropped<T>(s: Stream<T>, ops: seq<Op<T>>, k: nat)
    requires s.Valid() && k < |s.sends|
    ensures var t := RunStream(s, ops);
            && (k < |t.sends| ==> t.sends[k] == s.sends[k] && t.senders[k] == s.senders[k])
            && (k >= |t.sends| ==> t.closed && !s.closed && k >= s.Committed())
            && (t.closed ==> (k < |t.sends| <==> k < t.Committed()))
    decreases |ops|
  {
    if ops == [] {
    } else {
      var init := ops[..|ops| - 1];
      AcceptedUnlessDropped(s, init, k);
      var t := RunStream(s, init);
      if k < |t.sends| {
        LastStepDrops(t, ops[|ops| - 1], k);
        if k < s.Committed() { CommittedStays(s, ops, k); }
        if s.closed { ClosedSendsFixed(s, ops); }
      } else {
        ClosedSendsFixed(t, [ops[|ops| - 1]]);
        OneOp(t, ops[|ops| - 1]);
      }
    }
  }

  lemma LastStepDrops<T>(t: Stream<T>, op: Op<T>, k: nat)
    requires t.Valid() && k < |t.sends|
    ensures var u := Next(t, op);
            && (k < |u.sends| ==> u.sends[k] == t.sends[k] && u.senders[k] == t.senders[k])
            && (k >= |u.sends| ==> u.closed)
  {
  }

  lemma OneOp<T>(t: Stream<T>, op: Op<T>)
    requires t.Valid()
    ensures RunStream(t, [op]) == Next(t, op)
  {
    assert [op][..0] == [];
    assert RunStream(t, []) == t;
  }

  // co_await send: it completes exactly when its value is committed, so by
  // CommittedStays it is never lost; it throws exactly when its value leaves
  // the stream, which happens only at close, so by ClosedSendsFixed the value
  // is never handed over.
  lemma SenderFate<T>(s: Stream<T>, op: Op<T>, k: nat)
    requires s.Valid() && s.Committed() <= k < |s.sends|
    ensures var t := Next(s, op);
            var wakes := WakesOf(s, t);
            && (k < |t.sends| ==> t.sends[k] == s.sends[k] && t.senders[k] == s.senders[k])
            && (k < t.Committed() ==> Sent(s.senders[k]) in wakes)
            && (k >= |t.sends| ==> !s.closed && t.closed && SendClosed(s.senders[k]) in wakes)
  {
    hide WakesOf, Next, CommittedBetween, DroppedSends;
    ParkedBetween(s, op, k);
    NextKeeps(s, op, k);
    WakesContain(s, Next(s, op));
  }

  lemma NextKeeps<T>(s: Stream<T>, op: Op<T>, k: nat)
    requires s.Valid() && s.Committed() <= k < |s.sends|
    ensures var t := Next(s, op);
            && |t.senders| == |t.sends|
            && (k < |t.sends| ==> t.sends[k] == s.sends[k] && t.senders[k] == s.senders[k])
            && (k >= |t.sends| ==> !s.closed && t.closed)
  {
  }

  lemma ParkedBetween<T>(t: Stream<T>, op: Op<T>, k: nat)
    requires t.Valid() && t.Committed() <= k < |t.sends|
    ensures var u := Next(t, op);
            var c, d := CommittedBetween(t, u), DroppedSends(t, u);
            var i := k - t.Committed();
            && (k < u.Committed() ==> i < |c| && c[i] == Sent(t.senders[k]))
            && (k >= |u.sends| ==> u.closed && c == [] && i < |d| && d[i] == SendClosed(t.senders[k]))
            && (u.Committed() <= k < |u.sends| ==>
                  |c| == u.Committed() - t.Committed() && d == [] && |u.senders| == |u.sends| &&
                  u.senders[k] == t.senders[k] && !u.closed)
  {
  }

  lemma WakesContain<T>(s: Stream<T>, t: Stream<T>)
    requires s.Valid()
    ensures forall w :: w in CommittedBetween(s, t) || w in DroppedSends(s, t) ==> w in WakesOf(s, t)
  {
  }
}
