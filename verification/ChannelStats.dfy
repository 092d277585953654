// The eleven counters, on event counts that do not wrap. Channel.Channel keeps
// them modulo 2^64, so there each equation holds modulo 2^64.

module ChannelStats {
  import opened Common
  import opened ChannelSpec
  import opened ChannelRuns

  ghost predicate Conserved<T>(c: Chan<T>) {
    var st := c.stats;
    && st.pushes == st.pops + |c.buffer|
    && (c.capacity > 0 ==>
          st.receiverWaits == |c.receivers| + st.handoffs + st.wokenReceivers)
    && (c.capacity == 0 ==>
          st.senderWaits + st.receiverWaits ==
          st.handoffs + |c.senders| + |c.receivers| + st.wokenSenders + st.wokenReceivers)
  }

  lemma TakeConserves<T>(c: Chan<T>)
    requires Shape(c) && Conserved(c)
    ensures Shape(Take(c).chan) && Conserved(Take(c).chan)
  {
  }

  lemma OfferConserves<T>(c: Chan<T>, v: T)
    requires Shape(c) && Conserved(c) && !c.closed
    ensures Shape(Offer(c, v).chan) && Conserved(Offer(c, v).chan)
  {
  }

  lemma {:induction false} DrainConserves<T>(c: Chan<T>, m: nat)
    requires Shape(c) && Conserved(c)
    ensures Conserved(Drain(c, m).chan)
    decreases m
  {
    if m > 0 && Take(c).out.Got? {
      TakeConserves(c);
      DrainConserves(Take(c).chan, m - 1);
    }
  }

  lemma {:induction false} SendLoopConserves<T>(c: Chan<T>, vs: seq<T>)
    requires Shape(c) && Conserved(c) && !c.closed
    ensures Conserved(SendLoop(c, vs).chan)
    decreases |vs|
  {
    if vs != [] && Offer(c, vs[0]).out.Done? {
      OfferConserves(c, vs[0]);
      SendLoopConserves(Offer(c, vs[0]).chan, vs[1..]);
    }
  }

  lemma SendCallConserves<T>(c: Chan<T>)
    requires Shape(c) && Conserved(c)
    ensures Conserved(SendCall(c).chan)
  {
  }

  lemma SendConserves<T>(c: Chan<T>, h: Handle, v: T)
    requires Shape(c) && Conserved(c)
    ensures Conserved(SendSuspend(c, h, v).chan)
  {
    if !c.closed { OfferConserves(c, v); }
  }

  lemma TrySendConserves<T>(c: Chan<T>, v: T)
    requires Shape(c) && Conserved(c)
    ensures Conserved(TrySend(c, v).chan)
  {
    if !c.closed { OfferConserves(c, v); }
  }

  lemma TrySendManyConserves<T>(c: Chan<T>, vs: seq<T>)
    requires Shape(c) && Conserved(c)
    ensures Conserved(TrySendMany(c, vs).chan)
  {
    hide SendLoop;
    if !c.closed { SendLoopConserves(c, vs); }
  }

  lemma ReceiveConserves<T>(c: Chan<T>, h: Handle)
    requires Shape(c) && Conserved(c)
    ensures Conserved(ReceiveSuspend(c, h).chan)
  {
    TakeConserves(c);
  }

  lemma TryReceiveConserves<T>(c: Chan<T>)
    requires Shape(c) && Conserved(c)
    ensures Conserved(TryReceive(c).chan)
  {
    TakeConserves(c);
  }

  lemma TryReceiveManyConserves<T>(c: Chan<T>, m: nat)
    requires Shape(c) && Conserved(c)
    ensures Conserved(TryReceiveMany(c, m).chan)
  {
    hide Drain;
    DrainConserves(c, m);
  }

  lemma CloseConserves<T>(c: Chan<T>)
    requires Shape(c) && Conserved(c)
    ensures Conserved(Close(c).chan)
  {
  }

  lemma ConservedStep<T>(c: Chan<T>, op: Op<T>)
    requires Shape(c) && Conserved(c)
    ensures Conserved(Step(c, op).chan)
  {
    hide Shape, Conserved, SendCall, SendSuspend, TrySend, TrySendMany, ReceiveSuspend, TryReceive, TryReceiveMany, Close;
    match op
    case SendCallOp => SendCallConserves(c);
    case SendOp(h, v) => SendConserves(c, h, v);
    case TrySendOp(_, v) => TrySendConserves(c, v);
    case TrySendManyOp(_, vs) => TrySendManyConserves(c, vs);
    case ReceiveOp(h) => ReceiveConserves(c, h);
    case TryReceiveOp(_) => TryReceiveConserves(c);
    case TryReceiveManyOp(_, m) => TryReceiveManyConserves(c, m);
    case CloseOp => CloseConserves(c);
  }

  // Statistics conserve in every run.
  lemma {:induction false} StatsConserved<T>(capacity: nat, ops: seq<Op<T>>)
    ensures var c := Run(Fresh<T>(capacity), ops).0; Shape(c) && Conserved(c) && c.capacity == capacity
    decreases |ops|
  {
    hide Step;
    TwoSidedFifo<T>(capacity, ops);
    if ops == [] {
    } else {
      var init := ops[..|ops| - 1];
      StatsConserved<T>(capacity, init);
      ConservedStep(Run(Fresh<T>(capacity), init).0, ops[|ops| - 1]);
      ShapePreserved(Run(Fresh<T>(capacity), init).0, ops[|ops| - 1]);
    }
  }

  // --- Every counter counts an observable event ---

  function One(b: bool): nat { if b then 1 else 0 }

  function ValuesReturned<T>(out: Outcome<T>): nat {
    match out
    case Got(_) => 1
    case GotMany(vs) => |vs|
    case _ => 0
  }

  function Count<T>(wakes: seq<Wake<T>>, k: Kind): nat { |Filter(k, wakes)| }

  // before, after: the counters around one operation with this result.
  ghost predicate Counts<T>(capacity: nat, e: Event<T>, before: Stats, after: Stats) {
    && after.senderWaits == before.senderWaits + One(e.op.SendOp? && e.out.Suspended?)
    && after.receiverWaits == before.receiverWaits + One(e.op.ReceiveOp? && e.out.Suspended?)
    && after.fullFailures == before.fullFailures +
         One((e.op.TrySendOp? && e.out.Refused?) ||
             (e.op.TrySendManyOp? && e.out.SentMany? && e.out.sent < |e.op.items|))
    && after.emptyReturns == before.emptyReturns +
         One((e.op.TryReceiveOp? && e.out.Refused?) ||
             (e.op.TryReceiveManyOp? && e.op.max > 0 && e.out == GotMany([])))
    && after.closedFailures == before.closedFailures + One(e.out.Closed?)
    && after.closeCalls == before.closeCalls + One(e.op.CloseOp? && e.out.Done?)
    && after.wokenSenders == before.wokenSenders + Count(e.wakes, SendClosing)
    && after.wokenReceivers == before.wokenReceivers + Count(e.wakes, ReceiveClosing)
    && after.handoffs == before.handoffs + Count(e.wakes, Answering) +
         (if capacity == 0 then ValuesReturned(e.out) else 0)
    && after.pops == before.pops + (if capacity == 0 then 0 else ValuesReturned(e.out))
  }

  lemma {:induction false} DrainCounts<T>(c: Chan<T>, m: nat)
    requires Shape(c)
    ensures var r := Drain(c, m);
            var n := |r.out.values|;
            && (forall k :: Count(r.wakes, k) == if k.AnySender? then |r.wakes| else 0)
            && r.chan.stats == c.stats.(pops := r.chan.stats.pops, pushes := r.chan.stats.pushes, handoffs := r.chan.stats.handoffs)
            && r.chan.stats.handoffs == c.stats.handoffs + (if c.capacity == 0 then n else 0)
            && r.chan.stats.pops == c.stats.pops + (if c.capacity == 0 then 0 else n)
    decreases m
  {
    hide Filter, Picks;
    CountSingle<T>([]);
    if m > 0 && Take(c).out.Got? {
      var one := Take(c);
      TakeEffect(c);
      hide Take, Shape;
      DrainCounts(one.chan, m - 1);
      forall k ensures Count(Drain(c, m).wakes, k) == if k.AnySender? then |Drain(c, m).wakes| else 0 {
        FilterConcat(k, one.wakes, Drain(one.chan, m - 1).wakes);
      }
    }
  }

  lemma TakeEffect<T>(c: Chan<T>)
    requires Shape(c) && Take(c).out.Got?
    ensures var r := Take(c);
            && Shape(r.chan) && r.chan.capacity == c.capacity
            && (forall k :: Count(r.wakes, k) == if k.AnySender? then |r.wakes| else 0)
            && r.chan.stats == c.stats.(pops := c.stats.pops + One(c.capacity > 0),
                                        handoffs := c.stats.handoffs + One(c.capacity == 0),
                                        pushes := r.chan.stats.pushes)
  {
    forall k ensures Count(Take(c).wakes, k) == if k.AnySender? then |Take(c).wakes| else 0 {
      FilterSame(k, Take(c).wakes, k.AnySender?);
    }
  }

  lemma OfferEffect<T>(c: Chan<T>, v: T)
    requires Shape(c) && !c.closed && Offer(c, v).out.Done?
    ensures var r := Offer(c, v);
            && Shape(r.chan) && !r.chan.closed
            && (forall k :: Count(r.wakes, k) == if k.AnyReceiver? || k.Answering? then |r.wakes| else 0)
            && r.chan.stats == c.stats.(pushes := r.chan.stats.pushes, handoffs := c.stats.handoffs + |r.wakes|)
  {
    forall k ensures Count(Offer(c, v).wakes, k) == if k.AnyReceiver? || k.Answering? then |Offer(c, v).wakes| else 0 {
      FilterSame(k, Offer(c, v).wakes, k.AnyReceiver? || k.Answering?);
    }
  }

  lemma {:induction false} SendLoopCounts<T>(c: Chan<T>, vs: seq<T>)
    requires Shape(c) && !c.closed
    ensures var r := SendLoop(c, vs);
            && (forall k :: Count(r.wakes, k) == if k.AnyReceiver? || k.Answering? then |r.wakes| else 0)
            && r.chan.stats == c.stats.(pushes := r.chan.stats.pushes, handoffs := c.stats.handoffs + |r.wakes|,
                                        fullFailures := c.stats.fullFailures + One(r.out.sent < |vs|))
    decreases |vs|
  {
    hide Filter, Picks;
    CountSingle<T>([]);
    if vs != [] && Offer(c, vs[0]).out.Done? {
      var one := Offer(c, vs[0]);
      OfferEffect(c, vs[0]);
      hide Offer, Shape;
      SendLoopCounts(one.chan, vs[1..]);
      forall k ensures Count(SendLoop(c, vs).wakes, k) == if k.AnyReceiver? || k.Answering? then |SendLoop(c, vs).wakes| else 0 {
        FilterConcat(k, one.wakes, SendLoop(one.chan, vs[1..]).wakes);
      }
    }
  }

  lemma CloseCounts<T>(c: Chan<T>)
    requires !c.closed
    ensures var w := Close(c).wakes;
            && Count(w, SendClosing) == |c.senders| && Count(w, ReceiveClosing) == |c.receivers| && Count(w, Answering) == 0
  {
    var a := seq(|c.senders|, i requires 0 <= i < |c.senders| => SendClosed(c.senders[i]));
    var b := seq(|c.receivers|, i requires 0 <= i < |c.receivers| => ReceiveClosed(c.receivers[i]));
    forall k: Kind ensures Filter(k, a + b) == Filter(k, a) + Filter(k, b) { FilterConcat<T>(k, a, b); }
    FilterSame<T>(SendClosing, a, true);
    FilterSame<T>(SendClosing, b, false);
    FilterSame<T>(ReceiveClosing, a, false);
    FilterSame<T>(ReceiveClosing, b, true);
    FilterSame<T>(Answering, a, false);
    FilterSame<T>(Answering, b, false);
    assert Close(c).wakes == a + b;
  }

  // Each counter moves exactly with the results and wake-ups it is named for;
  // the remaining one, buffer_pushes, is fixed by StatsConserved.
  lemma CountersAreFaithful<T>(c: Chan<T>, op: Op<T>)
    requires Shape(c)
    ensures var r := Step(c, op); Counts(c.capacity, Event(op, r.out, r.wakes), c.stats, r.chan.stats)
  {
    match op
    case SendCallOp => CountSingle<T>([]);
    case SendOp(_, _) => SendSideCounts(c, op);
    case TrySendOp(_, _) => SendSideCounts(c, op);
    case TrySendManyOp(_, vs) => SendSideCounts(c, op);
    case ReceiveOp(_) => ReceiveSideCounts(c, op);
    case TryReceiveOp(_) => ReceiveSideCounts(c, op);
    case TryReceiveManyOp(_, m) => ReceiveSideCounts(c, op);
    case CloseOp =>
      hide Filter;
      if !c.closed { CloseCounts(c); } else { CountSingle<T>([]); }
  }

  lemma SendSideCounts<T>(c: Chan<T>, op: Op<T>)
    requires Shape(c) && (op.SendOp? || op.TrySendOp? || op.TrySendManyOp?)
    ensures var r := Step(c, op); Counts(c.capacity, Event(op, r.out, r.wakes), c.stats, r.chan.stats)
  {
    hide Filter, SendLoop, Picks;
    if c.closed || (op.TrySendManyOp? && op.items == []) {
      CountSingle<T>([]);
    } else if op.TrySendManyOp? {
      SendLoopCounts(c, op.items);
    } else {
      OfferCounts(c, op.value);
    }
  }

  lemma OfferCounts<T>(c: Chan<T>, v: T)
    requires Shape(c)
    ensures var w := Offer(c, v).wakes;
            && Count(w, Answering) == |w|
            && Count(w, SendClosing) == Count(w, ReceiveClosing) == 0
            && Count<T>([], Answering) == Count<T>([], SendClosing) == Count<T>([], ReceiveClosing) == 0
  {
    CountSingle(Offer(c, v).wakes);
    CountSingle<T>([]);
  }

  lemma ReceiveSideCounts<T>(c: Chan<T>, op: Op<T>)
    requires Shape(c) && (op.ReceiveOp? || op.TryReceiveOp? || op.TryReceiveManyOp?)
    ensures var r := Step(c, op); Counts(c.capacity, Event(op, r.out, r.wakes), c.stats, r.chan.stats)
  {
    hide Filter, Drain, Picks;
    if op.TryReceiveManyOp? {
      DrainCounts(c, op.max);
      CountSingle<T>([]);
      if op.max > 0 && Drain(c, op.max).out.values == [] { DrainEmpty(c, op.max); }
    } else {
      TakeCounts(c);
    }
  }

  lemma DrainEmpty<T>(c: Chan<T>, m: nat)
    requires c.Paired() && m > 0 && Drain(c, m).out.values == []
    ensures Drain(c, m).chan == c
  {
  }

  lemma TakeCounts<T>(c: Chan<T>)
    requires Shape(c)
    ensures var w := Take(c).wakes;
            && Count(w, Answering) == Count(w, SendClosing) == Count(w, ReceiveClosing) == 0
            && Count<T>([], Answering) == Count<T>([], SendClosing) == Count<T>([], ReceiveClosing) == 0
  {
    CountSingle(Take(c).wakes);
    CountSingle<T>([]);
  }

  lemma CountSingle<T>(wakes: seq<Wake<T>>)
    requires |wakes| <= 1
    ensures forall k :: Count(wakes, k) == if wakes != [] && Picks(k, wakes[0]) then 1 else 0
  {
    forall k ensures Count(wakes, k) == if wakes != [] && Picks(k, wakes[0]) then 1 else 0 {
      if wakes != [] {
        assert wakes[1..] == [];
        assert Filter(k, wakes[1..]) == [];
      }
    }
  }
}
