// What becomes of a parked co_await send, over whole runs.

module ChannelFates {
  import opened Common
  import opened ChannelSpec
  import opened ChannelStream
  import opened ChannelRuns

  // The wake-ups of senders in a trace, in order.
  function SenderWakes<T>(trace: seq<Event<T>>): seq<Wake<T>> {
    if trace == [] then []
    else SenderWakes(trace[..|trace| - 1]) + Filter(AnySender, trace[|trace| - 1].wakes)
  }

  // t comes later than s, and w are the sender wake-ups in between. What they
  // say of the sender parked at index k of s: it has been woken with success,
  // woken with failure, or is parked behind all that have been woken.
  ghost predicate Foretold<T>(s: Stream<T>, t: Stream<T>, w: seq<Wake<T>>, k: nat)
    requires s.Valid() && t.Valid() && s.Committed() <= k < |s.sends|
  {
    var j := k - s.Committed();
    if k < t.Committed() then j < |w| && w[j] == Sent(s.senders[k])
    else if k >= |t.sends| then t.closed && j < |w| && w[j] == SendClosed(s.senders[k])
    else |w| == t.Committed() - s.Committed() && t.senders[k] == s.senders[k] && !t.closed
  }

  lemma CommittedGrows<T>(s: Stream<T>, op: Op<T>)
    requires s.Valid()
    ensures var t := Next(s, op);
            && s.Committed() <= t.Committed()
            && (s.closed ==> t.closed && t.sends == s.sends)
            && (forall k :: 0 <= k < |s.sends| && k < |t.sends| ==> t.senders[k] == s.senders[k])
            && (t.closed && !s.closed ==> |t.sends| == t.Committed() == s.Committed() || |t.sends| == |s.sends|)
  {
  }

  // One step seen from the parked sender k.
  lemma WakesOfParked<T>(t: Stream<T>, op: Op<T>, k: nat)
    requires t.Valid() && t.Committed() <= k < |t.sends|
    ensures var u := Next(t, op);
            var d := Filter(AnySender, WakesOf(t, u));
            var i := k - t.Committed();
            && (k < u.Committed() ==> i < |d| && d[i] == Sent(t.senders[k]))
            && (k >= |u.sends| ==> u.closed && i < |d| && d[i] == SendClosed(t.senders[k]))
            && (u.Committed() <= k < |u.sends| ==>
                  |d| == u.Committed() - t.Committed() && u.senders[k] == t.senders[k] && !u.closed)
  {
    hide WakesOf, Filter, CommittedBetween, DroppedSends, Next;
    ParkedBetween(t, op, k);
    ReadWakes(AnySender, t, Next(t, op));
  }

  lemma {:induction false} RunForetells<T>(s: Stream<T>, stats: Stats, ops: seq<Op<T>>, k: nat)
    requires s.Valid() && s.Committed() <= k < |s.sends|
    ensures Foretold(s, RunStream(s, ops), SenderWakes(Run(Abs(s, stats), ops).1), k)
    decreases |ops|
  {
    hide Step, WakesOf, Next, Filter, Abs, Foretold;
    if ops == [] {
      NothingForetold(s, k);
    } else {
      var init, op := ops[..|ops| - 1], ops[|ops| - 1];
      RunForetells(s, stats, init, k);
      RunRefines(s, stats, init);
      var t, c, trace := RunStream(s, init), Run(Abs(s, stats), init).0, Run(Abs(s, stats), init).1;
      StepRefines(t, c.stats, op);
      ForetoldNext(s, t, SenderWakes(trace), k, op);
      assert Run(Abs(s, stats), ops).1[..|trace|] == trace;
    }
  }

  lemma NothingForetold<T>(s: Stream<T>, k: nat)
    requires s.Valid() && s.Committed() <= k < |s.sends|
    ensures Foretold(s, s, [], k)
  {
  }

  lemma ForetoldNext<T>(s: Stream<T>, t: Stream<T>, w: seq<Wake<T>>, k: nat, op: Op<T>)
    requires s.Valid() && t.Valid() && s.Committed() <= k < |s.sends| && Foretold(s, t, w, k)
    ensures Next(t, op).Valid()
    ensures Foretold(s, Next(t, op), w + Filter(AnySender, WakesOf(t, Next(t, op))), k)
  {
    hide WakesOf, Filter, Next;
    StepRefines(t, NO_STATS, op);
    CommittedGrows(t, op);
    if t.Committed() <= k < |t.sends| { WakesOfParked(t, op, k); }
  }

  // --- For ever ---

  ghost predicate KeptForEver<T(!new)>(t: Stream<T>, k: nat)
    requires t.Valid()
  {
    forall ops :: k < |RunStream(t, ops).sends|
  }

  // Served() is the number of requests that have been answered.
  ghost predicate NeverHandedOver<T(!new)>(t: Stream<T>, k: nat)
    requires t.Valid()
  {
    forall ops :: RunStream(t, ops).Served() <= k
  }

  lemma KeptIff<T(!new)>(t: Stream<T>, k: nat)
    requires t.Valid()
    ensures k < |t.sends| ==> (KeptForEver(t, k) <==> k < t.Committed())
    ensures k >= |t.sends| ==> !KeptForEver(t, k)
  {
    OneOp(t, CloseOp);
    assert RunStream(t, []) == t;
    if k < t.Committed() {
      forall ops: seq<Op<T>> ensures k < |RunStream(t, ops).sends| { CommittedStays(t, ops, k); }
    }
  }

  lemma NeverIff<T(!new)>(t: Stream<T>, k: nat)
    requires t.Valid() && (k >= |t.sends| ==> t.closed)
    ensures NeverHandedOver(t, k) <==> k >= |t.sends|
  {
    if k < |t.sends| {
      var ask := TryReceiveManyOp(0, |t.sends|);
      OneOp(t, ask);
      assert RunStream(t, [ask]).Served() > k;
    } else {
      forall ops: seq<Op<T>> ensures RunStream(t, ops).Served() <= k { ClosedSendsFixed(t, ops); }
    }
  }

  // co_await send, for a sender found parked and any run from there. Once it
  // is woken, it returns normally if and only if its value stays in the stream
  // for ever, and it throws if and only if no receive in any continuation is
  // ever answered with the value at its index. While it is parked neither is
  // settled.
  lemma SendFate<T(!new)>(s: Stream<T>, stats: Stats, ops: seq<Op<T>>, k: nat)
    requires s.Valid() && s.Committed() <= k < |s.sends|
    ensures var t, w := RunStream(s, ops), SenderWakes(Run(Abs(s, stats), ops).1);
            var j := k - s.Committed();
            && (j < |w| ==> w[j] == Sent(s.senders[k]) || w[j] == SendClosed(s.senders[k]))
            && (j < |w| && w[j].Sent? <==> KeptForEver(t, k))
            && (j < |w| && w[j].SendClosed? <==> NeverHandedOver(t, k))
            && (k < |t.sends| ==> t.sends[k] == s.sends[k])
  {
    hide KeptForEver, NeverHandedOver, Run, Abs, SenderWakes;
    var t, w := RunStream(s, ops), SenderWakes(Run(Abs(s, stats), ops).1);
    RunForetells(s, stats, ops, k);
    AcceptedUnlessDropped(s, ops, k);
    KeptIff(t, k);
    NeverIff(t, k);
  }
}
