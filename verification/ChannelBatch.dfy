// The batch operations against their single-item counterparts.

module ChannelBatch {
  import opened Common
  import opened ChannelSpec
  import opened ChannelStream
  import opened ChannelRuns

  // try_receive called k times, results and wake-ups collected.
  function ReceiveSingly<T>(c: Chan<T>, k: nat): (r: (Chan<T>, seq<Outcome<T>>, seq<Wake<T>>))
    requires c.Paired()
    ensures r.0.Paired()
    decreases k
  {
    if k == 0 then (c, [], [])
    else
      var one := TryReceive(c);
      var rest := ReceiveSingly(one.chan, k - 1);
      (rest.0, [one.out] + rest.1, one.wakes + rest.2)
  }

  // try_send called on each item until the first that does not succeed.
  function SendSingly<T>(c: Chan<T>, vs: seq<T>): (Chan<T>, seq<Outcome<T>>, seq<Wake<T>>)
    decreases |vs|
  {
    if vs == [] then (c, [], [])
    else
      var one := TrySend(c, vs[0]);
      if one.out.Done? then
        var rest := SendSingly(one.chan, vs[1..]);
        (rest.0, [Done] + rest.1, one.wakes + rest.2)
      else
        (one.chan, [one.out], one.wakes)
  }

  function Gots<T>(vs: seq<T>): seq<Outcome<T>> {
    seq(|vs|, i requires 0 <= i < |vs| => Got(vs[i]))
  }

  function Dones<T>(n: nat): seq<Outcome<T>> { seq(n, i => Done) }

  lemma {:induction false} DrainIsSingly<T>(c: Chan<T>, m: nat)
    requires c.Paired()
    ensures var d := Drain(c, m);
            ReceiveSingly(c, |d.out.values|) == (d.chan, Gots(d.out.values), d.wakes)
    decreases m
  {
    if m > 0 && Take(c).out.Got? {
      var one := Take(c);
      DrainIsSingly(one.chan, m - 1);
      var vs := Drain(one.chan, m - 1).out.values;
      assert Gots([one.out.value] + vs) == [Got(one.out.value)] + Gots(vs);
    } else {
      assert Gots<T>([]) == [];
    }
  }

  lemma {:induction false} SendLoopIsSingly<T>(c: Chan<T>, vs: seq<T>)
    requires !c.closed
    ensures var b := SendLoop(c, vs);
            SendSingly(c, vs) ==
              (b.chan, Dones(b.out.sent) + (if b.out.sent < |vs| then [Refused] else []), b.wakes)
    decreases |vs|
  {
    if vs != [] && Offer(c, vs[0]).out.Done? {
      var one := Offer(c, vs[0]);
      SendLoopIsSingly(one.chan, vs[1..]);
      var n := SendLoop(one.chan, vs[1..]).out.sent;
      var last: seq<Outcome<T>> := if n < |vs| - 1 then [Refused] else [];
      assert Dones(n + 1) + last == [Done] + (Dones(n) + last);
    } else {
      var last: seq<Outcome<T>> := if vs != [] then [Refused] else [];
      assert Dones(0) + last == last;
    }
  }

  // What try_receive_many takes: the first min(m, count + parked) values of
  // buffer then parked senders.
  function Available<T>(c: Chan<T>): seq<T> { c.buffer + c.parked }

  // try_receive_many on any reachable channel. It is that many try_receive
  // calls, counters included; with nothing to take it is one try_receive.
  lemma BatchReceive<T>(c: Chan<T>, m: nat)
    requires Shape(c)
    ensures var r := TryReceiveMany(c, m);
            var k := Min(m, |Available(c)|);
            && (k > 0 || m == 0 ==>
                  && r.out == GotMany(Available(c)[..k])
                  && ReceiveSingly(c, k) == (r.chan, Gots(Available(c)[..k]), r.wakes)
                  && Available(r.chan) == Available(c)[k..]
                  && r.chan.receivers == c.receivers
                  && r.wakes == SentAll(c.senders[..Min(m, |c.senders|)])
                  && r.chan.senders == c.senders[Min(m, |c.senders|)..])
            && (k == 0 && m > 0 ==>
                  && r.chan == TryReceive(c).chan && r.wakes == []
                  && r.out == if c.closed then Closed else GotMany([]))
  {
    hide Recover, Abs, WakesOf, Take, Drain, ReceiveSingly, Answers;
    var s, k := Recover(c), Min(m, |Available(c)|);
    RecoverInverts(c);
    RecoverBacklog(c);
    DrainMatches(c, s, 0, m, k);
    DrainIsSingly(c, m);
    if k > 0 {
      BatchReceiveStream(c, m, k);
    } else if m > 0 {
      TakeRefuses(s, c.stats);
      DrainNothing(c, s, 0, m);
    } else {
      DrainNothing(c, s, 0, m);
    }
  }

  lemma RecoverBacklog<T>(c: Chan<T>)
    requires Shape(c)
    ensures Recover(c).closed == c.closed
    ensures Recover(c).Backlog() == |Available(c)| && Recover(c).Room() == |c.receivers| + c.capacity - |c.buffer|
  {
  }

  lemma BatchReceiveStream<T>(c: Chan<T>, m: nat, k: nat)
    requires Shape(c) && k == Min(m, |Available(c)|) && k > 0
    ensures var s := Recover(c);
            var t := Request(s, 0, k);
            && s.Valid() && t.Valid() && s.Backlog() == |Available(c)| && s.requests == [] == c.receivers
            && Answers(s, k) == Available(c)[..k]
            && WakesOf(s, t) == SentAll(c.senders[..Min(m, |c.senders|)])
            && (forall st ::
                  && Available(Abs(t, st)) == Available(c)[k..]
                  && Abs(t, st).receivers == []
                  && Abs(t, st).senders == c.senders[Min(m, |c.senders|)..])
  {
    hide WakesOf, Abs, Answers;
    BatchReceiveWakes(c, m, k);
    BatchReceiveState(c, m, k);
  }

  lemma BatchReceiveWakes<T>(c: Chan<T>, m: nat, k: nat)
    requires Shape(c) && k == Min(m, |Available(c)|) && k > 0
    ensures var s := Recover(c);
            var t := Request(s, 0, k);
            && s.Valid() && t.Valid() && s.Backlog() == |Available(c)| && s.requests == [] == c.receivers
            && Answers(s, k) == Available(c)[..k]
            && WakesOf(s, t) == SentAll(c.senders[..Min(m, |c.senders|)])
  {
    hide WakesOf, SentAll;
    var s, t := Recover(c), Request(Recover(c), 0, k);
    OnlyCommits(s, t);
    var n := Min(m, |c.senders|);
    assert Answers(s, k) == Available(c)[..k];
    SentNothing<T>();
    if n > 0 { assert s.senders[c.capacity..c.capacity + n] == c.senders[..n]; }
  }

  lemma SentNothing<T>()
    ensures SentAll<T>([]) == []
  {
  }

  lemma BatchReceiveState<T>(c: Chan<T>, m: nat, k: nat)
    requires Shape(c) && k == Min(m, |Available(c)|) && k > 0
    ensures var t := Request(Recover(c), 0, k);
            && t.Valid()
            && (forall st ::
                  && Available(Abs(t, st)) == Available(c)[k..]
                  && Abs(t, st).receivers == []
                  && Abs(t, st).senders == c.senders[Min(m, |c.senders|)..])
  {
    var s, t, n := Recover(c), Request(Recover(c), 0, k), Min(m, |c.senders|);
    assert s.senders[t.Committed()..] == c.senders[n..];
    assert t.sends[t.Served()..] == Available(c)[k..];
  }

  // try_send_many on any reachable open channel. It sends exactly as many
  // items as there is room for, to the parked receivers first, and is the same
  // as try_send repeated until the first false, counters included.
  lemma BatchSend<T>(c: Chan<T>, vs: seq<T>)
    requires Shape(c) && !c.closed
    ensures var r := TrySendMany(c, vs);
            var n := Min(|vs|, |c.receivers| + c.capacity - |c.buffer|);
            var direct := Min(n, |c.receivers|);
            && r.out == SentMany(n)
            && SendSingly(c, vs) ==
                 (r.chan, Dones(n) + (if n < |vs| then [Refused] else []), r.wakes)
            && r.wakes == ReceivedAll(c.receivers[..direct], vs[..direct])
            && r.chan.receivers == c.receivers[direct..]
            && r.chan.buffer == c.buffer + vs[direct..n]
            && r.chan.senders == c.senders && r.chan.parked == c.parked
  {
    hide Recover, Abs, WakesOf, Offer, SendLoop, SendSingly, Dones;
    var s, n := Recover(c), Min(|vs|, |c.receivers| + c.capacity - |c.buffer|);
    RecoverInverts(c);
    RecoverBacklog(c);
    SendLoopMatches(c, s, 0, vs, n);
    SendLoopIsSingly(c, vs);
    BatchSendStream(c, vs[..n]);
    assert vs[..n][..Min(n, |c.receivers|)] == vs[..Min(n, |c.receivers|)];
    assert vs[..n][Min(n, |c.receivers|)..] == vs[Min(n, |c.receivers|)..n];
    if vs == [] { SendLoopEmpty(c, vs); }
  }

  lemma SendLoopEmpty<T>(c: Chan<T>, vs: seq<T>)
    requires vs == []
    ensures SendLoop(c, vs) == TrySendMany(c, vs)
  {
  }

  lemma BatchSendStream<T>(c: Chan<T>, vs: seq<T>)
    requires Shape(c) && !c.closed && |vs| <= |c.receivers| + c.capacity - |c.buffer|
    ensures var s := Recover(c);
            var t := Accept(s, 0, vs);
            var direct := Min(|vs|, |c.receivers|);
            && s.Valid() && t.Valid()
            && WakesOf(s, t) == ReceivedAll(c.receivers[..direct], vs[..direct])
            && (forall st ::
                  && Abs(t, st).receivers == c.receivers[direct..]
                  && Abs(t, st).buffer == c.buffer + vs[direct..]
                  && Abs(t, st).senders == c.senders && Abs(t, st).parked == c.parked)
  {
    hide WakesOf;
    var s, t := Recover(c), Accept(Recover(c), 0, vs);
    var direct := Min(|vs|, |c.receivers|);
    OnlyAnswers(s, t);
    if c.receivers != [] {
      assert s.sends == [] && t.sends == vs;
      assert t.sends[t.Served()..t.Committed()] == vs[direct..];
    } else {
      assert t.sends[t.Served()..t.Committed()] == c.buffer + vs;
    }
  }
}
