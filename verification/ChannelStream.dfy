// The meaning of a channel: two growing lists, the accepted values and the
// accepted receive requests, where request k is answered with value k. Buffer,
// parked senders and parked receivers are all derived from the two lengths.

module ChannelStream {
  import opened Common
  import opened ChannelSpec

  datatype Stream<T> = Stream(
    capacity: nat,
    closed: bool,
    sends: seq<T>,
    senders: seq<Handle>,
    requests: seq<Handle>)
  {
    // Requests already answered.
    function Served(): nat { Min(|sends|, |requests|) }

    // Values whose send has completed: answered or in the buffer.
    function Committed(): nat { Min(|sends|, |requests| + capacity) }

    function Backlog(): nat { Excess(|sends|, |requests|) }

    function Room(): nat { Excess(|requests| + capacity, |sends|) }

    predicate Valid() {
      && |sends| == |senders|
      && (closed ==> |requests| <= |sends| <= |requests| + capacity)
    }
  }

  // The values the next n requests will be answered with.
  function Answers<T>(s: Stream<T>, n: nat): seq<T>
    requires n <= s.Backlog()
  {
    s.sends[s.Served()..s.Served() + n]
  }

  // The channel state a stream stands for.
  function Abs<T>(s: Stream<T>, stats: Stats): (c: Chan<T>)
    requires s.Valid()
    ensures c.Paired()
  {
    Chan(s.capacity, s.closed,
         s.sends[s.Served()..s.Committed()],
         s.senders[s.Committed()..],
         s.sends[s.Committed()..],
         s.requests[s.Served()..],
         stats)
  }

  function Repeat(h: Handle, n: nat): seq<Handle> { seq(n, i => h) }

  function Accept<T>(s: Stream<T>, h: Handle, vs: seq<T>): Stream<T> {
    s.(sends := s.sends + vs, senders := s.senders + Repeat(h, |vs|))
  }

  function Request<T>(s: Stream<T>, h: Handle, n: nat): Stream<T> {
    s.(requests := s.requests + Repeat(h, n))
  }

  // Closing forgets exactly the parked suffix of each list.
  function Seal<T>(s: Stream<T>): Stream<T>
    requires s.Valid()
  {
    s.(closed := true, sends := s.sends[..s.Committed()], senders := s.senders[..s.Committed()],
       requests := s.requests[..s.Served()])
  }

  function Next<T>(s: Stream<T>, op: Op<T>): Stream<T>
    requires s.Valid()
  {
    match op
    case SendCallOp => s
    case SendOp(h, v) => if s.closed then s else Accept(s, h, [v])
    case TrySendOp(h, v) => if s.closed || s.Room() == 0 then s else Accept(s, h, [v])
    case TrySendManyOp(h, vs) => if s.closed then s else Accept(s, h, vs[..Min(|vs|, s.Room())])
    case ReceiveOp(h) => if s.closed && s.Backlog() == 0 then s else Request(s, h, 1)
    case TryReceiveOp(h) => Request(s, h, Min(1, s.Backlog()))
    case TryReceiveManyOp(h, m) => Request(s, h, Min(m, s.Backlog()))
    case CloseOp => if s.closed then s else Seal(s)
  }

  function OutcomeOf<T>(s: Stream<T>, op: Op<T>): Outcome<T> {
    match op
    case SendCallOp => if s.closed then Closed else Done
    case SendOp(_, _) => if s.closed then Closed else if s.Room() > 0 then Done else Suspended
    case TrySendOp(_, _) => if s.closed then Closed else if s.Room() > 0 then Done else Refused
    case TrySendManyOp(_, vs) => if s.closed && vs != [] then Closed else SentMany(Min(|vs|, s.Room()))
    case ReceiveOp(_) =>
      if s.Backlog() > 0 then Got(s.sends[|s.requests|]) else if s.closed then Closed else Suspended
    case TryReceiveOp(_) =>
      if s.Backlog() > 0 then Got(s.sends[|s.requests|]) else if s.closed then Closed else Refused
    case TryReceiveManyOp(_, m) =>
      if s.Backlog() == 0 && s.closed && m > 0 then Closed
      else GotMany(Answers(s, Min(m, s.Backlog())))
    case CloseOp => if s.closed then AlreadyClosed else Done
  }

  // The coroutines that were parked before and are not parked afterwards.
  function WakesOf<T>(s: Stream<T>, t: Stream<T>): seq<Wake<T>>
    requires s.Valid()
  {
    AnsweredBetween(s, t) + CommittedBetween(s, t) + DroppedSends(s, t) + DroppedRequests(s, t)
  }

  function ReceivedAll<T>(hs: seq<Handle>, vs: seq<T>): seq<Wake<T>>
    requires |hs| == |vs|
  {
    seq(|hs|, i requires 0 <= i < |hs| => Received(hs[i], vs[i]))
  }

  function SentAll<T>(hs: seq<Handle>): seq<Wake<T>> {
    seq(|hs|, i requires 0 <= i < |hs| => Sent(hs[i]))
  }

  function AnsweredBetween<T>(s: Stream<T>, t: Stream<T>): seq<Wake<T>> {
    var lo, hi := |s.sends|, Min(|s.requests|, |t.sends|);
    if hi <= lo then [] else ReceivedAll(s.requests[lo..hi], t.sends[lo..hi])
  }

  function CommittedBetween<T>(s: Stream<T>, t: Stream<T>): seq<Wake<T>>
    requires s.Valid()
  {
    var lo, hi := |s.requests| + s.capacity, Min(|s.sends|, |t.requests| + s.capacity);
    if hi <= lo then [] else SentAll(s.senders[lo..hi])
  }

  function DroppedSends<T>(s: Stream<T>, t: Stream<T>): seq<Wake<T>> {
    var hs := if |s.senders| <= |t.sends| then [] else s.senders[|t.sends|..];
    seq(|hs|, i requires 0 <= i < |hs| => SendClosed(hs[i]))
  }

  function DroppedRequests<T>(s: Stream<T>, t: Stream<T>): seq<Wake<T>> {
    var hs := if |s.requests| <= |t.requests| then [] else s.requests[|t.requests|..];
    seq(|hs|, i requires 0 <= i < |hs| => ReceiveClosed(hs[i]))
  }

  // --- Each critical section does to the channel what Next does to the stream ---

  ghost predicate Matches<T>(r: Result<T>, s: Stream<T>, t: Stream<T>, out: Outcome<T>)
    requires s.Valid()
  {
    && t.Valid()
    && r.chan == Abs(t, r.chan.stats) && r.out == out && r.wakes == WakesOf(s, t)
  }

  lemma OfferAccepts<T>(s: Stream<T>, stats: Stats, h: Handle, v: T)
    requires s.Valid() && !s.closed && s.Room() > 0
    ensures Matches(Offer(Abs(s, stats), v), s, Accept(s, h, [v]), Done)
  {
    var r, t := Offer(Abs(s, stats), v), Accept(s, h, [v]);
    assert t.sends[t.Committed()..] == [] && t.senders[t.Committed()..] == [];
    if |s.requests| > |s.sends| {
      assert r.chan.receivers == t.requests[t.Served()..];
      assert t.sends[t.Served()..t.Committed()] == [];
      assert r.wakes == AnsweredBetween(s, t);
    } else {
      assert r.chan.buffer == t.sends[s.Served()..t.Committed()];
      assert WakesOf(s, t) == [];
    }
  }

  lemma OfferRefuses<T>(s: Stream<T>, stats: Stats, v: T)
    requires s.Valid() && s.Room() == 0
    ensures Offer(Abs(s, stats), v) == Result(Abs(s, stats), Refused, [])
  {
  }

  lemma TakeAnswers<T>(s: Stream<T>, stats: Stats, h: Handle)
    requires s.Valid() && s.Backlog() > 0
    ensures Matches(Take(Abs(s, stats)), s, Request(s, h, 1), Got(s.sends[|s.requests|]))
  {
    hide WakesOf, Take, Abs;
    OnlyCommits(s, Request(s, h, 1));
    if s.capacity == 0 {
      TakeHandsOver(s, stats, h);
    } else if s.Committed() < |s.sends| {
      TakeRefills(s, stats, h);
    } else {
      TakeFromBuffer(s, stats, h);
    }
  }

  // No buffer: the value comes from the first parked sender.
  lemma TakeHandsOver<T>(s: Stream<T>, stats: Stats, h: Handle)
    requires s.Valid() && s.Backlog() > 0 && s.capacity == 0
    ensures var r, t := Take(Abs(s, stats)), Request(s, h, 1);
            && t.Valid() && r.chan == Abs(t, r.chan.stats) && r.out == Got(s.sends[|s.requests|])
            && r.wakes == CommittedBetween(s, t)
  {
    var t, mid := Request(s, h, 1), s.Committed();
    assert t.requests[t.Served()..] == [] == s.requests[s.Served()..];
    assert s.sends[mid..][1..] == t.sends[t.Committed()..];
    assert s.senders[mid..][1..] == t.senders[t.Committed()..];
    assert s.sends[s.Served()..mid] == [] == t.sends[t.Served()..t.Committed()];
    assert CommittedBetween(s, t) == [Sent(s.senders[mid])];
  }

  // A full buffer with senders behind it.
  lemma TakeRefills<T>(s: Stream<T>, stats: Stats, h: Handle)
    requires s.Valid() && s.Backlog() > 0 && s.capacity > 0 && s.Committed() < |s.sends|
    ensures var r, t := Take(Abs(s, stats)), Request(s, h, 1);
            && t.Valid() && r.chan == Abs(t, r.chan.stats) && r.out == Got(s.sends[|s.requests|])
            && r.wakes == CommittedBetween(s, t)
  {
    var r, t, mid := Take(Abs(s, stats)), Request(s, h, 1), s.Committed();
    assert t.requests[t.Served()..] == [] == s.requests[s.Served()..];
    assert s.sends[mid..][1..] == t.sends[t.Committed()..];
    assert s.senders[mid..][1..] == t.senders[t.Committed()..];
    assert r.chan.buffer == t.sends[t.Served()..t.Committed()];
    assert CommittedBetween(s, t) == [Sent(s.senders[mid])];
  }

  // A buffer with nobody behind it.
  lemma TakeFromBuffer<T>(s: Stream<T>, stats: Stats, h: Handle)
    requires s.Valid() && s.Backlog() > 0 && s.Committed() == |s.sends|
    ensures var r, t := Take(Abs(s, stats)), Request(s, h, 1);
            && t.Valid() && r.chan == Abs(t, r.chan.stats) && r.out == Got(s.sends[|s.requests|])
            && r.wakes == CommittedBetween(s, t)
  {
    var t := Request(s, h, 1);
    assert t.requests[t.Served()..] == [] == s.requests[s.Served()..];
    assert s.sends[s.Served()..|s.sends|][1..] == t.sends[t.Served()..t.Committed()];
    assert CommittedBetween(s, t) == [];
  }

  lemma TakeRefuses<T>(s: Stream<T>, stats: Stats)
    requires s.Valid() && s.Backlog() == 0
    ensures Take(Abs(s, stats)) == Result(Abs(s, stats), Refused, [])
  {
  }

  // Only one of the two lists grows, and requests stay answerable.
  ghost predicate Grows<T>(s: Stream<T>, t: Stream<T>) {
    && s.Valid() && t.Valid() && s.capacity == t.capacity
    && s.sends <= t.sends && s.senders <= t.senders && s.requests <= t.requests
    && (s.requests == t.requests || (s.sends == t.sends && |t.requests| <= |t.sends|))
  }

  // Wake-ups of consecutive accepts, or of consecutive requests, join up.
  lemma WakesCompose<T>(s: Stream<T>, mid: Stream<T>, t: Stream<T>)
    requires Grows(s, mid) && Grows(mid, t) && Grows(s, t)
    ensures WakesOf(s, t) == WakesOf(s, mid) + WakesOf(mid, t)
  {
    if s.requests == t.requests {
      AnswersCompose(s, mid, t);
    } else {
      CommitsCompose(s, mid, t);
    }
  }

  lemma AnswersCompose<T>(s: Stream<T>, mid: Stream<T>, t: Stream<T>)
    requires Grows(s, mid) && Grows(mid, t) && s.requests == t.requests
    ensures WakesOf(s, t) == WakesOf(s, mid) + WakesOf(mid, t)
  {
    hide WakesOf;
    OnlyAnswers(s, mid);
    OnlyAnswers(mid, t);
    OnlyAnswers(s, t);
    assert AnsweredBetween(s, t) == AnsweredBetween(s, mid) + AnsweredBetween(mid, t);
  }

  lemma CommitsCompose<T>(s: Stream<T>, mid: Stream<T>, t: Stream<T>)
    requires Grows(s, mid) && Grows(mid, t) && Grows(s, t) && s.sends == t.sends
    ensures WakesOf(s, t) == WakesOf(s, mid) + WakesOf(mid, t)
  {
    hide WakesOf, SentAll;
    OnlyCommits(s, mid);
    OnlyCommits(mid, t);
    OnlyCommits(s, t);
    assert mid.senders == s.senders;
    var lo, m, hi := |s.requests| + s.capacity, |mid.requests| + s.capacity, |t.requests| + s.capacity;
    var all := |s.sends|;
    if lo < all {
      SentAllJoins<T>(s.senders, lo, Min(all, m), Min(all, hi));
    }
  }

  lemma SentAllJoins<T>(hs: seq<Handle>, lo: nat, m: nat, hi: nat)
    requires lo <= m <= hi <= |hs|
    ensures SentAll<T>(hs[lo..hi]) == SentAll<T>(hs[lo..m]) + SentAll<T>(hs[m..hi])
    ensures SentAll<T>([]) == [] && hs[lo..lo] == [] && hs[hi..hi] == []
  {
  }

  lemma OnlyAnswers<T>(s: Stream<T>, t: Stream<T>)
    requires Grows(s, t) && s.requests == t.requests
    ensures WakesOf(s, t) == AnsweredBetween(s, t)
  {
  }

  lemma OnlyCommits<T>(s: Stream<T>, t: Stream<T>)
    requires Grows(s, t) && s.sends == t.sends
    ensures WakesOf(s, t) == CommittedBetween(s, t)
  {
  }

  lemma MatchesJoin<T>(one: Result<T>, rest: Result<T>, s: Stream<T>, mid: Stream<T>, t: Stream<T>)
    requires s.Valid() && Matches(one, s, mid, one.out) && Matches(rest, mid, t, rest.out)
    requires Grows(s, mid) && Grows(mid, t) && Grows(s, t)
    ensures rest.chan == Abs(t, rest.chan.stats) && one.wakes + rest.wakes == WakesOf(s, t)
  {
    WakesCompose(s, mid, t);
  }

  lemma {:induction false} SendLoopMatches<T>(c: Chan<T>, s: Stream<T>, h: Handle, vs: seq<T>, n: nat)
    requires s.Valid() && c == Abs(s, c.stats) && !s.closed && n == Min(|vs|, s.Room())
    ensures Matches(SendLoop(c, vs), s, Accept(s, h, vs[..n]), SentMany(n))
    decreases |vs|
  {
    hide Abs, Offer, WakesOf;
    if n == 0 {
      SendLoopNothing(c, s, h, vs);
    } else {
      var one, mid := Offer(c, vs[0]), Accept(s, h, [vs[0]]);
      OfferAccepts(s, c.stats, h, vs[0]);
      SendLoopMatches(one.chan, mid, h, vs[1..], n - 1);
      var rest := SendLoop(one.chan, vs[1..]);
      MatchesJoin(one, rest, s, mid, Accept(mid, h, vs[1..][..n - 1]));
      AcceptsJoin(s, h, vs, n);
    }
  }

  lemma SendLoopNothing<T>(c: Chan<T>, s: Stream<T>, h: Handle, vs: seq<T>)
    requires s.Valid() && c == Abs(s, c.stats) && (vs == [] || s.Room() == 0)
    ensures Matches(SendLoop(c, vs), s, Accept(s, h, vs[..0]), SentMany(0))
  {
    if vs != [] { OfferRefuses(s, c.stats, vs[0]); }
    assert Accept(s, h, vs[..0]) == s by {
      assert Accept(s, h, vs[..0]).sends == s.sends && Accept(s, h, vs[..0]).senders == s.senders;
    }
    NothingChanges(s, s);
  }

  lemma AcceptsJoin<T>(s: Stream<T>, h: Handle, vs: seq<T>, n: nat)
    requires 0 < n <= |vs|
    ensures Accept(Accept(s, h, [vs[0]]), h, vs[1..][..n - 1]) == Accept(s, h, vs[..n])
  {
    var twice, once := Accept(Accept(s, h, [vs[0]]), h, vs[1..][..n - 1]), Accept(s, h, vs[..n]);
    assert twice.sends == once.sends && twice.senders == once.senders;
  }

  lemma {:induction false} DrainMatches<T>(c: Chan<T>, s: Stream<T>, h: Handle, m: nat, n: nat)
    requires s.Valid() && c == Abs(s, c.stats) && n == Min(m, s.Backlog())
    ensures Matches(Drain(c, m), s, Request(s, h, n), GotMany(Answers(s, n)))
    decreases m
  {
    hide Abs, Take, WakesOf;
    if n == 0 {
      DrainNothing(c, s, h, m);
    } else {
      var one, mid := Take(c), Request(s, h, 1);
      TakeAnswers(s, c.stats, h);
      DrainMatches(one.chan, mid, h, m - 1, n - 1);
      var rest := Drain(one.chan, m - 1);
      MatchesJoin(one, rest, s, mid, Request(mid, h, n - 1));
      RequestsJoin(s, h, n);
    }
  }

  lemma DrainNothing<T>(c: Chan<T>, s: Stream<T>, h: Handle, m: nat)
    requires s.Valid() && c == Abs(s, c.stats) && (m == 0 || s.Backlog() == 0)
    ensures Matches(Drain(c, m), s, Request(s, h, 0), GotMany(Answers(s, 0)))
    ensures m == 0 || s.Backlog() == 0 ==> Drain(c, m) == Result(c, GotMany([]), [])
  {
    if m > 0 { TakeRefuses(s, c.stats); }
    assert Request(s, h, 0).requests == s.requests;
    NothingChanges(s, s);
  }

  lemma RequestsJoin<T>(s: Stream<T>, h: Handle, n: nat)
    requires 0 < n <= s.Backlog()
    ensures Request(Request(s, h, 1), h, n - 1) == Request(s, h, n)
    ensures [s.sends[|s.requests|]] + Answers(Request(s, h, 1), n - 1) == Answers(s, n)
  {
    assert Request(Request(s, h, 1), h, n - 1).requests == Request(s, h, n).requests;
  }

  lemma CloseMatches<T>(s: Stream<T>, stats: Stats)
    requires s.Valid() && !s.closed
    ensures Matches(Close(Abs(s, stats)), s, Seal(s), Done)
  {
    var c, r, t := Abs(s, stats), Close(Abs(s, stats)), Seal(s);
    assert r.chan.buffer == Abs(t, stats).buffer;
    assert r.wakes == DroppedSends(s, t) + DroppedRequests(s, t);
  }

  lemma NothingChanges<T>(s: Stream<T>, t: Stream<T>)
    requires s.Valid() && s.sends == t.sends && s.requests == t.requests
    ensures WakesOf(s, t) == []
  {
  }

  ghost predicate Refines<T>(s: Stream<T>, stats: Stats, op: Op<T>)
    requires s.Valid()
  {
    && Next(s, op).Valid()
    && Matches(Step(Abs(s, stats), op), s, Next(s, op), OutcomeOf(s, op))
  }

  lemma ParkSender<T>(s: Stream<T>, stats: Stats, h: Handle, v: T)
    requires s.Valid() && !s.closed && s.Room() == 0
    ensures var t := Accept(s, h, [v]);
            && t.Valid()
            && Abs(t, stats) == Abs(s, stats).(senders := Abs(s, stats).senders + [h],
                                               parked := Abs(s, stats).parked + [v])
            && WakesOf(s, t) == []
  {
    hide WakesOf;
    var t := Accept(s, h, [v]);
    OnlyAnswers(s, t);
    assert Abs(t, stats).senders == Abs(s, stats).senders + [h];
    assert Abs(t, stats).parked == Abs(s, stats).parked + [v];
    assert Abs(t, stats).buffer == Abs(s, stats).buffer;
  }

  lemma SendRefines<T>(s: Stream<T>, stats: Stats, h: Handle, v: T)
    requires s.Valid()
    ensures Refines(s, stats, SendOp(h, v))
  {
    hide WakesOf, Offer;
    if s.closed {
      NothingChanges(s, s);
    } else if s.Room() > 0 {
      OfferAccepts(s, stats, h, v);
    } else {
      OfferRefuses(s, stats, v);
      ParkSender(s, stats, h, v);
    }
  }

  lemma TrySendRefines<T>(s: Stream<T>, stats: Stats, h: Handle, v: T)
    requires s.Valid()
    ensures Refines(s, stats, TrySendOp(h, v))
  {
    hide WakesOf, Offer;
    if s.closed || s.Room() == 0 {
      NothingChanges(s, s);
      if s.Room() == 0 { OfferRefuses(s, stats, v); }
    } else {
      OfferAccepts(s, stats, h, v);
    }
  }

  lemma TrySendManyRefines<T>(s: Stream<T>, stats: Stats, h: Handle, vs: seq<T>)
    requires s.Valid()
    ensures Refines(s, stats, TrySendManyOp(h, vs))
  {
    if s.closed {
      NothingChanges(s, s);
    } else {
      SendLoopMatches(Abs(s, stats), s, h, vs, Min(|vs|, s.Room()));
    }
  }

  lemma ReceiveRefines<T>(s: Stream<T>, stats: Stats, h: Handle)
    requires s.Valid()
    ensures Refines(s, stats, ReceiveOp(h))
  {
    if s.Backlog() > 0 {
      TakeAnswers(s, stats, h);
    } else if s.closed {
      NothingChanges(s, s);
    } else {
      var t := Request(s, h, 1);
      TakeRefuses(s, stats);
      assert Abs(t, stats).receivers == Abs(s, stats).receivers + [h];
      assert Abs(t, stats).buffer == Abs(s, stats).buffer;
      assert WakesOf(s, t) == [];
    }
  }

  lemma TryReceiveRefines<T>(s: Stream<T>, stats: Stats, h: Handle)
    requires s.Valid()
    ensures Refines(s, stats, TryReceiveOp(h))
  {
    if s.Backlog() > 0 {
      TakeAnswers(s, stats, h);
    } else {
      TakeRefuses(s, stats);
      assert Request(s, h, 0).requests == s.requests;
      NothingChanges(s, s);
    }
  }

  lemma TryReceiveManyRefines<T>(s: Stream<T>, stats: Stats, h: Handle, m: nat)
    requires s.Valid()
    ensures Refines(s, stats, TryReceiveManyOp(h, m))
  {
    hide WakesOf, Drain;
    if m == 0 || s.Backlog() == 0 {
      DrainNothing(Abs(s, stats), s, h, m);
      assert Request(s, h, 0).requests == s.requests;
    } else {
      DrainMatches(Abs(s, stats), s, h, m, Min(m, s.Backlog()));
    }
  }

  lemma CloseRefines<T>(s: Stream<T>, stats: Stats)
    requires s.Valid()
    ensures Refines(s, stats, CloseOp)
  {
    NothingChanges(s, s);
    if !s.closed { CloseMatches(s, stats); }
  }

  // Main refinement: every operation, on every channel state a stream stands
  // for, gives the state, the result and the wake-ups the stream prescribes.
  lemma StepRefines<T>(s: Stream<T>, stats: Stats, op: Op<T>)
    requires s.Valid()
    ensures Refines(s, stats, op)
  {
    match op
    case SendCallOp => NothingChanges(s, s);
    case SendOp(h, v) => SendRefines(s, stats, h, v);
    case TrySendOp(h, v) => TrySendRefines(s, stats, h, v);
    case TrySendManyOp(h, vs) => TrySendManyRefines(s, stats, h, vs);
    case ReceiveOp(h) => ReceiveRefines(s, stats, h);
    case TryReceiveOp(h) => TryReceiveRefines(s, stats, h);
    case TryReceiveManyOp(h, m) => TryReceiveManyRefines(s, stats, h, m);
    case CloseOp => CloseRefines(s, stats);
  }
}
