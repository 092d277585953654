// include/wait_group.h: a counting barrier over a 32-bit counter.

module WaitGroup {
  import opened Common

  const INT_SPAN: int := 0x1_0000_0000
  const INT_HALF: int := 0x8000_0000

  // The values of an int.
  type Count = x: int | -INT_HALF <= x < INT_HALF

  // The int that x becomes in 32 bits.
  function Int32(x: int): (r: int)
    ensures -0x8000_0000 <= r < 0x8000_0000
  {
    (x + INT_HALF) % INT_SPAN - INT_HALF
  }

  lemma Int32Zero(x: int)
    ensures Int32(x) == 0 <==> x % 0x1_0000_0000 == 0
  {
  }

  lemma Int32Sum(x: int, y: int)
    ensures Int32(Int32(x) + y) == Int32(x + y)
  {
  }

  datatype Group = Group(count: int, queue: seq<Handle>)

  // Awaiter::await_suspend: true is "suspend".
  function Suspend(g: Group, h: Handle): (Group, bool) {
    if g.count == 0 then (g, false) else (g.(queue := g.queue + [h]), true)
  }

  // done(): None is the exception "count is zero", else the resumed handles.
  function Done(g: Group): (Group, Option<seq<Handle>>) {
    if g.count == 0 then (g, None)
    else
      var left := Int32(g.count - 1);
      if left == 0 then (Group(0, []), Some(g.queue)) else (g.(count := left), Some([]))
  }

  // --- Runs ---

  datatype Event = Waits(h: Handle) | Finishes

  function After(g: Group, es: seq<Event>): Group {
    if es == [] then g
    else
      var f := After(g, es[..|es| - 1]);
      match es[|es| - 1]
      case Waits(h) => Suspend(f, h).0
      case Finishes => Done(f).0
  }

  // The coroutines resumed, in order.
  function Woken(g: Group, es: seq<Event>): seq<Handle> {
    if es == [] then []
    else Woken(g, es[..|es| - 1]) + WokenBy(After(g, es[..|es| - 1]), es[|es| - 1])
  }

  function WokenBy(g: Group, e: Event): seq<Handle> {
    if e.Finishes? && Done(g).1.Some? then Done(g).1.value else []
  }

  function Waiters(es: seq<Event>): seq<Handle> {
    if es == [] then []
    else
      var last := es[|es| - 1];
      Waiters(es[..|es| - 1]) + if last.Waits? then [last.h] else []
  }

  lemma {:induction false} WaitersCount(es: seq<Event>)
    ensures |Waiters(es)| == |set i | 0 <= i < |es| && es[i].Waits?|
    decreases |es|
  {
    var there := set i | 0 <= i < |es| && es[i].Waits?;
    if es == [] {
      assert there == {};
    } else {
      var last := |es| - 1;
      WaitersCount(es[..last]);
      assert there == (set i | 0 <= i < last && es[..last][i].Waits?) + if es[last].Waits? then {last} else {};
    }
  }

  lemma {:induction false} WaiterPlaced(es: seq<Event>, i: nat)
    requires i < |es| && es[i].Waits?
    ensures Waiters(es[..i]) + [es[i].h] <= Waiters(es)
    decreases |es|
  {
    var last := |es| - 1;
    if i < last {
      WaiterPlaced(es[..last], i);
      assert es[..last][..i] == es[..i];
    }
  }

  // The callers of wait() in the order of their calls: each stands behind as
  // many as called before it.
  lemma WaitersInOrder(es: seq<Event>)
    ensures |Waiters(es)| == |set i | 0 <= i < |es| && es[i].Waits?|
    ensures forall i :: 0 <= i < |es| && es[i].Waits? ==>
              var n := |set j | 0 <= j < i && es[j].Waits?|;
              n < |Waiters(es)| && Waiters(es)[n] == es[i].h
  {
    hide Waiters;
    WaitersCount(es);
    forall i | 0 <= i < |es| && es[i].Waits?
      ensures var n := |set j | 0 <= j < i && es[j].Waits?|; n < |Waiters(es)| && Waiters(es)[n] == es[i].h
    {
      WaitersCount(es[..i]);
      WaiterPlaced(es, i);
      assert (set j | 0 <= j < i && es[j].Waits?) == set j | 0 <= j < |es[..i]| && es[..i][j].Waits?;
    }
  }

  function Finishing(es: seq<Event>): nat {
    if es == [] then 0 else Finishing(es[..|es| - 1]) + if es[|es| - 1].Finishes? then 1 else 0
  }

  lemma {:induction false} FinishingCounts(es: seq<Event>)
    ensures Finishing(es) == |set i | 0 <= i < |es| && es[i].Finishes?|
    decreases |es|
  {
    var there := set i | 0 <= i < |es| && es[i].Finishes?;
    if es == [] {
      assert there == {};
    } else {
      var last := |es| - 1;
      FinishingCounts(es[..last]);
      assert there == (set i | 0 <= i < last && es[..last][i].Finishes?) + if es[last].Finishes? then {last} else {};
    }
  }

  lemma Next(g: Group, es: seq<Event>, e: Event)
    ensures After(g, es + [e]) == if e.Waits? then Suspend(After(g, es), e.h).0 else Done(After(g, es)).0
    ensures Woken(g, es + [e]) == Woken(g, es) + WokenBy(After(g, es), e)
    ensures Waiters(es + [e]) == Waiters(es) + if e.Waits? then [e.h] else []
    ensures Finishing(es + [e]) == Finishing(es) + if e.Finishes? then 1 else 0
  {
    assert (es + [e])[..|es|] == es;
  }

  // How many calls of done() it takes to reach zero from c: a negative count
  // has to wrap around.
  function ToGo(c: Count): nat { c % 0x1_0000_0000 }

  lemma CountsDown(c: Count, k: nat)
    requires k < ToGo(c)
    ensures Int32(c - k) != 0 && Int32(Int32(c - k) - 1) == Int32(c - (k + 1))
    ensures Int32(c - (k + 1)) == 0 <==> k + 1 == ToGo(c)
  {
    Int32Sum(c - k, -1);
    ZeroAt(c, k);
    ZeroAt(c, k + 1);
  }

  lemma ZeroAt(c: Count, k: nat)
    requires k <= ToGo(c)
    ensures Int32(c - k) == 0 <==> k == ToGo(c)
  {
    Int32Zero(c - k);
    assert c - k == 0x1_0000_0000 * (c / 0x1_0000_0000) + (ToGo(c) - k);
  }

  lemma ToGoIs(c: Count)
    ensures ToGo(c) == if c >= 0 then c else c + 0x1_0000_0000
  {
  }

  lemma StillPositive(c: Count, k: nat)
    requires k < ToGo(c)
    ensures c > 0 ==> Int32(c - k) == c - k
  {
  }

  // Before that nobody is woken and every caller of wait() is parked, in order.
  lemma {:induction false} ShutBefore(c: Count, es: seq<Event>)
    requires Finishing(es) < ToGo(c)
    ensures After(Group(c, []), es) == Group(Int32(c - Finishing(es)), Waiters(es)) && Woken(Group(c, []), es) == []
    decreases |es|
  {
    hide Int32, ToGo, After, Woken, Waiters, Finishing;
    if es == [] {
      NoEvents(c);
    } else {
      var init, e := es[..|es| - 1], es[|es| - 1];
      assert es == init + [e];
      Next(Group(c, []), init, e);
      ShutBefore(c, init);
      CountsDown(c, Finishing(init));
    }
  }

  lemma NoEvents(c: Count)
    ensures After(Group(c, []), []) == Group(c, []) && Woken(Group(c, []), []) == [] && Waiters([]) == []
    ensures Finishing([]) == 0 && Int32(c) == c
  {
  }

  lemma {:induction false} OpenAfter(es: seq<Event>)
    ensures After(Group(0, []), es) == Group(0, []) && Woken(Group(0, []), es) == []
    decreases |es|
  {
    if es != [] { OpenAfter(es[..|es| - 1]); }
  }

  lemma {:induction false} RunOn(g: Group, a: seq<Event>, b: seq<Event>)
    ensures After(g, a + b) == After(After(g, a), b)
    ensures Woken(g, a + b) == Woken(g, a) + Woken(After(g, a), b)
    decreases |b|
  {
    if b == [] {
      assert a + b == a;
    } else {
      hide After, Woken, Done, Suspend, WokenBy;
      var init, e := b[..|b| - 1], b[|b| - 1];
      assert b == init + [e] && a + b == (a + init) + [e];
      RunOn(g, a, init);
      Next(g, a + init, e);
      Next(After(g, a), init, e);
      Regroup(Woken(g, a), Woken(After(g, a), init), WokenBy(After(g, a + init), e));
    }
  }

  lemma OpensAt(c: Count, before: seq<Event>, after: seq<Event>)
    requires Finishing(before) + 1 == ToGo(c)
    ensures var es := (before + [Finishes]) + after;
            After(Group(c, []), es) == Group(0, []) && Woken(Group(c, []), es) == Waiters(before)
  {
    hide After, Woken, Int32, ToGo;
    var g := Group(c, []);
    ShutBefore(c, before);
    CountsDown(c, Finishing(before));
    Next(g, before, Finishes);
    RunOn(g, before + [Finishes], after);
    OpenAfter(after);
  }

  // A group of count c, any count but zero, under any calls of wait() and
  // done(). With n the least number of calls of done() that brings the count
  // to zero (c itself, if positive): before the n-th nobody is woken, the n-th
  // wakes every coroutine parked until then, once and in the order of their
  // calls, and leaves nobody behind; after it wait() does not suspend, and a
  // further done() fails.
  lemma BarrierOpensOnce(c: Count, es: seq<Event>)
    requires c != 0
    ensures var n, done := (if c > 0 then c else c + 0x1_0000_0000), |set i | 0 <= i < |es| && es[i].Finishes?|;
            done < n ==>
              var g := After(Group(c, []), es);
              g.count != 0 && (c > 0 ==> g.count == c - done) && g.queue == Waiters(es) && Woken(Group(c, []), es) == []
    ensures var n := if c > 0 then c else c + 0x1_0000_0000;
            forall k :: 0 <= k < |es| && es[k].Finishes? && |set i | 0 <= i < k && es[i].Finishes?| == n - 1 ==>
              After(Group(c, []), es) == Group(0, []) && Woken(Group(c, []), es) == Waiters(es[..k])
  {
    hide After, Woken, Waiters, Finishing, Int32, ToGo;
    ToGoIs(c);
    FinishingCounts(es);
    if Finishing(es) < ToGo(c) {
      ShutBefore(c, es);
      CountsDown(c, Finishing(es));
      StillPositive(c, Finishing(es));
    }
    forall k | 0 <= k < |es| && es[k].Finishes? && |set i | 0 <= i < k && es[i].Finishes?| == ToGo(c) - 1
      ensures After(Group(c, []), es) == Group(0, []) && Woken(Group(c, []), es) == Waiters(es[..k])
    {
      FinishingUpTo(es, k);
      assert es == (es[..k] + [Finishes]) + es[k + 1..];
      OpensAt(c, es[..k], es[k + 1..]);
    }
  }

  lemma FinishingUpTo(es: seq<Event>, k: nat)
    requires k <= |es|
    ensures Finishing(es[..k]) == |set i | 0 <= i < k && es[i].Finishes?|
  {
    FinishingCounts(es[..k]);
    assert (set i | 0 <= i < k && es[i].Finishes?) == set i | 0 <= i < |es[..k]| && es[..k][i].Finishes?;
  }

  class WaitGroup {
    var count: Count
    var waitQueue: seq<Handle>

    function State(): Group
      reads this
    {
      Group(count, waitQueue)
    }

    constructor ()
      ensures State() == Group(0, [])
    {
      count, waitQueue := 0, [];
    }

    // Awaiter::await_ready, outside the lock.
    method Ready() returns (ready: bool)
      ensures ready <==> count == 0
    {
      ready := count == 0;
    }

    method AwaitSuspend(h: Handle) returns (suspend: bool)
      modifies this
      ensures (State(), suspend) == Suspend(old(State()), h)
      ensures suspend == (old(count) != 0) && count == old(count)
      ensures waitQueue == old(waitQueue) + if suspend then [h] else []
    {
      if count == 0 { return false; }
      waitQueue := waitQueue + [h];
      suspend := true;
    }

    // A negative n can bring the count to zero, and still wakes nobody.
    method Add(n: int)
      modifies `count
      ensures count == Int32(old(count) + n)
    {
      count := Int32(count + n);
    }

    method Finish() returns (resume: Option<seq<Handle>>)
      modifies this
      ensures (State(), resume) == Done(old(State()))
      ensures resume == None <==> old(count) == 0
      ensures old(count) == 1 ==> resume == Some(old(waitQueue)) && waitQueue == [] && count == 0
      ensures old(count) != 1 ==> waitQueue == old(waitQueue) && (old(count) != 0 ==> resume == Some([]))
    {
      if count == 0 { return None; }
      var handles: seq<Handle> := [];
      count := Int32(count - 1);
      if count == 0 {
        while waitQueue != []
          modifies `waitQueue
          invariant handles + waitQueue == old(waitQueue)
          decreases |waitQueue|
        {
          handles := handles + [waitQueue[0]];
          waitQueue := waitQueue[1..];
        }
        assert handles == handles + waitQueue;
      }
      resume := Some(handles);
    }
  }
}
