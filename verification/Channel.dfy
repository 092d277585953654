// include/channel.h as a class: the ring buffer, the two queues of awaiter
// objects, and one method per entry point. Each method is the locked region of
// its entry point; the handles it resumes after unlocking are an out-parameter.

module Channel {
  import opened Common
  import Spec = ChannelSpec
  import Runs = ChannelRuns
  import Statistics = ChannelStats

  function Mod64(n: nat): nat { n % WORD }

  // stats_add: an unsigned 64-bit fetch_add.
  function StatsAdd(counter: nat, delta: nat): nat { Mod64(counter + delta) }

  function Wrap(t: Spec.Stats): Spec.Stats {
    Spec.Stats(Mod64(t.pushes), Mod64(t.pops), Mod64(t.handoffs), Mod64(t.senderWaits), Mod64(t.receiverWaits),
               Mod64(t.fullFailures), Mod64(t.emptyReturns), Mod64(t.closedFailures),
               Mod64(t.closeCalls), Mod64(t.wokenSenders), Mod64(t.wokenReceivers))
  }

  lemma StatsAddWraps()
    ensures forall t: nat, d: nat :: StatsAdd(Mod64(t), d) == Mod64(t + d)
  {
  }

  // The slot of the i-th value of a window that starts at header.
  function Slot(header: nat, i: nat, capacity: nat): nat
  {
    if header + i < capacity then header + i else Excess(header + i, capacity)
  }

  lemma SlotIsModulo(header: nat, i: nat, capacity: nat)
    requires header < capacity && i <= capacity
    ensures Slot(header, i, capacity) == (header + i) % capacity
  {
    if header + i < capacity {
      assert (header + i) % capacity == header + i;
    } else {
      ModuloOnce(header + i, capacity);
    }
  }

  lemma ModuloOnce(n: nat, m: nat)
    requires 0 < m <= n < 2 * m
    ensures n % m == n - m
  {
    assert n == m * 1 + (n - m);
  }

  // The n values from slot header on, around the ring.
  ghost function WindowOf<T>(slots: seq<Option<T>>, header: nat, n: nat): seq<T>
    requires header + n <= 2 * |slots|
    requires forall i :: 0 <= i < n ==> slots[Slot(header, i, |slots|)].Some?
  {
    seq(n, i requires 0 <= i < n => slots[Slot(header, i, |slots|)].value)
  }

  ghost function ValuesIn<T>(q: seq<Waiter<SenderAwaiter<T>>>): (vs: seq<T>)
    reads Awaiters(q)
    ensures |vs| == |q| && forall i :: 0 <= i < |q| ==> vs[i] == q[i].awaiter.value
  {
    if q == [] then [] else [q[0].awaiter.value] + ValuesIn(q[1..])
  }

  // The awaiters left in a queue are none of those already taken off it.
  lemma SuffixAwaiters<A>(q: seq<Waiter<A>>, n: nat)
    requires n <= |q| && Distinct(q)
    ensures Awaiters(q[n..]) <= Awaiters(q)
    ensures forall i :: 0 <= i < n ==> q[i].awaiter !in Awaiters(q[n..])
  {
  }

  class SenderAwaiter<T> {
    var value: T
    var close: bool

    constructor (value: T)
      ensures this.value == value && !close
    {
      this.value, close := value, false;
    }
  }

  class ReceiverAwaiter<T> {
    var value: Option<T>

    constructor ()
      ensures value == None
    {
      value := None;
    }
  }

  datatype Waiter<A> = Waiter(handle: Handle, awaiter: A)

  function WaitingHandles<A>(q: seq<Waiter<A>>): seq<Handle> {
    seq(|q|, i requires 0 <= i < |q| => q[i].handle)
  }

  ghost predicate Distinct<A>(q: seq<Waiter<A>>) {
    forall i, j :: 0 <= i < j < |q| ==> q[i].awaiter != q[j].awaiter
  }

  ghost function Awaiters<A>(q: seq<Waiter<A>>): set<A> {
    set w | w in q :: w.awaiter
  }

  // Part way through try_send_many: n items are sent and c is what remains to
  // be done from.
  ghost predicate Sending<T>(start: Spec.Chan<T>, items: seq<T>, n: nat, c: Spec.Chan<T>, wakes: seq<Spec.Wake<T>>) {
    && n <= |items|
    && var rest := Spec.SendLoop(c, items[n..]);
       Spec.SendLoop(start, items) == Spec.Result(rest.chan, Spec.SentMany(n + rest.out.sent), wakes + rest.wakes)
  }

  lemma SendingStart<T>(start: Spec.Chan<T>, items: seq<T>)
    ensures Sending(start, items, 0, start, [])
  {
    assert items[0..] == items;
  }

  lemma SendingOne<T>(start: Spec.Chan<T>, items: seq<T>, n: nat, c: Spec.Chan<T>, wakes: seq<Spec.Wake<T>>)
    requires Sending(start, items, n, c, wakes) && n < |items| && Spec.Offer(c, items[n]).out.Done?
    ensures var one := Spec.Offer(c, items[n]); Sending(start, items, n + 1, one.chan, wakes + one.wakes)
  {
    assert items[n..][1..] == items[n + 1..];
    var one := Spec.Offer(c, items[n]);
    var rest := Spec.SendLoop(one.chan, items[n + 1..]);
    assert wakes + (one.wakes + rest.wakes) == wakes + one.wakes + rest.wakes;
  }

  lemma SendingStops<T>(start: Spec.Chan<T>, items: seq<T>, n: nat, c: Spec.Chan<T>, wakes: seq<Spec.Wake<T>>)
    requires Sending(start, items, n, c, wakes)
    requires n < |items| ==> !Spec.Offer(c, items[n]).out.Done?
    ensures var full := c.stats.fullFailures + (if n < |items| then 1 else 0);
            Spec.SendLoop(start, items) ==
              Spec.Result(c.(stats := c.stats.(fullFailures := full)), Spec.SentMany(n), wakes)
  {
    var nothing: seq<Spec.Wake<T>> := [];
    assert wakes + nothing == wakes;
  }

  // Part way through try_receive_many: values are taken and c is what remains
  // to be taken from.
  ghost predicate Draining<T>(start: Spec.Chan<T>, m: nat, values: seq<T>, c: Spec.Chan<T>, wakes: seq<Spec.Wake<T>>)
    requires start.Paired() && c.Paired()
  {
    && |values| <= m
    && var rest := Spec.Drain(c, m - |values|);
       Spec.Drain(start, m) == Spec.Result(rest.chan, Spec.GotMany(values + rest.out.values), wakes + rest.wakes)
  }

  lemma DrainingStart<T>(start: Spec.Chan<T>, m: nat)
    requires start.Paired()
    ensures Draining(start, m, [], start, [])
  {
  }

  lemma DrainingOne<T>(start: Spec.Chan<T>, m: nat, values: seq<T>, c: Spec.Chan<T>, wakes: seq<Spec.Wake<T>>)
    requires start.Paired() && c.Paired()
    requires Draining(start, m, values, c, wakes) && |values| < m && Spec.Take(c).out.Got?
    ensures var one := Spec.Take(c); Draining(start, m, values + [one.out.value], one.chan, wakes + one.wakes)
  {
    hide Spec.Take;
    var one := Spec.Take(c);
    var rest := Spec.Drain(one.chan, m - |values| - 1);
    assert wakes + (one.wakes + rest.wakes) == wakes + one.wakes + rest.wakes;
    assert values + ([one.out.value] + rest.out.values) == values + [one.out.value] + rest.out.values;
  }

  lemma DrainingStops<T>(start: Spec.Chan<T>, m: nat, values: seq<T>, c: Spec.Chan<T>, wakes: seq<Spec.Wake<T>>)
    requires start.Paired() && c.Paired()
    requires Draining(start, m, values, c, wakes)
    requires |values| < m ==> !Spec.Take(c).out.Got?
    ensures Spec.Drain(start, m) == Spec.Result(c, Spec.GotMany(values), wakes)
  {
    var nothing: seq<Spec.Wake<T>> := [];
    var none: seq<T> := [];
    assert wakes + nothing == wakes && values + none == values;
  }

  lemma DrainedNothing<T>(c: Spec.Chan<T>, m: nat)
    requires c.Paired() && m > 0 && Spec.Drain(c, m).out.values == []
    ensures Spec.Drain(c, m) == Spec.Result(c, Spec.GotMany([]), [])
  {
  }

  lemma NoHandles<T>()
    ensures Runs.Handles<T>([]) == []
  {
  }

  lemma HandlesJoin<T>(a: seq<Spec.Wake<T>>, b: seq<Spec.Wake<T>>)
    ensures Runs.Handles(a + b) == Runs.Handles(a) + Runs.Handles(b)
  {
  }

  lemma SendCases<T>(c: Spec.Chan<T>, h: Handle, v: T)
    requires Runs.Shape(c)
    ensures Runs.Handles<T>([]) == []
    ensures !c.closed && Spec.Offer(c, v).out == Spec.Refused ==> |c.buffer| == c.capacity && c.receivers == []
  {
  }

  lemma ParkedLast<T>(q: seq<Waiter<SenderAwaiter<T>>>, w: Waiter<SenderAwaiter<T>>)
    ensures ValuesIn(q + [w]) == ValuesIn(q) + [w.awaiter.value]
  {
  }

  lemma ReceiveShapes<T>(c: Spec.Chan<T>, h: Handle)
    requires Runs.Shape(c)
    ensures Runs.Shape(Spec.ReceiveSuspend(c, h).chan)
    ensures Runs.Handles<T>([]) == []
    ensures Spec.Take(c).out.Got? || Spec.Take(c).out == Spec.Refused
  {
  }

  lemma TakeOfBuffered<T>(c: Spec.Chan<T>)
    requires Runs.Shape(c) && c.buffer != []
    ensures var r, popped := Spec.Take(c), c.(buffer := c.buffer[1..], stats := c.stats.(pops := c.stats.pops + 1));
            && Runs.Shape(r.chan) && r.out == Spec.Got(c.buffer[0])
            && (c.senders == [] ==> r.chan == popped && Runs.Handles(r.wakes) == [])
            && (c.senders != [] ==>
                  && r.chan == popped.(buffer := popped.buffer + [c.parked[0]],
                                       senders := c.senders[1..], parked := c.parked[1..],
                                       stats := popped.stats.(pushes := popped.stats.pushes + 1))
                  && Runs.Handles(r.wakes) == [c.senders[0]])
    ensures c.senders != [] ==> |c.buffer| == c.capacity
  {
  }

  lemma CloseWakes<T>(c: Spec.Chan<T>)
    ensures Runs.Handles(Spec.Close(c).wakes) == if c.closed then [] else c.senders + c.receivers
  {
  }

  class Channel<T> {
    const capacity: nat
    const buffer: array<Option<T>>
    var header: nat
    var tail: nat
    var count: nat
    var close: bool
    var senderQueue: seq<Waiter<SenderAwaiter<T>>>
    var receiverQueue: seq<Waiter<ReceiverAwaiter<T>>>
    var stats: Spec.Stats
    ghost var total: Spec.Stats

    // --- The ring ---

    ghost predicate RingValid()
      reads `header, `tail, `count, buffer
    {
      && buffer.Length == capacity && count <= capacity
      && (capacity == 0 ==> header == tail == 0)
      && (capacity > 0 ==> header < capacity && tail == Slot(header, count, capacity))
      && (forall i :: 0 <= i < capacity ==> (buffer[Slot(header, i, capacity)].Some? <==> i < count))
    }

    ghost function Window(): (w: seq<T>)
      requires RingValid()
      reads `header, `tail, `count, buffer
      ensures |w| == count <= capacity
    {
      WindowOf(buffer[..], header, count)
    }

    method PushBack(v: T)
      requires RingValid() && count < capacity
      modifies this`tail, this`count, buffer
      ensures RingValid()
      ensures Window() == old(Window()) + [v]
    {
      buffer[tail] := Some(v);
      SlotIsModulo(tail, 1, capacity);
      tail := (tail + 1) % capacity;
      count := count + 1;
    }

    method PopFront() returns (v: T)
      requires RingValid() && count > 0
      modifies this`header, this`count, buffer
      ensures RingValid()
      ensures old(Window()) == [v] + Window()
    {
      assert Slot(header, 0, capacity) == header;
      v := buffer[header].value;
      buffer[header] := None;
      SlotIsModulo(header, 1, capacity);
      ghost var h0 := header;
      header := (header + 1) % capacity;
      count := count - 1;
      assert forall i :: 0 <= i < capacity - 1 ==> Slot(header, i, capacity) == Slot(h0, i + 1, capacity);
      assert Slot(header, capacity - 1, capacity) == h0;
    }

    // --- The whole object ---

    ghost function ParkedValues(): seq<T>
      reads `senderQueue, Awaiters(senderQueue)
    {
      ValuesIn(senderQueue)
    }

    ghost function State(): Spec.Chan<T>
      requires RingValid()
      reads this, buffer, Awaiters(senderQueue)
    {
      Spec.Chan(capacity, close, Window(), WaitingHandles(senderQueue), ParkedValues(),
                WaitingHandles(receiverQueue), total)
    }

    ghost predicate QueuesValid()
      reads `senderQueue, `receiverQueue, Awaiters(senderQueue), Awaiters(receiverQueue)
    {
      && Distinct(senderQueue) && Distinct(receiverQueue)
      && (forall i :: 0 <= i < |senderQueue| ==> !senderQueue[i].awaiter.close)
      && (forall i :: 0 <= i < |receiverQueue| ==> receiverQueue[i].awaiter.value == None)
    }

    // The object is consistent in every method; its counters obey the
    // conservation laws between the calls.
    ghost predicate Consistent()
      reads this, buffer, Awaiters(senderQueue), Awaiters(receiverQueue)
    {
      && RingValid() && QueuesValid() && stats == Wrap(total) && Runs.Shape(State())
    }

    ghost predicate Valid()
      reads this, buffer, Awaiters(senderQueue), Awaiters(receiverQueue)
    {
      Consistent() && Statistics.Conserved(State())
    }

    lemma IsShaped()
      requires Consistent()
      ensures RingValid() && Runs.Shape(State())
      ensures |State().buffer| == count && State().closed == close && State().capacity == capacity
      ensures |State().senders| == |senderQueue| && |State().receivers| == |receiverQueue|
    {
    }

    // Each 64-bit counter is its event count modulo 2^64.
    lemma CountersWrap()
      requires Consistent()
      ensures stats.pushes == total.pushes % 0x1_0000_0000_0000_0000
      ensures stats.pops == total.pops % 0x1_0000_0000_0000_0000
      ensures stats.handoffs == total.handoffs % 0x1_0000_0000_0000_0000
      ensures stats.senderWaits == total.senderWaits % 0x1_0000_0000_0000_0000
      ensures stats.receiverWaits == total.receiverWaits % 0x1_0000_0000_0000_0000
      ensures stats.fullFailures == total.fullFailures % 0x1_0000_0000_0000_0000
      ensures stats.emptyReturns == total.emptyReturns % 0x1_0000_0000_0000_0000
      ensures stats.closedFailures == total.closedFailures % 0x1_0000_0000_0000_0000
      ensures stats.closeCalls == total.closeCalls % 0x1_0000_0000_0000_0000
      ensures stats.wokenSenders == total.wokenSenders % 0x1_0000_0000_0000_0000
      ensures stats.wokenReceivers == total.wokenReceivers % 0x1_0000_0000_0000_0000
      ensures State().stats == total
    {
    }

    // The laws as the 64-bit counters of the object obey them.
    lemma CountersLaw()
      requires Valid()
      ensures stats.pushes == (stats.pops + count) % 0x1_0000_0000_0000_0000
      ensures capacity > 0 ==>
                stats.receiverWaits == (|receiverQueue| + stats.handoffs + stats.wokenReceivers) % 0x1_0000_0000_0000_0000
      ensures capacity == 0 ==>
                (stats.senderWaits + stats.receiverWaits
                 - stats.handoffs - |senderQueue| - |receiverQueue| - stats.wokenSenders - stats.wokenReceivers)
                % 0x1_0000_0000_0000_0000 == 0
    {
      hide Statistics.Conserved;
      CountersConserve(State());
    }

    constructor Rendezvous()
      ensures Valid() && State() == Spec.Fresh(0) && capacity == 0 && count == 0 && !close
      ensures fresh(buffer)
    {
      capacity, header, tail, count, close := 0, 0, 0, 0, false;
      buffer := new Option<T>[0];
      senderQueue, receiverQueue := [], [];
      stats, total := Spec.NO_STATS, Spec.NO_STATS;
    }

    constructor Sized(capacity: nat)
      requires capacity > 0
      ensures Valid() && State() == Spec.Fresh(capacity) && this.capacity == capacity && count == 0 && !close
      ensures fresh(buffer)
    {
      this.capacity, header, tail, count, close := capacity, 0, 0, 0, false;
      buffer := new Option<T>[capacity](_ => None);
      senderQueue, receiverQueue := [], [];
      stats, total := Spec.NO_STATS, Spec.NO_STATS;
    }

    // The explicit constructor: None stands for std::invalid_argument.
    static method Make(capacity: nat) returns (r: Option<Channel<T>>)
      ensures r.None? <==> capacity == 0
      ensures r.Some? ==>
                && fresh(r.value) && fresh(r.value.buffer) && r.value.Valid() && r.value.State() == Spec.Fresh(capacity)
                && r.value.capacity == capacity && r.value.count == 0 && !r.value.close
    {
      if capacity == 0 { return None; }
      var c := new Channel<T>.Sized(capacity);
      r := Some(c);
    }

    // --- stats_add on each counter ---

    method CountPush()
      requires stats == Wrap(total)
      modifies `stats, `total
      ensures stats == Wrap(total) && total == old(total).(pushes := old(total).pushes + 1)
    {
      StatsAddWraps();
      stats, total := stats.(pushes := StatsAdd(stats.pushes, 1)), total.(pushes := total.pushes + 1);
    }

    method CountPop()
      requires stats == Wrap(total)
      modifies `stats, `total
      ensures stats == Wrap(total) && total == old(total).(pops := old(total).pops + 1)
    {
      StatsAddWraps();
      stats, total := stats.(pops := StatsAdd(stats.pops, 1)), total.(pops := total.pops + 1);
    }

    method CountHandoff()
      requires stats == Wrap(total)
      modifies `stats, `total
      ensures stats == Wrap(total) && total == old(total).(handoffs := old(total).handoffs + 1)
    {
      StatsAddWraps();
      stats, total := stats.(handoffs := StatsAdd(stats.handoffs, 1)), total.(handoffs := total.handoffs + 1);
    }

    method CountSenderWait()
      requires stats == Wrap(total)
      modifies `stats, `total
      ensures stats == Wrap(total) && total == old(total).(senderWaits := old(total).senderWaits + 1)
    {
      StatsAddWraps();
      stats, total := stats.(senderWaits := StatsAdd(stats.senderWaits, 1)), total.(senderWaits := total.senderWaits + 1);
    }

    method CountReceiverWait()
      requires stats == Wrap(total)
      modifies `stats, `total
      ensures stats == Wrap(total) && total == old(total).(receiverWaits := old(total).receiverWaits + 1)
    {
      StatsAddWraps();
      stats, total := stats.(receiverWaits := StatsAdd(stats.receiverWaits, 1)), total.(receiverWaits := total.receiverWaits + 1);
    }

    method CountCloseCall()
      requires stats == Wrap(total)
      modifies `stats, `total
      ensures stats == Wrap(total) && total == old(total).(closeCalls := old(total).closeCalls + 1)
    {
      StatsAddWraps();
      stats, total := stats.(closeCalls := StatsAdd(stats.closeCalls, 1)), total.(closeCalls := total.closeCalls + 1);
    }

    method CountClose(senders: nat, receivers: nat)
      requires stats == Wrap(total)
      modifies `stats, `total
      ensures stats == Wrap(total)
      ensures total == old(total).(wokenSenders := old(total).wokenSenders + senders,
                                   wokenReceivers := old(total).wokenReceivers + receivers)
    {
      StatsAddWraps();
      stats := stats.(wokenSenders := StatsAdd(stats.wokenSenders, senders),
                      wokenReceivers := StatsAdd(stats.wokenReceivers, receivers));
      total := total.(wokenSenders := total.wokenSenders + senders,
                      wokenReceivers := total.wokenReceivers + receivers);
    }

    // --- Accepting a value ---

    // The receiver that gets v directly, the buffer, or neither.
    method Offer(v: T) returns (done: bool, resume: seq<Handle>)
      requires Consistent()
      modifies this, buffer, Awaiters(receiverQueue)
      ensures Consistent()
      ensures var r := Spec.Offer(old(State()), v);
              State() == r.chan && done == r.out.Done? && resume == Runs.Handles(r.wakes)
      ensures !done ==> State() == old(State()) && receiverQueue == [] && count == capacity
      ensures resume == if old(receiverQueue) == [] then [] else [old(receiverQueue[0]).handle]
      ensures senderQueue == old(senderQueue)
      ensures receiverQueue == old(receiverQueue)[|resume|..]
      ensures old(receiverQueue) != [] ==> old(receiverQueue[0]).awaiter.value == Some(v)
    {
      hide RingValid, Window, ValuesIn, Wrap;
      ghost var s0 := State();
      if receiverQueue != [] {
        var front := receiverQueue[0];
        receiverQueue := receiverQueue[1..];
        front.awaiter.value := Some(v);
        CountHandoff();
        done, resume := true, [front.handle];
        assert WaitingHandles(receiverQueue) == s0.receivers[1..];
      } else if count != capacity {
        PushBack(v);
        CountPush();
        done, resume := true, [];
      } else {
        done, resume := false, [];
      }
      assert ParkedValues() == s0.parked;
    }

    method FailClosed()
      requires Consistent()
      modifies this`stats, this`total
      ensures Consistent() && State() == Spec.FailClosed(old(State())).chan
    {
      StatsAddWraps();
      stats := stats.(closedFailures := StatsAdd(stats.closedFailures, 1));
      total := total.(closedFailures := total.closedFailures + 1);
    }

    method FailFull()
      requires Consistent()
      modifies this`stats, this`total
      ensures Consistent()
      ensures State() == old(State()).(stats := old(total).(fullFailures := old(total).fullFailures + 1))
    {
      StatsAddWraps();
      stats := stats.(fullFailures := StatsAdd(stats.fullFailures, 1));
      total := total.(fullFailures := total.fullFailures + 1);
    }

    // send(): the early check before the awaiter is built.
    method SendCall() returns (out: Spec.Outcome<T>)
      requires Valid()
      modifies this`stats, this`total
      ensures Valid()
      ensures State() == Spec.SendCall(old(State())).chan && out == Spec.SendCall(old(State())).out
    {
      hide Statistics.Conserved;
      Statistics.SendCallConserves(State());
      if close {
        FailClosed();
        out := Spec.Closed;
      } else {
        out := Spec.Done;
      }
    }

    // The buffer is full: the sender joins the queue with its value.
    method ParkSender(handle: Handle, awaiter: SenderAwaiter<T>)
      requires Consistent() && awaiter !in Awaiters(senderQueue) && !awaiter.close
      requires !close && count == capacity && receiverQueue == []
      modifies `senderQueue, `stats, `total
      ensures Consistent() && senderQueue == old(senderQueue) + [Waiter(handle, awaiter)]
      ensures var c := old(State());
              State() == c.(senders := c.senders + [handle], parked := c.parked + [awaiter.value],
                            stats := c.stats.(senderWaits := c.stats.senderWaits + 1))
    {
      hide RingValid, Window, ValuesIn, Wrap;
      ghost var s0, queue0 := State(), senderQueue;
      senderQueue := senderQueue + [Waiter(handle, awaiter)];
      CountSenderWait();
      assert WaitingHandles(senderQueue) == s0.senders + [handle];
      ParkedLast(queue0, Waiter(handle, awaiter));
    }

    // SenderAwaiter::await_suspend under the lock.
    method SendLocked(handle: Handle, awaiter: SenderAwaiter<T>) returns (suspend: bool, resume: seq<Handle>)
      requires Consistent() && awaiter !in Awaiters(senderQueue) && !awaiter.close
      modifies this, buffer, Awaiters(receiverQueue), awaiter`close
      ensures Consistent()
      ensures var r := Spec.SendSuspend(old(State()), handle, awaiter.value);
              && State() == r.chan && resume == Runs.Handles(r.wakes)
              && suspend == r.out.Suspended? && awaiter.close == r.out.Closed?
      ensures senderQueue == old(senderQueue) + if suspend then [Waiter(handle, awaiter)] else []
      ensures receiverQueue == old(receiverQueue)[|resume|..]
      ensures resume != [] ==> old(receiverQueue[0]).awaiter.value == Some(awaiter.value)
    {
      hide RingValid, Window, ValuesIn, Wrap, Runs.Handles;
      SendCases(State(), handle, awaiter.value);
      suspend, resume := false, [];
      if close {
        awaiter.close := true;
        FailClosed();
      } else {
        var done;
        done, resume := Offer(awaiter.value);
        if !done {
          ParkSender(handle, awaiter);
          suspend := true;
        }
      }
    }

    // SenderAwaiter::await_suspend. The awaiter is this call's own: it is not
    // in the queue, and nobody has closed it.
    method SendSuspend(handle: Handle, awaiter: SenderAwaiter<T>) returns (suspend: bool, resume: seq<Handle>)
      requires Valid() && awaiter !in Awaiters(senderQueue) && !awaiter.close
      modifies this, buffer, Awaiters(receiverQueue), awaiter`close
      ensures Valid()
      ensures var r := Spec.SendSuspend(old(State()), handle, awaiter.value);
              && State() == r.chan && resume == Runs.Handles(r.wakes)
              && suspend == r.out.Suspended? && awaiter.close == r.out.Closed?
      ensures senderQueue == old(senderQueue) + if suspend then [Waiter(handle, awaiter)] else []
      ensures receiverQueue == old(receiverQueue)[|resume|..]
      ensures resume != [] ==> old(receiverQueue[0]).awaiter.value == Some(awaiter.value)
    {
      hide Statistics.Conserved, Consistent, State, Spec.SendSuspend, Runs.Handles, Awaiters;
      IsShaped();
      Statistics.SendConserves(State(), handle, awaiter.value);
      suspend, resume := SendLocked(handle, awaiter);
    }

    method TrySend(v: T) returns (out: Spec.Outcome<T>, resume: seq<Handle>)
      requires Valid()
      modifies this, buffer, Awaiters(receiverQueue)
      ensures Valid()
      ensures var r := Spec.TrySend(old(State()), v);
              State() == r.chan && out == r.out && resume == Runs.Handles(r.wakes)
      ensures senderQueue == old(senderQueue) && receiverQueue == old(receiverQueue)[|resume|..]
      ensures resume != [] ==> old(receiverQueue[0]).awaiter.value == Some(v)
    {
      hide Statistics.Conserved;
      Statistics.TrySendConserves(State(), v);
      resume := [];
      if close {
        FailClosed();
        return Spec.Closed, [];
      }
      var done;
      done, resume := Offer(v);
      if done {
        out := Spec.Done;
      } else {
        FailFull();
        out := Spec.Refused;
      }
    }

    // The loop of try_send_many.
    method SendItems(items: seq<T>) returns (sent: nat, resume: seq<Handle>)
      requires Consistent()
      modifies this, buffer, Awaiters(receiverQueue)
      ensures Consistent()
      ensures var r := Spec.SendLoop(old(State()), items);
              State() == r.chan && sent == r.out.sent && resume == Runs.Handles(r.wakes)
      ensures senderQueue == old(senderQueue)
      ensures |resume| <= |old(receiverQueue)| && |resume| <= |items|
      ensures receiverQueue == old(receiverQueue)[|resume|..]
      ensures forall k :: 0 <= k < |resume| ==> old(receiverQueue)[k].awaiter.value == Some(items[k])
    {
      hide Sending, Spec.Offer, Spec.SendLoop, Runs.Shape, Runs.Handles, RingValid, Window, ValuesIn, Wrap;
      NoHandles<T>();
      ghost var s0 := State();
      ghost var queue0 := receiverQueue;
      ghost var wakes: seq<Spec.Wake<T>> := [];
      sent, resume := 0, [];
      SendingStart(s0, items);
      while sent < |items|
        invariant Consistent() && senderQueue == old(senderQueue)
        invariant sent <= |items| && |resume| <= |queue0| && |resume| <= sent
        invariant receiverQueue == queue0[|resume|..]
        invariant receiverQueue != [] ==> |resume| == sent
        invariant forall k :: 0 <= k < |resume| ==> queue0[k].awaiter.value == Some(items[k])
        invariant resume == Runs.Handles(wakes)
        invariant Sending(s0, items, sent, State(), wakes)
      {
        ghost var here := State();
        ghost var one := Spec.Offer(here, items[sent]);
        SuffixAwaiters(queue0, |resume|);
        var done, woken := Offer(items[sent]);
        if !done { break; }
        SendingOne(s0, items, sent, here, wakes);
        HandlesJoin(wakes, one.wakes);
        resume := resume + woken;
        wakes := wakes + one.wakes;
        sent := sent + 1;
      }
      SendingStops(s0, items, sent, State(), wakes);
      if sent < |items| {
        FailFull();
      }
    }

    method TrySendMany(items: seq<T>) returns (out: Spec.Outcome<T>, resume: seq<Handle>)
      requires Valid()
      modifies this, buffer, Awaiters(receiverQueue)
      ensures Valid()
      ensures var r := Spec.TrySendMany(old(State()), items);
              State() == r.chan && out == r.out && resume == Runs.Handles(r.wakes)
      ensures senderQueue == old(senderQueue)
      ensures |resume| <= |old(receiverQueue)| && |resume| <= |items|
      ensures receiverQueue == old(receiverQueue)[|resume|..]
      ensures forall k :: 0 <= k < |resume| ==> old(receiverQueue)[k].awaiter.value == Some(items[k])
    {
      hide Statistics.Conserved;
      Statistics.TrySendManyConserves(State(), items);
      hide Spec.SendLoop, Runs.Shape, Wrap;
      resume := [];
      if items == [] {
        out := Spec.SentMany(0);
      } else if close {
        FailClosed();
        out := Spec.Closed;
      } else {
        var sent;
        sent, resume := SendItems(items);
        out := Spec.SentMany(sent);
      }
    }

    // --- Taking a value ---

    method UnparkSender() returns (v: T, resume: seq<Handle>)
      requires QueuesValid() && senderQueue != []
      modifies `senderQueue
      ensures QueuesValid()
      ensures senderQueue == old(senderQueue)[1..] && resume == [old(senderQueue)[0].handle]
      ensures WaitingHandles(senderQueue) == WaitingHandles(old(senderQueue))[1..]
      ensures old(ParkedValues()) == [v] + ParkedValues()
    {
      var sender := senderQueue[0];
      senderQueue := senderQueue[1..];
      v, resume := sender.awaiter.value, [sender.handle];
    }

    // A place has become free: the first parked sender's value goes there.
    method Refill() returns (resume: seq<Handle>)
      requires RingValid() && QueuesValid() && stats == Wrap(total) && count < capacity
      modifies `tail, `count, `senderQueue, `stats, `total, buffer
      ensures RingValid() && QueuesValid() && stats == Wrap(total)
      ensures old(senderQueue) == [] ==>
                && Window() == old(Window()) && total == old(total) && resume == []
                && ParkedValues() == old(ParkedValues()) && senderQueue == []
      ensures old(senderQueue) != [] ==>
                && count == old(count) + 1 && |old(ParkedValues())| > 0
                && Window() == old(Window()) + [old(ParkedValues())[0]]
                && ParkedValues() == old(ParkedValues())[1..]
                && senderQueue == old(senderQueue)[1..] && resume == [old(senderQueue)[0].handle]
                && WaitingHandles(senderQueue) == WaitingHandles(old(senderQueue))[1..]
                && total == old(total).(pushes := old(total).pushes + 1)
    {
      hide RingValid, Window, ValuesIn, Wrap;
      resume := [];
      if senderQueue != [] {
        var parked;
        parked, resume := UnparkSender();
        PushBack(parked);
        CountPush();
      }
    }

    // The front of the buffer, refilled from the first parked sender.
    method TakeBuffered() returns (v: T, resume: seq<Handle>)
      requires Consistent() && count > 0
      modifies `header, `tail, `count, `senderQueue, `stats, `total, buffer
      ensures Consistent()
      ensures var r := Spec.Take(old(State()));
              State() == r.chan && resume == Runs.Handles(r.wakes) && r.out == Spec.Got(v)
      ensures resume == [] || resume == [old(senderQueue)[0].handle]
      ensures senderQueue == old(senderQueue)[|resume|..]
    {
      hide RingValid, Window, ValuesIn, Wrap, Spec.Take, Runs.Shape, Runs.Handles;
      ghost var s0 := State();
      TakeOfBuffered(s0);
      v := PopFront();
      CountPop();
      resume := Refill();
      assert State() == Spec.Take(s0).chan;
    }

    // The front of the buffer, refilled from the first parked sender; with an
    // empty buffer, the first parked sender's own value.
    method Take() returns (v: Option<T>, resume: seq<Handle>)
      requires Consistent()
      modifies `header, `tail, `count, `senderQueue, `stats, `total, buffer
      ensures Consistent()
      ensures var r := Spec.Take(old(State()));
              && State() == r.chan && resume == Runs.Handles(r.wakes)
              && (if v.Some? then r.out == Spec.Got(v.value) else r.out == Spec.Refused)
      ensures v.None? ==> State() == old(State()) && resume == [] && count == 0 && senderQueue == []
      ensures |resume| <= |old(senderQueue)|
      ensures resume == [] || resume == [old(senderQueue)[0].handle]
      ensures senderQueue == old(senderQueue)[|resume|..]
    {
      v, resume := None, [];
      if count != 0 {
        var front;
        front, resume := TakeBuffered();
        v := Some(front);
      } else if senderQueue != [] {
        var parked;
        parked, resume := UnparkSender();
        v := Some(parked);
        CountHandoff();
      }
    }

    method ParkReceiver(handle: Handle, awaiter: ReceiverAwaiter<T>)
      requires QueuesValid() && awaiter !in Awaiters(receiverQueue) && awaiter.value == None
      modifies `receiverQueue
      ensures QueuesValid()
      ensures receiverQueue == old(receiverQueue) + [Waiter(handle, awaiter)]
      ensures WaitingHandles(receiverQueue) == WaitingHandles(old(receiverQueue)) + [handle]
    {
      receiverQueue := receiverQueue + [Waiter(handle, awaiter)];
    }

    // Nothing to take: the receiver joins the queue with an empty awaiter.
    method WaitForValue(handle: Handle, awaiter: ReceiverAwaiter<T>)
      requires Consistent() && awaiter !in Awaiters(receiverQueue) && awaiter.value == None
      requires !close && count == 0 && senderQueue == []
      modifies `receiverQueue, `stats, `total
      ensures Consistent() && receiverQueue == old(receiverQueue) + [Waiter(handle, awaiter)]
      ensures var c := old(State());
              State() == c.(receivers := c.receivers + [handle],
                            stats := c.stats.(receiverWaits := c.stats.receiverWaits + 1))
    {
      hide RingValid, Window, ValuesIn, Wrap;
      ParkReceiver(handle, awaiter);
      CountReceiverWait();
    }

    // Writes to an awaiter that is not in the queue.
    method SetValue(awaiter: ReceiverAwaiter<T>, value: Option<T>)
      requires Consistent() && awaiter !in Awaiters(receiverQueue)
      modifies awaiter
      ensures Consistent() && State() == old(State()) && awaiter.value == value
    {
      awaiter.value := value;
    }

    // ReceiverAwaiter::await_suspend under the lock.
    method ReceiveLocked(handle: Handle, awaiter: ReceiverAwaiter<T>) returns (suspend: bool, resume: seq<Handle>)
      requires Consistent() && awaiter !in Awaiters(receiverQueue) && awaiter.value == None
      modifies this, buffer, awaiter
      ensures Consistent()
      ensures var r := Spec.ReceiveSuspend(old(State()), handle);
              && State() == r.chan && resume == Runs.Handles(r.wakes) && suspend == r.out.Suspended?
              && awaiter.value == (if r.out.Got? then Some(r.out.value) else None)
      ensures receiverQueue == old(receiverQueue) + if suspend then [Waiter(handle, awaiter)] else []
      ensures senderQueue == old(senderQueue)[|resume|..]
    {
      hide Consistent, State, Awaiters, Spec.Take, Runs.Handles, Runs.Shape;
      IsShaped();
      ReceiveShapes(State(), handle);
      suspend, resume := false, [];
      if count == 0 && close {
        SetValue(awaiter, None);
        FailClosed();
      } else {
        var v;
        v, resume := Take();
        if v.Some? {
          SetValue(awaiter, v);
        } else {
          WaitForValue(handle, awaiter);
          suspend := true;
        }
      }
    }

    // ReceiverAwaiter::await_suspend. The awaiter is this call's own.
    method ReceiveSuspend(handle: Handle, awaiter: ReceiverAwaiter<T>) returns (suspend: bool, resume: seq<Handle>)
      requires Valid() && awaiter !in Awaiters(receiverQueue) && awaiter.value == None
      modifies this, buffer, awaiter
      ensures Valid()
      ensures var r := Spec.ReceiveSuspend(old(State()), handle);
              && State() == r.chan && resume == Runs.Handles(r.wakes) && suspend == r.out.Suspended?
              && awaiter.value == (if r.out.Got? then Some(r.out.value) else None)
      ensures receiverQueue == old(receiverQueue) + if suspend then [Waiter(handle, awaiter)] else []
      ensures senderQueue == old(senderQueue)[|resume|..]
    {
      hide Statistics.Conserved, Consistent, State, Spec.ReceiveSuspend, Runs.Handles, Awaiters;
      IsShaped();
      Statistics.ReceiveConserves(State(), handle);
      suspend, resume := ReceiveLocked(handle, awaiter);
    }

    // Nothing to take: an exception on a closed channel, nullopt otherwise.
    method FailEmpty() returns (out: Spec.Outcome<T>)
      requires Consistent()
      modifies this`stats, this`total
      ensures Consistent()
      ensures State() == Spec.FailEmpty(old(State())).chan && out == Spec.FailEmpty(old(State())).out
    {
      if close {
        FailClosed();
        out := Spec.Closed;
      } else {
        StatsAddWraps();
        stats := stats.(emptyReturns := StatsAdd(stats.emptyReturns, 1));
        total := total.(emptyReturns := total.emptyReturns + 1);
        out := Spec.Refused;
      }
    }

    method TryReceive() returns (out: Spec.Outcome<T>, resume: seq<Handle>)
      requires Valid()
      modifies this, buffer
      ensures Valid()
      ensures var r := Spec.TryReceive(old(State()));
              State() == r.chan && out == r.out && resume == Runs.Handles(r.wakes)
      ensures receiverQueue == old(receiverQueue) && senderQueue == old(senderQueue)[|resume|..]
    {
      hide Statistics.Conserved;
      Statistics.TryReceiveConserves(State());
      var v;
      v, resume := Take();
      if v.Some? {
        out := Spec.Got(v.value);
      } else {
        out := FailEmpty();
      }
    }

    // The loop of try_receive_many.
    method TakeItems(max: nat) returns (values: seq<T>, resume: seq<Handle>)
      requires Consistent()
      modifies this, buffer
      ensures Consistent()
      ensures var r := Spec.Drain(old(State()), max);
              State() == r.chan && values == r.out.values && resume == Runs.Handles(r.wakes)
      ensures |resume| <= |old(senderQueue)| && |resume| <= max
      ensures receiverQueue == old(receiverQueue) && senderQueue == old(senderQueue)[|resume|..]
    {
      hide Draining, Spec.Take, Spec.Drain, Runs.Shape, Wrap, RingValid, Window, ValuesIn, QueuesValid;
      ghost var s0 := State();
      ghost var queue0 := senderQueue;
      ghost var wakes: seq<Spec.Wake<T>> := [];
      values, resume := [], [];
      DrainingStart(s0, max);
      while |values| < max
        invariant Consistent() && receiverQueue == old(receiverQueue)
        invariant |values| <= max && |resume| <= |values| && |resume| <= |queue0|
        invariant senderQueue == queue0[|resume|..]
        invariant resume == Runs.Handles(wakes)
        invariant Draining(s0, max, values, State(), wakes)
      {
        ghost var here := State();
        ghost var one := Spec.Take(here);
        var v, woken := Take();
        if v.None? { break; }
        DrainingOne(s0, max, values, here, wakes);
        values := values + [v.value];
        resume := resume + woken;
        wakes := wakes + one.wakes;
      }
      DrainingStops(s0, max, values, State(), wakes);
    }

    method TryReceiveMany(max: nat) returns (out: Spec.Outcome<T>, resume: seq<Handle>)
      requires Valid()
      modifies this, buffer
      ensures Valid()
      ensures var r := Spec.TryReceiveMany(old(State()), max);
              State() == r.chan && out == r.out && resume == Runs.Handles(r.wakes)
      ensures receiverQueue == old(receiverQueue)
      ensures |resume| <= |old(senderQueue)| && senderQueue == old(senderQueue)[|resume|..]
    {
      hide Statistics.Conserved;
      Statistics.TryReceiveManyConserves(State(), max);
      hide Spec.Drain, Runs.Shape, Wrap;
      resume := [];
      if max == 0 {
        out := Spec.GotMany([]);
      } else {
        ghost var s0 := State();
        var values;
        values, resume := TakeItems(max);
        out := Spec.GotMany(values);
        if values == [] {
          DrainedNothing(s0, max);
          var fail := FailEmpty();
          if fail.Closed? { out := Spec.Closed; }
        }
      }
    }

    // --- close() ---

    // Marks every parked sender's awaiter closed and empties the queue.
    method CloseSenders() returns (handles: seq<Handle>)
      modifies `senderQueue, Awaiters(senderQueue)
      ensures senderQueue == [] && handles == WaitingHandles(old(senderQueue))
      ensures forall i :: 0 <= i < |old(senderQueue)| ==> old(senderQueue)[i].awaiter.close
    {
      ghost var queue0 := senderQueue;
      handles := [];
      while senderQueue != []
        invariant |handles| <= |queue0| && senderQueue == queue0[|handles|..]
        invariant handles == WaitingHandles(queue0[..|handles|])
        invariant forall i :: 0 <= i < |handles| ==> queue0[i].awaiter.close
        decreases |senderQueue|
      {
        var front := senderQueue[0];
        front.awaiter.close := true;
        senderQueue := senderQueue[1..];
        handles := handles + [front.handle];
      }
      assert queue0[..|handles|] == queue0;
    }

    method CloseReceivers() returns (handles: seq<Handle>)
      modifies `receiverQueue
      ensures receiverQueue == [] && handles == WaitingHandles(old(receiverQueue))
    {
      ghost var queue0 := receiverQueue;
      handles := [];
      while receiverQueue != []
        invariant |handles| <= |queue0| && receiverQueue == queue0[|handles|..]
        invariant handles == WaitingHandles(queue0[..|handles|])
        decreases |receiverQueue|
      {
        handles := handles + [receiverQueue[0].handle];
        receiverQueue := receiverQueue[1..];
      }
      assert queue0[..|handles|] == queue0;
    }

    // close() under the lock.
    method CloseLocked() returns (ok: bool, resume: seq<Handle>)
      requires Consistent()
      modifies `close, `senderQueue, `receiverQueue, `stats, `total, Awaiters(senderQueue)
      ensures Consistent()
      ensures var r := Spec.Close(old(State()));
              State() == r.chan && ok == r.out.Done? && resume == Runs.Handles(r.wakes)
      ensures ok ==> forall i :: 0 <= i < |old(senderQueue)| ==> old(senderQueue)[i].awaiter.close
      ensures ok ==> forall i :: 0 <= i < |old(receiverQueue)| ==> old(receiverQueue)[i].awaiter.value == None
    {
      hide RingValid, Window, ValuesIn, Wrap, Runs.Handles;
      CloseWakes(State());
      if close { return false, []; }
      ghost var s0 := State();
      close := true;
      CountCloseCall();
      var senderHandles := CloseSenders();
      var receiverHandles := CloseReceivers();
      CountClose(|senderHandles|, |receiverHandles|);
      ok, resume := true, senderHandles + receiverHandles;
      assert resume == s0.senders + s0.receivers && ParkedValues() == [];
    }

    // false stands for the exception "channel is already closed". A parked
    // receiver's awaiter keeps its empty value, so that it throws.
    method Close() returns (ok: bool, resume: seq<Handle>)
      requires Valid()
      modifies `close, `senderQueue, `receiverQueue, `stats, `total, Awaiters(senderQueue)
      ensures Valid()
      ensures var r := Spec.Close(old(State()));
              State() == r.chan && ok == r.out.Done? && resume == Runs.Handles(r.wakes)
      ensures ok ==> forall i :: 0 <= i < |old(senderQueue)| ==> old(senderQueue)[i].awaiter.close
      ensures ok ==> forall i :: 0 <= i < |old(receiverQueue)| ==> old(receiverQueue)[i].awaiter.value == None
    {
      hide Statistics.Conserved, Consistent, State, Spec.Close, Runs.Handles, Awaiters;
      IsShaped();
      Statistics.CloseConserves(State());
      ok, resume := CloseLocked();
    }
  }

  // The conservation laws hold of the 64-bit counters modulo 2^64.
  lemma CountersConserve<T>(c: Spec.Chan<T>)
    requires Statistics.Conserved(c)
    ensures var w := Wrap(c.stats);
            && w.pushes == Mod64(w.pops + |c.buffer|)
            && (c.capacity > 0 ==>
                  w.receiverWaits == Mod64(|c.receivers| + w.handoffs + w.wokenReceivers))
            && (c.capacity == 0 ==>
                  Mod64(w.senderWaits + w.receiverWaits) ==
                  Mod64(w.handoffs + |c.senders| + |c.receivers| + w.wokenSenders + w.wokenReceivers))
  {
    hide Mod64;
    var t := c.stats;
    ModSum(t.pops, |c.buffer|);
    ModSum3(t.handoffs, t.wokenReceivers, 0, |c.receivers|);
    ModSum3(t.handoffs, t.wokenSenders, t.wokenReceivers, |c.senders| + |c.receivers|);
    ModSum(t.senderWaits, t.receiverWaits);
    ModZero();
  }

  lemma ModZero()
    ensures Mod64(0) == 0
  {
  }

  lemma ModSum3(a: nat, b: nat, d: nat, n: nat)
    ensures Mod64(n + Mod64(a) + Mod64(b) + Mod64(d)) == Mod64(n + a + b + d)
    ensures Mod64(Mod64(a) + n + Mod64(b) + Mod64(d)) == Mod64(n + a + b + d)
  {
    hide Mod64;
    ModSum(a, b);
    ModSum(d, a + b);
    ModShift(Mod64(a) + Mod64(b), a + b, Mod64(d));
    ModShift(Mod64(a) + Mod64(b) + Mod64(d), a + b + d, n);
  }

  lemma ModSum(a: nat, b: nat)
    ensures Mod64(Mod64(a) + b) == Mod64(a + b) == Mod64(Mod64(a) + Mod64(b))
  {
    ModAbsorbs(a, b);
    ModAbsorbs(b, Mod64(a));
  }

  lemma ModAbsorbs(a: nat, b: nat)
    ensures Mod64(Mod64(a) + b) == Mod64(a + b)
  {
  }

  lemma ModShift(a: nat, b: nat, d: nat)
    requires Mod64(a) == Mod64(b)
    ensures Mod64(a + d) == Mod64(b + d)
  {
    ModSum(a, d);
    ModSum(b, d);
  }
}
