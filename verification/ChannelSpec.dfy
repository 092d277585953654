// Channel<T> at the level of one mtx_ critical section: each function below is
// the effect of one locked region of include/channel.h on the channel's
// abstract state, with the result the caller sees and the coroutines it wakes.

module ChannelSpec {
  import opened Common

  // Unbounded event counts; the class keeps them modulo 2^64.
  datatype Stats = Stats(
    pushes: nat, pops: nat, handoffs: nat,
    senderWaits: nat, receiverWaits: nat,
    fullFailures: nat, emptyReturns: nat, closedFailures: nat,
    closeCalls: nat, wokenSenders: nat, wokenReceivers: nat)

  const NO_STATS := Stats(0, 0, 0, 0, 0, 0, 0, 0, 0, 0, 0)

  // The sender queue is kept as two lists of equal length: the handles, and
  // the values held by their awaiters.
  datatype Chan<T> = Chan(
    capacity: nat,
    closed: bool,
    buffer: seq<T>,
    senders: seq<Handle>,
    parked: seq<T>,
    receivers: seq<Handle>,
    stats: Stats)
  {
    predicate Paired() { |senders| == |parked| }
  }

  // A coroutine taken off a wait queue, with what its await_resume will do.
  datatype Wake<T> =
    | Sent(handle: Handle)
    | Received(handle: Handle, value: T)
    | SendClosed(handle: Handle)
    | ReceiveClosed(handle: Handle)

  // What the calling coroutine sees. Closed stands for the exception
  // "channel is closed", AlreadyClosed for "channel is already closed",
  // Refused for false or nullopt.
  datatype Outcome<T> =
    | Done
    | Suspended
    | Got(value: T)
    | Refused
    | Closed
    | AlreadyClosed
    | SentMany(sent: nat)
    | GotMany(values: seq<T>)

  datatype Result<T> = Result(chan: Chan<T>, out: Outcome<T>, wakes: seq<Wake<T>>)

  function Fresh<T>(capacity: nat): Chan<T> {
    Chan(capacity, false, [], [], [], [], NO_STATS)
  }

  // --- Accepting a value: the branches shared by the three send paths ---

  function Offer<T>(c: Chan<T>, v: T): Result<T> {
    if c.receivers != [] then
      Result(c.(receivers := c.receivers[1..], stats := c.stats.(handoffs := c.stats.handoffs + 1)),
             Done, [Received(c.receivers[0], v)])
    else if |c.buffer| != c.capacity then
      Result(c.(buffer := c.buffer + [v], stats := c.stats.(pushes := c.stats.pushes + 1)), Done, [])
    else
      Result(c, Refused, [])
  }

  function FailClosed<T>(c: Chan<T>): Result<T> {
    Result(c.(stats := c.stats.(closedFailures := c.stats.closedFailures + 1)), Closed, [])
  }

  function SendCall<T>(c: Chan<T>): Result<T> {
    if c.closed then FailClosed(c) else Result(c, Done, [])
  }

  function SendSuspend<T>(c: Chan<T>, h: Handle, v: T): Result<T> {
    if c.closed then FailClosed(c)
    else
      var r := Offer(c, v);
      if r.out.Done? then r
      else Result(c.(senders := c.senders + [h], parked := c.parked + [v],
                     stats := c.stats.(senderWaits := c.stats.senderWaits + 1)), Suspended, [])
  }

  function TrySend<T>(c: Chan<T>, v: T): Result<T> {
    if c.closed then FailClosed(c)
    else
      var r := Offer(c, v);
      if r.out.Done? then r
      else Result(c.(stats := c.stats.(fullFailures := c.stats.fullFailures + 1)), Refused, [])
  }

  // try_send repeated until the first false.
  function SendLoop<T>(c: Chan<T>, vs: seq<T>): (r: Result<T>)
    ensures r.out.SentMany? && r.out.sent <= |vs|
    ensures r.chan.senders == c.senders && r.chan.parked == c.parked
    decreases |vs|
  {
    if vs == [] then Result(c, SentMany(0), [])
    else
      var one := Offer(c, vs[0]);
      if one.out.Done? then
        var rest := SendLoop(one.chan, vs[1..]);
        Result(rest.chan, SentMany(rest.out.sent + 1), one.wakes + rest.wakes)
      else
        Result(c.(stats := c.stats.(fullFailures := c.stats.fullFailures + 1)), SentMany(0), [])
  }

  function TrySendMany<T>(c: Chan<T>, vs: seq<T>): Result<T> {
    if vs == [] then Result(c, SentMany(0), [])
    else if c.closed then FailClosed(c)
    else SendLoop(c, vs)
  }

  // --- Taking a value: the branches shared by the three receive paths ---

  function Take<T>(c: Chan<T>): (r: Result<T>)
    requires c.Paired()
    ensures r.chan.Paired()
  {
    if c.buffer != [] then
      var popped := c.(buffer := c.buffer[1..], stats := c.stats.(pops := c.stats.pops + 1));
      if c.senders != [] then
        Result(popped.(buffer := popped.buffer + [c.parked[0]],
                       senders := c.senders[1..], parked := c.parked[1..],
                       stats := popped.stats.(pushes := popped.stats.pushes + 1)),
               Got(c.buffer[0]), [Sent(c.senders[0])])
      else
        Result(popped, Got(c.buffer[0]), [])
    else if c.senders != [] then
      Result(c.(senders := c.senders[1..], parked := c.parked[1..],
                stats := c.stats.(handoffs := c.stats.handoffs + 1)),
             Got(c.parked[0]), [Sent(c.senders[0])])
    else
      Result(c, Refused, [])
  }

  function ReceiveSuspend<T>(c: Chan<T>, h: Handle): (r: Result<T>)
    requires c.Paired()
    ensures r.chan.Paired()
  {
    if c.buffer == [] && c.closed then FailClosed(c)
    else
      var taken := Take(c);
      if taken.out.Got? then taken
      else Result(c.(receivers := c.receivers + [h],
                     stats := c.stats.(receiverWaits := c.stats.receiverWaits + 1)), Suspended, [])
  }

  function FailEmpty<T>(c: Chan<T>): Result<T> {
    if c.closed then FailClosed(c)
    else Result(c.(stats := c.stats.(emptyReturns := c.stats.emptyReturns + 1)), Refused, [])
  }

  function TryReceive<T>(c: Chan<T>): (r: Result<T>)
    requires c.Paired()
    ensures r.chan.Paired()
  {
    var taken := Take(c);
    if taken.out.Got? then taken else FailEmpty(c)
  }

  // A successful try_receive repeated at most m times.
  function Drain<T>(c: Chan<T>, m: nat): (r: Result<T>)
    requires c.Paired()
    ensures r.chan.Paired() && r.out.GotMany? && |r.out.values| <= m
    decreases m
  {
    if m == 0 then Result(c, GotMany([]), [])
    else
      var one := Take(c);
      if one.out.Got? then
        var rest := Drain(one.chan, m - 1);
        Result(rest.chan, GotMany([one.out.value] + rest.out.values), one.wakes + rest.wakes)
      else
        Result(c, GotMany([]), [])
  }

  function TryReceiveMany<T>(c: Chan<T>, m: nat): (r: Result<T>)
    requires c.Paired()
    ensures r.chan.Paired()
  {
    if m == 0 then Result(c, GotMany([]), [])
    else
      var drained := Drain(c, m);
      if drained.out.values != [] then drained
      else
        var fail := FailEmpty(drained.chan);
        if fail.out.Closed? then fail else fail.(out := GotMany([]))
  }

  // --- close() ---

  function Close<T>(c: Chan<T>): Result<T> {
    if c.closed then Result(c, AlreadyClosed, [])
    else
      Result(c.(closed := true, senders := [], parked := [], receivers := [],
                stats := c.stats.(closeCalls := c.stats.closeCalls + 1,
                                  wokenSenders := c.stats.wokenSenders + |c.senders|,
                                  wokenReceivers := c.stats.wokenReceivers + |c.receivers|)),
             Done,
             seq(|c.senders|, i requires 0 <= i < |c.senders| => SendClosed(c.senders[i])) +
             seq(|c.receivers|, i requires 0 <= i < |c.receivers| => ReceiveClosed(c.receivers[i])))
  }

  // --- Runs ---

  // `who` names the calling coroutine. The try_ operations never look at it.
  datatype Op<T> =
    | SendCallOp
    | SendOp(who: Handle, value: T)
    | TrySendOp(who: Handle, value: T)
    | TrySendManyOp(who: Handle, items: seq<T>)
    | ReceiveOp(who: Handle)
    | TryReceiveOp(who: Handle)
    | TryReceiveManyOp(who: Handle, max: nat)
    | CloseOp

  function Step<T>(c: Chan<T>, op: Op<T>): (r: Result<T>)
    requires c.Paired()
    ensures r.chan.Paired()
  {
    match op
    case SendCallOp => SendCall(c)
    case SendOp(h, v) => SendSuspend(c, h, v)
    case TrySendOp(_, v) => TrySend(c, v)
    case TrySendManyOp(_, vs) => TrySendMany(c, vs)
    case ReceiveOp(h) => ReceiveSuspend(c, h)
    case TryReceiveOp(_) => TryReceive(c)
    case TryReceiveManyOp(_, m) => TryReceiveMany(c, m)
    case CloseOp => Close(c)
  }

  datatype Event<T> = Event(op: Op<T>, out: Outcome<T>, wakes: seq<Wake<T>>)

  // The state and the trace after ops; the last operation is split off, so
  // that every prefix of a run is a run.
  function Run<T>(c: Chan<T>, ops: seq<Op<T>>): (r: (Chan<T>, seq<Event<T>>))
    requires c.Paired()
    ensures r.0.Paired()
  {
    if ops == [] then (c, [])
    else
      var (before, trace) := Run(c, ops[..|ops| - 1]);
      var r := Step(before, ops[|ops| - 1]);
      (r.chan, trace + [Event(ops[|ops| - 1], r.out, r.wakes)])
  }
}
