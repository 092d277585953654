// include/async_mutex.h: a mutex whose lock is handed from owner to owner, and
// the guard that owns it.

module AsyncMutex {
  import opened Common

  // The state under mtx_, and the effect of its two critical sections.
  datatype Mutex = Mutex(locked: bool, queue: seq<Handle>)

  const UNLOCKED := Mutex(false, [])

  // Awaiter::await_suspend and ReLockAwaiter::await_suspend: true is "suspend".
  function Arrive(m: Mutex, h: Handle): (Mutex, bool) {
    if !m.locked then (m.(locked := true), false)
    else (m.(queue := m.queue + [h]), true)
  }

  // AsyncMutex::unlock: the lock goes to the front waiter, if there is one.
  function Release(m: Mutex): (Mutex, Option<Handle>) {
    if m.queue != [] then (m.(queue := m.queue[1..]), Some(m.queue[0]))
    else (m.(locked := false), None)
  }

  class AsyncMutex {
    var lock: bool
    var waitQueue: seq<Handle>

    function State(): Mutex
      reads this
    {
      Mutex(lock, waitQueue)
    }

    constructor ()
      ensures State() == UNLOCKED
    {
      lock, waitQueue := false, [];
    }

    method LockSuspend(h: Handle) returns (suspend: bool)
      modifies this
      ensures (State(), suspend) == Arrive(old(State()), h)
    {
      if !lock {
        lock := true;
        return false;
      }
      waitQueue := waitQueue + [h];
      suspend := true;
    }

    method Unlock() returns (resume: Option<Handle>)
      modifies this
      ensures (State(), resume) == Release(old(State()))
    {
      if waitQueue != [] {
        resume := Some(waitQueue[0]);
        waitQueue := waitQueue[1..];
      } else {
        lock := false;
        resume := None;
      }
    }
  }

  // A guard as a value: the mutex it points to, and whether it owns its lock.
  class LockGuard {
    var mutex: AsyncMutex?
    var ownsLock: bool

    // Awaiter::await_resume: the coroutine now runs with the lock.
    constructor Adopt(m: AsyncMutex)
      ensures mutex == m && ownsLock
    {
      mutex, ownsLock := m, true;
    }

    constructor Move(other: LockGuard)
      modifies other
      ensures mutex == old(other.mutex) && ownsLock == old(other.ownsLock)
      ensures other.mutex == null && !other.ownsLock
    {
      mutex, ownsLock := other.mutex, other.ownsLock;
      new;
      other.mutex, other.ownsLock := null, false;
    }

    // The releasing half shared by move assignment, destruction and unlock.
    method ReleaseIfOwned() returns (resume: Option<Handle>)
      modifies if ownsLock && mutex != null then {mutex} else {}
      ensures mutex == old(mutex) && ownsLock == old(ownsLock)
      ensures ownsLock && mutex != null ==> (mutex.State(), resume) == Release(old(mutex.State()))
      ensures !(ownsLock && mutex != null) ==> resume == None
    {
      resume := None;
      if ownsLock && mutex != null {
        resume := mutex.Unlock();
      }
    }

    method MoveAssign(other: LockGuard) returns (resume: Option<Handle>)
      modifies this, other, if ownsLock && mutex != null then {mutex} else {}
      ensures this == other ==> mutex == old(mutex) && ownsLock == old(ownsLock) && resume == None
      ensures this == other && mutex != null ==> mutex.State() == old(mutex.State())
      ensures this != other ==>
                && mutex == old(other.mutex) && ownsLock == old(other.ownsLock)
                && other.mutex == null && !other.ownsLock
      ensures this != other && old(ownsLock) && old(mutex) != null ==>
                (old(mutex).State(), resume) == Release(old(mutex.State()))
      ensures this != other && !(old(ownsLock) && old(mutex) != null) ==> resume == None
    {
      resume := None;
      if this == other { return; }
      resume := ReleaseIfOwned();
      mutex, ownsLock := other.mutex, other.ownsLock;
      other.mutex, other.ownsLock := null, false;
    }

    // The destructor's effect on the mutex.
    method Destroy() returns (resume: Option<Handle>)
      modifies if ownsLock && mutex != null then {mutex} else {}
      ensures old(ownsLock) && old(mutex) != null ==>
                (old(mutex).State(), resume) == Release(old(mutex.State()))
      ensures !(old(ownsLock) && old(mutex) != null) ==> resume == None
    {
      resume := ReleaseIfOwned();
    }

    method Unlock() returns (resume: Option<Handle>)
      modifies `ownsLock, if ownsLock && mutex != null then {mutex} else {}
      ensures mutex == old(mutex)
      ensures ownsLock == (old(ownsLock) && mutex == null)
      ensures old(ownsLock) && mutex != null ==> (mutex.State(), resume) == Release(old(mutex.State()))
      ensures !(old(ownsLock) && mutex != null) ==> resume == None
    {
      resume := None;
      if ownsLock && mutex != null {
        resume := mutex.Unlock();
        ownsLock := false;
      }
    }

    // ReLockAwaiter: it dereferences the mutex without a test.
    method RelockSuspend(h: Handle) returns (suspend: bool)
      requires mutex != null
      modifies mutex
      ensures mutex == old(mutex) && ownsLock == old(ownsLock)
      ensures (mutex.State(), suspend) == Arrive(old(mutex.State()), h)
    {
      suspend := mutex.LockSuspend(h);
    }

    method RelockResume()
      modifies `ownsLock
      ensures ownsLock
    {
      ownsLock := true;
    }
  }

  // --- First come, first served ---

  datatype Op = ArriveOp(h: Handle) | ReleaseOp

  function ApplyOp(m: Mutex, op: Op): Mutex {
    match op
    case ArriveOp(h) => Arrive(m, h).0
    case ReleaseOp => Release(m).0
  }

  // Who gets the lock by this operation: a newcomer or the front waiter.
  function GrantOf(m: Mutex, op: Op): seq<Handle> {
    match op
    case ArriveOp(h) => if Arrive(m, h).1 then [] else [h]
    case ReleaseOp => if Release(m).1.Some? then [Release(m).1.value] else []
  }

  function RunOps(m: Mutex, ops: seq<Op>): Mutex
    decreases |ops|
  {
    if ops == [] then m else RunOps(ApplyOp(m, ops[0]), ops[1..])
  }

  function Grants(m: Mutex, ops: seq<Op>): seq<Handle>
    decreases |ops|
  {
    if ops == [] then [] else GrantOf(m, ops[0]) + Grants(ApplyOp(m, ops[0]), ops[1..])
  }

  // The coroutines that got the lock from a release, in order.
  function Handoffs(m: Mutex, ops: seq<Op>): seq<Handle>
    decreases |ops|
  {
    if ops == [] then []
    else (if ops[0].ReleaseOp? then GrantOf(m, ops[0]) else []) + Handoffs(ApplyOp(m, ops[0]), ops[1..])
  }

  function Arrivals(ops: seq<Op>): seq<Handle> {
    if ops == [] then [] else (if ops[0].ArriveOp? then [ops[0].h] else []) + Arrivals(ops[1..])
  }

  function Releases(ops: seq<Op>): nat {
    if ops == [] then 0 else (if ops[0].ReleaseOp? then 1 else 0) + Releases(ops[1..])
  }

  // Nobody waits for a lock that is free.
  predicate Sound(m: Mutex) { m.queue != [] ==> m.locked }

  // Grants, then the wait queue, are the arrivals in critical-section order,
  // initial locks and relocks together: nobody overtakes.
  lemma {:induction false} FirstComeFirstServed(m: Mutex, ops: seq<Op>)
    requires Sound(m)
    ensures Sound(RunOps(m, ops))
    ensures m.queue + Arrivals(ops) == Grants(m, ops) + RunOps(m, ops).queue
    decreases |ops|
  {
    if ops == [] {
    } else {
      hide ApplyOp, GrantOf;
      var n := ApplyOp(m, ops[0]);
      OneStepServed(m, ops[0]);
      FirstComeFirstServed(n, ops[1..]);
      var came := if ops[0].ArriveOp? then [ops[0].h] else [];
      Regroup(m.queue, came, Arrivals(ops[1..]));
      Regroup(GrantOf(m, ops[0]), n.queue, Arrivals(ops[1..]));
      Regroup(GrantOf(m, ops[0]), Grants(n, ops[1..]), RunOps(n, ops[1..]).queue);
    }
  }

  lemma OneStepServed(m: Mutex, op: Op)
    requires Sound(m)
    ensures Sound(ApplyOp(m, op))
    ensures m.queue + (if op.ArriveOp? then [op.h] else []) == GrantOf(m, op) + ApplyOp(m, op).queue
  {
  }

  // A waiter at index i is granted the lock by exactly the (i + 1)-th release
  // from now, whoever arrives in between.
  lemma {:induction false} WaiterServedInTurn(m: Mutex, ops: seq<Op>, i: nat)
    requires Sound(m) && i < |m.queue|
    ensures |Handoffs(m, ops)| > i <==> Releases(ops) > i
    ensures Releases(ops) > i ==> Handoffs(m, ops)[i] == m.queue[i]
    ensures Releases(ops) <= i ==> m.queue[Releases(ops)..i + 1] <= RunOps(m, ops).queue
    decreases |ops|
  {
    if ops == [] {
    } else {
      hide ApplyOp, GrantOf;
      var n := ApplyOp(m, ops[0]);
      OneStepServed(m, ops[0]);
      StepInTurn(m, ops[0]);
      if ops[0].ArriveOp? {
        WaiterServedInTurn(n, ops[1..], i);
      } else if i > 0 {
        WaiterServedInTurn(n, ops[1..], i - 1);
      }
    }
  }

  lemma StepInTurn(m: Mutex, op: Op)
    requires m.queue != []
    ensures op.ReleaseOp? ==> GrantOf(m, op) == [m.queue[0]] && ApplyOp(m, op).queue == m.queue[1..]
    ensures op.ArriveOp? && Sound(m) ==> ApplyOp(m, op).queue == m.queue + [op.h]
  {
  }
}
