// include/condition_variable.h as a class over the guard it is given.

module ConditionVariable {
  import opened Common
  import opened AsyncMutex

  class ConditionVariable {
    var waitQueue: seq<Handle>

    constructor ()
      ensures waitQueue == []
    {
      waitQueue := [];
    }

    // The locked half of Awaiter::await_suspend.
    method Push(h: Handle)
      modifies this
      ensures waitQueue == old(waitQueue) + [h]
    {
      waitQueue := waitQueue + [h];
    }

    // Awaiter::await_suspend run without interruption: enqueue, then release.
    method AwaitSuspend(h: Handle, guard: LockGuard) returns (resume: Option<Handle>)
      modifies this, guard`ownsLock, if guard.ownsLock && guard.mutex != null then {guard.mutex} else {}
      ensures waitQueue == old(waitQueue) + [h]
      ensures guard.mutex == old(guard.mutex)
      ensures guard.ownsLock == (old(guard.ownsLock) && guard.mutex == null)
      ensures old(guard.ownsLock) && guard.mutex != null ==>
                (guard.mutex.State(), resume) == Release(old(guard.mutex.State()))
      ensures !(old(guard.ownsLock) && guard.mutex != null) ==> resume == None
    {
      Push(h);
      resume := guard.Unlock();
    }

    method NotifyOne() returns (resume: seq<Handle>)
      modifies this
      ensures old(waitQueue) == resume + waitQueue
      ensures |resume| == if old(waitQueue) == [] then 0 else 1
    {
      resume := [];
      if waitQueue != [] {
        resume := [waitQueue[0]];
        waitQueue := waitQueue[1..];
      }
    }

    method NotifyAll() returns (resume: seq<Handle>)
      modifies this
      ensures waitQueue == [] && resume == old(waitQueue)
    {
      resume := [];
      while waitQueue != []
        invariant resume + waitQueue == old(waitQueue)
        decreases |waitQueue|
      {
        resume := resume + [waitQueue[0]];
        waitQueue := waitQueue[1..];
      }
    }
  }
}
