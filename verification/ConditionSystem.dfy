// Every interleaving of coroutines that lock one mutex, change shared data
// under it, and wait on one condition variable. Enqueueing on the variable and
// releasing the guard are separate steps of await_suspend, so a notifier may
// run in between and the woken continuation may reach relock before the
// release. LockGuard::unlock is one step.

module ConditionSystem {
  import opened Common
  import opened AsyncMutex

  datatype Phase =
    | Idle         // not concerned with the mutex
    | Locking      // suspended in lock(), or granted and not yet resumed
    | Critical     // running user code with the lock
    | Checking     // in wait(guard, op), about to evaluate op
    | Deciding     // about to enter Awaiter::await_suspend
    | Asleep       // in the condition variable's queue
    | Woken        // taken off it, on the way to relock()
    | Relocking    // suspended in relock(), or granted and not yet resumed

  // op is the predicate of the current wait, None for wait(guard). seen is the
  // version of the data when the coroutine last decided to wait. releasing
  // says that its await_suspend has yet to run guard_->unlock().
  datatype Co<!D> = Co(phase: Phase, owns: bool, releasing: bool, seen: nat, op: Option<D -> bool>)

  // version counts the changes of data; notifiedAt is its value at the latest
  // notify_all.
  datatype Sys<!D> = Sys(
    mutex: Mutex,
    cos: map<Handle, Co<D>>,
    granted: set<Handle>,
    waiters: seq<Handle>,
    data: D,
    version: nat,
    notifiedAt: nat)

  datatype Event<!D> =
    | Lock(h: Handle)
    | LockResume(h: Handle)
    | Change(h: Handle, d: D)
    | Wait(h: Handle, op: Option<D -> bool>)
    | Check(h: Handle)
    | Enqueue(h: Handle)
    | ReleaseGuard(h: Handle)
    | NotifyOne
    | NotifyAll
    | Relock(h: Handle)
    | RelockResume(h: Handle)
    | Unlock(h: Handle)

  predicate At<D>(s: Sys<D>, h: Handle, p: Phase) { h in s.cos && s.cos[h].phase == p }

  predicate Enabled<D>(s: Sys<D>, e: Event<D>) {
    match e
    case Lock(h) => At(s, h, Idle)
    case LockResume(h) => At(s, h, Locking) && h in s.granted
    case Change(h, _) => At(s, h, Critical)
    case Wait(h, _) => At(s, h, Critical)
    case Check(h) => At(s, h, Checking) && s.cos[h].op.Some?
    case Enqueue(h) => At(s, h, Deciding)
    case ReleaseGuard(h) => h in s.cos && s.cos[h].releasing
    case NotifyOne => true
    case NotifyAll => true
    case Relock(h) => At(s, h, Woken)
    case RelockResume(h) => At(s, h, Relocking) && h in s.granted
    case Unlock(h) => At(s, h, Critical)
  }

  function Put<D>(s: Sys<D>, h: Handle, c: Co<D>): Sys<D> {
    s.(cos := s.cos[h := c])
  }

  // Arrive at the mutex and wait there in phase p.
  function Arriving<D>(s: Sys<D>, h: Handle, p: Phase): Sys<D>
    requires h in s.cos
  {
    var (m, suspended) := Arrive(s.mutex, h);
    Put(s, h, s.cos[h].(phase := p)).(mutex := m, granted := if suspended then s.granted else s.granted + {h})
  }

  // h's guard hands the lock on.
  function Releasing<D>(s: Sys<D>, h: Handle, p: Phase): Sys<D>
    requires h in s.cos
  {
    var (m, next) := Release(s.mutex);
    Put(s, h, s.cos[h].(phase := p, owns := false, releasing := false))
      .(mutex := m, granted := if next.Some? then s.granted + {next.value} else s.granted)
  }

  function Wake<D>(s: Sys<D>, woken: seq<Handle>): Sys<D> {
    s.(cos := map h | h in s.cos :: if h in woken then s.cos[h].(phase := Woken) else s.cos[h])
  }

  function Step<D>(s: Sys<D>, e: Event<D>): Sys<D>
    requires Enabled(s, e)
  {
    match e
    case Lock(h) => Arriving(s, h, Locking)
    case LockResume(h) => Put(s, h, s.cos[h].(phase := Critical, owns := true)).(granted := s.granted - {h})
    case Change(_, d) => s.(data := d, version := s.version + 1)
    case Wait(h, op) =>
      Put(s, h, s.cos[h].(phase := if op.Some? then Checking else Deciding, seen := s.version, op := op))
    case Check(h) =>
      if s.cos[h].op.value(s.data) then Put(s, h, s.cos[h].(phase := Critical))
      else Put(s, h, s.cos[h].(phase := Deciding, seen := s.version))
    case Enqueue(h) =>
      Put(s, h, s.cos[h].(phase := Asleep, releasing := true)).(waiters := s.waiters + [h])
    case ReleaseGuard(h) => Releasing(s, h, s.cos[h].phase)
    case NotifyOne =>
      if s.waiters == [] then s else Wake(s, [s.waiters[0]]).(waiters := s.waiters[1..])
    case NotifyAll => Wake(s, s.waiters).(waiters := [], notifiedAt := s.version)
    case Relock(h) => Arriving(s, h, Relocking)
    case RelockResume(h) =>
      Put(s, h, s.cos[h].(phase := if s.cos[h].op.Some? then Checking else Critical, owns := true))
        .(granted := s.granted - {h})
    case Unlock(h) => Releasing(s, h, Idle)
  }

  // An event that is not enabled changes nothing, so every list is a run.
  function Apply<D>(s: Sys<D>, e: Event<D>): Sys<D> {
    if Enabled(s, e) then Step(s, e) else s
  }

  function Run<D>(s: Sys<D>, es: seq<Event<D>>): Sys<D>
    decreases |es|
  {
    if es == [] then s else Run(Apply(s, es[0]), es[1..])
  }

  // --- Mutual exclusion: the owner, or the coroutine handed the lock ---

  datatype Holder = Owner(h: Handle) | Handed(h: Handle)

  ghost predicate Holds<D>(s: Sys<D>, x: Holder) {
    match x
    case Owner(h) => h in s.cos && s.cos[h].owns
    case Handed(h) => h in s.granted
  }

  ghost predicate Exclusive<D>(s: Sys<D>) {
    && (s.mutex.locked <==> exists x :: Holds(s, x))
    && (forall x, y :: Holds(s, x) && Holds(s, y) ==> x == y)
  }

  // Where a coroutine is and what it owns agree with the two queues.
  ghost predicate Placed<D>(s: Sys<D>, h: Handle)
    requires h in s.cos
  {
    var c := s.cos[h];
    && (c.owns <==> c.phase in {Critical, Checking, Deciding} || c.releasing)
    && (c.releasing ==> c.phase in {Asleep, Woken, Relocking})
    && (c.phase.Checking? ==> c.op.Some?)
    && (h in s.granted ==> c.phase in {Locking, Relocking})
    && (h in s.mutex.queue <==> c.phase in {Locking, Relocking} && h !in s.granted)
    && (h in s.waiters <==> c.phase == Asleep)
  }

  // What a coroutine that decided to wait last saw of the data.
  ghost predicate Informed<D>(s: Sys<D>, c: Co<D>) {
    && (c.phase.Deciding? || c.releasing ==> c.seen == s.version)
    && (c.phase.Asleep? ==> s.notifiedAt <= c.seen <= s.version)
    && (c.phase in {Deciding, Asleep} && c.op.Some? && c.seen == s.version ==> !c.op.value(s.data))
  }

  ghost predicate Inv<D>(s: Sys<D>) {
    && Exclusive(s)
    && Sound(s.mutex) && NoDuplicates(s.mutex.queue) && NoDuplicates(s.waiters)
    && s.granted <= s.cos.Keys
    && (forall h :: h in s.mutex.queue || h in s.waiters ==> h in s.cos)
    && (forall h :: h in s.cos ==> Placed(s, h))
    && (forall h :: h in s.cos ==> Informed(s, s.cos[h]))
    && s.notifiedAt <= s.version
  }

  lemma TakesOver<D>(s: Sys<D>, t: Sys<D>, before: Holder, x: Holder)
    requires Exclusive(s) && t.mutex.locked
    requires Holds(s, before) && !Holds(t, before) && Holds(t, x)
    requires forall y :: Holds(t, y) && y != x ==> Holds(s, y)
    ensures Exclusive(t)
  {
  }

  lemma Acquires<D>(s: Sys<D>, t: Sys<D>, x: Holder)
    requires Exclusive(s) && !s.mutex.locked && t.mutex.locked && Holds(t, x)
    requires forall y :: Holds(t, y) && y != x ==> Holds(s, y)
    ensures Exclusive(t)
  {
  }

  lemma Frees<D>(s: Sys<D>, t: Sys<D>, before: Holder)
    requires Exclusive(s) && !t.mutex.locked && Holds(s, before) && !Holds(t, before)
    requires forall y :: Holds(t, y) ==> Holds(s, y)
    ensures Exclusive(t)
  {
  }

  lemma SameHolders<D>(s: Sys<D>, t: Sys<D>)
    requires Exclusive(s) && t.mutex.locked == s.mutex.locked
    requires forall y :: Holds(t, y) <==> Holds(s, y)
    ensures Exclusive(t)
  {
  }

  lemma ArrivingKeeps<D>(s: Sys<D>, h: Handle, p: Phase)
    requires Inv(s) && p in {Locking, Relocking}
    requires At(s, h, Idle) || At(s, h, Woken)
    requires p == Locking ==> At(s, h, Idle)
    ensures Inv(Arriving(s, h, p))
  {
    var t := Arriving(s, h, p);
    assert Placed(s, h);
    if !s.mutex.locked {
      Acquires(s, t, Handed(h));
    } else {
      SameHolders(s, t);
    }
  }

  // The coroutine handed the lock resumes and owns it.
  lemma ResumeKeeps<D>(s: Sys<D>, h: Handle, p: Phase)
    requires Inv(s) && h in s.granted && p in {Critical, Checking} && (p == Checking ==> s.cos[h].op.Some?)
    ensures Inv(Put(s, h, s.cos[h].(phase := p, owns := true)).(granted := s.granted - {h}))
  {
    var t := Put(s, h, s.cos[h].(phase := p, owns := true)).(granted := s.granted - {h});
    assert Placed(s, h) && Holds(s, Handed(h));
    assert !Holds(s, Owner(h));
    TakesOver(s, t, Handed(h), Owner(h));
  }

  lemma ReleasingKeeps<D>(s: Sys<D>, h: Handle, p: Phase)
    requires Inv(s) && h in s.cos
    requires (s.cos[h].phase == Critical && p == Idle) || (s.cos[h].releasing && p == s.cos[h].phase)
    ensures Inv(Releasing(s, h, p))
  {
    var t, q := Releasing(s, h, p), s.mutex.queue;
    assert Placed(s, h) && Holds(s, Owner(h));
    if q != [] {
      assert q[0] in q && q == [q[0]] + q[1..];
      assert Placed(s, q[0]);
      TakesOver(s, t, Owner(h), Handed(q[0]));
    } else {
      Frees(s, t, Owner(h));
    }
  }

  // Only the coroutine that owns the lock can change the data, so nobody is
  // between deciding to wait and releasing the guard.
  lemma ChangeKeeps<D>(s: Sys<D>, h: Handle, d: D)
    requires Inv(s) && At(s, h, Critical)
    ensures Inv(s.(data := d, version := s.version + 1))
  {
    var t := s.(data := d, version := s.version + 1);
    assert Placed(s, h) && Holds(s, Owner(h));
    forall h' | h' in s.cos ensures Informed(t, t.cos[h']) {
      assert Placed(s, h') && Informed(s, s.cos[h']);
      if s.cos[h'].owns { assert Holds(s, Owner(h')); }
    }
    SameHolders(s, t);
  }

  lemma WakeKeeps<D>(s: Sys<D>, n: nat, notifiedAt: nat)
    requires Inv(s) && n <= |s.waiters|
    requires notifiedAt == s.notifiedAt || (n == |s.waiters| && notifiedAt == s.version)
    ensures Inv(Wake(s, s.waiters[..n]).(waiters := s.waiters[n..], notifiedAt := notifiedAt))
  {
    var t := Wake(s, s.waiters[..n]).(waiters := s.waiters[n..], notifiedAt := notifiedAt);
    assert s.waiters == s.waiters[..n] + s.waiters[n..];
    forall h | h in s.waiters ensures h in s.waiters[n..] <==> h !in s.waiters[..n] { }
    SameHolders(s, t);
    forall h | h in s.cos ensures Placed(t, h) && Informed(t, t.cos[h]) {
      assert Placed(s, h) && Informed(s, s.cos[h]);
    }
  }

  // A step of one owner that leaves the mutex alone.
  lemma OwnerStepKeeps<D>(s: Sys<D>, h: Handle, c: Co<D>)
    requires Inv(s) && h in s.cos && s.cos[h].phase in {Critical, Checking}
    requires c.owns && !c.releasing && c.phase in {Critical, Checking, Deciding}
    requires c.phase == Checking ==> c.op.Some?
    requires c.phase == Deciding ==> c.seen == s.version && (c.op.Some? ==> !c.op.value(s.data))
    ensures Inv(Put(s, h, c))
  {
    var t := Put(s, h, c);
    assert Placed(s, h);
    SameHolders(s, t);
    forall h' | h' in t.cos ensures Placed(t, h') && Informed(t, t.cos[h']) {
      assert Placed(s, h');
    }
  }

  lemma EnqueueKeeps<D>(s: Sys<D>, h: Handle)
    requires Inv(s) && At(s, h, Deciding)
    ensures Inv(Step(s, Enqueue(h)))
  {
    var t := Step(s, Enqueue(h));
    assert Placed(s, h) && Informed(s, s.cos[h]);
    SameHolders(s, t);
    forall h' | h' in t.cos ensures Placed(t, h') && Informed(t, t.cos[h']) {
      assert Placed(s, h');
    }
  }

  lemma StepKeeps<D>(s: Sys<D>, e: Event<D>)
    requires Inv(s)
    ensures Inv(Apply(s, e))
  {
    if Enabled(s, e) {
      match e
      case Lock(h) => ArrivingKeeps(s, h, Locking);
      case LockResume(h) => ResumeKeeps(s, h, Critical);
      case Change(h, d) => ChangeKeeps(s, h, d);
      case Wait(h, op) =>
        assert Placed(s, h);
        OwnerStepKeeps(s, h, Step(s, e).cos[h]);
      case Check(h) =>
        assert Placed(s, h);
        OwnerStepKeeps(s, h, Step(s, e).cos[h]);
      case Enqueue(h) => EnqueueKeeps(s, h);
      case ReleaseGuard(h) => ReleasingKeeps(s, h, s.cos[h].phase);
      case NotifyOne =>
        if s.waiters != [] {
          assert s.waiters[..1] == [s.waiters[0]];
          WakeKeeps(s, 1, s.notifiedAt);
        }
      case NotifyAll =>
        assert s.waiters[..|s.waiters|] == s.waiters && s.waiters[|s.waiters|..] == [];
        WakeKeeps(s, |s.waiters|, s.version);
      case Relock(h) => ArrivingKeeps(s, h, Relocking);
      case RelockResume(h) => ResumeKeeps(s, h, if s.cos[h].op.Some? then Checking else Critical);
      case Unlock(h) => ReleasingKeeps(s, h, Idle);
    }
  }

  ghost predicate Initial<D>(s: Sys<D>) {
    && s.mutex == UNLOCKED && s.granted == {} && s.waiters == [] && s.notifiedAt == 0
    && (forall h :: h in s.cos ==> s.cos[h].phase == Idle && !s.cos[h].owns && !s.cos[h].releasing)
  }

  lemma {:induction false} RunKeeps<D>(s: Sys<D>, es: seq<Event<D>>)
    requires Initial(s) || Inv(s)
    ensures Inv(Run(s, es))
    decreases |es|
  {
    if es == [] {
    } else {
      StepKeeps(s, es[0]);
      RunKeeps(Apply(s, es[0]), es[1..]);
    }
  }

  lemma StepMonotone<D>(s: Sys<D>, e: Event<D>)
    requires Inv(s)
    ensures s.notifiedAt <= Apply(s, e).notifiedAt && s.version <= Apply(s, e).version
  {
  }

  lemma {:induction false} Monotone<D>(s: Sys<D>, es: seq<Event<D>>)
    requires Inv(s)
    ensures s.notifiedAt <= Run(s, es).notifiedAt && s.version <= Run(s, es).version
    decreases |es|
  {
    if es == [] {
    } else {
      StepKeeps(s, es[0]);
      StepMonotone(s, es[0]);
      hide Apply, Inv;
      Monotone(Apply(s, es[0]), es[1..]);
    }
  }

  // No lost wake-up. Whatever happens before and after a notify_all, a
  // coroutine found asleep later decided to sleep having seen every change
  // made before that notify_all; if nothing has changed since, the predicate
  // it waits for is false.
  lemma NoLostWakeup<D>(s: Sys<D>, before: seq<Event<D>>, after: seq<Event<D>>, h: Handle)
    requires Initial(s)
    ensures var mid := Run(s, before);
            var now := Run(Apply(mid, NotifyAll), after);
            At(now, h, Asleep) ==>
              && h in now.waiters
              && mid.version <= now.cos[h].seen <= now.version
              && (now.version == mid.version && now.cos[h].op.Some? ==> !now.cos[h].op.value(now.data))
  {
    var mid := Run(s, before);
    RunKeeps(s, before);
    StepKeeps(mid, NotifyAll);
    var notified := Apply(mid, NotifyAll);
    RunKeeps(notified, after);
    Monotone(notified, after);
    var now := Run(notified, after);
    if At(now, h, Asleep) {
      assert Placed(now, h) && Informed(now, now.cos[h]);
    }
  }

  // The interleaving the two critical sections of await_suspend allow: a
  // notification and the relock both come between enqueueing and releasing.
  // The coroutine then waits behind its own guard, and the release hands the
  // lock on down the queue it stands in.
  lemma RelockBeforeRelease<D>(s: Sys<D>, h: Handle)
    requires Inv(s) && At(s, h, Deciding)
    ensures var t := Apply(Apply(Apply(s, Enqueue(h)), NotifyAll), Relock(h));
            && At(t, h, Relocking) && t.cos[h].releasing && t.cos[h].owns
            && t.mutex == s.mutex.(queue := s.mutex.queue + [h])
            && t.granted == s.granted
  {
    assert Placed(s, h) && Holds(s, Owner(h));
    var asleep := Apply(s, Enqueue(h));
    assert h in asleep.waiters by { assert asleep.waiters[|s.waiters|] == h; }
    var woken := Apply(asleep, NotifyAll);
    assert At(woken, h, Woken) && woken.cos[h].releasing && woken.mutex == s.mutex;
  }

  lemma ReleaseAfterRelock<D>(t: Sys<D>, h: Handle)
    requires Inv(t) && At(t, h, Relocking) && t.cos[h].releasing
    ensures t.mutex.queue != []
    ensures var u := Apply(t, ReleaseGuard(h));
            && At(u, h, Relocking) && !u.cos[h].owns && !u.cos[h].releasing
            && u.granted == t.granted + {t.mutex.queue[0]} && u.mutex.locked
  {
    assert Placed(t, h) && Holds(t, Owner(h));
    assert !Holds(t, Handed(h));
    assert h in t.mutex.queue;
  }

  // In wait(guard) or wait(guard, op), from the call to its return.
  predicate InWait<D>(s: Sys<D>, h: Handle) {
    h in s.cos && s.cos[h].phase in {Checking, Deciding, Asleep, Woken, Relocking}
  }

  // Whatever the step by which wait(guard, op) returns, op is true of the data
  // at that moment, and the caller holds the lock alone.
  lemma WaitReturnsUnderLock<D>(s: Sys<D>, e: Event<D>, h: Handle)
    requires Inv(s) && InWait(s, h) && At(Apply(s, e), h, Critical)
    ensures s.cos[h].op.Some? ==> s.cos[h].op.value(Apply(s, e).data)
    ensures forall x :: Holds(Apply(s, e), x) <==> x == Owner(h)
  {
    hide Inv, Holds, Arriving, Releasing;
    StepKeeps(s, e);
    AloneWhenCritical(Apply(s, e), h);
    ReturnsByCheck(s, e, h);
  }

  lemma AloneWhenCritical<D>(s: Sys<D>, h: Handle)
    requires Inv(s) && At(s, h, Critical)
    ensures forall x :: Holds(s, x) <==> x == Owner(h)
  {
    assert Placed(s, h) && Holds(s, Owner(h));
  }

  lemma ReturnsByCheck<D>(s: Sys<D>, e: Event<D>, h: Handle)
    requires Inv(s) && InWait(s, h) && At(Apply(s, e), h, Critical)
    ensures s.cos[h].op.Some? ==> s.cos[h].op.value(Apply(s, e).data)
  {
    assert Placed(s, h);
  }

  lemma WaitGoesOn<D>(s: Sys<D>, e: Event<D>, h: Handle)
    requires Inv(s) && InWait(s, h) && !At(Apply(s, e), h, Critical)
    ensures InWait(Apply(s, e), h) && Apply(s, e).cos[h].op == s.cos[h].op
  {
    assert Placed(s, h);
  }

  // The same over a run: take a call of wait(guard, op) and all that happens up
  // to the first moment at which its caller runs user code again. Then op is
  // true, however often it was woken in between, and it holds the lock alone.
  lemma {:induction false} WaitReturnsTrue<D>(s: Sys<D>, h: Handle, op: D -> bool, es: seq<Event<D>>)
    requires Inv(s) && InWait(s, h) && s.cos[h].op == Some(op)
    requires At(Run(s, es), h, Critical) && forall k :: 0 <= k < |es| ==> !At(Run(s, es[..k]), h, Critical)
    ensures op(Run(s, es).data)
    ensures forall x :: Holds(Run(s, es), x) <==> x == Owner(h)
    decreases |es|
  {
    hide Inv, Apply, Holds;
    if es == [] {
    } else {
      var t := Apply(s, es[0]);
      assert Run(s, es) == Run(t, es[1..]);
      if es[1..] == [] {
        WaitReturnsUnderLock(s, es[0], h);
      } else {
        assert es[..1][1..] == [] && Run(s, es[..1]) == Run(t, []) == t;
        WaitGoesOn(s, es[0], h);
        StepKeeps(s, es[0]);
        forall k | 0 <= k < |es[1..]| ensures !At(Run(t, es[1..][..k]), h, Critical) {
          assert es[..k + 1][1..] == es[1..][..k];
          assert Run(s, es[..k + 1]) == Run(t, es[1..][..k]);
        }
        WaitReturnsTrue(t, h, op, es[1..]);
      }
    }
  }

  // Every call of wait(guard, op), in every run.
  lemma EveryWaitReturnsTrue<D>(s: Sys<D>, before: seq<Event<D>>, h: Handle, op: D -> bool, es: seq<Event<D>>)
    requires Initial(s) && At(Run(s, before), h, Critical)
    requires var called := Apply(Run(s, before), Wait(h, Some(op)));
             At(Run(called, es), h, Critical) && forall k :: 0 <= k < |es| ==> !At(Run(called, es[..k]), h, Critical)
    ensures var now := Run(Apply(Run(s, before), Wait(h, Some(op))), es);
            op(now.data) && forall x :: Holds(now, x) <==> x == Owner(h)
  {
    hide Inv, Holds, Run;
    RunKeeps(s, before);
    StepKeeps(Run(s, before), Wait(h, Some(op)));
    WaitReturnsTrue(Apply(Run(s, before), Wait(h, Some(op))), h, op, es);
  }

  // A call of wait(guard), and one of wait(guard, op) that has found op false,
  // does not return before a notification.
  lemma {:induction false} SleepsUntilNotified<D>(s: Sys<D>, h: Handle, es: seq<Event<D>>)
    requires Inv(s) && h in s.cos && s.cos[h].phase in {Deciding, Asleep}
    requires forall k :: 0 <= k < |es| ==> !es[k].NotifyOne? && !es[k].NotifyAll?
    ensures h in Run(s, es).cos && Run(s, es).cos[h].phase in {Deciding, Asleep}
    decreases |es|
  {
    if es == [] {
    } else {
      hide Inv, Apply;
      StepKeeps(s, es[0]);
      SleepsOn(s, es[0], h);
      SleepsUntilNotified(Apply(s, es[0]), h, es[1..]);
    }
  }

  lemma SleepsOn<D>(s: Sys<D>, e: Event<D>, h: Handle)
    requires Inv(s) && h in s.cos && s.cos[h].phase in {Deciding, Asleep} && !e.NotifyOne? && !e.NotifyAll?
    ensures h in Apply(s, e).cos && Apply(s, e).cos[h].phase in {Deciding, Asleep}
  {
    assert Placed(s, h);
  }

  lemma WaitStarts<D>(s: Sys<D>, h: Handle, op: Option<D -> bool>)
    requires Inv(s) && At(s, h, Critical)
    ensures var t := Apply(s, Wait(h, op));
            && t.data == s.data && InWait(t, h) && t.cos[h].op == op
            && (op.None? ==> t.cos[h].phase == Deciding)
            && (op.Some? && op.value(s.data) ==> At(Apply(t, Check(h)), h, Critical))
            && (op.Some? && !op.value(s.data) ==> At(Apply(t, Check(h)), h, Deciding))
  {
  }

  // notify_one takes exactly the front waiter off the queue, notify_all takes
  // them all; nobody else notices, and neither touches the mutex or the data.
  lemma NotifyWakes<D>(s: Sys<D>)
    requires Inv(s)
    ensures var t := Apply(s, NotifyOne);
            && t.mutex == s.mutex && t.granted == s.granted && t.data == s.data && t.cos.Keys == s.cos.Keys
            && (s.waiters == [] ==> t == s)
            && (s.waiters != [] ==> t.waiters == s.waiters[1..])
            && forall h :: h in s.cos ==>
                 t.cos[h] == if s.waiters != [] && h == s.waiters[0] then s.cos[h].(phase := Woken) else s.cos[h]
    ensures var t := Apply(s, NotifyAll);
            && t.mutex == s.mutex && t.granted == s.granted && t.data == s.data && t.cos.Keys == s.cos.Keys
            && t.waiters == []
            && forall h :: h in s.cos ==>
                 t.cos[h] == if s.cos[h].phase == Asleep then s.cos[h].(phase := Woken) else s.cos[h]
  {
    forall h | h in s.cos ensures h in s.waiters <==> s.cos[h].phase == Asleep { assert Placed(s, h); }
  }

  // First come, first woken: as long as nobody calls notify_all, the k-th
  // notify_one takes the k-th of the present waiters, whoever joins later.
  lemma {:induction false} WokenInTurn<D>(s: Sys<D>, es: seq<Event<D>>)
    requires Inv(s) && forall i :: 0 <= i < |es| ==> !es[i].NotifyAll?
    ensures var k := |set i | 0 <= i < |es| && es[i].NotifyOne?|;
            k <= |s.waiters| ==> s.waiters[k..] <= Run(s, es).waiters
    decreases |es|
  {
    hide Inv, Placed;
    if es == [] {
      assert s.waiters[0..] == s.waiters;
    } else {
      var t, rest := Apply(s, es[0]), es[1..];
      StepKeeps(s, es[0]);
      WokenInTurn(t, rest);
      CountNext(es);
      QueueMoves(s, es[0]);
    }
  }

  lemma QueueMoves<D>(s: Sys<D>, e: Event<D>)
    requires !e.NotifyAll?
    ensures if e.NotifyOne? then s.waiters != [] ==> Apply(s, e).waiters == s.waiters[1..]
            else s.waiters <= Apply(s, e).waiters
  {
  }

  lemma CountNext<D>(es: seq<Event<D>>)
    requires es != []
    ensures |set i | 0 <= i < |es| && es[i].NotifyOne?| ==
              (if es[0].NotifyOne? then 1 else 0) + |set i | 0 <= i < |es[1..]| && es[1..][i].NotifyOne?|
  {
    var all := seq(|es|, i requires 0 <= i < |es| => es[i].NotifyOne?);
    var rest := seq(|es[1..]|, i requires 0 <= i < |es[1..]| => es[1..][i].NotifyOne?);
    assert all[1..] == rest;
    HowManyHead(all);
    HowManyIs(all);
    HowManyIs(rest);
    assert (set i | 0 <= i < |es| && es[i].NotifyOne?) == set i | 0 <= i < |all| && all[i];
    assert (set i | 0 <= i < |es[1..]| && es[1..][i].NotifyOne?) == set i | 0 <= i < |rest| && rest[i];
  }

  // Nobody but sleepers can be stuck: while some coroutine is neither idle nor
  // asleep, a step other than a notification or a change of data is possible.
  lemma Progress<D>(s: Sys<D>, h: Handle) returns (e: Event<D>)
    requires Inv(s) && h in s.cos && s.cos[h].phase !in {Idle, Asleep}
    ensures Enabled(s, e) && !e.NotifyOne? && !e.NotifyAll? && !e.Change?
  {
    assert Placed(s, h);
    if h in s.mutex.queue {
      assert s.mutex.locked;
      var x :| Holds(s, x);
      match x {
        case Owner(o) =>
          assert Placed(s, o);
          e := if s.cos[o].releasing then ReleaseGuard(o)
               else if s.cos[o].phase == Critical then Unlock(o)
               else if s.cos[o].phase == Checking then Check(o)
               else Enqueue(o);
        case Handed(o) =>
          assert Placed(s, o);
          e := if s.cos[o].phase == Locking then LockResume(o) else RelockResume(o);
      }
    } else {
      e := match s.cos[h].phase
           case Locking => LockResume(h)
           case Critical => Unlock(h)
           case Checking => Check(h)
           case Deciding => Enqueue(h)
           case Woken => Relock(h)
           case _ => RelockResume(h);
    }
  }
}
