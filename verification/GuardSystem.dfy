// Every interleaving of lock, relock, unlock, move and destruction over any
// number of mutexes, guards and coroutines. One step is one critical section
// or one resumption; LockGuard::unlock is a single step, so nobody sees the
// lock handed on while the guard still says that it owns it.

module GuardSystem {
  import opened Common
  import opened AsyncMutex

  type MutexId = nat
  type GuardId = nat

  datatype Guard = Guard(mutex: Option<MutexId>, owns: bool)

  // What a coroutine suspended in lock() or relock() is waiting for; relock
  // names the guard it will mark as owner.
  datatype Want = Want(mutex: MutexId, guard: Option<GuardId>)

  datatype Sys = Sys(
    mutexes: map<MutexId, Mutex>,
    guards: map<GuardId, Guard>,
    wants: map<Handle, Want>,
    granted: set<Handle>)

  datatype Event =
    | Lock(h: Handle, m: MutexId)
    | LockResume(h: Handle, g: GuardId)
    | Relock(h: Handle, g: GuardId)
    | RelockResume(h: Handle)
    | Unlock(g: GuardId)
    | MoveNew(g: GuardId, from: GuardId)
    | MoveAssign(g: GuardId, from: GuardId)
    | Destroy(g: GuardId)

  // Some relock in progress still points at g.
  predicate Awaited(s: Sys, g: GuardId) {
    exists h :: h in s.wants && s.wants[h].guard == Some(g)
  }

  // What the language sees to: names exist or are new, and a coroutine waits
  // at one place.
  predicate Named(s: Sys, e: Event) {
    match e
    case Lock(h, m) => h !in s.wants && m in s.mutexes
    case LockResume(h, g) => h in s.granted && h in s.wants && s.wants[h].guard == None && g !in s.guards
    case Relock(h, g) =>
      h !in s.wants && g in s.guards && s.guards[g].mutex.Some? && s.guards[g].mutex.value in s.mutexes
    case RelockResume(h) =>
      h in s.granted && h in s.wants && s.wants[h].guard.Some? && s.wants[h].guard.value in s.guards
    case Unlock(g) => g in s.guards
    case MoveNew(g, from) => g !in s.guards && from in s.guards
    case MoveAssign(g, from) => g in s.guards && from in s.guards
    case Destroy(g) => g in s.guards
  }

  // What the caller sees to: while a relock on a guard is in progress, nothing
  // is moved out of it, nothing is moved into it but a guard of the same
  // mutex, and it is not destroyed. MoveIsSafeIff shows that no more can be
  // allowed of moves.
  predicate Safe(s: Sys, e: Event)
    requires Named(s, e)
  {
    match e
    case MoveNew(_, from) => !Awaited(s, from)
    case MoveAssign(g, from) =>
      g == from || (!Awaited(s, from) && (Awaited(s, g) ==> s.guards[g].mutex == s.guards[from].mutex))
    case Destroy(g) => !Awaited(s, g)
    case _ => true
  }

  predicate Enabled(s: Sys, e: Event) { Named(s, e) && Safe(s, e) }

  function ArriveAt(s: Sys, h: Handle, want: Want): Sys
    requires want.mutex in s.mutexes
  {
    var (m', suspended) := Arrive(s.mutexes[want.mutex], h);
    s.(mutexes := s.mutexes[want.mutex := m'], wants := s.wants[h := want],
       granted := if suspended then s.granted else s.granted + {h})
  }

  function Resumed(s: Sys, h: Handle): Sys {
    s.(wants := s.wants - {h}, granted := s.granted - {h})
  }

  // h stops waiting and guard g owns the mutex it waited for.
  function ResumedWith(s: Sys, h: Handle, g: GuardId): Sys
    requires h in s.wants
  {
    Resumed(s, h).(guards := s.guards[g := Guard(Some(s.wants[h].mutex), true)])
  }

  function ReleaseGuard(s: Sys, g: GuardId): Sys
    requires g in s.guards
  {
    var guard := s.guards[g];
    if guard.owns && guard.mutex.Some? && guard.mutex.value in s.mutexes then
      var (m', next) := Release(s.mutexes[guard.mutex.value]);
      s.(mutexes := s.mutexes[guard.mutex.value := m'], guards := s.guards[g := guard.(owns := false)],
         granted := if next.Some? then s.granted + {next.value} else s.granted)
    else s
  }

  function Transfer(s: Sys, from: GuardId, to: GuardId): Sys
    requires from in s.guards
  {
    s.(guards := s.guards[to := s.guards[from]][from := Guard(None, false)])
  }

  // An event that is not enabled changes nothing, so every list is a run.
  function Apply(s: Sys, e: Event): Sys {
    if Enabled(s, e) then Force(s, e) else s
  }

  function Force(s: Sys, e: Event): Sys
    requires Named(s, e)
  {
    match e
    case Lock(h, m) => ArriveAt(s, h, Want(m, None))
    case LockResume(h, g) => ResumedWith(s, h, g)
    case Relock(h, g) => ArriveAt(s, h, Want(s.guards[g].mutex.value, Some(g)))
    case RelockResume(h) =>
      var g := s.wants[h].guard.value;
      Resumed(s, h).(guards := s.guards[g := s.guards[g].(owns := true)])
    case Unlock(g) => ReleaseGuard(s, g)
    case MoveNew(g, from) => Transfer(s, from, g)
    case MoveAssign(g, from) => if g == from then s else Transfer(ReleaseGuard(s, g), from, g)
    case Destroy(g) => var s' := ReleaseGuard(s, g); s'.(guards := s'.guards - {g})
  }

  function Run(s: Sys, es: seq<Event>): Sys
    decreases |es|
  {
    if es == [] then s else Run(Apply(s, es[0]), es[1..])
  }

  // --- Who holds a mutex ---

  datatype Holder = ByGuard(g: GuardId) | Handed(h: Handle)

  ghost predicate Holds(s: Sys, m: MutexId, x: Holder) {
    match x
    case ByGuard(g) => g in s.guards && s.guards[g] == Guard(Some(m), true)
    case Handed(h) => h in s.granted && h in s.wants && s.wants[h].mutex == m
  }

  // One holder when locked, none otherwise.
  ghost predicate Exclusive(s: Sys, m: MutexId)
    requires m in s.mutexes
  {
    && (s.mutexes[m].locked <==> exists x :: Holds(s, m, x))
    && (forall x, y :: Holds(s, m, x) && Holds(s, m, y) ==> x == y)
  }

  ghost predicate Linked(s: Sys) {
    && s.granted <= s.wants.Keys
    && (forall h :: h in s.wants ==> s.wants[h].mutex in s.mutexes)
    && (forall h :: h in s.wants && s.wants[h].guard.Some? ==>
          s.wants[h].guard.value in s.guards &&
          s.guards[s.wants[h].guard.value].mutex == Some(s.wants[h].mutex))
    && (forall g :: g in s.guards && s.guards[g].mutex.Some? ==> s.guards[g].mutex.value in s.mutexes)
    && (forall g :: g in s.guards && s.guards[g].owns ==> s.guards[g].mutex.Some?)
  }

  // A wait queue holds exactly the coroutines not yet granted, once each.
  ghost predicate Queued(s: Sys, m: MutexId)
    requires m in s.mutexes
  {
    var q := s.mutexes[m].queue;
    && Sound(s.mutexes[m]) && NoDuplicates(q)
    && (forall h :: h in q <==> h in s.wants && s.wants[h].mutex == m && h !in s.granted)
  }

  ghost predicate Inv(s: Sys) {
    && Linked(s)
    && (forall m :: m in s.mutexes ==> Queued(s, m))
    && (forall m :: m in s.mutexes ==> Exclusive(s, m))
  }

  // x takes over from before; nobody else is new.
  lemma TakesOver(s: Sys, t: Sys, m: MutexId, before: Holder, x: Holder)
    requires m in s.mutexes && m in t.mutexes && Exclusive(s, m) && t.mutexes[m].locked
    requires Holds(s, m, before) && !Holds(t, m, before) && Holds(t, m, x)
    requires forall y :: Holds(t, m, y) && y != x ==> Holds(s, m, y)
    ensures Exclusive(t, m)
  {
  }

  lemma Acquires(s: Sys, t: Sys, m: MutexId, x: Holder)
    requires m in s.mutexes && m in t.mutexes && Exclusive(s, m)
    requires !s.mutexes[m].locked && t.mutexes[m].locked && Holds(t, m, x)
    requires forall y :: Holds(t, m, y) && y != x ==> Holds(s, m, y)
    ensures Exclusive(t, m)
  {
  }

  lemma Frees(s: Sys, t: Sys, m: MutexId, before: Holder)
    requires m in s.mutexes && m in t.mutexes && Exclusive(s, m) && !t.mutexes[m].locked
    requires Holds(s, m, before) && !Holds(t, m, before)
    requires forall y :: Holds(t, m, y) ==> Holds(s, m, y)
    ensures Exclusive(t, m)
  {
  }

  lemma SameHolders(s: Sys, t: Sys, m: MutexId)
    requires m in s.mutexes && m in t.mutexes && Exclusive(s, m)
    requires t.mutexes[m].locked == s.mutexes[m].locked
    requires forall y :: Holds(t, m, y) <==> Holds(s, m, y)
    ensures Exclusive(t, m)
  {
  }

  lemma ArriveKeeps(s: Sys, h: Handle, want: Want)
    requires Inv(s) && h !in s.wants && want.mutex in s.mutexes
    requires want.guard.Some? ==> want.guard.value in s.guards && s.guards[want.guard.value].mutex == Some(want.mutex)
    ensures Inv(ArriveAt(s, h, want))
  {
    hide Exclusive, Queued;
    var t := ArriveAt(s, h, want);
    forall m | m in t.mutexes ensures Exclusive(t, m) && Queued(t, m) {
      ArriveQueued(s, h, want, m);
      ArriveExclusive(s, h, want, m);
    }
  }

  lemma ArriveQueued(s: Sys, h: Handle, want: Want, m: MutexId)
    requires Linked(s) && h !in s.wants && want.mutex in s.mutexes && m in s.mutexes && Queued(s, m)
    ensures m in ArriveAt(s, h, want).mutexes && Queued(ArriveAt(s, h, want), m)
  {
  }

  lemma ArriveExclusive(s: Sys, h: Handle, want: Want, m: MutexId)
    requires Linked(s) && h !in s.wants && want.mutex in s.mutexes && m in s.mutexes && Exclusive(s, m)
    ensures m in ArriveAt(s, h, want).mutexes && Exclusive(ArriveAt(s, h, want), m)
  {
    hide Exclusive;
    var t := ArriveAt(s, h, want);
    if m == want.mutex && !s.mutexes[m].locked {
      Acquires(s, t, m, Handed(h));
    } else {
      SameHolders(s, t, m);
    }
  }

  lemma ResumeKeeps(s: Sys, h: Handle, g: GuardId)
    requires Inv(s) && h in s.granted
    requires match s.wants[h].guard case None => g !in s.guards case Some(g') => g == g'
    ensures Inv(ResumedWith(s, h, g))
  {
    hide Exclusive, Queued;
    var t := ResumedWith(s, h, g);
    forall m | m in t.mutexes ensures Exclusive(t, m) && Queued(t, m) {
      ResumeQueued(s, h, g, m);
      ResumeExclusive(s, h, g, m);
    }
  }

  lemma ResumeQueued(s: Sys, h: Handle, g: GuardId, m: MutexId)
    requires Linked(s) && h in s.granted && m in s.mutexes && Queued(s, m)
    ensures Queued(ResumedWith(s, h, g), m)
  {
  }

  lemma ResumeExclusive(s: Sys, h: Handle, g: GuardId, m: MutexId)
    requires Linked(s) && h in s.granted && m in s.mutexes && Exclusive(s, m)
    requires match s.wants[h].guard case None => g !in s.guards case Some(g') => g == g'
    ensures Exclusive(ResumedWith(s, h, g), m)
  {
    var t := ResumedWith(s, h, g);
    if m == s.wants[h].mutex {
      assert Holds(s, m, Handed(h)) && !Holds(s, m, ByGuard(g));
      hide Exclusive;
      TakesOver(s, t, m, Handed(h), ByGuard(g));
    } else {
      hide Exclusive;
      SameHolders(s, t, m);
    }
  }

  lemma ReleaseKeeps(s: Sys, g: GuardId)
    requires Inv(s) && g in s.guards
    ensures Inv(ReleaseGuard(s, g)) && !ReleaseGuard(s, g).guards[g].owns
    ensures ReleaseGuard(s, g).guards.Keys == s.guards.Keys
    ensures ReleaseGuard(s, g).wants == s.wants
    ensures forall g' :: g' in s.guards && g' != g ==> ReleaseGuard(s, g).guards[g'] == s.guards[g']
  {
    hide Exclusive, Queued;
    if s.guards[g].owns {
      var t := ReleaseGuard(s, g);
      ReleaseLinked(s, g);
      forall m | m in t.mutexes ensures Exclusive(t, m) && Queued(t, m) {
        ReleaseQueued(s, g, m);
        ReleaseExclusive(s, g, m);
      }
    }
  }

  lemma FrontWaits(s: Sys, m: MutexId)
    requires m in s.mutexes && Queued(s, m) && s.mutexes[m].queue != []
    ensures var h := s.mutexes[m].queue[0];
            h in s.wants && s.wants[h].mutex == m && h !in s.granted && s.mutexes[m].locked
  {
    assert s.mutexes[m].queue[0] in s.mutexes[m].queue;
  }

  lemma ReleaseLinked(s: Sys, g: GuardId)
    requires Linked(s) && g in s.guards && s.guards[g].owns
    requires Queued(s, s.guards[g].mutex.value)
    ensures Linked(ReleaseGuard(s, g))
  {
    hide Queued;
    var m := s.guards[g].mutex.value;
    if s.mutexes[m].queue != [] { FrontWaits(s, m); }
  }

  lemma ReleaseQueued(s: Sys, g: GuardId, m: MutexId)
    requires Linked(s) && g in s.guards && s.guards[g].owns && m in s.mutexes && Queued(s, m)
    requires Queued(s, s.guards[g].mutex.value)
    ensures Queued(ReleaseGuard(s, g), m)
  {
    var q := s.mutexes[s.guards[g].mutex.value].queue;
    if q != [] {
      FrontWaits(s, s.guards[g].mutex.value);
      assert q == [q[0]] + q[1..];
    }
  }

  lemma ReleaseExclusive(s: Sys, g: GuardId, m: MutexId)
    requires Linked(s) && g in s.guards && s.guards[g].owns && m in s.mutexes && Exclusive(s, m)
    requires Queued(s, s.guards[g].mutex.value)
    ensures Exclusive(ReleaseGuard(s, g), m)
  {
    hide Exclusive, Queued;
    var t, m0 := ReleaseGuard(s, g), s.guards[g].mutex.value;
    assert Holds(s, m0, ByGuard(g));
    var q := s.mutexes[m0].queue;
    if q != [] { FrontWaits(s, m0); }
    if m != m0 {
      SameHolders(s, t, m);
    } else if q != [] {
      TakesOver(s, t, m, ByGuard(g), Handed(q[0]));
    } else {
      Frees(s, t, m, ByGuard(g));
    }
  }

  lemma TransferKeeps(s: Sys, from: GuardId, to: GuardId)
    requires Inv(s) && from in s.guards && from != to && !Awaited(s, from)
    requires Awaited(s, to) ==> to in s.guards && s.guards[to].mutex == s.guards[from].mutex
    requires to in s.guards ==> !s.guards[to].owns
    ensures Inv(Transfer(s, from, to))
  {
    var t := Transfer(s, from, to);
    forall m | m in t.mutexes ensures Exclusive(t, m) && Queued(t, m) {
      assert Exclusive(s, m) && Queued(s, m);
      if s.guards[from] == Guard(Some(m), true) {
        assert Holds(s, m, ByGuard(from));
        TakesOver(s, t, m, ByGuard(from), ByGuard(to));
      } else {
        SameHolders(s, t, m);
      }
    }
  }

  lemma DropKeeps(s: Sys, g: GuardId)
    requires Inv(s) && g in s.guards && !s.guards[g].owns && !Awaited(s, g)
    ensures Inv(s.(guards := s.guards - {g}))
  {
    var t := s.(guards := s.guards - {g});
    forall m | m in t.mutexes ensures Exclusive(t, m) && Queued(t, m) {
      assert Exclusive(s, m) && Queued(s, m);
      SameHolders(s, t, m);
    }
  }

  lemma StepKeeps(s: Sys, e: Event)
    requires Inv(s)
    ensures Inv(Apply(s, e))
  {
    if Enabled(s, e) {
      match e
      case Lock(h, m) => ArriveKeeps(s, h, Want(m, None));
      case LockResume(h, g) => ResumeKeeps(s, h, g);
      case Relock(h, g) => ArriveKeeps(s, h, Want(s.guards[g].mutex.value, Some(g)));
      case RelockResume(h) => ResumeKeeps(s, h, s.wants[h].guard.value);
      case Unlock(g) => ReleaseKeeps(s, g);
      case MoveNew(g, from) =>
        assert !Awaited(s, g);
        TransferKeeps(s, from, g);
      case MoveAssign(g, from) =>
        if g != from {
          ReleaseKeeps(s, g);
          TransferKeeps(ReleaseGuard(s, g), from, g);
        }
      case Destroy(g) =>
        ReleaseKeeps(s, g);
        DropKeeps(ReleaseGuard(s, g), g);
    }
  }

  ghost predicate Initial(s: Sys) {
    && (forall m :: m in s.mutexes ==> s.mutexes[m] == UNLOCKED)
    && s.guards == map[] && s.wants == map[] && s.granted == {}
  }

  lemma InitialHolds(s: Sys)
    requires Initial(s)
    ensures Inv(s)
  {
  }

  ghost function Holders(s: Sys, m: MutexId): set<Holder> {
    (set g | g in s.guards && s.guards[g] == Guard(Some(m), true) :: ByGuard(g)) +
    (set h | h in s.granted && h in s.wants && s.wants[h].mutex == m :: Handed(h))
  }

  lemma CountHolders(s: Sys, m: MutexId)
    requires m in s.mutexes && Exclusive(s, m)
    ensures |Holders(s, m)| == if s.mutexes[m].locked then 1 else 0
  {
    assert forall x :: x in Holders(s, m) <==> Holds(s, m, x);
    if s.mutexes[m].locked {
      var x :| Holds(s, m, x);
      assert Holders(s, m) == {x};
    } else {
      assert Holders(s, m) == {};
    }
  }

  lemma {:induction false} RunKeeps(s: Sys, es: seq<Event>)
    requires Inv(s)
    ensures Inv(Run(s, es))
    decreases |es|
  {
    if es == [] {
    } else {
      StepKeeps(s, es[0]);
      RunKeeps(Apply(s, es[0]), es[1..]);
    }
  }

  // Mutual exclusion with handoff, in every run: the guards that own a mutex
  // and the coroutines that have been handed it but not yet resumed are
  // together exactly one when lock_ is true, and none when it is false.
  lemma MutualExclusion(s: Sys, es: seq<Event>)
    requires Initial(s)
    ensures var t := Run(s, es);
            forall m :: m in t.mutexes ==> |Holders(t, m)| == if t.mutexes[m].locked then 1 else 0
  {
    InitialHolds(s);
    RunKeeps(s, es);
    var t := Run(s, es);
    forall m | m in t.mutexes ensures |Holders(t, m)| == if t.mutexes[m].locked then 1 else 0 {
      CountHolders(t, m);
    }
  }

  // --- Which moves keep mutual exclusion ---

  ghost predicate OneHolder(s: Sys, m: MutexId)
    requires m in s.mutexes
  {
    |Holders(s, m)| == if s.mutexes[m].locked then 1 else 0
  }

  lemma OneHolderIff(s: Sys, m: MutexId)
    requires m in s.mutexes
    ensures OneHolder(s, m) <==> Exclusive(s, m)
  {
    HoldersAre(s, m);
    hide Holders, Holds;
    var all := Holders(s, m);
    if x, y :| x in all && y in all && x != y {
      Subsets({x, y}, all);
      assert Holds(s, m, x) && Holds(s, m, y);
    } else if x :| x in all {
      assert all == {x};
      assert Holds(s, m, x);
    } else {
      assert all == {};
    }
  }

  lemma HoldersAre(s: Sys, m: MutexId)
    ensures forall x :: x in Holders(s, m) <==> Holds(s, m, x)
  {
  }

  lemma Subsets(a: set<Holder>, b: set<Holder>)
    requires a <= b
    ensures |a| <= |b|
  {
    assert b == a + (b - a);
  }

  // The relock of h is for mutex m, but its guard names another one by now,
  // or none.
  ghost predicate Stale(s: Sys, m: MutexId, h: Handle) {
    && m in s.mutexes && Queued(s, m)
    && h in s.wants && s.wants[h].mutex == m && s.wants[h].guard.Some?
    && (forall x :: x in s.wants && s.wants[x].guard.Some? ==> s.wants[x].guard.value in s.guards)
    && s.guards[s.wants[h].guard.value].mutex != Some(m)
  }

  // Once h has been handed the lock and resumes, nobody holds m.
  lemma StaleGrantBreaks(s: Sys, m: MutexId, h: Handle)
    requires Stale(s, m, h) && Exclusive(s, m) && h in s.granted
    ensures m in Run(s, [RelockResume(h)]).mutexes && !OneHolder(Run(s, [RelockResume(h)]), m)
  {
    var es := [RelockResume(h)];
    var t := Apply(s, es[0]);
    assert Run(s, es) == t by { assert es[1..] == []; }
    assert Holds(s, m, Handed(h));
    forall x ensures Holds(t, m, x) ==> Holds(s, m, x) && x != Handed(h) { }
    OneHolderIff(t, m);
  }

  lemma Unused(ids: set<GuardId>) returns (g: GuardId)
    ensures forall x :: x in ids ==> x < g
    decreases ids
  {
    if ids == {} {
      g := 0;
    } else {
      var x :| x in ids;
      g := Unused(ids - {x});
      assert forall y :: y in ids ==> y == x || y in ids - {x};
      g := if x < g then g else x + 1;
    }
  }

  // A release brings a stale waiter one place nearer to the lock.
  lemma StaleUnlock(s: Sys, m: MutexId, h: Handle, i: nat, g: GuardId)
    requires Stale(s, m, h) && i < |s.mutexes[m].queue| && s.mutexes[m].queue[i] == h
    requires Holds(s, m, ByGuard(g))
    ensures var t, q := Apply(s, Unlock(g)), s.mutexes[m].queue;
            && Stale(t, m, h) && t.mutexes[m].queue == q[1..] && Holds(t, m, Handed(q[0]))
  {
    var t, q := Apply(s, Unlock(g)), s.mutexes[m].queue;
    FrontWaits(s, m);
    assert q == [q[0]] + q[1..];
  }

  // The coroutine that has been handed m, which is not h, resumes.
  function ResumeEvent(s: Sys, x: Handle, g: GuardId): Event
    requires x in s.wants
  {
    if s.wants[x].guard.Some? then RelockResume(x) else LockResume(x, g)
  }

  lemma StaleResume(s: Sys, m: MutexId, h: Handle, x: Handle, g: GuardId)
    requires Stale(s, m, h) && h !in s.granted && Holds(s, m, Handed(x)) && g !in s.guards && Exclusive(s, m)
    ensures var t := Apply(s, ResumeEvent(s, x, g));
            && Stale(t, m, h) && t.mutexes == s.mutexes
            && forall y :: Holds(t, m, y) ==> y.ByGuard?
  {
    var t := Apply(s, ResumeEvent(s, x, g));
    assert t.wants == s.wants - {x} && t.granted == s.granted - {x};
    forall y ensures Holds(t, m, y) ==> y.ByGuard? {
      if Holds(t, m, y) && y.Handed? { assert Holds(s, m, y); }
    }
  }

  lemma StaleHasMutex(s: Sys, m: MutexId, h: Handle)
    requires Stale(s, m, h)
    ensures m in s.mutexes && Queued(s, m) && h in s.wants && s.wants[h].mutex == m
    ensures h !in s.granted ==> h in s.mutexes[m].queue && s.mutexes[m].locked
  {
    if h !in s.granted { assert s.mutexes[m].queue != []; }
  }

  lemma SomeHolder(s: Sys, m: MutexId) returns (x: Holder)
    requires m in s.mutexes && Exclusive(s, m) && s.mutexes[m].locked
    ensures Holds(s, m, x)
  {
    x :| Holds(s, m, x);
  }

  // Whoever stands before it in the queue, a stale waiter gets the lock in
  // some run, and at the latest then the mutex is held wrongly.
  lemma StaleBreaks(s: Sys, m: MutexId, h: Handle, i: nat, x: Holder) returns (es: seq<Event>)
    requires Stale(s, m, h) && i < |s.mutexes[m].queue| && s.mutexes[m].queue[i] == h && h !in s.granted
    requires Exclusive(s, m) && Holds(s, m, x)
    ensures m in Run(s, es).mutexes && !OneHolder(Run(s, es), m)
    decreases i, if x.Handed? then 1 else 0
  {
    hide Stale, Exclusive, OneHolder, Holders, Queued;
    var e: Event;
    if x.Handed? {
      var g := Unused(s.guards.Keys);
      StaleResume(s, m, h, x.h, g);
      e := ResumeEvent(s, x.h, g);
    } else {
      StaleUnlock(s, m, h, i, x.g);
      e := Unlock(x.g);
    }
    var t := Apply(s, e);
    StaleHasMutex(t, m, h);
    OneHolderIff(t, m);
    var rest: seq<Event> := [];
    if Exclusive(t, m) {
      if h in t.granted {
        StaleGrantBreaks(t, m, h);
        rest := [RelockResume(h)];
      } else {
        var y := Handed(s.mutexes[m].queue[0]);
        if x.Handed? { y := SomeHolder(t, m); }
        rest := StaleBreaks(t, m, h, if x.Handed? then i else i - 1, y);
      }
    }
    es := [e] + rest;
    assert es[1..] == rest;
  }

  // What a move that is not safe leaves behind.
  lemma UnsafeMoveIsStale(s: Sys, e: Event) returns (m: MutexId, h: Handle)
    requires Inv(s) && Named(s, e) && (e.MoveNew? || e.MoveAssign?) && !Safe(s, e)
    ensures Stale(Force(s, e), m, h)
  {
    var g := if Awaited(s, e.from) then e.from else e.g;
    h :| h in s.wants && s.wants[h].guard == Some(g);
    m := s.wants[h].mutex;
    if e.MoveAssign? { ReleaseKeeps(s, e.g); }
    assert Queued(Force(s, e), m);
  }

  // For every move that is not safe there is a run that ends the mutual
  // exclusion of some mutex, whether the relock concerned has been granted
  // already or is still queued.
  lemma UnsafeMoveBreaks(s: Sys, e: Event) returns (es: seq<Event>, m: MutexId)
    requires Inv(s) && Named(s, e) && (e.MoveNew? || e.MoveAssign?) && !Safe(s, e)
    ensures m in Run(Force(s, e), es).mutexes && !OneHolder(Run(Force(s, e), es), m)
  {
    hide Stale, Exclusive, OneHolder, Holders, Queued, Force, Safe;
    var h;
    m, h := UnsafeMoveIsStale(s, e);
    var t := Force(s, e);
    StaleHasMutex(t, m, h);
    OneHolderIff(t, m);
    if !Exclusive(t, m) {
      es := [];
    } else if h in t.granted {
      StaleGrantBreaks(t, m, h);
      es := [RelockResume(h)];
    } else {
      var x := SomeHolder(t, m);
      var i: nat :| i < |t.mutexes[m].queue| && t.mutexes[m].queue[i] == h;
      es := StaleBreaks(t, m, h, i, x);
    }
  }

  // The exact condition on moves: a move construction or move assignment
  // leaves one holder when locked and none when free, in every continuation,
  // if and only if it is safe.
  lemma MoveIsSafeIff(s: Sys, e: Event)
    requires Inv(s) && Named(s, e) && (e.MoveNew? || e.MoveAssign?)
    ensures Safe(s, e) <==>
              forall es: seq<Event>, m: MutexId ::
                m in Run(Force(s, e), es).mutexes ==> OneHolder(Run(Force(s, e), es), m)
  {
    hide OneHolder, Force, Safe, Inv;
    if Safe(s, e) {
      StepKeeps(s, e);
      forall es: seq<Event>, m: MutexId | m in Run(Force(s, e), es).mutexes
        ensures OneHolder(Run(Force(s, e), es), m)
      {
        RunKeeps(Force(s, e), es);
        InvExcludes(Run(Force(s, e), es), m);
      }
    } else {
      var es, m := UnsafeMoveBreaks(s, e);
    }
  }

  lemma InvExcludes(s: Sys, m: MutexId)
    requires Inv(s) && m in s.mutexes
    ensures OneHolder(s, m)
  {
    CountHolders(s, m);
  }

  // Destroying a guard is a matter of lifetime, not of exclusion: each mutex
  // keeps one holder, but a relock in progress is left pointing at a guard that
  // is gone, if and only if there is one.
  lemma DestroyDangles(s: Sys, g: GuardId)
    requires Inv(s) && g in s.guards
    ensures var t := Force(s, Destroy(g));
            && (forall m :: m in t.mutexes ==> OneHolder(t, m))
            && (Awaited(s, g) <==>
                  exists h :: h in t.wants && t.wants[h].guard.Some? && t.wants[h].guard.value !in t.guards)
  {
    ReleaseKeeps(s, g);
    var u, t := ReleaseGuard(s, g), Force(s, Destroy(g));
    forall m | m in t.mutexes ensures OneHolder(t, m) {
      assert Exclusive(u, m);
      SameHolders(u, t, m);
      CountHolders(t, m);
    }
  }

  // --- Each mutex of the system is served first come, first served ---

  // The critical sections of mutex m that an enabled event enters.
  function OpsOn(s: Sys, e: Event, m: MutexId): seq<Op>
    requires Enabled(s, e)
  {
    match e
    case Lock(h, m') => if m == m' then [ArriveOp(h)] else []
    case Relock(h, g) => if s.guards[g].mutex == Some(m) then [ArriveOp(h)] else []
    case Unlock(g) => ReleasesOf(s, g, m)
    case MoveAssign(g, from) => if g == from then [] else ReleasesOf(s, g, m)
    case Destroy(g) => ReleasesOf(s, g, m)
    case _ => []
  }

  function ReleasesOf(s: Sys, g: GuardId, m: MutexId): seq<Op>
    requires g in s.guards
  {
    if s.guards[g] == Guard(Some(m), true) then [ReleaseOp] else []
  }

  function History(s: Sys, es: seq<Event>, m: MutexId): seq<Op>
    decreases |es|
  {
    if es == [] then []
    else (if Enabled(s, es[0]) then OpsOn(s, es[0], m) else []) + History(Apply(s, es[0]), es[1..], m)
  }

  lemma StepProjects(s: Sys, e: Event, m: MutexId)
    requires Inv(s) && m in s.mutexes
    ensures m in Apply(s, e).mutexes
    ensures Apply(s, e).mutexes[m] ==
              RunOps(s.mutexes[m], if Enabled(s, e) then OpsOn(s, e, m) else [])
  {
    if Enabled(s, e) {
      var ops := OpsOn(s, e, m);
      if ops != [] {
        assert ops[1..] == [];
        assert RunOps(s.mutexes[m], ops) == ApplyOp(s.mutexes[m], ops[0]);
      }
    }
  }

  lemma {:induction false} RunConcat(m: Mutex, a: seq<Op>, b: seq<Op>)
    ensures RunOps(m, a + b) == RunOps(RunOps(m, a), b)
    decreases |a|
  {
    if a == [] {
      assert a + b == b;
    } else {
      assert (a + b)[1..] == a[1..] + b;
      RunConcat(ApplyOp(m, a[0]), a[1..], b);
    }
  }

  lemma {:induction false} RunProjects(s: Sys, es: seq<Event>, m: MutexId)
    requires Inv(s) && m in s.mutexes
    ensures m in Run(s, es).mutexes
    ensures Run(s, es).mutexes[m] == RunOps(s.mutexes[m], History(s, es, m))
    decreases |es|
  {
    if es == [] {
    } else {
      StepKeeps(s, es[0]);
      StepProjects(s, es[0], m);
      RunProjects(Apply(s, es[0]), es[1..], m);
      RunConcat(s.mutexes[m], if Enabled(s, es[0]) then OpsOn(s, es[0], m) else [],
                History(Apply(s, es[0]), es[1..], m));
    }
  }

  // Over any run of the system, the locks granted on m and then its wait
  // queue are the coroutines that came to m, in order.
  lemma SystemFirstCome(s: Sys, es: seq<Event>, m: MutexId)
    requires Initial(s) && m in s.mutexes
    ensures var ops, t := History(s, es, m), Run(s, es);
            && m in t.mutexes
            && Arrivals(ops) == Grants(UNLOCKED, ops) + t.mutexes[m].queue
  {
    InitialHolds(s);
    RunProjects(s, es, m);
    FirstComeFirstServed(UNLOCKED, History(s, es, m));
    assert UNLOCKED.queue + Arrivals(History(s, es, m)) == Arrivals(History(s, es, m));
  }
}
