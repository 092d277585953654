// include/when_all.h, the vector form: n wrappers run the tasks in any order,
// each records its result and calls done(); the driver waits and collects.

module WhenAll {
  import opened Common
  import opened WaitGroup

  type Exception = nat

  datatype Task<T> = Returns(value: T) | Throws(error: Exception)

  datatype Collected<T> = Vector(values: seq<T>) | Rethrown(error: Exception)

  // --- The shared state as an object ---

  class VectorState<T> {
    const res: array<Option<T>>
    var exception: Option<Exception>
    const group: WaitGroup

    constructor (n: nat)
      ensures fresh(res) && res[..] == Blank(n) && exception == None
      ensures fresh(group) && group.State() == Group(Int32(n), [])
    {
      res := new Option<T>[n](_ => None);
      exception := None;
      group := new WaitGroup();
      new;
      group.Add(Int32(n));
      Int32Sum(n, 0);
    }

    method StoreFirstException(e: Exception)
      modifies `exception
      ensures exception == if old(exception).None? then Some(e) else old(exception)
    {
      if exception.None? { exception := Some(e); }
    }

    // The try block of the wrapper for task i.
    method RecordTask(i: nat, task: Task<T>)
      requires i < res.Length
      modifies `exception, res
      ensures (res[..], exception) == Record(old(res[..]), old(exception), i, task)
    {
      match task {
        case Returns(v) => res[i] := Some(v);
        case Throws(e) => StoreFirstException(e);
      }
    }

    // After the wait: rethrow, or move the results out. Only called when every
    // task has recorded, so that an empty slot comes with an exception.
    method Collect() returns (r: Collected<T>)
      requires exception.None? ==> forall i :: 0 <= i < res.Length ==> res[i].Some?
      ensures exception.Some? ==> r == Rethrown(exception.value)
      ensures exception.None? ==>
                r.Vector? && |r.values| == res.Length &&
                forall i :: 0 <= i < res.Length ==> res[i] == Some(r.values[i])
    {
      if exception.Some? { return Rethrown(exception.value); }
      var out: seq<T> := [];
      for i := 0 to res.Length
        invariant |out| == i && forall k :: 0 <= k < i ==> res[k] == Some(out[k])
      {
        out := out + [res[i].value];
      }
      r := Vector(out);
    }
  }

  function Blank<T>(n: nat): seq<Option<T>> { seq(n, i => None) }

  function Record<T>(res: seq<Option<T>>, exception: Option<Exception>, i: nat, task: Task<T>)
      : (seq<Option<T>>, Option<Exception>)
    requires i < |res|
  {
    match task
    case Returns(v) => (res[i := Some(v)], exception)
    case Throws(e) => (res, if exception.None? then Some(e) else exception)
  }

  // --- Every interleaving of the driver and the wrappers ---

  datatype Wrapper = Unsubmitted | Running | Recorded | Finished

  datatype Driver = Submitting | Asking | Suspending | Parked | Past

  // order is the order in which the tasks recorded.
  datatype Sys<T> = Sys(
    tasks: seq<Task<T>>,
    self: Handle,
    group: Group,
    res: seq<Option<T>>,
    exception: Option<Exception>,
    wrappers: seq<Wrapper>,
    submitted: nat,
    driver: Driver,
    order: seq<nat>)

  datatype Event =
    | Submit              // the driver submits its next wrapper, or leaves the loop
    | RecordResult(i: nat)
    | CallDone(i: nat)
    | Ask                 // await_ready
    | Enter               // await_suspend

  function Start<T>(tasks: seq<Task<T>>, self: Handle): Sys<T> {
    Sys(tasks, self, Group(Int32(|tasks|), []), Blank(|tasks|), None,
        seq(|tasks|, i => Unsubmitted), 0, Submitting, [])
  }

  predicate Enabled<T>(s: Sys<T>, e: Event) {
    match e
    case Submit => s.driver == Submitting && |s.wrappers| == |s.tasks|
    case RecordResult(i) => i < |s.wrappers| == |s.res| == |s.tasks| && s.wrappers[i] == Running
    case CallDone(i) => i < |s.wrappers| && s.wrappers[i] == Recorded
    case Ask => s.driver == Asking
    case Enter => s.driver == Suspending
  }

  function Step<T>(s: Sys<T>, e: Event): Sys<T>
    requires Enabled(s, e)
  {
    match e
    case Submit =>
      if s.submitted < |s.tasks| then
        s.(wrappers := s.wrappers[s.submitted := Running], submitted := s.submitted + 1)
      else s.(driver := Asking)
    case RecordResult(i) =>
      var (res, exception) := Record(s.res, s.exception, i, s.tasks[i]);
      s.(res := res, exception := exception, wrappers := s.wrappers[i := Recorded], order := s.order + [i])
    case CallDone(i) =>
      var (g, resume) := Done(s.group);
      s.(group := g, wrappers := s.wrappers[i := Finished],
         driver := if resume.Some? && s.self in resume.value then Past else s.driver)
    case Ask => s.(driver := if s.group.count == 0 then Past else Suspending)
    case Enter =>
      var (g, suspended) := Suspend(s.group, s.self);
      s.(group := g, driver := if suspended then Parked else Past)
  }

  // An event that is not enabled changes nothing, so every list is a run.
  function Apply<T>(s: Sys<T>, e: Event): Sys<T> {
    if Enabled(s, e) then Step(s, e) else s
  }

  function Run<T>(s: Sys<T>, es: seq<Event>): Sys<T>
    decreases |es|
  {
    if es == [] then s else Run(Apply(s, es[0]), es[1..])
  }

  function CountFinished(ws: seq<Wrapper>): (n: nat)
    ensures n <= |ws|
  {
    if ws == [] then 0 else (if ws[0] == Finished then 1 else 0) + CountFinished(ws[1..])
  }

  lemma {:induction false} CountUpdate(ws: seq<Wrapper>, i: nat, w: Wrapper)
    requires i < |ws|
    ensures CountFinished(ws[i := w]) ==
              CountFinished(ws) - (if ws[i] == Finished then 1 else 0) + (if w == Finished then 1 else 0)
    decreases |ws|
  {
    if i == 0 {
      assert ws[i := w][1..] == ws[1..];
    } else {
      assert ws[i := w][1..] == ws[1..][i - 1 := w];
      CountUpdate(ws[1..], i - 1, w);
    }
  }

  lemma {:induction false} CountAll(ws: seq<Wrapper>)
    ensures CountFinished(ws) == |ws| <==> forall i :: 0 <= i < |ws| ==> ws[i] == Finished
    decreases |ws|
  {
    if ws == [] {
    } else {
      CountAll(ws[1..]);
      if CountFinished(ws) == |ws| {
        forall i | 0 <= i < |ws| ensures ws[i] == Finished {
          if i > 0 { assert ws[1..][i - 1] == ws[i]; }
        }
      }
    }
  }

  // The exception of the first task of the list that throws.
  function FirstError<T>(tasks: seq<Task<T>>, order: seq<nat>): Option<Exception>
    requires forall k :: 0 <= k < |order| ==> order[k] < |tasks|
  {
    if order == [] then None
    else
      var before := FirstError(tasks, order[..|order| - 1]);
      var last := tasks[order[|order| - 1]];
      if before.None? && last.Throws? then Some(last.error) else before
  }

  // --- What every run keeps ---

  ghost predicate RecordsMatch<T>(s: Sys<T>) {
    && |s.res| == |s.wrappers| == |s.tasks|
    && (forall k :: 0 <= k < |s.order| ==> s.order[k] < |s.tasks|)
    && (forall i :: 0 <= i < |s.tasks| ==>
          && (i in s.order <==> s.wrappers[i] in {Recorded, Finished})
          && s.res[i] == if i in s.order && s.tasks[i].Returns? then Some(s.tasks[i].value) else None)
    && (forall j, k :: 0 <= j < k < |s.order| ==> s.order[j] != s.order[k])
    && s.exception == FirstError(s.tasks, s.order)
  }

  ghost predicate Counted<T>(s: Sys<T>) {
    && s.group.count == Int32(|s.tasks| - CountFinished(s.wrappers))
    && s.group.queue == (if s.driver == Parked then [s.self] else [])
    && (s.driver == Parked ==> s.group.count != 0)
    && (s.driver == Past ==> CountFinished(s.wrappers) == |s.tasks|)
  }

  // The driver's loop submits wrappers in order, each once.
  ghost predicate Submitted<T>(s: Sys<T>) {
    && s.submitted <= |s.tasks| == |s.wrappers|
    && (forall i :: 0 <= i < |s.tasks| ==> (s.wrappers[i] == Unsubmitted <==> i >= s.submitted))
    && (s.driver != Submitting ==> s.submitted == |s.tasks|)
  }

  ghost predicate Inv<T>(s: Sys<T>) {
    RecordsMatch(s) && Counted(s) && Submitted(s)
  }

  // done() never finds the count at zero, and zero is reached only at the end.
  lemma CountNonZero(n: nat, finished: nat)
    requires finished <= n < INT_SPAN
    ensures Int32(n - finished) == 0 <==> finished == n
    ensures finished < n ==> Int32(Int32(n - finished) - 1) == Int32(n - (finished + 1))
  {
    Int32Zero(n - finished);
    Int32Sum(n - finished, -1);
  }

  lemma RecordKeeps<T>(s: Sys<T>, i: nat)
    requires RecordsMatch(s) && Enabled(s, RecordResult(i))
    ensures RecordsMatch(Step(s, RecordResult(i)))
  {
    var t := Step(s, RecordResult(i));
    assert t.order[..|s.order|] == s.order;
    assert forall k :: k in t.order <==> k in s.order || k == i;
    assert t.exception == FirstError(t.tasks, t.order);
  }

  lemma WrappersOnly<T>(s: Sys<T>, i: nat, w: Wrapper)
    requires RecordsMatch(s) && i < |s.wrappers|
    requires s.wrappers[i] in {Recorded, Finished} <==> w in {Recorded, Finished}
    ensures RecordsMatch(s.(wrappers := s.wrappers[i := w]))
  {
  }

  lemma SameRecords<T>(s: Sys<T>, t: Sys<T>)
    requires RecordsMatch(s)
    requires t == s.(group := t.group, driver := t.driver, submitted := t.submitted)
    ensures RecordsMatch(t)
  {
  }

  lemma DoneCounts<T>(s: Sys<T>, i: nat)
    requires |s.wrappers| == |s.tasks| && Counted(s) && Enabled(s, CallDone(i)) && |s.tasks| < INT_SPAN
    ensures Done(s.group).1.Some? && Counted(Step(s, CallDone(i)))
  {
    var n, f := |s.tasks|, CountFinished(s.wrappers);
    CountUpdate(s.wrappers, i, Finished);
    assert f < n;
    CountNonZero(n, f);
    CountNonZero(n, f + 1);
  }

  lemma DoneKeeps<T>(s: Sys<T>, i: nat)
    requires Inv(s) && Enabled(s, CallDone(i)) && |s.tasks| < INT_SPAN
    ensures Done(s.group).1.Some? && Inv(Step(s, CallDone(i)))
  {
    DoneCounts(s, i);
    WrappersOnly(s, i, Finished);
    SameRecords(s.(wrappers := s.wrappers[i := Finished]), Step(s, CallDone(i)));
    hide RecordsMatch, Counted;
  }

  lemma StepKeeps<T>(s: Sys<T>, e: Event)
    requires Inv(s) && |s.tasks| < INT_SPAN
    ensures Inv(Apply(s, e)) && Apply(s, e).tasks == s.tasks
  {
    if Enabled(s, e) {
      hide Inv;
      match e
      case Submit => SubmitKeeps(s);
      case RecordResult(i) => RecordStepKeeps(s, i);
      case CallDone(i) => DoneKeeps(s, i);
      case Ask => WaitKeeps(s, e);
      case Enter => WaitKeeps(s, e);
    }
  }

  lemma RecordStepKeeps<T>(s: Sys<T>, i: nat)
    requires Inv(s) && Enabled(s, RecordResult(i))
    ensures Inv(Step(s, RecordResult(i)))
  {
    hide RecordsMatch, CountFinished;
    CountUpdate(s.wrappers, i, Recorded);
    RecordKeeps(s, i);
  }

  lemma SubmitKeeps<T>(s: Sys<T>)
    requires Inv(s) && Enabled(s, Submit)
    ensures Inv(Step(s, Submit))
  {
    hide RecordsMatch, CountFinished;
    var i, t := s.submitted, Step(s, Submit);
    if i < |s.tasks| {
      CountUpdate(s.wrappers, i, Running);
      WrappersOnly(s, i, Running);
      SameRecords(s.(wrappers := s.wrappers[i := Running]), t);
    } else {
      SameRecords(s, t);
    }
  }

  lemma WaitKeeps<T>(s: Sys<T>, e: Event)
    requires Inv(s) && Enabled(s, e) && (e.Ask? || e.Enter?) && |s.tasks| < INT_SPAN
    ensures Inv(Step(s, e))
  {
    CountNonZero(|s.tasks|, CountFinished(s.wrappers));
  }

  lemma {:induction false} StartHolds<T>(tasks: seq<Task<T>>, self: Handle)
    ensures Inv(Start(tasks, self))
  {
    var s := Start(tasks, self);
    NoneFinished(s.wrappers);
  }

  lemma {:induction false} NoneFinished(ws: seq<Wrapper>)
    requires forall i :: 0 <= i < |ws| ==> ws[i] != Finished
    ensures CountFinished(ws) == 0
    decreases |ws|
  {
    if ws == [] {
    } else {
      NoneFinished(ws[1..]);
    }
  }

  lemma {:induction false} RunKeeps<T>(s: Sys<T>, es: seq<Event>)
    requires Inv(s) && |s.tasks| < INT_SPAN
    ensures Inv(Run(s, es)) && Run(s, es).tasks == s.tasks
    decreases |es|
  {
    hide Inv, Apply;
    if es == [] {
    } else {
      StepKeeps(s, es[0]);
      RunKeeps(Apply(s, es[0]), es[1..]);
    }
  }

  // Fan-in is correct for every n below 2^32 and every order of completion:
  // once the driver is past the wait, every wrapper has called done(); with no
  // failure slot i holds the result of task i; otherwise the exception to be
  // rethrown is that of the first task to record a failure.
  lemma FanInCorrect<T>(tasks: seq<Task<T>>, self: Handle, es: seq<Event>)
    requires |tasks| < 0x1_0000_0000
    ensures var s := Run(Start(tasks, self), es);
            s.driver == Past ==>
              && |s.wrappers| == |s.res| == |tasks|
              && (forall i :: 0 <= i < |tasks| ==> s.wrappers[i] == Finished)
              && (forall i :: i in s.order <==> 0 <= i < |tasks|)
              && (forall j, k :: 0 <= j < k < |s.order| ==> s.order[j] != s.order[k])
              && (forall k :: 0 <= k < |s.order| ==> s.order[k] < |tasks|)
              && s.exception == FirstError(tasks, s.order)
              && ((forall i :: 0 <= i < |tasks| ==> tasks[i].Returns?) ==>
                    s.exception == None &&
                    forall i :: 0 <= i < |tasks| ==> s.res[i] == Some(tasks[i].value))
              && ((exists i :: 0 <= i < |tasks| && tasks[i].Throws?) ==> s.exception.Some?)
  {
    StartHolds(tasks, self);
    RunKeeps(Start(tasks, self), es);
    var s := Run(Start(tasks, self), es);
    if s.driver == Past {
      CountAll(s.wrappers);
      ErrorsAre(tasks, s.order);
    }
  }

  lemma {:induction false} ErrorsAre<T>(tasks: seq<Task<T>>, order: seq<nat>)
    requires forall k :: 0 <= k < |order| ==> order[k] < |tasks|
    ensures FirstError(tasks, order).Some? <==> exists i :: i in order && tasks[i].Throws?
    decreases |order|
  {
    if order == [] {
    } else {
      var init := order[..|order| - 1];
      assert order == init + [order[|order| - 1]];
      assert forall i :: i in order <==> i in init || i == order[|order| - 1];
      ErrorsAre(tasks, init);
    }
  }

  // The driver is never stranded: until it is past the wait, a step of its own
  // or of a wrapper is possible.
  lemma DriverNotStranded<T>(s: Sys<T>) returns (e: Event)
    requires Inv(s) && |s.tasks| < 0x1_0000_0000 && s.driver != Past
    ensures Enabled(s, e)
  {
    match s.driver {
      case Submitting => e := Submit;
      case Asking => e := Ask;
      case Suspending => e := Enter;
      case Parked =>
        CountNonZero(|s.tasks|, CountFinished(s.wrappers));
        CountAll(s.wrappers);
        var i: nat :| i < |s.wrappers| && s.wrappers[i] != Finished;
        e := if s.wrappers[i] == Recorded then CallDone(i) else RecordResult(i);
    }
  }

  // --- Every run comes to its end ---

  // The steps still ahead of a wrapper and of the driver.
  function Ahead(w: Wrapper): nat {
    match w
    case Unsubmitted => 3
    case Running => 2
    case Recorded => 1
    case Finished => 0
  }

  function Weight(ws: seq<Wrapper>): nat { if ws == [] then 0 else Ahead(ws[0]) + Weight(ws[1..]) }

  function Rank(d: Driver): nat {
    match d
    case Submitting => 3
    case Asking => 2
    case Suspending => 1
    case Parked => 0
    case Past => 0
  }

  function Measure<T>(s: Sys<T>): nat { Weight(s.wrappers) + Rank(s.driver) }

  lemma {:induction false} WeightUpdate(ws: seq<Wrapper>, i: nat, w: Wrapper)
    requires i < |ws|
    ensures Weight(ws[i := w]) == Weight(ws) - Ahead(ws[i]) + Ahead(w)
    decreases |ws|
  {
    if i == 0 {
      assert ws[i := w][1..] == ws[1..];
    } else {
      assert ws[i := w][1..] == ws[1..][i - 1 := w];
      WeightUpdate(ws[1..], i - 1, w);
    }
  }

  lemma {:induction false} WeightAtFirst(ws: seq<Wrapper>)
    requires forall i :: 0 <= i < |ws| ==> ws[i] == Unsubmitted
    ensures Weight(ws) == 3 * |ws|
    decreases |ws|
  {
    if ws == [] {
    } else {
      WeightAtFirst(ws[1..]);
    }
  }

  lemma StepShrinks<T>(s: Sys<T>, e: Event)
    requires Submitted(s) && Enabled(s, e)
    ensures Measure(Step(s, e)) < Measure(s)
  {
    match e
    case Submit => if s.submitted < |s.tasks| { WeightUpdate(s.wrappers, s.submitted, Running); }
    case RecordResult(i) => WeightUpdate(s.wrappers, i, Recorded);
    case CallDone(i) => WeightUpdate(s.wrappers, i, Finished);
    case Ask =>
    case Enter =>
  }

  // How many events of a list have an effect.
  function Effective<T>(s: Sys<T>, es: seq<Event>): nat
    decreases |es|
  {
    if es == [] then 0 else (if Enabled(s, es[0]) then 1 else 0) + Effective(Apply(s, es[0]), es[1..])
  }

  lemma {:induction false} RunShrinks<T>(s: Sys<T>, es: seq<Event>)
    requires Inv(s) && |s.tasks| < 0x1_0000_0000
    ensures Effective(s, es) + Measure(Run(s, es)) <= Measure(s)
    decreases |es|
  {
    hide RecordsMatch, Counted, Submitted, Measure, Enabled, Step;
    if es == [] {
    } else {
      StepKeeps(s, es[0]);
      if Enabled(s, es[0]) { StepShrinks(s, es[0]); }
      RunShrinks(Apply(s, es[0]), es[1..]);
    }
  }

  // No run takes more than 3n + 3 steps, and one that can go no further has
  // the driver past its wait: in whatever order the tasks complete, when_all
  // comes back.
  lemma FanInTerminates<T>(tasks: seq<Task<T>>, self: Handle, es: seq<Event>)
    requires |tasks| < 0x1_0000_0000
    ensures Effective(Start(tasks, self), es) <= 3 * |tasks| + 3
    ensures (forall e :: !Enabled(Run(Start(tasks, self), es), e)) ==> Run(Start(tasks, self), es).driver == Past
  {
    var s := Start(tasks, self);
    StartHolds(tasks, self);
    WeightAtFirst(s.wrappers);
    hide Inv, Enabled;
    RunShrinks(s, es);
    RunKeeps(s, es);
    var t := Run(s, es);
    if t.driver != Past { var e := DriverNotStranded(t); }
  }

  // --- From 2^32 tasks on the count wraps and fan-in fails ---

  function Submits(k: nat): seq<Event> { if k == 0 then [] else [Submit] + Submits(k - 1) }

  // The wrappers from i up to k each record and finish.
  function Finishes(i: nat, k: nat): seq<Event>
    decreases Excess(k, i)
  {
    if i >= k then [] else [RecordResult(i), CallDone(i)] + Finishes(i + 1, k)
  }

  lemma {:induction false} RunConcat<T>(s: Sys<T>, a: seq<Event>, b: seq<Event>)
    ensures Run(s, a + b) == Run(Run(s, a), b)
    decreases |a|
  {
    if a == [] {
      assert a + b == b;
    } else {
      assert (a + b)[1..] == a[1..] + b;
      RunConcat(Apply(s, a[0]), a[1..], b);
    }
  }

  // The driver has submitted everything, and exactly the first i wrappers have
  // finished.
  ghost predicate Prefix<T>(s: Sys<T>, n: nat, i: nat) {
    && |s.tasks| == |s.wrappers| == |s.res| == n && i <= n
    && (forall k :: 0 <= k < n ==> s.wrappers[k] == if k < i then Finished else Running)
    && s.driver == Asking && s.group == Group(Int32(n - i), [])
  }

  lemma {:induction false} RunSubmits<T>(s: Sys<T>, k: nat)
    requires s.driver == Submitting && |s.wrappers| == |s.tasks| == |s.res|
    requires s.submitted <= |s.tasks| && k == |s.tasks| - s.submitted + 1
    requires forall j :: 0 <= j < |s.tasks| ==> s.wrappers[j] == if j < s.submitted then Running else Unsubmitted
    requires s.group == Group(Int32(|s.tasks|), [])
    ensures Prefix(Run(s, Submits(k)), |s.tasks|, 0)
    decreases k
  {
    assert Submits(k)[1..] == Submits(k - 1);
    var t := Apply(s, Submit);
    if s.submitted < |s.tasks| {
      RunSubmits(t, k - 1);
    } else {
      assert Run(t, Submits(0)) == t;
    }
  }

  lemma {:induction false} RunFinishes<T>(s: Sys<T>, n: nat, i: nat, k: nat)
    requires Prefix(s, n, i) && i <= k <= n && n - k >= INT_SPAN && k - i < INT_SPAN && (n - k) % INT_SPAN == 0
    ensures Prefix(Run(s, Finishes(i, k)), n, k)
    decreases k - i
  {
    if i < k {
      var es := Finishes(i, k);
      assert es[1..] == [CallDone(i)] + Finishes(i + 1, k) && es[1..][1..] == Finishes(i + 1, k);
      var t := Apply(Apply(s, RecordResult(i)), CallDone(i));
      WrapCount(n, i, k);
      assert Run(s, es) == Run(t, Finishes(i + 1, k));
      RunFinishes(t, n, i + 1, k);
    }
  }

  lemma WrapCount(n: nat, i: nat, k: nat)
    requires i < k <= n && k - i < INT_SPAN && (n - k) % INT_SPAN == 0
    ensures Int32(n - i) != 0 && Int32(Int32(n - i) - 1) == Int32(n - (i + 1))
    ensures i + 1 < k ==> Int32(n - (i + 1)) != 0
  {
    Int32Sum(n - i, -1);
    Int32Zero(n - i);
    Int32Zero(n - (i + 1));
  }

  // With n >= 2^32 tasks there is a run in which the driver goes on although
  // wrapper n - 1 has recorded nothing; so the bound of FanInCorrect is exact.
  lemma FanInFailsBeyond<T>(tasks: seq<Task<T>>, self: Handle) returns (es: seq<Event>)
    requires |tasks| >= 0x1_0000_0000
    ensures var s := Run(Start(tasks, self), es);
            s.driver == Past && |s.wrappers| == |tasks| && s.wrappers[|tasks| - 1] == Running
  {
    var n := |tasks|;
    var k := n % INT_SPAN;
    var s0 := Start(tasks, self);
    var a, b, c := Submits(n + 1), Finishes(0, k), [Ask];
    RunSubmits(s0, n + 1);
    var s1 := Run(s0, a);
    RunFinishes(s1, n, 0, k);
    var s2 := Run(s1, b);
    Int32Zero(n - k);
    RunConcat(s0, a, b);
    RunConcat(s0, a + b, c);
    assert Run(s2, c) == Apply(s2, Ask) by { assert c[1..] == []; }
    es := a + b + c;
  }
}
