// Vocabulary shared by every component of the model.

module Common {
  datatype Option<+T> = None | Some(value: T)

  // A suspended coroutine is an opaque identity: std::coroutine_handle<>.
  type Handle = nat

  // The number of values of a size_t.
  const WORD: nat := 0x1_0000_0000_0000_0000

  ghost predicate NoDuplicates(q: seq<Handle>) {
    forall i, j :: 0 <= i < j < |q| ==> q[i] != q[j]
  }

  function Min(a: nat, b: nat): (m: nat)
    ensures m <= a && m <= b && (m == a || m == b)
  {
    if a <= b then a else b
  }

  // a - b, cut off at zero.
  function Excess(a: nat, b: nat): nat {
    if a <= b then 0 else a - b
  }

  lemma Regroup<A>(a: seq<A>, b: seq<A>, c: seq<A>)
    ensures a + (b + c) == (a + b) + c
  {
  }

  // --- Counting positions ---

  function HowMany(bs: seq<bool>): nat {
    if bs == [] then 0 else HowMany(bs[..|bs| - 1]) + if bs[|bs| - 1] then 1 else 0
  }

  lemma {:induction false} HowManyIs(bs: seq<bool>)
    ensures HowMany(bs) == |set i | 0 <= i < |bs| && bs[i]|
    decreases |bs|
  {
    var there := set i | 0 <= i < |bs| && bs[i];
    if bs == [] {
      assert there == {};
    } else {
      var last := |bs| - 1;
      HowManyIs(bs[..last]);
      assert there == (set i | 0 <= i < last && bs[..last][i]) + if bs[last] then {last} else {};
    }
  }

  lemma {:induction false} HowManyHead(bs: seq<bool>)
    requires bs != []
    ensures HowMany(bs) == (if bs[0] then 1 else 0) + HowMany(bs[1..])
    decreases |bs|
  {
    var last := |bs| - 1;
    if last > 0 {
      HowManyHead(bs[..last]);
      assert bs[..last][1..] == bs[1..][..last - 1];
    }
  }
}
