// include/runtime/dispatcher.h: round robin over the contexts.

module Dispatcher {
  import opened Common

  class Dispatcher {
    var contextCount: nat
    var next: nat

    predicate Valid()
      reads this
    {
      contextCount > 0 && next < WORD
    }

    constructor ()
      ensures Valid() && contextCount == 1 && next == 0
    {
      contextCount, next := 1, 0;
    }

    method Init(count: nat)
      modifies this
      ensures Valid() && next == 0
      ensures contextCount == if count == 0 then 1 else count
    {
      contextCount := if count == 0 then 1 else count;
      next := 0;
    }

    method Dispatch() returns (context: nat)
      requires Valid()
      modifies `next
      ensures Valid()
      ensures context == old(next) % contextCount == Choice(old(next), 0, contextCount) < contextCount
      ensures next == Ticket(old(next), 1)
      ensures next == if old(next) == 0xFFFF_FFFF_FFFF_FFFF then 0 else old(next) + 1
    {
      context := next % contextCount;
      next := (next + 1) % WORD;
    }
  }

  // The counter after k fetch_adds, and the context of the k-th dispatch.
  function Ticket(start: nat, k: nat): nat { (start + k) % WORD }

  function Choice(start: nat, k: nat, n: nat): nat
    requires n > 0
  {
    Ticket(start, k) % n
  }

  // How many of the first k dispatches go to context j.
  function Count(start: nat, k: nat, n: nat, j: nat): nat
    requires n > 0
  {
    if k == 0 then 0
    else Count(start, k - 1, n, j) + (if Choice(start, k - 1, n) == j then 1 else 0)
  }

  // The number of t in [0, x) with t % n == j.
  function Below(x: nat, n: nat, j: nat): nat
    requires n > 0
  {
    x / n + (if j < x % n then 1 else 0)
  }

  ghost predicate Balanced(start: nat, k: nat, n: nat)
    requires n > 0
  {
    forall j :: 0 <= j < n ==> k / n <= Count(start, k, n, j) <= (k + n - 1) / n
  }

  lemma BelowNext(x: nat, n: nat, j: nat)
    requires n > 0 && j < n
    ensures Below(x + 1, n, j) == Below(x, n, j) + (if x % n == j then 1 else 0)
  {
    var q, r := x / n, x % n;
    assert x + 1 == n * q + (r + 1);
    if r + 1 < n {
      DivModUnique(x + 1, n, q, r + 1);
    } else {
      assert n * (q + 1) == n * q + n;
      DivModUnique(x + 1, n, q + 1, 0);
    }
  }

  lemma DivModUnique(x: nat, n: nat, q: nat, r: nat)
    requires n > 0 && x == n * q + r && r < n
    ensures x / n == q && x % n == r
  {
    var q', r' := x / n, x % n;
    assert x == n * q' + r';
    if q' < q {
      assert n * (q' + 1) <= n * q by { MulMonotone(n, q' + 1, q); }
    } else if q < q' {
      assert n * (q + 1) <= n * q' by { MulMonotone(n, q + 1, q'); }
    }
  }

  lemma MulMonotone(n: nat, a: nat, b: nat)
    requires a <= b
    ensures n * a <= n * b
  {
    assert n * b == n * a + n * (b - a);
  }

  lemma NoWrap(x: nat)
    requires x < WORD
    ensures x % WORD == x
  {
  }

  lemma TicketIs(start: nat, k: nat)
    ensures Ticket(start, k) == (start + k) % WORD
  {
  }

  // Without wrap-around the count is a difference of Belows.
  lemma {:induction false} CountIsBelow(start: nat, k: nat, n: nat, j: nat)
    requires n > 0 && j < n && start + k <= WORD
    ensures Count(start, k, n, j) == Below(start + k, n, j) - Below(start, n, j)
    decreases k
  {
    hide Below, Ticket;
    if k > 0 {
      CountIsBelow(start, k - 1, n, j);
      BelowNext(start + k - 1, n, j);
      NoWrap(start + k - 1);
      TicketIs(start, k - 1);
    }
  }

  lemma BelowSpread(x: nat, k: nat, n: nat, j: nat)
    requires n > 0 && j < n
    ensures k / n <= Below(x + k, n, j) - Below(x, n, j) <= (k + n - 1) / n
  {
    hide Below;
    var a, r := DivMod(x, n);
    var b, s := DivMod(k, n);
    SpreadOf(n, a, r, b, s, j);
    CeilDiv(n, b, s);
    DivModUnique(k, n, b, s);
  }

  lemma DivMod(x: nat, n: nat) returns (q: nat, r: nat)
    requires n > 0
    ensures x == n * q + r && r < n
  {
    q, r := x / n, x % n;
  }

  lemma SpreadOf(n: nat, a: nat, r: nat, b: nat, s: nat, j: nat)
    requires r < n && s < n && j < n
    ensures var x, k := n * a + r, n * b + s;
            b <= Below(x + k, n, j) - Below(x, n, j) <= if s == 0 then b else b + 1
  {
    SumDivMod(n, a, r, b, s);
    DivModUnique(n * a + r, n, a, r);
  }

  // (n * a + r) + (n * b + s), divided by n.
  lemma SumDivMod(n: nat, a: nat, r: nat, b: nat, s: nat)
    requires r < n && s < n
    ensures var sum := (n * a + r) + (n * b + s);
            if r + s < n then sum / n == a + b && sum % n == r + s
            else sum / n == a + b + 1 && sum % n == r + s - n
  {
    var sum := (n * a + r) + (n * b + s);
    Distribute(n, a, b);
    Distribute(n, a + b, 1);
    if r + s < n {
      DivModUnique(sum, n, a + b, r + s);
    } else {
      DivModUnique(sum, n, a + b + 1, r + s - n);
    }
  }

  lemma CeilDiv(n: nat, b: nat, s: nat)
    requires s < n
    ensures (n * b + s + n - 1) / n == if s == 0 then b else b + 1
  {
    Distribute(n, b, 1);
    if s == 0 {
      DivModUnique(n * b + s + n - 1, n, b, n - 1);
    } else {
      DivModUnique(n * b + s + n - 1, n, b + 1, s - 1);
    }
  }

  lemma Distribute(n: nat, a: nat, b: nat)
    ensures n * (a + b) == n * a + n * b
  {
  }

  // Round robin is balanced: over any k dispatches before the counter wraps,
  // every context is chosen floor(k / n) or ceil(k / n) times.
  lemma RoundRobinBalanced(start: nat, k: nat, n: nat)
    requires n > 0 && start + k <= 0x1_0000_0000_0000_0000
    ensures Balanced(start, k, n)
  {
    forall j | 0 <= j < n ensures k / n <= Count(start, k, n, j) <= (k + n - 1) / n {
      CountIsBelow(start, k, n, j);
      BelowSpread(start, k, n, j);
    }
  }

  // --- Across the wrap ---

  // When n divides 2^64 the counter's residue never jumps.
  lemma TicketResidue(start: nat, k: nat, n: nat)
    requires n > 0 && WORD % n == 0
    ensures Choice(start, k, n) == (start + k) % n
  {
    var x := start + k;
    var q, d := x / WORD, WORD / n;
    assert WORD == n * d;
    assert x == WORD * q + x % WORD;
    var r := x % WORD;
    assert WORD * q == n * (d * q);
    var a, b := r / n, r % n;
    assert x == n * (d * q + a) + b;
    DivModUnique(x, n, d * q + a, b);
  }

  lemma {:induction false} CountIsBelowDividing(start: nat, k: nat, n: nat, j: nat)
    requires n > 0 && j < n && WORD % n == 0
    ensures Count(start, k, n, j) == Below(start + k, n, j) - Below(start, n, j)
    decreases k
  {
    if k > 0 {
      CountIsBelowDividing(start, k - 1, n, j);
      BelowNext(start + k - 1, n, j);
      TicketResidue(start, k - 1, n);
    }
  }

  lemma BalancedDividing(start: nat, k: nat, n: nat)
    requires n > 0 && WORD % n == 0
    ensures Balanced(start, k, n)
  {
    forall j | 0 <= j < n ensures k / n <= Count(start, k, n, j) <= (k + n - 1) / n {
      CountIsBelowDividing(start, k, n, j);
      BelowSpread(start, k, n, j);
    }
  }

  lemma {:induction false} CountMonotone(start: nat, a: nat, b: nat, n: nat, j: nat)
    requires n > 0 && a <= b
    ensures Count(start, a, n, j) <= Count(start, b, n, j)
    decreases b - a
  {
    if a < b { CountMonotone(start, a, b - 1, n, j); }
  }

  // When n does not divide 2^64, the run of r + 1 dispatches that crosses the
  // wrap, with r = 2^64 mod n, chooses context 0 first and last.
  lemma WrapRepeatsContext(n: nat)
    requires 0 < n < 0x1_0000_0000_0000_0000 && 0x1_0000_0000_0000_0000 % n != 0
    ensures var r := 0x1_0000_0000_0000_0000 % n; !Balanced(0x1_0000_0000_0000_0000 - r, r + 1, n)
  {
    var r := WORD % n;
    var start := WORD - r;
    DivModUnique(start, n, WORD / n, 0);
    NoWrap(start);
    assert Choice(start, 0, n) == 0 by { TicketIs(start, 0); }
    assert Choice(start, r, n) == 0 by { TicketIs(start, r); }
    hide Ticket, Choice;
    assert Count(start, 1, n, 0) == Count(start, 0, n, 0) + 1;
    CountMonotone(start, 1, r, n, 0);
    assert Count(start, r + 1, n, 0) == Count(start, r, n, 0) + 1;
    CeilOne(n, r);
  }

  lemma CeilOne(n: nat, r: nat)
    requires 0 < r < n
    ensures (r + 1 + n - 1) / n == 1
  {
    DivModUnique(r + 1 + n - 1, n, 1, r);
  }

  // Exactly when the dispatcher is balanced on every run, however long.
  lemma BalancedForEver(n: nat)
    requires 0 < n < 0x1_0000_0000_0000_0000
    ensures (forall start: nat, k: nat :: start < 0x1_0000_0000_0000_0000 ==> Balanced(start, k, n)) <==> 0x1_0000_0000_0000_0000 % n == 0
  {
    hide Balanced;
    if WORD % n == 0 {
      forall start: nat, k: nat | start < WORD ensures Balanced(start, k, n) { BalancedDividing(start, k, n); }
    } else {
      WrapRepeatsContext(n);
    }
  }
}
