/** The bounded in-memory event log (internal/webui/eventlog/eventlog.go). */
module EventLog {
  const DEFAULT_SIZE := 200

  /** The newest n elements of a history, newest first. */
  function Newest<E>(history: seq<E>, n: nat): (out: seq<E>)
    requires n <= |history|
    ensures |out| == n
    ensures forall i :: 0 <= i < n ==> out[i] == history[|history| - 1 - i]
  {
    seq(n, i requires 0 <= i < n => history[|history| - 1 - i])
  }

  function Min(a: nat, b: nat): nat {
    if a < b then a else b
  }

  /** The slot i steps behind the one before `next`, around the buffer. */
  function Back(next: nat, i: nat, cap: nat): (idx: nat)
    requires next < cap && i < cap
    ensures idx < cap
  {
    (next - 1 - i + cap) % cap
  }

  class Ring<E(0)> {
    const buf: array<E>
    var next: nat
    var full: bool
    /** Everything ever appended. */
    ghost var history: seq<E>

    /** Slot i holds the youngest event whose number is i modulo the capacity. */
    ghost predicate Valid()
      reads this, buf
    {
      && buf.Length > 0
      && next == |history| % buf.Length
      && (full <==> |history| >= buf.Length)
      && forall k :: 0 <= k < |history| && |history| <= k + buf.Length ==> buf[k % buf.Length] == history[k]
    }

    constructor (size: int)
      ensures Valid() && history == [] && fresh(buf)
      ensures buf.Length == if size <= 0 then 200 else size
    {
      buf := new E[if size <= 0 then DEFAULT_SIZE else size];
      next := 0;
      full := false;
      history := [];
    }

    method Append(ev: E)
      requires Valid()
      modifies this, buf
      ensures Valid() && history == old(history) + [ev]
    {
      ghost var n := |history|;
      Wrap(n, buf.Length);
      forall k | 0 <= k < n && n + 1 <= k + buf.Length
        ensures k % buf.Length != n % buf.Length
      {
        Apart(k, n, buf.Length);
      }
      buf[next] := ev;
      next := (next + 1) % buf.Length;
      if next == 0 {
        full := true;
      }
      history := history + [ev];
    }

    /** The last min(n, capacity) events, newest first. */
    method Snapshot() returns (out: seq<E>)
      requires Valid()
      ensures out == Newest(history, Min(|history|, buf.Length))
    {
      hide Back;
      ghost var n := |history|;
      out := [];
      if full {
        for i := 0 to buf.Length
          invariant out == Newest(history, i)
        {
          Behind(n, i, buf.Length);
          var idx := Back(next, i, buf.Length);
          out := out + [buf[idx]];
        }
        return;
      }
      Small(n, buf.Length);
      for i := 0 to next
        invariant out == Newest(history, i)
      {
        var idx := next - 1 - i;
        Small(idx, buf.Length);
        out := out + [buf[idx]];
      }
    }
  }

  // ---- Index arithmetic ----

  function Times(q: int, cap: int): int {
    q * cap
  }

  lemma Distribute(q: int, cap: int)
    ensures Times(q - 1, cap) == Times(q, cap) - cap
    ensures Times(q + 1, cap) == Times(q, cap) + cap
    ensures Times(0, cap) == 0
    ensures Times(1, cap) == cap
  {
  }

  lemma Scale(d: int, cap: int)
    requires cap >= 0
    ensures d >= 1 ==> Times(d, cap) >= cap
    ensures d <= -1 ==> Times(d, cap) <= -cap
  {
  }

  lemma Decompose(n: int, cap: int) returns (q: int, r: int)
    requires cap > 0
    ensures n == Times(q, cap) + r && r == n % cap && 0 <= r < cap
  {
    q, r := n / cap, n % cap;
  }

  /** Quotient and remainder are unique. */
  lemma DivMod(a: int, cap: int, q: int, r: int)
    requires cap > 0 && a == Times(q, cap) + r && 0 <= r < cap
    ensures a % cap == r
  {
    var q', r' := Decompose(a, cap);
    Difference(q, q', cap);
    Scale(q - q', cap);
    hide Times;
  }

  lemma Difference(a: int, b: int, cap: int)
    ensures Times(a - b, cap) == Times(a, cap) - Times(b, cap)
  {
  }

  lemma Small(k: nat, cap: nat)
    requires cap > 0
    ensures k < cap ==> k % cap == k
  {
    Distribute(0, cap);
    hide Times;
    if k < cap {
      DivMod(k, cap, 0, k);
    }
  }

  /** Stepping the write position is stepping the count; it returns to slot 0 exactly at multiples of the capacity. */
  lemma Wrap(n: nat, cap: nat)
    requires cap > 0
    ensures (n % cap + 1) % cap == (n + 1) % cap
    ensures (n + 1) % cap == 0 ==> n + 1 >= cap
    ensures n + 1 == cap ==> (n + 1) % cap == 0
  {
    var q, r := Decompose(n, cap);
    Distribute(q, cap);
    Small(n, cap);
    Small(r + 1, cap);
    hide Times;
    if r + 1 < cap {
      DivMod(n + 1, cap, q, r + 1);
    } else {
      DivMod(n + 1, cap, q + 1, 0);
      DivMod(r + 1, cap, 1, 0);
    }
  }

  /** Fewer than `cap` apart, two numbers fall into different slots. */
  lemma Apart(k: nat, n: nat, cap: nat)
    requires cap > 0 && k < n < k + cap
    ensures k % cap != n % cap
  {
    var q, r := Decompose(k, cap);
    var q', r' := Decompose(n, cap);
    Difference(q', q, cap);
    Scale(q' - q, cap);
    Distribute(0, cap);
    hide Times;
  }

  /** Walking back i steps from the write position reaches the slot of event n - 1 - i. */
  lemma Behind(n: nat, i: nat, cap: nat)
    requires cap > 0 && i < cap <= n
    ensures Back(n % cap, i, cap) == (n - 1 - i) % cap
  {
    var q, r := Decompose(n, cap);
    var back := r - 1 - i;
    Distribute(q, cap);
    hide Times;
    if i < r {
      DivMod(n - 1 - i, cap, q, back);
      DivMod(back + cap, cap, 1, back);
    } else {
      DivMod(n - 1 - i, cap, q - 1, back + cap);
      DivMod(back + cap, cap, 0, back + cap);
    }
  }
}
