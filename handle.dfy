/** The wrapping 32-bit counter that hands out request handles and monitored-item handles. */
module Handles {
  import opened Types

  /** What `next()` stores and returns when the stored value is `current`: it pre-increments,
      and resets to 1 when the stored value is the wrap boundary. The requires clause is the
      condition under which the increment cannot overflow 32 bits. */
  function NextHandle(current: UInt32, wrapsOn: UInt32): (r: UInt32)
    requires current == wrapsOn || current < U32_MAX
    ensures r != 0
    ensures r == 1 <==> current == wrapsOn || current == 0
    ensures current != wrapsOn ==> r == current + 1
    ensures 1 <= wrapsOn && current <= wrapsOn ==> r <= wrapsOn
  {
    if current == wrapsOn then 1 else current + 1
  }

  /** The handles returned by `n` successive calls of `next()` on a counter whose stored
      value is `current`. */
  function Issued(current: UInt32, wrapsOn: UInt32, n: nat): (hs: seq<UInt32>)
    requires 1 <= wrapsOn && current <= wrapsOn
    ensures |hs| == n
    ensures forall i :: 0 <= i < n ==> 1 <= hs[i] <= wrapsOn
    decreases n
  {
    if n == 0 then []
    else
      var h := NextHandle(current, wrapsOn);
      [h] + Issued(h, wrapsOn, n - 1)
  }

  /** Each issued handle is the successor of the one before it. */
  lemma {:induction false} IssuedStep(current: UInt32, wrapsOn: UInt32, n: nat, i: nat)
    requires 1 <= wrapsOn && current <= wrapsOn && i + 1 < n
    ensures Issued(current, wrapsOn, n)[i + 1] == NextHandle(Issued(current, wrapsOn, n)[i], wrapsOn)
    decreases i
  {
    var h := NextHandle(current, wrapsOn);
    if i > 0 {
      IssuedStep(h, wrapsOn, n - 1, i - 1);
    }
  }

  /** After the wrap boundary the counter issues 1; otherwise it issues the previous handle plus one. */
  lemma WrapsToOne(current: UInt32, wrapsOn: UInt32, n: nat, i: nat)
    requires 1 <= wrapsOn && current <= wrapsOn && i + 1 < n
    ensures Issued(current, wrapsOn, n)[i] == wrapsOn ==> Issued(current, wrapsOn, n)[i + 1] == 1
    ensures Issued(current, wrapsOn, n)[i] != wrapsOn ==>
              Issued(current, wrapsOn, n)[i + 1] == Issued(current, wrapsOn, n)[i] + 1
  {
    IssuedStep(current, wrapsOn, n, i);
  }

  /** The stored value after `k` calls of `next()` starting from stored value `s`. */
  function Advance(s: UInt32, wrapsOn: UInt32, k: nat): (r: UInt32)
    requires 1 <= wrapsOn && s <= wrapsOn
    ensures r <= wrapsOn
    ensures k > 0 ==> r != 0
    decreases k
  {
    if k == 0 then s else NextHandle(Advance(s, wrapsOn, k - 1), wrapsOn)
  }

  /** From a stored value in 1..wrapsOn, `k` calls (at most wrapsOn) move the counter `k`
      places forward around the cycle 1, 2, ..., wrapsOn, 1, ... */
  lemma {:induction false} AdvanceAround(s: UInt32, wrapsOn: UInt32, k: nat)
    requires 1 <= s <= wrapsOn && k <= wrapsOn
    ensures Advance(s, wrapsOn, k) == if s + k <= wrapsOn then s + k else s + k - wrapsOn
    decreases k
  {
    if k > 0 {
      AdvanceAround(s, wrapsOn, k - 1);
    }
  }

  /** The handle issued `k` calls after the `i`-th is the counter advanced `k` places from it. */
  lemma {:induction false} IssuedAdvance(current: UInt32, wrapsOn: UInt32, n: nat, i: nat, k: nat)
    requires 1 <= wrapsOn && current <= wrapsOn && i + k < n
    ensures Issued(current, wrapsOn, n)[i + k] == Advance(Issued(current, wrapsOn, n)[i], wrapsOn, k)
    decreases k
  {
    if k > 0 {
      IssuedAdvance(current, wrapsOn, n, i, k - 1);
      IssuedStep(current, wrapsOn, n, i + k - 1);
    }
  }

  /** No handle is issued twice within fewer than `wrapsOn` successive calls. */
  lemma NoRepeatBeforeWrap(current: UInt32, wrapsOn: UInt32, n: nat, i: nat, j: nat)
    requires 1 <= wrapsOn && current <= wrapsOn && i < j < n && j - i < wrapsOn
    ensures Issued(current, wrapsOn, n)[i] != Issued(current, wrapsOn, n)[j]
  {
    var hs := Issued(current, wrapsOn, n);
    IssuedAdvance(current, wrapsOn, n, i, j - i);
    AdvanceAround(hs[i], wrapsOn, j - i);
  }

  /** A counter created with `Handle::new(first)` issues first + 1, first + 2, ... until it reaches the
      largest 32-bit value. */
  lemma CountsUpFrom(first: UInt32, n: nat, i: nat)
    requires i < n && first + i < U32_MAX
    ensures Issued(first, U32_MAX, n)[i] == first + i + 1
  {
    var hs := Issued(first, U32_MAX, n);
    IssuedAdvance(first, U32_MAX, n, 0, i);
    AdvanceAround(hs[0], U32_MAX, i);
  }

  /** A counter stored at 1 with wrap boundary 3 issues 2, 3, 1, 2. */
  lemma WrapAtThree()
    ensures Issued(1, 3, 4) == [2, 3, 1, 2]
  {
  }

  /** The counter itself: the last value it issued (initially the first value), and the
      boundary at which it wraps to 1, which is always the largest 32-bit value. */
  class Handle {
    var next: UInt32
    const wrapsOn: UInt32

    ghost predicate Valid() {
      wrapsOn == U32_MAX
    }

    constructor (first: UInt32)
      ensures Valid()
      ensures next == first
    {
      next := first;
      wrapsOn := U32_MAX;
    }

    /** Advances the counter and returns the new value. */
    method Next() returns (h: UInt32)
      requires Valid()
      modifies this
      ensures h == NextHandle(old(next), wrapsOn)
      ensures next == h
    {
      if next == wrapsOn {
        next := 1;
      } else {
        next := next + 1;
      }
      h := next;
    }
  }

  /** `n` successive calls of `next()` on one counter return the handles `Issued` describes,
      and the counter is left storing the last of them. */
  method NextRun(h: Handle, n: nat) returns (hs: seq<UInt32>)
    requires h.Valid()
    modifies h
    ensures h.Valid()
    ensures hs == Issued(old(h.next), U32_MAX, n)
    ensures h.next == if n == 0 then old(h.next) else hs[n - 1]
  {
    ghost var start := h.next;
    hs := [];
    var i := 0;
    while i < n
      invariant 0 <= i <= n && h.Valid()
      invariant hs + Issued(h.next, U32_MAX, n - i) == Issued(start, U32_MAX, n)
      invariant h.next == if i == 0 then start else hs[i - 1]
    {
      ghost var before := h.next;
      var x := h.Next();
      assert Issued(before, U32_MAX, n - i) == [x] + Issued(x, U32_MAX, n - i - 1);
      hs := hs + [x];
      i := i + 1;
    }
  }
}
