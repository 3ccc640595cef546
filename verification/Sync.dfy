/** Semaphores and barriers as the drivers use them, and the counting they need. */
module Sync {
  datatype Option<+T> = None | Some(value: T)

  /** A binary semaphore. Waiting is possible while value > 0; the owner is
      bookkeeping for proofs and is never tested. */
  datatype Sem = Sem(value: nat, owner: Option<nat>) {
    function Wait(actor: nat): Sem
      requires value > 0
    {
      Sem(value - 1, Some(actor))
    }

    function Post(): Sem {
      Sem(value + 1, None)
    }

    ghost predicate Binary() {
      value == if owner.None? then 1 else 0
    }
  }

  const Free := Sem(1, None)

  /** A library barrier for `size` participants: the last arrival opens the next generation. */
  datatype Barrier = Barrier(size: nat, arrived: nat, generation: nat) {
    function Arrive(): Barrier {
      if arrived + 1 == size then Barrier(size, 0, generation + 1) else this.(arrived := arrived + 1)
    }
  }

  function Sum(s: seq<nat>): nat {
    if s == [] then 0 else s[0] + Sum(s[1..])
  }

  /** The barrier has counted exactly those who wait in its present generation. */
  ghost predicate BarrierOk(b: Barrier, waiting: seq<nat>) {
    b.size == |waiting| && b.arrived == Sum(waiting) && b.arrived < b.size
  }

  lemma {:induction false} SumUpdate(s: seq<nat>, i: nat, x: nat)
    requires i < |s|
    ensures Sum(s[i := x]) + s[i] == Sum(s) + x
  {
    if i > 0 {
      assert s[i := x][1..] == s[1..][i - 1 := x];
      SumUpdate(s[1..], i - 1, x);
    } else {
      assert s[0 := x][1..] == s[1..];
    }
  }

  ghost predicate Bits(s: seq<nat>) {
    forall i :: 0 <= i < |s| ==> s[i] <= 1
  }

  lemma {:induction false} SumOfBits(s: seq<nat>)
    requires Bits(s)
    ensures Sum(s) <= |s|
    ensures Sum(s) == |s| <==> forall i :: 0 <= i < |s| ==> s[i] == 1
    ensures Sum(s) == 0 <==> forall i :: 0 <= i < |s| ==> s[i] == 0
  {
    if s != [] {
      SumOfBits(s[1..]);
      assert forall i :: 1 <= i < |s| ==> s[i] == s[1..][i - 1];
    }
  }

  lemma SumChange(s: seq<nat>, s': seq<nat>, i: nat)
    requires i < |s| == |s'|
    requires forall j :: 0 <= j < |s| && j != i ==> s'[j] == s[j]
    ensures Sum(s') + s[i] == Sum(s) + s'[i]
  {
    assert s' == s[i := s'[i]];
    SumUpdate(s, i, s'[i]);
  }
}
