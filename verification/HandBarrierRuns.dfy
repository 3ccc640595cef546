/** Whole runs of wtc_proc_test: safety of the barrier, the final matrix, and progress. */
module HandBarrierRuns {
  import opened Closure
  import opened Matrix
  import opened Sync
  import opened HandBarrier

  /** The state after the actors of `sched` have taken their turns in order. */
  ghost function Run(p: Program, s: State, sched: seq<nat>): State
    requires Inv(p, s)
    decreases |sched|
  {
    if sched == [] then s
    else
      ActKeepsInv(p, s, sched[0]);
      Run(p, Act(p, s, sched[0]), sched[1..])
  }

  lemma {:induction false} RunKeepsInv(p: Program, s: State, sched: seq<nat>)
    requires Inv(p, s)
    ensures Inv(p, Run(p, s, sched))
    decreases |sched|
  {
    if sched != [] {
      ActKeepsInv(p, s, sched[0]);
      RunKeepsInv(p, Act(p, s, sched[0]), sched[1..]);
    }
  }

  lemma {:induction false} RunConcat(p: Program, s: State, first: seq<nat>, second: seq<nat>)
    requires Inv(p, s)
    ensures Inv(p, Run(p, s, first))
    ensures Run(p, s, first + second) == Run(p, Run(p, s, first), second)
    decreases |first|
  {
    RunKeepsInv(p, s, first);
    if first == [] {
      assert first + second == second;
    } else {
      ActKeepsInv(p, s, first[0]);
      assert (first + second)[1..] == first[1..] + second;
      RunConcat(p, Act(p, s, first[0]), first[1..], second);
    }
  }

  lemma RunOneMore(p: Program, s: State, sched: seq<nat>, t: nat)
    requires Inv(p, s) && t < |sched|
    ensures Inv(p, Run(p, s, sched[..t]))
    ensures Run(p, s, sched[..t + 1]) == Act(p, Run(p, s, sched[..t]), sched[t])
  {
    RunConcat(p, s, sched[..t], [sched[t]]);
    assert sched[..t] + [sched[t]] == sched[..t + 1];
    var mid := Run(p, s, sched[..t]);
    ActKeepsInv(p, mid, sched[t]);
    assert Run(p, mid, [sched[t]]) == Run(p, Act(p, mid, sched[t]), []);
  }

  ghost function Reached(p: Program, sched: seq<nat>): (s: State)
    ensures Inv(p, s)
  {
    InitInv(p);
    RunKeepsInv(p, Init(p), sched);
    Run(p, Init(p), sched)
  }

  // ---------------------------------------------------------------- safety

  /** Two children are never more than one round apart, and a child computes in
      round k only when every other child is in round k or has arrived at the end of
      round k-1, with all columns of the rounds before k written. */
  lemma BarrierSafe(p: Program, sched: seq<nat>, a: nat, b: nat)
    requires a < p.T && b < p.T
    ensures var s := Reached(p, sched);
            var x, y := s.children[a], s.children[b];
            && -1 <= x.k - y.k <= 1
            && (InMatrix(x) ==> x.k <= y.k || (x.k == y.k + 1 && Arrived(y)))
            && (InMatrix(x) ==> Within(p.ToJob(), s.matrix, x.k))
  {
    var s := Reached(p, sched);
    assert RoundOk(p, s, a) && RoundOk(p, s, b);
  }

  /** Between the flip and the reset no child is inside the bCount section, and
      every child still counted as arrived has been released, so clearing bCount
      loses no arrival. */
  lemma ResetLosesNothing(p: Program, sched: seq<nat>, id: nat)
    requires id < p.T
    requires Reached(p, sched).parent.pc.FlipPost? || Reached(p, sched).parent.pc.Reset?
    ensures var s := Reached(p, sched);
            && !HoldsB(p, s, id)
            && (Arrived(s.children[id]) ==> s.children[id].k + 1 == s.flips && s.cont == s.children[id].nextFlip)
  {
    var s := Reached(p, sched);
    assert OwnsOk(p, s, id) && OwnsOk(p, s, p.T);
    SumOfBits(ArrivedBits(s));
    assert ArrivedBits(s)[id] == 0;
    assert RoundOk(p, s, id);
  }

  /** When the parent finds count == 0 every child has passed all n rounds and the
      matrix is exactly what n rounds over the covered columns compute. */
  lemma EndToEnd(p: Program, sched: seq<nat>, i: nat, j: nat)
    requires p.ToJob().Valid() && i < p.n && j < p.n
    requires Reached(p, sched).count == 0
    ensures var s := Reached(p, sched);
            && (forall id :: 0 <= id < p.T ==> Left(s.children[id]) && s.children[id].k == p.n)
            && (Cell(p.n, s.matrix, i, j) <==>
                if j < Covered(p.n, p.T) then p.ToJob().Follows(i, j) else (i, j) in p.edges)
            && (p.n % p.T == 0 ==> (Cell(p.n, s.matrix, i, j) <==> p.ToJob().Connected(i, j)))
  {
    var s := Reached(p, sched);
    SumOfBits(LeftBits(s));
    forall id | 0 <= id < p.T ensures Left(s.children[id]) && s.children[id].k == p.n {
      assert LeftBits(s)[id] == 1;
      assert RoundOk(p, s, id);
    }
    assert RoundOk(p, s, 0);
    RoundsExact(p.ToJob(), i, j);
    CoveredFits(p.n, p.T);
    if p.n % p.T == 0 {
      RoundsAreClosure(p.ToJob(), i, j);
    }
  }

  /** The second half of the parent's test, cont != nextFlip, always holds: that all have
      arrived decides alone. */
  lemma ArrivalsDecide(p: Program, sched: seq<nat>)
    ensures Reached(p, sched).cont != Reached(p, sched).parent.nextFlip
  {
    assert ParentOk(p, Reached(p, sched));
  }

  /** The parent leaves its loop only with count == 0. */
  lemma ExitMeansCountZero(p: Program, sched: seq<nat>)
    requires Reached(p, sched).parent.pc.ParentExited?
    ensures Reached(p, sched).count == 0
  {
    assert ParentOk(p, Reached(p, sched));
  }

  /** When the parent has left its loop all n rounds are in the matrix. */
  lemma ExitedAtRoundN(p: Program, s: State)
    requires Inv(p, s) && s.parent.pc.ParentExited?
    ensures AtRound(p.ToJob(), s.matrix, p.n)
  {
    SumOfBits(LeftBits(s));
    assert LeftBits(s)[0] == 1;
    assert RoundOk(p, s, 0);
  }

  // ----------------------------------------------------- after the shutdown

  /** When the parent has found count == 0 every child has exited for good. */
  ghost predicate DoneIsLast(p: Program, s: State)
    requires |s.children| == p.T
  {
    s.parent.done ==> forall id :: 0 <= id < p.T ==> s.children[id].pc.ChildExited?
  }

  /** While the parent is inside cLock nobody is between the last count and the last post. */
  lemma LastTestSeesExits(p: Program, s: State, id: nat)
    requires Inv(p, s) && s.parent.pc.DoneTest? && s.count == 0 && id < p.T
    ensures s.children[id].pc.ChildExited?
  {
    SumOfBits(LeftBits(s));
    assert LeftBits(s)[id] == 1;
    assert OwnsOk(p, s, id) && OwnsOk(p, s, p.T);
  }

  lemma ActKeepsDoneIsLast(p: Program, s: State, a: nat)
    requires Inv(p, s) && DoneIsLast(p, s)
    ensures |Act(p, s, a).children| == p.T && DoneIsLast(p, Act(p, s, a))
  {
    if Enabled(p, s, a) {
      if a < p.T {
        ChildFrame(p, s, a);
      } else {
        ParentFrame(p, s);
        if s.parent.pc.DoneTest? && s.count == 0 {
          forall id | 0 <= id < p.T ensures s.children[id].pc.ChildExited? {
            LastTestSeesExits(p, s, id);
          }
        }
      }
    }
  }
}
