/** Why the fairness of HandBarrierFairness has to be strong: every program of wtc_proc_test
    has a run in which no actor that stays able to act is passed over, and which never ends.
    The children work until they all stand at bLock (or, with no rounds to do, at cLock);
    from then on the parent's polling takes the semaphore again and again before them. */
module HandBarrierWeakFairness {
  import opened Sync
  import opened HandBarrier
  import opened HandBarrierRuns
  import opened HandBarrierProgress
  import opened HandBarrierFairness

  /** Whoever can act at all times from some time on acts infinitely often. */
  ghost predicate WeaklyFairTo(r: Timed, a: nat) {
    (exists t: nat :: AlwaysAbleFrom(r, a, t)) ==> forall t: nat :: TakesFrom(r, a, t)
  }

  ghost predicate AlwaysAbleFrom(r: Timed, a: nat, t: nat) {
    forall u: nat :: t <= u ==> Able(r.p, r.at(u), a)
  }

  // ------------------------------------------------- the children come to a wait

  predicate Parked(p: Program, c: Child) {
    if p.n > 0 then c.pc.ArriveWait? else c.pc.LeaveWait?
  }

  /** The parent has not moved and the children are at their columns or past them. */
  ghost predicate Parking(p: Program, s: State) {
    && Inv(p, s)
    && s.parent.pc.BarrierWait? && !s.parent.done
    && forall id :: 0 <= id < p.T ==> InMatrix(s.children[id]) || Parked(p, s.children[id])
  }

  lemma InitIsParking(p: Program)
    ensures Parking(p, Init(p))
  {
    InitInv(p);
  }

  lemma MatrixMover(p: Program, s: State, id: nat) returns (a: nat)
    requires Inv(p, s) && id < p.T && InMatrix(s.children[id])
    ensures a < p.T && InMatrix(s.children[a]) && ChildEnabled(s, a) && !Polls(p, s, a)
  {
    a := id;
    if s.matrixLock.owner.Some? {
      a := Holder(p, s, s.matrixLock);
    } else {
      assert OwnsOk(p, s, id);
    }
  }

  lemma MatrixMoveParks(p: Program, s: State, a: nat)
    requires Parking(p, s) && a < p.T && InMatrix(s.children[a]) && ChildEnabled(s, a)
    ensures Parking(p, Act(p, s, a))
  {
    ActKeepsInv(p, s, a);
    ChildFrame(p, s, a);
    assert PcShape(p, s.children[a]);
  }

  lemma {:induction false} AllPark(p: Program, s: State) returns (sched: seq<nat>)
    requires Parking(p, s)
    ensures Polling(p, Run(p, s, sched))
    decreases Measure(p, s)
  {
    if id :| 0 <= id < p.T && InMatrix(s.children[id]) {
      var a := MatrixMover(p, s, id);
      MatrixMoveParks(p, s, a);
      StepMeasure(p, s, a);
      var rest := AllPark(p, Act(p, s, a));
      sched := [a] + rest;
      assert Run(p, s, sched) == Run(p, Act(p, s, a), sched[1..]) && sched[1..] == rest;
    } else {
      sched := [];
      assert Run(p, s, sched) == s;
    }
  }

  // ---------------------------------------------------------- the parent polls

  predicate Passing(pc: ParentPc) {
    pc.BarrierWait? || pc.BarrierTest? || pc.BarrierPost? || pc.DoneWait? || pc.DoneTest? || pc.DonePost?
  }

  /** All children are parked and the parent is somewhere in its polling pass. */
  ghost predicate Polling(p: Program, s: State) {
    && Inv(p, s)
    && Passing(s.parent.pc) && !s.parent.done
    && forall id :: 0 <= id < p.T ==> Parked(p, s.children[id])
  }

  lemma NothingCounted(p: Program, s: State)
    requires Polling(p, s)
    ensures s.bCount == 0 && s.count == p.T
  {
    SumOfBits(ArrivedBits(s));
    SumOfBits(LeftBits(s));
  }

  lemma PollingIsAble(p: Program, s: State)
    requires Polling(p, s)
    ensures ParentEnabled(s)
  {
    if s.parent.pc.BarrierWait? && s.bLock.owner.Some? {
      var a := Holder(p, s, s.bLock);
    } else if s.parent.pc.DoneWait? && s.cLock.owner.Some? {
      var a := Holder(p, s, s.cLock);
    }
  }

  lemma PollingGoesOn(p: Program, s: State)
    requires Polling(p, s)
    ensures ParentEnabled(s) && Polls(p, s, p.T)
    ensures Act(p, s, p.T) == ParentStep(p, s) && Polling(p, ParentStep(p, s))
  {
    NothingCounted(p, s);
    PollingIsAble(p, s);
    ParentFrame(p, s);
    ActKeepsInv(p, s, p.T);
  }

  /** At the test the parent holds the semaphore the children wait for. */
  lemma ParkedIsBlocked(p: Program, s: State, id: nat)
    requires Polling(p, s) && id < p.T
    requires if p.n > 0 then s.parent.pc.BarrierTest? else s.parent.pc.DoneTest?
    ensures !Able(p, s, id)
  {
    assert OwnsOk(p, s, p.T);
  }

  /** From time n on it is always the parent's turn, and it polls. */
  ghost predicate PollsFrom(r: Timed, n: nat) {
    IsRun(r) && Polling(r.p, r.at(n)) && forall t: nat :: n <= t ==> r.turn(t) == r.p.T
  }

  ghost predicate PollingAt(r: Timed, t: nat) {
    Polling(r.p, r.at(t))
  }

  lemma KeepsPolling(r: Timed, n: nat, t: nat)
    requires PollsFrom(r, n) && n <= t && PollingAt(r, t)
    ensures PollingAt(r, t + 1)
  {
    PollStepAt(r, n, t);
  }

  lemma StaysPolling(r: Timed, n: nat, t: nat)
    requires PollsFrom(r, n) && n <= t
    ensures Polling(r.p, r.at(t))
  {
    var P := (v: nat) => PollingAt(r, v);
    forall v: nat | n <= v && P(v) ensures P(v + 1) {
      KeepsPolling(r, n, v);
    }
    Always(P, n, t);
  }

  lemma PollStepAt(r: Timed, n: nat, t: nat)
    requires PollsFrom(r, n) && n <= t && Polling(r.p, r.at(t))
    ensures ParentEnabled(r.at(t)) && |r.at(t).children| == r.p.T && Polls(r.p, r.at(t), r.p.T)
    ensures r.at(t + 1) == ParentStep(r.p, r.at(t)) && Polling(r.p, r.at(t + 1)) && Takes(r, r.p.T, t)
  {
    assert Follows(r, t);
    PollingGoesOn(r.p, r.at(t));
  }

  lemma {:induction false} BarrierTestAgain(r: Timed, n: nat, t: nat) returns (u: nat)
    requires PollsFrom(r, n) && n <= t
    ensures t <= u && r.at(u).parent.pc.BarrierTest?
    decreases ToBarrierTest(r.at(t).parent.pc)
  {
    u := t;
    if !r.at(t).parent.pc.BarrierTest? {
      StaysPolling(r, n, t);
      PollStepAt(r, n, t);
      PollAdvances(r.p, r.at(t));
      u := BarrierTestAgain(r, n, t + 1);
    }
  }

  lemma {:induction false} DoneTestAgain(r: Timed, n: nat, t: nat) returns (u: nat)
    requires PollsFrom(r, n) && n <= t
    ensures t <= u && r.at(u).parent.pc.DoneTest?
    decreases ToDoneTest(r.at(t).parent.pc)
  {
    u := t;
    if !r.at(t).parent.pc.DoneTest? {
      StaysPolling(r, n, t);
      PollStepAt(r, n, t);
      PollAdvances(r.p, r.at(t));
      u := DoneTestAgain(r, n, t + 1);
    }
  }

  /** Every child is blocked again and again. */
  lemma ChildBlockedAgain(r: Timed, n: nat, id: nat, t: nat)
    requires PollsFrom(r, n) && id < r.p.T
    ensures !AlwaysAbleFrom(r, id, t)
  {
    var from, u := if t < n then n else t, 0;
    if r.p.n > 0 {
      u := BarrierTestAgain(r, n, from);
    } else {
      u := DoneTestAgain(r, n, from);
    }
    StaysPolling(r, n, u);
    ParkedIsBlocked(r.p, r.at(u), id);
  }

  lemma PollingIsWeaklyFair(r: Timed, n: nat, a: nat)
    requires PollsFrom(r, n) && a <= r.p.T
    ensures WeaklyFairTo(r, a)
  {
    if a < r.p.T {
      forall t: nat ensures !AlwaysAbleFrom(r, a, t) {
        ChildBlockedAgain(r, n, a, t);
      }
    } else {
      forall t: nat ensures TakesFrom(r, a, t) {
        var u := if t < n then n else t;
        StaysPolling(r, n, u);
        PollStepAt(r, n, u);
      }
    }
  }

  lemma PollingNeverEnds(r: Timed, n: nat, t: nat)
    requires PollsFrom(r, n)
    ensures Going(r, t)
  {
    if t < n && !Going(r, t) {
      ExitIsDead(r, t);
      DeadStays(r, t, n);
    } else if n <= t {
      StaysPolling(r, n, t);
    }
  }

  /** Every program has a run in which nobody who stays able to act is passed over, and
      which never ends. */
  lemma WeakFairnessIsNotEnough(p: Program) returns (r: Timed)
    ensures r.p == p && IsRun(r) && forall a: nat :: a <= p.T ==> WeaklyFairTo(r, a)
    ensures forall t: nat :: Going(r, t)
  {
    InitIsParking(p);
    var sched := AllPark(p, Init(p));
    r := ThenRuns(p, sched, p.T);
    var n := |sched|;
    assert PollsFrom(r, n);
    forall a: nat | a <= p.T ensures WeaklyFairTo(r, a) {
      PollingIsWeaklyFair(r, n, a);
    }
    forall t: nat ensures Going(r, t) {
      PollingNeverEnds(r, n, t);
    }
  }
}
