/** Whole runs of wtc_btproc. */
module BagOfTasksRuns {
  import opened Closure
  import opened Matrix
  import opened Sync
  import opened TwoBarriers
  import opened BagOfTasks

  ghost function Run(p: Program, s: State, sched: seq<nat>): (s': State)
    requires Inv(p, s)
    ensures Inv(p, s')
    decreases |sched|
  {
    if sched == [] then s
    else
      ActKeepsInv(p, s, sched[0]);
      Run(p, Act(p, s, sched[0]), sched[1..])
  }

  ghost function Reached(p: Program, sched: seq<nat>): (s: State)
    ensures Inv(p, s)
  {
    InitInv(p);
    Run(p, Init(p), sched)
  }

  /** In every reachable state no column of a round has been granted twice, and the
      children holding columns hold different ones. */
  lemma NoDoubleDispatch(p: Program, sched: seq<nat>, r: nat, t: nat, u: nat)
    requires r < p.n && t < u < |Reached(p, sched).grants[r]|
    ensures Reached(p, sched).grants[r][t].column != Reached(p, sched).grants[r][u].column
  {
    assert GrantsInOrder(Reached(p, sched).grants[r]);
  }

  /** A round that is over granted every column to exactly one child. */
  lemma ExactlyOnce(p: Program, sched: seq<nat>, r: nat, y: nat)
    requires r < p.n && y < p.n && r < Reached(p, sched).barrier1.generation
    ensures var g := Reached(p, sched).grants[r];
            && |g| == p.n
            && exists t :: 0 <= t < |g| && g[t].column == y
                           && forall u :: 0 <= u < |g| && g[u].column == y ==> u == t
  {
    var g := Reached(p, sched).grants[r];
    assert GrantsInOrder(g);
    assert g[y].column == y;
  }

  /** Whoever works on a column was granted it in its round. */
  ghost predicate HeldOk(p: Program, s: State, a: nat)
    requires a < |s.actors|
  {
    var me := s.actors[a];
    me.pc.Compute? ==>
      me.k < |s.grants| && me.pc.y < |s.grants[me.k]| && s.grants[me.k][me.pc.y] == Grant(me.pc.y, a)
  }

  lemma ActKeepsHeld(p: Program, s: State, b: nat, a: nat)
    requires Inv(p, s) && a <= p.T && HeldOk(p, s, a)
    ensures |Act(p, s, b).actors| == p.T + 1 && HeldOk(p, Act(p, s, b), a)
  {
    if b <= p.T && Enabled(s, b) {
      Placed(p, s, b);
      Placed(p, s, a);
      if s.actors[b].pc.Pop? {
        assert |s.grants[s.actors[b].k]| == s.qNum;
      }
    }
  }

  lemma {:induction false} RunKeepsHeld(p: Program, s: State, sched: seq<nat>, a: nat)
    requires Inv(p, s) && a <= p.T && HeldOk(p, s, a)
    ensures HeldOk(p, Run(p, s, sched), a)
    decreases |sched|
  {
    if sched != [] {
      ActKeepsInv(p, s, sched[0]);
      ActKeepsHeld(p, s, sched[0], a);
      RunKeepsHeld(p, Act(p, s, sched[0]), sched[1..], a);
    }
  }

  /** In every reachable state a child at work on a column holds the grant of it. */
  lemma HolderWasGranted(p: Program, sched: seq<nat>, a: nat)
    requires a <= p.T
    ensures HeldOk(p, Reached(p, sched), a)
  {
    InitInv(p);
    RunKeepsHeld(p, Init(p), sched, a);
  }

  /** The parent refills the bag only when every child is between the two barriers
      of the parent's own round. */
  lemma ClearIsQuiet(p: Program, sched: seq<nat>, a: nat)
    requires a < p.T && Reached(p, sched).actors[p.T].pc.Clear?
    ensures var s := Reached(p, sched);
            var c := s.actors[a];
            && c.k == s.actors[p.T].k
            && (c.pc.Enter2? || c.pc == Inside1(c.k) || c.pc == Inside2(c.k))
  {
    Placed(p, Reached(p, sched), a);
    Placed(p, Reached(p, sched), p.T);
  }

  /** After rounds 0 .. k-1, until the bag is refilled and reopened, cell (i, j) is set
      exactly when a path joins i to j through vertices below k. */
  lemma BetweenRounds(p: Program, sched: seq<nat>, i: nat, j: nat)
    requires p.ToJob().Valid() && i < p.n && j < p.n
    requires !RoundOpen(Reached(p, sched)) || Reached(p, sched).barrier1.generation == p.n
    ensures var s := Reached(p, sched);
            Cell(p.n, s.matrix, i, j) <==> p.ToJob().ConnectedVia(s.barrier1.generation, i, j)
  {
    var s := Reached(p, sched);
    ReachIffVia(p.ToJob(), s.barrier1.generation, i, j);
  }

  /** While round k runs, every set cell is joined through vertices up to k, and every pair
      joined through vertices below k is set, whatever has been written so far. */
  lemma WithinARound(p: Program, sched: seq<nat>, i: nat, j: nat)
    requires p.ToJob().Valid() && i < p.n && j < p.n
    requires RoundOpen(Reached(p, sched)) && Reached(p, sched).barrier1.generation < p.n
    ensures var s := Reached(p, sched);
            var k := s.barrier1.generation;
            && (p.ToJob().ConnectedVia(k, i, j) ==> Cell(p.n, s.matrix, i, j))
            && (Cell(p.n, s.matrix, i, j) ==> p.ToJob().ConnectedVia(k + 1, i, j))
  {
    var s := Reached(p, sched);
    ReachIffVia(p.ToJob(), s.barrier1.generation, i, j);
    ReachIffVia(p.ToJob(), s.barrier1.generation + 1, i, j);
  }

  /** When the parent leaves its round loop the matrix is the transitive closure. */
  lemma ParentLeavesWithClosure(p: Program, s: State)
    requires Inv(p, s) && p.ToJob().Valid() && s.actors[p.T].pc.Exited?
    ensures HoldsClosure(p.ToJob(), s.matrix)
  {
    Placed(p, s, p.T);
    FinishedIsClosureIff(p.ToJob(), s.matrix);
    ClosureOfJob(p.ToJob());
  }

  // ------------------------------------------------------------ termination

  function PcWork(pc: Pc): nat {
    match pc
    case Compute(y) => 7
    case Pop => 6
    case Enter1 => 5
    case Inside1(g) => 4
    case Clear => 3
    case Enter2 => 2
    case Inside2(g) => 1
    case Exited => 0
  }

  function ActorWork(n: nat, a: Actor): nat {
    if a.k < n then 7 * (n - 1 - a.k) + PcWork(a.pc) else 0
  }

  ghost function ActorsWork(p: Program, s: State): (w: seq<nat>)
    ensures |w| == |s.actors|
  {
    seq(|s.actors|, a requires 0 <= a < |s.actors| => ActorWork(p.n, s.actors[a]))
  }

  /** Columns round r has still to grant. */
  ghost function GrantsLeft(p: Program, s: State): (w: seq<nat>)
    ensures |w| == |s.grants|
  {
    seq(|s.grants|, r requires 0 <= r < |s.grants| => if |s.grants[r]| < p.n then p.n - |s.grants[r]| else 0)
  }

  ghost function Measure(p: Program, s: State): nat {
    Sum(ActorsWork(p, s)) + 2 * Sum(GrantsLeft(p, s))
  }

  lemma GrantsChange(p: Program, s: State, a: nat)
    requires Inv(p, s) && a <= p.T && Enabled(s, a)
    ensures Sum(GrantsLeft(p, Step(p, s, a))) + (if s.actors[a].pc.Pop? && s.qNum < p.n then 1 else 0)
            == Sum(GrantsLeft(p, s))
  {
    var s', k := Step(p, s, a), s.actors[a].k;
    if s.actors[a].pc.Pop? && s.qNum < p.n {
      Placed(p, s, a);
      assert |s.grants[k]| == s.qNum;
      SumChange(GrantsLeft(p, s), GrantsLeft(p, s'), k);
    } else {
      assert s.actors[a].pc.Pop? ==> s.queue[s.qNum] == -1;
      assert s'.grants == s.grants;
    }
  }

  lemma ActorStepWork(p: Program, s: State, a: nat)
    requires Shape(p, s) && a <= p.T && Enabled(s, a)
    ensures |Step(p, s, a).actors| == p.T + 1
    ensures ActorWork(p.n, Step(p, s, a).actors[a])
            <= ActorWork(p.n, s.actors[a]) + if s.actors[a].pc.Pop? && s.qNum < p.n then 1 else -1
  {
    assert ActorShape(p, s, a);
    assert s.queue[s.qNum] == if s.qNum < p.n then s.qNum else -1;
  }

  /** Every step of an actor that is not blocked lowers the measure. */
  lemma StepMeasure(p: Program, s: State, a: nat)
    requires Inv(p, s) && a <= p.T && Enabled(s, a)
    ensures Measure(p, Step(p, s, a)) < Measure(p, s)
  {
    GrantsChange(p, s, a);
    ActorStepWork(p, s, a);
    var s' := Step(p, s, a);
    forall b | 0 <= b <= p.T && b != a ensures s'.actors[b] == s.actors[b] {
    }
    SumChange(ActorsWork(p, s), ActorsWork(p, s'), a);
  }

  ghost function StepsTaken(p: Program, s: State, sched: seq<nat>): nat
    requires Inv(p, s)
    decreases |sched|
  {
    if sched == [] then 0
    else
      ActKeepsInv(p, s, sched[0]);
      (if sched[0] <= p.T && Enabled(s, sched[0]) then 1 else 0)
      + StepsTaken(p, Act(p, s, sched[0]), sched[1..])
  }

  /** Every schedule makes at most Measure steps: no run goes on for ever. */
  lemma {:induction false} StepsBounded(p: Program, s: State, sched: seq<nat>)
    requires Inv(p, s)
    ensures StepsTaken(p, s, sched) + Measure(p, Run(p, s, sched)) <= Measure(p, s)
    decreases |sched|
  {
    if sched != [] {
      ActKeepsInv(p, s, sched[0]);
      if sched[0] <= p.T && Enabled(s, sched[0]) {
        StepMeasure(p, s, sched[0]);
      }
      StepsBounded(p, Act(p, s, sched[0]), sched[1..]);
    }
  }

  /** A run that can go no further has finished, and its matrix is the closure:
      the barriers never deadlock. */
  lemma MaximalRunIsClosure(p: Program, sched: seq<nat>)
    requires p.ToJob().Valid()
    requires forall a :: 0 <= a <= p.T ==> !Enabled(Reached(p, sched), a)
    ensures forall a :: 0 <= a <= p.T ==> Reached(p, sched).actors[a].pc.Exited?
    ensures HoldsClosure(p.ToJob(), Reached(p, sched).matrix)
  {
    var s := Reached(p, sched);
    forall a | 0 <= a <= p.T ensures !CanMove(View(p, s), a) {
      assert !Enabled(s, a);
    }
    StuckMeansGone(View(p, s));
    forall a | 0 <= a <= p.T ensures s.actors[a].pc.Exited? {
      assert View(p, s).members[a].place.Gone?;
    }
    ParentLeavesWithClosure(p, s);
  }
}
