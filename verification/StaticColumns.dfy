/** wtc_proc: each child owns a fixed range of columns and one library barrier, shared
    with the parent, ends every round. matrixLock makes a column update one step.
    Actors 0 .. T-1 are the children, T is the parent. */
module StaticColumns {
  import opened Closure
  import opened Matrix
  import opened Sync

  datatype Program = Program(n: nat, T: pos, edges: set<(nat, nat)>) {
    function ToJob(): Job {
      Job(n, edges, Columns(Covered(n, T)))
    }
  }

  datatype Pc = Compute(y: nat) | Enter | Inside(g: nat) | Exited

  datatype Actor = Actor(k: nat, pc: Pc)

  datatype State = State(matrix: seq<int>, barrier1: Barrier, actors: seq<Actor>)

  /** Where an actor goes at the head of its k loop. */
  function LoopHead(p: Program, a: nat, k: nat): Pc {
    if k >= p.n then Exited
    else if a < p.T && Low(p.n, p.T, a) < High(p.n, p.T, a) then Compute(Low(p.n, p.T, a))
    else Enter
  }

  function Init(p: Program): State {
    State(Loaded(p.ToJob()), Barrier(p.T + 1, 0, 0),
          seq(p.T + 1, a requires 0 <= a < p.T + 1 => Actor(0, LoopHead(p, a, 0))))
  }

  ghost predicate Shape(p: Program, s: State) {
    && |s.matrix| == p.n * p.n
    && |s.actors| == p.T + 1
    && forall a :: 0 <= a <= p.T ==> ActorShape(p, s.actors[a], a)
  }

  ghost predicate ActorShape(p: Program, me: Actor, a: nat) {
    && (me.pc.Compute? ==> a < p.T && Low(p.n, p.T, a) <= me.pc.y < High(p.n, p.T, a) && me.pc.y < p.n)
    && if me.pc.Exited? then me.k == p.n else me.k < p.n
  }

  predicate Enabled(s: State, a: nat)
    requires a < |s.actors|
  {
    match s.actors[a].pc
    case Inside(g) => s.barrier1.generation > g
    case Exited => false
    case _ => true
  }

  function Put(s: State, a: nat, me: Actor): State
    requires a < |s.actors|
  {
    s.(actors := s.actors[a := me])
  }

  ghost function Step(p: Program, s: State, a: nat): State
    requires Shape(p, s) && a <= p.T && Enabled(s, a)
  {
    assert ActorShape(p, s.actors[a], a);
    var me := s.actors[a];
    match me.pc
    case Compute(y) =>
      Put(s, a, me.(pc := if y + 1 < High(p.n, p.T, a) then Compute(y + 1) else Enter))
      .(matrix := ColumnStep(p.n, s.matrix, me.k, y))
    case Enter => Put(s, a, me.(pc := Inside(s.barrier1.generation))).(barrier1 := s.barrier1.Arrive())
    case Inside(g) => Put(s, a, Actor(me.k + 1, LoopHead(p, a, me.k + 1)))
  }

  ghost function Act(p: Program, s: State, a: nat): State
    requires Shape(p, s)
  {
    if a <= p.T && Enabled(s, a) then Step(p, s, a) else s
  }

  // -------------------------------------------------------------- invariant

  /** An actor is in the open round, or still inside the barrier that opened it. */
  ghost predicate PlaceOk(s: State, a: nat)
    requires a < |s.actors|
  {
    var me := s.actors[a];
    match me.pc
    case Inside(g) => me.k == g && g <= s.barrier1.generation <= g + 1
    case _ => me.k == s.barrier1.generation
  }

  ghost function Waiting(s: State): (b: seq<nat>)
    ensures |b| == |s.actors| && Bits(b)
  {
    seq(|s.actors|, a requires 0 <= a < |s.actors| =>
      if s.actors[a].pc == Inside(s.barrier1.generation) then 1 else 0)
  }

  ghost predicate Finished(s: State, a: nat, y: nat)
    requires a < |s.actors|
  {
    && s.actors[a].k == s.barrier1.generation
    && (s.actors[a].pc.Compute? ==> y < s.actors[a].pc.y)
  }

  ghost predicate WorkOk(p: Program, s: State)
    requires |s.matrix| == p.n * p.n && |s.actors| == p.T + 1
  {
    var k := s.barrier1.generation;
    if k < p.n then
      && Within(p.ToJob(), s.matrix, k)
      && forall a, y :: 0 <= a < p.T && 0 <= y < p.n && Owns(p.n, p.T, a, y) && Finished(s, a, y) ==>
           ColumnDone(p.ToJob(), s.matrix, k, y)
    else
      AtRound(p.ToJob(), s.matrix, p.n)
  }

  ghost predicate Inv(p: Program, s: State) {
    && Shape(p, s)
    && s.barrier1.generation <= p.n
    && (forall a :: 0 <= a <= p.T ==> PlaceOk(s, a))
    && BarrierOk(s.barrier1, Waiting(s))
    && WorkOk(p, s)
  }

  lemma InitInv(p: Program)
    ensures Inv(p, Init(p))
  {
    var s := Init(p);
    forall a | 0 <= a <= p.T ensures ActorShape(p, s.actors[a], a) {
      if a < p.T { HighFits(p.n, p.T, a); }
    }
    SumOfBits(Waiting(s));
    LoadedAtZero(p.ToJob());
    RoundStarts(p.ToJob(), s.matrix, 0);
  }

  lemma StepKeepsShape(p: Program, s: State, a: nat)
    requires Shape(p, s) && a <= p.T && Enabled(s, a)
    ensures Shape(p, Step(p, s, a))
  {
    if a < p.T { HighFits(p.n, p.T, a); }
    assert ActorShape(p, s.actors[a], a);
  }

  lemma ComputeKeepsWork(p: Program, s: State, a: nat, s': State)
    requires |s.matrix| == p.n * p.n && |s.actors| == |s'.actors| == p.T + 1 && WorkOk(p, s)
    requires a < p.T && s.actors[a].k == s.barrier1.generation < p.n
    requires s.actors[a].pc.Compute? && s.actors[a].pc.y < p.n && s.actors[a].pc.y < Covered(p.n, p.T)
    requires s'.matrix == ColumnStep(p.n, s.matrix, s.actors[a].k, s.actors[a].pc.y)
    requires s'.barrier1 == s.barrier1
    requires forall b :: 0 <= b <= p.T && b != a ==> s'.actors[b] == s.actors[b]
    requires s'.actors[a].pc == Compute(s.actors[a].pc.y + 1)
             || (s'.actors[a].pc.Enter? && s.actors[a].pc.y + 1 >= High(p.n, p.T, a))
    ensures WorkOk(p, s')
  {
    var mine, k := s.actors[a].pc.y, s.barrier1.generation;
    ColumnRound(p.ToJob(), s.matrix, k, mine);
    forall b, y | 0 <= b < p.T && 0 <= y < p.n && Owns(p.n, p.T, b, y) && Finished(s', b, y)
      ensures ColumnDone(p.ToJob(), s'.matrix, k, y)
    {
      if !Finished(s, b, y) {
        assert b == a && y == mine;
      }
    }
  }

  lemma ComputeKeepsInv(p: Program, s: State, a: nat)
    requires Inv(p, s) && a <= p.T && s.actors[a].pc.Compute?
    ensures Inv(p, Step(p, s, a))
  {
    assert PlaceOk(s, a) && ActorShape(p, s.actors[a], a);
    StepKeepsShape(p, s, a);
    MulMono(a + 1, p.T, p.n / p.T);
    ComputeKeepsWork(p, s, a, Step(p, s, a));
    ComputeKeepsPlaces(p, s, a);
  }

  lemma ComputeKeepsPlaces(p: Program, s: State, a: nat)
    requires Shape(p, s) && a <= p.T && s.actors[a].pc.Compute? && BarrierOk(s.barrier1, Waiting(s))
    requires forall b :: 0 <= b <= p.T ==> PlaceOk(s, b)
    ensures |Step(p, s, a).actors| == p.T + 1 && BarrierOk(Step(p, s, a).barrier1, Waiting(Step(p, s, a)))
    ensures forall b :: 0 <= b <= p.T ==> PlaceOk(Step(p, s, a), b)
  {
    var s' := Step(p, s, a);
    forall b | 0 <= b <= p.T ensures PlaceOk(s', b) {
      assert PlaceOk(s, b);
    }
    assert Waiting(s') == Waiting(s);
  }

  /** The last arrival finds everyone else inside, with all their columns written. */
  lemma LastArrivalEndsRound(p: Program, s: State, a: nat)
    requires Inv(p, s) && a <= p.T && s.actors[a].pc.Enter? && s.barrier1.arrived == p.T
    ensures s.barrier1.generation < p.n
    ensures forall b :: 0 <= b <= p.T && b != a ==>
              s.actors[b] == Actor(s.barrier1.generation, Inside(s.barrier1.generation))
    ensures AtRound(p.ToJob(), s.matrix, s.barrier1.generation + 1)
  {
    var k := s.barrier1.generation;
    assert ActorShape(p, s.actors[a], a) && PlaceOk(s, a);
    SumUpdate(Waiting(s), a, 1);
    SumOfBits(Waiting(s)[a := 1]);
    forall b | 0 <= b <= p.T && b != a ensures s.actors[b] == Actor(k, Inside(k)) {
      assert Waiting(s)[a := 1][b] == 1;
      assert PlaceOk(s, b);
    }
    forall y | 0 <= y < p.n && y < p.ToJob().cover.bound ensures ColumnDone(p.ToJob(), s.matrix, k, y) {
      CoveredIsOwned(p.n, p.T, y);
      var id: nat :| Owns(p.n, p.T, id, y);
      assert Finished(s, id, y);
    }
    ColumnsEndRound(p.ToJob(), s.matrix, k);
  }

  lemma EnterKeepsInv(p: Program, s: State, a: nat)
    requires Inv(p, s) && a <= p.T && s.actors[a].pc.Enter?
    ensures Inv(p, Step(p, s, a))
  {
    StepKeepsShape(p, s, a);
    var s', k := Step(p, s, a), s.barrier1.generation;
    assert ActorShape(p, s.actors[a], a) && PlaceOk(s, a);
    if s.barrier1.arrived == p.T {
      LastArrivalEndsRound(p, s, a);
      SumOfBits(Waiting(s'));
      if k + 1 < p.n { RoundStarts(p.ToJob(), s.matrix, k + 1); }
      forall b, y | 0 <= b < p.T && 0 <= y < p.n ensures !Finished(s', b, y) {
      }
    } else {
      forall b | 0 <= b <= p.T && b != a ensures PlaceOk(s', b) {
        assert PlaceOk(s, b);
      }
      SumChange(Waiting(s), Waiting(s'), a);
      forall b, y | 0 <= b < p.T && 0 <= y < p.n && Finished(s', b, y) ensures Finished(s, b, y) {
      }
    }
  }

  lemma LeaveKeepsInv(p: Program, s: State, a: nat)
    requires Inv(p, s) && a <= p.T && s.actors[a].pc.Inside? && Enabled(s, a)
    ensures Inv(p, Step(p, s, a))
  {
    StepKeepsShape(p, s, a);
    var s' := Step(p, s, a);
    assert ActorShape(p, s.actors[a], a) && PlaceOk(s, a);
    forall b | 0 <= b <= p.T && b != a ensures PlaceOk(s', b) {
      assert PlaceOk(s, b);
    }
    assert Waiting(s') == Waiting(s);
    if s.barrier1.generation < p.n {
      forall b, y | 0 <= b < p.T && 0 <= y < p.n && Owns(p.n, p.T, b, y) && Finished(s', b, y)
        ensures Finished(s, b, y)
      {
      }
    }
  }

  lemma ActKeepsInv(p: Program, s: State, a: nat)
    requires Inv(p, s)
    ensures Inv(p, Act(p, s, a))
  {
    if a <= p.T && Enabled(s, a) {
      match s.actors[a].pc {
        case Compute(y) => ComputeKeepsInv(p, s, a);
        case Enter => EnterKeepsInv(p, s, a);
        case Inside(g) => LeaveKeepsInv(p, s, a);
      }
    }
  }

  // ------------------------------------------------------------- whole runs

  ghost function Run(p: Program, s: State, sched: seq<nat>): (s': State)
    requires Inv(p, s)
    ensures Inv(p, s')
    decreases |sched|
  {
    if sched == [] then s
    else
      ActKeepsInv(p, s, sched[0]);
      Run(p, Act(p, s, sched[0]), sched[1..])
  }

  ghost function Reached(p: Program, sched: seq<nat>): (s: State)
    ensures Inv(p, s)
  {
    InitInv(p);
    Run(p, Init(p), sched)
  }

  /** What is printed for any T: uncovered columns as loaded, covered ones what
      followable paths give, never an input edge lost or an unjoined pair set. */
  lemma ParentPrints(p: Program, sched: seq<nat>, i: nat, j: nat)
    requires p.ToJob().Valid() && i < p.n && j < p.n
    requires Reached(p, sched).actors[p.T].pc.Exited?
    ensures var c := Cell(p.n, Reached(p, sched).matrix, i, j);
            && (c <==> if j < Covered(p.n, p.T) then p.ToJob().Follows(i, j) else (i, j) in p.edges)
            && ((i, j) in p.edges ==> c)
            && (c ==> p.ToJob().Connected(i, j))
            && (p.n % p.T == 0 ==> (c <==> p.ToJob().Connected(i, j)))
  {
    var s := Reached(p, sched);
    assert ActorShape(p, s.actors[p.T], p.T) && PlaceOk(s, p.T);
    RoundsExact(p.ToJob(), i, j);
    RoundsSound(p.ToJob(), i, j);
    CoveredFits(p.n, p.T);
    if p.n % p.T == 0 {
      RoundsAreClosure(p.ToJob(), i, j);
    }
  }

  /** No deadlock: if nobody can move, every actor has left its loop. */
  lemma StuckMeansExited(p: Program, s: State)
    requires Inv(p, s) && forall a :: 0 <= a <= p.T ==> !Enabled(s, a)
    ensures forall a :: 0 <= a <= p.T ==> s.actors[a].pc.Exited?
  {
    if a :| 0 <= a <= p.T && !s.actors[a].pc.Exited? {
      assert !Enabled(s, a) && PlaceOk(s, a) && ActorShape(p, s.actors[a], a);
      forall b | 0 <= b <= p.T ensures Waiting(s)[b] == 1 {
        assert !Enabled(s, b) && PlaceOk(s, b) && ActorShape(p, s.actors[b], b);
      }
      SumOfBits(Waiting(s));
      assert false;
    }
  }

  function RoundsLeft(p: Program, left: nat): nat {
    if left == 0 then 0 else RoundsLeft(p, left - 1) + p.n / p.T + 2
  }

  /** Steps an actor still owes. */
  function ActorWork(p: Program, a: nat, me: Actor): nat {
    if me.k < p.n then RoundsLeft(p, p.n - 1 - me.k) + PhaseWork(p, a, me.pc) else 0
  }

  function PhaseWork(p: Program, a: nat, pc: Pc): nat {
    match pc
    case Compute(y) => if y < High(p.n, p.T, a) then High(p.n, p.T, a) - y + 2 else 2
    case Enter => 2
    case _ => 1
  }

  ghost function Works(p: Program, s: State): (w: seq<nat>)
    ensures |w| == |s.actors|
  {
    seq(|s.actors|, a requires 0 <= a < |s.actors| => ActorWork(p, a, s.actors[a]))
  }

  lemma StepWork(p: Program, s: State, a: nat)
    requires Shape(p, s) && a <= p.T && Enabled(s, a)
    ensures |Step(p, s, a).actors| == p.T + 1
    ensures ActorWork(p, a, Step(p, s, a).actors[a]) < ActorWork(p, a, s.actors[a])
  {
    assert ActorShape(p, s.actors[a], a);
    assert High(p.n, p.T, a) - Low(p.n, p.T, a) == p.n / p.T;
  }

  lemma StepLowersWorks(p: Program, s: State, a: nat)
    requires Inv(p, s) && a <= p.T && Enabled(s, a)
    ensures Sum(Works(p, Act(p, s, a))) < Sum(Works(p, s))
  {
    StepWork(p, s, a);
    SumChange(Works(p, s), Works(p, Act(p, s, a)), a);
  }

  /** From every reachable state the run can be completed; every step brings it nearer. */
  lemma {:induction false} CanFinish(p: Program, s: State) returns (sched: seq<nat>)
    requires Inv(p, s)
    ensures forall a :: 0 <= a <= p.T ==> Run(p, s, sched).actors[a].pc.Exited?
    decreases Sum(Works(p, s))
  {
    if a :| 0 <= a <= p.T && Enabled(s, a) {
      ActKeepsInv(p, s, a);
      StepLowersWorks(p, s, a);
      var rest := CanFinish(p, Act(p, s, a));
      sched := [a] + rest;
    } else {
      StuckMeansExited(p, s);
      sched := [];
    }
  }

  ghost function StepsTaken(p: Program, s: State, sched: seq<nat>): nat
    requires Inv(p, s)
    decreases |sched|
  {
    if sched == [] then 0
    else
      ActKeepsInv(p, s, sched[0]);
      (if sched[0] <= p.T && Enabled(s, sched[0]) then 1 else 0)
      + StepsTaken(p, Act(p, s, sched[0]), sched[1..])
  }

  /** Every schedule makes boundedly many steps: no run goes on for ever. */
  lemma {:induction false} StepsBounded(p: Program, s: State, sched: seq<nat>)
    requires Inv(p, s)
    ensures StepsTaken(p, s, sched) + Sum(Works(p, Run(p, s, sched))) <= Sum(Works(p, s))
    decreases |sched|
  {
    if sched != [] {
      ActKeepsInv(p, s, sched[0]);
      if sched[0] <= p.T && Enabled(s, sched[0]) {
        StepLowersWorks(p, s, sched[0]);
      }
      StepsBounded(p, Act(p, s, sched[0]), sched[1..]);
    }
  }

  /** The matrix a finished run on the job's graph can leave behind. */
  ghost predicate Finishes(T: pos, job: Job, m: seq<int>) {
    exists sched :: var s := Reached(Program(job.n, T, job.edges), sched);
      s.actors[T].pc.Exited? && s.matrix == m
  }

  ghost function Outcomes(T: pos): (Job, seq<int>) -> bool {
    (job, m) => Finishes(T, job, m)
  }

  lemma FinishesAtRoundN(p: Program, m: seq<int>)
    requires Finishes(p.T, p.ToJob(), m)
    ensures AtRound(p.ToJob(), m, p.n)
  {
    var sched :| Reached(p, sched).actors[p.T].pc.Exited? && Reached(p, sched).matrix == m;
    var s := Reached(p, sched);
    assert ActorShape(p, s.actors[p.T], p.T) && PlaceOk(s, p.T);
  }

  lemma SomeOutcome(p: Program) returns (m: seq<int>)
    ensures Finishes(p.T, p.ToJob(), m)
  {
    InitInv(p);
    var sched := CanFinish(p, Init(p));
    assert Reached(p, sched).actors[p.T].pc.Exited?;
    m := Reached(p, sched).matrix;
  }

  /** wtc_proc prints the closure of every graph under every schedule exactly when T
      divides n or there is at most one vertex. */
  lemma PrintsClosureIff(n: nat, T: pos)
    ensures AlwaysClosure(n, Columns(Covered(n, T)), Outcomes(T)) <==> n % T == 0 || n <= 1
  {
    forall edges ensures exists m :: Outcomes(T)(Job(n, edges, Columns(Covered(n, T))), m) {
      var m := SomeOutcome(Program(n, T, edges));
      assert Outcomes(T)(Job(n, edges, Columns(Covered(n, T))), m);
    }
    forall edges, m | Outcomes(T)(Job(n, edges, Columns(Covered(n, T))), m)
      ensures AtRound(Job(n, edges, Columns(Covered(n, T))), m, n)
    {
      FinishesAtRoundN(Program(n, T, edges), m);
    }
    AlwaysClosureIff(n, T, Columns(Covered(n, T)), Outcomes(T));
  }
}
