/** Whole runs of wtc_thr. */
module PackedRowsRuns {
  import opened Closure
  import opened Matrix
  import opened Sync
  import opened TwoBarriers
  import opened BitArray
  import opened PackedRows

  ghost function Run(p: Program, s: State, sched: seq<nat>): (s': State)
    requires Inv(p, s)
    ensures Inv(p, s')
    decreases |sched|
  {
    if sched == [] then s
    else
      ActKeepsInv(p, s, sched[0]);
      Run(p, Act(p, s, sched[0]), sched[1..])
  }

  ghost function Reached(p: Program, bytes: seq<bv8>, sched: seq<nat>): (s: State)
    requires Starts(p, bytes)
    ensures Inv(p, s)
  {
    InitInv(p, bytes);
    Run(p, Init(p, bytes), sched)
  }

  predicate UsesK(t: Thread) {
    t.pc.Test? || t.pc.ReadPivot? || t.pc.Update?
  }

  /** Whenever a thread may read k, k is the number of rounds that thread has completed;
      so all threads of a round see the same k. */
  lemma SameK(p: Program, bytes: seq<bv8>, sched: seq<nat>, a: nat)
    requires Starts(p, bytes) && a <= p.T && UsesK(Reached(p, bytes, sched).threads[a])
    ensures Reached(p, bytes, sched).k == Reached(p, bytes, sched).threads[a].round
  {
    var s := Reached(p, bytes, sched);
    Placed(p, s, a);
    if s.threads[a].pc.Test? { TestSeesRound(p, s, a); }
  }

  /** k is advanced only while every worker is between the two barriers of the same round. */
  lemma AdvanceIsQuiet(p: Program, bytes: seq<bv8>, sched: seq<nat>, a: nat)
    requires Starts(p, bytes) && a < p.T && Reached(p, bytes, sched).threads[p.T].pc.Advance?
    ensures var s := Reached(p, bytes, sched);
            var t := s.threads[a];
            && t.round == s.k == s.threads[p.T].round
            && (t.pc.Enter2? || t.pc == Inside1(t.round) || t.pc == Inside2(t.round))
  {
    var s := Reached(p, bytes, sched);
    Placed(p, s, a);
    Placed(p, s, p.T);
  }

  /** The pivot bit a worker holds outside the mutex equals the pivot cell the round
      started with, however stale the read. */
  lemma StalePivotIsRight(p: Program, bytes: seq<bv8>, sched: seq<nat>, a: nat)
    requires Starts(p, bytes) && a < p.T && Reached(p, bytes, sched).threads[a].pc.Update?
    ensures var s := Reached(p, bytes, sched);
            var pc := s.threads[a].pc;
            && pc.i < p.n && s.k < p.n && HoldsMatrix(p.n, s.bytes)
            && pc.ik == p.ToJob().Reach(s.k, pc.i, s.k)
            && pc.ik == Cell(p.n, Unpack(p.n, s.bytes), pc.i, s.k)
  {
    var s := Reached(p, bytes, sched);
    Placed(p, s, a);
    assert PivotOk(p, s, s.k, a);
    PivotsFixed(p.ToJob(), Unpack(p.n, s.bytes), s.k, s.threads[a].pc.i);
  }

  /** When the main thread has joined everybody the packed matrix is what n rounds over
      the covered rows compute; it is the closure when T divides n. */
  lemma MainPrints(p: Program, bytes: seq<bv8>, sched: seq<nat>, i: nat, j: nat)
    requires Starts(p, bytes) && p.ToJob().Valid() && i < p.n && j < p.n
    requires Reached(p, bytes, sched).threads[p.T].pc.Exited?
    ensures var s := Reached(p, bytes, sched);
            && HoldsMatrix(p.n, s.bytes) && Index(p.n, i, j) < 8 * |s.bytes|
            && (GetBit(s.bytes, Index(p.n, i, j)) <==>
                if i < Covered(p.n, p.T) then p.ToJob().Follows(i, j) else (i, j) in p.edges)
            && (p.n % p.T == 0 ==> (GetBit(s.bytes, Index(p.n, i, j)) <==> p.ToJob().Connected(i, j)))
  {
    var s := Reached(p, bytes, sched);
    Placed(p, s, p.T);
    UnpackedCell(p.n, s.bytes, i, j);
    RoundsExact(p.ToJob(), i, j);
    CoveredFits(p.n, p.T);
    if p.n % p.T == 0 {
      RoundsAreClosure(p.ToJob(), i, j);
    }
  }

  // ------------------------------------------------------------- the joins

  /** Main has joined exactly the threads it has passed: they have exited. */
  ghost predicate JoinsOk(p: Program, s: State)
    requires |s.threads| == p.T + 1
  {
    match s.threads[p.T].pc
    case Join(id) => id < p.T && forall a :: 0 <= a < id ==> s.threads[a].pc.Exited?
    case Exited => forall a :: 0 <= a < p.T ==> s.threads[a].pc.Exited?
    case _ => true
  }

  lemma ActKeepsJoins(p: Program, s: State, a: nat)
    requires Inv(p, s) && JoinsOk(p, s)
    ensures |Act(p, s, a).threads| == p.T + 1 && JoinsOk(p, Act(p, s, a))
  {
    if a <= p.T && Enabled(p, s, a) {
      StepFrame(p, s, a);
    }
  }

  lemma {:induction false} RunKeepsJoins(p: Program, s: State, sched: seq<nat>)
    requires Inv(p, s) && JoinsOk(p, s)
    ensures JoinsOk(p, Run(p, s, sched))
    decreases |sched|
  {
    if sched != [] {
      ActKeepsInv(p, s, sched[0]);
      ActKeepsJoins(p, s, sched[0]);
      RunKeepsJoins(p, Act(p, s, sched[0]), sched[1..]);
    }
  }

  /** Main never passes a thread that is still running: at Join(id) all threads below id
      have exited, and when main has exited every worker has. */
  lemma MainExitsLast(p: Program, bytes: seq<bv8>, sched: seq<nat>, a: nat)
    requires Starts(p, bytes) && a < p.T
    requires var pc := Reached(p, bytes, sched).threads[p.T].pc; pc.Exited? || (pc.Join? && a < pc.id)
    ensures Reached(p, bytes, sched).threads[a].pc.Exited?
  {
    InitInv(p, bytes);
    RunKeepsJoins(p, Init(p, bytes), sched);
  }

  // ------------------------------------------------------------ termination

  /** Cell updates and pivot reads in `rows` rows. */
  function RowsWork(n: nat, rows: nat): nat {
    if rows == 0 then 0 else RowsWork(n, rows - 1) + n + 1
  }

  function PcWork(p: Program, a: nat, pc: Pc): nat {
    match pc
    case Test => RowsWork(p.n, p.n / p.T) + 6
    case ReadPivot(i) => RowsWork(p.n, if i < High(p.n, p.T, a) then High(p.n, p.T, a) - i else 0) + 5
    case Update(i, j, ik) =>
      RowsWork(p.n, if i + 1 < High(p.n, p.T, a) then High(p.n, p.T, a) - (i + 1) else 0)
      + (if j < p.n then p.n - j else 0) + 5
    case Enter1 => 5
    case Inside1(g) => 4
    case Advance => 3
    case Enter2 => 2
    case Inside2(g) => 1
    case _ => 0
  }

  function RoundsLeft(p: Program, left: nat): nat {
    if left == 0 then 0 else RoundsLeft(p, left - 1) + RowsWork(p.n, p.n / p.T) + 6
  }

  function LastWork(p: Program, pc: Pc): nat {
    match pc
    case Join(id) => if id < p.T then p.T - id else 0
    case Exited => 0
    case _ => p.T + 1
  }

  function ThreadWork(p: Program, a: nat, t: Thread): nat {
    if t.round < p.n then RoundsLeft(p, p.n - 1 - t.round) + PcWork(p, a, t.pc) + p.T + 1
    else LastWork(p, t.pc)
  }

  ghost function Works(p: Program, s: State): (w: seq<nat>)
    ensures |w| == |s.threads|
  {
    seq(|s.threads|, a requires 0 <= a < |s.threads| => ThreadWork(p, a, s.threads[a]))
  }

  /** Every step of a thread that is not blocked lowers what it still owes. */
  lemma StepWork(p: Program, s: State, a: nat)
    requires Inv(p, s) && a <= p.T && Enabled(p, s, a)
    ensures |Step(p, s, a).threads| == p.T + 1
    ensures ThreadWork(p, a, Step(p, s, a).threads[a]) < ThreadWork(p, a, s.threads[a])
  {
    Placed(p, s, a);
    if s.threads[a].pc.Test? { TestSeesRound(p, s, a); }
    ThreadStepWork(p, s, a);
  }

  /** A row or a round that is done is work no longer owed. */
  lemma NextRowWork(p: Program, a: nat, i: nat)
    ensures PcWork(p, a, NextRow(p, a, i)) ==
            RowsWork(p.n, if i < High(p.n, p.T, a) then High(p.n, p.T, a) - i else 0) + 5
  {
  }

  lemma UpdateStepWork(p: Program, s: State, a: nat)
    requires Shape(p, s) && a <= p.T && s.threads[a].pc.Update? && ThreadShape(p, s, a)
    requires s.threads[a].round < p.n
    ensures |Step(p, s, a).threads| == p.T + 1
    ensures ThreadWork(p, a, Step(p, s, a).threads[a]) < ThreadWork(p, a, s.threads[a])
  {
    NextRowWork(p, a, s.threads[a].pc.i + 1);
  }

  lemma ThreadStepWork(p: Program, s: State, a: nat)
    requires Shape(p, s) && a <= p.T && Enabled(p, s, a) && ThreadShape(p, s, a)
    requires match s.threads[a].pc
             case Test => s.k == s.threads[a].round
             case Join(id) => true
             case _ => s.threads[a].round < p.n
    ensures |Step(p, s, a).threads| == p.T + 1
    ensures ThreadWork(p, a, Step(p, s, a).threads[a]) < ThreadWork(p, a, s.threads[a])
  {
    if s.threads[a].pc.Update? {
      UpdateStepWork(p, s, a);
    } else if s.threads[a].pc.Test? && a < p.T {
      HighFits(p.n, p.T, a);
      NextRowWork(p, a, Low(p.n, p.T, a));
    }
  }

  /** Neither the barriers nor the joins deadlock. */
  lemma StuckMeansExited(p: Program, s: State)
    requires Inv(p, s) && forall a :: 0 <= a <= p.T ==> !Enabled(p, s, a)
    ensures forall a :: 0 <= a <= p.T ==> s.threads[a].pc.Exited?
  {
    forall a | 0 <= a <= p.T ensures !CanMove(View(p, s), a) {
      assert !Enabled(p, s, a);
      Placed(p, s, a);
    }
    StuckMeansGone(View(p, s));
    forall a | 0 <= a <= p.T ensures s.threads[a].pc.Exited? {
      assert !Enabled(p, s, a);
      assert View(p, s).members[a].place.Gone?;
      Placed(p, s, a);
      if s.threads[a].pc.Join? {
        var id := s.threads[a].pc.id;
        assert !Enabled(p, s, id);
        assert View(p, s).members[id].place.Gone?;
        Placed(p, s, id);
      }
    }
  }

  lemma StepLowersWorks(p: Program, s: State, a: nat)
    requires Inv(p, s) && a <= p.T && Enabled(p, s, a)
    ensures Sum(Works(p, Act(p, s, a))) < Sum(Works(p, s))
  {
    StepWork(p, s, a);
    StepFrame(p, s, a);
    SumChange(Works(p, s), Works(p, Act(p, s, a)), a);
  }

  /** From every reachable state the run can be completed. */
  lemma {:induction false} CanFinish(p: Program, s: State) returns (sched: seq<nat>)
    requires Inv(p, s)
    ensures forall a :: 0 <= a <= p.T ==> Run(p, s, sched).threads[a].pc.Exited?
    decreases Sum(Works(p, s))
  {
    if a :| 0 <= a <= p.T && Enabled(p, s, a) {
      ActKeepsInv(p, s, a);
      StepLowersWorks(p, s, a);
      var rest := CanFinish(p, Act(p, s, a));
      sched := [a] + rest;
    } else {
      StuckMeansExited(p, s);
      sched := [];
    }
  }

  ghost function StepsTaken(p: Program, s: State, sched: seq<nat>): nat
    requires Inv(p, s)
    decreases |sched|
  {
    if sched == [] then 0
    else
      ActKeepsInv(p, s, sched[0]);
      (if sched[0] <= p.T && Enabled(p, s, sched[0]) then 1 else 0)
      + StepsTaken(p, Act(p, s, sched[0]), sched[1..])
  }

  /** Every schedule makes boundedly many steps: no run goes on for ever. */
  lemma {:induction false} StepsBounded(p: Program, s: State, sched: seq<nat>)
    requires Inv(p, s)
    ensures StepsTaken(p, s, sched) + Sum(Works(p, Run(p, s, sched))) <= Sum(Works(p, s))
    decreases |sched|
  {
    if sched != [] {
      ActKeepsInv(p, s, sched[0]);
      if sched[0] <= p.T && Enabled(p, s, sched[0]) {
        StepLowersWorks(p, s, sched[0]);
      }
      StepsBounded(p, Act(p, s, sched[0]), sched[1..]);
    }
  }

  // ------------------------------------------------------------ main result

  /** Every edge set has a packed starting matrix: clear bits, one set per edge. */
  lemma {:induction false} CanStart(p: Program) returns (bytes: seq<bv8>)
    requires p.ToJob().Valid()
    ensures Starts(p, bytes)
    decreases p.edges
  {
    if p.edges == {} {
      bytes := seq(p.n * p.n / 8 + 1, x => 0);
      ZeroHasNoBits(p.n * p.n / 8 + 1);
    } else {
      var e :| e in p.edges;
      var rest := p.(edges := p.edges - {e});
      bytes := CanStart(rest);
      UnpackAfterSet(p.n, bytes, e.0, e.1);
      bytes := SetBit(bytes, Index(p.n, e.0, e.1));
      forall x | 0 <= x < p.n * p.n ensures Unpack(p.n, bytes)[x] == Loaded(p.ToJob())[x] {
        PositionIsIndex(p.n, x);
        assert Loaded(rest.ToJob())[x] == Truth((x / p.n, x % p.n) in rest.edges);
      }
    }
  }

  /** The matrix a finished run on the job's graph can leave behind. */
  ghost predicate Finishes(T: pos, job: Job, m: seq<int>) {
    exists bytes, sched :: FinishesFrom(Program(job.n, T, job.edges), bytes, sched, m)
  }

  ghost predicate FinishesFrom(p: Program, bytes: seq<bv8>, sched: seq<nat>, m: seq<int>) {
    && Starts(p, bytes)
    && Reached(p, bytes, sched).threads[p.T].pc.Exited?
    && Unpack(p.n, Reached(p, bytes, sched).bytes) == m
  }

  ghost function Outcomes(T: pos): (Job, seq<int>) -> bool {
    (job, m) => Finishes(T, job, m)
  }

  lemma FinishesAtRoundN(p: Program, m: seq<int>)
    requires Finishes(p.T, p.ToJob(), m)
    ensures AtRound(p.ToJob(), m, p.n)
  {
    var bytes, sched :| FinishesFrom(p, bytes, sched, m);
    Placed(p, Reached(p, bytes, sched), p.T);
  }

  lemma SomeRunFinishes(p: Program, bytes: seq<bv8>) returns (sched: seq<nat>)
    requires Starts(p, bytes)
    ensures FinishesFrom(p, bytes, sched, Unpack(p.n, Reached(p, bytes, sched).bytes))
  {
    InitInv(p, bytes);
    sched := CanFinish(p, Init(p, bytes));
    assert Run(p, Init(p, bytes), sched).threads[p.T as nat].pc.Exited?;
  }

  lemma SomeOutcome(p: Program) returns (m: seq<int>)
    requires p.ToJob().Valid()
    ensures Finishes(p.T, p.ToJob(), m)
  {
    var bytes := CanStart(p);
    var sched := SomeRunFinishes(p, bytes);
    m := Unpack(p.n, Reached(p, bytes, sched).bytes);
    assert FinishesFrom(Program(p.n, p.T, p.edges), bytes, sched, m);
  }

  /** wtc_thr prints the closure of every graph under every schedule exactly when T
      divides n or there is at most one vertex. */
  lemma PrintsClosureIff(n: nat, T: pos)
    ensures AlwaysClosure(n, Rows(Covered(n, T)), Outcomes(T)) <==> n % T == 0 || n <= 1
  {
    forall edges | Job(n, edges, Rows(Covered(n, T))).Valid()
      ensures exists m :: Outcomes(T)(Job(n, edges, Rows(Covered(n, T))), m)
    {
      var m := SomeOutcome(Program(n, T, edges));
      assert Outcomes(T)(Job(n, edges, Rows(Covered(n, T))), m);
    }
    forall edges, m | Outcomes(T)(Job(n, edges, Rows(Covered(n, T))), m)
      ensures AtRound(Job(n, edges, Rows(Covered(n, T))), m, n)
    {
      FinishesAtRoundN(Program(n, T, edges), m);
    }
    AlwaysClosureIff(n, T, Rows(Covered(n, T)), Outcomes(T));
  }
}
