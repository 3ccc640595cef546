/** Progress of wtc_proc_test: every useful step lowers a measure, spinning and
    polling never raise it, and from every reachable state the run can be completed. */
module HandBarrierProgress {
  import opened Closure
  import opened Matrix
  import opened Sync
  import opened HandBarrier
  import opened HandBarrierRuns

  // --------------------------------------------------------------- measure

  function RoundWork(p: Program): nat {
    3 * (p.n / p.T) + 5
  }

  function RoundsWork(p: Program, left: nat): nat {
    if left == 0 then 0 else RoundsWork(p, left - 1) + RoundWork(p)
  }

  /** Steps a child still owes in its round, spinning not counted. */
  function PhaseWork(p: Program, id: nat, c: Child): nat {
    match c.pc
    case MatrixWait(y) => ColumnsLeft(p, id, y) + 5
    case MatrixUpdate(y) => ColumnsLeft(p, id, y) + 4
    case MatrixPost(y) => ColumnsLeft(p, id, y) + 3
    case ArriveWait => 5
    case ArriveCount => 4
    case ArrivePost => 3
    case SpinWait => 2
    case SpinRead => 2
    case SpinPost => if c.tCont == c.nextFlip then 1 else 2
    case LeaveWait => 3
    case LeaveCount => 2
    case LeavePost => 1
    case ChildExited => 0
  }

  function ColumnsLeft(p: Program, id: nat, y: nat): nat {
    if y < High(p.n, p.T, id) then 3 * (High(p.n, p.T, id) - y) else 0
  }

  function ChildWork(p: Program, id: nat, c: Child): nat {
    if c.k < p.n then RoundsWork(p, p.n - 1 - c.k) + 4 + PhaseWork(p, id, c) else PhaseWork(p, id, c)
  }

  function ParentWork(p: Program, s: State): nat
    requires s.flips <= p.n
  {
    match s.parent.pc
    case FlipWait => 6 * (p.n - s.flips) + 1
    case Flip => 6 * (p.n - s.flips)
    case FlipPost => 6 * (p.n - s.flips) + 4
    case Reset => 6 * (p.n - s.flips) + 3
    case DonePost => 6 * (p.n - s.flips) + if s.parent.done then 1 else 2
    case ParentExited => 6 * (p.n - s.flips)
    case _ => 6 * (p.n - s.flips) + 2
  }

  ghost function WorkOfChildren(p: Program, s: State): (w: seq<nat>)
    ensures |w| == |s.children|
  {
    seq(|s.children|, id requires 0 <= id < |s.children| => ChildWork(p, id, s.children[id]))
  }

  ghost function Measure(p: Program, s: State): nat
    requires s.flips <= p.n
  {
    Sum(WorkOfChildren(p, s)) + ParentWork(p, s)
  }

  /** The steps of an unsuccessful look at cont, and of a parent's pass that
      neither flips nor finishes. */
  predicate Polls(p: Program, s: State, a: nat)
    requires |s.children| == p.T
  {
    if a < p.T then
      var c := s.children[a];
      match c.pc
      case SpinWait => true
      case SpinRead => s.cont != c.nextFlip
      case SpinPost => c.tCont != c.nextFlip
      case _ => false
    else
      match s.parent.pc
      case BarrierWait => true
      case BarrierTest => !(s.bCount == p.T && s.cont != s.parent.nextFlip)
      case BarrierPost => true
      case DoneWait => true
      case DoneTest => s.count != 0
      case DonePost => !s.parent.done
      case _ => false
  }

  lemma RoundStartWork(p: Program, id: nat, k: nat, c: Child)
    requires id < p.T && 0 < k <= p.n && c.k == k && c.pc == RoundStart(p, id, k)
    ensures ChildWork(p, id, c) < RoundsWork(p, p.n - k) + 5
  {
    assert High(p.n, p.T, id) - Low(p.n, p.T, id) == p.n / p.T;
  }

  lemma ChildStepWork(p: Program, s: State, id: nat)
    requires Shape(p, s) && id < p.T && ChildEnabled(s, id)
    requires RoundOk(p, s, id)
    ensures |ChildStep(p, s, id).children| == p.T
    ensures var before, after := ChildWork(p, id, s.children[id]), ChildWork(p, id, ChildStep(p, s, id).children[id]);
            if Polls(p, s, id) then after == before else after < before
  {
    var c, s' := s.children[id], ChildStep(p, s, id);
    if c.pc.SpinPost? && c.tCont == c.nextFlip {
      RoundStartWork(p, id, c.k + 1, s'.children[id]);
    }
  }

  /** Useful steps lower the measure; spins and polls leave it alone. */
  lemma StepMeasure(p: Program, s: State, a: nat)
    requires Inv(p, s) && Enabled(p, s, a)
    ensures Inv(p, Act(p, s, a))
    ensures if Polls(p, s, a) then Measure(p, Act(p, s, a)) == Measure(p, s)
            else Measure(p, Act(p, s, a)) < Measure(p, s)
  {
    ActKeepsInv(p, s, a);
    if a < p.T {
      assert RoundOk(p, s, a);
      ChildStepMeasure(p, s, a);
    } else {
      ParentStepMeasure(p, s);
    }
  }

  lemma ChildStepMeasure(p: Program, s: State, id: nat)
    requires Shape(p, s) && id < p.T && ChildEnabled(s, id) && RoundOk(p, s, id) && s.flips <= p.n
    ensures ChildStep(p, s, id).flips <= p.n
    ensures if Polls(p, s, id) then Measure(p, ChildStep(p, s, id)) == Measure(p, s)
            else Measure(p, ChildStep(p, s, id)) < Measure(p, s)
  {
    var s' := ChildStep(p, s, id);
    ChildFrame(p, s, id);
    ChildStepWork(p, s, id);
    SumChange(WorkOfChildren(p, s), WorkOfChildren(p, s'), id);
  }

  lemma ParentStepMeasure(p: Program, s: State)
    requires Inv(p, s) && ParentEnabled(s)
    ensures ParentStep(p, s).flips <= p.n
    ensures if Polls(p, s, p.T) then Measure(p, ParentStep(p, s)) == Measure(p, s)
            else Measure(p, ParentStep(p, s)) < Measure(p, s)
  {
    ParentKeepsRounds(p, s);
    assert ParentStep(p, s).children == s.children;
    assert WorkOfChildren(p, ParentStep(p, s)) == WorkOfChildren(p, s);
  }

  // --------------------------------------------- no reachable state is stuck

  ghost predicate Drops(p: Program, s: State, sched: seq<nat>)
    requires Inv(p, s)
  {
    Inv(p, Run(p, s, sched)) && Measure(p, Run(p, s, sched)) < Measure(p, s)
  }

  ghost predicate CanDrop(p: Program, s: State)
    requires Inv(p, s)
  {
    exists sched :: Drops(p, s, sched)
  }

  lemma UsefulDrops(p: Program, s: State, a: nat)
    requires Inv(p, s) && Enabled(p, s, a) && !Polls(p, s, a)
    ensures CanDrop(p, s)
  {
    StepMeasure(p, s, a);
    assert Run(p, s, [a]) == Run(p, Act(p, s, a), []);
    assert Drops(p, s, [a]);
  }

  lemma PollThenDrop(p: Program, s: State, a: nat)
    requires Inv(p, s) && Enabled(p, s, a)
    requires Inv(p, Act(p, s, a)) && CanDrop(p, Act(p, s, a))
    ensures CanDrop(p, s)
  {
    StepMeasure(p, s, a);
    var rest :| Drops(p, Act(p, s, a), rest);
    assert ([a] + rest)[1..] == rest;
    assert Drops(p, s, [a] + rest);
  }

  /** How far the holder of contLock is from releasing it. */
  function ContDistance(p: Program, s: State): nat
    requires |s.children| == p.T
  {
    match s.contLock.owner
    case None => 0
    case Some(a) => if a < p.T && s.children[a].pc.SpinRead? then 2 else 1
  }

  /** A child inside the contLock section takes its step there. */
  lemma ContHolderSteps(p: Program, s: State, a: nat) returns (s': State)
    requires Inv(p, s) && s.contLock.owner == Some(a) && a < p.T
    ensures s' == Act(p, s, a) && Inv(p, s') && Enabled(p, s, a)
    ensures s'.parent == s.parent && s'.cont == s.cont
    ensures forall j :: 0 <= j < p.T && j != a ==> s'.children[j] == s.children[j]
    ensures !Polls(p, s, a) || ContDistance(p, s') < ContDistance(p, s)
    ensures s'.bLock == s.bLock
  {
    assert OwnsOk(p, s, a);
    s' := Act(p, s, a);
    ActKeepsInv(p, s, a);
    ChildFrame(p, s, a);
    assert OwnsOk(p, s', a);
  }

  lemma {:induction false} FlipWaitDrops(p: Program, s: State)
    requires Inv(p, s) && s.parent.pc.FlipWait?
    ensures CanDrop(p, s)
    decreases ContDistance(p, s)
  {
    if s.contLock.owner.None? {
      UsefulDrops(p, s, p.T);
    } else {
      var a := s.contLock.owner.value;
      assert OwnsOk(p, s, a);
      var s' := ContHolderSteps(p, s, a);
      if Polls(p, s, a) {
        FlipWaitDrops(p, s');
        PollThenDrop(p, s, a);
      } else {
        UsefulDrops(p, s, a);
      }
    }
  }

  predicate Released(s: State, id: nat)
    requires id < |s.children|
  {
    var c := s.children[id];
    InSpin(c) && s.cont == c.nextFlip
  }

  function SpinDistance(c: Child): nat {
    if c.pc.SpinPost? then 2 else if c.pc.SpinWait? then 1 else 0
  }

  /** A child whose flip has come gets out of its spin loop. */
  lemma {:induction false} ReleasedDrops(p: Program, s: State, id: nat)
    requires Inv(p, s) && id < p.T && Released(s, id)
    ensures CanDrop(p, s)
    decreases SpinDistance(s.children[id]), ContDistance(p, s)
  {
    var c := s.children[id];
    if c.pc.SpinWait? && s.contLock.owner.Some? {
      var a := s.contLock.owner.value;
      assert OwnsOk(p, s, a) && OwnsOk(p, s, id);
      if a >= p.T {
        UsefulDrops(p, s, a);
      } else {
        var s' := ContHolderSteps(p, s, a);
        if Polls(p, s, a) {
          ReleasedDrops(p, s', id);
          PollThenDrop(p, s, a);
        } else {
          UsefulDrops(p, s, a);
        }
      }
    } else if Polls(p, s, id) {
      ActKeepsInv(p, s, id);
      ReleasedDrops(p, Act(p, s, id), id);
      PollThenDrop(p, s, id);
    } else {
      UsefulDrops(p, s, id);
    }
  }

  /** One poll of the parent: its position moves on and nothing it tests changes. */
  lemma ParentPolls(p: Program, s: State) returns (s': State)
    requires Inv(p, s) && ParentEnabled(s) && Polls(p, s, p.T)
    ensures s' == Act(p, s, p.T) && Inv(p, s') && s' == ParentStep(p, s)
    ensures s'.children == s.children && s'.bCount == s.bCount && s'.cont == s.cont && s'.count == s.count
  {
    s' := Act(p, s, p.T);
    ActKeepsInv(p, s, p.T);
  }

  function HoldDistance(s: State): nat {
    if s.parent.pc.BarrierTest? || s.parent.pc.DoneTest? then 2 else 1
  }

  /** A child at bLock or cLock gets its turn or somebody else makes progress. */
  lemma {:induction false} WaiterDrops(p: Program, s: State, id: nat)
    requires Inv(p, s) && id < p.T
    requires s.children[id].pc.ArriveWait? || s.children[id].pc.LeaveWait?
    ensures CanDrop(p, s)
    decreases if (if s.children[id].pc.ArriveWait? then s.bLock else s.cLock).owner.Some? then HoldDistance(s) else 0
  {
    var lock := if s.children[id].pc.ArriveWait? then s.bLock else s.cLock;
    if lock.owner.None? {
      UsefulDrops(p, s, id);
    } else {
      var a := lock.owner.value;
      assert OwnsOk(p, s, a);
      if a < p.T {
        UsefulDrops(p, s, a);
      } else if s.parent.pc.FlipWait? {
        FlipWaitDrops(p, s);
      } else if Polls(p, s, a) {
        var s' := ParentPolls(p, s);
        WaiterDrops(p, s', id);
        PollThenDrop(p, s, a);
      } else {
        UsefulDrops(p, s, a);
      }
    }
  }

  lemma MatrixWaiterDrops(p: Program, s: State, id: nat)
    requires Inv(p, s) && id < p.T && s.children[id].pc.MatrixWait?
    ensures CanDrop(p, s)
  {
    if s.matrixLock.owner.None? {
      UsefulDrops(p, s, id);
    } else {
      assert OwnsOk(p, s, s.matrixLock.owner.value);
      UsefulDrops(p, s, s.matrixLock.owner.value);
    }
  }

  /** Steps of the parent to its next test of bCount. */
  function ToBarrierTest(pc: ParentPc): nat {
    match pc
    case BarrierPost => 6
    case DoneWait => 5
    case DoneTest => 4
    case DonePost => 3
    case BarrierWait => 2
    case BarrierTest => 1
    case _ => 0
  }

  /** Steps of the parent to its next test of count. */
  function ToDoneTest(pc: ParentPc): nat {
    match pc
    case DonePost => 6
    case BarrierWait => 5
    case BarrierTest => 4
    case BarrierPost => 3
    case DoneWait => 2
    case DoneTest => 1
    case _ => 0
  }

  lemma ParentUnblocked(p: Program, s: State) returns (a: nat)
    requires Inv(p, s) && !s.parent.pc.FlipWait? && !s.parent.pc.ParentExited?
    ensures Enabled(p, s, a) && (a == p.T || (a < p.T && !Polls(p, s, a)))
  {
    a := p.T;
    if s.parent.pc.BarrierWait? && s.bLock.owner.Some? {
      a := s.bLock.owner.value;
      assert OwnsOk(p, s, a);
    } else if s.parent.pc.DoneWait? && s.cLock.owner.Some? {
      a := s.cLock.owner.value;
      assert OwnsOk(p, s, a);
    }
  }

  /** With all arrivals in, the parent comes round to the flip. */
  lemma {:induction false} ParentReachesFlip(p: Program, s: State)
    requires Inv(p, s) && !s.parent.pc.ParentExited? && s.bCount == p.T
    ensures CanDrop(p, s)
    decreases ToBarrierTest(s.parent.pc)
  {
    if s.parent.pc.FlipWait? {
      FlipWaitDrops(p, s);
    } else {
      var a := ParentUnblocked(p, s);
      if a == p.T && Polls(p, s, a) {
        var s' := ParentPolls(p, s);
        ParentReachesFlip(p, s');
        PollThenDrop(p, s, a);
      } else {
        UsefulDrops(p, s, a);
      }
    }
  }

  /** With all children gone, the parent comes round to the exit. */
  lemma {:induction false} ParentReachesExit(p: Program, s: State)
    requires Inv(p, s) && !s.parent.pc.ParentExited? && s.count == 0
    ensures CanDrop(p, s)
    decreases ToDoneTest(s.parent.pc)
  {
    if s.parent.pc.FlipWait? {
      FlipWaitDrops(p, s);
    } else {
      var a := ParentUnblocked(p, s);
      if a == p.T && Polls(p, s, a) {
        var s' := ParentPolls(p, s);
        ParentReachesExit(p, s');
        PollThenDrop(p, s, a);
      } else {
        UsefulDrops(p, s, a);
      }
    }
  }

  /** Everybody left is waiting for a flip that has not happened: all T have arrived. */
  lemma AllSpinningMeansFull(p: Program, s: State, id: nat)
    requires Inv(p, s) && id < p.T && InSpin(s.children[id])
    requires forall j :: 0 <= j < p.T ==>
               (InSpin(s.children[j]) && !Released(s, j)) || s.children[j].pc.ChildExited?
    ensures s.bCount == p.T
  {
    assert RoundOk(p, s, id);
    forall j | 0 <= j < p.T ensures ArrivedBits(s)[j] == 1 {
      assert RoundOk(p, s, j);
    }
    SumOfBits(ArrivedBits(s));
  }

  /** Deadlock and livelock freedom: from every reachable state short of the
      parent's exit some schedule makes a useful step. */
  lemma SomeProgress(p: Program, s: State)
    requires Inv(p, s) && !s.parent.pc.ParentExited?
    ensures CanDrop(p, s)
  {
    if id :| 0 <= id < p.T && !InSpin(s.children[id]) && !s.children[id].pc.ChildExited? {
      if s.children[id].pc.MatrixWait? {
        MatrixWaiterDrops(p, s, id);
      } else if s.children[id].pc.ArriveWait? || s.children[id].pc.LeaveWait? {
        WaiterDrops(p, s, id);
      } else {
        UsefulDrops(p, s, id);
      }
    } else if id :| 0 <= id < p.T && InSpin(s.children[id]) && Released(s, id) {
      ReleasedDrops(p, s, id);
    } else if id :| 0 <= id < p.T && InSpin(s.children[id]) {
      AllSpinningMeansFull(p, s, id);
      ParentReachesFlip(p, s);
    } else {
      forall j | 0 <= j < p.T ensures LeftBits(s)[j] == 1 {
      }
      SumOfBits(LeftBits(s));
      ParentReachesExit(p, s);
    }
  }

  // ------------------------------------------------------------ main results

  /** From every reachable state the run can be completed. */
  lemma {:induction false} CanFinish(p: Program, s: State) returns (sched: seq<nat>)
    requires Inv(p, s)
    ensures Run(p, s, sched).parent.pc.ParentExited?
    decreases Measure(p, s)
  {
    if s.parent.pc.ParentExited? {
      sched := [];
    } else {
      SomeProgress(p, s);
      var first :| Drops(p, s, first);
      var rest := CanFinish(p, Run(p, s, first));
      sched := first + rest;
      RunConcat(p, s, first, rest);
    }
  }

  ghost function UsefulSteps(p: Program, s: State, sched: seq<nat>): nat
    requires Inv(p, s)
    decreases |sched|
  {
    if sched == [] then 0
    else
      ActKeepsInv(p, s, sched[0]);
      (if Enabled(p, s, sched[0]) && !Polls(p, s, sched[0]) then 1 else 0)
      + UsefulSteps(p, Act(p, s, sched[0]), sched[1..])
  }

  /** However it is scheduled, a run makes at most Measure useful steps: all the
      rest is spinning, polling and being blocked. */
  lemma {:induction false} UsefulStepsBounded(p: Program, s: State, sched: seq<nat>)
    requires Inv(p, s)
    ensures Inv(p, Run(p, s, sched))
    ensures UsefulSteps(p, s, sched) + Measure(p, Run(p, s, sched)) <= Measure(p, s)
    decreases |sched|
  {
    if sched != [] {
      ActKeepsInv(p, s, sched[0]);
      if Enabled(p, s, sched[0]) {
        StepMeasure(p, s, sched[0]);
      }
      UsefulStepsBounded(p, Act(p, s, sched[0]), sched[1..]);
    }
  }

  /** The matrix a finished run on the job's graph can leave behind. */
  ghost predicate Finishes(T: pos, job: Job, m: seq<int>) {
    exists sched :: var s := Reached(Program(job.n, T, job.edges), sched);
      s.parent.pc.ParentExited? && s.matrix == m
  }

  ghost function Outcomes(T: pos): (Job, seq<int>) -> bool {
    (job, m) => Finishes(T, job, m)
  }

  lemma FinishesAtRoundN(p: Program, m: seq<int>)
    requires Finishes(p.T, p.ToJob(), m)
    ensures AtRound(p.ToJob(), m, p.n)
  {
    var sched :| Reached(p, sched).parent.pc.ParentExited? && Reached(p, sched).matrix == m;
    ExitedAtRoundN(p, Reached(p, sched));
  }

  lemma SomeOutcome(p: Program) returns (m: seq<int>)
    ensures Finishes(p.T, p.ToJob(), m)
  {
    InitInv(p);
    var sched := CanFinish(p, Init(p));
    assert Reached(p, sched).parent.pc.ParentExited?;
    m := Reached(p, sched).matrix;
  }

  /** The program is right on every graph and every schedule exactly when the
      partition leaves nothing over or there is at most one vertex. */
  lemma PrintsClosureIff(n: nat, T: pos)
    ensures AlwaysClosure(n, Columns(Covered(n, T)), Outcomes(T)) <==> n % T == 0 || n <= 1
  {
    forall edges ensures exists m :: Outcomes(T)(Job(n, edges, Columns(Covered(n, T))), m) {
      var m := SomeOutcome(Program(n, T, edges));
      assert Outcomes(T)(Job(n, edges, Columns(Covered(n, T))), m);
    }
    forall edges, m | Outcomes(T)(Job(n, edges, Columns(Covered(n, T))), m)
      ensures AtRound(Job(n, edges, Columns(Covered(n, T))), m, n)
    {
      FinishesAtRoundN(Program(n, T, edges), m);
    }
    AlwaysClosureIff(n, T, Columns(Covered(n, T)), Outcomes(T));
  }
}
