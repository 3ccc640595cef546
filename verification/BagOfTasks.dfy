/** wtc_btproc: children take columns from a shared bag; two library barriers with the
    parent separate the rounds, and the parent refills the bag between them.

    queueLock and matrixLock make one queuePop and one column update atomic, so each is
    one step. Actors 0 .. T-1 are the children, T is the parent; a run is any sequence
    of actors, and an actor that is blocked or has left its loop does nothing. */
module BagOfTasks {
  import opened Closure
  import opened Matrix
  import opened Sync
  import opened TwoBarriers

  // ------------------------------------------------------------------ the bag

  /** The column numbers followed by the sentinel. */
  function FullBag(n: nat): (queue: seq<int>)
    ensures |queue| == n + 1
  {
    seq(n + 1, l => if l < n then l else -1)
  }

  method SetQueue(queue: array<int>, n: nat)
    requires queue.Length == n + 1
    modifies queue
    ensures queue[..] == FullBag(n)
  {
    var l := 0;
    while l < n
      invariant l <= n
      invariant forall x :: 0 <= x < l ==> queue[x] == x
    {
      queue[l] := l;
      l := l + 1;
    }
    queue[l] := -1;
  }

  class Bag {
    var queue: array<int>
    var qNum: nat

    ghost predicate Holds(n: nat)
      reads this, queue
    {
      queue.Length == n + 1 && queue[..] == FullBag(n) && qNum <= n
    }

    constructor (n: nat)
      ensures Holds(n) && qNum == 0 && fresh(queue)
    {
      queue := new int[n + 1];
      qNum := 0;
      new;
      SetQueue(queue, n);
    }

    /** One queuePop: the next column, or the sentinel and no change. */
    method QueuePop(ghost n: nat) returns (y: int)
      requires Holds(n)
      modifies this`qNum
      ensures Holds(n)
      ensures y == queue[old(qNum)]
      ensures if old(qNum) < n then y == old(qNum) && qNum == old(qNum) + 1 else y == -1 && qNum == old(qNum)
    {
      assert FullBag(n)[qNum] == queue[qNum];
      y := queue[qNum];
      if y != -1 {
        qNum := qNum + 1;
      }
    }

    /** childCompute with no other child running: every column still in the bag is
        updated once, in order, and the bag ends empty. */
    method ChildCompute(matrix: array<int>, n: nat, k: nat)
      requires Holds(n) && matrix.Length == n * n && k < n && matrix != queue
      modifies this`qNum, matrix
      ensures Holds(n) && qNum == n
      ensures matrix[..] == ApplyColumns(n, old(matrix[..]), k, Upto(n, old(qNum), n))
    {
      ghost var first := qNum;
      ghost var was := matrix[..];
      var y := QueuePop(n);
      while y != -1
        invariant Holds(n) && first <= qNum && matrix.Length == n * n
        invariant if y == -1 then qNum == n else 0 <= y < n && qNum == y + 1 && y >= first
        invariant matrix[..] == ApplyColumns(n, was, k, Upto(n, first, if y == -1 then n else y))
        decreases n - qNum, y
      {
        ghost var done := y;
        UpdateColumn(matrix, n, k, y);
        AppendColumn(n, was, k, Upto(n, first, done), done);
        assert Upto(n, first, done + 1) == Upto(n, first, done) + [done];
        y := QueuePop(n);
      }
    }
  }

  /** The columns lo .. hi-1. */
  function Upto(n: nat, lo: nat, hi: nat): (ys: seq<nat>)
    requires lo <= hi <= n
    ensures |ys| == hi - lo && forall t :: 0 <= t < |ys| ==> ys[t] == lo + t < n
  {
    seq(hi - lo, t => lo + t)
  }

  lemma {:induction false} AppendColumn(n: nat, m: seq<int>, k: nat, ys: seq<nat>, y: nat)
    requires |m| == n * n && k < n && y < n
    requires forall t :: 0 <= t < |ys| ==> ys[t] < n
    ensures ApplyColumns(n, m, k, ys + [y]) == ColumnStep(n, ApplyColumns(n, m, k, ys), k, y)
    decreases |ys|
  {
    if ys == [] {
      assert ys + [y] == [y];
    } else {
      assert (ys + [y])[1..] == ys[1..] + [y];
      AppendColumn(n, ColumnStep(n, m, k, ys[0]), k, ys[1..], y);
    }
  }

  /** A lone child's childCompute on a full bag is exactly one round. */
  lemma LoneChildIsARound(job: Job, m: seq<int>, k: nat)
    requires AtRound(job, m, k) && k < job.n && job.cover == Columns(job.n)
    ensures AtRound(job, ApplyColumns(job.n, m, k, Upto(job.n, 0, job.n)), k + 1)
  {
    forall y: nat | y < job.n ensures y in Upto(job.n, 0, job.n) {
      assert Upto(job.n, 0, job.n)[y] == y;
    }
    AnyOrderIsARound(job, m, k, Upto(job.n, 0, job.n));
  }

  // ------------------------------------------------------- the whole program

  datatype Program = Program(n: nat, T: pos, edges: set<(nat, nat)>) {
    function ToJob(): Job {
      Job(n, edges, Columns(n))
    }
  }

  datatype Pc = Pop | Compute(y: nat) | Enter1 | Inside1(g: nat) | Clear | Enter2 | Inside2(g: nat) | Exited

  datatype Actor = Actor(k: nat, pc: Pc)

  /** Child `child` received column `column` from queuePop. */
  datatype Grant = Grant(column: int, child: nat)

  /** `grants[r]` records what queuePop returned in round r; no step tests it. */
  datatype State = State(
    matrix: seq<int>, queue: seq<int>, qNum: nat,
    barrier1: Barrier, barrier2: Barrier,
    actors: seq<Actor>,
    grants: seq<seq<Grant>>)

  /** Where an actor goes at the head of its k loop. */
  function LoopHead(p: Program, a: nat, k: nat): Pc {
    if k >= p.n then Exited else if a < p.T then Pop else Enter1
  }

  function Init(p: Program): State {
    State(Loaded(p.ToJob()), FullBag(p.n), 0,
          Barrier(p.T + 1, 0, 0), Barrier(p.T + 1, 0, 0),
          seq(p.T + 1, a requires 0 <= a < p.T + 1 => Actor(0, LoopHead(p, a, 0))),
          seq(p.n, r => []))
  }

  ghost predicate Shape(p: Program, s: State) {
    && |s.matrix| == p.n * p.n
    && s.queue == FullBag(p.n) && s.qNum <= p.n
    && |s.actors| == p.T + 1
    && |s.grants| == p.n
    && forall a :: 0 <= a <= p.T ==> ActorShape(p, s, a)
  }

  ghost predicate ActorShape(p: Program, s: State, a: nat)
    requires a < |s.actors|
  {
    var pc := s.actors[a].pc;
    && (pc.Pop? || pc.Compute? ==> a < p.T)
    && (pc.Clear? ==> a == p.T)
    && (pc.Compute? ==> pc.y < p.n)
    && (!pc.Exited? ==> s.actors[a].k < p.n)
  }

  predicate Enabled(s: State, a: nat)
    requires a < |s.actors|
  {
    match s.actors[a].pc
    case Inside1(g) => s.barrier1.generation > g
    case Inside2(g) => s.barrier2.generation > g
    case Exited => false
    case _ => true
  }

  function Go(s: State, a: nat, pc: Pc): State
    requires a < |s.actors|
  {
    s.(actors := s.actors[a := s.actors[a].(pc := pc)])
  }

  ghost function Step(p: Program, s: State, a: nat): State
    requires Shape(p, s) && a <= p.T && Enabled(s, a)
  {
    assert ActorShape(p, s, a);
    var me := s.actors[a];
    match me.pc
    case Pop =>
      var y := s.queue[s.qNum];
      if y != -1 then
        Go(s, a, Compute(y)).(qNum := s.qNum + 1, grants := s.grants[me.k := s.grants[me.k] + [Grant(y, a)]])
      else
        Go(s, a, Enter1)
    case Compute(y) => Go(s, a, Pop).(matrix := ColumnStep(p.n, s.matrix, me.k, y))
    case Enter1 => Go(s, a, Inside1(s.barrier1.generation)).(barrier1 := s.barrier1.Arrive())
    case Inside1(g) => Go(s, a, if a < p.T then Enter2 else Clear)
    case Clear => Go(s, a, Enter2).(qNum := 0)
    case Enter2 => Go(s, a, Inside2(s.barrier2.generation)).(barrier2 := s.barrier2.Arrive())
    case Inside2(g) => s.(actors := s.actors[a := Actor(me.k + 1, LoopHead(p, a, me.k + 1))])
  }

  ghost function Act(p: Program, s: State, a: nat): State
    requires Shape(p, s)
  {
    if a <= p.T && Enabled(s, a) then Step(p, s, a) else s
  }

  // -------------------------------------------------------------- invariant

  function PlaceOf(pc: Pc): Place {
    match pc
    case Pop => Working
    case Compute(y) => Working
    case Enter1 => Working
    case Inside1(g) => In1(g)
    case Clear => Middle
    case Enter2 => Middle
    case Inside2(g) => In2(g)
    case Exited => Gone
  }

  /** The barrier protocol seen in a state. */
  ghost function View(p: Program, s: State): (r: Rounds)
    ensures |r.members| == |s.actors|
  {
    Rounds(p.n, s.barrier1, s.barrier2,
           seq(|s.actors|, a requires 0 <= a < |s.actors| => Member(s.actors[a].k, PlaceOf(s.actors[a].pc))))
  }

  predicate RoundOpen(s: State) {
    s.barrier1.generation == s.barrier2.generation
  }

  predicate Holding(s: State, a: nat, y: int)
    requires a < |s.actors|
  {
    s.actors[a].pc.Compute? && s.actors[a].pc.y == y
  }

  /** A child that has seen the sentinel in round k. */
  predicate SawEmpty(p: Program, s: State, a: nat, k: nat)
    requires a < |s.actors|
  {
    a < p.T && (s.actors[a].pc.Enter1? || s.actors[a].pc == Inside1(k))
  }

  /** While a round is open every column taken is finished or held by one child. */
  ghost predicate OpenOk(p: Program, s: State, k: nat)
    requires |s.matrix| == p.n * p.n && |s.actors| == p.T + 1
  {
    && Within(p.ToJob(), s.matrix, k)
    && (forall a :: 0 <= a <= p.T && s.actors[a].pc.Compute? ==> s.actors[a].pc.y < s.qNum)
    && (forall a, b :: 0 <= a < b <= p.T && s.actors[a].pc.Compute? && s.actors[b].pc.Compute? ==>
          s.actors[a].pc.y != s.actors[b].pc.y)
    && (forall y :: 0 <= y < p.n && y < s.qNum ==>
          ColumnDone(p.ToJob(), s.matrix, k, y) || exists a :: 0 <= a <= p.T && Holding(s, a, y))
    && (forall a :: 0 <= a <= p.T && SawEmpty(p, s, a, k) ==> s.qNum == p.n)
  }

  ghost predicate ClosedOk(p: Program, s: State, k: nat)
    requires |s.actors| == p.T + 1
  {
    && AtRound(p.ToJob(), s.matrix, k)
    && (s.actors[p.T].pc.Enter2? || s.actors[p.T].pc.Inside2? ==> s.qNum == 0)
  }

  ghost predicate WorkOk(p: Program, s: State)
    requires |s.matrix| == p.n * p.n && |s.actors| == p.T + 1
  {
    if RoundOpen(s) && s.barrier1.generation < p.n then OpenOk(p, s, s.barrier1.generation)
    else ClosedOk(p, s, s.barrier1.generation)
  }

  /** Round r has granted columns 0, 1, 2, ... in that order, each once. */
  ghost predicate GrantsInOrder(grants: seq<Grant>) {
    forall t :: 0 <= t < |grants| ==> grants[t].column == t
  }

  ghost predicate GrantsOk(p: Program, s: State)
    requires |s.grants| == p.n
  {
    forall r :: 0 <= r < p.n ==>
      && GrantsInOrder(s.grants[r])
      && |s.grants[r]| == if r < s.barrier1.generation then p.n
                          else if r == s.barrier1.generation && RoundOpen(s) then s.qNum
                          else 0
  }

  ghost predicate Inv(p: Program, s: State) {
    && Shape(p, s)
    && Ok(View(p, s))
    && WorkOk(p, s)
    && GrantsOk(p, s)
  }

  lemma InitInv(p: Program)
    ensures Inv(p, Init(p))
  {
    var s := Init(p);
    assert View(p, s) == Start(p.n, p.T + 1);
    StartOk(p.n, p.T + 1);
    LoadedAtZero(p.ToJob());
    RoundStarts(p.ToJob(), s.matrix, 0);
  }

  // ------------------------------------------------------------------ steps

  predicate MovesRound(pc: Pc) {
    pc.Enter1? || pc.Inside1? || pc.Enter2? || pc.Inside2?
  }

  /** Barrier calls are protocol moves; everything else happens inside one place. */
  lemma StepRefinesRounds(p: Program, s: State, a: nat)
    requires Shape(p, s) && a <= p.T && Enabled(s, a)
    ensures CanMove(View(p, s), a)
    ensures View(p, Step(p, s, a)) ==
            if MovesRound(s.actors[a].pc) then Move(View(p, s), a) else View(p, s)
  {
    assert ActorShape(p, s, a);
    var r, r' := View(p, s), View(p, Step(p, s, a));
    var want := if MovesRound(s.actors[a].pc) then Move(r, a) else r;
    assert r'.members == want.members;
  }

  lemma StepKeepsRounds(p: Program, s: State, a: nat)
    requires Inv(p, s) && a <= p.T && Enabled(s, a)
    ensures Ok(View(p, Step(p, s, a)))
  {
    StepRefinesRounds(p, s, a);
    if MovesRound(s.actors[a].pc) {
      MoveKeepsOk(View(p, s), a);
    }
  }

  lemma Placed(p: Program, s: State, a: nat)
    requires Inv(p, s) && a <= p.T
    ensures MemberOk(View(p, s), a) && ActorShape(p, s, a)
    ensures View(p, s).members[a] == Member(s.actors[a].k, PlaceOf(s.actors[a].pc))
  {
  }

  lemma StepKeepsShape(p: Program, s: State, a: nat)
    requires Inv(p, s) && a <= p.T && Enabled(s, a)
    ensures Shape(p, Step(p, s, a))
  {
    Placed(p, s, a);
    var s' := Step(p, s, a);
    assert s.queue[s.qNum] == if s.qNum < p.n then s.qNum else -1;
    forall b | 0 <= b <= p.T ensures ActorShape(p, s', b) {
      assert ActorShape(p, s, b);
    }
  }

  lemma PopKeepsWork(p: Program, s: State, a: nat)
    requires Inv(p, s) && a <= p.T && s.actors[a].pc.Pop?
    ensures Shape(p, Step(p, s, a)) && WorkOk(p, Step(p, s, a)) && GrantsOk(p, Step(p, s, a))
  {
    StepKeepsShape(p, s, a);
    Placed(p, s, a);
    var s', k := Step(p, s, a), s.actors[a].k;
    assert s.queue[s.qNum] == if s.qNum < p.n then s.qNum else -1;
    forall y | 0 <= y < p.n && y < s'.qNum
      ensures ColumnDone(p.ToJob(), s'.matrix, k, y) || exists b :: 0 <= b <= p.T && Holding(s', b, y)
    {
      if y == s.qNum {
        assert Holding(s', a, y);
      } else if !ColumnDone(p.ToJob(), s.matrix, k, y) {
        var b :| 0 <= b <= p.T && Holding(s, b, y);
        assert Holding(s', b, y);
      }
    }
    forall b | 0 <= b <= p.T && b != a && SawEmpty(p, s', b, k) ensures SawEmpty(p, s, b, k) {
    }
  }

  lemma ComputeKeepsWork(p: Program, s: State, a: nat)
    requires Inv(p, s) && a <= p.T && s.actors[a].pc.Compute?
    ensures Shape(p, Step(p, s, a)) && WorkOk(p, Step(p, s, a)) && GrantsOk(p, Step(p, s, a))
  {
    StepKeepsShape(p, s, a);
    Placed(p, s, a);
    ComputeKeepsOpen(p, s, a, s.actors[a].k, Step(p, s, a));
  }

  lemma ComputeKeepsOpen(p: Program, s: State, a: nat, k: nat, s': State)
    requires |s.matrix| == p.n * p.n && |s.actors| == p.T + 1 && OpenOk(p, s, k) && k < p.n
    requires a <= p.T && s.actors[a].pc.Compute? && s.actors[a].pc.y < p.n
    requires s' == Go(s, a, Pop).(matrix := ColumnStep(p.n, s.matrix, k, s.actors[a].pc.y))
    ensures OpenOk(p, s', k)
  {
    var mine := s.actors[a].pc.y;
    ColumnRound(p.ToJob(), s.matrix, k, mine);
    forall y | 0 <= y < p.n && y < s'.qNum
      ensures ColumnDone(p.ToJob(), s'.matrix, k, y) || exists b :: 0 <= b <= p.T && Holding(s', b, y)
    {
      if y != mine && !ColumnDone(p.ToJob(), s.matrix, k, y) {
        var b :| 0 <= b <= p.T && Holding(s, b, y);
        assert Holding(s', b, y);
      }
    }
    forall b | 0 <= b <= p.T && SawEmpty(p, s', b, k) ensures SawEmpty(p, s, b, k) {
    }
  }

  /** The arrival that opens the first barrier finds the bag empty and every column written. */
  lemma LastArrivalEndsRound(p: Program, s: State, a: nat)
    requires Inv(p, s) && a <= p.T && s.actors[a].pc.Enter1?
    requires s.barrier1.arrived + 1 == s.barrier1.size
    ensures RoundOpen(s) && s.qNum == p.n
    ensures AtRound(p.ToJob(), s.matrix, s.barrier1.generation + 1)
    ensures forall b :: 0 <= b <= p.T && b != a ==> s.actors[b].pc == Inside1(s.barrier1.generation)
  {
    Placed(p, s, a);
    var k := s.barrier1.generation;
    forall b | 0 <= b <= p.T && b != a ensures s.actors[b].pc == Inside1(k) {
      LastIntoFirst(View(p, s), a, b);
      Placed(p, s, b);
    }
    assert SawEmpty(p, s, 0, k);
    forall y | 0 <= y < p.n ensures ColumnDone(p.ToJob(), s.matrix, k, y) {
      assert forall b :: 0 <= b <= p.T ==> !Holding(s, b, y);
    }
    ColumnsEndRound(p.ToJob(), s.matrix, k);
  }

  lemma Enter1KeepsWork(p: Program, s: State, a: nat)
    requires Inv(p, s) && a <= p.T && s.actors[a].pc.Enter1?
    ensures Shape(p, Step(p, s, a)) && WorkOk(p, Step(p, s, a)) && GrantsOk(p, Step(p, s, a))
  {
    StepKeepsShape(p, s, a);
    Placed(p, s, a);
    var s', k := Step(p, s, a), s.actors[a].k;
    if s.barrier1.arrived + 1 == s.barrier1.size {
      LastArrivalEndsRound(p, s, a);
    } else {
      forall b | 0 <= b <= p.T && SawEmpty(p, s', b, k) ensures SawEmpty(p, s, b, k) {
      }
      forall y, b | 0 <= b <= p.T && Holding(s, b, y) ensures Holding(s', b, y) {
      }
    }
  }

  lemma Enter2KeepsWork(p: Program, s: State, a: nat)
    requires Inv(p, s) && a <= p.T && s.actors[a].pc.Enter2?
    ensures Shape(p, Step(p, s, a)) && WorkOk(p, Step(p, s, a)) && GrantsOk(p, Step(p, s, a))
  {
    StepKeepsShape(p, s, a);
    Placed(p, s, a);
    var s', k := Step(p, s, a), s.actors[a].k;
    if s.barrier2.arrived + 1 == s.barrier2.size {
      forall b | 0 <= b <= p.T && b != a ensures s.actors[b].pc.Inside2? {
        LastIntoSecond(View(p, s), a, b);
        Placed(p, s, b);
      }
      assert s.actors[p.T].pc.Enter2? || s.actors[p.T].pc.Inside2?;
      assert s.qNum == 0;
      if k + 1 < p.n {
        RoundStarts(p.ToJob(), s.matrix, k + 1);
      }
    }
  }

  lemma OtherStepKeepsWork(p: Program, s: State, a: nat)
    requires Inv(p, s) && a <= p.T && Enabled(s, a)
    requires s.actors[a].pc.Inside1? || s.actors[a].pc.Clear? || s.actors[a].pc.Inside2?
    ensures Shape(p, Step(p, s, a)) && WorkOk(p, Step(p, s, a)) && GrantsOk(p, Step(p, s, a))
  {
    StepKeepsShape(p, s, a);
    Placed(p, s, a);
    var s' := Step(p, s, a);
    forall y, b | 0 <= b <= p.T && Holding(s, b, y) ensures Holding(s', b, y) {
    }
    forall b, k | 0 <= b <= p.T && SawEmpty(p, s', b, k) ensures SawEmpty(p, s, b, k) {
    }
  }

  lemma ActKeepsInv(p: Program, s: State, a: nat)
    requires Inv(p, s)
    ensures Inv(p, Act(p, s, a))
  {
    if a <= p.T && Enabled(s, a) {
      StepKeepsRounds(p, s, a);
      match s.actors[a].pc {
        case Pop => PopKeepsWork(p, s, a);
        case Compute(y) => ComputeKeepsWork(p, s, a);
        case Enter1 => Enter1KeepsWork(p, s, a);
        case Enter2 => Enter2KeepsWork(p, s, a);
        case _ => OtherStepKeepsWork(p, s, a);
      }
    }
  }
}
