/** wtc_thr: threads own fixed row ranges of a bit-packed matrix and share the round
    counter k, which the main thread advances between two barriers.

    mutexmatrix makes the test-and-set of one cell a step. The pivot bit ik is read
    outside the mutex, as a step of its own: other threads write the same byte in
    between. Threads 0 .. T-1 are the workers, T is the main thread. */
module PackedRows {
  import opened Closure
  import opened Matrix
  import opened Sync
  import opened TwoBarriers
  import opened BitArray

  datatype Program = Program(n: nat, T: pos, edges: set<(nat, nat)>) {
    function ToJob(): Job {
      Job(n, edges, Rows(Covered(n, T)))
    }
  }

  datatype Pc =
    | Test | ReadPivot(i: nat) | Update(i: nat, j: nat, ik: bool)
    | Enter1 | Inside1(g: nat) | Advance | Enter2 | Inside2(g: nat)
    | Join(id: nat) | Exited

  /** `round` counts the rounds a thread has completed; no step tests it. */
  datatype Thread = Thread(round: nat, pc: Pc)

  datatype State = State(
    bytes: seq<bv8>, k: nat,
    barrier: Barrier, kbarrier: Barrier,
    threads: seq<Thread>)

  /** The packed matrix before the threads start: the input edges and nothing else. */
  ghost predicate Starts(p: Program, bytes: seq<bv8>) {
    HoldsMatrix(p.n, bytes) && Unpack(p.n, bytes) == Loaded(p.ToJob())
  }

  ghost function Init(p: Program, bytes: seq<bv8>): State {
    State(bytes, 0, Barrier(p.T + 1, 0, 0), Barrier(p.T + 1, 0, 0),
          seq(p.T + 1, a => Thread(0, Test)))
  }

  ghost predicate Shape(p: Program, s: State) {
    && HoldsMatrix(p.n, s.bytes)
    && |s.threads| == p.T + 1
    && forall a :: 0 <= a <= p.T ==> ThreadShape(p, s, a)
  }

  ghost predicate ThreadShape(p: Program, s: State, a: nat)
    requires a < |s.threads|
  {
    match s.threads[a].pc
    case ReadPivot(i) => a < p.T && Low(p.n, p.T, a) <= i < High(p.n, p.T, a) && i < p.n && s.k < p.n
    case Update(i, j, ik) => a < p.T && Low(p.n, p.T, a) <= i < High(p.n, p.T, a) && i < p.n && j < p.n && s.k < p.n
    case Advance => a == p.T
    case Join(id) => a == p.T && id < p.T && s.threads[a].round == p.n
    case Exited => s.threads[a].round == p.n
    case Test => s.threads[a].round <= p.n
    case _ => true
  }

  predicate Enabled(p: Program, s: State, a: nat)
    requires |s.threads| == p.T + 1 && a <= p.T
  {
    match s.threads[a].pc
    case Inside1(g) => s.barrier.generation > g
    case Inside2(g) => s.kbarrier.generation > g
    case Join(id) => id < p.T && s.threads[id].pc.Exited?
    case Exited => false
    case _ => true
  }

  function Put(s: State, a: nat, t: Thread): State
    requires a < |s.threads|
  {
    s.(threads := s.threads[a := t])
  }

  function Go(s: State, a: nat, pc: Pc): State
    requires a < |s.threads|
  {
    Put(s, a, s.threads[a].(pc := pc))
  }

  function NextRow(p: Program, a: nat, i: nat): Pc {
    if i < High(p.n, p.T, a) then ReadPivot(i) else Enter1
  }

  ghost function Step(p: Program, s: State, a: nat): State
    requires Shape(p, s) && a <= p.T && Enabled(p, s, a)
  {
    assert ThreadShape(p, s, a);
    var me := s.threads[a];
    match me.pc
    case Test =>
      Go(s, a, if s.k < p.n then (if a < p.T then NextRow(p, a, Low(p.n, p.T, a)) else Enter1)
               else if a < p.T then Exited else Join(0))
    case ReadPivot(i) => Go(s, a, Update(i, 0, GetBit(s.bytes, Index(p.n, i, s.k))))
    case Update(i, j, ik) =>
      var s' := Go(s, a, if j + 1 < p.n then Update(i, j + 1, ik) else NextRow(p, a, i + 1));
      if ik && GetBit(s.bytes, Index(p.n, s.k, j)) then s'.(bytes := SetBit(s.bytes, Index(p.n, i, j))) else s'
    case Enter1 => Go(s, a, Inside1(s.barrier.generation)).(barrier := s.barrier.Arrive())
    case Inside1(g) => Go(s, a, if a < p.T then Enter2 else Advance)
    case Advance => Go(s, a, Enter2).(k := s.k + 1)
    case Enter2 => Go(s, a, Inside2(s.kbarrier.generation)).(kbarrier := s.kbarrier.Arrive())
    case Inside2(g) => Put(s, a, Thread(me.round + 1, Test))
    case Join(id) => Go(s, a, if id + 1 < p.T then Join(id + 1) else Exited)
  }

  ghost function Act(p: Program, s: State, a: nat): State
    requires Shape(p, s)
  {
    if a <= p.T && Enabled(p, s, a) then Step(p, s, a) else s
  }

  // -------------------------------------------------------------- invariant

  function PlaceOf(n: nat, t: Thread): Place {
    match t.pc
    case Test => if t.round < n then Working else Gone
    case ReadPivot(i) => Working
    case Update(i, j, ik) => Working
    case Enter1 => Working
    case Inside1(g) => In1(g)
    case Advance => Middle
    case Enter2 => Middle
    case Inside2(g) => In2(g)
    case Join(id) => Gone
    case Exited => Gone
  }

  /** The barrier protocol seen in a state. */
  ghost function View(p: Program, s: State): (r: Rounds)
    ensures |r.members| == |s.threads|
  {
    Rounds(p.n, s.barrier, s.kbarrier,
           seq(|s.threads|, a requires 0 <= a < |s.threads| => Member(s.threads[a].round, PlaceOf(p.n, s.threads[a]))))
  }

  predicate RoundOpen(s: State) {
    s.barrier.generation == s.kbarrier.generation
  }

  /** Thread a has written cell (i, j) in round k. */
  ghost predicate Finished(s: State, a: nat, k: nat, i: nat, j: nat)
    requires a < |s.threads|
  {
    && s.threads[a].round == k
    && match s.threads[a].pc
       case ReadPivot(z) => i < z
       case Update(z, c, ik) => i < z || (i == z && j < c)
       case Enter1 => true
       case Inside1(g) => true
       case _ => false
  }

  ghost predicate CellsOk(p: Program, s: State, m: seq<int>, k: nat)
    requires |m| == p.n * p.n && |s.threads| == p.T + 1
  {
    && Within(p.ToJob(), m, k)
    && forall a, i, j :: 0 <= a < p.T && 0 <= i < p.n && 0 <= j < p.n && Owns(p.n, p.T, a, i) ==>
         Finished(s, a, k, i, j) ==> CellDone(p.ToJob(), m, k, i, j)
  }

  /** The pivot bit a worker carries is the one round k started with. */
  ghost predicate PivotOk(p: Program, s: State, k: nat, a: nat)
    requires a < |s.threads|
  {
    s.threads[a].pc.Update? ==> s.threads[a].pc.ik == p.ToJob().Reach(k, s.threads[a].pc.i, k)
  }

  /** Between the barriers k lags until the main thread has advanced it. */
  ghost predicate WorkOk(p: Program, s: State)
    requires HoldsMatrix(p.n, s.bytes) && |s.threads| == p.T + 1
  {
    var g := s.barrier.generation;
    if RoundOpen(s) && g < p.n then
      && s.k == g
      && CellsOk(p, s, Unpack(p.n, s.bytes), g)
      && forall a :: 0 <= a < p.T ==> PivotOk(p, s, g, a)
    else
      && AtRound(p.ToJob(), Unpack(p.n, s.bytes), g)
      && (if RoundOpen(s) || s.threads[p.T].pc.Enter2? || s.threads[p.T].pc.Inside2? then s.k == g
          else s.k + 1 == g)
  }

  ghost predicate Inv(p: Program, s: State) {
    && Shape(p, s)
    && Ok(View(p, s))
    && WorkOk(p, s)
  }

  lemma InitInv(p: Program, bytes: seq<bv8>)
    requires Starts(p, bytes)
    ensures Inv(p, Init(p, bytes))
  {
    var s := Init(p, bytes);
    assert View(p, s) == Start(p.n, p.T + 1);
    StartOk(p.n, p.T + 1);
    LoadedAtZero(p.ToJob());
    RoundStarts(p.ToJob(), Unpack(p.n, bytes), 0);
  }

  // ------------------------------------------------------------------ steps

  predicate MovesRound(pc: Pc) {
    pc.Enter1? || pc.Inside1? || pc.Enter2? || pc.Inside2?
  }

  lemma Placed(p: Program, s: State, a: nat)
    requires Inv(p, s) && a <= p.T
    ensures MemberOk(View(p, s), a) && ThreadShape(p, s, a)
    ensures View(p, s).members[a] == Member(s.threads[a].round, PlaceOf(p.n, s.threads[a]))
  {
  }

  /** Inside a place the shared k is the thread's own round. */
  lemma TestSeesRound(p: Program, s: State, a: nat)
    requires Inv(p, s) && a <= p.T && s.threads[a].pc.Test?
    ensures s.k == s.threads[a].round && RoundOpen(s) && s.k == s.barrier.generation
  {
    Placed(p, s, a);
  }

  lemma StepFrame(p: Program, s: State, a: nat)
    requires Shape(p, s) && a <= p.T && Enabled(p, s, a)
    ensures var s' := Step(p, s, a);
            && |s'.threads| == p.T + 1
            && s'.k == s.k + (if s.threads[a].pc.Advance? then 1 else 0)
            && s'.barrier == (if s.threads[a].pc.Enter1? then s.barrier.Arrive() else s.barrier)
            && s'.kbarrier == (if s.threads[a].pc.Enter2? then s.kbarrier.Arrive() else s.kbarrier)
            && forall b :: 0 <= b <= p.T && b != a ==> s'.threads[b] == s.threads[b]
  {
  }

  lemma OwnMove(p: Program, s: State, a: nat)
    requires Shape(p, s) && a <= p.T && Enabled(p, s, a) && ThreadShape(p, s, a)
    requires s.threads[a].pc.Test? ==> s.k == s.threads[a].round
    ensures MovesRound(s.threads[a].pc) ==> CanMove(View(p, s), a)
    ensures |Step(p, s, a).threads| == p.T + 1
    ensures var t := Step(p, s, a).threads[a];
            Member(t.round, PlaceOf(p.n, t)) ==
            if MovesRound(s.threads[a].pc) then Move(View(p, s), a).members[a] else View(p, s).members[a]
  {
  }

  /** Barrier calls are protocol moves; everything else happens inside one place. */
  lemma StepRefinesRounds(p: Program, s: State, a: nat)
    requires Inv(p, s) && a <= p.T && Enabled(p, s, a)
    ensures MovesRound(s.threads[a].pc) ==> CanMove(View(p, s), a)
    ensures View(p, Step(p, s, a)) ==
            if MovesRound(s.threads[a].pc) then Move(View(p, s), a) else View(p, s)
  {
    Placed(p, s, a);
    if s.threads[a].pc.Test? { TestSeesRound(p, s, a); }
    OwnMove(p, s, a);
    StepFrame(p, s, a);
    var want := if MovesRound(s.threads[a].pc) then Move(View(p, s), a) else View(p, s);
    assert View(p, Step(p, s, a)).members == want.members;
  }

  lemma StepKeepsRounds(p: Program, s: State, a: nat)
    requires Inv(p, s) && a <= p.T && Enabled(p, s, a)
    ensures Ok(View(p, Step(p, s, a)))
  {
    StepRefinesRounds(p, s, a);
    if MovesRound(s.threads[a].pc) {
      MoveKeepsOk(View(p, s), a);
    }
  }

  lemma StepBytes(p: Program, s: State, a: nat)
    requires Shape(p, s) && a <= p.T && Enabled(p, s, a)
    ensures HoldsMatrix(p.n, Step(p, s, a).bytes)
    ensures !s.threads[a].pc.Update? ==> Step(p, s, a).bytes == s.bytes
    ensures s.threads[a].pc.Update? ==>
              ThreadShape(p, s, a)
              && Unpack(p.n, Step(p, s, a).bytes)
                 == CellStep(p.n, Unpack(p.n, s.bytes), s.k, s.threads[a].pc.i, s.threads[a].pc.j, s.threads[a].pc.ik)
  {
    assert ThreadShape(p, s, a);
    if s.threads[a].pc.Update? {
      UnpackAfterSet(p.n, s.bytes, s.threads[a].pc.i, s.threads[a].pc.j);
      UnpackedCell(p.n, s.bytes, s.k, s.threads[a].pc.j);
    }
  }

  lemma OwnShape(p: Program, s: State, a: nat)
    requires Shape(p, s) && a <= p.T && Enabled(p, s, a)
    requires ThreadShape(p, s, a)
    requires s.threads[a].pc.Test? ==> s.k == s.threads[a].round
    requires s.threads[a].pc.Inside2? ==> s.threads[a].round < p.n
    ensures |Step(p, s, a).threads| == p.T + 1 && ThreadShape(p, Step(p, s, a), a)
  {
    if a < p.T { HighFits(p.n, p.T, a); }
  }

  /** While the main thread advances k no worker is using it. */
  lemma NobodyUsesKAtAdvance(p: Program, s: State, a: nat, b: nat)
    requires Inv(p, s) && a <= p.T && b <= p.T && s.threads[a].pc.Advance?
    ensures !s.threads[b].pc.ReadPivot? && !s.threads[b].pc.Update?
  {
    Placed(p, s, a);
    Placed(p, s, b);
  }

  lemma StepKeepsShape(p: Program, s: State, a: nat)
    requires Inv(p, s) && a <= p.T && Enabled(p, s, a)
    ensures Shape(p, Step(p, s, a))
  {
    StepBytes(p, s, a);
    StepFrame(p, s, a);
    Placed(p, s, a);
    if s.threads[a].pc.Test? { TestSeesRound(p, s, a); }
    OwnShape(p, s, a);
    forall b | 0 <= b <= p.T && b != a ensures ThreadShape(p, Step(p, s, a), b) {
      assert ThreadShape(p, s, b);
      if s.threads[a].pc.Advance? { NobodyUsesKAtAdvance(p, s, a, b); }
    }
  }

  /** A step that writes no cell and finishes none keeps the round's bookkeeping. */
  lemma QuietKeepsWork(p: Program, s: State, s': State, a: nat)
    requires HoldsMatrix(p.n, s.bytes) && |s.threads| == |s'.threads| == p.T + 1 && a <= p.T
    requires WorkOk(p, s) && RoundOpen(s) && s.barrier.generation < p.n
    requires s'.bytes == s.bytes && s'.k == s.k && s'.barrier.generation == s.barrier.generation
    requires s'.kbarrier.generation == s.kbarrier.generation
    requires forall b :: 0 <= b <= p.T && b != a ==> s'.threads[b] == s.threads[b]
    requires a < p.T ==> forall i: nat, j: nat ::
               i < p.n && j < p.n && Owns(p.n, p.T, a, i) && Finished(s', a, s.k, i, j) ==> Finished(s, a, s.k, i, j)
    requires PivotOk(p, s', s.k, a)
    ensures WorkOk(p, s')
  {
    forall b | 0 <= b < p.T ensures PivotOk(p, s', s.k, b) {
      if b != a { assert PivotOk(p, s, s.k, b); }
    }
    forall b, i, j | 0 <= b < p.T && 0 <= i < p.n && 0 <= j < p.n && Owns(p.n, p.T, b, i) && Finished(s', b, s.k, i, j)
      ensures CellDone(p.ToJob(), Unpack(p.n, s.bytes), s.k, i, j)
    {
      assert Finished(s, b, s.k, i, j);
    }
  }

  lemma ReadPivotKeepsWork(p: Program, s: State, a: nat)
    requires Inv(p, s) && a <= p.T && s.threads[a].pc.ReadPivot?
    ensures Shape(p, Step(p, s, a)) && WorkOk(p, Step(p, s, a))
  {
    StepKeepsShape(p, s, a);
    Placed(p, s, a);
    var i := s.threads[a].pc.i;
    UnpackedCell(p.n, s.bytes, i, s.k);
    PivotsFixed(p.ToJob(), Unpack(p.n, s.bytes), s.k, i);
    QuietKeepsWork(p, s, Step(p, s, a), a);
  }

  /** One cell under the mutex: its row is covered, and the pivot bit read earlier still counts. */
  lemma UpdateKeepsCells(p: Program, s: State, m: seq<int>, s': State, a: nat, k: nat)
    requires |m| == p.n * p.n && |s.threads| == |s'.threads| == p.T + 1
    requires a < p.T && k < p.n && s.threads[a].pc.Update? && s.threads[a].round == k && CellsOk(p, s, m, k)
    requires s.threads[a].pc.i < p.n && s.threads[a].pc.j < p.n && s.threads[a].pc.i < Covered(p.n, p.T)
    requires PivotOk(p, s, k, a)
    requires forall b :: 0 <= b <= p.T && b != a ==> s'.threads[b] == s.threads[b]
    requires forall i: nat, j: nat :: i < p.n && j < p.n && Owns(p.n, p.T, a, i) && Finished(s', a, k, i, j) ==>
               Finished(s, a, k, i, j) || (i == s.threads[a].pc.i && j == s.threads[a].pc.j)
    ensures CellsOk(p, s', CellStep(p.n, m, k, s.threads[a].pc.i, s.threads[a].pc.j, s.threads[a].pc.ik), k)
  {
    var pc := s.threads[a].pc;
    var m' := CellStep(p.n, m, k, pc.i, pc.j, pc.ik);
    CellRound(p.ToJob(), m, k, pc.i, pc.j);
    forall b, i, j | 0 <= b < p.T && 0 <= i < p.n && 0 <= j < p.n && Owns(p.n, p.T, b, i) && Finished(s', b, k, i, j)
      ensures CellDone(p.ToJob(), m', k, i, j)
    {
      if i != pc.i || j != pc.j {
        assert Finished(s, b, k, i, j);
        assert CellDone(p.ToJob(), m, k, i, j);
      }
    }
  }

  lemma UpdateKeepsWork(p: Program, s: State, a: nat)
    requires Inv(p, s) && a <= p.T && s.threads[a].pc.Update?
    ensures Shape(p, Step(p, s, a)) && WorkOk(p, Step(p, s, a))
  {
    StepKeepsShape(p, s, a);
    StepBytes(p, s, a);
    Placed(p, s, a);
    HighFits(p.n, p.T, a);
    var s' := Step(p, s, a);
    assert PivotOk(p, s, s.k, a);
    UpdateKeepsCells(p, s, Unpack(p.n, s.bytes), s', a, s.k);
    forall b | 0 <= b < p.T ensures PivotOk(p, s', s.k, b) {
      if b != a { assert PivotOk(p, s, s.k, b); }
    }
  }

  lemma TestKeepsWork(p: Program, s: State, a: nat)
    requires Inv(p, s) && a <= p.T && s.threads[a].pc.Test?
    ensures Shape(p, Step(p, s, a)) && WorkOk(p, Step(p, s, a))
  {
    StepKeepsShape(p, s, a);
    TestSeesRound(p, s, a);
    Placed(p, s, a);
    if s.barrier.generation < p.n {
      if a < p.T { HighFits(p.n, p.T, a); }
      QuietKeepsWork(p, s, Step(p, s, a), a);
    }
  }

  /** The arrival that opens the first barrier finds every covered cell written. */
  lemma LastArrivalEndsRound(p: Program, s: State, a: nat)
    requires Inv(p, s) && a <= p.T && s.threads[a].pc.Enter1? && s.barrier.arrived + 1 == s.barrier.size
    ensures AtRound(p.ToJob(), Unpack(p.n, s.bytes), s.barrier.generation + 1)
    ensures a != p.T ==> s.threads[p.T].pc.Inside1?
  {
    Placed(p, s, a);
    var k := s.barrier.generation;
    forall b | 0 <= b <= p.T && b != a
      ensures s.threads[b].pc == Inside1(k) && s.threads[b].round == k
    {
      LastIntoFirst(View(p, s), a, b);
      Placed(p, s, b);
    }
    forall i, j | 0 <= i < p.n && 0 <= j < p.n && p.ToJob().cover.Has(i, j)
      ensures CellDone(p.ToJob(), Unpack(p.n, s.bytes), k, i, j)
    {
      CoveredIsOwned(p.n, p.T, i);
      var id: nat :| Owns(p.n, p.T, id, i);
      assert Finished(s, id, k, i, j);
    }
    RoundEnds(p.ToJob(), Unpack(p.n, s.bytes), k);
  }

  lemma Enter1KeepsWork(p: Program, s: State, a: nat)
    requires Inv(p, s) && a <= p.T && s.threads[a].pc.Enter1?
    ensures Shape(p, Step(p, s, a)) && WorkOk(p, Step(p, s, a))
  {
    StepKeepsShape(p, s, a);
    Placed(p, s, a);
    if s.barrier.arrived + 1 == s.barrier.size {
      LastArrivalEndsRound(p, s, a);
    } else {
      QuietKeepsWork(p, s, Step(p, s, a), a);
    }
  }

  lemma Enter2KeepsWork(p: Program, s: State, a: nat)
    requires Inv(p, s) && a <= p.T && s.threads[a].pc.Enter2?
    ensures Shape(p, Step(p, s, a)) && WorkOk(p, Step(p, s, a))
  {
    StepKeepsShape(p, s, a);
    Placed(p, s, a);
    var s', k := Step(p, s, a), s.threads[a].round;
    if s.kbarrier.arrived + 1 == s.kbarrier.size {
      forall b | 0 <= b <= p.T && b != a ensures s.threads[b].pc.Inside2? {
        LastIntoSecond(View(p, s), a, b);
        Placed(p, s, b);
      }
      assert s.threads[p.T].pc.Enter2? || s.threads[p.T].pc.Inside2?;
      if k + 1 < p.n {
        RoundStarts(p.ToJob(), Unpack(p.n, s.bytes), k + 1);
      }
    }
  }

  lemma LeaveKeepsWork(p: Program, s: State, a: nat)
    requires Inv(p, s) && a <= p.T && Enabled(p, s, a)
    requires s.threads[a].pc.Inside1? || s.threads[a].pc.Inside2? || s.threads[a].pc.Advance? || s.threads[a].pc.Join?
    ensures Shape(p, Step(p, s, a)) && WorkOk(p, Step(p, s, a))
  {
    StepKeepsShape(p, s, a);
    Placed(p, s, a);
    if RoundOpen(s) && s.barrier.generation < p.n {
      QuietKeepsWork(p, s, Step(p, s, a), a);
    }
  }

  lemma ActKeepsInv(p: Program, s: State, a: nat)
    requires Inv(p, s)
    ensures Inv(p, Act(p, s, a))
  {
    if a <= p.T && Enabled(p, s, a) {
      StepKeepsRounds(p, s, a);
      match s.threads[a].pc {
        case Test => TestKeepsWork(p, s, a);
        case ReadPivot(i) => ReadPivotKeepsWork(p, s, a);
        case Update(i, j, ik) => UpdateKeepsWork(p, s, a);
        case Enter1 => Enter1KeepsWork(p, s, a);
        case Enter2 => Enter2KeepsWork(p, s, a);
        case _ => LeaveKeepsWork(p, s, a);
      }
    }
  }
}
