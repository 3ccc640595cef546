/** wtc_proc_test: static columns, and a round barrier built from semaphores.

    Children count arrivals in bCount and spin until the parent flips cont; the
    parent flips cont once bCount reaches T and resets bCount. Every semaphore
    operation and every guarded access is one step, and a run is any sequence of
    actors: 0 .. T-1 are the children, T is the parent. An actor that is blocked
    or has exited does nothing when it is scheduled.
  */
module HandBarrier {
  import opened Closure
  import opened Matrix
  import opened Sync

  datatype Program = Program(n: nat, T: pos, edges: set<(nat, nat)>) {
    function ToJob(): Job {
      Job(n, edges, Columns(Covered(n, T)))
    }
  }

  datatype ChildPc =
    | MatrixWait(y: nat) | MatrixUpdate(y: nat) | MatrixPost(y: nat)
    | ArriveWait | ArriveCount | ArrivePost
    | SpinWait | SpinRead | SpinPost
    | LeaveWait | LeaveCount | LeavePost
    | ChildExited

  datatype Child = Child(pc: ChildPc, k: nat, nextFlip: int, tCont: int)

  datatype ParentPc =
    | BarrierWait | BarrierTest | FlipWait | Flip | FlipPost | Reset | BarrierPost
    | DoneWait | DoneTest | DonePost
    | ParentExited

  datatype Parent = Parent(pc: ParentPc, nextFlip: int, done: bool)

  /** `flips` counts the parent's flips; no step tests it. */
  datatype State = State(
    matrix: seq<int>, matrixLock: Sem,
    bCount: int, bLock: Sem,
    cont: int, contLock: Sem,
    count: int, cLock: Sem,
    children: seq<Child>, parent: Parent,
    flips: nat)

  function Not(x: int): int {
    if x == 0 then 1 else 0
  }

  /** Where a child goes at the head of its k loop. */
  function RoundStart(p: Program, id: nat, k: nat): ChildPc {
    if k < p.n then
      if Low(p.n, p.T, id) < High(p.n, p.T, id) then MatrixWait(Low(p.n, p.T, id)) else ArriveWait
    else
      LeaveWait
  }

  function Init(p: Program): State {
    State(Loaded(p.ToJob()), Free, 0, Free, 0, Free, p.T, Free,
          seq(p.T, id requires 0 <= id < p.T => Child(RoundStart(p, id, 0), 0, 1, 0)),
          Parent(BarrierWait, 1, false), 0)
  }

  ghost predicate Shape(p: Program, s: State) {
    && |s.children| == p.T
    && |s.matrix| == p.n * p.n
    && forall id :: 0 <= id < p.T ==> PcShape(p, s.children[id])
  }

  ghost predicate PcShape(p: Program, c: Child) {
    match c.pc
    case MatrixWait(y) => c.k < p.n && y < p.n
    case MatrixUpdate(y) => c.k < p.n && y < p.n
    case MatrixPost(y) => c.k < p.n && y < p.n
    case _ => true
  }

  predicate ChildEnabled(s: State, id: nat)
    requires id < |s.children|
  {
    match s.children[id].pc
    case MatrixWait(y) => s.matrixLock.value > 0
    case ArriveWait => s.bLock.value > 0
    case SpinWait => s.contLock.value > 0
    case LeaveWait => s.cLock.value > 0
    case ChildExited => false
    case _ => true
  }

  predicate InMatrix(c: Child) {
    c.pc.MatrixWait? || c.pc.MatrixUpdate? || c.pc.MatrixPost?
  }

  predicate InArrive(c: Child) {
    c.pc.ArriveWait? || c.pc.ArriveCount? || c.pc.ArrivePost?
  }

  predicate InSpin(c: Child) {
    c.pc.SpinWait? || c.pc.SpinRead? || c.pc.SpinPost?
  }

  predicate InLeave(c: Child) {
    c.pc.LeaveWait? || c.pc.LeaveCount? || c.pc.LeavePost?
  }

  /** One column under matrixLock. */
  function MatrixStep(p: Program, s: State, id: nat): State
    requires |s.children| == p.T && id < p.T && PcShape(p, s.children[id]) && |s.matrix| == p.n * p.n
    requires ChildEnabled(s, id) && InMatrix(s.children[id])
  {
    match s.children[id].pc
    case MatrixWait(y) => Go(s, id, MatrixUpdate(y)).(matrixLock := s.matrixLock.Wait(id))
    case MatrixUpdate(y) =>
      Go(s, id, MatrixPost(y)).(matrix := ColumnStep(p.n, s.matrix, s.children[id].k, y))
    case MatrixPost(y) =>
      Go(s, id, if y + 1 < High(p.n, p.T, id) then MatrixWait(y + 1) else ArriveWait)
      .(matrixLock := s.matrixLock.Post())
  }

  /** The arrival count under bLock. */
  function ArriveStep(s: State, id: nat): State
    requires id < |s.children| && ChildEnabled(s, id) && InArrive(s.children[id])
  {
    match s.children[id].pc
    case ArriveWait => Go(s, id, ArriveCount).(bLock := s.bLock.Wait(id))
    case ArriveCount => Go(s, id, ArrivePost).(bCount := s.bCount + 1)
    case ArrivePost => Go(s, id, SpinWait).(bLock := s.bLock.Post())
  }

  /** One look at cont under contLock; the round ends when it has flipped. */
  function SpinStep(p: Program, s: State, id: nat): State
    requires id < |s.children| && ChildEnabled(s, id) && InSpin(s.children[id])
  {
    var c := s.children[id];
    match c.pc
    case SpinWait => Go(s, id, SpinRead).(contLock := s.contLock.Wait(id))
    case SpinRead => Put(s, id, c.(pc := SpinPost, tCont := s.cont))
    case SpinPost =>
      Put(s, id, if c.tCont != c.nextFlip then c.(pc := SpinWait)
                 else Child(RoundStart(p, id, c.k + 1), c.k + 1, Not(c.nextFlip), c.tCont))
      .(contLock := s.contLock.Post())
  }

  /** The shutdown count under cLock. */
  function LeaveStep(s: State, id: nat): State
    requires id < |s.children| && ChildEnabled(s, id) && InLeave(s.children[id])
  {
    match s.children[id].pc
    case LeaveWait => Go(s, id, LeaveCount).(cLock := s.cLock.Wait(id))
    case LeaveCount => Go(s, id, LeavePost).(count := s.count - 1)
    case LeavePost => Go(s, id, ChildExited).(cLock := s.cLock.Post())
  }

  function ChildStep(p: Program, s: State, id: nat): State
    requires |s.children| == p.T && id < p.T && PcShape(p, s.children[id]) && |s.matrix| == p.n * p.n
    requires ChildEnabled(s, id)
  {
    var c := s.children[id];
    if InMatrix(c) then MatrixStep(p, s, id)
    else if InArrive(c) then ArriveStep(s, id)
    else if InSpin(c) then SpinStep(p, s, id)
    else LeaveStep(s, id)
  }

  function Put(s: State, id: nat, c: Child): State
    requires id < |s.children|
  {
    s.(children := s.children[id := c])
  }

  function Go(s: State, id: nat, pc: ChildPc): State
    requires id < |s.children|
  {
    Put(s, id, s.children[id].(pc := pc))
  }

  predicate ParentEnabled(s: State) {
    match s.parent.pc
    case BarrierWait => s.bLock.value > 0
    case FlipWait => s.contLock.value > 0
    case DoneWait => s.cLock.value > 0
    case ParentExited => false
    case _ => true
  }

  function ParentStep(p: Program, s: State): State
    requires ParentEnabled(s)
  {
    var me := p.T as nat;
    match s.parent.pc
    case BarrierWait => ParentGo(s, BarrierTest).(bLock := s.bLock.Wait(me))
    case BarrierTest =>
      ParentGo(s, if s.bCount == p.T && s.cont != s.parent.nextFlip then FlipWait else BarrierPost)
    case FlipWait => ParentGo(s, Flip).(contLock := s.contLock.Wait(me))
    case Flip =>
      s.(parent := s.parent.(pc := FlipPost, nextFlip := s.cont), cont := Not(s.cont), flips := s.flips + 1)
    case FlipPost => ParentGo(s, Reset).(contLock := s.contLock.Post())
    case Reset => ParentGo(s, BarrierPost).(bCount := 0)
    case BarrierPost => ParentGo(s, DoneWait).(bLock := s.bLock.Post())
    case DoneWait => ParentGo(s, DoneTest).(cLock := s.cLock.Wait(me))
    case DoneTest => s.(parent := s.parent.(pc := DonePost, done := s.parent.done || s.count == 0))
    case DonePost =>
      ParentGo(s, if s.parent.done then ParentExited else BarrierWait).(cLock := s.cLock.Post())
  }

  function ParentGo(s: State, pc: ParentPc): State {
    s.(parent := s.parent.(pc := pc))
  }

  ghost predicate Enabled(p: Program, s: State, a: nat)
    requires Shape(p, s)
  {
    if a < p.T then ChildEnabled(s, a) else a == p.T && ParentEnabled(s)
  }

  /** One turn of actor a. */
  ghost function Act(p: Program, s: State, a: nat): State
    requires Shape(p, s)
  {
    if !Enabled(p, s, a) then s
    else if a < p.T then ChildStep(p, s, a)
    else ParentStep(p, s)
  }

  // -------------------------------------------------------------- invariant

  predicate Arrived(c: Child) {
    c.pc.ArrivePost? || c.pc.SpinWait? || c.pc.SpinRead? || c.pc.SpinPost?
  }

  predicate Left(c: Child) {
    c.pc.LeavePost? || c.pc.ChildExited?
  }

  /** A child is in the round the flips announce, or has arrived and not yet seen the flip. */
  ghost predicate RoundOk(p: Program, s: State, id: nat)
    requires id < |s.children|
  {
    var c := s.children[id];
    && c.k <= s.flips <= c.k + (if Arrived(c) then 1 else 0)
    && c.nextFlip == (c.k + 1) % 2
    && (if c.pc.LeaveWait? || c.pc.LeaveCount? || Left(c) then c.k == p.n else c.k < p.n)
    && (c.pc.SpinPost? && c.tCont == c.nextFlip ==> s.flips == c.k + 1)
    && (c.pc.MatrixWait? || c.pc.MatrixUpdate? || c.pc.MatrixPost? ==> Low(p.n, p.T, id) <= c.pc.y < High(p.n, p.T, id))
  }

  /** Columns child `id` has finished in the current round. */
  ghost predicate Finished(p: Program, s: State, id: nat, y: nat)
    requires id < |s.children|
  {
    var c := s.children[id];
    && c.k == s.flips
    && match c.pc
       case MatrixWait(z) => y < z
       case MatrixUpdate(z) => y < z
       case MatrixPost(z) => y <= z
       case _ => true
  }

  ghost predicate WorkOk(p: Program, s: State)
    requires Shape(p, s)
  {
    if s.flips < p.n then
      && Within(p.ToJob(), s.matrix, s.flips)
      && forall id, y :: 0 <= id < p.T && 0 <= y < p.n && Owns(p.n, p.T, id, y) && Finished(p, s, id, y) ==>
           ColumnDone(p.ToJob(), s.matrix, s.flips, y)
    else
      AtRound(p.ToJob(), s.matrix, p.n)
  }

  /** Children who have arrived in the round that is still open. */
  ghost function ArrivedBits(s: State): (b: seq<nat>)
    ensures |b| == |s.children| && Bits(b)
  {
    seq(|s.children|, id requires 0 <= id < |s.children| =>
      if Arrived(s.children[id]) && s.children[id].k == s.flips then 1 else 0)
  }

  ghost function LeftBits(s: State): (b: seq<nat>)
    ensures |b| == |s.children| && Bits(b)
  {
    seq(|s.children|, id requires 0 <= id < |s.children| => if Left(s.children[id]) then 1 else 0)
  }

  /** bCount counts arrivals, except between the flip and the reset, when it still
      reads T although no released child has arrived again. */
  ghost predicate CountsOk(p: Program, s: State) {
    && (if s.parent.pc.FlipPost? || s.parent.pc.Reset? then s.bCount == p.T && Sum(ArrivedBits(s)) == 0
        else s.bCount == Sum(ArrivedBits(s)))
    && (s.parent.pc.FlipWait? || s.parent.pc.Flip? ==> s.bCount == p.T)
    && s.count + Sum(LeftBits(s)) == p.T
  }

  ghost predicate ParentOk(p: Program, s: State) {
    && s.cont == s.flips % 2
    && s.parent.nextFlip == (s.flips + 1) % 2
    && (s.parent.done ==> s.count == 0 && (s.parent.pc.DonePost? || s.parent.pc.ParentExited?))
    && (s.parent.pc.ParentExited? ==> s.parent.done)
  }

  predicate HoldsMatrix(p: Program, s: State, a: nat)
    requires |s.children| == p.T
  {
    a < p.T && (s.children[a].pc.MatrixUpdate? || s.children[a].pc.MatrixPost?)
  }

  predicate HoldsB(p: Program, s: State, a: nat)
    requires |s.children| == p.T
  {
    if a < p.T then s.children[a].pc.ArriveCount? || s.children[a].pc.ArrivePost?
    else a == p.T && (s.parent.pc.BarrierTest? || s.parent.pc.FlipWait? || s.parent.pc.Flip?
                      || s.parent.pc.FlipPost? || s.parent.pc.Reset? || s.parent.pc.BarrierPost?)
  }

  predicate HoldsCont(p: Program, s: State, a: nat)
    requires |s.children| == p.T
  {
    if a < p.T then s.children[a].pc.SpinRead? || s.children[a].pc.SpinPost?
    else a == p.T && (s.parent.pc.Flip? || s.parent.pc.FlipPost?)
  }

  predicate HoldsC(p: Program, s: State, a: nat)
    requires |s.children| == p.T
  {
    if a < p.T then s.children[a].pc.LeaveCount? || s.children[a].pc.LeavePost?
    else a == p.T && (s.parent.pc.DoneTest? || s.parent.pc.DonePost?)
  }

  /** An actor is inside a section exactly when it owns that section's semaphore. */
  ghost predicate Guards(lock: Sem, inside: bool, a: nat) {
    inside <==> lock.owner == Some(a)
  }

  ghost predicate OwnsOk(p: Program, s: State, a: nat)
    requires |s.children| == p.T
  {
    && Guards(s.matrixLock, HoldsMatrix(p, s, a), a)
    && Guards(s.bLock, HoldsB(p, s, a), a)
    && Guards(s.contLock, HoldsCont(p, s, a), a)
    && Guards(s.cLock, HoldsC(p, s, a), a)
  }

  ghost predicate BinaryOk(s: State) {
    s.matrixLock.Binary() && s.bLock.Binary() && s.contLock.Binary() && s.cLock.Binary()
  }

  ghost predicate LocksOk(p: Program, s: State)
    requires |s.children| == p.T
  {
    BinaryOk(s) && forall a: nat :: OwnsOk(p, s, a)
  }

  ghost predicate Inv(p: Program, s: State) {
    && Shape(p, s)
    && s.flips <= p.n
    && (forall id :: 0 <= id < p.T ==> RoundOk(p, s, id))
    && LocksOk(p, s)
    && CountsOk(p, s)
    && ParentOk(p, s)
    && WorkOk(p, s)
  }

  lemma InitRounds(p: Program)
    ensures Shape(p, Init(p))
    ensures forall id :: 0 <= id < p.T ==> RoundOk(p, Init(p), id)
  {
    forall id | 0 <= id < p.T ensures PcShape(p, Init(p).children[id]) && RoundOk(p, Init(p), id) {
      HighFits(p.n, p.T, id);
    }
  }

  lemma InitCounts(p: Program)
    ensures CountsOk(p, Init(p))
  {
    SumOfBits(ArrivedBits(Init(p)));
    SumOfBits(LeftBits(Init(p)));
  }

  lemma InitLocks(p: Program)
    ensures LocksOk(p, Init(p))
  {
    forall a: nat ensures OwnsOk(p, Init(p), a) {
    }
  }

  lemma InitWork(p: Program)
    requires Shape(p, Init(p))
    ensures WorkOk(p, Init(p))
  {
    LoadedAtZero(p.ToJob());
    if p.n > 0 {
      RoundStarts(p.ToJob(), Init(p).matrix, 0);
      forall id, y | 0 <= id < p.T && 0 <= y < p.n && Owns(p.n, p.T, id, y) ensures !Finished(p, Init(p), id, y) {
      }
    }
  }

  lemma InitInv(p: Program)
    ensures Inv(p, Init(p))
  {
    InitRounds(p);
    InitCounts(p);
    InitLocks(p);
    InitWork(p);
  }

  // ------------------------------------------------------- one step of a child

  lemma ChildFrame(p: Program, s: State, id: nat)
    requires Shape(p, s) && id < p.T && ChildEnabled(s, id)
    ensures var s' := ChildStep(p, s, id);
            && s'.flips == s.flips && s'.parent == s.parent && s'.cont == s.cont
            && |s'.children| == p.T
            && forall j :: 0 <= j < p.T && j != id ==> s'.children[j] == s.children[j]
  {
  }

  lemma OwnShape(p: Program, s: State, id: nat)
    requires Shape(p, s) && id < p.T && ChildEnabled(s, id) && RoundOk(p, s, id)
    ensures |ChildStep(p, s, id).matrix| == p.n * p.n
    ensures |ChildStep(p, s, id).children| == p.T && PcShape(p, ChildStep(p, s, id).children[id])
  {
    HighFits(p.n, p.T, id);
  }

  lemma ChildKeepsShape(p: Program, s: State, id: nat)
    requires Shape(p, s) && id < p.T && ChildEnabled(s, id) && RoundOk(p, s, id)
    ensures Shape(p, ChildStep(p, s, id))
  {
    OwnShape(p, s, id);
    ChildFrame(p, s, id);
  }

  lemma RoundFrame(p: Program, s: State, s': State, j: nat)
    requires j < |s.children| == |s'.children|
    requires s'.flips == s.flips && s'.children[j] == s.children[j] && RoundOk(p, s, j)
    ensures RoundOk(p, s', j)
  {
  }

  /** A successful poll means the flip of the child's own round has happened. */
  lemma OwnRound(p: Program, s: State, id: nat)
    requires Shape(p, s) && id < p.T && ChildEnabled(s, id)
    requires RoundOk(p, s, id) && s.cont == s.flips % 2
    ensures id < |ChildStep(p, s, id).children| && RoundOk(p, ChildStep(p, s, id), id)
  {
    HighFits(p.n, p.T, id);
  }

  lemma ChildKeepsRounds(p: Program, s: State, id: nat)
    requires Inv(p, s) && id < p.T && ChildEnabled(s, id)
    ensures |ChildStep(p, s, id).children| == p.T
    ensures forall j :: 0 <= j < p.T ==> RoundOk(p, ChildStep(p, s, id), j)
  {
    OwnRound(p, s, id);
    ChildFrame(p, s, id);
    forall j | 0 <= j < p.T && j != id ensures RoundOk(p, ChildStep(p, s, id), j) {
      RoundFrame(p, s, ChildStep(p, s, id), j);
    }
  }

  lemma OwnMatrixLock(p: Program, s: State, id: nat)
    requires Shape(p, s) && id < p.T && ChildEnabled(s, id)
    requires s.matrixLock.Binary() && Guards(s.matrixLock, HoldsMatrix(p, s, id), id)
    ensures |ChildStep(p, s, id).children| == p.T && ChildStep(p, s, id).matrixLock.Binary()
    ensures Guards(ChildStep(p, s, id).matrixLock, HoldsMatrix(p, ChildStep(p, s, id), id), id)
  {
  }

  lemma OwnBLock(p: Program, s: State, id: nat)
    requires Shape(p, s) && id < p.T && ChildEnabled(s, id)
    requires s.bLock.Binary() && Guards(s.bLock, HoldsB(p, s, id), id)
    ensures |ChildStep(p, s, id).children| == p.T && ChildStep(p, s, id).bLock.Binary()
    ensures Guards(ChildStep(p, s, id).bLock, HoldsB(p, ChildStep(p, s, id), id), id)
  {
  }

  lemma OwnContLock(p: Program, s: State, id: nat)
    requires Shape(p, s) && id < p.T && ChildEnabled(s, id)
    requires s.contLock.Binary() && Guards(s.contLock, HoldsCont(p, s, id), id)
    ensures |ChildStep(p, s, id).children| == p.T && ChildStep(p, s, id).contLock.Binary()
    ensures Guards(ChildStep(p, s, id).contLock, HoldsCont(p, ChildStep(p, s, id), id), id)
  {
  }

  lemma OwnCLock(p: Program, s: State, id: nat)
    requires Shape(p, s) && id < p.T && ChildEnabled(s, id)
    requires s.cLock.Binary() && Guards(s.cLock, HoldsC(p, s, id), id)
    ensures |ChildStep(p, s, id).children| == p.T && ChildStep(p, s, id).cLock.Binary()
    ensures Guards(ChildStep(p, s, id).cLock, HoldsC(p, ChildStep(p, s, id), id), id)
  {
  }

  /** A semaphore changes hands only between nobody and `actor`. */
  ghost predicate HandOver(before: Sem, after: Sem, actor: nat) {
    forall a: nat :: a != actor ==> (after.owner == Some(a) <==> before.owner == Some(a))
  }

  lemma ChildHandOvers(p: Program, s: State, id: nat)
    requires Shape(p, s) && id < p.T && ChildEnabled(s, id)
    requires BinaryOk(s) && OwnsOk(p, s, id)
    ensures var s' := ChildStep(p, s, id);
            && HandOver(s.matrixLock, s'.matrixLock, id) && HandOver(s.bLock, s'.bLock, id)
            && HandOver(s.contLock, s'.contLock, id) && HandOver(s.cLock, s'.cLock, id)
  {
  }

  lemma OtherLocks(p: Program, s: State, s': State, actor: nat, a: nat)
    requires |s.children| == |s'.children| == p.T && OwnsOk(p, s, a) && a != actor
    requires HandOver(s.matrixLock, s'.matrixLock, actor) && HandOver(s.bLock, s'.bLock, actor)
    requires HandOver(s.contLock, s'.contLock, actor) && HandOver(s.cLock, s'.cLock, actor)
    requires if a < p.T then s'.children[a] == s.children[a] else a == p.T ==> s'.parent == s.parent
    ensures OwnsOk(p, s', a)
  {
  }

  lemma ChildKeepsLocks(p: Program, s: State, id: nat)
    requires Shape(p, s) && id < p.T && ChildEnabled(s, id) && LocksOk(p, s)
    ensures |ChildStep(p, s, id).children| == p.T && LocksOk(p, ChildStep(p, s, id))
  {
    assert OwnsOk(p, s, id);
    OwnMatrixLock(p, s, id);
    OwnBLock(p, s, id);
    OwnContLock(p, s, id);
    OwnCLock(p, s, id);
    ChildFrame(p, s, id);
    ChildHandOvers(p, s, id);
    forall a: nat | a != id ensures OwnsOk(p, ChildStep(p, s, id), a) {
      assert OwnsOk(p, s, a);
      OtherLocks(p, s, ChildStep(p, s, id), id, a);
    }
  }

  lemma ChildKeepsArrivals(p: Program, s: State, id: nat)
    requires Shape(p, s) && id < p.T && ChildEnabled(s, id) && CountsOk(p, s)
    requires RoundOk(p, s, id) && OwnsOk(p, s, id) && OwnsOk(p, s, p.T)
    ensures var s' := ChildStep(p, s, id);
            if s.parent.pc.FlipPost? || s.parent.pc.Reset? then s'.bCount == p.T && Sum(ArrivedBits(s')) == 0
            else s'.bCount == Sum(ArrivedBits(s'))
    ensures s.parent.pc.FlipWait? || s.parent.pc.Flip? ==> ChildStep(p, s, id).bCount == p.T
  {
    var s' := ChildStep(p, s, id);
    ChildFrame(p, s, id);
    SumChange(ArrivedBits(s), ArrivedBits(s'), id);
  }

  lemma ChildKeepsCounts(p: Program, s: State, id: nat)
    requires Shape(p, s) && id < p.T && ChildEnabled(s, id) && CountsOk(p, s)
    requires RoundOk(p, s, id) && OwnsOk(p, s, id) && OwnsOk(p, s, p.T)
    ensures CountsOk(p, ChildStep(p, s, id))
  {
    ChildKeepsArrivals(p, s, id);
    ChildFrame(p, s, id);
    SumChange(LeftBits(s), LeftBits(ChildStep(p, s, id)), id);
  }

  lemma ChildWrites(p: Program, s: State, id: nat)
    requires Shape(p, s) && id < p.T && ChildEnabled(s, id)
    ensures ChildStep(p, s, id).matrix ==
            if s.children[id].pc.MatrixUpdate? then ColumnStep(p.n, s.matrix, s.children[id].k, s.children[id].pc.y)
            else s.matrix
  {
  }

  /** The only column a step can finish is the one it writes. */
  lemma OwnFinished(p: Program, s: State, id: nat, y: nat)
    requires Shape(p, s) && id < p.T && ChildEnabled(s, id) && RoundOk(p, s, id)
    requires Owns(p.n, p.T, id, y) && |ChildStep(p, s, id).children| == p.T && Finished(p, ChildStep(p, s, id), id, y)
    ensures s.flips < p.n ==> Finished(p, s, id, y) || s.children[id].pc == MatrixUpdate(y)
  {
  }

  lemma ColumnKeepsWork(p: Program, s: State, s': State, id: nat)
    requires Shape(p, s) && Shape(p, s') && id < p.T && WorkOk(p, s) && s'.flips == s.flips
    requires forall j :: 0 <= j < p.T && j != id ==> s'.children[j] == s.children[j]
    requires s.children[id].pc.MatrixUpdate? ==>
               s.children[id].k == s.flips && s.children[id].pc.y < Covered(p.n, p.T)
    requires s'.matrix == if s.children[id].pc.MatrixUpdate?
                          then ColumnStep(p.n, s.matrix, s.children[id].k, s.children[id].pc.y) else s.matrix
    requires forall y: nat :: Owns(p.n, p.T, id, y) && Finished(p, s', id, y) && s.flips < p.n ==>
               Finished(p, s, id, y) || s.children[id].pc == MatrixUpdate(y)
    ensures WorkOk(p, s')
  {
    var c := s.children[id];
    if s.flips < p.n {
      if c.pc.MatrixUpdate? {
        ColumnRound(p.ToJob(), s.matrix, c.k, c.pc.y);
      }
      forall j, y | 0 <= j < p.T && 0 <= y < p.n && Owns(p.n, p.T, j, y) && Finished(p, s', j, y)
        ensures ColumnDone(p.ToJob(), s'.matrix, s.flips, y)
      {
        if !Finished(p, s, j, y) {
          assert j == id && c.pc == MatrixUpdate(y);
        }
      }
    }
  }

  lemma ChildKeepsWork(p: Program, s: State, id: nat)
    requires Shape(p, s) && id < p.T && ChildEnabled(s, id) && RoundOk(p, s, id) && WorkOk(p, s)
    ensures Shape(p, ChildStep(p, s, id)) && WorkOk(p, ChildStep(p, s, id))
  {
    ChildKeepsShape(p, s, id);
    ChildFrame(p, s, id);
    ChildWrites(p, s, id);
    HighFits(p.n, p.T, id);
    forall y: nat | Owns(p.n, p.T, id, y) && Finished(p, ChildStep(p, s, id), id, y) && s.flips < p.n
      ensures Finished(p, s, id, y) || s.children[id].pc == MatrixUpdate(y)
    {
      OwnFinished(p, s, id, y);
    }
    ColumnKeepsWork(p, s, ChildStep(p, s, id), id);
  }

  lemma ChildKeepsParent(p: Program, s: State, id: nat)
    requires Shape(p, s) && id < p.T && ChildEnabled(s, id) && CountsOk(p, s) && ParentOk(p, s)
    ensures ParentOk(p, ChildStep(p, s, id))
  {
    ChildFrame(p, s, id);
    if s.parent.done {
      SumOfBits(LeftBits(s));
      assert LeftBits(s)[id] == 1;
    }
  }

  lemma ChildKeepsInv(p: Program, s: State, id: nat)
    requires Inv(p, s) && id < p.T && ChildEnabled(s, id)
    ensures Inv(p, ChildStep(p, s, id))
  {
    assert RoundOk(p, s, id) && OwnsOk(p, s, id) && OwnsOk(p, s, p.T);
    ChildFrame(p, s, id);
    ChildKeepsWork(p, s, id);
    ChildKeepsRounds(p, s, id);
    ChildKeepsLocks(p, s, id);
    ChildKeepsCounts(p, s, id);
    ChildKeepsParent(p, s, id);
  }

  // ---------------------------------------------------- one step of the parent

  /** At the flip every child has arrived in the open round. */
  lemma FlipMeansAllArrived(p: Program, s: State, id: nat)
    requires Inv(p, s) && s.parent.pc.Flip? && id < p.T
    ensures Arrived(s.children[id]) && s.children[id].k == s.flips < p.n
  {
    SumOfBits(ArrivedBits(s));
    assert ArrivedBits(s)[id] == 1;
    assert RoundOk(p, s, id);
  }

  lemma FlipEndsRound(p: Program, s: State)
    requires Inv(p, s) && s.parent.pc.Flip?
    ensures s.flips < p.n && AtRound(p.ToJob(), s.matrix, s.flips + 1)
  {
    FlipMeansAllArrived(p, s, 0);
    forall y | 0 <= y < p.n && y < p.ToJob().cover.bound
      ensures ColumnDone(p.ToJob(), s.matrix, s.flips, y)
    {
      CoveredIsOwned(p.n, p.T, y);
      var id: nat :| Owns(p.n, p.T, id, y);
      FlipMeansAllArrived(p, s, id);
      assert Finished(p, s, id, y);
    }
    ColumnsEndRound(p.ToJob(), s.matrix, s.flips);
  }

  lemma ParentFrame(p: Program, s: State)
    requires ParentEnabled(s)
    ensures var s' := ParentStep(p, s);
            && s'.children == s.children && s'.matrix == s.matrix
            && s'.flips == s.flips + (if s.parent.pc.Flip? then 1 else 0)
  {
  }

  lemma ParentKeepsRounds(p: Program, s: State)
    requires Inv(p, s) && ParentEnabled(s)
    ensures Shape(p, ParentStep(p, s)) && ParentStep(p, s).flips <= p.n
    ensures forall id :: 0 <= id < p.T ==> RoundOk(p, ParentStep(p, s), id)
  {
    ParentFrame(p, s);
    forall id | 0 <= id < p.T ensures RoundOk(p, ParentStep(p, s), id) {
      assert RoundOk(p, s, id);
      if s.parent.pc.Flip? {
        FlipMeansAllArrived(p, s, id);
      }
    }
    if s.parent.pc.Flip? {
      FlipMeansAllArrived(p, s, 0);
    }
  }

  lemma ParentKeepsLocks(p: Program, s: State)
    requires Shape(p, s) && LocksOk(p, s) && ParentEnabled(s)
    ensures |ParentStep(p, s).children| == p.T && LocksOk(p, ParentStep(p, s))
  {
    var s' := ParentStep(p, s);
    assert OwnsOk(p, s, p.T);
    forall a: nat ensures OwnsOk(p, s', a) {
      assert OwnsOk(p, s, a);
    }
  }

  /** A flip opens a round in which nobody has arrived yet. */
  lemma FlipClearsArrivals(p: Program, s: State)
    requires Inv(p, s) && s.parent.pc.Flip?
    ensures Sum(ArrivedBits(ParentStep(p, s))) == 0
  {
    var s' := ParentStep(p, s);
    forall id | 0 <= id < p.T ensures ArrivedBits(s')[id] == 0 {
      FlipMeansAllArrived(p, s, id);
    }
    SumOfBits(ArrivedBits(s'));
  }

  lemma ParentKeepsCounts(p: Program, s: State)
    requires Shape(p, s) && CountsOk(p, s) && ParentOk(p, s) && ParentEnabled(s)
    requires s.parent.pc.Flip? ==> Sum(ArrivedBits(ParentStep(p, s))) == 0
    ensures CountsOk(p, ParentStep(p, s)) && ParentOk(p, ParentStep(p, s))
  {
    var s' := ParentStep(p, s);
    assert LeftBits(s') == LeftBits(s);
    assert !s.parent.pc.Flip? ==> ArrivedBits(s') == ArrivedBits(s);
  }

  lemma ParentKeepsWork(p: Program, s: State)
    requires Inv(p, s) && ParentEnabled(s)
    requires Shape(p, ParentStep(p, s))
    ensures WorkOk(p, ParentStep(p, s))
  {
    var s' := ParentStep(p, s);
    ParentFrame(p, s);
    if s.parent.pc.Flip? {
      FlipEndsRound(p, s);
      if s'.flips < p.n {
        RoundStarts(p.ToJob(), s.matrix, s'.flips);
      }
      forall id, y | 0 <= id < p.T && 0 <= y < p.n ensures !Finished(p, s', id, y) {
        FlipMeansAllArrived(p, s, id);
      }
    } else {
      forall id, y | 0 <= id < p.T && 0 <= y < p.n && Finished(p, s', id, y) ensures Finished(p, s, id, y) {
      }
    }
  }

  lemma ParentKeepsInv(p: Program, s: State)
    requires Inv(p, s) && ParentEnabled(s)
    ensures Inv(p, ParentStep(p, s))
  {
    ParentKeepsRounds(p, s);
    ParentKeepsLocks(p, s);
    if s.parent.pc.Flip? { FlipClearsArrivals(p, s); }
    ParentKeepsCounts(p, s);
    ParentKeepsWork(p, s);
  }

  lemma ActKeepsInv(p: Program, s: State, a: nat)
    requires Inv(p, s)
    ensures Inv(p, Act(p, s, a))
  {
    if Enabled(p, s, a) {
      if a < p.T {
        ChildKeepsInv(p, s, a);
      } else {
        ParentKeepsInv(p, s);
      }
    }
  }
}
