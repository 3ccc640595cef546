/** Fair runs of wtc_proc_test: if every actor that is able to act again and again does act
    again and again, the parent leaves its loop. Giving turns only to actors that stay able
    to act is not enough, as HandBarrierWeakFairness shows.

    Why fair runs end: useful steps run out, and a run that only polls is unfair, because
    whoever is inside a semaphore's section leaves it, so every waiter is able to act again. */
module HandBarrierFairness {
  import opened Closure
  import opened Matrix
  import opened Sync
  import opened HandBarrier
  import opened HandBarrierRuns
  import opened HandBarrierProgress

  /** A run that never stops: whose turn it is at each time, and the state before it. */
  datatype Timed = Timed(p: Program, turn: nat -> nat, at: nat -> State)

  ghost predicate Follows(r: Timed, t: nat) {
    Inv(r.p, r.at(t)) && r.at(t + 1) == Act(r.p, r.at(t), r.turn(t))
  }

  ghost predicate IsRun(r: Timed) {
    r.at(0) == Init(r.p) && forall t: nat :: Follows(r, t)
  }

  ghost predicate Able(p: Program, s: State, a: nat) {
    Shape(p, s) && Enabled(p, s, a)
  }

  /** Actor a is scheduled at time t and not blocked. */
  ghost predicate Takes(r: Timed, a: nat, t: nat) {
    r.turn(t) == a && Able(r.p, r.at(t), a)
  }

  ghost predicate AbleFrom(r: Timed, a: nat, t: nat) {
    exists u: nat :: t <= u && Able(r.p, r.at(u), a)
  }

  ghost predicate TakesFrom(r: Timed, a: nat, t: nat) {
    exists u: nat :: t <= u && Takes(r, a, u)
  }

  /** Whoever can act infinitely often acts infinitely often. */
  ghost predicate FairTo(r: Timed, a: nat) {
    (forall t: nat :: AbleFrom(r, a, t)) ==> forall t: nat :: TakesFrom(r, a, t)
  }

  ghost predicate Fair(r: Timed) {
    forall a: nat :: a <= r.p.T ==> FairTo(r, a)
  }

  /** The state at time t under any choice of turns. */
  ghost function At(p: Program, turn: nat -> nat, t: nat): (s: State)
    ensures Inv(p, s)
    decreases t
  {
    if t == 0 then
      InitInv(p);
      Init(p)
    else
      ActKeepsInv(p, At(p, turn, t - 1), turn(t - 1));
      Act(p, At(p, turn, t - 1), turn(t - 1))
  }

  ghost function RunOf(p: Program, turn: nat -> nat): Timed {
    Timed(p, turn, (t: nat) => At(p, turn, t))
  }

  lemma EveryChoiceIsARun(p: Program, turn: nat -> nat)
    ensures IsRun(RunOf(p, turn))
  {
    forall t: nat ensures Follows(RunOf(p, turn), t) {
      AtFollows(p, turn, t);
    }
  }

  lemma AtFollows(p: Program, turn: nat -> nat, t: nat)
    ensures At(p, turn, t + 1) == Act(p, At(p, turn, t), turn(t))
  {
  }

  /** Induction over time. */
  lemma {:induction false} Always(P: nat -> bool, n: nat, t: nat)
    requires n <= t && P(n) && forall v: nat :: n <= v && P(v) ==> P(v + 1)
    ensures P(t)
    decreases t
  {
    if n < t {
      Always(P, n, t - 1);
    }
  }

  // ------------------------------------------------------ the next turn of an actor

  ghost predicate SameOwn(p: Program, s: State, s': State, a: nat) {
    && |s.children| == |s'.children| == p.T
    && if a < p.T then s'.children[a] == s.children[a] else s'.parent == s.parent
  }

  lemma OthersKeepOwn(p: Program, s: State, b: nat, a: nat)
    requires Shape(p, s) && a <= p.T && (a != b || !Enabled(p, s, b))
    ensures SameOwn(p, s, Act(p, s, b), a)
  {
    if Enabled(p, s, b) {
      if b < p.T { ChildFrame(p, s, b); } else { ParentFrame(p, s); }
    }
  }

  lemma IdleKeepsOwn(r: Timed, a: nat, t: nat)
    requires IsRun(r) && a <= r.p.T && !Takes(r, a, t)
    ensures SameOwn(r.p, r.at(t), r.at(t + 1), a)
  {
    assert Follows(r, t);
    OthersKeepOwn(r.p, r.at(t), r.turn(t), a);
  }

  lemma {:induction false} StaysPut(r: Timed, a: nat, t: nat, u: nat)
    requires IsRun(r) && a <= r.p.T && t <= u && forall v: nat :: t <= v < u ==> !Takes(r, a, v)
    ensures SameOwn(r.p, r.at(t), r.at(u), a)
    decreases u
  {
    if t == u {
      assert Follows(r, t);
    } else {
      StaysPut(r, a, t, u - 1);
      IdleKeepsOwn(r, a, u - 1);
    }
  }

  lemma {:induction false} FirstTurn(r: Timed, a: nat, t: nat, last: nat) returns (u: nat)
    requires t <= last && Takes(r, a, last)
    ensures t <= u <= last && Takes(r, a, u) && forall v: nat :: t <= v < u ==> !Takes(r, a, v)
    decreases last - t
  {
    if Takes(r, a, t) {
      u := t;
    } else {
      u := FirstTurn(r, a, t + 1, last);
    }
  }

  /** From time v on the actor is able to act again, unless it has acted since t. */
  ghost predicate WillBeAble(r: Timed, a: nat, t: nat, v: nat) {
    exists w: nat :: v <= w && (Able(r.p, r.at(w), a) || !SameOwn(r.p, r.at(t), r.at(w), a))
  }

  /** A fair schedule gives a turn to an actor that is able to act again and again, and
      it takes that turn where it stood. */
  lemma NextTurn(r: Timed, a: nat, t: nat) returns (u: nat)
    requires IsRun(r) && Fair(r) && a <= r.p.T && forall v: nat :: t <= v ==> WillBeAble(r, a, t, v)
    ensures t <= u && Takes(r, a, u) && SameOwn(r.p, r.at(t), r.at(u), a)
  {
    assert FairTo(r, a);
    if !TakesFrom(r, a, t) {
      forall v: nat ensures AbleFrom(r, a, v) {
        AbleUnlessTaken(r, a, t, v);
      }
    }
    var last: nat :| t <= last && Takes(r, a, last);
    u := FirstTurn(r, a, t, last);
    StaysPut(r, a, t, u);
  }

  lemma AbleUnlessTaken(r: Timed, a: nat, t: nat, v: nat)
    requires IsRun(r) && a <= r.p.T && !TakesFrom(r, a, t)
    requires forall v: nat :: t <= v ==> WillBeAble(r, a, t, v)
    ensures AbleFrom(r, a, v)
  {
    var from := if v < t then t else v;
    assert WillBeAble(r, a, t, from);
    var w: nat :| from <= w && (Able(r.p, r.at(w), a) || !SameOwn(r.p, r.at(t), r.at(w), a));
    StaysPut(r, a, t, w);
  }

  // ------------------------------------------------------------- stalled runs

  /** From time n on nobody does anything but poll. */
  ghost predicate Quiet(r: Timed, n: nat) {
    forall t: nat :: n <= t ==> !UsefulAt(r, t)
  }

  ghost predicate UsefulAt(r: Timed, t: nat) {
    Takes(r, r.turn(t), t) && !Polls(r.p, r.at(t), r.turn(t))
  }

  ghost predicate Going(r: Timed, t: nat) {
    !r.at(t).parent.pc.ParentExited?
  }

  /** A fair run whose useful steps have run out before the parent's exit. There is none. */
  ghost predicate Stalled(r: Timed, n: nat) {
    IsRun(r) && Fair(r) && Quiet(r, n) && forall t: nat :: n <= t ==> Going(r, t)
  }

  lemma QuietTurn(r: Timed, n: nat, t: nat, a: nat)
    requires Stalled(r, n) && n <= t && Takes(r, a, t)
    ensures Inv(r.p, r.at(t)) && Enabled(r.p, r.at(t), a) && Polls(r.p, r.at(t), a)
    ensures r.at(t + 1) == if a < r.p.T then ChildStep(r.p, r.at(t), a) else ParentStep(r.p, r.at(t))
  {
    assert Follows(r, t);
    assert !UsefulAt(r, t);
  }

  /** Polls change none of the counters and no child's next flip. */
  ghost predicate Drifted(s: State, s': State) {
    && s'.cont == s.cont && s'.bCount == s.bCount && s'.count == s.count
    && |s'.children| == |s.children|
    && forall j :: 0 <= j < |s.children| ==> s'.children[j].nextFlip == s.children[j].nextFlip
  }

  lemma PollDrifts(p: Program, s: State, a: nat)
    requires Shape(p, s) && Enabled(p, s, a) && Polls(p, s, a)
    ensures Drifted(s, Act(p, s, a))
  {
  }

  lemma {:induction false} QuietDrifts(r: Timed, n: nat, t: nat, u: nat)
    requires Stalled(r, n) && n <= t <= u
    ensures Drifted(r.at(t), r.at(u))
    decreases u
  {
    if t < u {
      QuietDrifts(r, n, t, u - 1);
      DriftOnce(r, n, u - 1);
    }
  }

  lemma DriftOnce(r: Timed, n: nat, t: nat)
    requires Stalled(r, n) && n <= t
    ensures Drifted(r.at(t), r.at(t + 1))
  {
    assert Follows(r, t);
    if Takes(r, r.turn(t), t) {
      QuietTurn(r, n, t, r.turn(t));
      PollDrifts(r.p, r.at(t), r.turn(t));
    }
  }

  /** Inside a section, with a useful step to take. */
  predicate Busy(p: Program, s: State, a: nat)
    requires |s.children| == p.T
  {
    if a < p.T then
      var pc := s.children[a].pc;
      pc.MatrixUpdate? || pc.MatrixPost? || pc.ArriveCount? || pc.ArrivePost? || pc.LeaveCount? || pc.LeavePost?
    else
      s.parent.pc.Flip? || s.parent.pc.FlipPost? || s.parent.pc.Reset? || (s.parent.pc.DonePost? && s.parent.done)
  }

  lemma BusyIsUseful(p: Program, s: State, a: nat)
    requires Shape(p, s) && a <= p.T && Busy(p, s, a)
    ensures Able(p, s, a) && !Polls(p, s, a)
  {
  }

  /** An actor whose next step never blocks gets its turn. */
  lemma UnblockedTurn(r: Timed, n: nat, t: nat, a: nat) returns (u: nat)
    requires Stalled(r, n) && n <= t && a <= r.p.T
    requires forall v: nat :: t <= v && Shape(r.p, r.at(v)) && SameOwn(r.p, r.at(t), r.at(v), a) ==>
               Able(r.p, r.at(v), a)
    ensures t <= u && Takes(r, a, u) && SameOwn(r.p, r.at(t), r.at(u), a)
  {
    forall v: nat | t <= v ensures WillBeAble(r, a, t, v) {
      assert Follows(r, v);
      assert Able(r.p, r.at(v), a) || !SameOwn(r.p, r.at(t), r.at(v), a);
    }
    u := NextTurn(r, a, t);
  }

  lemma NobodyBusy(r: Timed, n: nat, t: nat, a: nat)
    requires Stalled(r, n) && n <= t && a <= r.p.T
    ensures |r.at(t).children| == r.p.T && !Busy(r.p, r.at(t), a)
  {
    assert Follows(r, t);
    if Busy(r.p, r.at(t), a) {
      forall v: nat | t <= v && Shape(r.p, r.at(v)) && SameOwn(r.p, r.at(t), r.at(v), a)
        ensures Able(r.p, r.at(v), a)
      {
        BusyIsUseful(r.p, r.at(v), a);
      }
      var u := UnblockedTurn(r, n, t, a);
      QuietTurn(r, n, u, a);
      BusyIsUseful(r.p, r.at(u), a);
    }
  }

  // ------------------------------------------------- semaphores come free again

  /** A child inside the contLock section takes its step there. */
  lemma InsiderMoves(r: Timed, n: nat, t: nat, a: nat) returns (u: nat)
    requires Stalled(r, n) && n <= t && a < r.p.T == |r.at(t).children|
    requires r.at(t).children[a].pc.SpinRead? || r.at(t).children[a].pc.SpinPost?
    ensures t <= u && |r.at(u).children| == |r.at(u + 1).children| == r.p.T
    ensures r.at(u).children[a] == r.at(t).children[a] && Polls(r.p, r.at(u), a)
    ensures var c := r.at(t).children[a];
            r.at(u + 1).children[a] ==
            if c.pc.SpinRead? then c.(pc := SpinPost, tCont := r.at(u).cont) else c.(pc := SpinWait)
    ensures r.at(t).children[a].pc.SpinPost? ==> r.at(u + 1).contLock.owner.None?
  {
    u := UnblockedTurn(r, n, t, a);
    QuietTurn(r, n, u, a);
  }

  lemma Holder(p: Program, s: State, lock: Sem) returns (a: nat)
    requires Inv(p, s) && lock.owner.Some?
    requires lock == s.matrixLock || lock == s.bLock || lock == s.contLock || lock == s.cLock
    ensures lock.owner == Some(a) && a <= p.T
    ensures lock == s.matrixLock ==> HoldsMatrix(p, s, a)
    ensures lock == s.bLock ==> HoldsB(p, s, a)
    ensures lock == s.contLock ==> HoldsCont(p, s, a)
    ensures lock == s.cLock ==> HoldsC(p, s, a)
  {
    a := lock.owner.value;
    assert OwnsOk(p, s, a);
  }

  /** The holder of contLock polls its way out. */
  lemma ContFreeAgain(r: Timed, n: nat, t: nat) returns (u: nat)
    requires Stalled(r, n) && n <= t
    ensures t <= u && r.at(u).contLock.owner.None?
  {
    u := t;
    assert Follows(r, t);
    if r.at(t).contLock.owner.Some? {
      var a := Holder(r.p, r.at(t), r.at(t).contLock);
      NobodyBusy(r, n, t, a);
      if r.at(t).children[a].pc.SpinRead? {
        u := InsiderMoves(r, n, t, a);
        u := u + 1;
      }
      u := InsiderMoves(r, n, u, a);
      u := u + 1;
    }
  }

  lemma FlipWaitAble(p: Program, s: State)
    requires Inv(p, s) && s.parent.pc.FlipWait? && s.contLock.owner.None?
    ensures Able(p, s, p.T) && !Polls(p, s, p.T)
  {
  }

  lemma ParentNotAtFlip(r: Timed, n: nat, t: nat)
    requires Stalled(r, n) && n <= t
    ensures !r.at(t).parent.pc.FlipWait?
  {
    if r.at(t).parent.pc.FlipWait? {
      forall v: nat | t <= v ensures WillBeAble(r, r.p.T, t, v) {
        var w := ContFreeAgain(r, n, v);
        assert Follows(r, w);
        if SameOwn(r.p, r.at(t), r.at(w), r.p.T) { FlipWaitAble(r.p, r.at(w)); }
      }
      var u := NextTurn(r, r.p.T, t);
      QuietTurn(r, n, u, r.p.T);
    }
  }

  /** Nobody else is inside bLock or cLock when the parent comes to them. */
  lemma ParentAble(r: Timed, n: nat, t: nat)
    requires Stalled(r, n) && n <= t
    ensures Able(r.p, r.at(t), r.p.T)
  {
    assert Follows(r, t) && Going(r, t);
    ParentNotAtFlip(r, n, t);
    var s := r.at(t);
    if s.parent.pc.BarrierWait? && s.bLock.owner.Some? {
      var a := Holder(r.p, s, s.bLock);
      NobodyBusy(r, n, t, a);
    } else if s.parent.pc.DoneWait? && s.cLock.owner.Some? {
      var a := Holder(r.p, s, s.cLock);
      NobodyBusy(r, n, t, a);
    }
  }

  /** The parent polls on. */
  lemma ParentTurns(r: Timed, n: nat, t: nat) returns (u: nat)
    requires Stalled(r, n) && n <= t
    ensures t <= u && |r.at(u).children| == r.p.T && r.at(u).parent == r.at(t).parent
    ensures Polls(r.p, r.at(u), r.p.T) && ParentEnabled(r.at(u)) && r.at(u + 1) == ParentStep(r.p, r.at(u))
  {
    forall v: nat | t <= v ensures WillBeAble(r, r.p.T, t, v) {
      ParentAble(r, n, v);
    }
    u := NextTurn(r, r.p.T, t);
    QuietTurn(r, n, u, r.p.T);
  }

  lemma BHolderIsParent(r: Timed, n: nat, t: nat)
    requires Stalled(r, n) && n <= t && r.at(t).bLock.owner.Some?
    ensures r.at(t).parent.pc.BarrierTest? || r.at(t).parent.pc.BarrierPost?
  {
    assert Follows(r, t);
    var a := Holder(r.p, r.at(t), r.at(t).bLock);
    NobodyBusy(r, n, t, a);
    ParentNotAtFlip(r, n, t);
  }

  lemma BFreeAgain(r: Timed, n: nat, t: nat) returns (u: nat)
    requires Stalled(r, n) && n <= t
    ensures t <= u && r.at(u).bLock.owner.None?
  {
    u := t;
    if r.at(t).bLock.owner.Some? {
      BHolderIsParent(r, n, t);
      if r.at(t).parent.pc.BarrierTest? {
        u := ParentTurns(r, n, t);
        u := u + 1;
      }
      u := ParentTurns(r, n, u);
      u := u + 1;
    }
  }

  lemma CHolderIsParent(r: Timed, n: nat, t: nat)
    requires Stalled(r, n) && n <= t && r.at(t).cLock.owner.Some?
    ensures r.at(t).parent.pc.DoneTest? || r.at(t).parent.pc.DonePost?
  {
    assert Follows(r, t);
    var a := Holder(r.p, r.at(t), r.at(t).cLock);
    NobodyBusy(r, n, t, a);
  }

  lemma CFreeAgain(r: Timed, n: nat, t: nat) returns (u: nat)
    requires Stalled(r, n) && n <= t
    ensures t <= u && r.at(u).cLock.owner.None?
  {
    u := t;
    if r.at(t).cLock.owner.Some? {
      CHolderIsParent(r, n, t);
      if r.at(t).parent.pc.DoneTest? {
        u := ParentTurns(r, n, t);
        u := u + 1;
      }
      u := ParentTurns(r, n, u);
      u := u + 1;
    }
  }

  lemma MatrixFree(r: Timed, n: nat, t: nat)
    requires Stalled(r, n) && n <= t
    ensures r.at(t).matrixLock.owner.None?
  {
    assert Follows(r, t);
    if r.at(t).matrixLock.owner.Some? {
      var a := Holder(r.p, r.at(t), r.at(t).matrixLock);
      NobodyBusy(r, n, t, a);
    }
  }

  predicate Waiting(c: Child) {
    c.pc.MatrixWait? || c.pc.ArriveWait? || c.pc.LeaveWait?
  }

  /** The semaphore a waiting child is at comes free. */
  lemma WaiterAbleAgain(r: Timed, n: nat, t: nat, id: nat, v: nat)
    requires Stalled(r, n) && n <= t <= v && id < r.p.T == |r.at(t).children| && Waiting(r.at(t).children[id])
    ensures WillBeAble(r, id, t, v)
  {
    var pc, w := r.at(t).children[id].pc, v;
    if pc.MatrixWait? {
      MatrixFree(r, n, v);
    } else if pc.ArriveWait? {
      w := BFreeAgain(r, n, v);
    } else {
      w := CFreeAgain(r, n, v);
    }
    assert Follows(r, w);
    assert Able(r.p, r.at(w), id) || !SameOwn(r.p, r.at(t), r.at(w), id);
  }

  /** No child stays at a semaphore other than contLock. */
  lemma NobodyWaits(r: Timed, n: nat, t: nat, id: nat)
    requires Stalled(r, n) && n <= t && id < r.p.T
    ensures |r.at(t).children| == r.p.T
    ensures InSpin(r.at(t).children[id]) || r.at(t).children[id].pc.ChildExited?
  {
    NobodyBusy(r, n, t, id);
    if Waiting(r.at(t).children[id]) {
      forall v: nat | t <= v ensures WillBeAble(r, id, t, v) {
        WaiterAbleAgain(r, n, t, id, v);
      }
      var u := NextTurn(r, id, t);
      QuietTurn(r, n, u, id);
    }
  }

  // ------------------------------------------------ a released child sees its flip

  lemma ReaderNotReleased(r: Timed, n: nat, t: nat, id: nat)
    requires Stalled(r, n) && n <= t && id < r.p.T == |r.at(t).children| && r.at(t).children[id].pc.SpinRead?
    ensures !Released(r.at(t), id)
  {
    var u := InsiderMoves(r, n, t, id);
    QuietDrifts(r, n, t, u);
  }

  lemma SpinWaitAbleAgain(r: Timed, n: nat, t: nat, id: nat, v: nat)
    requires Stalled(r, n) && n <= t <= v && id < r.p.T == |r.at(t).children| && r.at(t).children[id].pc.SpinWait?
    ensures WillBeAble(r, id, t, v)
  {
    var w := ContFreeAgain(r, n, v);
    assert Follows(r, w);
    assert Able(r.p, r.at(w), id) || !SameOwn(r.p, r.at(t), r.at(w), id);
  }

  lemma WaiterNotReleased(r: Timed, n: nat, t: nat, id: nat)
    requires Stalled(r, n) && n <= t && id < r.p.T == |r.at(t).children| && r.at(t).children[id].pc.SpinWait?
    ensures !Released(r.at(t), id)
  {
    forall v: nat | t <= v ensures WillBeAble(r, id, t, v) {
      SpinWaitAbleAgain(r, n, t, id, v);
    }
    var u := NextTurn(r, id, t);
    QuietTurn(r, n, u, id);
    QuietDrifts(r, n, t, u + 1);
    ReaderNotReleased(r, n, u + 1, id);
  }

  lemma NobodyReleased(r: Timed, n: nat, t: nat, id: nat)
    requires Stalled(r, n) && n <= t && id < r.p.T == |r.at(t).children|
    ensures !Released(r.at(t), id)
  {
    var pc := r.at(t).children[id].pc;
    if pc.SpinRead? {
      ReaderNotReleased(r, n, t, id);
    } else if pc.SpinWait? {
      WaiterNotReleased(r, n, t, id);
    } else if pc.SpinPost? {
      var u := InsiderMoves(r, n, t, id);
      QuietDrifts(r, n, t, u + 1);
      WaiterNotReleased(r, n, u + 1, id);
    }
  }

  // -------------------------------------------- the parent comes round to its tests

  /** A poll takes the parent nearer to its next test, unless it was that test. */
  lemma PollAdvances(p: Program, s: State)
    requires |s.children| == p.T && ParentEnabled(s) && Polls(p, s, p.T)
    ensures s.parent.pc.BarrierTest? || ToBarrierTest(ParentStep(p, s).parent.pc) < ToBarrierTest(s.parent.pc)
    ensures s.parent.pc.DoneTest? || ToDoneTest(ParentStep(p, s).parent.pc) < ToDoneTest(s.parent.pc)
  {
  }

  lemma FullTestFlips(p: Program, s: State)
    requires ParentOk(p, s) && |s.children| == p.T && s.parent.pc.BarrierTest? && s.bCount == p.T
    ensures !Polls(p, s, p.T)
  {
  }

  lemma ParentOkAt(r: Timed, t: nat)
    requires IsRun(r)
    ensures ParentOk(r.p, r.at(t))
  {
    assert Follows(r, t);
  }

  lemma {:induction false} NotAllArrived(r: Timed, n: nat, t: nat)
    requires Stalled(r, n) && n <= t
    ensures r.at(t).bCount != r.p.T
    decreases ToBarrierTest(r.at(t).parent.pc)
  {
    if r.at(t).bCount == r.p.T {
      var u := ParentTurns(r, n, t);
      QuietDrifts(r, n, t, u);
      QuietDrifts(r, n, t, u + 1);
      PollAdvances(r.p, r.at(u));
      if r.at(u).parent.pc.BarrierTest? {
        ParentOkAt(r, u);
        FullTestFlips(r.p, r.at(u));
      }
      NotAllArrived(r, n, u + 1);
    }
  }

  lemma {:induction false} NotAllGone(r: Timed, n: nat, t: nat)
    requires Stalled(r, n) && n <= t
    ensures r.at(t).count != 0
    decreases ToDoneTest(r.at(t).parent.pc)
  {
    if r.at(t).count == 0 {
      var u := ParentTurns(r, n, t);
      QuietDrifts(r, n, t, u);
      QuietDrifts(r, n, t, u + 1);
      PollAdvances(r.p, r.at(u));
      NotAllGone(r, n, u + 1);
    }
  }

  lemma NoStall(r: Timed, n: nat)
    ensures !Stalled(r, n)
  {
    if Stalled(r, n) {
      var s := r.at(n);
      assert Follows(r, n);
      forall id | 0 <= id < r.p.T
        ensures (InSpin(s.children[id]) && !Released(s, id)) || s.children[id].pc.ChildExited?
      {
        NobodyWaits(r, n, n, id);
        NobodyReleased(r, n, n, id);
      }
      if id :| 0 <= id < r.p.T && InSpin(s.children[id]) {
        AllSpinningMeansFull(r.p, s, id);
        NotAllArrived(r, n, n);
      } else {
        AllGoneMeansZero(r.p, s);
        NotAllGone(r, n, n);
      }
    }
  }

  lemma AllGoneMeansZero(p: Program, s: State)
    requires Shape(p, s) && CountsOk(p, s) && forall id :: 0 <= id < p.T ==> s.children[id].pc.ChildExited?
    ensures s.count == 0
  {
    forall j | 0 <= j < p.T ensures LeftBits(s)[j] == 1 {
    }
    SumOfBits(LeftBits(s));
  }

  // ------------------------------------------------------------- main result

  ghost function MeasureAt(r: Timed, t: nat): nat {
    if r.at(t).flips <= r.p.n then Measure(r.p, r.at(t)) else 0
  }

  lemma MeasureStep(r: Timed, t: nat)
    requires IsRun(r)
    ensures if UsefulAt(r, t) then MeasureAt(r, t + 1) < MeasureAt(r, t) else MeasureAt(r, t + 1) == MeasureAt(r, t)
  {
    assert Follows(r, t) && Follows(r, t + 1);
    if Takes(r, r.turn(t), t) {
      StepMeasure(r.p, r.at(t), r.turn(t));
    }
  }

  lemma MeasureNeverRises(r: Timed, t: nat, u: nat)
    requires IsRun(r) && t <= u
    ensures MeasureAt(r, u) <= MeasureAt(r, t)
  {
    var bound := MeasureAt(r, t);
    var P := (v: nat) => MeasureAt(r, v) <= bound;
    forall v: nat | P(v) ensures P(v + 1) {
      MeasureStep(r, v);
    }
    Always(P, t, u);
  }

  /** The useful steps of any run come to an end. */
  lemma {:induction false} Settles(r: Timed, t: nat) returns (n: nat)
    requires IsRun(r)
    ensures t <= n && Quiet(r, n)
    decreases MeasureAt(r, t)
  {
    if u: nat :| t <= u && UsefulAt(r, u) {
      MeasureNeverRises(r, t, u);
      MeasureStep(r, u);
      n := Settles(r, u + 1);
    } else {
      n := t;
    }
  }

  /** Every fair run ends, with the matrix that n rounds give: the closure if T divides n. */
  lemma FairRunsFinish(r: Timed) returns (t: nat)
    requires IsRun(r) && Fair(r)
    ensures r.at(t).parent.pc.ParentExited?
    ensures AtRound(r.p.ToJob(), r.at(t).matrix, r.p.n)
    ensures r.p.ToJob().Valid() && r.p.n % r.p.T == 0 ==> HoldsClosure(r.p.ToJob(), r.at(t).matrix)
  {
    var n := Settles(r, 0);
    NoStall(r, n);
    t :| n <= t && !Going(r, t);
    assert Follows(r, t);
    ExitedAtRoundN(r.p, r.at(t));
    FinishedIsClosureIff(r.p.ToJob(), r.at(t).matrix);
    if r.p.ToJob().Valid() && r.p.n % r.p.T == 0 {
      CoveredFits(r.p.n, r.p.T);
      ClosureOfJob(r.p.ToJob());
    }
  }

  // --------------------------------------------------- ending is being fair

  ghost predicate Dead(p: Program, s: State) {
    Shape(p, s) && forall a: nat :: a <= p.T ==> !Able(p, s, a)
  }

  ghost predicate DoneIsLastAt(r: Timed, t: nat) {
    |r.at(t).children| == r.p.T && DoneIsLast(r.p, r.at(t))
  }

  lemma DoneKeepsLast(r: Timed, t: nat)
    requires IsRun(r) && DoneIsLastAt(r, t)
    ensures DoneIsLastAt(r, t + 1)
  {
    assert Follows(r, t);
    ActKeepsDoneIsLast(r.p, r.at(t), r.turn(t));
  }

  lemma DoneStaysLast(r: Timed, t: nat)
    requires IsRun(r)
    ensures DoneIsLastAt(r, t)
  {
    var P := (v: nat) => DoneIsLastAt(r, v);
    forall v: nat | P(v) ensures P(v + 1) {
      DoneKeepsLast(r, v);
    }
    Always(P, 0, t);
  }

  /** After the parent's exit nobody can act any more. */
  lemma ExitIsDead(r: Timed, t: nat)
    requires IsRun(r) && !Going(r, t)
    ensures Dead(r.p, r.at(t))
  {
    DoneStaysLast(r, t);
    assert Follows(r, t);
    assert ParentOk(r.p, r.at(t));
  }

  /** Once in the state of time n, a step away from it is impossible at time t. */
  ghost predicate Stuck(r: Timed, n: nat, t: nat) {
    r.at(t) == r.at(n) ==> r.at(t + 1) == r.at(n)
  }

  lemma DeadIsStuck(r: Timed, n: nat, t: nat)
    requires IsRun(r) && Dead(r.p, r.at(n))
    ensures Stuck(r, n, t)
  {
    assert Follows(r, t);
    assert r.turn(t) <= r.p.T ==> !Able(r.p, r.at(n), r.turn(t));
  }

  lemma {:induction false} StuckStays(r: Timed, n: nat, t: nat)
    requires n <= t && forall v: nat :: Stuck(r, n, v)
    ensures r.at(t) == r.at(n)
    decreases t
  {
    if n < t {
      StuckStays(r, n, t - 1);
      assert Stuck(r, n, t - 1);
    }
  }

  lemma DeadStays(r: Timed, n: nat, t: nat)
    requires IsRun(r) && Dead(r.p, r.at(n)) && n <= t
    ensures r.at(t) == r.at(n)
  {
    forall v: nat ensures Stuck(r, n, v) {
      DeadIsStuck(r, n, v);
    }
    StuckStays(r, n, t);
  }

  lemma DeadIsFair(r: Timed, n: nat)
    requires IsRun(r) && Dead(r.p, r.at(n))
    ensures Fair(r)
  {
    forall a: nat | a <= r.p.T ensures FairTo(r, a) {
      forall u: nat | n <= u ensures !Able(r.p, r.at(u), a) {
        DeadStays(r, n, u);
      }
      assert !AbleFrom(r, a, n);
    }
  }

  /** Exactly the strongly fair runs bring the parent to its exit. */
  lemma EndsIffFair(r: Timed)
    requires IsRun(r)
    ensures (exists t: nat :: !Going(r, t)) <==> Fair(r)
  {
    if t: nat :| !Going(r, t) {
      ExitIsDead(r, t);
      DeadIsFair(r, t);
    }
    if Fair(r) {
      var t := FairRunsFinish(r);
      assert !Going(r, t);
    }
  }

  /** An endless run passes through the states its finite schedules reach. */
  lemma {:induction false} TimedIsReached(r: Timed, sched: seq<nat>, t: nat)
    requires IsRun(r) && t <= |sched| && forall v: nat :: v < |sched| ==> r.turn(v) == sched[v]
    ensures r.at(t) == Reached(r.p, sched[..t])
    decreases t
  {
    InitInv(r.p);
    if t == 0 {
      assert sched[..0] == [];
    } else {
      TimedIsReached(r, sched, t - 1);
      RunOneMore(r.p, Init(r.p), sched, t - 1);
      assert Follows(r, t - 1);
    }
  }

  /** The turns of sched, then actor a's for ever. */
  ghost function Then(sched: seq<nat>, a: nat): nat -> nat {
    (t: nat) => if t < |sched| then sched[t] else a
  }

  lemma ThenRuns(p: Program, sched: seq<nat>, a: nat) returns (r: Timed)
    ensures r.p == p && r.turn == Then(sched, a) && IsRun(r) && r.at(|sched|) == Reached(p, sched)
  {
    r := RunOf(p, Then(sched, a));
    EveryChoiceIsARun(p, Then(sched, a));
    TimedIsReached(r, sched, |sched|);
    assert sched[..|sched|] == sched;
  }

  /** Every program has a run that ends, and so a fair one. */
  lemma FairRunExists(p: Program) returns (r: Timed)
    ensures r.p == p && IsRun(r) && Fair(r)
  {
    InitInv(p);
    var sched := CanFinish(p, Init(p));
    r := ThenRuns(p, sched, 0);
    assert !Going(r, |sched|);
    EndsIffFair(r);
  }
}
