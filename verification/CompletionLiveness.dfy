/** Endless runs of a completion: if schedule() comes back to every waiter that stays marked
    running, the completions issued while enough waiters are queued are all returned. */
module CompletionLiveness {
  import opened WaitQueue
  import opened Completion

  /** What happens at each time, and the state before it. */
  datatype Timed = Timed(turn: nat -> Op, at: nat -> State)

  ghost predicate Follows(r: Timed, t: nat) {
    Inv(r.at(t)) && r.at(t + 1) == Act(r.at(t), r.turn(t))
  }

  ghost predicate IsRun(r: Timed) {
    forall t: nat :: Follows(r, t)
  }

  /** A queued waiter marked running: schedule() may come back to it. */
  ghost predicate Runnable(s: State, p: Pid) {
    exists t :: 0 <= t < |s.wait| && s.wait[t].task == p && p < |s.world.states| && s.world.states[p] == Running
  }

  ghost predicate StaysRunnable(r: Timed, p: Pid, t: nat) {
    forall u: nat :: t <= u ==> Runnable(r.at(u), p)
  }

  ghost predicate ResumedFrom(r: Timed, p: Pid, t: nat) {
    exists u: nat :: t <= u && r.turn(u) == Resume(p)
  }

  /** A waiter that stays runnable is resumed. Nothing is asked for the others. */
  ghost predicate Fair(r: Timed) {
    forall p: Pid, t: nat :: StaysRunnable(r, p, t) ==> ResumedFrom(r, p, t)
  }

  // ------------------------------------------------------------- single steps

  predicate Returns(s: State, s': State) {
    s'.returned != s.returned
  }

  /** Nothing is taken away but by a return, which takes one completion and at most one
      waiter. */
  ghost predicate Advances(s: State, s': State) {
    if Returns(s, s') then
      s'.returned == s.returned + 1 && s'.done + 1 >= s.done && |s'.wait| + 1 >= |s.wait|
    else
      s'.done >= s.done && |s'.wait| >= |s.wait|
  }

  lemma ActAdvances(s: State, op: Op)
    requires Inv(s)
    ensures Advances(s, Act(s, op))
  {
  }

  /** With a completion pending, whoever comes back returns. */
  lemma ResumeReturns(s: State, p: Pid)
    requires Inv(s) && s.done > 0 && Runnable(s, p)
    ensures Returns(s, Act(s, Resume(p)))
  {
    assert InQueue(s.wait, p);
  }

  /** Until somebody returns, a runnable waiter stays runnable. */
  lemma QuietKeepsRunnable(s: State, op: Op, p: Pid)
    requires Inv(s) && s.done > 0 && Runnable(s, p) && !Returns(s, Act(s, op))
    ensures Runnable(Act(s, op), p)
  {
    var t :| 0 <= t < |s.wait| && s.wait[t].task == p && p < |s.world.states| && s.world.states[p] == Running;
    assert InQueue(s.wait, p);
    match op {
      case Complete =>
        var stop := CompleteWakesFront(s);
      case _ =>
    }
    assert Act(s, op).wait[t].task == p;
  }

  // ------------------------------------------------------------- endless runs

  ghost predicate ReturnsAt(r: Timed, t: nat) {
    Returns(r.at(t), r.at(t + 1))
  }

  /** Since time t nobody has returned, so nothing has been taken away. */
  ghost predicate NoLess(r: Timed, t: nat, u: nat) {
    && r.at(u).returned == r.at(t).returned
    && r.at(u).done >= r.at(t).done && |r.at(u).wait| >= |r.at(t).wait|
  }

  lemma {:induction false} QuietTakesNothing(r: Timed, t: nat, u: nat)
    requires IsRun(r) && t <= u && forall v: nat :: t <= v < u ==> !ReturnsAt(r, v)
    ensures NoLess(r, t, u)
    decreases u
  {
    if t < u {
      QuietTakesNothing(r, t, u - 1);
      assert Follows(r, u - 1) && !ReturnsAt(r, u - 1);
      ActAdvances(r.at(u - 1), r.turn(u - 1));
    }
  }

  lemma QuietStep(r: Timed, p: Pid, t: nat)
    requires IsRun(r) && !ReturnsAt(r, t) && r.at(t).done > 0 && Runnable(r.at(t), p)
    ensures r.at(t + 1).done > 0 && Runnable(r.at(t + 1), p)
  {
    assert Follows(r, t);
    ActAdvances(r.at(t), r.turn(t));
    QuietKeepsRunnable(r.at(t), r.turn(t), p);
  }

  /** A runnable waiter only ceases to be one after a return. */
  lemma {:induction false} LostAfterReturn(r: Timed, p: Pid, t: nat, u: nat) returns (v: nat)
    requires IsRun(r) && t <= u && r.at(t).done > 0 && Runnable(r.at(t), p) && !Runnable(r.at(u), p)
    ensures t <= v < u && ReturnsAt(r, v)
    decreases u - t
  {
    if ReturnsAt(r, t) {
      v := t;
    } else {
      QuietStep(r, p, t);
      v := LostAfterReturn(r, p, t + 1, u);
    }
  }

  /** A runnable waiter returns when it is resumed, or somebody has returned before. */
  lemma {:induction false} ReturnedWhenResumed(r: Timed, p: Pid, t: nat, u: nat) returns (v: nat)
    requires IsRun(r) && t <= u && r.at(t).done > 0 && Runnable(r.at(t), p) && r.turn(u) == Resume(p)
    ensures t <= v <= u && ReturnsAt(r, v)
    decreases u - t
  {
    v := t;
    if t == u {
      assert Follows(r, t);
      ResumeReturns(r.at(t), p);
    } else if !ReturnsAt(r, t) {
      QuietStep(r, p, t);
      v := ReturnedWhenResumed(r, p, t + 1, u);
    }
  }

  lemma {:induction false} FirstReturn(r: Timed, t: nat, last: nat) returns (u: nat)
    requires t <= last && ReturnsAt(r, last)
    ensures t <= u <= last && ReturnsAt(r, u) && forall v: nat :: t <= v < u ==> !ReturnsAt(r, v)
    decreases last - t
  {
    if ReturnsAt(r, t) {
      u := t;
    } else {
      u := FirstReturn(r, t + 1, last);
    }
  }

  /** Somebody returns while a completion is pending and a waiter queued. */
  lemma SomebodyReturns(r: Timed, t: nat) returns (last: nat)
    requires IsRun(r) && Fair(r) && r.at(t).done > 0 && r.at(t).wait != []
    ensures t <= last && ReturnsAt(r, last)
  {
    assert Follows(r, t);
    var i := RunningTaker(r.at(t));
    var p := r.at(t).wait[i].task;
    assert Runnable(r.at(t), p);
    if StaysRunnable(r, p, t) {
      assert ResumedFrom(r, p, t);
      var u: nat :| t <= u && r.turn(u) == Resume(p);
      last := ReturnedWhenResumed(r, p, t, u);
    } else {
      var u: nat :| t <= u && !Runnable(r.at(u), p);
      last := LostAfterReturn(r, p, t, u);
    }
  }

  /** Of the completions pending at time t, as many are returned in time as waiters were
      queued then. */
  lemma {:induction false} PendingAreReturned(r: Timed, t: nat, k: nat) returns (u: nat)
    requires IsRun(r) && Fair(r) && k <= r.at(t).done && k <= |r.at(t).wait|
    ensures t <= u && r.at(u).returned >= r.at(t).returned + k
    decreases k
  {
    u := t;
    if k > 0 {
      var last := SomebodyReturns(r, t);
      var v := FirstReturn(r, t, last);
      QuietTakesNothing(r, t, v);
      assert Follows(r, v);
      ActAdvances(r.at(v), r.turn(v));
      u := PendingAreReturned(r, v + 1, k - 1);
    }
  }

  /** Every completion issued by a time at which enough waiters are queued is returned. */
  lemma CompletionsAreReturned(r: Timed, t: nat) returns (u: nat)
    requires IsRun(r) && Fair(r) && r.at(t).done <= |r.at(t).wait|
    ensures t <= u && r.at(u).returned >= r.at(t).completed
  {
    u := PendingAreReturned(r, t, r.at(t).done);
    assert Follows(r, t);
  }
}
