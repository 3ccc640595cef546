/** Completions of sched.c: complete and wait_for_completion over an exclusive wait queue.

    Each stretch under x->wait.lock is one step. schedule() may return to a waiter at any
    time, whatever its state; other code may wake any task, change the state of any task
    that is not queued here, and take tasks off the run queue. */
module Completion {
  import opened Sync
  import opened WaitQueue

  const AnySleep: Mode := {Uninterruptible, Interruptible}

  /** `completed` and `returned` count finished calls; no step tests them. */
  datatype State = State(done: nat, wait: seq<Entry>, world: World, completed: nat, returned: nat)

  datatype Op =
    | Complete                         // complete(x)
    | Wait(p: Pid)                     // p calls wait_for_completion(x) and takes the lock
    | Resume(p: Pid)                   // schedule() returns to queued p, which retakes the lock
    | WakeUp(p: Pid)                   // wake_up_process from elsewhere
    | SetState(p: Pid, to: TaskState)  // a task not queued here changes its own state
    | Dequeue(p: Pid)                  // a task leaves the run queue

  function CompleteStep(s: State): State
    requires Tasks(s.world, s.wait)
  {
    s.(done := s.done + 1, completed := s.completed + 1, world := WakeScan(s.world, s.wait, AnySleep, 1))
  }

  function Asleep(w: World, p: Pid): World
    requires p < |w.states|
  {
    w.(states := w.states[p := Uninterruptible])
  }

  function WaitStep(s: State, p: Pid): State
    requires p < |s.world.states|
  {
    if s.done == 0 then s.(wait := s.wait + [Entry(p, true)], world := Asleep(s.world, p))
    else s.(done := s.done - 1, returned := s.returned + 1)
  }

  function ResumeStep(s: State, i: nat): State
    requires i < |s.wait| && s.wait[i].task < |s.world.states|
  {
    if s.done == 0 then s.(world := Asleep(s.world, s.wait[i].task))
    else s.(wait := s.wait[..i] + s.wait[i + 1..], done := s.done - 1, returned := s.returned + 1)
  }

  ghost function Act(s: State, op: Op): State
    requires Tasks(s.world, s.wait)
  {
    match op
    case Complete => CompleteStep(s)
    case Wait(p) => if p < |s.world.states| && !InQueue(s.wait, p) then WaitStep(s, p) else s
    case Resume(p) => if InQueue(s.wait, p) then ResumeStep(s, Position(s.wait, p)) else s
    case WakeUp(p) => if p < |s.world.states| then s.(world := s.world.TryToWakeUp(p)) else s
    case SetState(p, to) =>
      if p < |s.world.states| && !InQueue(s.wait, p) then
        s.(world := s.world.(states := s.world.states[p := to]))
      else s
    case Dequeue(p) =>
      if p in s.world.runqueue then s.(world := s.world.(runqueue := Without(s.world.runqueue, p))) else s
  }

  ghost function Position(q: seq<Entry>, p: Pid): (i: nat)
    requires InQueue(q, p)
    ensures i < |q| && q[i].task == p
  {
    var i :| 0 <= i < |q| && q[i].task == p; i
  }

  // -------------------------------------------------------------- invariant

  predicate Awake(s: State, t: nat)
    requires t < |s.wait| && Tasks(s.world, s.wait)
  {
    s.world.states[s.wait[t].task] == Running
  }

  ghost function AwakeBits(s: State): (b: seq<nat>)
    requires Tasks(s.world, s.wait)
    ensures |b| == |s.wait| && Bits(b)
  {
    seq(|s.wait|, t requires 0 <= t < |s.wait| => if Awake(s, t) then 1 else 0)
  }

  ghost predicate SomebodySleeps(s: State)
    requires Tasks(s.world, s.wait)
  {
    exists t :: 0 <= t < |s.wait| && !Awake(s, t)
  }

  ghost predicate QueueOk(s: State) {
    && Tasks(s.world, s.wait)
    && Distinct(s.wait)
    && (forall t :: 0 <= t < |s.wait| ==> s.wait[t].exclusive)
    && (forall t :: 0 <= t < |s.wait| ==> Awake(s, t) || s.world.states[s.wait[t].task] == Uninterruptible)
  }

  ghost predicate Inv(s: State) {
    && QueueOk(s)
    && (SomebodySleeps(s) ==> s.done <= Sum(AwakeBits(s)))
    && s.completed == s.done + s.returned
  }

  function Init(tasks: seq<TaskState>, runqueue: seq<Pid>): State {
    State(0, [], World(tasks, runqueue), 0, 0)
  }

  lemma {:induction false} SumGrows(a: seq<nat>, b: seq<nat>)
    requires |a| == |b| && forall t :: 0 <= t < |a| ==> a[t] <= b[t]
    ensures Sum(a) <= Sum(b)
    ensures (exists t :: 0 <= t < |a| && a[t] < b[t]) ==> Sum(a) < Sum(b)
  {
    if a != [] {
      assert forall t :: 0 <= t < |a| - 1 ==> a[1..][t] == a[t + 1] && b[1..][t] == b[t + 1];
      SumGrows(a[1..], b[1..]);
      if t :| 0 <= t < |a| && a[t] < b[t] {
        if t > 0 { assert a[1..][t - 1] < b[1..][t - 1]; }
      }
    }
  }

  /** complete() turns at least one sleeping waiter, if there is one, into a running one,
      even when try_to_wake_up returns 0 on some of them. */
  lemma CompleteWakesOne(s: State)
    requires QueueOk(s)
    ensures var s' := CompleteStep(s);
            && QueueOk(s')
            && Sum(AwakeBits(s)) <= Sum(AwakeBits(s'))
            && (SomebodySleeps(s) ==> Sum(AwakeBits(s)) < Sum(AwakeBits(s')))
            && (SomebodySleeps(s') ==> SomebodySleeps(s))
  {
    var s' := CompleteStep(s);
    var stop := CompleteWakesFront(s);
    if SomebodySleeps(s) {
      var t :| 0 <= t < |s.wait| && !Awake(s, t);
      if stop < |s.wait| { t := stop - 1; }
      assert AwakeBits(s)[t] < AwakeBits(s')[t];
    }
    if SomebodySleeps(s') {
      var t :| 0 <= t < |s.wait| && !Awake(s', t);
      assert !Awake(s, t);
    }
    SumGrows(AwakeBits(s), AwakeBits(s'));
  }

  /** complete() makes the waiters of a front part of the queue running, up to the first
      one whose wakeup succeeds. */
  lemma CompleteWakesFront(s: State) returns (stop: nat)
    requires QueueOk(s)
    ensures |CompleteStep(s).world.states| == |s.world.states| && stop <= |s.wait|
    ensures stop < |s.wait| ==> stop > 0 && !Awake(s, stop - 1)
    ensures forall t :: 0 <= t < |s.wait| ==>
              CompleteStep(s).world.states[s.wait[t].task]
              == if t < stop then Running else s.world.states[s.wait[t].task]
  {
    stop := ScanWakesPrefix(s.world, s.wait, AnySleep, 1);
    forall t | 0 <= t < |s.wait|
      ensures CompleteStep(s).world.states[s.wait[t].task]
              == if t < stop then Running else s.world.states[s.wait[t].task]
    {
      WokenIffInFront(s, stop, t);
    }
  }

  lemma WokenIffInFront(s: State, stop: nat, t: nat)
    requires QueueOk(s) && stop <= |s.wait| && t < |s.wait|
    ensures MatchedBy(s.world, s.wait[..stop], AnySleep, s.wait[t].task) <==> t < stop && !Awake(s, t)
  {
    if t < stop && !Awake(s, t) {
      assert s.wait[..stop][t] == s.wait[t] && Matches(s.world, s.wait[..stop][t], AnySleep);
    }
  }

  lemma WaitKeepsInv(s: State, p: Pid)
    requires Inv(s) && p < |s.world.states| && !InQueue(s.wait, p)
    ensures Inv(WaitStep(s, p))
  {
    if s.done > 0 {
      assert AwakeBits(WaitStep(s, p)) == AwakeBits(s);
      if SomebodySleeps(WaitStep(s, p)) {
        var t :| 0 <= t < |s.wait| && !Awake(WaitStep(s, p), t);
        assert !Awake(s, t);
      }
    }
  }

  lemma {:induction false} SumWithout(b: seq<nat>, i: nat)
    requires i < |b|
    ensures Sum(b[..i] + b[i + 1..]) + b[i] == Sum(b)
  {
    if i == 0 {
      assert b[..0] + b[1..] == b[1..];
    } else {
      assert (b[..i] + b[i + 1..])[1..] == b[1..][..i - 1] + b[1..][i..];
      SumWithout(b[1..], i - 1);
    }
  }

  lemma ResumeKeepsQueue(s: State, i: nat)
    requires QueueOk(s) && i < |s.wait|
    ensures QueueOk(ResumeStep(s, i))
  {
    var s' := ResumeStep(s, i);
    if s.done > 0 {
      forall t | 0 <= t < |s'.wait| ensures s'.wait[t] == s.wait[if t < i then t else t + 1] {
      }
    }
  }

  /** A waiter that goes on returning takes at most itself out of the running ones. */
  lemma ResumeKeepsInv(s: State, i: nat)
    requires Inv(s) && i < |s.wait|
    ensures Inv(ResumeStep(s, i))
  {
    ResumeKeepsQueue(s, i);
    if s.done > 0 {
      UnqueuedBits(s, i, ResumeStep(s, i));
    }
  }

  lemma UnqueuedBits(s: State, i: nat, s': State)
    requires Tasks(s.world, s.wait) && Tasks(s'.world, s'.wait) && i < |s.wait|
    requires s'.wait == s.wait[..i] + s.wait[i + 1..] && s'.world == s.world
    ensures Sum(AwakeBits(s)) <= Sum(AwakeBits(s')) + 1
    ensures SomebodySleeps(s') ==> SomebodySleeps(s)
  {
    assert AwakeBits(s') == AwakeBits(s)[..i] + AwakeBits(s)[i + 1..];
    SumWithout(AwakeBits(s), i);
    if SomebodySleeps(s') {
      var t :| 0 <= t < |s'.wait| && !Awake(s', t);
      assert !Awake(s, if t < i then t else t + 1);
    }
  }

  lemma WakeUpKeepsInv(s: State, p: Pid)
    requires Inv(s) && p < |s.world.states|
    ensures Inv(s.(world := s.world.TryToWakeUp(p)))
  {
    var s' := s.(world := s.world.TryToWakeUp(p));
    SumGrows(AwakeBits(s), AwakeBits(s'));
    if SomebodySleeps(s') {
      var t :| 0 <= t < |s'.wait| && !Awake(s', t);
      assert !Awake(s, t);
    }
  }

  lemma SetStateKeepsInv(s: State, p: Pid, to: TaskState)
    requires Inv(s) && p < |s.world.states| && !InQueue(s.wait, p)
    ensures Inv(s.(world := s.world.(states := s.world.states[p := to])))
  {
    var s' := s.(world := s.world.(states := s.world.states[p := to]));
    assert AwakeBits(s') == AwakeBits(s);
    if SomebodySleeps(s') {
      var t :| 0 <= t < |s'.wait| && !Awake(s', t);
      assert !Awake(s, t);
    }
  }

  lemma ActKeepsInv(s: State, op: Op)
    requires Inv(s)
    ensures Inv(Act(s, op))
  {
    match op {
      case Complete =>
        CompleteWakesOne(s);
      case Wait(p) =>
        if p < |s.world.states| && !InQueue(s.wait, p) { WaitKeepsInv(s, p); }
      case Resume(p) =>
        if InQueue(s.wait, p) { ResumeKeepsInv(s, Position(s.wait, p)); }
      case WakeUp(p) =>
        if p < |s.world.states| { WakeUpKeepsInv(s, p); }
      case SetState(p, to) =>
        if p < |s.world.states| && !InQueue(s.wait, p) { SetStateKeepsInv(s, p, to); }
      case Dequeue(p) =>
        if p in s.world.runqueue {
          assert AwakeBits(Act(s, op)) == AwakeBits(s);
          if SomebodySleeps(Act(s, op)) {
            var t :| 0 <= t < |s.wait| && !Awake(Act(s, op), t);
            assert !Awake(s, t);
          }
        }
    }
  }

  // ------------------------------------------------------------- whole runs

  ghost function Run(s: State, ops: seq<Op>): (s': State)
    requires Inv(s)
    ensures Inv(s')
    decreases |ops|
  {
    if ops == [] then s
    else
      ActKeepsInv(s, ops[0]);
      Run(Act(s, ops[0]), ops[1..])
  }

  ghost function Reached(tasks: seq<TaskState>, runqueue: seq<Pid>, ops: seq<Op>): (s: State)
    ensures Inv(s)
  {
    Run(Init(tasks, runqueue), ops)
  }

  /** A pending completion with waiters queued has a running taker. */
  lemma RunningTaker(s: State) returns (t: nat)
    requires Inv(s) && s.done > 0 && s.wait != []
    ensures t < |s.wait| && Awake(s, t)
  {
    t := 0;
    if SomebodySleeps(s) {
      SumOfBits(AwakeBits(s));
      t :| 0 <= t < |s.wait| && AwakeBits(s)[t] != 0;
    }
  }

  /** No lost wakeup: if a queued waiter still sleeps, at least `done` of the queued
      waiters are already running; so a pending completion always has a running taker. */
  lemma NoLostWakeup(tasks: seq<TaskState>, runqueue: seq<Pid>, ops: seq<Op>)
    ensures var s := Reached(tasks, runqueue, ops);
            && Tasks(s.world, s.wait)
            && (SomebodySleeps(s) ==> s.done <= Sum(AwakeBits(s)))
            && (s.done > 0 && s.wait != [] ==> exists t :: 0 <= t < |s.wait| && Awake(s, t))
  {
    var s := Reached(tasks, runqueue, ops);
    if s.done > 0 && s.wait != [] {
      var t := RunningTaker(s);
    }
  }

  /** Every return is paid for by one complete(), and none is paid for twice. */
  lemma CompletionsConserved(tasks: seq<TaskState>, runqueue: seq<Pid>, ops: seq<Op>)
    ensures var s := Reached(tasks, runqueue, ops);
            s.returned + s.done == s.completed && s.returned <= s.completed
  {
  }

  ghost predicate CanReturn(s: State, p: Pid)
    requires Inv(s)
  {
    Act(s, Resume(p)).returned == s.returned + 1
  }

  /** Whenever completions are pending and waiters are queued, some waiter that is
      marked running returns as soon as it is scheduled. */
  lemma PendingHasTaker(tasks: seq<TaskState>, runqueue: seq<Pid>, ops: seq<Op>) returns (p: Pid)
    requires Reached(tasks, runqueue, ops).done > 0 && Reached(tasks, runqueue, ops).wait != []
    ensures var s := Reached(tasks, runqueue, ops);
            InQueue(s.wait, p) && p < |s.world.states| && s.world.states[p] == Running && CanReturn(s, p)
  {
    var s := Reached(tasks, runqueue, ops);
    var t := RunningTaker(s);
    p := s.wait[t].task;
  }

  // ------------------------------------------------ first come, first served

  /** Who is queued: a caller that found nothing done, until it finds something done. */
  lemma {:induction false} QueueMembers(s: State, op: Op, p: Pid)
    requires Inv(s)
    ensures InQueue(Act(s, op).wait, p) <==>
            (InQueue(s.wait, p) && !(op == Resume(p) && s.done > 0))
            || (op == Wait(p) && s.done == 0 && p < |s.world.states|)
  {
    var s' := Act(s, op);
    if op.Wait? && s'.wait != s.wait {
      assert s'.wait[|s.wait|].task == op.p;
      if InQueue(s.wait, p) {
        var t :| 0 <= t < |s.wait| && s.wait[t].task == p;
        assert s'.wait[t].task == p;
      }
    } else if op.Resume? && s'.wait != s.wait {
      LeavesOthers(s.wait, Position(s.wait, op.p), p);
    }
  }

  lemma {:induction false} LeavesOthers(q: seq<Entry>, i: nat, p: Pid)
    requires Distinct(q) && i < |q|
    ensures InQueue(q[..i] + q[i + 1..], p) <==> InQueue(q, p) && p != q[i].task
  {
    var r := q[..i] + q[i + 1..];
    forall t | 0 <= t < |r| ensures r[t] == q[if t < i then t else t + 1] {
    }
    if t :| 0 <= t < |q| && q[t].task == p && p != q[i].task {
      assert r[if t < i then t else t - 1].task == p;
    }
  }

  /** A caller that finds nothing done, on its way in or coming back from schedule(), goes
      to sleep uninterruptibly, stays queued, and touches nobody else. */
  lemma SleepsUntilDone(s: State, op: Op, p: Pid, q: Pid)
    requires Inv(s) && s.done == 0 && p < |s.world.states| && q < |s.world.states|
    requires op == (if InQueue(s.wait, p) then Resume(p) else Wait(p))
    ensures var s' := Act(s, op);
            && s'.world.runqueue == s.world.runqueue && |s'.world.states| == |s.world.states|
            && s'.world.states[q] == (if q == p then Uninterruptible else s.world.states[q])
            && s'.done == 0 && s'.returned == s.returned && InQueue(s'.wait, p)
  {
    QueueMembers(s, op, p);
  }

  /** One that finds a completion takes it, returns, and touches no task. */
  lemma TakesWhatIsDone(s: State, op: Op, p: Pid)
    requires Inv(s) && s.done > 0 && p < |s.world.states|
    requires op == (if InQueue(s.wait, p) then Resume(p) else Wait(p))
    ensures var s' := Act(s, op);
            s'.world == s.world && s'.done == s.done - 1 && s'.returned == s.returned + 1 && !InQueue(s'.wait, p)
  {
    QueueMembers(s, op, p);
  }

  /** p stands before q, or q is not queued. */
  ghost predicate NotBehind(wait: seq<Entry>, p: Pid, q: Pid) {
    forall i, j :: 0 <= i < |wait| && 0 <= j < |wait| && wait[i].task == p && wait[j].task == q ==> i < j
  }

  lemma {:induction false} ActKeepsOrder(s: State, op: Op, p: Pid, q: Pid)
    requires Inv(s) && p != q && InQueue(s.wait, p) && NotBehind(s.wait, p, q)
    ensures NotBehind(Act(s, op).wait, p, q)
  {
    var s' := Act(s, op);
    if op.Resume? && s'.wait != s.wait {
      var k := Position(s.wait, op.p);
      forall t | 0 <= t < |s'.wait| ensures s'.wait[t] == s.wait[if t < k then t else t + 1] {
      }
    }
  }

  /** p is queued now and after each of the ops. */
  ghost predicate StaysQueued(s: State, ops: seq<Op>, p: Pid)
    requires Inv(s)
    decreases |ops|
  {
    if ops == [] then InQueue(s.wait, p)
    else
      ActKeepsInv(s, ops[0]);
      InQueue(s.wait, p) && StaysQueued(Act(s, ops[0]), ops[1..], p)
  }

  /** Whoever comes while p is queued stands behind p for as long as p stays queued. */
  lemma {:induction false} FirstComeFirst(s: State, ops: seq<Op>, p: Pid, q: Pid)
    requires Inv(s) && p != q && StaysQueued(s, ops, p) && NotBehind(s.wait, p, q)
    ensures InQueue(Run(s, ops).wait, p) && NotBehind(Run(s, ops).wait, p, q)
    decreases |ops|
  {
    if ops != [] {
      ActKeepsInv(s, ops[0]);
      ActKeepsOrder(s, ops[0], p, q);
      FirstComeFirst(Act(s, ops[0]), ops[1..], p, q);
    }
  }

  /** Over every run: a waiter that was not queued while p was, and is queued later with p
      still there, stands behind p. */
  lemma LaterWaitersStandBehind(tasks: seq<TaskState>, runqueue: seq<Pid>, before: seq<Op>, ops: seq<Op>,
                                p: Pid, q: Pid)
    requires p != q && StaysQueued(Reached(tasks, runqueue, before), ops, p)
    requires !InQueue(Reached(tasks, runqueue, before).wait, q)
    ensures var wait := Run(Reached(tasks, runqueue, before), ops).wait;
            InQueue(wait, p) && NotBehind(wait, p, q)
  {
    FirstComeFirst(Reached(tasks, runqueue, before), ops, p, q);
  }

  /** Entry t sleeps and is not on the run queue: its wakeup would succeed. */
  predicate Claims(w: World, q: seq<Entry>, t: nat)
    requires t < |q| && q[t].task < |w.states|
  {
    w.states[q[t].task] != Running && q[t].task !in w.runqueue
  }

  /** The queue's first claimant, or its length. */
  lemma {:induction false} FirstClaim(w: World, q: seq<Entry>) returns (first: nat)
    requires Tasks(w, q)
    ensures first <= |q| && (first < |q| ==> Claims(w, q, first))
    ensures forall t :: 0 <= t < first ==> !Claims(w, q, t)
  {
    first := 0;
    if q != [] && !Claims(w, q, 0) {
      var k := FirstClaim(w, q[1..]);
      first := k + 1;
      forall t | 1 <= t < first ensures !Claims(w, q, t) {
        assert !Claims(w, q[1..], t - 1);
      }
    }
  }

  /** A scan with one exclusive wakeup to give, over a queue of exclusive sleepers. */
  lemma {:induction false} OneWakeup(w: World, q: seq<Entry>, first: nat)
    requires Tasks(w, q) && Distinct(q) && first <= |q| && (first < |q| ==> Claims(w, q, first))
    requires forall t :: 0 <= t < |q| ==> q[t].exclusive
    requires forall t :: 0 <= t < |q| ==> w.states[q[t].task] in {Running, Uninterruptible, Interruptible}
    requires forall t :: 0 <= t < first ==> !Claims(w, q, t)
    ensures WakeScan(w, q, AnySleep, 1).runqueue == w.runqueue + if first < |q| then [q[first].task] else []
    ensures forall t :: 0 <= t < |q| ==>
              WakeScan(w, q, AnySleep, 1).states[q[t].task] == if t <= first then Running else w.states[q[t].task]
    decreases |q|
  {
    if q != [] {
      var w1 := if Matches(w, q[0], AnySleep) then w.TryToWakeUp(q[0].task) else w;
      if first == 0 {
        assert forall t :: 1 <= t < |q| ==> q[t].task != q[0].task;
      } else {
        assert !Claims(w, q, 0);
        assert forall t :: 0 <= t < |q| - 1 ==> q[1..][t] == q[t + 1] && q[t + 1].task != q[0].task;
        forall t | 0 <= t < first - 1 ensures !Claims(w1, q[1..], t) {
          assert !Claims(w, q, t + 1);
        }
        OneWakeup(w1, q[1..], first - 1);
        ScanSparesOthers(w1, q[1..], AnySleep, 1, q[0].task);
        assert forall t :: 1 <= t < |q| ==> q[t] == q[1..][t - 1];
      }
    }
  }

  /** complete() queues exactly the waiter that came first of those asleep off the run
      queue; those before it are marked running, those behind it are left as they are. */
  lemma CompleteServesFirst(s: State) returns (first: nat)
    requires Inv(s)
    ensures first <= |s.wait| && (first < |s.wait| ==> Claims(s.world, s.wait, first))
    ensures forall t :: 0 <= t < first ==> !Claims(s.world, s.wait, t)
    ensures var w' := CompleteStep(s).world;
            && w'.runqueue == s.world.runqueue + (if first < |s.wait| then [s.wait[first].task] else [])
            && |w'.states| == |s.world.states|
            && forall t :: 0 <= t < |s.wait| ==>
                 w'.states[s.wait[t].task] == if t <= first then Running else s.world.states[s.wait[t].task]
  {
    first := FirstClaim(s.world, s.wait);
    assert forall t :: 0 <= t < |s.wait| ==> Awake(s, t) || s.world.states[s.wait[t].task] == Uninterruptible;
    OneWakeup(s.world, s.wait, first);
  }

  /** Every task a wakeup without sync has queued is offered to reschedule_idle. */
  lemma {:induction false} AllOffered(queued: seq<Pid>, allowedHere: set<Pid>)
    ensures Offered(queued, false, allowedHere) == queued
    decreases |queued|
  {
    if queued != [] {
      AllOffered(queued[..|queued| - 1], allowedHere);
    }
  }

  // --------------------------------------------------- the code in place

  class CompletionVar {
    var done: nat
    var wait: seq<Entry>

    constructor ()
      ensures done == 0 && wait == []
    {
      done, wait := 0, [];
    }

    /** complete(x) under its lock. Whoever it queues is offered to reschedule_idle,
        wherever it may run. */
    method Complete(kernel: Kernel, allowedHere: set<Pid>) returns (ghost queued: seq<Pid>)
      requires kernel.Valid() && Tasks(kernel.View(), wait)
      modifies this`done, kernel`states, kernel`runqueue, kernel`nrRunning, kernel`offered
      ensures kernel.Valid()
      ensures forall c: nat, r: nat :: State(done, wait, kernel.View(), c + 1, r)
                == CompleteStep(State(old(done), wait, old(kernel.View()), c, r))
      ensures kernel.runqueue == old(kernel.runqueue) + queued
      ensures kernel.offered == old(kernel.offered) + queued
    {
      done := done + 1;
      queued := kernel.WakeUpCommon(wait, AnySleep, 1, false, allowedHere);
      AllOffered(queued, allowedHere);
    }

    /** wait_for_completion up to the unlock: returns whether the call is over. */
    method WaitBegin(kernel: Kernel, current: Pid) returns (over: bool)
      requires kernel.Valid() && current < |kernel.states|
      modifies this, kernel`states
      ensures kernel.Valid()
      ensures over == (old(done) > 0)
      ensures forall c: nat, r: nat :: State(done, wait, kernel.View(), c, if over then r + 1 else r)
                == WaitStep(State(old(done), old(wait), old(kernel.View()), c, r), current)
    {
      over := done != 0;
      if !over {
        wait := wait + [Entry(current, true)];
        kernel.states := kernel.states[current := Uninterruptible];
      } else {
        done := done - 1;
      }
    }

    /** From the relock after schedule() to the next unlock. */
    method WaitAgain(kernel: Kernel, i: nat) returns (over: bool)
      requires kernel.Valid() && i < |wait| && wait[i].task < |kernel.states|
      modifies this, kernel`states
      ensures kernel.Valid()
      ensures over == (old(done) > 0)
      ensures forall c: nat, r: nat :: State(done, wait, kernel.View(), c, if over then r + 1 else r)
                == ResumeStep(State(old(done), old(wait), old(kernel.View()), c, r), i)
    {
      over := done != 0;
      if !over {
        kernel.states := kernel.states[wait[i].task := Uninterruptible];
      } else {
        wait := wait[..i] + wait[i + 1..];
        done := done - 1;
      }
    }
  }
}
