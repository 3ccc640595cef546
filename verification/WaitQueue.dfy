/** Run queue and wait queues of sched.c: try_to_wake_up, move_last_runqueue,
    __wake_up_common and the order in which sleepers are queued.

    Tasks are numbered. As in the kernel headers, TASK_RUNNING is 0 and the other states
    are separate bits, so a mode is the set of the states it selects and never selects
    Running; task_on_runqueue means being linked into the run queue. */
module WaitQueue {
  type Pid = nat

  datatype TaskState = Running | Interruptible | Uninterruptible | Stopped | Zombie

  type Mode = set<TaskState>

  /** An entry of a wait queue. */
  datatype Entry = Entry(task: Pid, exclusive: bool)

  /** Task states and the run queue. */
  datatype World = World(states: seq<TaskState>, runqueue: seq<Pid>) {
    ghost predicate Valid() {
      && (forall i :: 0 <= i < |runqueue| ==> runqueue[i] < |states|)
      && (forall i, j :: 0 <= i < j < |runqueue| ==> runqueue[i] != runqueue[j])
    }

    function Runs(p: Pid): World
      requires p < |states|
    {
      this.(states := states[p := Running])
    }

    /** try_to_wake_up succeeds when the task was not on the run queue. */
    predicate WakeSucceeds(p: Pid) {
      p !in runqueue
    }

    function TryToWakeUp(p: Pid): World
      requires p < |states|
    {
      if WakeSucceeds(p) then Runs(p).(runqueue := runqueue + [p]) else Runs(p)
    }

    function MoveLast(p: Pid): World
      requires p in runqueue
    {
      this.(runqueue := Without(runqueue, p) + [p])
    }
  }

  /** The sequence with the first p unlinked. */
  function Without(s: seq<Pid>, p: Pid): (r: seq<Pid>)
    requires p in s
  {
    if s[0] == p then s[1..] else [s[0]] + Without(s[1..], p)
  }

  /** Unlinking removes one p and keeps everything else in order. */
  lemma {:induction false} WithoutSplits(s: seq<Pid>, p: Pid) returns (i: nat)
    requires p in s
    ensures i < |s| && s[i] == p && Without(s, p) == s[..i] + s[i + 1..]
  {
    if s[0] == p {
      i := 0;
    } else {
      var k := WithoutSplits(s[1..], p);
      i := k + 1;
      assert s[..i] == [s[0]] + s[1..][..k];
      assert s[i + 1..] == s[1..][k + 1..];
    }
  }

  lemma MovedLastPermutes(s: seq<Pid>, p: Pid) returns (i: nat)
    requires p in s
    ensures i < |s| && s[i] == p && Without(s, p) == s[..i] + s[i + 1..]
    ensures multiset(Without(s, p) + [p]) == multiset(s)
  {
    i := WithoutSplits(s, p);
    assert s == s[..i] + [p] + s[i + 1..];
  }

  /** A yield only permutes the run queue: the caller goes to the tail, the others keep
      their order. */
  lemma MoveLastPermutes(w: World, p: Pid) returns (i: nat)
    requires p in w.runqueue
    ensures i < |w.runqueue| && w.runqueue[i] == p
    ensures w.MoveLast(p).runqueue == w.runqueue[..i] + w.runqueue[i + 1..] + [p]
    ensures multiset(w.MoveLast(p).runqueue) == multiset(w.runqueue)
  {
    i := MovedLastPermutes(w.runqueue, p);
  }

  lemma MoveLastKeepsMembers(w: World, p: Pid)
    requires p in w.runqueue
    ensures forall x: Pid :: x in w.MoveLast(p).runqueue <==> x in w.runqueue
  {
    var i := MoveLastPermutes(w, p);
    forall x: Pid ensures x in w.MoveLast(p).runqueue <==> x in w.runqueue {
      assert x in w.MoveLast(p).runqueue <==> x in multiset(w.MoveLast(p).runqueue);
      assert x in w.runqueue <==> x in multiset(w.runqueue);
    }
  }

  /** Where the entry at i stood before the one at k went to the tail. */
  function MovedFrom(n: nat, k: nat, i: nat): (from: nat)
    requires k < n && i < n
    ensures from < n
  {
    if i == n - 1 then k else if i < k then i else i + 1
  }

  lemma MoveLastKeepsValid(w: World, p: Pid)
    requires w.Valid() && p in w.runqueue
    ensures w.MoveLast(p).Valid() && |w.MoveLast(p).runqueue| == |w.runqueue|
  {
    var k := MoveLastPermutes(w, p);
    var r, r' := w.runqueue, w.MoveLast(p).runqueue;
    forall i | 0 <= i < |r'| ensures r'[i] == r[MovedFrom(|r|, k, i)] {
    }
    forall i, j | 0 <= i < j < |r'| ensures r'[i] != r'[j] {
      assert MovedFrom(|r|, k, i) != MovedFrom(|r|, k, j);
    }
  }

  // ------------------------------------------------------------- the scan

  predicate Matches(w: World, e: Entry, mode: Mode)
    requires e.task < |w.states|
  {
    w.states[e.task] != Running && w.states[e.task] in mode
  }

  /** An exclusive entry a scan would count. */
  predicate Wakeable(w: World, e: Entry, mode: Mode)
    requires e.task < |w.states|
  {
    Matches(w, e, mode) && e.exclusive && e.task !in w.runqueue
  }

  ghost predicate Tasks(w: World, q: seq<Entry>) {
    forall t :: 0 <= t < |q| ==> q[t].task < |w.states|
  }

  /** The state after __wake_up_common has scanned q with nr exclusive wakeups to spend. */
  function WakeScan(w: World, q: seq<Entry>, mode: Mode, nr: int): (w': World)
    requires Tasks(w, q)
    ensures |w'.states| == |w.states|
    decreases |q|
  {
    if q == [] then w
    else if !Matches(w, q[0], mode) then WakeScan(w, q[1..], mode, nr)
    else
      var spent := w.WakeSucceeds(q[0].task) && q[0].exclusive;
      var woken := w.TryToWakeUp(q[0].task);
      if !spent then WakeScan(woken, q[1..], mode, nr)
      else if nr - 1 == 0 then woken
      else WakeScan(woken, q[1..], mode, nr - 1)
  }

  /** The queued tasks that reschedule_idle is called for: all of them, or after a
      synchronous wakeup those that may not run on this CPU. */
  function Offered(queued: seq<Pid>, synchronous: bool, allowedHere: set<Pid>): (r: seq<Pid>) {
    if queued == [] then []
    else
      var p := queued[|queued| - 1];
      Offered(queued[..|queued| - 1], synchronous, allowedHere)
      + if !synchronous || p !in allowedHere then [p] else []
  }

  lemma OfferedNext(queued: seq<Pid>, joined: seq<Pid>, synchronous: bool, allowedHere: set<Pid>)
    requires |joined| <= 1
    ensures Offered(queued + joined, synchronous, allowedHere)
            == Offered(queued, synchronous, allowedHere) + Offered(joined, synchronous, allowedHere)
  {
    if joined == [] {
      assert queued + joined == queued;
    } else {
      assert (queued + joined)[..|queued|] == queued && joined[..0] == [];
    }
  }

  /** What is left of a scan after the entry at position t. */
  lemma ScanNext(w: World, q: seq<Entry>, t: nat, mode: Mode, nr: int)
    requires t < |q| && Tasks(w, q[t..])
    ensures var w1 := if Matches(w, q[t], mode) then w.TryToWakeUp(q[t].task) else w;
            && Tasks(w1, q[t + 1..])
            && WakeScan(w, q[t..], mode, nr) ==
               if !Wakeable(w, q[t], mode) then WakeScan(w1, q[t + 1..], mode, nr)
               else if nr - 1 == 0 then w1
               else WakeScan(w1, q[t + 1..], mode, nr - 1)
  {
    assert q[t..][0] == q[t] && q[t..][1..] == q[t + 1..];
  }

  /** A task's scheduling class, and the SCHED_YIELD bit kept beside it. */
  datatype Policy = Policy(other: bool, yielding: bool)

  /** The CPUs of the scan order that run something else than their idle task. */
  function BusyCpus(order: seq<nat>, current: seq<Pid>, idle: seq<Pid>): (busy: nat)
    requires |current| == |idle| && forall i :: 0 <= i < |order| ==> order[i] < |current|
    ensures busy <= |order|
  {
    if order == [] then 0
    else
      BusyCpus(order[..|order| - 1], current, idle)
      + if current[order[|order| - 1]] != idle[order[|order| - 1]] then 1 else 0
  }

  /** Task states and run queue as the scheduler updates them in place; `offered` lists
      the calls of reschedule_idle. */
  class Kernel {
    var states: seq<TaskState>
    var policies: seq<Policy>
    var needResched: seq<int>
    var runqueue: seq<Pid>
    var nrRunning: int
    var offered: seq<Pid>

    ghost function View(): World
      reads this
    {
      World(states, runqueue)
    }

    /** nr_running counts the run queue. */
    ghost predicate Valid()
      reads this
    {
      View().Valid() && nrRunning == |runqueue| && |policies| == |needResched| == |states|
    }

    method AddToRunqueue(p: Pid)
      requires Valid() && p < |states| && p !in runqueue
      modifies this`runqueue, this`nrRunning
      ensures Valid() && runqueue == old(runqueue) + [p]
    {
      runqueue := runqueue + [p];
      nrRunning := nrRunning + 1;
    }

    method MoveLastRunqueue(p: Pid)
      requires Valid() && p in runqueue
      modifies this`runqueue
      ensures Valid() && View() == old(View()).MoveLast(p)
    {
      MoveLastKeepsValid(View(), p);
      runqueue := Without(runqueue, p) + [p];
    }

    method TryToWakeUp(p: Pid, synchronous: bool, allowedHere: set<Pid>) returns (success: bool)
      requires Valid() && p < |states|
      modifies this`states, this`runqueue, this`nrRunning, this`offered
      ensures Valid() && View() == old(View()).TryToWakeUp(p)
      ensures success == old(View()).WakeSucceeds(p)
      ensures offered == old(offered) + if success && (!synchronous || p !in allowedHere) then [p] else []
    {
      states := states[p := Running];
      success := false;
      if p !in runqueue {
        AddToRunqueue(p);
        if !synchronous || p !in allowedHere {
          offered := offered + [p];
        }
        success := true;
      }
    }

    /** One entry of the scan: the task joins the run queue, or nothing is queued. */
    method WakeEntry(e: Entry, mode: Mode, synchronous: bool, allowedHere: set<Pid>)
      returns (spent: bool, ghost joined: seq<Pid>)
      requires Valid() && e.task < |states|
      modifies this`states, this`runqueue, this`nrRunning, this`offered
      ensures Valid() && |states| == |old(states)|
      ensures View() == if Matches(old(View()), e, mode) then old(View()).TryToWakeUp(e.task) else old(View())
      ensures spent == Wakeable(old(View()), e, mode)
      ensures |joined| <= 1 && runqueue == old(runqueue) + joined
      ensures offered == old(offered) + Offered(joined, synchronous, allowedHere)
    {
      spent, joined := false, [];
      if states[e.task] != Running && states[e.task] in mode {
        var success := TryToWakeUp(e.task, synchronous, allowedHere);
        joined := if success then [e.task] else [];
        spent := success && e.exclusive;
      }
    }

    /** The scan. reschedule_idle is called for the tasks it has queued, in order. */
    method WakeUpCommon(q: seq<Entry>, mode: Mode, nr: int, synchronous: bool, allowedHere: set<Pid>)
      returns (ghost queued: seq<Pid>)
      requires Valid() && Tasks(View(), q)
      modifies this`states, this`runqueue, this`nrRunning, this`offered
      ensures Valid() && View() == WakeScan(old(View()), q, mode, nr)
      ensures runqueue == old(runqueue) + queued
      ensures offered == old(offered) + Offered(queued, synchronous, allowedHere)
    {
      var left, t := nr, 0;
      queued := [];
      ghost var wanted := WakeScan(View(), q, mode, nr);
      assert q[0..] == q && runqueue == runqueue + [];
      while t < |q|
        invariant t <= |q| && Valid() && |states| == |old(states)|
        invariant WakeScan(View(), q[t..], mode, left) == wanted
        invariant runqueue == old(runqueue) + queued
        invariant offered == old(offered) + Offered(queued, synchronous, allowedHere)
      {
        ScanNext(View(), q, t, mode, left);
        var spent, joined := WakeEntry(q[t], mode, synchronous, allowedHere);
        OfferedNext(queued, joined, synchronous, allowedHere);
        assert runqueue == old(runqueue) + (queued + joined);
        queued := queued + joined;
        if spent {
          left := left - 1;
          if left == 0 {
            return;
          }
        }
        t := t + 1;
      }
      assert q[t..] == [];
    }

    /** sys_sched_yield on SMP. */
    method SchedYield(caller: Pid, order: seq<nat>, current: seq<Pid>, idle: seq<Pid>)
      requires Valid() && caller in runqueue
      requires |current| == |idle| && forall i :: 0 <= i < |order| ==> order[i] < |current|
      modifies this`runqueue, this`policies, this`needResched
      ensures Valid() && multiset(runqueue) == multiset(old(runqueue))
      ensures if nrRunning == BusyCpus(order, current, idle) then
                View() == old(View()) && policies == old(policies) && needResched == old(needResched)
              else
                && View() == old(View()).MoveLast(caller)
                && needResched == old(needResched)[caller := 1]
                && policies == if old(policies)[caller] == Policy(true, false)
                               then old(policies)[caller := Policy(true, true)] else old(policies)
    {
      var nrPending, i := nrRunning, 0;
      while i < |order|
        invariant i <= |order| && nrPending == nrRunning - BusyCpus(order[..i], current, idle)
      {
        assert order[..i + 1][..i] == order[..i];
        if current[order[i]] != idle[order[i]] {
          nrPending := nrPending - 1;
        }
        i := i + 1;
      }
      assert order[..i] == order;
      if nrPending != 0 {
        if policies[caller] == Policy(true, false) {
          policies := policies[caller := Policy(true, true)];
        }
        needResched := needResched[caller := 1];
        ghost var at := MoveLastPermutes(View(), caller);
        MoveLastRunqueue(caller);
      }
    }
  }

  // ---------------------------------------------- what a scan achieves

  function Wakeables(w: World, q: seq<Entry>, mode: Mode): nat
    requires Tasks(w, q)
  {
    if q == [] then 0 else (if Wakeable(w, q[0], mode) then 1 else 0) + Wakeables(w, q[1..], mode)
  }

  /** The tasks of q that join the run queue, in queue order. */
  function Joiners(w: World, q: seq<Entry>, mode: Mode): seq<Pid>
    requires Tasks(w, q)
  {
    if q == [] then []
    else if Matches(w, q[0], mode) && q[0].task !in w.runqueue then [q[0].task] + Joiners(w, q[1..], mode)
    else Joiners(w, q[1..], mode)
  }

  ghost predicate Distinct(q: seq<Entry>) {
    forall s, t :: 0 <= s < t < |q| ==> q[s].task != q[t].task
  }

  ghost predicate MatchedBy(w: World, q: seq<Entry>, mode: Mode, p: Pid)
    requires Tasks(w, q)
  {
    exists t :: 0 <= t < |q| && q[t].task == p && Matches(w, q[t], mode)
  }

  /** After a scan of `q` everything it matched runs and nothing else has changed. */
  ghost predicate WokeExactly(w: World, w': World, q: seq<Entry>, mode: Mode)
    requires Tasks(w, q)
  {
    && |w'.states| == |w.states|
    && (forall p: Pid :: p < |w.states| ==>
          w'.states[p] == if MatchedBy(w, q, mode, p) then Running else w.states[p])
    && w'.runqueue == w.runqueue + Joiners(w, q, mode)
  }

  ghost predicate SameLook(w: World, w1: World, e: Entry)
    requires e.task < |w.states| == |w1.states|
  {
    w1.states[e.task] == w.states[e.task] && (e.task in w1.runqueue <==> e.task in w.runqueue)
  }

  /** The first entry, when woken, does not change what the later entries look like. */
  lemma {:induction false} WakeFrame(w: World, w1: World, q: seq<Entry>, mode: Mode)
    requires Tasks(w, q) && |w1.states| == |w.states|
    requires forall t :: 0 <= t < |q| ==> SameLook(w, w1, q[t])
    ensures Wakeables(w1, q, mode) == Wakeables(w, q, mode)
    ensures Joiners(w1, q, mode) == Joiners(w, q, mode)
  {
    if q != [] {
      assert forall t :: 0 <= t < |q| - 1 ==> q[1..][t] == q[t + 1];
      WakeFrame(w, w1, q[1..], mode);
    }
  }

  /** The first `stop` entries hold as many wakeable exclusive ones as nr allows, and
      the scan only stops early on the last of them. */
  ghost predicate StopsAt(w: World, q: seq<Entry>, mode: Mode, nr: int, stop: nat)
    requires Tasks(w, q) && stop <= |q|
  {
    && (nr <= 0 ==> stop == |q|)
    && (nr > 0 ==> Wakeables(w, q[..stop], mode) == (if nr <= Wakeables(w, q, mode) then nr else Wakeables(w, q, mode)))
    && (stop < |q| ==> stop > 0 && Wakeable(w, q[stop - 1], mode))
  }

  /** A scan wakes exactly a prefix of the matching entries: up to and including the
      nr-th wakeable exclusive one, or all of them when there are fewer or nr <= 0. */
  lemma {:induction false} ScanWakesPrefix(w: World, q: seq<Entry>, mode: Mode, nr: int) returns (stop: nat)
    requires Tasks(w, q) && Distinct(q)
    ensures stop <= |q| && StopsAt(w, q, mode, nr, stop)
    ensures WokeExactly(w, WakeScan(w, q, mode, nr), q[..stop], mode)
    decreases |q|
  {
    if q == [] {
      stop := 0;
    } else {
      var w1 := if Matches(w, q[0], mode) then w.TryToWakeUp(q[0].task) else w;
      FirstWakeFrame(w, q, mode);
      if Wakeable(w, q[0], mode) && nr - 1 == 0 {
        stop := 1;
        assert q[..1] == [q[0]];
        WokeOne(w, q, mode);
      } else {
        var nr1 := if Wakeable(w, q[0], mode) then nr - 1 else nr;
        var rest := ScanWakesPrefix(w1, q[1..], mode, nr1);
        stop := rest + 1;
        FrontFrame(w, q, mode, rest);
        StopsOneLater(w, w1, q, mode, nr, nr1, rest);
        WokeMore(w, w1, WakeScan(w, q, mode, nr), q[..stop], mode);
      }
    }
  }

  lemma FrontFrame(w: World, q: seq<Entry>, mode: Mode, rest: nat)
    requires Tasks(w, q) && Distinct(q) && rest < |q|
    ensures q[..rest + 1][1..] == q[1..][..rest]
    ensures var w1 := if Matches(w, q[0], mode) then w.TryToWakeUp(q[0].task) else w;
            && Tasks(w1, q[1..][..rest])
            && Wakeables(w1, q[1..][..rest], mode) == Wakeables(w, q[1..][..rest], mode)
            && Joiners(w1, q[1..][..rest], mode) == Joiners(w, q[1..][..rest], mode)
  {
    assert q[..rest + 1][1..] == q[1..][..rest];
    FirstWakeFrame(w, q[..rest + 1], mode);
  }

  lemma StopsOneLater(w: World, w1: World, q: seq<Entry>, mode: Mode, nr: int, nr1: int, rest: nat)
    requires Tasks(w, q) && |q| > 0 && |w1.states| == |w.states| && rest < |q|
    requires forall t :: 0 <= t < |q| - 1 ==> SameLook(w, w1, q[1..][t])
    requires Wakeables(w1, q[1..], mode) == Wakeables(w, q[1..], mode)
    requires Wakeables(w1, q[1..][..rest], mode) == Wakeables(w, q[1..][..rest], mode)
    requires nr1 == (if Wakeable(w, q[0], mode) then nr - 1 else nr) && (nr > 0 ==> nr1 > 0)
    requires StopsAt(w1, q[1..], mode, nr1, rest)
    ensures StopsAt(w, q, mode, nr, rest + 1)
  {
    assert q[..rest + 1][1..] == q[1..][..rest];
    if rest + 1 < |q| {
      assert q[1..][rest - 1] == q[rest];
      assert SameLook(w, w1, q[1..][rest - 1]);
    }
  }

  /** Waking the first entry leaves the later ones as they looked. */
  lemma FirstWakeFrame(w: World, q: seq<Entry>, mode: Mode)
    requires Tasks(w, q) && Distinct(q) && |q| > 0
    ensures var w1 := if Matches(w, q[0], mode) then w.TryToWakeUp(q[0].task) else w;
            && Tasks(w1, q[1..])
            && (forall t :: 0 <= t < |q| - 1 ==> SameLook(w, w1, q[1..][t]))
            && Wakeables(w1, q[1..], mode) == Wakeables(w, q[1..], mode)
            && Joiners(w1, q[1..], mode) == Joiners(w, q[1..], mode)
  {
    var w1 := if Matches(w, q[0], mode) then w.TryToWakeUp(q[0].task) else w;
    forall t | 0 <= t < |q| - 1 ensures SameLook(w, w1, q[1..][t]) {
      assert q[1..][t] == q[t + 1];
    }
    WakeFrame(w, w1, q[1..], mode);
  }

  lemma WokeOne(w: World, q: seq<Entry>, mode: Mode)
    requires Tasks(w, q) && |q| > 0 && Wakeable(w, q[0], mode)
    ensures WokeExactly(w, w.TryToWakeUp(q[0].task), [q[0]], mode)
  {
    assert Joiners(w, [q[0]], mode) == [q[0].task];
    forall p: Pid | p < |w.states| ensures MatchedBy(w, [q[0]], mode, p) <==> p == q[0].task {
      if p == q[0].task { assert [q[0]][0].task == p; }
    }
  }

  lemma WokeMore(w: World, w1: World, w2: World, q: seq<Entry>, mode: Mode)
    requires Tasks(w, q) && Distinct(q) && |q| > 0
    requires w1 == if Matches(w, q[0], mode) then w.TryToWakeUp(q[0].task) else w
    requires Tasks(w1, q[1..]) && WokeExactly(w1, w2, q[1..], mode)
    requires Joiners(w1, q[1..], mode) == Joiners(w, q[1..], mode)
    ensures WokeExactly(w, w2, q, mode)
  {
    forall p: Pid | p < |w.states|
      ensures w2.states[p] == if MatchedBy(w, q, mode, p) then Running else w.states[p]
    {
      if MatchedBy(w1, q[1..], mode, p) {
        var t :| 0 <= t < |q| - 1 && q[1..][t].task == p && Matches(w1, q[1..][t], mode);
        assert q[t + 1].task == p && Matches(w, q[t + 1], mode);
      } else if MatchedBy(w, q, mode, p) {
        var t :| 0 <= t < |q| && q[t].task == p && Matches(w, q[t], mode);
        if t > 0 {
          assert q[1..][t - 1] == q[t];
          assert Matches(w1, q[1..][t - 1], mode);
        }
      }
    }
  }

  // ------------------------------------------- queues and exclusive wakeups

  /** What the sleepers of sched.c do to a wait queue. */
  datatype QueueOp =
    | SleepOn(task: Pid)            // __add_wait_queue: at the head, not exclusive
    | WaitExclusive(task: Pid)      // __add_wait_queue_tail with WQ_FLAG_EXCLUSIVE
    | Return(task: Pid)             // __remove_wait_queue of the task's own entry

  /** A sleeping task is on the queue once: it cannot sleep again before it returns. */
  function Queued(q: seq<Entry>, op: QueueOp): seq<Entry> {
    match op
    case SleepOn(p) => if InQueue(q, p) then q else [Entry(p, false)] + q
    case WaitExclusive(p) => if InQueue(q, p) then q else q + [Entry(p, true)]
    case Return(p) => Unqueued(q, p)
  }

  predicate InQueue(q: seq<Entry>, p: Pid) {
    exists t :: 0 <= t < |q| && q[t].task == p
  }

  /** The queue without the first entry of p, if there is one. */
  function Unqueued(q: seq<Entry>, p: Pid): seq<Entry> {
    if q == [] then [] else if q[0].task == p then q[1..] else [q[0]] + Unqueued(q[1..], p)
  }

  function QueueAfter(ops: seq<QueueOp>): seq<Entry>
    decreases |ops|
  {
    if ops == [] then [] else Queued(QueueAfter(ops[..|ops| - 1]), ops[|ops| - 1])
  }

  // ---- the queue a sequence of sleeps and returns must leave, told from the sequence

  /** p has gone to sleep and not returned since. */
  predicate Sleeps(ops: seq<QueueOp>, p: Pid)
    decreases |ops|
  {
    if ops == [] then false
    else
      var last := ops[|ops| - 1];
      last != Return(p) && (last.task == p || Sleeps(ops[..|ops| - 1], p))
  }

  /** When it did. */
  function Since(ops: seq<QueueOp>, p: Pid): (t: nat)
    requires Sleeps(ops, p)
    ensures t < |ops| && !ops[t].Return? && ops[t].task == p
    decreases |ops|
  {
    var front := ops[..|ops| - 1];
    if Sleeps(front, p) then Since(front, p) else |ops| - 1
  }

  /** Entry e is that of a sleeper, and exclusive if it waits for a completion. */
  predicate EntryOk(ops: seq<QueueOp>, e: Entry) {
    Sleeps(ops, e.task) && e.exclusive == ops[Since(ops, e.task)].WaitExclusive?
  }

  /** e may stand before f: exclusive entries come last, in the order in which they came;
      of the others the latest stands first. */
  predicate Precedes(ops: seq<QueueOp>, e: Entry, f: Entry)
    requires Sleeps(ops, e.task) && Sleeps(ops, f.task)
  {
    if e.exclusive then f.exclusive && Since(ops, e.task) < Since(ops, f.task)
    else f.exclusive || Since(ops, f.task) < Since(ops, e.task)
  }

  ghost predicate QueueOk(ops: seq<QueueOp>, q: seq<Entry>) {
    && (forall t :: 0 <= t < |q| ==> EntryOk(ops, q[t]))
    && (forall s, t :: 0 <= s < t < |q| ==> Precedes(ops, q[s], q[t]))
  }

  lemma {:induction false} UnqueuedAt(q: seq<Entry>, p: Pid) returns (i: nat)
    ensures if InQueue(q, p) then i < |q| && q[i].task == p && Unqueued(q, p) == q[..i] + q[i + 1..]
            else Unqueued(q, p) == q
  {
    i := 0;
    if q != [] && q[0].task != p {
      var k := UnqueuedAt(q[1..], p);
      i := k + 1;
      if InQueue(q, p) {
        var t :| 0 <= t < |q| && q[t].task == p;
        assert q[1..][t - 1].task == p;
        assert q[..i] == [q[0]] + q[1..][..k] && q[i + 1..] == q[1..][k + 1..];
      }
    }
  }

  /** An operation of one task leaves the others' times as they were. */
  lemma {:induction false} SinceFrame(ops: seq<QueueOp>, p: Pid)
    requires ops != [] && (ops[|ops| - 1].task != p || (!ops[|ops| - 1].Return? && Sleeps(ops[..|ops| - 1], p)))
    ensures Sleeps(ops, p) == Sleeps(ops[..|ops| - 1], p)
    ensures Sleeps(ops, p) ==> Since(ops, p) == Since(ops[..|ops| - 1], p)
  {
  }

  lemma {:induction false} EntryFrame(ops: seq<QueueOp>, e: Entry)
    requires ops != [] && EntryOk(ops[..|ops| - 1], e)
    requires ops[|ops| - 1].task != e.task || !ops[|ops| - 1].Return?
    ensures EntryOk(ops, e) && Since(ops, e.task) == Since(ops[..|ops| - 1], e.task) < |ops| - 1
  {
    SinceFrame(ops, e.task);
  }

  /** A part of the queue that the last operation does not remove stays well ordered. */
  lemma {:induction false} QueueFrame(ops: seq<QueueOp>, q: seq<Entry>)
    requires ops != [] && QueueOk(ops[..|ops| - 1], q)
    requires ops[|ops| - 1].Return? ==> !InQueue(q, ops[|ops| - 1].task)
    ensures QueueOk(ops, q) && forall t :: 0 <= t < |q| ==> Since(ops, q[t].task) < |ops| - 1
  {
    forall t | 0 <= t < |q| ensures EntryOk(ops, q[t]) && Since(ops, q[t].task) == Since(ops[..|ops| - 1], q[t].task)
    {
      EntryFrame(ops, q[t]);
    }
  }

  lemma {:induction false} RemovedKeepsOk(ops: seq<QueueOp>, q: seq<Entry>, i: nat)
    requires QueueOk(ops, q) && i < |q| && Distinct(q)
    ensures QueueOk(ops, q[..i] + q[i + 1..]) && Distinct(q[..i] + q[i + 1..])
    ensures !InQueue(q[..i] + q[i + 1..], q[i].task)
    ensures forall x: Pid :: x != q[i].task ==> (InQueue(q[..i] + q[i + 1..], x) <==> InQueue(q, x))
  {
    var r := q[..i] + q[i + 1..];
    forall t | 0 <= t < |r| ensures r[t] == q[if t < i then t else t + 1] {
    }
    forall x: Pid | x != q[i].task && InQueue(q, x) ensures InQueue(r, x) {
      var t :| 0 <= t < |q| && q[t].task == x;
      assert r[if t < i then t else t - 1].task == x;
    }
  }

  /** Every reachable wait queue holds exactly the tasks that sleep, each once: first the
      non-exclusive ones, the latest first, then the exclusive ones in the order in which
      they came. */
  lemma {:induction false} QueuesAreOrdered(ops: seq<QueueOp>)
    ensures QueueOk(ops, QueueAfter(ops)) && Distinct(QueueAfter(ops))
    ensures forall p: Pid :: InQueue(QueueAfter(ops), p) <==> Sleeps(ops, p)
    decreases |ops|
  {
    if ops != [] {
      var front, op := ops[..|ops| - 1], ops[|ops| - 1];
      QueuesAreOrdered(front);
      forall p: Pid | p != op.task ensures Sleeps(ops, p) == Sleeps(front, p) {
        SinceFrame(ops, p);
      }
      match op {
        case Return(p) => ReturnKeepsOrder(ops);
        case _ => SleepKeepsOrder(ops);
      }
    }
  }

  lemma {:induction false} ReturnKeepsOrder(ops: seq<QueueOp>)
    requires ops != [] && ops[|ops| - 1].Return?
    requires QueueOk(ops[..|ops| - 1], QueueAfter(ops[..|ops| - 1])) && Distinct(QueueAfter(ops[..|ops| - 1]))
    ensures QueueOk(ops, QueueAfter(ops)) && Distinct(QueueAfter(ops))
    ensures !InQueue(QueueAfter(ops), ops[|ops| - 1].task)
    ensures forall x: Pid :: x != ops[|ops| - 1].task ==>
              (InQueue(QueueAfter(ops), x) <==> InQueue(QueueAfter(ops[..|ops| - 1]), x))
  {
    var q, p := QueueAfter(ops[..|ops| - 1]), ops[|ops| - 1].task;
    var i := UnqueuedAt(q, p);
    if InQueue(q, p) {
      RemovedKeepsOk(ops[..|ops| - 1], q, i);
    }
    QueueFrame(ops, QueueAfter(ops));
  }

  lemma {:induction false} SleepKeepsOrder(ops: seq<QueueOp>)
    requires ops != [] && !ops[|ops| - 1].Return?
    requires QueueOk(ops[..|ops| - 1], QueueAfter(ops[..|ops| - 1])) && Distinct(QueueAfter(ops[..|ops| - 1]))
    requires InQueue(QueueAfter(ops[..|ops| - 1]), ops[|ops| - 1].task)
             <==> Sleeps(ops[..|ops| - 1], ops[|ops| - 1].task)
    ensures QueueOk(ops, QueueAfter(ops)) && Distinct(QueueAfter(ops))
    ensures InQueue(QueueAfter(ops), ops[|ops| - 1].task)
    ensures forall x: Pid :: x != ops[|ops| - 1].task ==>
              (InQueue(QueueAfter(ops), x) <==> InQueue(QueueAfter(ops[..|ops| - 1]), x))
  {
    var q, q', p := QueueAfter(ops[..|ops| - 1]), QueueAfter(ops), ops[|ops| - 1].task;
    QueueFrame(ops, q);
    if !InQueue(q, p) {
      var shift := if ops[|ops| - 1].SleepOn? then 1 else 0;
      assert Since(ops, p) == |ops| - 1;
      assert q'[if shift == 1 then 0 else |q|].task == p;
      forall x: Pid | x != p && InQueue(q, x) ensures InQueue(q', x) {
        var t :| 0 <= t < |q| && q[t].task == x;
        assert q'[t + shift].task == x;
      }
    }
  }

  /** The wakeup contract on a reachable queue. With nr > 0 every matching non-exclusive
      task is made runnable, and exactly min(nr, wakeable) exclusive wakeups succeed, on
      the first ones in queue order; with nr == 0 every matching task is made runnable. */
  lemma WakeupContract(w: World, ops: seq<QueueOp>, mode: Mode, nr: nat) returns (stop: nat)
    requires Tasks(w, QueueAfter(ops))
    ensures var q := QueueAfter(ops);
            var w' := WakeScan(w, q, mode, nr);
            && stop <= |q|
            && WokeExactly(w, w', q[..stop], mode)
            && (forall t :: 0 <= t < |q| && w.states[q[t].task] != Running && w.states[q[t].task] in mode
                            && (!q[t].exclusive || nr == 0) ==>
                  w'.states[q[t].task] == Running)
            && (nr > 0 ==> Wakeables(w, q[..stop], mode)
                           == if nr <= Wakeables(w, q, mode) then nr else Wakeables(w, q, mode))
            && (forall t :: stop <= t < |q| ==> w'.states[q[t].task] == w.states[q[t].task])
  {
    var q := QueueAfter(ops);
    QueuesAreOrdered(ops);
    forall s, t | 0 <= s < t < |q| && q[s].exclusive ensures q[t].exclusive {
      assert Precedes(ops, q[s], q[t]);
    }
    stop := ScanWakesPrefix(w, q, mode, nr);
    var w' := WakeScan(w, q, mode, nr);
    forall t | 0 <= t < |q| && Matches(w, q[t], mode) && (!q[t].exclusive || nr == 0)
      ensures w'.states[q[t].task] == Running
    {
      assert t < stop;
      assert q[..stop][t] == q[t];
      assert MatchedBy(w, q[..stop], mode, q[t].task);
    }
    forall t | stop <= t < |q| ensures w'.states[q[t].task] == w.states[q[t].task] {
      assert !MatchedBy(w, q[..stop], mode, q[t].task);
    }
  }

  /** A scan touches no task that is running or in a state outside its mode: neither its
      state nor its place off the run queue. */
  lemma {:induction false} ScanSparesOthers(w: World, q: seq<Entry>, mode: Mode, nr: int, p: Pid)
    requires Tasks(w, q) && p < |w.states| && (w.states[p] == Running || w.states[p] !in mode)
    ensures WakeScan(w, q, mode, nr).states[p] == w.states[p]
    ensures p in WakeScan(w, q, mode, nr).runqueue <==> p in w.runqueue
    decreases |q|
  {
    if q != [] {
      var w1 := if Matches(w, q[0], mode) then w.TryToWakeUp(q[0].task) else w;
      ScanSparesOthers(w1, q[1..], mode, nr, p);
      ScanSparesOthers(w1, q[1..], mode, nr - 1, p);
    }
  }

  /** The count of busy CPUs is the number of scan positions whose current task is not
      the idle one. */
  lemma {:induction false} BusyCpusCounts(order: seq<nat>, current: seq<Pid>, idle: seq<Pid>)
    requires |current| == |idle| && forall i :: 0 <= i < |order| ==> order[i] < |current|
    ensures BusyCpus(order, current, idle) == |set i | 0 <= i < |order| && current[order[i]] != idle[order[i]]|
    decreases |order|
  {
    var busy := set i | 0 <= i < |order| && current[order[i]] != idle[order[i]];
    if order != [] {
      var n := |order| - 1;
      var front := order[..n];
      BusyCpusCounts(front, current, idle);
      var busyFront := set i | 0 <= i < |front| && current[front[i]] != idle[front[i]];
      assert busy == busyFront + if current[order[n]] != idle[order[n]] then {n} else {};
    }
  }

  // --------------------------------------------------- run queue over runs

  datatype RunOp = WakeUp(p: Pid) | Yield(p: Pid, busyCpus: nat)

  /** try_to_wake_up of any task and sys_sched_yield by a queued one. */
  function RunqueueStep(w: World, op: RunOp): World {
    match op
    case WakeUp(p) => if p < |w.states| then w.TryToWakeUp(p) else w
    case Yield(p, busy) => if p in w.runqueue && |w.runqueue| != busy then w.MoveLast(p) else w
  }

  function RunqueueAfter(w: World, ops: seq<RunOp>): World
    decreases |ops|
  {
    if ops == [] then w else RunqueueAfter(RunqueueStep(w, ops[0]), ops[1..])
  }

  /** Over every sequence of wakeups and yields the run queue stays free of duplicates and
      holds exactly the tasks it held plus the tasks woken. */
  lemma {:induction false} RunqueueConsistent(w: World, ops: seq<RunOp>)
    requires w.Valid()
    ensures RunqueueAfter(w, ops).Valid() && |RunqueueAfter(w, ops).states| == |w.states|
    ensures forall p: Pid :: p in RunqueueAfter(w, ops).runqueue <==>
              p in w.runqueue || (p < |w.states| && WakeUp(p) in ops)
    decreases |ops|
  {
    if ops != [] {
      RunqueueStepKeeps(w, ops[0]);
      assert ops == [ops[0]] + ops[1..];
      RunqueueConsistent(RunqueueStep(w, ops[0]), ops[1..]);
    }
  }

  lemma RunqueueStepKeeps(w: World, op: RunOp)
    requires w.Valid()
    ensures RunqueueStep(w, op).Valid() && |RunqueueStep(w, op).states| == |w.states|
    ensures forall p: Pid :: p in RunqueueStep(w, op).runqueue <==>
              p in w.runqueue || (p < |w.states| && op == WakeUp(p))
  {
    if op.Yield? && op.p in w.runqueue {
      MoveLastKeepsValid(w, op.p);
      MoveLastKeepsMembers(w, op.p);
    }
  }

  /** Waking a queued task adds nothing; only the first of several wakeups succeeds. */
  lemma SecondWakeupFails(w: World, p: Pid)
    requires p < |w.states|
    ensures !w.TryToWakeUp(p).WakeSucceeds(p)
    ensures w.TryToWakeUp(p).TryToWakeUp(p) == w.TryToWakeUp(p)
  {
  }
}
