/** The per-CPU table behind cpu_curr and last_schedule over whole runs of sched.c. Only
    init_idle writes it: it records the CPU's own idle task. schedule() records in the task
    it dispatches which CPU that task is on, and leaves the table alone. */
module CpuTable {
  import opened IdleCpu
  import opened WaitQueue

  /** init_idle on `cpu`, whose current task then is its idle task, at time `now`. */
  function InitIdle(m: Cpus, cpu: nat, now: nat): (m': Cpus)
    requires m.Valid() && cpu < |m.current| && now < NO_IDLE
    ensures m'.Valid()
  {
    m.(current := m.current[cpu := m.idle[cpu]], lastSchedule := m.lastSchedule[cpu := now])
  }

  /** The first `cpus` CPUs have been through init_idle, at the given times. */
  function Boot(m: Cpus, cpus: nat, times: seq<nat>): (m': Cpus)
    requires m.Valid() && cpus <= |m.current| == |times|
    requires forall c :: 0 <= c < |times| ==> times[c] < NO_IDLE
    ensures m'.Valid() && |m'.current| == |m.current| && m'.tasks == m.tasks && m'.idle == m.idle && m'.order == m.order
    ensures forall c :: 0 <= c < cpus ==> m'.current[c] == m.idle[c] && m'.lastSchedule[c] == times[c]
  {
    if cpus == 0 then m else InitIdle(Boot(m, cpus - 1, times), cpus - 1, times[cpus - 1])
  }

  /** A dispatch: schedule() on `cpu` picks `next`. */
  datatype Dispatch = Dispatch(cpu: nat, next: nat)

  predicate Possible(m: Cpus, ds: seq<Dispatch>) {
    forall k :: 0 <= k < |ds| ==> ds[k].cpu < |m.current| && ds[k].next < |m.tasks|
  }

  /** task_set_cpu. */
  function SetCpu(m: Cpus, d: Dispatch): (m': Cpus)
    requires m.Valid() && d.next < |m.tasks|
    ensures m'.Valid() && m' == m.(tasks := m'.tasks) && |m'.tasks| == |m.tasks|
  {
    m.(tasks := m.tasks[d.next := m.tasks[d.next].(processor := d.cpu)])
  }

  /** The table after any dispatches. */
  function After(m: Cpus, ds: seq<Dispatch>): (m': Cpus)
    requires m.Valid() && Possible(m, ds)
    ensures m'.Valid() && m' == m.(tasks := m'.tasks) && |m'.tasks| == |m.tasks|
    decreases |ds|
  {
    if ds == [] then m else SetCpu(After(m, ds[..|ds| - 1]), ds[|ds| - 1])
  }

  /** The table of a booted machine after any dispatches. */
  ghost predicate Running(m: Cpus) {
    m.Valid() && m.current == m.idle && forall c :: 0 <= c < |m.current| ==> m.lastSchedule[c] < NO_IDLE
  }

  /** However long the machine runs, every CPU looks idle, since the time it booted. */
  lemma AlwaysLooksIdle(m: Cpus, times: seq<nat>, ds: seq<Dispatch>)
    requires m.Valid() && |times| == |m.current| && forall c :: 0 <= c < |times| ==> times[c] < NO_IDLE
    requires Possible(Boot(m, |m.current|, times), ds)
    ensures var m' := After(Boot(m, |m.current|, times), ds);
            Running(m') && m'.idle == m.idle && m'.lastSchedule == times
  {
    var m0 := Boot(m, |m.current|, times);
    assert m0.current == m0.idle && m0.lastSchedule == times;
  }

  /** reschedule_idle therefore never preempts, and acts exactly when the woken task may
      use its last CPU or one that is scanned. */
  lemma NeverPreempts(m: Cpus, p: nat, choice: Choice)
    requires Running(m) && p < |m.tasks| && m.tasks[p].processor < |m.current| && Chosen(m, p, choice)
    ensures !choice.Preempt?
    ensures Shortcut(m, p) <==> m.allowed[m.tasks[p].processor]
    ensures choice.OnIdle? <==>
            m.allowed[m.tasks[p].processor] || exists i :: 0 <= i < |m.order| && m.allowed[m.order[i]]
  {
    if i :| 0 <= i < |m.order| && m.allowed[m.order[i]] {
      IdleBeatsPreemption(m, p, choice, i);
    }
  }

  /** The scan position that wins while every CPU looks idle. */
  ghost predicate Winner(m: Cpus, b: nat)
    requires m.Valid()
  {
    if exists a: nat :: m.FirstPair(a) then m.FirstPair(b) else m.OldestIdle(|m.order|, b)
  }

  lemma WinnerIsChosen(m: Cpus, p: nat, choice: Choice) returns (b: nat)
    requires Running(m) && p < |m.tasks| && m.tasks[p].processor < |m.current|
    requires Chosen(m, p, choice) && !Shortcut(m, p) && choice != Nobody
    ensures Winner(m, b) && b < |m.order| && choice.task == m.Current(b)
  {
    NeverPreempts(m, p, choice);
    if exists a: nat :: m.FirstPair(a) {
      b :| m.FirstPair(b) && choice == Told(m, b, m.Last(b) != NO_IDLE);
    } else {
      b :| m.OldestIdle(|m.order|, b) && choice == Told(m, b, true);
    }
  }

  lemma WinnerUnique(m: Cpus, a: nat, b: nat)
    requires m.Valid() && Winner(m, a) && Winner(m, b)
    ensures a == b
  {
    if !exists c: nat :: m.FirstPair(c) {
      assert m.Last(a) == m.Last(b);
    }
  }

  /** The winner does not depend on where the tasks are. */
  lemma WinnerFrame(m: Cpus, m': Cpus, b: nat)
    requires m.Valid() && m'.Valid() && m' == m.(tasks := m'.tasks)
    ensures Winner(m', b) <==> Winner(m, b)
  {
    forall i | 0 <= i < |m.order|
      ensures m'.PairIdleAt(i) == m.PairIdleAt(i) && m'.IdleAt(i) == m.IdleAt(i) && m'.Last(i) == m.Last(i)
    {
    }
    forall a: nat ensures m'.FirstPair(a) <==> m.FirstPair(a) {
    }
  }

  /** The CPU whose task is told by a scan is settled at boot: no dispatch changes it. */
  lemma ScanIsSettled(m: Cpus, ds: seq<Dispatch>, p: nat, x: Choice, y: Choice)
    requires Running(m) && Possible(m, ds) && p < |m.tasks| && m.tasks[p].processor < |m.current|
    requires After(m, ds).tasks[p].processor < |m.current|
    requires !Shortcut(m, p) && !Shortcut(After(m, ds), p)
    requires Chosen(m, p, x) && Chosen(After(m, ds), p, y)
    ensures x != Nobody <==> y != Nobody
    ensures x != Nobody ==> x.task == y.task
  {
    NeverPreempts(m, p, x);
    NeverPreempts(After(m, ds), p, y);
    if x != Nobody {
      var a := WinnerIsChosen(m, p, x);
      var b := WinnerIsChosen(After(m, ds), p, y);
      WinnerFrame(m, After(m, ds), b);
      WinnerUnique(m, a, b);
    }
  }

  /** sys_sched_yield never takes a CPU off the pending count, so a queued caller always
      goes to the tail. */
  lemma {:induction false} NoCpuIsBusy(order: seq<nat>, table: seq<Pid>)
    requires forall i :: 0 <= i < |order| ==> order[i] < |table|
    ensures BusyCpus(order, table, table) == 0
  {
    if order != [] {
      NoCpuIsBusy(order[..|order| - 1], table);
    }
  }

  // ------------------------------------------------- which CPU gets the signal

  /** The dispatch does not take a scanned CPU's current task to another CPU. */
  predicate LeavesPlaces(m: Cpus, d: Dispatch)
    requires m.Valid()
  {
    forall i :: 0 <= i < |m.order| && m.Current(i) == d.next ==> m.order[i] == d.cpu
  }

  /** Every scanned cpu_curr task is recorded on its CPU after every dispatch of ds. */
  predicate PlacesKept(m: Cpus, ds: seq<Dispatch>)
    requires m.Valid() && Possible(m, ds)
    decreases |ds|
  {
    InPlace(After(m, ds).tasks, m.current, m.order) && (ds == [] || PlacesKept(m, ds[..|ds| - 1]))
  }

  /** From a table with every task in place they stay so for as long as, and only as long
      as, no dispatch takes a scanned CPU's cpu_curr task, its idle task, elsewhere. */
  lemma {:induction false} PlacesStayIff(m: Cpus, ds: seq<Dispatch>)
    requires m.Valid() && Possible(m, ds) && InPlace(m.tasks, m.current, m.order)
    ensures PlacesKept(m, ds) <==> forall k :: 0 <= k < |ds| ==> LeavesPlaces(m, ds[k])
    decreases |ds|
  {
    if ds != [] {
      var front, last := ds[..|ds| - 1], ds[|ds| - 1];
      PlacesStayIff(m, front);
      if PlacesKept(m, front) {
        PlacesStepIff(m, After(m, front), last);
      }
      assert forall k :: 0 <= k < |ds| ==> ds[k] == if k < |front| then front[k] else last;
    }
  }

  lemma PlacesStepIff(m: Cpus, now: Cpus, d: Dispatch)
    requires m.Valid() && now.Valid() && now == m.(tasks := now.tasks) && |now.tasks| == |m.tasks|
    requires d.next < |m.tasks| && InPlace(now.tasks, m.current, m.order)
    ensures InPlace(SetCpu(now, d).tasks, m.current, m.order) <==> LeavesPlaces(m, d)
  {
    if i :| 0 <= i < |m.order| && m.Current(i) == d.next && m.order[i] != d.cpu {
      assert SetCpu(now, d).tasks[m.current[m.order[i]]].processor == d.cpu;
    }
  }

  /** So while no idle task is dispatched elsewhere, a wakeup signals only CPUs that pass
      can_schedule. */
  lemma SignalsStaySchedulable(m: Cpus, ds: seq<Dispatch>, p: nat, choice: Choice)
    requires m.Valid() && Possible(m, ds) && InPlace(m.tasks, m.current, m.order)
    requires forall k :: 0 <= k < |ds| ==> LeavesPlaces(m, ds[k])
    requires p < |m.tasks| && After(m, ds).tasks[p].processor < |m.current|
    requires Chosen(After(m, ds), p, choice) && choice != Nobody
    ensures choice.task < |m.tasks| && Signalled(After(m, ds), choice) < |m.current|
    ensures m.allowed[Signalled(After(m, ds), choice)]
  {
    PlacesStayIff(m, ds);
    OnlySchedulableSignalled(After(m, ds), p, choice);
  }
}
