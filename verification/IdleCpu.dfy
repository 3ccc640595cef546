/** goodness, preemption_goodness and reschedule_idle of sched.c, built for SMP. */
module IdleCpu {
  import opened Sync

  /** The task fields goodness reads; mm 0 is a task without an address space. */
  datatype Task = Task(
    yielding: bool, other: bool, counter: int, nice: int, rtPriority: int,
    processor: nat, mm: nat, activeMm: nat)

  /** PROC_CHANGE_PENALTY is set per architecture. */
  function Goodness(p: Task, cpu: nat, mm: nat, penalty: nat): int {
    if p.yielding then -1
    else if p.other then
      if p.counter == 0 then 0
      else
        p.counter + (if p.processor == cpu then penalty else 0)
        + (if p.mm == mm || p.mm == 0 then 1 else 0) + 20 - p.nice
    else 1000 + p.rtPriority
  }

  function PreemptionGoodness(prev: Task, p: Task, cpu: nat, penalty: nat): int {
    Goodness(p, cpu, prev.activeMm, penalty) - Goodness(prev, cpu, prev.activeMm, penalty)
  }

  /** The ranges the kernel keeps counters, nice values and priorities in. */
  predicate InRange(p: Task, penalty: nat) {
    0 <= p.counter && -20 <= p.nice <= 19 && 0 <= p.rtPriority && p.counter + penalty + 41 < 1000
  }

  /** Who may preempt whom: a yielding task nobody, a real-time task every ordinary one,
      an ordinary one no real-time task, and a task out of time only a yielding one. */
  lemma PreemptionOrder(prev: Task, p: Task, cpu: nat, penalty: nat)
    requires InRange(prev, penalty) && InRange(p, penalty)
    ensures p.yielding ==> PreemptionGoodness(prev, p, cpu, penalty) <= 0
    ensures !p.yielding && !p.other && (prev.yielding || prev.other) ==> PreemptionGoodness(prev, p, cpu, penalty) > 0
    ensures !prev.yielding && !prev.other && p.other ==> PreemptionGoodness(prev, p, cpu, penalty) < 0
    ensures !p.yielding && p.other && p.counter == 0 ==>
              (PreemptionGoodness(prev, p, cpu, penalty) > 0 <==> prev.yielding)
  {
  }

  /** Between ordinary tasks with time left: a tick counts one, a step of nice one the other
      way, having last run on this CPU the penalty, and sharing the address space (or
      having none) one. The scale starts at the ticks left plus one. */
  lemma OrdinaryGoodness(p: Task, q: Task, cpu: nat, mm: nat, penalty: nat)
    requires !p.yielding && p.other && p.counter > 0 && !q.yielding && q.other && q.counter > 0
    ensures Goodness(p, cpu, mm, penalty) - Goodness(q, cpu, mm, penalty)
            == (p.counter - q.counter) - (p.nice - q.nice)
               + (if p.processor == cpu then penalty else 0) - (if q.processor == cpu then penalty else 0)
               + (if p.mm in {0, mm} then 1 else 0) - (if q.mm in {0, mm} then 1 else 0)
    ensures p.nice == 19 && p.processor != cpu && p.mm !in {0, mm} ==> Goodness(p, cpu, mm, penalty) == p.counter + 1
  {
  }

  /** When exactly a real-time task is worth more than an ordinary one with time left. */
  lemma RealTimeThreshold(p: Task, q: Task, cpu: nat, mm: nat, penalty: nat)
    requires !p.yielding && !p.other && !q.yielding && q.other && q.counter > 0
    ensures Goodness(p, cpu, mm, penalty) > Goodness(q, cpu, mm, penalty) <==>
            q.counter + (if q.processor == cpu then penalty else 0) + (if q.mm in {0, mm} then 1 else 0)
            < 980 + q.nice + p.rtPriority
  {
  }

  /** Of two tasks that would differ in nothing else, preemption favours the one with the
      address space that prev has active. */
  lemma SharedSpaceIsEasier(prev: Task, p: Task, q: Task, cpu: nat, penalty: nat)
    requires !p.yielding && p.other && p.counter > 0 && q == p.(mm := q.mm)
    requires p.mm == prev.activeMm && q.mm !in {0, prev.activeMm}
    ensures PreemptionGoodness(prev, p, cpu, penalty) == PreemptionGoodness(prev, q, cpu, penalty) + 1
  {
  }

  // ---------------------------------------------------------- the CPU scan

  /** (cycles_t) -1, the value oldest_idle starts from. */
  const NO_IDLE := 0xFFFF_FFFF_FFFF_FFFF

  /** What reschedule_idle sees: per CPU its current and idle task and when it last
      scheduled; `order` is cpu_logical_map, `siblings` is present when smp_num_siblings
      is 2. */
  datatype Cpus = Cpus(
    tasks: seq<Task>, current: seq<nat>, idle: seq<nat>, lastSchedule: seq<nat>,
    allowed: seq<bool>, order: seq<nat>, siblings: Option<seq<nat>>, penalty: nat)
  {
    predicate Valid() {
      && |current| == |idle| == |lastSchedule| == |allowed|
      && (forall c :: 0 <= c < |current| ==>
            current[c] < |tasks| && idle[c] < |tasks| && lastSchedule[c] <= 0xFFFF_FFFF_FFFF_FFFF)
      && (forall i :: 0 <= i < |order| ==> order[i] < |current|)
      && (siblings.Some? ==> |siblings.value| == |current|
                             && forall c :: 0 <= c < |current| ==> siblings.value[c] < |current|)
    }

    predicate IsIdle(c: nat)
      requires Valid() && c < |current|
    {
      current[c] == idle[c]
    }

    /** Position i of the scan is a schedulable idle CPU. */
    predicate IdleAt(i: nat)
      requires Valid() && i < |order|
    {
      allowed[order[i]] && IsIdle(order[i])
    }

    predicate BusyAt(i: nat)
      requires Valid() && i < |order|
    {
      allowed[order[i]] && !IsIdle(order[i])
    }

    predicate PairIdleAt(i: nat)
      requires Valid() && i < |order|
    {
      IdleAt(i) && siblings.Some? && IsIdle(siblings.value[order[i]])
    }

    function Current(i: nat): nat
      requires Valid() && i < |order|
    {
      current[order[i]]
    }

    function Last(i: nat): nat
      requires Valid() && i < |order|
    {
      lastSchedule[order[i]]
    }

    function Prio(i: nat, p: nat): int
      requires Valid() && i < |order| && p < |tasks|
    {
      PreemptionGoodness(tasks[current[order[i]]], tasks[p], order[i], penalty)
    }

    /** Among the first `upto` positions b is the first schedulable idle CPU of least
        last_schedule. */
    predicate OldestIdle(upto: nat, b: nat)
      requires Valid() && upto <= |order|
    {
      && b < upto && IdleAt(b) && Last(b) < NO_IDLE
      && (forall i :: 0 <= i < upto && IdleAt(i) ==> Last(b) <= Last(i))
      && (forall i :: 0 <= i < b && IdleAt(i) ==> Last(b) < Last(i))
    }

    predicate NoOldIdle(upto: nat)
      requires Valid() && upto <= |order|
    {
      forall i :: 0 <= i < upto && IdleAt(i) ==> Last(i) == NO_IDLE
    }

    /** Among the first `upto` positions b is the first busy CPU of greatest, and positive,
        preemption goodness. */
    predicate EasiestBusy(upto: nat, b: nat, p: nat)
      requires Valid() && upto <= |order| && p < |tasks|
    {
      && b < upto && BusyAt(b) && Prio(b, p) > 0
      && (forall i :: 0 <= i < upto && BusyAt(i) ==> Prio(i, p) <= Prio(b, p))
      && (forall i :: 0 <= i < b && BusyAt(i) ==> Prio(i, p) < Prio(b, p))
    }

    predicate NoBusy(upto: nat, p: nat)
      requires Valid() && upto <= |order| && p < |tasks|
    {
      forall i :: 0 <= i < upto && BusyAt(i) ==> Prio(i, p) <= 0
    }

    predicate FirstPair(b: nat)
      requires Valid()
    {
      b < |order| && PairIdleAt(b) && forall i :: 0 <= i < b ==> !PairIdleAt(i)
    }
  }

  /** What the loop has found after `upto` CPUs: `at` is where target_tsk was seen. */
  ghost predicate BestSoFar(m: Cpus, p: nat, upto: nat, oldestIdle: nat, target: Option<nat>, at: nat, maxPrio: int)
    requires m.Valid() && p < |m.tasks| && upto <= |m.order|
  {
    && oldestIdle <= NO_IDLE
    && (target.Some? ==> at < upto && target.value == m.Current(at))
    && if oldestIdle < NO_IDLE then target.Some? && m.OldestIdle(upto, at) && oldestIdle == m.Last(at)
       else
         && m.NoOldIdle(upto)
         && if target.Some? then m.EasiestBusy(upto, at, p) && maxPrio == m.Prio(at, p)
            else m.NoBusy(upto, p) && maxPrio == 0
  }

  /** oldest_idle and target_tsk when the loop has ended, stated without it. */
  ghost predicate Scanned(m: Cpus, p: nat, oldestIdle: nat, target: Option<nat>)
    requires m.Valid() && p < |m.tasks|
  {
    if exists b: nat :: m.FirstPair(b) then
      exists b: nat :: m.FirstPair(b) && oldestIdle == m.Last(b) && target == Some(m.Current(b))
    else if exists b: nat :: m.OldestIdle(|m.order|, b) then
      exists b: nat :: m.OldestIdle(|m.order|, b) && oldestIdle == m.Last(b) && target == Some(m.Current(b))
    else if exists b: nat :: m.EasiestBusy(|m.order|, b, p) then
      oldestIdle == NO_IDLE
      && exists b: nat :: m.EasiestBusy(|m.order|, b, p) && target == Some(m.Current(b))
    else oldestIdle == NO_IDLE && target == None
  }

  lemma BestIsScanned(m: Cpus, p: nat, oldestIdle: nat, target: Option<nat>, at: nat, maxPrio: int)
    requires m.Valid() && p < |m.tasks|
    requires BestSoFar(m, p, |m.order|, oldestIdle, target, at, maxPrio)
    requires forall b: nat :: !m.FirstPair(b)
    ensures Scanned(m, p, oldestIdle, target)
  {
  }

  method ScanCpus(m: Cpus, p: nat) returns (oldestIdle: nat, target: Option<nat>)
    requires m.Valid() && p < |m.tasks|
    ensures Scanned(m, p, oldestIdle, target)
  {
    oldestIdle, target := NO_IDLE, None;
    ghost var at := 0;
    var maxPrio := 0;
    var i := 0;
    while i < |m.order|
      invariant i <= |m.order|
      invariant forall j :: 0 <= j < i ==> !m.PairIdleAt(j)
      invariant BestSoFar(m, p, i, oldestIdle, target, at, maxPrio)
    {
      var cpu := m.order[i];
      if m.allowed[cpu] {
        var tsk := m.current[cpu];
        if tsk == m.idle[cpu] {
          if m.siblings.Some? && m.current[m.siblings.value[cpu]] == m.idle[m.siblings.value[cpu]] {
            assert m.FirstPair(i);
            return m.lastSchedule[cpu], Some(tsk);
          }
          if m.lastSchedule[cpu] < oldestIdle {
            oldestIdle, target, at := m.lastSchedule[cpu], Some(tsk), i;
          }
        } else if oldestIdle == NO_IDLE {
          var prio := PreemptionGoodness(m.tasks[tsk], m.tasks[p], cpu, m.penalty);
          if prio > maxPrio {
            maxPrio, target, at := prio, Some(tsk), i;
          }
        }
      }
      i := i + 1;
    }
    BestIsScanned(m, p, oldestIdle, target, at, maxPrio);
  }

  // --------------------------------------------------- what the wakeup does

  /** The task told to reschedule, and how: through its idle CPU or by preemption. */
  datatype Choice = Nobody | OnIdle(task: nat, cpu: nat) | Preempt(task: nat)

  predicate Shortcut(m: Cpus, p: nat)
    requires m.Valid() && p < |m.tasks| && m.tasks[p].processor < |m.current|
  {
    m.allowed[m.tasks[p].processor] && m.IsIdle(m.tasks[p].processor)
  }

  /** Which task a wakeup of p picks, stated without the loop. */
  ghost predicate Chosen(m: Cpus, p: nat, choice: Choice)
    requires m.Valid() && p < |m.tasks| && m.tasks[p].processor < |m.current|
  {
    if Shortcut(m, p) then
      choice == OnIdle(m.idle[m.tasks[p].processor], m.tasks[p].processor)
    else if exists b: nat :: m.FirstPair(b) then
      exists b: nat :: m.FirstPair(b) && choice == Told(m, b, m.Last(b) != NO_IDLE)
    else if exists b: nat :: m.OldestIdle(|m.order|, b) then
      exists b: nat :: m.OldestIdle(|m.order|, b) && choice == Told(m, b, true)
    else if exists b: nat :: m.EasiestBusy(|m.order|, b, p) then
      exists b: nat :: m.EasiestBusy(|m.order|, b, p) && choice == Told(m, b, false)
    else choice == Nobody
  }

  function Told(m: Cpus, b: nat, idle: bool): Choice
    requires m.Valid() && b < |m.order|
  {
    if idle then OnIdle(m.Current(b), m.tasks[m.Current(b)].processor) else Preempt(m.Current(b))
  }

  lemma ScannedIsChosen(m: Cpus, p: nat, oldestIdle: nat, target: Option<nat>)
    requires m.Valid() && p < |m.tasks| && m.tasks[p].processor < |m.current|
    requires !Shortcut(m, p) && Scanned(m, p, oldestIdle, target)
    ensures target.Some? ==> target.value < |m.tasks|
    ensures Chosen(m, p, if target.None? then Nobody
                         else if oldestIdle != NO_IDLE then OnIdle(target.value, m.tasks[target.value].processor)
                         else Preempt(target.value))
  {
  }

  /** need_resched of every task and the CPUs sent an interrupt, in order. */
  class Signals {
    var needResched: seq<int>
    var sent: seq<nat>

    /** The send_now_idle label: an idle task already polling need_resched gets no interrupt. */
    method SendNowIdle(tsk: nat, bestCpu: nat, thisCpu: nat)
      requires tsk < |needResched|
      modifies this
      ensures needResched == old(needResched)[tsk := 1]
      ensures sent == old(sent) + if bestCpu != thisCpu && old(needResched)[tsk] == 0 then [bestCpu] else []
    {
      var was := needResched[tsk];
      needResched := needResched[tsk := 1];
      if bestCpu != thisCpu && was == 0 {
        sent := sent + [bestCpu];
      }
    }

    /** reschedule_idle(p). The source returns nothing; the choice tells what was done. */
    method RescheduleIdle(m: Cpus, p: nat, thisCpu: nat) returns (choice: Choice)
      requires m.Valid() && p < |m.tasks| == |needResched| && m.tasks[p].processor < |m.current|
      modifies this
      ensures Chosen(m, p, choice)
      ensures match choice
              case Nobody => needResched == old(needResched) && sent == old(sent)
              case OnIdle(t, c) =>
                && t < |m.tasks|
                && needResched == old(needResched)[t := 1]
                && sent == old(sent) + (if c != thisCpu && old(needResched)[t] == 0 then [c] else [])
              case Preempt(t) =>
                && t < |m.tasks|
                && needResched == old(needResched)[t := 1]
                && sent == old(sent) + (if m.tasks[t].processor != thisCpu then [m.tasks[t].processor] else [])
    {
      var bestCpu := m.tasks[p].processor;
      if m.allowed[bestCpu] && m.current[bestCpu] == m.idle[bestCpu] {
        SendNowIdle(m.idle[bestCpu], bestCpu, thisCpu);
        return OnIdle(m.idle[bestCpu], bestCpu);
      }
      var oldestIdle, target := ScanCpus(m, p);
      ScannedIsChosen(m, p, oldestIdle, target);
      if target.None? {
        return Nobody;
      }
      var tsk := target.value;
      if oldestIdle != NO_IDLE {
        SendNowIdle(tsk, m.tasks[tsk].processor, thisCpu);
        return OnIdle(tsk, m.tasks[tsk].processor);
      }
      needResched := needResched[tsk := 1];
      if m.tasks[tsk].processor != thisCpu {
        sent := sent + [m.tasks[tsk].processor];
      }
      return Preempt(tsk);
    }
  }

  /** The three winning positions are unique, so Chosen admits one choice. */
  lemma ChoiceUnique(m: Cpus, p: nat, x: Choice, y: Choice)
    requires m.Valid() && p < |m.tasks| && m.tasks[p].processor < |m.current|
    requires Chosen(m, p, x) && Chosen(m, p, y)
    ensures x == y
  {
    forall a: nat, b: nat | m.OldestIdle(|m.order|, a) && m.OldestIdle(|m.order|, b) ensures a == b {
      assert m.Last(a) == m.Last(b);
    }
    forall a: nat, b: nat | m.EasiestBusy(|m.order|, a, p) && m.EasiestBusy(|m.order|, b, p) ensures a == b {
      assert m.Prio(a, p) == m.Prio(b, p);
    }
  }

  // ------------------------------------------------- what a choice is worth

  /** Without siblings, against every scanned CPU c = order[i] that p may use: an idle one
      was scheduled on no earlier than the chosen idle one; and nobody is preempted while
      such a CPU is idle (and its time is below the sentinel), nor while an easier
      preemption is to be had. */
  lemma ChoiceIsBest(m: Cpus, p: nat, choice: Choice, i: nat)
    requires m.Valid() && p < |m.tasks| && m.tasks[p].processor < |m.current| && m.siblings.None?
    requires Chosen(m, p, choice) && !Shortcut(m, p)
    requires i < |m.order| && m.allowed[m.order[i]]
    ensures var c := m.order[i];
            && (choice.Nobody? ==>
                  if m.current[c] == m.idle[c] then m.lastSchedule[c] == 0xFFFF_FFFF_FFFF_FFFF
                  else PreemptionGoodness(m.tasks[m.current[c]], m.tasks[p], c, m.penalty) <= 0)
            && (choice.OnIdle? && m.current[c] == m.idle[c] ==>
                  exists d :: d in m.order && m.allowed[d] && m.current[d] == m.idle[d] == choice.task
                              && m.lastSchedule[d] <= m.lastSchedule[c])
            && (choice.Preempt? ==>
                  if m.current[c] == m.idle[c] then m.lastSchedule[c] == 0xFFFF_FFFF_FFFF_FFFF
                  else
                    exists d :: d in m.order && m.allowed[d] && m.current[d] == choice.task != m.idle[d]
                      && PreemptionGoodness(m.tasks[choice.task], m.tasks[p], d, m.penalty) > 0
                      && PreemptionGoodness(m.tasks[m.current[c]], m.tasks[p], c, m.penalty)
                         <= PreemptionGoodness(m.tasks[choice.task], m.tasks[p], d, m.penalty))
  {
    assert !exists b: nat :: m.FirstPair(b);
    if m.IdleAt(i) && m.Last(i) < NO_IDLE {
      var b := LeastIdle(m, |m.order|, i);
    }
    if choice.Nobody? && m.BusyAt(i) && m.Prio(i, p) > 0 && (forall b: nat :: !m.OldestIdle(|m.order|, b)) {
      var b := EasiestExists(m, p, |m.order|, i);
    }
    if exists b: nat :: m.OldestIdle(|m.order|, b) {
      var b: nat :| m.OldestIdle(|m.order|, b) && choice == Told(m, b, true);
      assert m.order[b] in m.order;
    } else if exists b: nat :: m.EasiestBusy(|m.order|, b, p) {
      var b: nat :| m.EasiestBusy(|m.order|, b, p) && choice == Told(m, b, false);
      assert m.BusyAt(b) && m.order[b] in m.order;
      if m.BusyAt(i) { assert m.Prio(i, p) <= m.Prio(b, p); }
    }
  }

  lemma {:induction false} EasiestExists(m: Cpus, p: nat, upto: nat, i: nat) returns (b: nat)
    requires m.Valid() && p < |m.tasks| && i < upto <= |m.order| && m.BusyAt(i) && m.Prio(i, p) > 0
    ensures m.EasiestBusy(upto, b, p)
    decreases upto
  {
    if j :| 0 <= j < upto - 1 && m.BusyAt(j) && m.Prio(j, p) > 0 {
      b := EasiestExists(m, p, upto - 1, j);
      if m.BusyAt(upto - 1) && m.Prio(upto - 1, p) > m.Prio(b, p) {
        b := upto - 1;
      }
    } else {
      b := i;
    }
  }

  /** With siblings, the first scanned CPU that p may use and that is idle together with
      its sibling is taken, whatever the times. */
  lemma PairIsTaken(m: Cpus, p: nat, choice: Choice, i: nat)
    requires m.Valid() && p < |m.tasks| && m.tasks[p].processor < |m.current| && m.siblings.Some?
    requires Chosen(m, p, choice) && !Shortcut(m, p) && i < |m.order|
    requires var c, d := m.order[i], m.siblings.value[m.order[i]];
             m.allowed[c] && m.current[c] == m.idle[c] && m.current[d] == m.idle[d]
    requires forall j :: 0 <= j < i && m.allowed[m.order[j]] && m.current[m.order[j]] == m.idle[m.order[j]] ==>
               var d := m.siblings.value[m.order[j]]; m.current[d] != m.idle[d]
    ensures choice != Nobody && choice.task == m.current[m.order[i]]
  {
    assert m.FirstPair(i);
  }

  // ------------------------------------------- which CPU gets the signal

  /** The CPU a choice signals: for a scanned CPU the one recorded in its current task. */
  function Signalled(m: Cpus, choice: Choice): nat
    requires choice != Nobody && (choice.Preempt? ==> choice.task < |m.tasks|)
  {
    if choice.OnIdle? then choice.cpu else m.tasks[choice.task].processor
  }

  /** Outside the shortcut the choice comes from a scanned CPU that passed can_schedule. */
  lemma ChosenWasScanned(m: Cpus, p: nat, choice: Choice) returns (b: nat)
    requires m.Valid() && p < |m.tasks| && m.tasks[p].processor < |m.current|
    requires Chosen(m, p, choice) && choice != Nobody && !Shortcut(m, p)
    ensures b < |m.order| && m.allowed[m.order[b]]
    ensures choice.task == m.Current(b) < |m.tasks| && Signalled(m, choice) == m.tasks[m.Current(b)].processor
  {
    if exists b: nat :: m.FirstPair(b) {
      b :| m.FirstPair(b) && choice == Told(m, b, m.Last(b) != NO_IDLE);
    } else if exists b: nat :: m.OldestIdle(|m.order|, b) {
      b :| m.OldestIdle(|m.order|, b) && choice == Told(m, b, true);
    } else {
      b :| m.EasiestBusy(|m.order|, b, p) && choice == Told(m, b, false);
    }
  }

  /** Every scanned CPU is the one recorded in its cpu_curr task. */
  predicate InPlace(tasks: seq<Task>, current: seq<nat>, order: seq<nat>)
    requires forall c :: 0 <= c < |current| ==> current[c] < |tasks|
    requires forall i :: 0 <= i < |order| ==> order[i] < |current|
  {
    forall i :: 0 <= i < |order| ==> tasks[current[order[i]]].processor == order[i]
  }

  /** With every cpu_curr task in place, only a CPU that passes can_schedule is signalled,
      and it is the one the chosen task is cpu_curr of. */
  lemma OnlySchedulableSignalled(m: Cpus, p: nat, choice: Choice)
    requires m.Valid() && p < |m.tasks| && m.tasks[p].processor < |m.current|
    requires Chosen(m, p, choice) && choice != Nobody && InPlace(m.tasks, m.current, m.order)
    ensures choice.task < |m.tasks| && Signalled(m, choice) < |m.current|
    ensures m.allowed[Signalled(m, choice)] && m.current[Signalled(m, choice)] == choice.task
  {
    if !Shortcut(m, p) {
      var b := ChosenWasScanned(m, p, choice);
    }
  }

  /** No wakeup of a task that is nobody's current one signals a CPU that fails
      can_schedule, whoever is woken, whatever CPUs it may use and whenever they last
      scheduled. The woken task is the one after the given ones. */
  ghost predicate SignalsAreSchedulable(tasks: seq<Task>, current: seq<nat>, idle: seq<nat>, order: seq<nat>) {
    forall m: Cpus, q: Task, choice: Choice ::
      Sees(m, tasks + [q], current, idle, order) && Wakes(m, |tasks|, choice) ==> m.allowed[Signalled(m, choice)]
  }

  predicate Sees(m: Cpus, tasks: seq<Task>, current: seq<nat>, idle: seq<nat>, order: seq<nat>) {
    m.tasks == tasks && m.current == current && m.idle == idle && m.order == order && m.Valid()
  }

  ghost predicate Wakes(m: Cpus, p: nat, choice: Choice)
    requires m.Valid()
  {
    && p < |m.tasks| && m.tasks[p].processor < |m.current|
    && Chosen(m, p, choice) && choice != Nobody
    && choice.task < |m.tasks| && Signalled(m, choice) < |m.current|
  }

  /** Tables of a consistent size: what Valid says of them whoever is woken. */
  predicate TablesOk(tasks: seq<Task>, current: seq<nat>, idle: seq<nat>, order: seq<nat>) {
    && |current| == |idle|
    && (forall t :: 0 <= t < |tasks| ==> tasks[t].processor < |current|)
    && (forall c :: 0 <= c < |current| ==> current[c] < |tasks| && idle[c] < |tasks|)
    && (forall i :: 0 <= i < |order| ==> order[i] < |current|)
  }

  /** The scan checks the CPU it looks at and signals the one recorded in the task found
      there. The two always agree exactly when every scanned CPU's task is in place. */
  lemma SignalsAreSchedulableIff(tasks: seq<Task>, current: seq<nat>, idle: seq<nat>, order: seq<nat>)
    requires TablesOk(tasks, current, idle, order)
    ensures SignalsAreSchedulable(tasks, current, idle, order) <==> InPlace(tasks, current, order)
  {
    if InPlace(tasks, current, order) {
      forall m: Cpus, q: Task, choice: Choice |
        Sees(m, tasks + [q], current, idle, order) && Wakes(m, |tasks|, choice)
        ensures m.allowed[Signalled(m, choice)]
      {
        OnlySchedulableSignalled(m, |tasks|, choice);
      }
    } else {
      var i :| 0 <= i < |order| && tasks[current[order[i]]].processor != order[i];
      var m, q, choice := StrayTaskSignalsElsewhere(tasks, current, idle, order, i);
      assert Sees(m, tasks + [q], current, idle, order) && Wakes(m, |tasks|, choice);
    }
  }

  /** A real-time task that beats `stray`, last run on the CPU recorded for `stray`. */
  function Urgent(stray: Task, cpu: nat): Task {
    var g := Goodness(stray, cpu, stray.activeMm, 0);
    Task(false, false, 0, 0, if g > 0 then g else 0, stray.processor, 0, 0)
  }

  lemma UrgentPreempts(stray: Task, cpu: nat)
    ensures PreemptionGoodness(stray, Urgent(stray, cpu), cpu, 0) > 0
  {
  }

  /** The failing wakeup: an urgent task that may only use the CPU whose current task is
      recorded elsewhere. Idle or busy, that CPU wins the scan, and the recorded one is
      signalled. */
  lemma StrayTaskSignalsElsewhere(tasks: seq<Task>, current: seq<nat>, idle: seq<nat>, order: seq<nat>, i: nat)
    returns (m: Cpus, q: Task, choice: Choice)
    requires TablesOk(tasks, current, idle, order)
    requires i < |order| && tasks[current[order[i]]].processor != order[i]
    ensures Sees(m, tasks + [q], current, idle, order)
    ensures Wakes(m, |tasks|, choice) && !m.allowed[Signalled(m, choice)]
  {
    var n, cpu := |current|, order[i];
    q := Urgent(tasks[current[cpu]], cpu);
    m := Cpus(tasks + [q], current, idle, seq(n, c => 0), seq(n, c => c == cpu), order, None, 0);
    if m.IsIdle(cpu) {
      assert m.IdleAt(i) && m.Last(i) < NO_IDLE;
      var b := LeastIdle(m, |order|, i);
      choice := Told(m, b, true);
    } else {
      UrgentPreempts(tasks[current[cpu]], cpu);
      var b := FirstUse(order, cpu);
      assert m.EasiestBusy(|order|, b, |tasks|);
      choice := Told(m, b, false);
    }
  }

  lemma {:induction false} FirstUse(order: seq<nat>, cpu: nat) returns (b: nat)
    requires cpu in order
    ensures b < |order| && order[b] == cpu && forall j :: 0 <= j < b ==> order[j] != cpu
  {
    if order[0] == cpu {
      b := 0;
    } else {
      b := FirstUse(order[1..], cpu);
      b := b + 1;
    }
  }

  /** A schedulable idle CPU that has been scheduled on at a representable time always
      beats preemption, except when the first idle sibling pair carries the sentinel as
      its time. */
  lemma IdleBeatsPreemption(m: Cpus, p: nat, choice: Choice, i: nat)
    requires m.Valid() && p < |m.tasks| && m.tasks[p].processor < |m.current|
    requires Chosen(m, p, choice)
    requires i < |m.order| && m.IdleAt(i) && m.Last(i) < NO_IDLE
    ensures choice.OnIdle? || choice.Preempt?
    ensures choice.OnIdle? <==> Shortcut(m, p) || forall b: nat :: m.FirstPair(b) ==> m.Last(b) < NO_IDLE
  {
    var b := LeastIdle(m, |m.order|, i);
  }

  lemma {:induction false} LeastIdle(m: Cpus, upto: nat, i: nat) returns (b: nat)
    requires m.Valid() && i < upto <= |m.order| && m.IdleAt(i) && m.Last(i) < NO_IDLE
    ensures m.OldestIdle(upto, b)
    decreases upto
  {
    if j :| 0 <= j < upto - 1 && m.IdleAt(j) && m.Last(j) < NO_IDLE {
      b := LeastIdle(m, upto - 1, j);
      if m.IdleAt(upto - 1) && m.Last(upto - 1) < m.Last(b) {
        b := upto - 1;
      }
    } else {
      b := i;
    }
  }
}
