/** The task picker at the head of schedule(): root's processes are given out by credits,
    the first other user's process may replace the one found, and the counters are
    refilled by going back to choose_task.

    A user's hasRun and a process's hasRun are plain ints and may hold anything. */
module Picker {
  datatype Proc = Proc(pid: nat, super: int, hasRun: int) {
    /** The credit a refill gives. */
    function Weight(): int {
      if super == 1 then 2 else 1
    }
  }

  datatype User = User(hasRun: int, procs: seq<Proc>)

  /** root_user and the users on its userlist, in list order. */
  datatype Users = Users(root: User, others: seq<User>)

  // ---------------------------------------------------- pure specification

  predicate HasCredit(procs: seq<Proc>) {
    exists i :: 0 <= i < |procs| && procs[i].hasRun > 0
  }

  /** The first process with a positive credit. */
  function FirstReady(procs: seq<Proc>): (i: nat)
    requires HasCredit(procs)
    ensures i < |procs| && procs[i].hasRun > 0
    ensures forall j :: 0 <= j < i ==> procs[j].hasRun <= 0
  {
    if procs[0].hasRun > 0 then 0
    else
      assert HasCredit(procs[1..]) by {
        var i :| 0 <= i < |procs| && procs[i].hasRun > 0;
        assert procs[1..][i - 1].hasRun > 0;
      }
      1 + FirstReady(procs[1..])
  }

  function Spend(procs: seq<Proc>, i: nat): seq<Proc>
    requires i < |procs|
  {
    procs[i := procs[i].(hasRun := procs[i].hasRun - 1)]
  }

  function Refilled(procs: seq<Proc>): (r: seq<Proc>)
    ensures |r| == |procs|
  {
    seq(|procs|, i requires 0 <= i < |procs| => procs[i].(hasRun := procs[i].Weight()))
  }

  /** The reset taken when nobody's turn is left: every user gets one turn. */
  function TurnsReset(u: Users): Users {
    Users(u.root.(hasRun := 1), seq(|u.others|, i requires 0 <= i < |u.others| => u.others[i].(hasRun := 1)))
  }

  /** The reset taken when root has no credit left: turns and all credits are refilled. */
  function AllReset(u: Users): Users {
    Users(User(1, Refilled(u.root.procs)),
          seq(|u.others|, i requires 0 <= i < |u.others| => User(1, Refilled(u.others[i].procs))))
  }

  /** A pass that starts with root's turn and a creditworthy root process ends the search. */
  predicate Ready(u: Users) {
    u.root.hasRun > 0 && HasCredit(u.root.procs)
  }

  /** The counters of the pass that succeeds. */
  function Prepared(u: Users): Users {
    if Ready(u) then u
    else if u.root.hasRun <= 0 && HasCredit(u.root.procs) then TurnsReset(u)
    else AllReset(if u.root.hasRun > 0 then u else TurnsReset(u))
  }

  /** The root process whose credit the successful pass spends. */
  function Candidate(u: Users): nat
    requires HasCredit(u.root.procs)
  {
    u.root.procs[FirstReady(u.root.procs)].pid
  }

  /** The first other user takes over when it has a turn and a creditworthy process. */
  predicate Displaced(u: Users) {
    |u.others| > 0 && u.others[0].hasRun > 0 && HasCredit(u.others[0].procs)
  }

  /** The process dispatched by the successful pass. */
  function Dispatched(u: Users): nat
    requires HasCredit(u.root.procs)
  {
    if Displaced(u) then u.others[0].procs[FirstReady(u.others[0].procs)].pid else Candidate(u)
  }

  /** The counters after the successful pass. */
  function Charged(u: Users): Users
    requires HasCredit(u.root.procs)
  {
    Users(User(u.root.hasRun - 1, Spend(u.root.procs, FirstReady(u.root.procs))),
          if |u.others| > 0 && u.others[0].hasRun > 0 then u.others[0 := u.others[0].(hasRun := u.others[0].hasRun - 1)]
          else u.others)
  }

  /** What survives a goto choose_task: the counters and the local `count`. */
  datatype Search = Search(users: Users, count: nat)

  /** A pass that finds nobody: it counts and spends root's turn if there is one, and
      resets the turns when no turn was ever counted, else everything. */
  function FailedPass(l: Search): Search {
    var root := l.users.root;
    var count := if root.hasRun > 0 then l.count + 1 else l.count;
    var u := l.users.(root := root.(hasRun := if root.hasRun > 0 then root.hasRun - 1 else root.hasRun));
    Search(if count == 0 then TurnsReset(u) else AllReset(u), count)
  }

  /** The search ends after at most `gotos` failed passes. */
  predicate Ends(l: Search, gotos: nat)
    decreases gotos
  {
    Ready(l.users) || (gotos > 0 && Ends(FailedPass(l), gotos - 1))
  }

  lemma RefilledHasCredit(procs: seq<Proc>)
    requires procs != []
    ensures HasCredit(Refilled(procs))
  {
    assert Refilled(procs)[0].hasRun > 0;
  }

  lemma PreparedIsReady(u: Users)
    requires u.root.procs != []
    ensures Ready(Prepared(u))
  {
    RefilledHasCredit(u.root.procs);
  }

  /** A refilled process has two credits if it is super, else one. */
  predicate FullyPaid(was: seq<Proc>, now: seq<Proc>) {
    && |now| == |was|
    && forall i :: 0 <= i < |was| ==>
         now[i].pid == was[i].pid && now[i].super == was[i].super && now[i].hasRun == if was[i].super == 1 then 2 else 1
  }

  /** What the two resets leave: every user has one turn; a full reset also pays every
      process of every user, the other leaves all processes alone. */
  lemma ResetsGive(u: Users)
    ensures var t := TurnsReset(u);
            && t.root.hasRun == 1 && t.root.procs == u.root.procs && |t.others| == |u.others|
            && forall i :: 0 <= i < |u.others| ==> t.others[i].hasRun == 1 && t.others[i].procs == u.others[i].procs
    ensures var a := AllReset(u);
            && a.root.hasRun == 1 && FullyPaid(u.root.procs, a.root.procs) && |a.others| == |u.others|
            && forall i :: 0 <= i < |u.others| ==>
                 a.others[i].hasRun == 1 && FullyPaid(u.others[i].procs, a.others[i].procs)
  {
  }

  // ------------------------------------------------------ the goto loop

  class Scheduler {
    var root: User
    var others: seq<User>

    ghost function View(): Users
      reads this
    {
      Users(root, others)
    }

    /** list_for_each over a process list, up to the first positive credit. */
    static method FindReady(procs: seq<Proc>) returns (found: bool, i: nat)
      ensures found == HasCredit(procs)
      ensures found ==> i == FirstReady(procs)
    {
      i := 0;
      while i < |procs|
        invariant i <= |procs| && forall j :: 0 <= j < i ==> procs[j].hasRun <= 0
      {
        if procs[i].hasRun > 0 {
          found := true;
          FirstReadyIs(procs, i);
          return;
        }
        i := i + 1;
      }
      found := false;
    }

    static method RefillProcs(procs: seq<Proc>) returns (r: seq<Proc>)
      ensures r == Refilled(procs)
    {
      r := procs;
      var i := 0;
      while i < |r|
        invariant i <= |r| == |procs|
        invariant forall j :: 0 <= j < |procs| ==> r[j] == if j < i then Refilled(procs)[j] else procs[j]
      {
        if r[i].super == 1 {
          r := r[i := r[i].(hasRun := 2)];
        } else {
          r := r[i := r[i].(hasRun := 1)];
        }
        i := i + 1;
      }
    }

    method ResetTurns()
      modifies this
      ensures View() == TurnsReset(old(View()))
    {
      ghost var was := others;
      root := root.(hasRun := 1);
      var i := 0;
      while i < |others|
        invariant i <= |others| == |was| && root == old(root).(hasRun := 1)
        invariant forall j :: 0 <= j < |was| ==> others[j] == if j < i then was[j].(hasRun := 1) else was[j]
      {
        others := others[i := others[i].(hasRun := 1)];
        i := i + 1;
      }
    }

    method ResetAll()
      modifies this
      ensures View() == AllReset(old(View()))
    {
      ghost var was := others;
      var procs := RefillProcs(root.procs);
      root := User(1, procs);
      var i := 0;
      while i < |others|
        invariant i <= |others| == |was| && root == User(1, Refilled(old(root).procs))
        invariant forall j :: 0 <= j < |was| ==> others[j] == if j < i then User(1, Refilled(was[j].procs)) else was[j]
      {
        procs := RefillProcs(others[i].procs);
        others := others[i := User(1, procs)];
        i := i + 1;
      }
    }

    /** One pass over root's turn: the first of the two searches. */
    method RootPass() returns (found: bool, pid: nat)
      modifies this`root
      ensures found == Ready(old(View()))
      ensures found ==> pid == Candidate(old(View())) && root == Charged(old(View())).root
      ensures !found ==>
                root == old(root).(hasRun := if old(root).hasRun > 0 then old(root).hasRun - 1 else old(root).hasRun)
    {
      found, pid := false, 0;
      if root.hasRun > 0 {
        var i;
        found, i := FindReady(root.procs);
        if found {
          pid := root.procs[i].pid;
          root := User(root.hasRun, Spend(root.procs, i));
        }
        root := root.(hasRun := root.hasRun - 1);
      }
    }

    /** The second search. It is entered only with a process in hand, so it stops after the
        first other user whatever it finds there, and spends that user's turn but no credit. */
    method OtherPass(pid: nat) returns (next: nat)
      modifies this`others
      ensures next == if Displaced(old(View())) then old(others)[0].procs[FirstReady(old(others)[0].procs)].pid else pid
      ensures others == if |old(others)| > 0 && old(others)[0].hasRun > 0
                        then old(others)[0 := old(others)[0].(hasRun := old(others)[0].hasRun - 1)] else old(others)
    {
      next := pid;
      if |others| > 0 && others[0].hasRun > 0 {
        var found, i := FindReady(others[0].procs);
        if found {
          next := others[0].procs[i].pid;
        }
        others := others[0 := others[0].(hasRun := others[0].hasRun - 1)];
      }
    }

    /** choose_task, with its gotos as a loop. `count` and the process found survive a goto.
        The search ends exactly when root has a process, which is required here because a
        method has to end; ChooseTaskEndsIff covers the other case. */
    method ChooseTask() returns (next: nat, ghost passes: nat)
      requires root.procs != []
      modifies this
      ensures HasCredit(Prepared(old(View())).root.procs)
      ensures next == Dispatched(Prepared(old(View())))
      ensures View() == Charged(Prepared(old(View())))
      ensures 1 <= passes <= 3
      ensures Ends(Search(old(View()), 0), passes - 1)
      ensures passes > 1 ==> !Ends(Search(old(View()), 0), passes - 2)
    {
      ghost var start, search := Search(View(), 0), Search(View(), 0);
      PassesToReady(start.users);
      var count := 0;
      passes := 0;
      while true
        invariant passes <= 2 && (passes == 2 ==> Ready(PassesAfter(start, 2).users))
        invariant search == Search(View(), count) == PassesAfter(start, passes)
        invariant forall j :: 0 <= j < passes ==> !Ready(PassesAfter(start, j).users)
        decreases 3 - passes
      {
        PassesOneMore(start, passes);
        passes := passes + 1;
        if root.hasRun > 0 {
          count := count + 1;
        }
        var found, pid := RootPass();
        if found {
          next := OtherPass(pid);
          EndsAtReady(start, passes - 1);
          return;
        }
        if count == 0 {
          ResetTurns();
        } else {
          ResetAll();
        }
        search := FailedPass(search);
      }
    }
  }

  // ------------------------------------------------- when the search ends

  function PassesAfter(l: Search, gotos: nat): Search
    decreases gotos
  {
    if gotos == 0 then l else PassesAfter(FailedPass(l), gotos - 1)
  }

  lemma {:induction false} PassesOneMore(l: Search, gotos: nat)
    ensures PassesAfter(l, gotos + 1) == FailedPass(PassesAfter(l, gotos))
    decreases gotos
  {
    if gotos > 0 {
      PassesOneMore(FailedPass(l), gotos - 1);
    }
  }

  lemma {:induction false} EndsAtReady(l: Search, gotos: nat)
    requires forall j :: 0 <= j < gotos ==> !Ready(PassesAfter(l, j).users)
    requires Ready(PassesAfter(l, gotos).users)
    ensures Ends(l, gotos) && (gotos > 0 ==> !Ends(l, gotos - 1))
    decreases gotos
  {
    if gotos > 0 {
      assert !Ready(PassesAfter(l, 0).users);
      forall j | 0 <= j < gotos - 1 ensures !Ready(PassesAfter(FailedPass(l), j).users) {
        assert !Ready(PassesAfter(l, j + 1).users);
      }
      EndsAtReady(FailedPass(l), gotos - 1);
    }
  }

  /** With a root process the first, second or third pass succeeds, and the first one
      that does starts with the prepared counters. */
  lemma PassesToReady(u: Users)
    requires u.root.procs != []
    ensures var l := Search(u, 0);
            && PassesAfter(l, 1) == FailedPass(l) && PassesAfter(l, 2) == FailedPass(FailedPass(l))
            && (Ready(u) ==> Prepared(u) == u)
            && (!Ready(u) && Ready(FailedPass(l).users) ==> Prepared(u) == FailedPass(l).users)
            && (!Ready(u) && !Ready(FailedPass(l).users) ==>
                  Prepared(u) == PassesAfter(l, 2).users && Ready(PassesAfter(l, 2).users))
  {
    PreparedIsReady(u);
    var l := FailedPass(Search(u, 0));
    assert PassesAfter(Search(u, 0), 2) == PassesAfter(l, 1) == PassesAfter(FailedPass(l), 0);
    if u.root.hasRun > 0 {
      assert l.users == AllReset(u);
      RefilledHasCredit(u.root.procs);
    } else {
      assert l.users == TurnsReset(u);
      assert FailedPass(l).users == AllReset(TurnsReset(u));
    }
  }

  /** Without root processes no number of passes is enough. */
  lemma {:induction false} EmptyRootNeverEnds(l: Search, gotos: nat)
    requires l.users.root.procs == []
    ensures !Ends(l, gotos)
    decreases gotos
  {
    if gotos > 0 {
      EmptyRootNeverEnds(FailedPass(l), gotos - 1);
    }
  }

  /** choose_task ends exactly when root has a process. It then takes at most two gotos,
      and at most one exactly when root still has a turn or one of its processes a credit. */
  lemma ChooseTaskEndsIff(u: Users)
    ensures u.root.procs != [] <==> Ends(Search(u, 0), 2)
    ensures u.root.procs == [] <==> forall gotos: nat :: !Ends(Search(u, 0), gotos)
    ensures Ends(Search(u, 0), 1) <==> u.root.procs != [] && (u.root.hasRun > 0 || HasCredit(u.root.procs))
  {
    if u.root.procs == [] {
      forall gotos: nat ensures !Ends(Search(u, 0), gotos) {
        EmptyRootNeverEnds(Search(u, 0), gotos);
      }
    } else {
      PassesToReady(u);
      var l := FailedPass(Search(u, 0));
      assert Ends(l, 1) <==> Ready(l.users) || Ends(FailedPass(l), 0);
    }
  }

  lemma {:induction false} FirstReadyIs(procs: seq<Proc>, i: nat)
    requires i < |procs| && procs[i].hasRun > 0 && forall j :: 0 <= j < i ==> procs[j].hasRun <= 0
    ensures HasCredit(procs) && FirstReady(procs) == i
  {
  }

  // ---------------------------------------------------------- whole runs

  /** The counters after one schedule() call. */
  function Call(u: Users): (u': Users)
    requires u.root.procs != []
    ensures |u'.root.procs| == |u.root.procs|
  {
    PreparedIsReady(u);
    Charged(Prepared(u))
  }

  function Next(u: Users): nat
    requires u.root.procs != []
  {
    PreparedIsReady(u);
    Dispatched(Prepared(u))
  }

  function RootNext(u: Users): nat
    requires u.root.procs != []
  {
    PreparedIsReady(u);
    Candidate(Prepared(u))
  }

  function After(u: Users, calls: nat): (u': Users)
    requires u.root.procs != []
    ensures u'.root.procs != []
    decreases calls
  {
    if calls == 0 then u else After(Call(u), calls - 1)
  }

  /** The processes dispatched by the next calls. */
  function Dispatches(u: Users, calls: nat): (d: seq<nat>)
    requires u.root.procs != []
    ensures |d| == calls
    decreases calls
  {
    if calls == 0 then [] else [Next(u)] + Dispatches(Call(u), calls - 1)
  }

  /** The root processes charged by the next calls. */
  function RootPicks(u: Users, calls: nat): (d: seq<nat>)
    requires u.root.procs != []
    ensures |d| == calls
    decreases calls
  {
    if calls == 0 then [] else [RootNext(u)] + RootPicks(Call(u), calls - 1)
  }

  function Repeat(pid: nat, times: int): (r: seq<nat>) {
    if times <= 0 then [] else [pid] + Repeat(pid, times - 1)
  }

  /** Every process as often as its credit, in list order. */
  function Credits(procs: seq<Proc>): (r: seq<nat>) {
    if procs == [] then [] else Repeat(procs[0].pid, procs[0].hasRun) + Credits(procs[1..])
  }

  lemma {:induction false} NoCreditNoTurns(procs: seq<Proc>)
    ensures HasCredit(procs) <==> Credits(procs) != []
  {
    if procs != [] {
      NoCreditNoTurns(procs[1..]);
      if HasCredit(procs) && procs[0].hasRun <= 0 {
        var i :| 0 <= i < |procs| && procs[i].hasRun > 0;
        assert procs[1..][i - 1].hasRun > 0;
      }
      if HasCredit(procs[1..]) {
        var i :| 0 <= i < |procs| - 1 && procs[1..][i].hasRun > 0;
        assert procs[i + 1].hasRun > 0;
      }
    }
  }

  /** Charging the first ready process takes the first turn off the list. */
  lemma {:induction false} SpendTakesFirst(procs: seq<Proc>)
    requires HasCredit(procs)
    ensures Credits(procs) == [procs[FirstReady(procs)].pid] + Credits(Spend(procs, FirstReady(procs)))
  {
    var i := FirstReady(procs);
    if procs[0].hasRun > 0 {
      assert Spend(procs, 0)[1..] == procs[1..];
    } else {
      assert HasCredit(procs[1..]) by {
        assert procs[1..][i - 1].hasRun > 0;
      }
      SpendTakesFirst(procs[1..]);
      assert Spend(procs, i)[1..] == Spend(procs[1..], i - 1);
      assert procs[1..][i - 1] == procs[i];
    }
  }

  /** Each call takes exactly one turn off root's list; the list is refilled only when empty. */
  lemma CallSpendsOne(u: Users)
    requires u.root.procs != []
    ensures HasCredit(u.root.procs) ==> Credits(u.root.procs) == [RootNext(u)] + Credits(Call(u).root.procs)
    ensures !HasCredit(u.root.procs) ==>
              Credits(Refilled(u.root.procs)) == [RootNext(u)] + Credits(Call(u).root.procs)
  {
    PreparedIsReady(u);
    SpendTakesFirst(Prepared(u).root.procs);
  }

  /** Weighted round robin: until the credits are used up, the calls charge root's
      processes in list order, each as often as its credit. */
  lemma {:induction false} RootIsServedInOrder(u: Users, calls: nat)
    requires u.root.procs != [] && calls <= |Credits(u.root.procs)|
    ensures RootPicks(u, calls) == Credits(u.root.procs)[..calls]
    ensures Credits(After(u, calls).root.procs) == Credits(u.root.procs)[calls..]
    decreases calls
  {
    if calls > 0 {
      NoCreditNoTurns(u.root.procs);
      CallSpendsOne(u);
      RootIsServedInOrder(Call(u), calls - 1);
    }
  }

  function TotalWeight(procs: seq<Proc>): nat {
    if procs == [] then 0 else procs[0].Weight() + TotalWeight(procs[1..])
  }

  /** Every element of s is pid. */
  predicate Only(s: seq<nat>, pid: nat) {
    forall i :: 0 <= i < |s| ==> s[i] == pid
  }

  lemma {:induction false} RepeatIsOnly(pid: nat, times: int)
    ensures Only(Repeat(pid, times), pid) && |Repeat(pid, times)| == if times <= 0 then 0 else times
  {
    if times > 0 {
      RepeatIsOnly(pid, times - 1);
    }
  }

  lemma {:induction false} RefillIsTotalWeight(procs: seq<Proc>)
    ensures |Credits(Refilled(procs))| == TotalWeight(procs)
  {
    if procs != [] {
      assert Refilled(procs)[1..] == Refilled(procs[1..]);
      RefillIsTotalWeight(procs[1..]);
      RepeatIsOnly(procs[0].pid, procs[0].Weight());
    }
  }

  lemma LastOfEpoch(u: Users)
    requires u.root.procs != []
    ensures RootPicks(u, |Credits(u.root.procs)|) == Credits(u.root.procs)
    ensures !HasCredit(After(u, |Credits(u.root.procs)|).root.procs)
  {
    var c := Credits(u.root.procs);
    RootIsServedInOrder(u, |c|);
    assert c[..|c|] == c && c[|c|..] == [];
    NoCreditNoTurns(After(u, |c|).root.procs);
  }

  /** Between two full refills there are exactly as many calls as the weights add up to,
      and they charge every root process by its weight; the next call refills. */
  lemma EpochLength(u: Users)
    requires u.root.procs != [] && u.root.procs == Refilled(u.root.procs)
    ensures var w := TotalWeight(u.root.procs);
            && RootPicks(u, w) == Credits(u.root.procs)
            && (forall m: nat :: m < w ==> HasCredit(After(u, m).root.procs))
            && !HasCredit(After(u, w).root.procs)
  {
    var w := TotalWeight(u.root.procs);
    RefillIsTotalWeight(u.root.procs);
    LastOfEpoch(u);
    forall m: nat | m < w ensures HasCredit(After(u, m).root.procs) {
      RootIsServedInOrder(u, m);
      NoCreditNoTurns(After(u, m).root.procs);
    }
  }

  function Supers(procs: seq<Proc>): nat {
    if procs == [] then 0 else (if procs[0].super == 1 then 1 else 0) + Supers(procs[1..])
  }

  lemma {:induction false} WeightsCount(procs: seq<Proc>)
    ensures TotalWeight(procs) == |procs| + Supers(procs)
  {
    if procs != [] {
      WeightsCount(procs[1..]);
    }
  }

  lemma {:induction false} RepeatCount(pid: nat, times: int, x: nat)
    ensures multiset(Repeat(pid, times))[x] == if x == pid && times > 0 then times else 0
  {
    if times > 0 {
      RepeatCount(pid, times - 1, x);
    }
  }

  predicate DistinctPids(procs: seq<Proc>) {
    forall i, j :: 0 <= i < j < |procs| ==> procs[i].pid != procs[j].pid
  }

  /** Among processes with different pids each gets its own credit and nobody else's. */
  lemma {:induction false} CreditsCount(procs: seq<Proc>, x: nat)
    requires DistinctPids(procs)
    ensures forall i :: 0 <= i < |procs| && procs[i].pid == x && procs[i].hasRun > 0 ==>
              multiset(Credits(procs))[x] == procs[i].hasRun
    ensures (forall i :: 0 <= i < |procs| ==> procs[i].pid != x) ==> multiset(Credits(procs))[x] == 0
  {
    if procs != [] {
      CreditsCount(procs[1..], x);
      RepeatCount(procs[0].pid, procs[0].hasRun, x);
      var mine, rest := Repeat(procs[0].pid, procs[0].hasRun), Credits(procs[1..]);
      assert multiset(Credits(procs)) == multiset(mine) + multiset(rest);
      assert forall i :: 0 <= i < |procs| ==> procs[i] == if i == 0 then procs[0] else procs[1..][i - 1];
      assert forall i :: 0 <= i < |procs| - 1 ==> procs[1..][i] == procs[i + 1];
    }
  }

  lemma {:induction false} SameSupers(a: seq<Proc>, b: seq<Proc>)
    requires |a| == |b| && forall i :: 0 <= i < |a| ==> a[i].super == b[i].super
    ensures Supers(a) == Supers(b)
  {
    if a != [] {
      SameSupers(a[1..], b[1..]);
    }
  }

  lemma RefilledWeight(procs: seq<Proc>)
    ensures TotalWeight(Refilled(procs)) == |procs| + Supers(procs)
    ensures Refilled(Refilled(procs)) == Refilled(procs)
  {
    WeightsCount(Refilled(procs));
    SameSupers(procs, Refilled(procs));
  }

  lemma RefillShares(procs: seq<Proc>, i: nat)
    requires i < |procs| && DistinctPids(procs)
    ensures multiset(Credits(Refilled(procs)))[procs[i].pid] == if procs[i].super == 1 then 2 else 1
  {
    var r := Refilled(procs);
    assert forall i :: 0 <= i < |procs| ==> r[i].pid == procs[i].pid;
    CreditsCount(r, r[i].pid);
    assert r[i].hasRun == if procs[i].super == 1 then 2 else 1;
  }

  /** Root's credits last for exactly w calls. */
  ghost predicate LastsFor(u: Users, w: nat)
    requires u.root.procs != []
  {
    (forall m: nat :: m < w ==> HasCredit(After(u, m).root.procs)) && !HasCredit(After(u, w).root.procs)
  }

  lemma EpochOf(u: Users, w: nat)
    requires u.root.procs != [] && u.root.procs == Refilled(u.root.procs) && w == TotalWeight(u.root.procs)
    ensures RootPicks(u, w) == Credits(u.root.procs) && LastsFor(u, w)
  {
    EpochLength(u);
  }

  /** Once root's list has been refilled (ResetsGive says what that pays) an epoch has as
      many calls as root has processes, and one more for each super process; it charges a
      super process twice and any other once. */
  lemma EpochShares(u: Users, procs: seq<Proc>, w: nat, i: nat)
    requires u.root.procs == Refilled(procs) && i < |procs| && DistinctPids(procs)
    requires w == |procs| + Supers(procs)
    ensures LastsFor(u, w) && RootPicks(u, w) == Credits(u.root.procs)
    ensures multiset(Credits(u.root.procs))[procs[i].pid] == if procs[i].super == 1 then 2 else 1
  {
    RefillShares(procs, i);
    RefilledWeight(procs);
    EpochOf(u, w);
  }

  /** Who is dispatched, from any counters. While root has a credit: the first other user's
      first process with a credit, if that user has a turn or root has none left (then all
      turns are given anew), else root's first process with a credit. When root has no
      credit: the first process of the first other user, or of root if there is none. */
  lemma WhoRuns(u: Users)
    requires u.root.procs != []
    ensures HasCredit(u.root.procs) ==>
              Next(u) == if |u.others| > 0 && (u.others[0].hasRun > 0 || u.root.hasRun <= 0)
                            && HasCredit(u.others[0].procs)
                         then u.others[0].procs[FirstReady(u.others[0].procs)].pid
                         else u.root.procs[FirstReady(u.root.procs)].pid
    ensures !HasCredit(u.root.procs) ==>
              Next(u) == if |u.others| > 0 && u.others[0].procs != [] then u.others[0].procs[0].pid
                         else u.root.procs[0].pid
  {
    PreparedIsReady(u);
    var v := Prepared(u);
    if !HasCredit(u.root.procs) {
      assert v.root == User(1, Refilled(u.root.procs));
      FirstReadyIs(v.root.procs, 0);
      if |u.others| > 0 {
        assert v.others[0] == User(1, Refilled(u.others[0].procs));
        if u.others[0].procs != [] {
          FirstReadyIs(v.others[0].procs, 0);
        }
      }
    }
  }

  // ------------------------------------------------------ many epochs

  /** Root's list as the next call will charge it. */
  function Effective(procs: seq<Proc>): seq<Proc> {
    if HasCredit(procs) then procs else Refilled(procs)
  }

  /** Root's list after one call, and the process charged; no other counter matters. */
  function ListCall(procs: seq<Proc>): seq<Proc> {
    if HasCredit(Effective(procs)) then Spend(Effective(procs), FirstReady(Effective(procs))) else procs
  }

  function ListPick(procs: seq<Proc>): nat {
    if HasCredit(Effective(procs)) then procs[FirstReady(Effective(procs))].pid else 0
  }

  function Iterated<S>(step: S -> S, s: S, n: nat): S
    decreases n
  {
    if n == 0 then s else Iterated(step, step(s), n - 1)
  }

  /** What is seen of the first n states. */
  function Trace<S>(step: S -> S, seen: S -> nat, s: S, n: nat): (r: seq<nat>)
    ensures |r| == n
    decreases n
  {
    if n == 0 then [] else [seen(s)] + Trace(step, seen, step(s), n - 1)
  }

  lemma {:induction false} IteratedConcat<S>(step: S -> S, s: S, first: nat, rest: nat)
    ensures Iterated(step, s, first + rest) == Iterated(step, Iterated(step, s, first), rest)
    decreases first
  {
    if first > 0 {
      IteratedConcat(step, step(s), first - 1, rest);
      assert first + rest - 1 == first - 1 + rest;
    }
  }

  lemma {:induction false} TraceConcat<S>(step: S -> S, seen: S -> nat, s: S, first: nat, rest: nat)
    ensures Trace(step, seen, s, first + rest)
            == Trace(step, seen, s, first) + Trace(step, seen, Iterated(step, s, first), rest)
    decreases first
  {
    if first > 0 {
      TraceConcat(step, seen, step(s), first - 1, rest);
      assert first + rest - 1 == first - 1 + rest;
    }
  }

  lemma TraceThen<S>(step: S -> S, seen: S -> nat, s: S, first: nat, mid: S, rest: nat)
    requires mid == Iterated(step, s, first)
    ensures Trace(step, seen, s, first + rest) == Trace(step, seen, s, first) + Trace(step, seen, mid, rest)
    ensures Iterated(step, s, first + rest) == Iterated(step, mid, rest)
  {
    TraceConcat(step, seen, s, first, rest);
    IteratedConcat(step, s, first, rest);
  }

  function ListAfter(procs: seq<Proc>, calls: nat): seq<Proc> {
    Iterated(ListCall, procs, calls)
  }

  function ListPicks(procs: seq<Proc>, calls: nat): seq<nat> {
    Trace(ListCall, ListPick, procs, calls)
  }

  /** Which root processes are charged depends on root's list alone. */
  lemma {:induction false} PicksFollowRoot(u: Users, calls: nat)
    requires u.root.procs != []
    ensures RootPicks(u, calls) == ListPicks(u.root.procs, calls)
    ensures After(u, calls).root.procs == ListAfter(u.root.procs, calls)
    decreases calls
  {
    if calls > 0 {
      PreparedIsReady(u);
      assert Call(u).root.procs == ListCall(u.root.procs) && RootNext(u) == ListPick(u.root.procs);
      PicksFollowRoot(Call(u), calls - 1);
    }
  }

  /** Calls change counters only, so a refill always gives the same list. */
  lemma {:induction false} RefillsAgree(procs: seq<Proc>, calls: nat)
    ensures |ListAfter(procs, calls)| == |procs| && Refilled(ListAfter(procs, calls)) == Refilled(procs)
    decreases calls
  {
    if calls > 0 {
      assert Refilled(ListCall(procs)) == Refilled(procs);
      RefillsAgree(ListCall(procs), calls - 1);
    }
  }

  function Times(s: seq<nat>, m: nat): (r: seq<nat>) {
    if m == 0 then [] else s + Times(s, m - 1)
  }

  lemma {:induction false} TimesLength(s: seq<nat>, m: nat)
    ensures |Times(s, m)| == m * |s|
  {
    if m > 0 {
      TimesLength(s, m - 1);
      assert m * |s| == (m - 1) * |s| + |s|;
    }
  }

  /** A list without credits is charged like the refilled one. */
  lemma SpentLikeRefilled(procs: seq<Proc>, calls: nat)
    requires procs != [] && !HasCredit(procs) && calls > 0
    ensures ListPicks(procs, calls) == ListPicks(Refilled(procs), calls)
    ensures ListAfter(procs, calls) == ListAfter(Refilled(procs), calls)
  {
    RefilledHasCredit(procs);
    assert ListCall(Refilled(procs)) == ListCall(procs);
    assert ListPick(Refilled(procs)) == ListPick(procs);
  }

  /** A whole list is used up, and charged by its credits. */
  lemma ListSpent(procs: seq<Proc>)
    requires procs != []
    ensures ListPicks(procs, |Credits(procs)|) == Credits(procs)
    ensures ListAfter(procs, |Credits(procs)|) != [] && !HasCredit(ListAfter(procs, |Credits(procs)|))
  {
    var u := Users(User(0, procs), []);
    LastOfEpoch(u);
    PicksFollowRoot(u, |Credits(procs)|);
  }

  /** One epoch more: the spent list is charged like its refill. */
  lemma OneMoreEpoch(procs: seq<Proc>, first: seq<nat>, spent: seq<Proc>, refill: seq<Proc>, later: seq<nat>)
    requires ListPicks(procs, |first|) == first && ListAfter(procs, |first|) == spent
    requires spent != [] && !HasCredit(spent) && Refilled(spent) == refill && later != []
    requires ListPicks(refill, |later|) == later && !HasCredit(ListAfter(refill, |later|))
    ensures ListPicks(procs, |first| + |later|) == first + later
    ensures !HasCredit(ListAfter(procs, |first| + |later|))
  {
    SpentLikeRefilled(spent, |later|);
    TraceThen(ListCall, ListPick, procs, |first|, spent, |later|);
  }

  lemma {:induction false} ListRoundRobin(procs: seq<Proc>, epochs: nat)
    requires procs != []
    ensures var charged := Credits(procs) + Times(Credits(Refilled(procs)), epochs);
            ListPicks(procs, |charged|) == charged && !HasCredit(ListAfter(procs, |charged|))
    decreases epochs
  {
    ListSpent(procs);
    if epochs == 0 {
      assert Credits(procs) + [] == Credits(procs);
    } else {
      RefillsAgree(procs, |Credits(procs)|);
      RefillWeighs(procs);
      ListRoundRobin(Refilled(procs), epochs - 1);
      OneMoreEpoch(procs, Credits(procs), ListAfter(procs, |Credits(procs)|), Refilled(procs),
                   Times(Credits(Refilled(procs)), epochs));
    }
  }

  lemma RefillWeighs(procs: seq<Proc>)
    requires procs != []
    ensures Refilled(Refilled(procs)) == Refilled(procs)
    ensures |Credits(Refilled(procs))| == TotalWeight(procs) > 0
  {
    RefillIsTotalWeight(procs);
    assert Refilled(Refilled(procs)) == Refilled(procs);
  }

  /** Weighted round robin over whole runs, from any counters: first the credits that are
      left, then root's processes by weight in list order, over and over. */
  lemma RoundRobin(u: Users, epochs: nat)
    requires u.root.procs != []
    ensures var charged := Credits(u.root.procs) + Times(Credits(Refilled(u.root.procs)), epochs);
            && |charged| == |Credits(u.root.procs)| + epochs * TotalWeight(u.root.procs)
            && RootPicks(u, |charged|) == charged
            && !HasCredit(After(u, |charged|).root.procs)
  {
    var all := Credits(Refilled(u.root.procs));
    PicksFollowRoot(u, |Credits(u.root.procs) + Times(all, epochs)|);
    ListRoundRobin(u.root.procs, epochs);
    RefillIsTotalWeight(u.root.procs);
    TimesLength(all, epochs);
  }

  // ------------------------------------------- who is actually dispatched

  /** The first other user would be given the CPU. */
  predicate OtherReady(u: Users) {
    |u.others| > 0 && HasCredit(u.others[0].procs)
  }

  /** With no ready process at the first other user, the calls dispatch what they charge. */
  lemma {:induction false} AloneServedInOrder(u: Users, calls: nat)
    requires u.root.procs != [] && calls <= |Credits(u.root.procs)| && !OtherReady(u)
    ensures Dispatches(u, calls) == Credits(u.root.procs)[..calls]
    decreases calls
  {
    if calls > 0 {
      NoCreditNoTurns(u.root.procs);
      CallSpendsOne(u);
      assert !OtherReady(Call(u));
      AloneServedInOrder(Call(u), calls - 1);
    }
  }

  /** The state every call leaves behind when turns are in 0..1: root's turn is used up. */
  predicate TurnUsed(u: Users) {
    u.root.hasRun <= 0
  }

  lemma OtherTakesCall(u: Users)
    requires HasCredit(u.root.procs) && OtherReady(u)
    requires TurnUsed(u) || (u.root.hasRun == 1 && u.others[0].hasRun > 0)
    ensures Next(u) == u.others[0].procs[FirstReady(u.others[0].procs)].pid
    ensures OtherReady(Call(u)) && Call(u).others[0].procs == u.others[0].procs && TurnUsed(Call(u))
  {
    assert !Ready(u) ==> Prepared(u) == TurnsReset(u);
  }

  /** With a ready process at the first other user, that process is dispatched by every
      call while root's credits run down: its own credit is never spent. */
  lemma {:induction false} OtherTakesEveryCall(u: Users, calls: nat)
    requires u.root.procs != [] && calls <= |Credits(u.root.procs)| && OtherReady(u)
    requires TurnUsed(u) || (u.root.hasRun == 1 && u.others[0].hasRun > 0)
    ensures Dispatches(u, calls) == Repeat(u.others[0].procs[FirstReady(u.others[0].procs)].pid, calls)
    decreases calls
  {
    if calls > 0 {
      NoCreditNoTurns(u.root.procs);
      CallSpendsOne(u);
      OtherTakesCall(u);
      OtherTakesEveryCall(Call(u), calls - 1);
    }
  }

  /** A list whose processes all have a credit gives every turn to pid exactly when all
      of them are pid. */
  lemma {:induction false} CreditsName(procs: seq<Proc>, pid: nat)
    requires forall i :: 0 <= i < |procs| ==> procs[i].hasRun > 0
    ensures Only(Credits(procs), pid) <==> forall i :: 0 <= i < |procs| ==> procs[i].pid == pid
  {
    if procs != [] {
      var mine, rest := Repeat(procs[0].pid, procs[0].hasRun), Credits(procs[1..]);
      CreditsName(procs[1..], pid);
      RepeatIsOnly(procs[0].pid, procs[0].hasRun);
      assert (mine + rest)[0] == procs[0].pid;
      assert forall i :: 0 <= i < |rest| ==> rest[i] == (mine + rest)[|mine| + i];
      assert forall i :: 0 <= i < |procs| - 1 ==> procs[1..][i] == procs[i + 1];
      assert forall i :: 1 <= i < |procs| ==> procs[i] == procs[1..][i - 1];
    }
  }

  lemma OneNameIff(procs: seq<Proc>, pid: nat)
    requires forall i :: 0 <= i < |procs| ==> procs[i].hasRun > 0
    ensures Credits(procs) == Repeat(pid, |Credits(procs)|) <==>
            forall i :: 0 <= i < |procs| ==> procs[i].pid == pid
  {
    CreditsName(procs, pid);
    RepeatIsOnly(pid, |Credits(procs)|);
  }

  lemma EpochDispatches(x: Users)
    requires x.root.procs != []
    ensures var u := AllReset(x);
            var w := TotalWeight(u.root.procs);
            && |Credits(u.root.procs)| == w
            && Dispatches(u, w) == if |x.others| > 0 && x.others[0].procs != []
                                   then Repeat(x.others[0].procs[0].pid, w) else Credits(u.root.procs)
  {
    var u := AllReset(x);
    var w := TotalWeight(u.root.procs);
    assert Refilled(u.root.procs) == u.root.procs;
    RefillIsTotalWeight(u.root.procs);
    if |x.others| > 0 && x.others[0].procs != [] {
      RefilledHasCredit(x.others[0].procs);
      OtherTakesEveryCall(u, w);
      FirstReadyIs(u.others[0].procs, 0);
    } else {
      AloneServedInOrder(u, w);
    }
  }

  /** An epoch that starts with a full refill dispatches root's processes by weight exactly
      when the first other user, if there is one, has no process, or root has no process
      other than that user's first one. */
  lemma EpochServesRootIff(x: Users)
    requires x.root.procs != []
    ensures var u := AllReset(x);
            var w := TotalWeight(u.root.procs);
            Dispatches(u, w) == Credits(u.root.procs) <==>
            !(|x.others| > 0 && x.others[0].procs != []) ||
            forall i :: 0 <= i < |x.root.procs| ==> x.root.procs[i].pid == x.others[0].procs[0].pid
  {
    EpochDispatches(x);
    if |x.others| > 0 && x.others[0].procs != [] {
      var procs := Refilled(x.root.procs);
      OneNameIff(procs, x.others[0].procs[0].pid);
      assert forall i :: 0 <= i < |procs| ==> procs[i].pid == x.root.procs[i].pid;
    }
  }

  /** The first other user has a process, ready or not. */
  predicate OtherHasProcess(u: Users) {
    |u.others| > 0 && u.others[0].procs != []
  }

  /** Without one, every call of every epoch dispatches what it charges. */
  lemma {:induction false} AloneDispatchesPicks(u: Users, calls: nat)
    requires u.root.procs != [] && !OtherHasProcess(u)
    ensures Dispatches(u, calls) == RootPicks(u, calls)
    decreases calls
  {
    if calls > 0 {
      PreparedIsReady(u);
      assert !OtherHasProcess(Call(u));
      AloneDispatchesPicks(Call(u), calls - 1);
    }
  }

  /** Weighted round robin of what runs: with no process at the first other user the calls
      dispatch the credits left and then root's processes by weight, over and over. */
  lemma AloneRoundRobin(u: Users, epochs: nat)
    requires u.root.procs != [] && !OtherHasProcess(u)
    ensures var served := Credits(u.root.procs) + Times(Credits(Refilled(u.root.procs)), epochs);
            && |served| == |Credits(u.root.procs)| + epochs * TotalWeight(u.root.procs)
            && Dispatches(u, |served|) == served
  {
    RoundRobin(u, epochs);
    AloneDispatchesPicks(u, |Credits(u.root.procs) + Times(Credits(Refilled(u.root.procs)), epochs)|);
  }

  predicate SameNames(a: seq<Proc>, b: seq<Proc>) {
    |a| == |b| && forall i :: 0 <= i < |a| ==> a[i].pid == b[i].pid
  }

  lemma CallKeepsNames(u: Users)
    requires u.root.procs != []
    ensures SameNames(Call(u).root.procs, u.root.procs) && |Call(u).others| == |u.others|
    ensures |u.others| > 0 ==> SameNames(Call(u).others[0].procs, u.others[0].procs)
  {
    PreparedIsReady(u);
  }

  lemma {:induction false} CallsKeepNames(u: Users, calls: nat)
    requires u.root.procs != []
    ensures SameNames(After(u, calls).root.procs, u.root.procs) && |After(u, calls).others| == |u.others|
    ensures |u.others| > 0 ==> SameNames(After(u, calls).others[0].procs, u.others[0].procs)
    decreases calls
  {
    if calls > 0 {
      CallKeepsNames(u);
      CallsKeepNames(Call(u), calls - 1);
    }
  }

  lemma {:induction false} LastCall(u: Users, calls: nat)
    requires u.root.procs != []
    ensures Dispatches(u, calls + 1)[calls] == Next(After(u, calls))
    ensures RootPicks(u, calls + 1)[calls] == RootNext(After(u, calls))
    decreases calls
  {
    if calls > 0 {
      LastCall(Call(u), calls - 1);
    }
  }

  /** The call that refills dispatches the first other user's first process. */
  lemma RefillServesOther(u: Users)
    requires u.root.procs != [] && !HasCredit(u.root.procs) && OtherHasProcess(u)
    ensures Next(u) == u.others[0].procs[0].pid
    ensures exists i :: 0 <= i < |u.root.procs| && RootNext(u) == u.root.procs[i].pid
  {
    PreparedIsReady(u);
    var v := Prepared(u);
    RefilledHasCredit(u.others[0].procs);
    assert v.others[0] == User(1, Refilled(u.others[0].procs));
    FirstReadyIs(v.others[0].procs, 0);
    assert RootNext(u) == u.root.procs[FirstReady(v.root.procs)].pid;
  }

  /** When root's processes are none of the first other user's first one, the calls dispatch
      what they charge for ever exactly when that user has no process. */
  lemma AlwaysServesRootIff(u: Users)
    requires u.root.procs != []
    requires OtherHasProcess(u) ==>
               forall i :: 0 <= i < |u.root.procs| ==> u.root.procs[i].pid != u.others[0].procs[0].pid
    ensures (forall calls: nat :: Dispatches(u, calls) == RootPicks(u, calls)) <==> !OtherHasProcess(u)
  {
    if OtherHasProcess(u) {
      var left := |Credits(u.root.procs)|;
      LastOfEpoch(u);
      CallsKeepNames(u, left);
      RefillServesOther(After(u, left));
      LastCall(u, left);
      assert Dispatches(u, left + 1) != RootPicks(u, left + 1);
    } else {
      forall calls: nat ensures Dispatches(u, calls) == RootPicks(u, calls) {
        AloneDispatchesPicks(u, calls);
      }
    }
  }

  // -------------------------------------------------------------- ranges

  predicate UserInRange(v: User) {
    0 <= v.hasRun <= 1 && forall i :: 0 <= i < |v.procs| ==> 0 <= v.procs[i].hasRun <= 2
  }

  predicate InRange(u: Users) {
    UserInRange(u.root) && forall i :: 0 <= i < |u.others| ==> UserInRange(u.others[i])
  }

  lemma PreparedInRange(u: Users)
    requires InRange(u)
    ensures InRange(Prepared(u))
  {
  }

  /** A credit is spent only when positive, and so is a turn. */
  lemma ChargedInRange(u: Users)
    requires InRange(u) && Ready(u)
    ensures InRange(Charged(u))
  {
    assert UserInRange(Charged(u).root);
  }

  /** Counters in range stay in range over any number of calls. */
  lemma {:induction false} StaysInRange(u: Users, calls: nat)
    requires u.root.procs != [] && InRange(u)
    ensures InRange(After(u, calls))
    decreases calls
  {
    if calls > 0 {
      PreparedIsReady(u);
      PreparedInRange(u);
      ChargedInRange(Prepared(u));
      StaysInRange(Call(u), calls - 1);
    }
  }
}
