/** wtc_btproc as it runs: matrix, bag and barriers updated in place under any schedule. */
module BagOfTasksMachine {
  import opened Matrix
  import opened Sync
  import opened BagOfTasks
  import opened BagOfTasksRuns

  class Machine {
    const p: Program
    const bag: Bag
    var matrix: array<int>
    var barrier1: Barrier
    var barrier2: Barrier
    var actors: array<Actor>
    ghost var grants: seq<seq<Grant>>

    ghost function View(): State
      reads this, bag, bag.queue, matrix, actors
    {
      State(matrix[..], bag.queue[..], bag.qNum, barrier1, barrier2, actors[..], grants)
    }

    ghost predicate Valid()
      reads this, bag, bag.queue, matrix, actors
    {
      matrix != bag.queue && bag.Holds(p.n) && Inv(p, View())
    }

    constructor (p: Program)
      ensures this.p == p && fresh(bag) && fresh(bag.queue) && fresh(matrix) && fresh(actors)
      ensures Valid() && View() == Init(p)
    {
      InitInv(p);
      this.p := p;
      var s := Init(p);
      bag := new Bag(p.n);
      matrix := new int[p.n * p.n](x requires 0 <= x < p.n * p.n => Loaded(p.ToJob())[x]);
      barrier1, barrier2 := Barrier(p.T + 1, 0, 0), Barrier(p.T + 1, 0, 0);
      actors := new Actor[p.T + 1](a requires 0 <= a < p.T + 1 => Actor(0, LoopHead(p, a, 0)));
      grants := s.grants;
      new;
      assert matrix[..] == s.matrix && actors[..] == s.actors;
    }

    /** One action of a child or of the parent. */
    method Turn(a: nat)
      requires Valid() && a <= p.T && Enabled(View(), a)
      modifies this, bag`qNum, matrix, actors
      ensures bag.queue == old(bag.queue) && matrix == old(matrix) && actors == old(actors)
      ensures View() == Step(p, old(View()), a)
    {
      Placed(p, View(), a);
      assert actors[..][a] == actors[a];
      var me := actors[a];
      match me.pc {
        case Pop =>
          var y := bag.QueuePop(p.n);
          if y != -1 {
            grants := grants[me.k := grants[me.k] + [Grant(y, a)]];
            actors[a] := me.(pc := Compute(y));
          } else {
            actors[a] := me.(pc := Enter1);
          }
        case Compute(y) =>
          UpdateColumn(matrix, p.n, me.k, y);
          actors[a] := me.(pc := Pop);
        case Enter1 =>
          actors[a] := me.(pc := Inside1(barrier1.generation));
          barrier1 := barrier1.Arrive();
        case Inside1(g) =>
          actors[a] := me.(pc := if a < p.T then Enter2 else Clear);
        case Clear =>
          bag.qNum := 0;
          actors[a] := me.(pc := Enter2);
        case Enter2 =>
          actors[a] := me.(pc := Inside2(barrier2.generation));
          barrier2 := barrier2.Arrive();
        case Inside2(g) =>
          actors[a] := Actor(me.k + 1, LoopHead(p, a, me.k + 1));
      }
    }

    method CanTurn(a: nat) returns (enabled: bool)
      requires Valid() && a <= p.T
      ensures enabled == Enabled(View(), a)
    {
      assert actors[..][a] == actors[a];
      match actors[a].pc {
        case Inside1(g) => enabled := barrier1.generation > g;
        case Inside2(g) => enabled := barrier2.generation > g;
        case Exited => enabled := false;
        case _ => enabled := true;
      }
    }

    /** Actor a is scheduled: it acts unless it is blocked or gone. */
    method Schedule(a: nat)
      requires Valid()
      modifies this, bag`qNum, matrix, actors
      ensures Valid() && bag.queue == old(bag.queue) && matrix == old(matrix) && actors == old(actors)
      ensures View() == Act(p, old(View()), a)
    {
      ActKeepsInv(p, View(), a);
      if a <= p.T {
        var enabled := CanTurn(a);
        if enabled { Turn(a); }
      }
    }

    /** Any schedule, in place; once the parent has left its loop the matrix is the closure. */
    method Execute(sched: seq<nat>)
      requires Valid() && p.ToJob().Valid()
      modifies this, bag`qNum, matrix, actors
      ensures Valid() && bag.queue == old(bag.queue) && matrix == old(matrix) && actors == old(actors)
      ensures View() == Run(p, old(View()), sched)
      ensures actors[p.T].pc.Exited? ==> HoldsClosure(p.ToJob(), matrix[..])
    {
      ghost var s0 := View();
      var t := 0;
      while t < |sched|
        invariant t <= |sched| && bag.queue == old(bag.queue) && matrix == old(matrix) && actors == old(actors)
        invariant Valid() && Run(p, View(), sched[t..]) == Run(p, s0, sched)
      {
        assert sched[t..][1..] == sched[t + 1..];
        Schedule(sched[t]);
        t := t + 1;
      }
      assert View().actors[p.T] == actors[p.T];
      if actors[p.T].pc.Exited? {
        ParentLeavesWithClosure(p, View());
      }
    }
  }
}
