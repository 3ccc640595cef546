/** wtc_proc as it runs: the matrix and the barrier updated in place under any schedule. */
module StaticColumnsMachine {
  import opened Closure
  import opened Matrix
  import opened Sync
  import opened StaticColumns

  class Machine {
    const p: Program
    var matrix: array<int>
    var barrier1: Barrier
    var actors: array<Actor>

    ghost function View(): State
      reads this, matrix, actors
    {
      State(matrix[..], barrier1, actors[..])
    }

    ghost predicate Valid()
      reads this, matrix, actors
    {
      Inv(p, View())
    }

    constructor (p: Program)
      ensures this.p == p && fresh(matrix) && fresh(actors)
      ensures Valid() && View() == Init(p)
    {
      InitInv(p);
      this.p := p;
      var s := Init(p);
      matrix := new int[p.n * p.n](x requires 0 <= x < p.n * p.n => Loaded(p.ToJob())[x]);
      barrier1 := Barrier(p.T + 1, 0, 0);
      actors := new Actor[p.T + 1](a requires 0 <= a < p.T + 1 => Actor(0, LoopHead(p, a, 0)));
      new;
      assert matrix[..] == s.matrix && actors[..] == s.actors;
    }

    /** One action of a child or of the parent. */
    method Turn(a: nat)
      requires Valid() && a <= p.T && Enabled(View(), a)
      modifies this, matrix, actors
      ensures matrix == old(matrix) && actors == old(actors)
      ensures View() == Step(p, old(View()), a)
    {
      assert ActorShape(p, actors[..][a], a);
      var me := actors[a];
      match me.pc {
        case Compute(y) =>
          UpdateColumn(matrix, p.n, me.k, y);
          actors[a] := me.(pc := if y + 1 < High(p.n, p.T, a) then Compute(y + 1) else Enter);
        case Enter =>
          actors[a] := me.(pc := Inside(barrier1.generation));
          barrier1 := barrier1.Arrive();
        case Inside(g) =>
          actors[a] := Actor(me.k + 1, LoopHead(p, a, me.k + 1));
      }
    }

    /** Any schedule, in place; once the parent has left its loop the matrix is what n
        rounds over the covered columns compute. */
    method Execute(sched: seq<nat>)
      requires Valid()
      modifies this, matrix, actors
      ensures Valid() && matrix == old(matrix) && actors == old(actors)
      ensures View() == Run(p, old(View()), sched)
      ensures actors[p.T].pc.Exited? ==> AtRound(p.ToJob(), matrix[..], p.n)
    {
      ghost var s0 := View();
      var t := 0;
      while t < |sched|
        invariant t <= |sched| && matrix == old(matrix) && actors == old(actors)
        invariant Valid() && Run(p, View(), sched[t..]) == Run(p, s0, sched)
      {
        ActKeepsInv(p, View(), sched[t]);
        assert sched[t..][1..] == sched[t + 1..];
        if sched[t] <= p.T {
          var me := actors[sched[t]];
          assert me == View().actors[sched[t]];
          if (me.pc.Inside? && barrier1.generation > me.pc.g) || me.pc.Compute? || me.pc.Enter? {
            Turn(sched[t]);
          }
        }
        t := t + 1;
      }
      assert ActorShape(p, View().actors[p.T], p.T) && PlaceOk(View(), p.T);
    }
  }
}
