/** wtc_thr as it runs: the packed bytes, the shared k and the barriers updated in place
    under any schedule. */
module PackedRowsMachine {
  import opened Closure
  import opened Matrix
  import opened Sync
  import BitArray
  import opened PackedRows
  import opened PackedRowsRuns

  class Machine {
    const p: Program
    const dataMatrix: BitArray.Array
    var k: nat
    var barrier: Barrier
    var kbarrier: Barrier
    var threads: array<Thread>

    ghost function View(): State
      reads this, dataMatrix, dataMatrix.bytes, threads
    {
      State(dataMatrix.bytes[..], k, barrier, kbarrier, threads[..])
    }

    ghost predicate Valid()
      reads this, dataMatrix, dataMatrix.bytes, threads
    {
      Separate() && Inv(p, View())
    }

    ghost predicate Separate()
      reads this, dataMatrix
    {
      dataMatrix.bytes as object != threads as object
    }

    /** The state main builds around a loaded matrix. */
    constructor (p: Program, dataMatrix: BitArray.Array)
      requires Starts(p, dataMatrix.bytes[..])
      ensures this.p == p && this.dataMatrix == dataMatrix && fresh(threads)
      ensures Valid() && View() == Init(p, dataMatrix.bytes[..]) && JoinsOk(p, View())
    {
      InitInv(p, dataMatrix.bytes[..]);
      this.p := p;
      this.dataMatrix := dataMatrix;
      k := 0;
      barrier, kbarrier := Barrier(p.T + 1, 0, 0), Barrier(p.T + 1, 0, 0);
      threads := new Thread[p.T + 1](a => Thread(0, Test));
      new;
      assert threads[..] == seq(p.T + 1, a => Thread(0, Test));
    }

    /** The test and set of one cell under mutexmatrix. */
    method UpdateCell(i: nat, j: nat, ik: bool)
      requires BitArray.HoldsMatrix(p.n, dataMatrix.bytes[..]) && k < p.n && i < p.n && j < p.n
      requires Index(p.n, i, j) < 8 * dataMatrix.bytes.Length && Index(p.n, k, j) < 8 * dataMatrix.bytes.Length
      modifies dataMatrix.bytes
      ensures dataMatrix.bytes == old(dataMatrix.bytes)
      ensures dataMatrix.bytes[..] ==
              if ik && BitArray.GetBit(old(dataMatrix.bytes[..]), Index(p.n, k, j))
              then BitArray.SetBit(old(dataMatrix.bytes[..]), Index(p.n, i, j)) else old(dataMatrix.bytes[..])
    {
      var kj := dataMatrix.Get(Index(p.n, k, j));
      if ik && kj != 0 {
        dataMatrix.Set(Index(p.n, i, j));
      }
    }

    /** One action of a worker or of the main thread. */
    method Turn(a: nat)
      requires Separate() && Shape(p, View()) && a <= p.T && Enabled(p, View(), a)
      modifies this, dataMatrix.bytes, threads
      ensures dataMatrix.bytes == old(dataMatrix.bytes) && threads == old(threads)
      ensures View() == Step(p, old(View()), a)
    {
      assert ThreadShape(p, View(), a);
      assert threads[..][a] == threads[a];
      var me := threads[a];
      match me.pc {
        case Test =>
          var pc := if k < p.n then (if a < p.T then NextRow(p, a, Low(p.n, p.T, a)) else Enter1)
                    else if a < p.T then Exited else Join(0);
          threads[a] := me.(pc := pc);
        case ReadPivot(i) =>
          BitArray.CellFits(p.n, dataMatrix.bytes[..], i, k);
          var ik := dataMatrix.Get(Index(p.n, i, k));
          threads[a] := me.(pc := Update(i, 0, ik != 0));
        case Update(i, j, ik) =>
          BitArray.CellFits(p.n, dataMatrix.bytes[..], k, j);
          BitArray.CellFits(p.n, dataMatrix.bytes[..], i, j);
          UpdateCell(i, j, ik);
          threads[a] := me.(pc := if j + 1 < p.n then Update(i, j + 1, ik) else NextRow(p, a, i + 1));
        case Enter1 =>
          threads[a] := me.(pc := Inside1(barrier.generation));
          barrier := barrier.Arrive();
        case Inside1(g) =>
          threads[a] := me.(pc := if a < p.T then Enter2 else Advance);
        case Advance =>
          k := k + 1;
          threads[a] := me.(pc := Enter2);
        case Enter2 =>
          threads[a] := me.(pc := Inside2(kbarrier.generation));
          kbarrier := kbarrier.Arrive();
        case Inside2(g) =>
          threads[a] := Thread(me.round + 1, Test);
        case Join(id) =>
          threads[a] := me.(pc := if id + 1 < p.T then Join(id + 1) else Exited);
      }
    }

    method CanTurn(a: nat) returns (enabled: bool)
      requires Valid() && a <= p.T
      ensures enabled == Enabled(p, View(), a)
    {
      assert threads[..][a] == threads[a];
      match threads[a].pc {
        case Inside1(g) => enabled := barrier.generation > g;
        case Inside2(g) => enabled := kbarrier.generation > g;
        case Join(id) =>
          enabled := id < p.T && threads[id].pc.Exited?;
        case Exited => enabled := false;
        case _ => enabled := true;
      }
    }

    /** Any schedule, in place, from a state in which main has joined only exited threads;
        once main has joined everybody all workers have exited and the packed matrix is
        what n rounds over the covered rows compute. */
    method Execute(sched: seq<nat>)
      requires Valid() && JoinsOk(p, View())
      modifies this, dataMatrix.bytes, threads
      ensures Valid() && dataMatrix.bytes == old(dataMatrix.bytes) && threads == old(threads)
      ensures View() == Run(p, old(View()), sched) && JoinsOk(p, View())
      ensures threads[p.T].pc.Exited? ==>
                AtRound(p.ToJob(), BitArray.Unpack(p.n, dataMatrix.bytes[..]), p.n)
      ensures threads[p.T].pc.Exited? ==> forall a :: 0 <= a < p.T ==> threads[a].pc.Exited?
    {
      ghost var s0 := View();
      var t := 0;
      while t < |sched|
        invariant t <= |sched| && dataMatrix.bytes == old(dataMatrix.bytes) && threads == old(threads)
        invariant Valid() && Run(p, View(), sched[t..]) == Run(p, s0, sched)
      {
        ActKeepsInv(p, View(), sched[t]);
        assert sched[t..][1..] == sched[t + 1..];
        if sched[t] <= p.T {
          var enabled := CanTurn(sched[t]);
          if enabled { Turn(sched[t]); }
        }
        t := t + 1;
      }
      RunKeepsJoins(p, s0, sched);
      Placed(p, View(), p.T);
      ghost var s := View();
      assert forall a :: 0 <= a <= p.T ==> threads[a] == s.threads[a];
    }
  }
}
