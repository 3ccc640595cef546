/** wtc_proc_test as it runs: the shared variables are updated in place, one actor's turn
    at a time, under an arbitrary schedule. */
module HandBarrierMachine {
  import opened Closure
  import opened Matrix
  import opened Sync
  import opened HandBarrier
  import opened HandBarrierRuns

  class Machine {
    const p: Program
    var matrix: array<int>
    var matrixLock: Sem
    var bCount: int
    var bLock: Sem
    var cont: int
    var contLock: Sem
    var count: int
    var cLock: Sem
    var children: array<Child>
    var parent: Parent
    ghost var flips: nat

    ghost function View(): State
      reads this, matrix, children
    {
      State(matrix[..], matrixLock, bCount, bLock, cont, contLock, count, cLock, children[..], parent, flips)
    }

    ghost predicate Valid()
      reads this, matrix, children
    {
      Inv(p, View())
    }

    constructor (p: Program)
      ensures this.p == p && fresh(matrix) && fresh(children)
      ensures Valid() && View() == Init(p)
    {
      InitInv(p);
      this.p := p;
      var s := Init(p);
      matrix := new int[p.n * p.n](x requires 0 <= x < p.n * p.n => Loaded(p.ToJob())[x]);
      matrixLock, bLock, contLock, cLock := Free, Free, Free, Free;
      bCount, cont, count := 0, 0, p.T;
      children := new Child[p.T](id => Child(RoundStart(p, id, 0), 0, 1, 0));
      parent := Parent(BarrierWait, 1, false);
      flips := 0;
      new;
      assert matrix[..] == s.matrix && children[..] == s.children;
    }

    /** One column under matrixLock, cut where another actor may come in between. */
    method MatrixTurn(id: nat)
      requires Valid() && id < p.T && ChildEnabled(View(), id) && InMatrix(children[id])
      modifies this, matrix, children
      ensures matrix == old(matrix) && children == old(children)
      ensures View() == MatrixStep(p, old(View()), id)
    {
      assert PcShape(p, children[..][id]);
      var c := children[id];
      match c.pc {
        case MatrixWait(y) =>
          matrixLock := matrixLock.Wait(id);
          children[id] := c.(pc := MatrixUpdate(y));
        case MatrixUpdate(y) =>
          UpdateColumn(matrix, p.n, c.k, y);
          children[id] := c.(pc := MatrixPost(y));
        case MatrixPost(y) =>
          matrixLock := matrixLock.Post();
          children[id] := c.(pc := if y + 1 < High(p.n, p.T, id) then MatrixWait(y + 1) else ArriveWait);
      }
    }

    /** The arrival at the barrier. */
    method ArriveTurn(id: nat)
      requires Valid() && id < p.T && ChildEnabled(View(), id) && InArrive(children[id])
      modifies this, matrix, children
      ensures matrix == old(matrix) && children == old(children)
      ensures View() == ArriveStep(old(View()), id)
    {
      assert PcShape(p, children[..][id]);
      var c := children[id];
      match c.pc {
        case ArriveWait =>
          bLock := bLock.Wait(id);
          children[id] := c.(pc := ArriveCount);
        case ArriveCount =>
          bCount := bCount + 1;
          children[id] := c.(pc := ArrivePost);
        case ArrivePost =>
          bLock := bLock.Post();
          children[id] := c.(pc := SpinWait);
      }
    }

    /** The poll of cont, and the next round when it has flipped. */
    method SpinTurn(id: nat)
      requires Valid() && id < p.T && ChildEnabled(View(), id) && InSpin(children[id])
      modifies this, matrix, children
      ensures matrix == old(matrix) && children == old(children)
      ensures View() == SpinStep(p, old(View()), id)
    {
      assert PcShape(p, children[..][id]);
      var c := children[id];
      match c.pc {
        case SpinWait =>
          contLock := contLock.Wait(id);
          children[id] := c.(pc := SpinRead);
        case SpinRead =>
          children[id] := c.(pc := SpinPost, tCont := cont);
        case SpinPost =>
          contLock := contLock.Post();
          if c.tCont != c.nextFlip {
            children[id] := c.(pc := SpinWait);
          } else {
            children[id] := Child(RoundStart(p, id, c.k + 1), c.k + 1, Not(c.nextFlip), c.tCont);
          }
      }
    }

    /** The shutdown count. */
    method LeaveTurn(id: nat)
      requires Valid() && id < p.T && ChildEnabled(View(), id) && InLeave(children[id])
      modifies this, matrix, children
      ensures matrix == old(matrix) && children == old(children)
      ensures View() == LeaveStep(old(View()), id)
    {
      assert PcShape(p, children[..][id]);
      var c := children[id];
      match c.pc {
        case LeaveWait =>
          cLock := cLock.Wait(id);
          children[id] := c.(pc := LeaveCount);
        case LeaveCount =>
          count := count - 1;
          children[id] := c.(pc := LeavePost);
        case LeavePost =>
          cLock := cLock.Post();
          children[id] := c.(pc := ChildExited);
      }
    }

    /** The child's loop body. */
    method ChildTurn(id: nat)
      requires Valid() && id < p.T && ChildEnabled(View(), id)
      modifies this, matrix, children
      ensures matrix == old(matrix) && children == old(children)
      ensures View() == ChildStep(p, old(View()), id)
    {
      assert children[..][id] == children[id];
      if InMatrix(children[id]) {
        MatrixTurn(id);
      } else if InArrive(children[id]) {
        ArriveTurn(id);
      } else if InSpin(children[id]) {
        SpinTurn(id);
      } else {
        LeaveTurn(id);
      }
    }

    method ParentTurn()
      requires Valid() && ParentEnabled(View())
      modifies this
      ensures matrix == old(matrix) && children == old(children)
      ensures View() == ParentStep(p, old(View()))
    {
      match parent.pc {
        case BarrierWait =>
          bLock := bLock.Wait(p.T);
          parent := parent.(pc := BarrierTest);
        case BarrierTest =>
          if bCount == p.T && cont != parent.nextFlip {
            parent := parent.(pc := FlipWait);
          } else {
            parent := parent.(pc := BarrierPost);
          }
        case FlipWait =>
          contLock := contLock.Wait(p.T);
          parent := parent.(pc := Flip);
        case Flip =>
          parent := parent.(pc := FlipPost, nextFlip := cont);
          cont := Not(cont);
          flips := flips + 1;
        case FlipPost =>
          contLock := contLock.Post();
          parent := parent.(pc := Reset);
        case Reset =>
          bCount := 0;
          parent := parent.(pc := BarrierPost);
        case BarrierPost =>
          bLock := bLock.Post();
          parent := parent.(pc := DoneWait);
        case DoneWait =>
          cLock := cLock.Wait(p.T);
          parent := parent.(pc := DoneTest);
        case DoneTest =>
          if count == 0 {
            parent := parent.(done := true);
          }
          parent := parent.(pc := DonePost);
        case DonePost =>
          cLock := cLock.Post();
          parent := parent.(pc := if parent.done then ParentExited else BarrierWait);
      }
    }

    /** Any schedule, in place: afterwards the machine is where the run is, and if the
        parent has finished, the shared matrix is what n rounds compute. */
    method Execute(sched: seq<nat>)
      requires Valid()
      modifies this, matrix, children
      ensures Valid() && matrix == old(matrix) && children == old(children)
      ensures View() == Run(p, old(View()), sched)
      ensures parent.pc.ParentExited? ==> AtRound(p.ToJob(), matrix[..], p.n)
    {
      ghost var s0 := View();
      var t := 0;
      assert sched[..0] == [];
      while t < |sched|
        invariant t <= |sched| && matrix == old(matrix) && children == old(children)
        invariant Valid() && View() == Run(p, s0, sched[..t])
      {
        ghost var s := View();
        ActKeepsInv(p, s, sched[t]);
        if sched[t] < p.T {
          var enabled := ChildCanMove(sched[t]);
          if enabled { ChildTurn(sched[t]); }
        } else if sched[t] == p.T {
          var enabled := ParentCanMove();
          if enabled { ParentTurn(); }
        }
        RunOneMore(p, s0, sched, t);
        t := t + 1;
      }
      assert sched[..t] == sched;
      if parent.pc.ParentExited? {
        ExitedAtRoundN(p, View());
      }
    }

    method ChildCanMove(id: nat) returns (enabled: bool)
      requires Valid() && id < p.T
      ensures enabled == ChildEnabled(View(), id)
    {
      match children[id].pc {
        case MatrixWait(y) => enabled := matrixLock.value > 0;
        case ArriveWait => enabled := bLock.value > 0;
        case SpinWait => enabled := contLock.value > 0;
        case LeaveWait => enabled := cLock.value > 0;
        case ChildExited => enabled := false;
        case _ => enabled := true;
      }
    }

    method ParentCanMove() returns (enabled: bool)
      requires Valid()
      ensures enabled == ParentEnabled(View())
    {
      match parent.pc {
        case BarrierWait => enabled := bLock.value > 0;
        case FlipWait => enabled := contLock.value > 0;
        case DoneWait => enabled := cLock.value > 0;
        case ParentExited => enabled := false;
        case _ => enabled := true;
      }
    }
  }
}
