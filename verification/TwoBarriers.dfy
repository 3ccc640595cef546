/** The round protocol of wtc_btproc and wtc_thr: every member works, meets the others
    at the first library barrier, does its part between the barriers, meets them at the
    second one and starts the next round. A barrier lets a member go when its generation
    has moved past the one the member entered. */
module TwoBarriers {
  import opened Sync

  datatype Place = Working | In1(g: nat) | Middle | In2(g: nat) | Gone

  /** A member in round k. */
  datatype Member = Member(k: nat, place: Place)

  datatype Rounds = Rounds(n: nat, b1: Barrier, b2: Barrier, members: seq<Member>)

  function Start(n: nat, size: nat): Rounds {
    Rounds(n, Barrier(size, 0, 0), Barrier(size, 0, 0),
           seq(size, a => Member(0, if n > 0 then Working else Gone)))
  }

  function Moved(r: Rounds, a: nat, m: Member): Rounds
    requires a < |r.members|
  {
    r.(members := r.members[a := m])
  }

  predicate CanMove(r: Rounds, a: nat)
    requires a < |r.members|
  {
    match r.members[a].place
    case In1(g) => r.b1.generation > g
    case In2(g) => r.b2.generation > g
    case Gone => false
    case _ => true
  }

  /** The protocol step of member a: enter or leave the barrier it is at. */
  function Move(r: Rounds, a: nat): Rounds
    requires a < |r.members| && CanMove(r, a)
  {
    var m := r.members[a];
    match m.place
    case Working => Moved(r, a, m.(place := In1(r.b1.generation))).(b1 := r.b1.Arrive())
    case In1(g) => Moved(r, a, m.(place := Middle))
    case Middle => Moved(r, a, m.(place := In2(r.b2.generation))).(b2 := r.b2.Arrive())
    case In2(g) => Moved(r, a, Member(m.k + 1, if m.k + 1 < r.n then Working else Gone))
  }

  /** Where a member can be, given how often each barrier has opened. */
  ghost predicate MemberOk(r: Rounds, a: nat)
    requires a < |r.members|
  {
    var m, g1, g2 := r.members[a], r.b1.generation, r.b2.generation;
    match m.place
    case Working => m.k == g1 == g2 && m.k < r.n
    case In1(g) => m.k == g == g2 && m.k < r.n
    case Middle => g1 == m.k + 1 && g2 == m.k && m.k < r.n
    case In2(g) => m.k == g && g1 == m.k + 1 && m.k < r.n
    case Gone => m.k == g1 == g2 == r.n
  }

  ghost function Waiting1(r: Rounds): (b: seq<nat>)
    ensures |b| == |r.members| && Bits(b)
  {
    seq(|r.members|, a requires 0 <= a < |r.members| =>
      if r.members[a].place == In1(r.b1.generation) then 1 else 0)
  }

  ghost function Waiting2(r: Rounds): (b: seq<nat>)
    ensures |b| == |r.members| && Bits(b)
  {
    seq(|r.members|, a requires 0 <= a < |r.members| =>
      if r.members[a].place == In2(r.b2.generation) then 1 else 0)
  }

  ghost predicate Ok(r: Rounds) {
    && r.b2.generation <= r.b1.generation <= r.b2.generation + 1
    && r.b1.generation <= r.n
    && (forall a :: 0 <= a < |r.members| ==> MemberOk(r, a))
    && BarrierOk(r.b1, Waiting1(r))
    && BarrierOk(r.b2, Waiting2(r))
  }

  lemma StartOk(n: nat, size: nat)
    requires size > 0
    ensures Ok(Start(n, size))
  {
    SumOfBits(Waiting1(Start(n, size)));
    SumOfBits(Waiting2(Start(n, size)));
  }

  /** The arrival that opens the first barrier finds everyone else inside it. */
  lemma LastIntoFirst(r: Rounds, a: nat, b: nat)
    requires Ok(r) && a < |r.members| && b < |r.members| && a != b
    requires r.members[a].place.Working? && r.b1.arrived + 1 == r.b1.size
    ensures r.members[b].place == In1(r.b1.generation) && r.members[b].k == r.b1.generation
  {
    SumUpdate(Waiting1(r), a, 1);
    SumOfBits(Waiting1(r)[a := 1]);
    assert Waiting1(r)[a := 1][b] == 1;
    assert MemberOk(r, b);
  }

  lemma LastIntoSecond(r: Rounds, a: nat, b: nat)
    requires Ok(r) && a < |r.members| && b < |r.members| && a != b
    requires r.members[a].place.Middle? && r.b2.arrived + 1 == r.b2.size
    ensures r.members[b].place == In2(r.b2.generation) && r.members[b].k == r.b2.generation
  {
    SumUpdate(Waiting2(r), a, 1);
    SumOfBits(Waiting2(r)[a := 1]);
    assert Waiting2(r)[a := 1][b] == 1;
    assert MemberOk(r, b);
  }

  lemma Enter1KeepsOk(r: Rounds, a: nat)
    requires Ok(r) && a < |r.members| && r.members[a].place.Working?
    ensures Ok(Move(r, a))
  {
    var r' := Move(r, a);
    assert MemberOk(r, a) && MemberOk(r', a);
    forall b | 0 <= b < |r.members| && b != a ensures MemberOk(r', b) {
      assert MemberOk(r, b);
      if r.b1.arrived + 1 == r.b1.size { LastIntoFirst(r, a, b); }
    }
    if r.b1.arrived + 1 == r.b1.size {
      forall b | 0 <= b < |r.members| ensures Waiting1(r')[b] == 0 {
        assert MemberOk(r', b);
      }
      SumOfBits(Waiting1(r'));
    } else {
      SumChange(Waiting1(r), Waiting1(r'), a);
    }
    assert Waiting2(r') == Waiting2(r);
  }

  lemma Enter2KeepsOk(r: Rounds, a: nat)
    requires Ok(r) && a < |r.members| && r.members[a].place.Middle?
    ensures Ok(Move(r, a))
  {
    var r' := Move(r, a);
    assert MemberOk(r, a) && MemberOk(r', a);
    forall b | 0 <= b < |r.members| && b != a ensures MemberOk(r', b) {
      assert MemberOk(r, b);
      if r.b2.arrived + 1 == r.b2.size { LastIntoSecond(r, a, b); }
    }
    if r.b2.arrived + 1 == r.b2.size {
      forall b | 0 <= b < |r.members| ensures Waiting2(r')[b] == 0 {
        assert MemberOk(r', b);
      }
      SumOfBits(Waiting2(r'));
    } else {
      SumChange(Waiting2(r), Waiting2(r'), a);
    }
    assert Waiting1(r') == Waiting1(r);
  }

  lemma LeaveKeepsOk(r: Rounds, a: nat)
    requires Ok(r) && a < |r.members| && CanMove(r, a)
    requires r.members[a].place.In1? || r.members[a].place.In2?
    ensures Ok(Move(r, a))
  {
    var r' := Move(r, a);
    assert MemberOk(r, a) && MemberOk(r', a);
    forall b | 0 <= b < |r.members| && b != a ensures MemberOk(r', b) {
      assert MemberOk(r, b);
    }
    assert Waiting1(r') == Waiting1(r);
    assert Waiting2(r') == Waiting2(r);
  }

  lemma MoveKeepsOk(r: Rounds, a: nat)
    requires Ok(r) && a < |r.members| && CanMove(r, a)
    ensures Ok(Move(r, a))
  {
    if r.members[a].place.Working? {
      Enter1KeepsOk(r, a);
    } else if r.members[a].place.Middle? {
      Enter2KeepsOk(r, a);
    } else {
      LeaveKeepsOk(r, a);
    }
  }

  /** The barriers never deadlock: if nobody can move, everybody is through. */
  lemma StuckMeansGone(r: Rounds)
    requires Ok(r) && forall a :: 0 <= a < |r.members| ==> !CanMove(r, a)
    ensures forall a :: 0 <= a < |r.members| ==> r.members[a].place.Gone?
  {
    if a :| 0 <= a < |r.members| && !r.members[a].place.Gone? {
      assert MemberOk(r, a) && !CanMove(r, a);
      var waiting := if r.members[a].place.In1? then Waiting1(r) else Waiting2(r);
      forall b | 0 <= b < |r.members| ensures waiting[b] == 1 {
        assert MemberOk(r, b) && !CanMove(r, b);
      }
      SumOfBits(waiting);
      assert false;
    }
  }

  /** Members are never more than one round apart. */
  lemma RoundsApart(r: Rounds, a: nat, b: nat)
    requires Ok(r) && a < |r.members| && b < |r.members|
    ensures -1 <= r.members[a].k - r.members[b].k <= 1
  {
    assert MemberOk(r, a) && MemberOk(r, b);
  }
}
