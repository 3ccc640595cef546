/** Warshall's recurrence and its meaning as paths.

    Every driver in Project_1 applies the same cell rule in rounds k = 0 .. n-1:
    cell (i, j) becomes true when (i, k) and (k, j) are. A driver whose static
    partition leaves a remainder never applies the rule to some columns or rows,
    so the recurrence takes the set of covered cells as a parameter.
  */
module Closure {
  type pos = x: int | x > 0 witness 1

  /** The cells a driver ever writes: the first `bound` columns or the first `bound` rows. */
  datatype Cover = Columns(bound: nat) | Rows(bound: nat) {
    predicate Has(i: nat, j: nat) {
      match this
      case Columns(bound) => j < bound
      case Rows(bound) => i < bound
    }
  }

  /** One input graph together with the cells the chosen driver covers. */
  datatype Job = Job(n: nat, edges: set<(nat, nat)>, cover: Cover) {
    ghost predicate Valid() {
      forall e :: e in edges ==> e.0 < n && e.1 < n
    }

    /** The cell (i, j) after rounds 0 .. k-1. */
    predicate Reach(k: nat, i: nat, j: nat) {
      if k == 0 then
        (i, j) in edges
      else
        || Reach(k - 1, i, j)
        || (cover.Has(i, j) && Reach(k - 1, i, k - 1) && Reach(k - 1, k - 1, j))
    }

    /** A path of at least one edge. */
    ghost predicate IsPath(p: seq<nat>) {
      && |p| >= 2
      && forall t :: 0 <= t < |p| - 1 ==> (p[t], p[t + 1]) in edges
    }

    ghost predicate Joins(p: seq<nat>, i: nat, j: nat) {
      IsPath(p) && p[0] == i && p[|p| - 1] == j
    }

    /** The transitive closure, with no reference to rounds. */
    ghost predicate Connected(i: nat, j: nat) {
      exists p :: Joins(p, i, j)
    }

    /** Joined by a path whose intermediate vertices are all below k. */
    ghost predicate ConnectedVia(k: nat, i: nat, j: nat) {
      exists p :: Joins(p, i, j) && Via(p, k)
    }

    /** What a partial cover can follow: with columns, an uncovered intermediate
        vertex comes only after larger intermediate vertices; with rows, only
        before larger ones. With a full cover every path qualifies. */
    ghost predicate Followable(p: seq<nat>) {
      match cover
      case Columns(c) => forall s, t :: 0 < s < t < |p| - 1 && p[t] >= c ==> p[s] > p[t]
      case Rows(c) => forall s, t :: 0 < s < t < |p| - 1 && p[s] >= c ==> p[t] > p[s]
    }

    ghost predicate Follows(i: nat, j: nat) {
      exists p :: Joins(p, i, j) && Followable(p)
    }
  }

  ghost predicate Via(p: seq<nat>, k: nat) {
    forall t :: 0 < t < |p| - 1 ==> p[t] < k
  }

  /** Round k leaves pivot column k and pivot row k as they were. */
  lemma PivotStable(job: Job, k: nat, i: nat, j: nat)
    ensures job.Reach(k + 1, i, k) == job.Reach(k, i, k)
    ensures job.Reach(k + 1, k, j) == job.Reach(k, k, j)
  {
  }

  lemma {:induction false} UncoveredStays(job: Job, k: nat, i: nat, j: nat)
    requires !job.cover.Has(i, j)
    ensures job.Reach(k, i, j) == ((i, j) in job.edges)
  {
    if k > 0 {
      UncoveredStays(job, k - 1, i, j);
    }
  }

  lemma {:induction false} ReachGrows(job: Job, k: nat, m: nat, i: nat, j: nat)
    requires k <= m && job.Reach(k, i, j)
    ensures job.Reach(m, i, j)
    decreases m
  {
    if k < m {
      ReachGrows(job, k, m - 1, i, j);
    }
  }

  // ---------------------------------------------------------------- soundness

  /** Whatever the rounds have set is joined by a path through earlier pivots. */
  lemma {:induction false} ReachHasPath(job: Job, k: nat, i: nat, j: nat) returns (p: seq<nat>)
    requires job.Reach(k, i, j)
    ensures job.Joins(p, i, j) && Via(p, k) && job.Followable(p)
  {
    if k == 0 {
      p := [i, j];
    } else if job.Reach(k - 1, i, j) {
      p := ReachHasPath(job, k - 1, i, j);
    } else {
      var left := ReachHasPath(job, k - 1, i, k - 1);
      var right := ReachHasPath(job, k - 1, k - 1, j);
      if job.cover.Columns? && k - 1 >= job.cover.bound {
        UncoveredStays(job, k - 1, i, k - 1);
        left := [i, k - 1];
      }
      if job.cover.Rows? && k - 1 >= job.cover.bound {
        UncoveredStays(job, k - 1, k - 1, j);
        right := [k - 1, j];
      }
      p := left + right[1..];
      SplicedPath(job, left, right);
      SplicedFollowable(job, k - 1, left, right);
    }
  }

  lemma SplicedPath(job: Job, left: seq<nat>, right: seq<nat>)
    requires job.IsPath(left) && job.IsPath(right)
    requires left[|left| - 1] == right[0]
    ensures job.Joins(left + right[1..], left[0], right[|right| - 1])
  {
    var p := left + right[1..];
    forall t | 0 <= t < |p| - 1 ensures (p[t], p[t + 1]) in job.edges {
      if t >= |left| - 1 {
        assert p[t] == right[t - (|left| - 1)] && p[t + 1] == right[t + 1 - (|left| - 1)];
      }
    }
  }

  /** A pivot outside the cover is entered (columns) or left (rows) over an input edge. */
  lemma SplicedFollowable(job: Job, k: nat, left: seq<nat>, right: seq<nat>)
    requires |left| >= 2 && |right| >= 2 && left[|left| - 1] == k == right[0]
    requires Via(left, k) && Via(right, k) && job.Followable(left) && job.Followable(right)
    requires k >= job.cover.bound ==> if job.cover.Columns? then |left| == 2 else |right| == 2
    ensures Via(left + right[1..], k + 1) && job.Followable(left + right[1..])
  {
    var p, m := left + right[1..], |left| - 1;
    forall t | 0 < t < |p| - 1
      ensures if t < m then p[t] == left[t] < k else if t == m then p[t] == k else p[t] == right[t - m] < k
    {
    }
  }

  // ------------------------------------------------------------- completeness

  /** A followable path through vertices below k between covered cells is found by round k. */
  lemma {:induction false} PathIsReached(job: Job, k: nat, p: seq<nat>)
    requires job.IsPath(p) && Via(p, k) && job.Followable(p)
    requires job.cover.Has(p[0], p[|p| - 1])
    ensures job.Reach(k, p[0], p[|p| - 1])
    decreases |p|, k
  {
    if |p| == 2 {
      ReachGrows(job, 0, k, p[0], p[1]);
    } else if m :| 0 < m < |p| - 1 && p[m] == k - 1 {
      var left, right := p[..m + 1], p[m..];
      HalfIsReached(job, k, p, m);
      PivotStable(job, k - 1, p[0], p[|p| - 1]);
    } else {
      assert k > 0 by { assert p[1] < k; }
      PathIsReached(job, k - 1, p);
    }
  }

  /** Both halves of a path split at pivot k-1 are found by round k. */
  lemma {:induction false} HalfIsReached(job: Job, k: nat, p: seq<nat>, m: nat)
    requires job.IsPath(p) && Via(p, k) && job.Followable(p)
    requires 0 < m < |p| - 1 && k > 0 && p[m] == k - 1
    requires job.cover.Has(p[0], p[|p| - 1])
    ensures job.Reach(k, p[0], k - 1) && job.Reach(k, k - 1, p[|p| - 1])
    decreases |p|, k, 0
  {
    var left, right := p[..m + 1], p[m..];
    if job.cover.Columns? && k - 1 >= job.cover.bound {
      assert p[1] < k && m == 1;
      ReachGrows(job, 0, k, p[0], p[1]);
    } else {
      PathIsReached(job, k, left);
    }
    if job.cover.Rows? && k - 1 >= job.cover.bound {
      assert p[|p| - 2] < k && m == |p| - 2;
      ReachGrows(job, 0, k, p[m], p[m + 1]);
    } else {
      PathIsReached(job, k, right);
    }
  }

  // ------------------------------------------------------------- main results

  /** What n rounds compute under any cover: an uncovered cell is the input edge,
      a covered one says whether some followable path exists. */
  lemma RoundsExact(job: Job, i: nat, j: nat)
    requires job.Valid() && i < job.n && j < job.n
    ensures job.Reach(job.n, i, j) <==>
            if job.cover.Has(i, j) then job.Follows(i, j) else (i, j) in job.edges
  {
    if !job.cover.Has(i, j) {
      UncoveredStays(job, job.n, i, j);
    } else {
      if job.Reach(job.n, i, j) {
        var p := ReachHasPath(job, job.n, i, j);
      }
      if job.Follows(i, j) {
        var p :| job.Joins(p, i, j) && job.Followable(p);
        PathInRange(job, p);
        PathIsReached(job, job.n, p);
      }
    }
  }

  lemma PathInRange(job: Job, p: seq<nat>)
    requires job.Valid() && job.IsPath(p)
    ensures Via(p, job.n)
  {
    forall t | 0 < t < |p| - 1 ensures p[t] < job.n {
      assert (p[t], p[t + 1]) in job.edges;
    }
  }

  /** Input edges are kept and nothing unjoined is ever set, whatever the cover. */
  lemma RoundsSound(job: Job, i: nat, j: nat)
    requires job.Valid() && i < job.n && j < job.n
    ensures (i, j) in job.edges ==> job.Reach(job.n, i, j)
    ensures job.Reach(job.n, i, j) ==> job.Connected(i, j)
  {
    if (i, j) in job.edges {
      ReachGrows(job, 0, job.n, i, j);
    }
    if job.Reach(job.n, i, j) {
      var p := ReachHasPath(job, job.n, i, j);
    }
  }

  /** Warshall's theorem: with every cell covered the rounds compute the closure. */
  lemma RoundsAreClosure(job: Job, i: nat, j: nat)
    requires job.Valid() && i < job.n && j < job.n
    requires job.cover.bound >= job.n
    ensures job.Reach(job.n, i, j) <==> job.Connected(i, j)
  {
    RoundsExact(job, i, j);
    if job.Connected(i, j) {
      var p :| job.Joins(p, i, j);
      PathInRange(job, p);
      assert job.Followable(p);
    }
  }

  /** With every cell covered, rounds 0 .. k-1 find exactly the paths whose intermediate
      vertices are below k. */
  lemma ReachIffVia(job: Job, k: nat, i: nat, j: nat)
    requires job.Valid() && i < job.n && j < job.n && k <= job.n
    requires job.cover.bound >= job.n
    ensures job.Reach(k, i, j) <==> job.ConnectedVia(k, i, j)
  {
    if job.Reach(k, i, j) {
      var p := ReachHasPath(job, k, i, j);
    }
    if job.ConnectedVia(k, i, j) {
      var p :| job.Joins(p, i, j) && Via(p, k);
      assert job.Followable(p);
      PathIsReached(job, k, p);
    }
  }

  // ------------------------------------------------------- static partitions

  /** Vertices covered when n is divided statically among T workers. */
  function Covered(n: nat, T: pos): nat
  {
    T * (n / T)
  }

  /** Worker id's range starts at Low and ends before High. */
  function Low(n: nat, T: pos, id: nat): nat {
    id * (n / T)
  }

  function High(n: nat, T: pos, id: nat): nat {
    (id + 1) * (n / T)
  }

  ghost predicate Owns(n: nat, T: pos, id: nat, y: nat)
  {
    id < T && Low(n, T, id) <= y < High(n, T, id)
  }

  lemma MulMono(a: nat, b: nat, c: nat)
    requires a <= b
    ensures a * c <= b * c
  {
  }

  lemma CoveredFits(n: nat, T: pos)
    ensures Covered(n, T) <= n
    ensures Covered(n, T) == n <==> n % T == 0
  {
    assert n == T * (n / T) + n % T;
  }

  lemma HighFits(n: nat, T: pos, id: nat)
    requires id < T
    ensures Low(n, T, id) <= High(n, T, id) <= Covered(n, T) <= n
    ensures High(n, T, id) - Low(n, T, id) == n / T
  {
    MulMono(id + 1, T, n / T);
    CoveredFits(n, T);
  }

  /** No vertex has two owners. */
  lemma OwnerUnique(n: nat, T: pos, a: nat, b: nat, y: nat)
    requires Owns(n, T, a, y) && Owns(n, T, b, y)
    ensures a == b
  {
    if a < b {
      MulMono(a + 1, b, n / T);
    } else if b < a {
      MulMono(b + 1, a, n / T);
    }
  }

  /** Worker id owns the covered vertices whose quotient by n/T is id. */
  lemma {:induction false} OwnsIffQuotient(n: nat, T: pos, id: nat, y: nat)
    ensures Owns(n, T, id, y) <==> y < T * (n / T) && y / (n / T) == id
  {
    if Owns(n, T, id, y) {
      HighFits(n, T, id);
      DivideBetween(n / T, id, y);
    } else if y < T * (n / T) {
      var q := QuotientOwns(T, n / T, y);
      DivideBetween(n / T, q, y);
    }
  }

  lemma {:induction false} DivideBetween(w: nat, q: nat, y: nat)
    requires q * w <= y < (q + 1) * w
    ensures w > 0 && y / w == q
  {
    var d := y / w;
    assert y == d * w + y % w;
    if d < q {
      MulMono(d + 1, q, w);
    } else if d > q {
      MulMono(q + 1, d, w);
    }
  }

  ghost predicate Owned(n: nat, T: pos, y: nat)
  {
    exists id: nat :: Owns(n, T, id, y)
  }

  /** The owned vertices are exactly the first Covered(n, T). */
  lemma OwnedIffCovered(n: nat, T: pos, y: nat)
    ensures Owned(n, T, y) <==> y < Covered(n, T)
  {
    if Owned(n, T, y) {
      var id: nat :| Owns(n, T, id, y);
      MulMono(id + 1, T, n / T);
    }
    if y < Covered(n, T) {
      CoveredIsOwned(n, T, y);
    }
  }

  lemma CoveredIsOwned(n: nat, T: pos, y: nat)
    requires y < Covered(n, T)
    ensures Owned(n, T, y)
  {
    var id := QuotientOwns(T, n / T, y);
    assert Owns(n, T, id, y);
  }

  lemma QuotientOwns(T: nat, w: nat, y: nat) returns (q: nat)
    requires y < T * w
    ensures q < T && q * w <= y < (q + 1) * w
  {
    q := y / w;
    assert y == q * w + y % w;
    if q >= T {
      MulMono(T, q, w);
    }
    assert (q + 1) * w == q * w + w;
  }

  /** The ranges partition 0 .. n-1 exactly when T divides n. */
  lemma PartitionIffDivides(n: nat, T: pos)
    ensures (forall y: nat :: y < n ==> Owned(n, T, y)) <==> n % T == 0
  {
    CoveredFits(n, T);
    forall y: nat | y < n ensures Owned(n, T, y) <==> y < Covered(n, T) {
      OwnedIffCovered(n, T, y);
    }
    if n % T != 0 {
      assert !Owned(n, T, n - 1);
    }
  }

  ghost predicate ComputesClosure(job: Job) {
    forall i, j :: 0 <= i < job.n && 0 <= j < job.n ==> job.Reach(job.n, i, j) == job.Connected(i, j)
  }

  ghost predicate CoverCorrect(n: nat, cover: Cover) {
    forall edges :: Job(n, edges, cover).Valid() ==> ComputesClosure(Job(n, edges, cover))
  }

  /** A static partition of the columns or of the rows yields the closure of every graph
      exactly when T divides n or the graph has at most one vertex. */
  lemma CoverCorrectIff(n: nat, T: pos, cover: Cover)
    requires cover.bound == Covered(n, T)
    ensures CoverCorrect(n, cover) <==> n % T == 0 || n <= 1
  {
    CoveredFits(n, T);
    if n % T == 0 || n <= 1 {
      forall edges | Job(n, edges, cover).Valid() ensures ComputesClosure(Job(n, edges, cover)) {
        ClosureOfJob(Job(n, edges, cover));
      }
    } else {
      var job := Job(n, {(n - 1, 0), (0, n - 1)}, cover);
      MissedLoop(job);
      assert !ComputesClosure(job);
    }
  }

  lemma ClosureOfJob(job: Job)
    requires job.Valid() && (job.cover.bound >= job.n || job.n <= 1)
    ensures ComputesClosure(job)
  {
    forall i, j | 0 <= i < job.n && 0 <= j < job.n
      ensures job.Reach(job.n, i, j) == job.Connected(i, j)
    {
      if job.cover.bound >= job.n {
        RoundsAreClosure(job, i, j);
      } else {
        RoundsSound(job, 0, 0);
        if job.Connected(0, 0) {
          var p :| job.Joins(p, 0, 0);
          assert (p[0], p[1]) in job.edges;
        }
      }
    }
  }

  /** The two-edge cycle through an uncovered vertex is not closed. */
  lemma MissedLoop(job: Job)
    requires job.n > 1 && job.cover.bound < job.n
    requires job.edges == {(job.n - 1, 0), (0, job.n - 1)}
    ensures job.Valid()
    ensures job.Connected(job.n - 1, job.n - 1) && !job.Reach(job.n, job.n - 1, job.n - 1)
  {
    assert job.Joins([job.n - 1, 0, job.n - 1], job.n - 1, job.n - 1);
    UncoveredStays(job, job.n, job.n - 1, job.n - 1);
  }
}
