/** The shared n*n matrix of ints, stored row by row, and one round of Warshall's
    rule on it. A cell is true when its int is non-zero. */
module Matrix {
  import opened Closure

  function Index(n: nat, i: nat, j: nat): (x: nat)
    requires i < n && j < n
    ensures x < n * n && x / n == i && x % n == j
  {
    IndexBounds(n, i, j);
    i * n + j
  }

  lemma IndexBounds(n: nat, i: nat, j: nat)
    requires i < n && j < n
    ensures i * n + j < n * n
    ensures (i * n + j) / n == i && (i * n + j) % n == j
  {
    MulMono(i + 1, n, n);
    var x := i * n + j;
    var q, r := x / n, x % n;
    assert x == q * n + r;
    if q < i {
      MulMono(q + 1, i, n);
    } else if q > i {
      MulMono(i + 1, q, n);
    }
  }

  lemma PositionIsIndex(n: nat, x: nat)
    requires x < n * n
    ensures n > 0 && 0 <= x / n < n && x % n < n && Index(n, x / n, x % n) == x
  {
    if x / n >= n {
      MulMono(n, x / n, n);
    }
  }

  predicate Cell(n: nat, m: seq<int>, i: nat, j: nat)
    requires |m| == n * n && i < n && j < n
  {
    m[Index(n, i, j)] != 0
  }

  function Truth(b: bool): int {
    if b then 1 else 0
  }

  /** The matrix as loaded: zero except for the input edges. */
  function Loaded(job: Job): (m: seq<int>)
    ensures |m| == job.n * job.n
  {
    seq(job.n * job.n, x requires 0 <= x < job.n * job.n =>
      PositionIsIndex(job.n, x); Truth((x / job.n, x % job.n) in job.edges))
  }

  /** The matrix after column y has been updated in round k. */
  function ColumnStep(n: nat, m: seq<int>, k: nat, y: nat): (m': seq<int>)
    requires |m| == n * n && k < n && y < n
    ensures |m'| == n * n
  {
    seq(n * n, x requires 0 <= x < n * n =>
      PositionIsIndex(n, x);
      if x % n == y then Truth(Cell(n, m, x / n, y) || (Cell(n, m, k, y) && Cell(n, m, x / n, k)))
      else m[x])
  }

  lemma ColumnStepCell(n: nat, m: seq<int>, k: nat, y: nat, i: nat, j: nat)
    requires |m| == n * n && k < n && y < n && i < n && j < n
    ensures Cell(n, ColumnStep(n, m, k, y), i, j) ==
            (Cell(n, m, i, j) || (j == y && Cell(n, m, i, k) && Cell(n, m, k, j)))
  {
  }

  /** Column y written down to row j, the rest as before. */
  ghost function PartialStep(n: nat, m: seq<int>, k: nat, y: nat, j: nat): (m': seq<int>)
    requires |m| == n * n && k < n && y < n
    ensures |m'| == n * n
  {
    seq(n * n, x requires 0 <= x < n * n =>
      PositionIsIndex(n, x);
      if x % n == y && x / n < j then ColumnStep(n, m, k, y)[x] else m[x])
  }

  lemma PartialStepNext(n: nat, m: seq<int>, k: nat, y: nat, j: nat)
    requires |m| == n * n && k < n && y < n && j < n
    ensures PartialStep(n, m, k, y, j + 1) ==
            PartialStep(n, m, k, y, j)[Index(n, j, y) := ColumnStep(n, m, k, y)[Index(n, j, y)]]
  {
    var at := Index(n, j, y);
    var next := PartialStep(n, m, k, y, j + 1);
    var stepped := PartialStep(n, m, k, y, j)[at := ColumnStep(n, m, k, y)[at]];
    forall x | 0 <= x < n * n ensures next[x] == stepped[x] {
      PositionIsIndex(n, x);
    }
  }

  /** The right-hand side of the assignment, whose operands may have been written already. */
  function RuleValue(n: nat, m: seq<int>, k: nat, y: nat, j: nat): int
    requires |m| == n * n && k < n && y < n && j < n
  {
    Truth(Cell(n, m, j, y) || (Cell(n, m, k, y) && Cell(n, m, j, k)))
  }

  /** Evaluated on the half-written column it gives what it gave on the original. */
  lemma PartialStepReads(n: nat, m: seq<int>, k: nat, y: nat, j: nat)
    requires |m| == n * n && k < n && y < n && j < n
    ensures RuleValue(n, PartialStep(n, m, k, y, j), k, y, j) == ColumnStep(n, m, k, y)[Index(n, j, y)]
  {
    assert Cell(n, PartialStep(n, m, k, y, j), j, y) == Cell(n, m, j, y);
    assert Cell(n, PartialStep(n, m, k, y, j), k, y) == Cell(n, m, k, y);
    assert Cell(n, PartialStep(n, m, k, y, j), j, k) == Cell(n, m, j, k);
  }

  lemma PartialStepNone(n: nat, m: seq<int>, k: nat, y: nat)
    requires |m| == n * n && k < n && y < n
    ensures PartialStep(n, m, k, y, 0) == m
  {
    forall x | 0 <= x < n * n ensures PartialStep(n, m, k, y, 0)[x] == m[x] {
      PositionIsIndex(n, x);
    }
  }

  /** One turn of the loop takes the column from j rows written to j + 1. */
  lemma PartialStepRule(n: nat, m: seq<int>, k: nat, y: nat, j: nat)
    requires |m| == n * n && k < n && y < n && j < n
    ensures var part := PartialStep(n, m, k, y, j);
            PartialStep(n, m, k, y, j + 1) == part[Index(n, j, y) := RuleValue(n, part, k, y, j)]
  {
    PartialStepReads(n, m, k, y, j);
    PartialStepNext(n, m, k, y, j);
  }

  /** The j loop run under matrixLock, in place. */
  method UpdateColumn(matrix: array<int>, n: nat, k: nat, y: nat)
    requires matrix.Length == n * n && k < n && y < n
    modifies matrix
    ensures matrix[..] == ColumnStep(n, old(matrix[..]), k, y)
  {
    ghost var was := matrix[..];
    var j := 0;
    PartialStepNone(n, was, k, y);
    while j < n
      invariant j <= n
      invariant matrix[..] == PartialStep(n, was, k, y, j)
    {
      PartialStepRule(n, was, k, y, j);
      UpdateCell(matrix, n, k, y, j);
      j := j + 1;
    }
    PartialStepWhole(n, was, k, y);
  }

  /** The assignment in the j loop. */
  method UpdateCell(matrix: array<int>, n: nat, k: nat, y: nat, j: nat)
    requires matrix.Length == n * n && k < n && y < n && j < n
    modifies matrix
    ensures matrix[..] == old(matrix[..])[Index(n, j, y) := RuleValue(n, old(matrix[..]), k, y, j)]
  {
    var here, pivot, left := Index(n, j, y), Index(n, k, y), Index(n, j, k);
    matrix[here] := Truth(matrix[here] != 0 || (matrix[pivot] != 0 && matrix[left] != 0));
  }

  lemma PartialStepWhole(n: nat, m: seq<int>, k: nat, y: nat)
    requires |m| == n * n && k < n && y < n
    ensures PartialStep(n, m, k, y, n) == ColumnStep(n, m, k, y)
  {
    forall x | 0 <= x < n * n ensures PartialStep(n, m, k, y, n)[x] == ColumnStep(n, m, k, y)[x] {
      PositionIsIndex(n, x);
    }
  }

  // -------------------------------------------------------- inside one round

  /** The ints are those the input and the || of the rule leave. */
  predicate ZeroOne(m: seq<int>) {
    forall x :: 0 <= x < |m| ==> m[x] == 0 || m[x] == 1
  }

  /** Every cell is as Warshall's rule has it after rounds 0 .. k-1. */
  ghost predicate AtRound(job: Job, m: seq<int>, k: nat) {
    && |m| == job.n * job.n && ZeroOne(m)
    && forall i, j :: 0 <= i < job.n && 0 <= j < job.n ==> Cell(job.n, m, i, j) == job.Reach(k, i, j)
  }

  /** Some cells of round k have been written and some have not. */
  ghost predicate Within(job: Job, m: seq<int>, k: nat) {
    && |m| == job.n * job.n && ZeroOne(m)
    && forall i, j :: 0 <= i < job.n && 0 <= j < job.n ==>
      && (job.Reach(k, i, j) ==> Cell(job.n, m, i, j))
      && (Cell(job.n, m, i, j) ==> job.Reach(k + 1, i, j))
  }

  ghost predicate CellDone(job: Job, m: seq<int>, k: nat, i: nat, j: nat)
    requires |m| == job.n * job.n && i < job.n && j < job.n
  {
    Cell(job.n, m, i, j) == job.Reach(k + 1, i, j)
  }

  ghost predicate ColumnDone(job: Job, m: seq<int>, k: nat, y: nat)
    requires |m| == job.n * job.n && y < job.n
  {
    forall i :: 0 <= i < job.n ==> CellDone(job, m, k, i, y)
  }

  lemma LoadedAtZero(job: Job)
    ensures AtRound(job, Loaded(job), 0)
  {
  }

  lemma RoundStarts(job: Job, m: seq<int>, k: nat)
    requires AtRound(job, m, k)
    ensures Within(job, m, k)
  {
  }

  /** While round k runs, pivot row k and pivot column k hold their starting values. */
  lemma PivotsFixed(job: Job, m: seq<int>, k: nat, i: nat)
    requires Within(job, m, k) && k < job.n && i < job.n
    ensures Cell(job.n, m, i, k) == job.Reach(k, i, k)
    ensures Cell(job.n, m, k, i) == job.Reach(k, k, i)
  {
    PivotStable(job, k, i, i);
  }

  /** Writing a covered column in round k finishes it and disturbs nothing else,
      whatever else of the round has been written already. */
  lemma ColumnRound(job: Job, m: seq<int>, k: nat, y: nat)
    requires Within(job, m, k) && k < job.n && y < job.n
    requires job.cover.Columns? && y < job.cover.bound
    ensures Within(job, ColumnStep(job.n, m, k, y), k)
    ensures ColumnDone(job, ColumnStep(job.n, m, k, y), k, y)
    ensures forall z :: 0 <= z < job.n && ColumnDone(job, m, k, z) ==>
              ColumnDone(job, ColumnStep(job.n, m, k, y), k, z)
  {
    var m' := ColumnStep(job.n, m, k, y);
    forall i, j | 0 <= i < job.n && 0 <= j < job.n
      ensures job.Reach(k, i, j) ==> Cell(job.n, m', i, j)
      ensures Cell(job.n, m', i, j) ==> job.Reach(k + 1, i, j)
      ensures j == y ==> CellDone(job, m', k, i, j)
      ensures j != y ==> Cell(job.n, m', i, j) == Cell(job.n, m, i, j)
    {
      ColumnStepCell(job.n, m, k, y, i, j);
      PivotsFixed(job, m, k, i);
      PivotsFixed(job, m, k, j);
    }
    forall z | 0 <= z < job.n && ColumnDone(job, m, k, z) ensures ColumnDone(job, m', k, z) {
      forall i | 0 <= i < job.n ensures CellDone(job, m', k, i, z) {
        assert CellDone(job, m, k, i, z);
      }
    }
  }

  /** One cell of a covered row, as the threaded driver writes it. */
  function CellStep(n: nat, m: seq<int>, k: nat, i: nat, j: nat, ik: bool): (m': seq<int>)
    requires |m| == n * n && k < n && i < n && j < n
    ensures |m'| == n * n
  {
    if ik && Cell(n, m, k, j) then m[Index(n, i, j) := 1] else m
  }

  lemma CellRound(job: Job, m: seq<int>, k: nat, i: nat, j: nat)
    requires Within(job, m, k) && k < job.n && i < job.n && j < job.n
    requires job.cover.Has(i, j)
    ensures Within(job, CellStep(job.n, m, k, i, j, job.Reach(k, i, k)), k)
    ensures CellDone(job, CellStep(job.n, m, k, i, j, job.Reach(k, i, k)), k, i, j)
    ensures forall a, b :: 0 <= a < job.n && 0 <= b < job.n && CellDone(job, m, k, a, b) ==>
              CellDone(job, CellStep(job.n, m, k, i, j, job.Reach(k, i, k)), k, a, b)
  {
    var m' := CellStep(job.n, m, k, i, j, job.Reach(k, i, k));
    PivotsFixed(job, m, k, j);
    forall a, b | 0 <= a < job.n && 0 <= b < job.n
      ensures a != i || b != j ==> Cell(job.n, m', a, b) == Cell(job.n, m, a, b)
    {
      assert a != i || b != j ==> Index(job.n, a, b) != Index(job.n, i, j);
    }
    assert CellDone(job, m', k, i, j);
  }

  /** When every covered cell is written the round is over. */
  lemma RoundEnds(job: Job, m: seq<int>, k: nat)
    requires Within(job, m, k)
    requires forall i, j :: 0 <= i < job.n && 0 <= j < job.n && job.cover.Has(i, j) ==> CellDone(job, m, k, i, j)
    ensures AtRound(job, m, k + 1)
  {
    forall i, j | 0 <= i < job.n && 0 <= j < job.n
      ensures Cell(job.n, m, i, j) == job.Reach(k + 1, i, j)
    {
      if job.cover.Has(i, j) {
        assert CellDone(job, m, k, i, j);
      }
    }
  }

  lemma ColumnsEndRound(job: Job, m: seq<int>, k: nat)
    requires Within(job, m, k) && job.cover.Columns?
    requires forall y :: 0 <= y < job.n && y < job.cover.bound ==> ColumnDone(job, m, k, y)
    ensures AtRound(job, m, k + 1)
  {
    forall i, j | 0 <= i < job.n && 0 <= j < job.n && job.cover.Has(i, j)
      ensures CellDone(job, m, k, i, j)
    {
      assert ColumnDone(job, m, k, j);
    }
    RoundEnds(job, m, k);
  }

  // ------------------------------------------------------ finished matrices

  /** The matrix, as it is printed, is the transitive closure of the job's graph. */
  ghost predicate HoldsClosure(job: Job, m: seq<int>) {
    && |m| == job.n * job.n
    && forall i, j :: 0 <= i < job.n && 0 <= j < job.n ==>
         m[Index(job.n, i, j)] == if job.Connected(i, j) then 1 else 0
  }

  lemma FinishedIsClosureIff(job: Job, m: seq<int>)
    requires AtRound(job, m, job.n)
    ensures HoldsClosure(job, m) <==> ComputesClosure(job)
  {
    if HoldsClosure(job, m) {
      forall i, j | 0 <= i < job.n && 0 <= j < job.n
        ensures job.Reach(job.n, i, j) == job.Connected(i, j)
      {
        assert Cell(job.n, m, i, j) == job.Reach(job.n, i, j);
      }
    }
  }

  /** Every matrix a driver can finish with, on any graph, is the closure. */
  ghost predicate AlwaysClosure(n: nat, cover: Cover, finishes: (Job, seq<int>) -> bool) {
    forall edges, m :: Job(n, edges, cover).Valid() && finishes(Job(n, edges, cover), m) ==>
      HoldsClosure(Job(n, edges, cover), m)
  }

  /** A driver with a static partition that can always finish, and finishes only after
      n rounds, is right on every graph exactly when T divides n or n is at most 1. */
  lemma AlwaysClosureIff(n: nat, T: pos, cover: Cover, finishes: (Job, seq<int>) -> bool)
    requires cover.bound == Covered(n, T)
    requires forall edges, m :: Job(n, edges, cover).Valid() && finishes(Job(n, edges, cover), m) ==>
               AtRound(Job(n, edges, cover), m, n)
    requires forall edges :: Job(n, edges, cover).Valid() ==> exists m :: finishes(Job(n, edges, cover), m)
    ensures AlwaysClosure(n, cover, finishes) <==> n % T == 0 || n <= 1
  {
    CoverCorrectIff(n, T, cover);
    forall edges, m | Job(n, edges, cover).Valid() && finishes(Job(n, edges, cover), m)
      ensures HoldsClosure(Job(n, edges, cover), m) <==> ComputesClosure(Job(n, edges, cover))
    {
      FinishedIsClosureIff(Job(n, edges, cover), m);
    }
    if !CoverCorrect(n, cover) {
      var edges :| Job(n, edges, cover).Valid() && !ComputesClosure(Job(n, edges, cover));
      var m :| finishes(Job(n, edges, cover), m);
      assert !HoldsClosure(Job(n, edges, cover), m);
    }
  }

  // ------------------------------------------------------ order independence

  /** Column updates of round k applied one after the other, in the order given. */
  function ApplyColumns(n: nat, m: seq<int>, k: nat, ys: seq<nat>): (m': seq<int>)
    requires |m| == n * n && k < n
    requires forall t :: 0 <= t < |ys| ==> ys[t] < n
    ensures |m'| == n * n
    decreases |ys|
  {
    if ys == [] then m else ApplyColumns(n, ColumnStep(n, m, k, ys[0]), k, ys[1..])
  }

  lemma {:induction false} AppliedColumnsDone(job: Job, m: seq<int>, k: nat, ys: seq<nat>)
    requires Within(job, m, k) && k < job.n && job.cover.Columns?
    requires forall t :: 0 <= t < |ys| ==> ys[t] < job.n && ys[t] < job.cover.bound
    ensures Within(job, ApplyColumns(job.n, m, k, ys), k)
    ensures forall y :: 0 <= y < job.n && (y in ys || ColumnDone(job, m, k, y)) ==>
              ColumnDone(job, ApplyColumns(job.n, m, k, ys), k, y)
    decreases |ys|
  {
    if ys != [] {
      ColumnRound(job, m, k, ys[0]);
      AppliedColumnsDone(job, ColumnStep(job.n, m, k, ys[0]), k, ys[1..]);
    }
  }

  /** Any order and any repetition of the covered columns gives Warshall's round. */
  lemma AnyOrderIsARound(job: Job, m: seq<int>, k: nat, ys: seq<nat>)
    requires AtRound(job, m, k) && k < job.n && job.cover.Columns?
    requires forall t :: 0 <= t < |ys| ==> ys[t] < job.n && ys[t] < job.cover.bound
    requires forall y: nat :: y < job.n && y < job.cover.bound ==> y in ys
    ensures AtRound(job, ApplyColumns(job.n, m, k, ys), k + 1)
  {
    RoundStarts(job, m, k);
    AppliedColumnsDone(job, m, k, ys);
    ColumnsEndRound(job, ApplyColumns(job.n, m, k, ys), k);
  }
}
