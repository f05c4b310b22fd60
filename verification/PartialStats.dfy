/** Partial aggregates rebuilt from what ClickHouse computes per partition (src/deparse.c), over the reals. */
module PartialStats {

  /** float8[3]: the number of rows, their sum, and the sum of their squared deviations from the mean. */
  datatype Stat = Stat(n: nat, sx: real, sxx: real)

  function Square(x: real): real {
    x * x
  }

  function Sum(xs: seq<real>): real {
    if xs == [] then 0.0 else Sum(xs[..|xs| - 1]) + xs[|xs| - 1]
  }

  function SumSquares(xs: seq<real>): real {
    if xs == [] then 0.0 else SumSquares(xs[..|xs| - 1]) + Square(xs[|xs| - 1])
  }

  /** The squared deviations of n rows, from their sum and the sum of their squares. */
  function Spread(n: real, s: real, q: real): real
    requires n > 0.0
  {
    q - s * s / n
  }

  /** deparsePartialStatArray, STAT_FLOAT: what the emitted array evaluates to on one partition. */
  function Emitted(xs: seq<real>): Stat {
    Stat(|xs|, Sum(xs), if |xs| > 0 then Spread(|xs| as real, Sum(xs), SumSquares(xs)) else 0.0)
  }

  // ---------- PostgreSQL's side ----------

  /** float8_accum: what x adds to the squared deviations of n earlier rows with sum s. */
  function Step(n: real, s: real, x: real): real
    requires n > 0.0
  {
    var tmp := x * (n + 1.0) - (s + x);
    tmp * tmp / ((n + 1.0) * n)
  }

  function Accum(s: Stat, x: real): Stat {
    Stat(s.n + 1, s.sx + x, if s.n > 0 then s.sxx + Step(s.n as real, s.sx, x) else 0.0)
  }

  function AccumAll(xs: seq<real>): Stat {
    if xs == [] then Stat(0, 0.0, 0.0) else Accum(AccumAll(xs[..|xs| - 1]), xs[|xs| - 1])
  }

  /** float8_combine: what separates two groups of n and m rows with sums s and t. */
  function Gap(n: real, m: real, s: real, t: real): real
    requires n > 0.0 && m > 0.0
  {
    var tmp := s / n - t / m;
    n * m * tmp * tmp / (n + m)
  }

  function Combine(a: Stat, b: Stat): Stat {
    if a.n == 0 then b
    else if b.n == 0 then a
    else Stat(a.n + b.n, a.sx + b.sx, a.sxx + b.sxx + Gap(a.n as real, b.n as real, a.sx, b.sx))
  }

  function CombineAll(parts: seq<seq<real>>): Stat {
    if parts == [] then Stat(0, 0.0, 0.0) else Combine(CombineAll(parts[..|parts| - 1]), Emitted(parts[|parts| - 1]))
  }

  function Rows<T>(parts: seq<seq<T>>): seq<T> {
    if parts == [] then [] else Rows(parts[..|parts| - 1]) + parts[|parts| - 1]
  }

  // ---------- sums ----------

  lemma {:induction false} SumsConcat(a: seq<real>, b: seq<real>)
    ensures Sum(a + b) == Sum(a) + Sum(b) && SumSquares(a + b) == SumSquares(a) + SumSquares(b)
  {
    if b == [] {
      assert a + b == a;
    } else {
      var k := |b| - 1;
      assert (a + b)[..|a + b| - 1] == a + b[..k] && (a + b)[|a + b| - 1] == b[k];
      SumsConcat(a, b[..k]);
    }
  }

  /** The squared deviations from c. */
  function Deviations(xs: seq<real>, c: real): real {
    if xs == [] then 0.0
    else Deviations(xs[..|xs| - 1], c) + Square(xs[|xs| - 1] - c)
  }

  lemma {:induction false} DeviationsExpand(xs: seq<real>, c: real)
    ensures Deviations(xs, c) == Expanded(SumSquares(xs), Sum(xs), |xs| as real, c)
  {
    if xs != [] {
      var k := |xs| - 1;
      DeviationsExpand(xs[..k], c);
      assert |xs| as real == k as real + 1.0;
      ExpandOne(SumSquares(xs[..k]), Sum(xs[..k]), k as real, xs[k], c);
    }
  }

  function Expanded(q: real, s: real, k: real, c: real): real {
    q - 2.0 * c * s + k * c * c
  }

  lemma {:induction false} ExpandOne(q: real, s: real, k: real, x: real, c: real)
    ensures Expanded(q, s, k, c) + Square(x - c) == Expanded(q + Square(x), s + x, k + 1.0, c)
  {
    assert (x - c) * (x - c) == x * x - 2.0 * c * x + c * c;
    assert 2.0 * c * (s + x) == 2.0 * c * s + 2.0 * c * x;
    assert (k + 1.0) * c * c == k * c * c + c * c;
  }

  lemma {:induction false} ExpandedAtMean(n: real, s: real, q: real)
    requires n > 0.0
    ensures Expanded(q, s, n, s / n) == Spread(n, s, q)
  {
    var m := s / n;
    assert s == n * m;
    assert s * s / n == m * s by {
      assert m * s * n == s * s;
    }
    assert n * m * m == s * m;
  }

  /** The third slot is the sum of squared deviations from the partition's mean. */
  lemma {:induction false} EmittedIsDeviations(xs: seq<real>)
    requires xs != []
    ensures Emitted(xs).sxx == Deviations(xs, Sum(xs) / |xs| as real)
  {
    var n, s := |xs| as real, Sum(xs);
    DeviationsExpand(xs, s / n);
    ExpandedAtMean(n, s, SumSquares(xs));
  }

  // ---------- combining ----------

  lemma {:induction false} Polynomial(n: real, m: real, u: real, v: real)
    ensures n * m * (u - v) * (u - v) + (n * u + m * v) * (n * u + m * v) == (n * u * u + m * v * v) * (n + m)
  {
    assert n * m * (u - v) * (u - v) == n * m * u * u - 2.0 * n * m * u * v + n * m * v * v;
    assert (n * u + m * v) * (n * u + m * v) == n * n * u * u + 2.0 * n * m * u * v + m * m * v * v;
  }

  lemma {:induction false} SquareOverCount(n: real, s: real)
    requires n > 0.0
    ensures s * s / n == n * (s / n) * (s / n)
  {
    var m := s / n;
    assert s == n * m;
    assert s * s == n * m * m * n;
  }

  /** Joining two groups: their deviations, plus what separates their means. */
  lemma {:induction false} Separation(n: real, m: real, s: real, t: real, q: real, r: real)
    requires n > 0.0 && m > 0.0
    ensures Spread(n, s, q) + Spread(m, t, r) + Gap(n, m, s, t) == Spread(n + m, s + t, q + r)
  {
    var u, v := s / n, t / m;
    SquareOverCount(n, s);
    SquareOverCount(m, t);
    GapQuotient(n, m, s, t);
    AddUp(q, s * s / n, n * u * u, r, t * t / m, m * v * v, Gap(n, m, s, t), (s + t) * (s + t) / (n + m));
  }

  lemma {:induction false} AddUp(q: real, a: real, x: real, r: real, b: real, y: real, gap: real, z: real)
    requires a == x && b == y && gap == x + y - z
    ensures q - a + (r - b) + gap == q + r - z
  {
  }

  lemma {:induction false} GapQuotient(n: real, m: real, s: real, t: real)
    requires n > 0.0 && m > 0.0
    ensures Gap(n, m, s, t) == n * (s / n) * (s / n) + m * (t / m) * (t / m) - (s + t) * (s + t) / (n + m)
  {
    var u, v := s / n, t / m;
    SumOfGroups(n, m, s, t, u, v);
    QuotientSum(n * m * (u - v) * (u - v), (s + t) * (s + t), n * u * u + m * v * v, n + m);
  }

  lemma {:induction false} SumOfGroups(n: real, m: real, s: real, t: real, u: real, v: real)
    requires s == n * u && t == m * v
    ensures n * m * (u - v) * (u - v) + (s + t) * (s + t) == (n * u * u + m * v * v) * (n + m)
  {
    Polynomial(n, m, u, v);
  }

  lemma {:induction false} QuotientSum(p: real, q: real, w: real, d: real)
    requires d > 0.0 && p + q == w * d
    ensures p / d == w - q / d
  {
    assert (p / d + q / d) * d == p + q;
  }

  lemma {:induction false} CombineEmitted(a: seq<real>, b: seq<real>)
    ensures Combine(Emitted(a), Emitted(b)) == Emitted(a + b)
  {
    SumsConcat(a, b);
    if a == [] {
      assert a + b == b;
    } else if b == [] {
      assert a + b == a;
    } else {
      assert |a + b| as real == |a| as real + |b| as real;
      Separation(|a| as real, |b| as real, Sum(a), Sum(b), SumSquares(a), SumSquares(b));
    }
  }

  /** For every split of the rows into partitions, empty ones included, the combined state is that of all rows. */
  lemma {:induction false} CombineAllRows(parts: seq<seq<real>>)
    ensures CombineAll(parts) == Emitted(Rows(parts))
  {
    if parts != [] {
      CombineAllRows(parts[..|parts| - 1]);
      CombineEmitted(Rows(parts[..|parts| - 1]), parts[|parts| - 1]);
    }
  }

  lemma {:induction false} EmittedOne(x: real)
    ensures Emitted([x]) == Stat(1, x, 0.0)
  {
    assert [x][..0] == [];
    assert Sum([x]) == Sum([x][..0]) + x && SumSquares([x]) == SumSquares([x][..0]) + Square(x);
    assert Sum([x]) == x && SumSquares([x]) == x * x;
  }

  /** PostgreSQL's own accumulation row by row is combination with one-row states. */
  lemma {:induction false} AccumIsCombine(s: Stat, x: real)
    requires s.n > 0
    ensures Accum(s, x) == Combine(s, Emitted([x]))
  {
    EmittedOne(x);
    StepIsGap(s.n as real, s.sx, x);
  }

  lemma {:induction false} StepIsGap(n: real, s: real, x: real)
    requires n > 0.0
    ensures Step(n, s, x) == Gap(n, 1.0, s, x)
  {
    var d, tmp := s / n - x / 1.0, x * (n + 1.0) - (s + x);
    assert tmp == -(n * d) by {
      assert n * (s / n) == s && x / 1.0 == x;
      assert n * (s / n - x) == n * (s / n) - n * x;
    }
    StepQuotient(n, d, tmp);
  }

  lemma {:induction false} StepQuotient(n: real, d: real, tmp: real)
    requires n > 0.0 && tmp == -(n * d)
    ensures tmp * tmp / ((n + 1.0) * n) == n * 1.0 * d * d / (n + 1.0)
  {
    var q := n * 1.0 * d * d / (n + 1.0);
    assert q * (n + 1.0) == n * d * d;
    assert tmp * tmp == n * d * d * n;
    assert q * ((n + 1.0) * n) == tmp * tmp;
  }

  /** The emitted state is what PostgreSQL would have accumulated from the same rows. */
  lemma {:induction false} EmittedIsAccumulated(xs: seq<real>)
    ensures AccumAll(xs) == Emitted(xs)
  {
    if xs != [] {
      var k := |xs| - 1;
      EmittedIsAccumulated(xs[..k]);
      assert xs == xs[..k] + [xs[k]];
      CombineEmitted(xs[..k], [xs[k]]);
      if k > 0 {
        AccumIsCombine(Emitted(xs[..k]), xs[k]);
      } else {
        assert xs[..k] == [] && xs == [xs[k]];
        EmittedOne(xs[k]);
      }
    }
  }

  /** So a partitionwise aggregate finalizes to what a local one would. */
  lemma {:induction false} PartitionwiseIsLocal(parts: seq<seq<real>>)
    ensures CombineAll(parts) == AccumAll(Rows(parts))
  {
    CombineAllRows(parts);
    EmittedIsAccumulated(Rows(parts));
  }

  // ---------- avg over integers ----------

  function Total(xs: seq<int>): int {
    if xs == [] then 0 else Total(xs[..|xs| - 1]) + xs[|xs| - 1]
  }

  /** AVG_INT: int8[2] {count, sum}. */
  function EmittedAvg(xs: seq<int>): (nat, int) {
    (|xs|, Total(xs))
  }

  /** int4_avg_accum. */
  function AccumAvg(s: (nat, int), x: int): (nat, int) {
    (s.0 + 1, s.1 + x)
  }

  function AccumAvgAll(xs: seq<int>): (nat, int) {
    if xs == [] then (0, 0) else AccumAvg(AccumAvgAll(xs[..|xs| - 1]), xs[|xs| - 1])
  }

  /** int4_avg_combine. */
  function CombineAvg(a: (nat, int), b: (nat, int)): (nat, int) {
    (a.0 + b.0, a.1 + b.1)
  }

  lemma {:induction false} CombineAvgRows(a: seq<int>, b: seq<int>)
    ensures CombineAvg(EmittedAvg(a), EmittedAvg(b)) == EmittedAvg(a + b)
  {
    if b == [] {
      assert a + b == a;
    } else {
      assert (a + b)[..|a + b| - 1] == a + b[..|b| - 1];
      CombineAvgRows(a, b[..|b| - 1]);
    }
  }

  lemma {:induction false} EmittedAvgIsAccumulated(xs: seq<int>)
    ensures AccumAvgAll(xs) == EmittedAvg(xs)
  {
    if xs != [] {
      EmittedAvgIsAccumulated(xs[..|xs| - 1]);
    }
  }

  function CombineAvgAll(parts: seq<seq<int>>): (nat, int) {
    if parts == [] then (0, 0) else CombineAvg(CombineAvgAll(parts[..|parts| - 1]), EmittedAvg(parts[|parts| - 1]))
  }

  /** However the rows are split into partitions, their states combine to what row-by-row accumulation gives. */
  lemma {:induction false} AvgPartitionwiseIsLocal(parts: seq<seq<int>>)
    ensures CombineAvgAll(parts) == AccumAvgAll(Rows(parts))
  {
    EmittedAvgIsAccumulated(Rows(parts));
    if parts != [] {
      var rest := parts[..|parts| - 1];
      AvgPartitionwiseIsLocal(rest);
      EmittedAvgIsAccumulated(Rows(rest));
      CombineAvgRows(Rows(rest), parts[|parts| - 1]);
    }
  }
}
