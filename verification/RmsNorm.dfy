/** The norm of the head, rmsnorm, with its hand-written backward: it is the vector-Jacobian product that
    the head's gradients rely on, in the row and in the weight, where the reciprocal square root has its
    derivative. */
module RmsNorm {
  import opened Derivative
  import opened RlHeadLoss
  import opened RlHeadGradient
  import opened RlHeadInputs
  import opened RlHeadNorm

  const RMS_EPS := 0.00001

  // ---------------------------------------------------------------- forward and backward

  function Squares(y: Vec): nat -> real {
    (l: nat) => Coord(y, l) * Coord(y, l)
  }

  function MeanSquare(y: Vec): real
    requires y != []
  {
    SumTo(Squares(y), |y|) / |y| as real
  }

  function Rstd(rsqrt: real -> real, y: Vec): real
    requires y != []
  {
    rsqrt(MeanSquare(y) + RMS_EPS)
  }

  /** `xhat`. */
  function Hat(rsqrt: real -> real, y: Vec, j: nat): real
    requires y != []
  {
    Coord(y, j) * Rstd(rsqrt, y)
  }

  function Normalised(rsqrt: real -> real, y: Vec, w: Vec): Vec {
    seq(|y|, j requires 0 <= j < |y| => Hat(rsqrt, y, j) * Coord(w, j))
  }

  /** `dxhat * xhat`. */
  function Projections(rsqrt: real -> real, g: Vec, y: Vec, w: Vec): nat -> real
    requires y != []
  {
    (j: nat) => Coord(g, j) * Coord(w, j) * Hat(rsqrt, y, j)
  }

  function MeanProjection(rsqrt: real -> real, g: Vec, y: Vec, w: Vec): real
    requires y != []
  {
    SumTo(Projections(rsqrt, g, y, w), |y|) / |y| as real
  }

  function BackRow(rsqrt: real -> real, g: Vec, y: Vec, w: Vec): Vec {
    if y == [] then []
    else
      var rstd, mean := Rstd(rsqrt, y), MeanProjection(rsqrt, g, y, w);
      seq(|y|, i requires 0 <= i < |y| => rstd * (Coord(g, i) * Coord(w, i) - Hat(rsqrt, y, i) * mean))
  }

  function BackWeight(rsqrt: real -> real, g: Vec, y: Vec): Vec {
    seq(|y|, i requires 0 <= i < |y| => Coord(g, i) * Hat(rsqrt, y, i))
  }

  ghost predicate UsesRmsNorm(k: Kernels, rsqrt: real -> real) {
    && (forall y, w {:trigger k.norm(y, w)} :: k.norm(y, w) == Normalised(rsqrt, y, w))
    && (forall g, y, w {:trigger k.dyRow(g, y, w)} :: k.dyRow(g, y, w) == BackRow(rsqrt, g, y, w))
    && (forall g, y, w {:trigger k.dnormRow(g, y, w)} :: k.dnormRow(g, y, w) == BackWeight(rsqrt, g, y))
  }

  /** The reciprocal square root has its derivative at this row. */
  ghost predicate RsqrtSmooth(rsqrt: real -> real, y: Vec)
    requires y != []
  {
    var r := Rstd(rsqrt, y);
    HasDerivative(rsqrt, MeanSquare(y) + RMS_EPS, -0.5 * (r * r * r))
  }

  // ---------------------------------------------------------------- the mean square in one coordinate

  function With(y: Vec, i: nat): real -> Vec
    requires i < |y|
  {
    (x: real) => y[i := x]
  }

  function SquaresAlong(y: Vec, i: nat): nat -> real -> real
    requires i < |y|
  {
    (l: nat) => (x: real) => Coord(y[i := x], l) * Coord(y[i := x], l)
  }

  lemma OwnSquare(y: Vec, i: nat)
    requires i < |y|
    ensures HasDerivative(SquaresAlong(y, i)(i), y[i], 2.0 * y[i])
  {
    SquareRule(SquaresAlong(y, i)(i), y[i], 2.0 * y[i]);
  }

  lemma OtherSquare(y: Vec, i: nat, l: nat)
    requires i < |y| && l != i
    ensures HasDerivative(SquaresAlong(y, i)(l), y[i], 0.0)
  {
    var f := SquaresAlong(y, i)(l);
    forall x: real ensures f(x) == f(y[i]) {
      assert Coord(y[i := x], l) == Coord(y[i := y[i]], l);
    }
    LineRule(f, y[i], 0.0);
  }

  function SumOfSquares(y: Vec, i: nat): real -> real
    requires i < |y|
  {
    (x: real) => SumTo(Squares(y[i := x]), |y|)
  }

  lemma SumOfSquaresSlope(y: Vec, i: nat, d: real)
    requires i < |y| && d == 2.0 * y[i]
    ensures HasDerivative(SumOfSquares(y, i), y[i], d)
  {
    forall l: nat | l < |y| ensures HasDerivative(SquaresAlong(y, i)(l), y[i], Only(i, d)(l)) {
      if l == i {
        OwnSquare(y, i);
      } else {
        OtherSquare(y, i, l);
      }
    }
    forall x: real ensures SumOfSquares(y, i)(x) == SumTo(ValuesAt(SquaresAlong(y, i), x), |y|) {
      SumSame(Squares(y[i := x]), ValuesAt(SquaresAlong(y, i), x), |y|);
    }
    SumDerivative(SquaresAlong(y, i), Only(i, d), SumOfSquares(y, i), y[i], |y|);
    SumOnly(i, d, |y|);
  }

  function Shifted(y: Vec, i: nat): real -> real
    requires i < |y|
  {
    (x: real) => MeanSquare(y[i := x]) + RMS_EPS
  }

  lemma Portion(a: real, n: real)
    requires n > 0.0
    ensures a / n == (1.0 / n) * a
  {
  }

  lemma MeanSquareSlope(y: Vec, i: nat, d: real, m: real)
    requires i < |y| && d == 2.0 * y[i] && m == (1.0 / |y| as real) * d
    ensures HasDerivative(Shifted(y, i), y[i], m)
  {
    var n := |y| as real;
    SumOfSquaresSlope(y, i, d);
    var mean := Multiple(SumOfSquares(y, i), y[i], d, 1.0 / n, m);
    var eps := (x: real) => RMS_EPS;
    LineRule(eps, y[i], 0.0);
    forall x: real ensures Shifted(y, i)(x) == mean(x) + eps(x) {
      Portion(SumOfSquares(y, i)(x), n);
    }
    SumRule(mean, eps, Shifted(y, i), y[i], m, 0.0, m);
  }

  function RstdAlong(rsqrt: real -> real, y: Vec, i: nat): real -> real
    requires i < |y|
  {
    (x: real) => Rstd(rsqrt, y[i := x])
  }

  /** How the reciprocal deviation moves with a coordinate: by `-rstd^3 * y / n`. */
  lemma RstdSlope(rsqrt: real -> real, y: Vec, i: nat, d: real, m: real, t: real, q: real)
    requires i < |y| && RsqrtSmooth(rsqrt, y) && d == 2.0 * y[i] && m == (1.0 / |y| as real) * d
    requires t == -0.5 * (Rstd(rsqrt, y) * Rstd(rsqrt, y) * Rstd(rsqrt, y)) && q == t * m
    ensures HasDerivative(RstdAlong(rsqrt, y, i), y[i], q)
  {
    MeanSquareSlope(y, i, d, m);
    assert y[i := y[i]] == y;
    ChainRule(Shifted(y, i), rsqrt, RstdAlong(rsqrt, y, i), y[i], m, t, q);
  }

  // ---------------------------------------------------------------- the Jacobian

  /** The slope of `xhat[j]` in coordinate `i`, where `q` is that of the reciprocal deviation. */
  function HatSlope(y: Vec, i: nat, j: nat, rstd: real, q: real): real {
    (if j == i then 1.0 else 0.0) * rstd + Coord(y, j) * q
  }

  /** Column `i` of the Jacobian in the row. */
  function Column(y: Vec, w: Vec, i: nat, rstd: real, q: real): nat -> real {
    (j: nat) => Coord(w, j) * HatSlope(y, i, j, rstd, q)
  }

  function Scaled(rsqrt: real -> real, y: Vec, i: nat, j: nat): real -> real
    requires i < |y|
  {
    (x: real) => Hat(rsqrt, y[i := x], j)
  }

  lemma CoordMoves(y: Vec, i: nat, j: nat)
    requires i < |y|
    ensures HasDerivative(CoordAlong(With(y, i), j), y[i], if j == i then 1.0 else 0.0)
  {
    var f := CoordAlong(With(y, i), j);
    forall x: real ensures f(x) == if j == i then x else Coord(y, j) {
      var v := With(y, i)(x);
      assert v == y[i := x] && |v| == |y| && f(x) == Coord(v, j);
    }
    LineRule(f, y[i], if j == i then 1.0 else 0.0);
  }

  lemma ScaledSlope(rsqrt: real -> real, y: Vec, i: nat, j: nat, q: real)
    requires i < |y| && HasDerivative(RstdAlong(rsqrt, y, i), y[i], q)
    ensures HasDerivative(Scaled(rsqrt, y, i, j), y[i], HatSlope(y, i, j, Rstd(rsqrt, y), q))
  {
    CoordMoves(y, i, j);
    assert y[i := y[i]] == y;
    ProductRule(CoordAlong(With(y, i), j), RstdAlong(rsqrt, y, i), Scaled(rsqrt, y, i, j), y[i],
                if j == i then 1.0 else 0.0, q, HatSlope(y, i, j, Rstd(rsqrt, y), q));
  }

  lemma NormEntry(k: Kernels, rsqrt: real -> real, y: Vec, w: Vec, i: nat, j: nat, x: real)
    requires UsesRmsNorm(k, rsqrt) && i < |y| && j < |y|
    ensures CoordAlong(NormInRow(k, y, w, i), j)(x) == Coord(w, j) * Scaled(rsqrt, y, i, j)(x)
  {
    NormalisedAt(rsqrt, y[i := x], w, j);
  }

  lemma NormalisedAt(rsqrt: real -> real, y: Vec, w: Vec, j: nat)
    requires j < |y|
    ensures Coord(Normalised(rsqrt, y, w), j) == Coord(w, j) * Hat(rsqrt, y, j)
  {
  }

  ghost predicate IsMultiple(c: real -> real, w: real, f: real -> real) {
    forall x {:trigger c(x)} :: c(x) == w * f(x)
  }

  lemma NormSlope(c: real -> real, rsqrt: real -> real, y: Vec, w: real, i: nat, j: nat, q: real, d: real)
    requires i < |y| && HasDerivative(RstdAlong(rsqrt, y, i), y[i], q)
    requires IsMultiple(c, w, Scaled(rsqrt, y, i, j))
    requires d == w * HatSlope(y, i, j, Rstd(rsqrt, y), q)
    ensures HasDerivative(c, y[i], d)
  {
    ScaledSlope(rsqrt, y, i, j, q);
    ScaleRule(Scaled(rsqrt, y, i, j), c, y[i], HatSlope(y, i, j, Rstd(rsqrt, y), q), w, d);
  }

  lemma NormEntries(k: Kernels, rsqrt: real -> real, y: Vec, w: Vec, i: nat, j: nat)
    requires UsesRmsNorm(k, rsqrt) && i < |y| && j < |y|
    ensures IsMultiple(CoordAlong(NormInRow(k, y, w, i), j), Coord(w, j), Scaled(rsqrt, y, i, j))
  {
    forall x: real ensures CoordAlong(NormInRow(k, y, w, i), j)(x) == Coord(w, j) * Scaled(rsqrt, y, i, j)(x) {
      NormEntry(k, rsqrt, y, w, i, j, x);
    }
  }

  lemma RowSlope(k: Kernels, rsqrt: real -> real, y: Vec, w: Vec, i: nat, j: nat, q: real, d: real)
    requires UsesRmsNorm(k, rsqrt) && i < |y| && j < |y| && HasDerivative(RstdAlong(rsqrt, y, i), y[i], q)
    requires d == Coord(w, j) * HatSlope(y, i, j, Rstd(rsqrt, y), q)
    ensures HasDerivative(CoordAlong(NormInRow(k, y, w, i), j), y[i], d)
  {
    NormEntries(k, rsqrt, y, w, i, j);
    NormSlope(CoordAlong(NormInRow(k, y, w, i), j), rsqrt, y, Coord(w, j), i, j, q, d);
  }

  lemma RowSlopes(k: Kernels, rsqrt: real -> real, y: Vec, w: Vec, i: nat, q: real)
    requires UsesRmsNorm(k, rsqrt) && i < |y| && HasDerivative(RstdAlong(rsqrt, y, i), y[i], q)
    ensures Slopes(NormInRow(k, y, w, i), y[i], Column(y, w, i, Rstd(rsqrt, y), q), |y|)
  {
    var column := Column(y, w, i, Rstd(rsqrt, y), q);
    forall j: nat | j < |y| ensures HasDerivative(CoordAlong(NormInRow(k, y, w, i), j), y[i], column(j)) {
      RowSlope(k, rsqrt, y, w, i, j, q, column(j));
    }
  }

  // ---------------------------------------------------------------- the backward pulls by it

  /** `g * w * y`, the projection before it is normalised. */
  function Raw(g: Vec, y: Vec, w: Vec): nat -> real {
    (j: nat) => Coord(g, j) * Coord(w, j) * Coord(y, j)
  }

  predicate Pull(sum: real, own: real, rstd: real, q: real, raw: real) {
    sum == own * rstd + q * raw
  }

  lemma PullTerm(sum: real, own: real, rstd: real, q: real, raw: real, g: real, w: real, y: real, hit: bool, c: real)
    requires Pull(sum, own, rstd, q, raw) && (hit ==> own == 0.0)
    requires c == w * ((if hit then 1.0 else 0.0) * rstd + y * q)
    ensures Pull(sum + g * c, if hit then g * w else own, rstd, q, raw + g * w * y)
  {
    assert g * c == (if hit then g * w else 0.0) * rstd + q * (g * w * y);
  }

  lemma {:induction false} ColumnSum(g: Vec, y: Vec, w: Vec, i: nat, rstd: real, q: real, n: nat)
    ensures Pull(SumTo(Times(CoordsOf(g), Column(y, w, i, rstd, q)), n),
                 if i < n then Coord(g, i) * Coord(w, i) else 0.0, rstd, q, SumTo(Raw(g, y, w), n))
  {
    if n > 0 {
      var j := n - 1;
      ColumnSum(g, y, w, i, rstd, q, j);
      PullTerm(SumTo(Times(CoordsOf(g), Column(y, w, i, rstd, q)), j),
               if i < j then Coord(g, i) * Coord(w, i) else 0.0, rstd, q, SumTo(Raw(g, y, w), j), Coord(g, j),
               Coord(w, j), Coord(y, j), j == i, Column(y, w, i, rstd, q)(j));
    }
  }

  predicate IsTimes(x: real, a: real, b: real) {
    x == a * b
  }

  lemma ProjectTerm(sum: real, rstd: real, raw: real, g: real, w: real, y: real)
    requires IsTimes(sum, rstd, raw)
    ensures IsTimes(sum + g * w * (y * rstd), rstd, raw + g * w * y)
  {
    assert g * w * (y * rstd) == rstd * (g * w * y);
  }

  lemma {:induction false} ProjectionSum(rsqrt: real -> real, g: Vec, y: Vec, w: Vec, n: nat)
    requires y != []
    ensures IsTimes(SumTo(Projections(rsqrt, g, y, w), n), Rstd(rsqrt, y), SumTo(Raw(g, y, w), n))
  {
    if n > 0 {
      ProjectionSum(rsqrt, g, y, w, n - 1);
      ProjectTerm(SumTo(Projections(rsqrt, g, y, w), n - 1), Rstd(rsqrt, y), SumTo(Raw(g, y, w), n - 1),
                  Coord(g, n - 1), Coord(w, n - 1), Coord(y, n - 1));
    } else {
      assert SumTo(Projections(rsqrt, g, y, w), 0) == 0.0 && SumTo(Raw(g, y, w), 0) == 0.0;
    }
  }

  predicate IsBack(x: real, rstd: real, own: real, hat: real, mean: real) {
    x == rstd * (own - hat * mean)
  }

  /** The backward's entry, `rstd * (g * w - xhat * mean)`, is the gradient times the column. */
  lemma BackEntry(x: real, rstd: real, own: real, y: real, hat: real, mean: real, sum: real, raw: real, n: real,
                  d: real, m: real, t: real, q: real, pulled: real)
    requires n > 0.0 && IsTimes(sum, rstd, raw) && mean == sum / n && d == 2.0 * y && m == (1.0 / n) * d
    requires t == -0.5 * (rstd * rstd * rstd) && q == t * m && Pull(pulled, own, rstd, q, raw)
    requires hat == y * rstd && IsBack(x, rstd, own, hat, mean)
    ensures x == pulled
  {
    var part := 1.0 / n;
    Portion(sum, n);
    assert mean == part * (rstd * raw);
    assert q == -(rstd * rstd * rstd) * (part * y);
    assert rstd * (hat * mean) == (rstd * rstd * rstd) * (part * y) * raw;
  }

  lemma BackRowAt(rsqrt: real -> real, g: Vec, y: Vec, w: Vec, i: nat)
    requires i < |y|
    ensures IsBack(Coord(BackRow(rsqrt, g, y, w), i), Rstd(rsqrt, y), Coord(g, i) * Coord(w, i), Hat(rsqrt, y, i),
                   MeanProjection(rsqrt, g, y, w))
  {
  }

  /** The slope of the reciprocal deviation, step by step. */
  predicate SlopeChain(n: real, y: real, rstd: real, d: real, m: real, t: real, q: real)
    requires n > 0.0
  {
    d == 2.0 * y && m == (1.0 / n) * d && t == -0.5 * (rstd * rstd * rstd) && q == t * m
  }

  lemma RowPulls(rsqrt: real -> real, y: Vec, w: Vec, i: nat, d: real, m: real, t: real, q: real, g: Vec)
    requires i < |y| && SlopeChain(|y| as real, y[i], Rstd(rsqrt, y), d, m, t, q)
    ensures Coord(BackRow(rsqrt, g, y, w), i) == SumTo(Times(CoordsOf(g), Column(y, w, i, Rstd(rsqrt, y), q)), |y|)
  {
    ProjectionSum(rsqrt, g, y, w, |y|);
    ColumnSum(g, y, w, i, Rstd(rsqrt, y), q, |y|);
    BackRowAt(rsqrt, g, y, w, i);
    BackEntry(Coord(BackRow(rsqrt, g, y, w), i), Rstd(rsqrt, y), Coord(g, i) * Coord(w, i), y[i], Hat(rsqrt, y, i),
              MeanProjection(rsqrt, g, y, w), SumTo(Projections(rsqrt, g, y, w), |y|), SumTo(Raw(g, y, w), |y|),
              |y| as real, d, m, t, q, SumTo(Times(CoordsOf(g), Column(y, w, i, Rstd(rsqrt, y), q)), |y|));
  }

  lemma RowIsVjp(k: Kernels, rsqrt: real -> real, y: Vec, w: Vec, i: nat, d: real, m: real, t: real, q: real)
    requires UsesRmsNorm(k, rsqrt) && i < |y| && SlopeChain(|y| as real, y[i], Rstd(rsqrt, y), d, m, t, q)
    requires HasDerivative(RstdAlong(rsqrt, y, i), y[i], q)
    ensures RowVjp(k, y, w, |y|, i, Column(y, w, i, Rstd(rsqrt, y), q))
  {
    var column := Column(y, w, i, Rstd(rsqrt, y), q);
    RowSlopes(k, rsqrt, y, w, i, q);
    forall g: Vec | |g| == |y| ensures Coord(k.dyRow(g, y, w), i) == SumTo(Times(CoordsOf(g), column), |y|) {
      RowPulls(rsqrt, y, w, i, d, m, t, q, g);
    }
  }

  /** The row backward is the vector-Jacobian product of the norm in the row. */
  lemma RowBackward(k: Kernels, rsqrt: real -> real, y: Vec, w: Vec, i: nat) returns (column: nat -> real)
    requires UsesRmsNorm(k, rsqrt) && i < |y| && RsqrtSmooth(rsqrt, y)
    ensures RowVjp(k, y, w, |y|, i, column)
  {
    var d, rstd := 2.0 * y[i], Rstd(rsqrt, y);
    var m, t := (1.0 / |y| as real) * d, -0.5 * (rstd * rstd * rstd);
    var q := t * m;
    RstdSlope(rsqrt, y, i, d, m, t, q);
    RowIsVjp(k, rsqrt, y, w, i, d, m, t, q);
    column := Column(y, w, i, rstd, q);
  }

  // ---------------------------------------------------------------- the weight

  function WeightColumn(rsqrt: real -> real, y: Vec, i: nat): nat -> real {
    (j: nat) => if y == [] then 0.0 else Hat(rsqrt, y, j) * (if j == i then 1.0 else 0.0)
  }

  lemma WeightEntry(k: Kernels, rsqrt: real -> real, y: Vec, w: Vec, i: nat, j: nat, x: real)
    requires UsesRmsNorm(k, rsqrt) && i < |w| && j < |y|
    ensures CoordAlong(NormInWeight(k, y, w, i), j)(x) == Hat(rsqrt, y, j) * CoordAlong(With(w, i), j)(x)
  {
    NormalisedAt(rsqrt, y, w[i := x], j);
  }

  lemma WeightSlope(k: Kernels, rsqrt: real -> real, y: Vec, w: Vec, i: nat, j: nat, hat: real, d: real)
    requires UsesRmsNorm(k, rsqrt) && i < |w| && j < |y| && hat == Hat(rsqrt, y, j)
    requires d == hat * (if j == i then 1.0 else 0.0)
    ensures HasDerivative(CoordAlong(NormInWeight(k, y, w, i), j), w[i], d)
  {
    CoordMoves(w, i, j);
    forall x: real ensures CoordAlong(NormInWeight(k, y, w, i), j)(x) == hat * CoordAlong(With(w, i), j)(x) {
      WeightEntry(k, rsqrt, y, w, i, j, x);
    }
    ScaleRule(CoordAlong(With(w, i), j), CoordAlong(NormInWeight(k, y, w, i), j), w[i], if j == i then 1.0 else 0.0,
              hat, d);
  }

  lemma WeightSlopes(k: Kernels, rsqrt: real -> real, y: Vec, w: Vec, i: nat)
    requires UsesRmsNorm(k, rsqrt) && i < |y| == |w|
    ensures Slopes(NormInWeight(k, y, w, i), w[i], WeightColumn(rsqrt, y, i), |y|)
  {
    var column := WeightColumn(rsqrt, y, i);
    forall j: nat | j < |y| ensures HasDerivative(CoordAlong(NormInWeight(k, y, w, i), j), w[i], column(j)) {
      WeightSlope(k, rsqrt, y, w, i, j, Hat(rsqrt, y, j), column(j));
    }
  }

  lemma {:induction false} WeightSum(rsqrt: real -> real, g: Vec, y: Vec, i: nat, n: nat)
    requires y != []
    ensures i >= n ==> SumTo(Times(CoordsOf(g), WeightColumn(rsqrt, y, i)), n) == 0.0
    ensures i < n ==> IsTimes(SumTo(Times(CoordsOf(g), WeightColumn(rsqrt, y, i)), n), Coord(g, i), Hat(rsqrt, y, i))
  {
    if n > 0 {
      WeightSum(rsqrt, g, y, i, n - 1);
      assert WeightColumn(rsqrt, y, i)(n - 1) == if n - 1 == i then Hat(rsqrt, y, i) else 0.0;
    }
  }

  lemma BackWeightAt(rsqrt: real -> real, g: Vec, y: Vec, i: nat)
    requires i < |y|
    ensures IsTimes(Coord(BackWeight(rsqrt, g, y), i), Coord(g, i), Hat(rsqrt, y, i))
  {
  }

  /** The weight backward is the vector-Jacobian product of the norm in the weight. */
  lemma WeightBackward(k: Kernels, rsqrt: real -> real, y: Vec, w: Vec, i: nat)
    requires UsesRmsNorm(k, rsqrt) && i < |y| == |w|
    ensures WeightVjp(k, y, w, |y|, i, WeightColumn(rsqrt, y, i))
  {
    var column := WeightColumn(rsqrt, y, i);
    WeightSlopes(k, rsqrt, y, w, i);
    forall g: Vec | |g| == |y| ensures Coord(k.dnormRow(g, y, w), i) == SumTo(Times(CoordsOf(g), column), |y|) {
      WeightSum(rsqrt, g, y, i, |y|);
      BackWeightAt(rsqrt, g, y, i);
    }
  }

  // ---------------------------------------------------------------- the head with its norm

  /** With rmsnorm and its backward, every entry of the `dy` the head returns is the derivative of the
      loss it returns. */
  lemma RmsDyIsDerivative(k: Kernels, rsqrt: real -> real, b: Batch, total: real, r: nat, i: nat)
    requires total > 0.0 && Shaped(b) && r < |b.y| && i < |b.y[r]| == b.width && SmoothRow(k, b, r)
    requires UsesRmsNorm(k, rsqrt) && RsqrtSmooth(rsqrt, b.y[r])
    ensures HasDerivative(LossOf(k, WithRow(b, r, i), total, |b.y|), b.y[r][i], DyAt(k, b, total, r, i))
  {
    var column := RowBackward(k, rsqrt, b.y[r], b.normW, i);
    DyIsDerivative(k, b, total, r, i, column);
  }

  function WeightColumns(rsqrt: real -> real, b: Batch, i: nat): nat -> nat -> real {
    (r: nat) => WeightColumn(rsqrt, Row(b, r), i)
  }

  /** And every entry of `dnorm`, over all rows. */
  lemma RmsDnormIsDerivative(k: Kernels, rsqrt: real -> real, b: Batch, total: real, i: nat)
    requires total > 0.0 && Shaped(b) && i < |b.normW| == b.width && UsesRmsNorm(k, rsqrt)
    requires forall r: nat :: r < |b.y| ==> |b.y[r]| == b.width && SmoothRow(k, b, r)
    ensures HasDerivative(LossOf(k, WithNorm(b, i), total, |b.y|), b.normW[i],
                          GradsOf(RowsOf(k, b, total), total, 0, |b.y|).dnorm[i])
  {
    var columns := WeightColumns(rsqrt, b, i);
    forall r: nat | r < |b.y| ensures WeightVjp(k, b.y[r], b.normW, b.width, i, columns(r)) {
      WeightBackward(k, rsqrt, b.y[r], b.normW, i);
    }
    DnormIsDerivative(k, b, total, i, columns);
  }
}
