/** What the head returns for its inputs and for the norm weight is the derivative of the loss it returns.
    The norm's backward is asked to be its vector-Jacobian product, nothing else. */
module RlHeadNorm {
  import opened Derivative
  import opened RlHeadLoss
  import opened RlHeadGradient
  import opened RlHeadInputs

  // ---------------------------------------------------------------- one coordinate of the normed row

  function Unit(j: nat): nat -> real {
    (i: nat) => if i == j then 1.0 else 0.0
  }

  lemma {:induction false} UnitPicks(f: nat -> real, j: nat, n: nat)
    ensures SumTo(Times(f, Unit(j)), n) == if j < n then f(j) else 0.0
  {
    if n > 0 {
      UnitPicks(f, j, n - 1);
    }
  }

  function NormedWith(normed: Vec, j: nat): real -> Vec
    requires j < |normed|
  {
    (x: real) => normed[j := x]
  }

  lemma UnitSlopes(normed: Vec, j: nat, n: nat)
    requires j < |normed|
    ensures Slopes(NormedWith(normed, j), normed[j], Unit(j), n)
  {
    forall i: nat | i < n ensures HasDerivative(CoordAlong(NormedWith(normed, j), i), normed[j], Unit(j)(i)) {
      UnitSlope(normed, j, i);
    }
  }

  lemma UnitSlope(normed: Vec, j: nat, i: nat)
    requires j < |normed|
    ensures HasDerivative(CoordAlong(NormedWith(normed, j), i), normed[j], if i == j then 1.0 else 0.0)
  {
    var f := CoordAlong(NormedWith(normed, j), i);
    forall y: real ensures f(y) == if i == j then y else Coord(normed, i) {
      var v := NormedWith(normed, j)(y);
      assert v == normed[j := y] && |v| == |normed| && f(y) == Coord(v, i);
    }
    LineRule(f, normed[j], if i == j then 1.0 else 0.0);
  }

  /** `dyn` is the gradient of the row's loss in the normed row. */
  lemma DynIsDerivative(k: Kernels, b: Batch, total: real, r: nat, j: nat)
    requires total > 0.0 && Shaped(b) && r < |b.y| && SmoothRow(k, b, r) && j < b.width && j < |Normed(k, b, r)|
    ensures HasDerivative(RowLossInNormed(k, b, total, r, NormedWith(Normed(k, b, r), j)), Normed(k, b, r)[j],
                          Coord(Dyn(k, b, total, r), j))
  {
    var normed := Normed(k, b, r);
    UnitSlopes(normed, j, b.width);
    assert NormedWith(normed, j)(normed[j]) == normed;
    DynIsGradient(k, b, total, r, NormedWith(normed, j), normed[j], Unit(j));
    UnitPicks(CoordsOf(Dyn(k, b, total, r)), j, b.width);
  }

  // ---------------------------------------------------------------- the norm and its backward

  function NormInRow(k: Kernels, y: Vec, normW: Vec, i: nat): real -> Vec
    requires i < |y|
  {
    (x: real) => k.norm(y[i := x], normW)
  }

  function NormInWeight(k: Kernels, y: Vec, normW: Vec, i: nat): real -> Vec
    requires i < |normW|
  {
    (x: real) => k.norm(y, normW[i := x])
  }

  /** Entry `i` of a backward is every gradient times column `i` of the Jacobian. */
  ghost predicate Pulls(back: Vec -> Vec, width: nat, i: nat, column: nat -> real) {
    forall g: Vec {:trigger back(g)} :: |g| == width ==> Coord(back(g), i) == SumTo(Times(CoordsOf(g), column), width)
  }

  /** In coordinate `i` of the row, the norm has `column` for its slopes and the backward pulls by it. */
  ghost predicate RowVjp(k: Kernels, y: Vec, normW: Vec, width: nat, i: nat, column: nat -> real)
    requires i < |y|
  {
    && Slopes(NormInRow(k, y, normW, i), y[i], column, width)
    && Pulls((g: Vec) => k.dyRow(g, y, normW), width, i, column)
  }

  /** In entry `i` of the norm weight likewise. */
  ghost predicate WeightVjp(k: Kernels, y: Vec, normW: Vec, width: nat, i: nat, column: nat -> real)
    requires i < |normW|
  {
    && Slopes(NormInWeight(k, y, normW, i), normW[i], column, width)
    && Pulls((g: Vec) => k.dnormRow(g, y, normW), width, i, column)
  }

  lemma Pulled(back: Vec -> Vec, width: nat, i: nat, column: nat -> real, g: Vec)
    requires Pulls(back, width, i, column) && |g| == width
    ensures Coord(back(g), i) == SumTo(Times(CoordsOf(g), column), width)
  {
  }

  // ---------------------------------------------------------------- batches that vary

  /** The rows' shares of the loss, as the batch varies. */
  function SharesOf(k: Kernels, at: real -> Batch, total: real): nat -> real -> real
    requires total > 0.0
  {
    (r: nat) => (x: real) => -Objective(k, at(x), r) / total
  }

  /** The loss the head reports for the first `n` rows, as the batch varies. */
  function LossOf(k: Kernels, at: real -> Batch, total: real, n: nat): real -> real
    requires total > 0.0
  {
    (x: real) => GradsOf(RowsOf(k, at(x), total), total, 0, n).loss
  }

  lemma ShareIs(k: Kernels, at: real -> Batch, total: real, x: real, r: nat)
    requires total > 0.0
    ensures ValuesAt(SharesOf(k, at, total), x)(r) == -RowsOf(k, at(x), total).objective(r) / total
  {
  }

  lemma LossIsShares(k: Kernels, at: real -> Batch, total: real, n: nat, x: real)
    requires total > 0.0
    ensures LossOf(k, at, total, n)(x) == SumTo(ValuesAt(SharesOf(k, at, total), x), n)
  {
    var m, g := RowsOf(k, at(x), total), ValuesAt(SharesOf(k, at, total), x);
    forall r: nat ensures g(r) == -m.objective(r) / total {
      ShareIs(k, at, total, x, r);
    }
    AllRows(m, g, total, n);
  }

  lemma AllRows(m: Rows, g: nat -> real, total: real, n: nat)
    requires total > 0.0 && forall r: nat :: g(r) == -m.objective(r) / total
    ensures GradsOf(m, total, 0, n).loss == SumTo(g, n)
  {
    SumOfShares(m.objective, g, total, n);
    LossIs(m, total, 0, n, SumTo(m.objective, n));
  }

  /** The loss moves by what its rows move by. */
  lemma LossDerivative(k: Kernels, at: real -> Batch, total: real, n: nat, x: real, d: nat -> real)
    requires total > 0.0 && forall r: nat :: r < n ==> HasDerivative(SharesOf(k, at, total)(r), x, d(r))
    ensures HasDerivative(LossOf(k, at, total, n), x, SumTo(d, n))
  {
    forall y: real ensures LossOf(k, at, total, n)(y) == SumTo(ValuesAt(SharesOf(k, at, total), y), n) {
      LossIsShares(k, at, total, n, y);
    }
    SumDerivative(SharesOf(k, at, total), d, LossOf(k, at, total, n), x, n);
  }

  /** A row whose normed form follows a curve while the rest of the batch stays. */
  ghost predicate Follows(k: Kernels, b: Batch, at: real -> Batch, r: nat, normed: real -> Vec) {
    forall x: real {:trigger at(x)} ::
      && Normed(k, at(x), r) == normed(x) && at(x).w == b.w && at(x).width == b.width && at(x).mode == b.mode
      && at(x).actions == b.actions && at(x).oldLp == b.oldLp && at(x).adv == b.adv
  }

  lemma SameLogits(b: Batch, b': Batch, normed: Vec)
    requires b'.w == b.w && b'.width == b.width
    ensures LogitsOf(b', normed) == LogitsOf(b, normed)
  {
    forall v | 0 <= v < |b.w| ensures LogitOf(b', normed, v) == LogitOf(b, normed, v) {
      SumSame(LogitTerms(b', normed, v), LogitTerms(b, normed, v), b.width);
    }
  }

  lemma ShareFollows(k: Kernels, b: Batch, at: real -> Batch, total: real, r: nat, normed: real -> Vec, x: real)
    requires total > 0.0 && Follows(k, b, at, r, normed)
    ensures SharesOf(k, at, total)(r)(x) == RowLossInNormed(k, b, total, r, normed)(x)
  {
    SameLogits(b, at(x), normed(x));
    assert Logits(k, at(x), r) == LogitsAlong(b, normed)(x);
  }

  lemma SameDerivative(f: real -> real, g: real -> real, x: real, s: real)
    requires HasDerivative(f, x, s) && forall y :: g(y) == f(y)
    ensures HasDerivative(g, x, s)
  {
    ScaleRule(f, g, x, s, 1.0, s);
  }

  /** The row's share has `dyn` times the curve's slope for its derivative. */
  lemma ShareDerivative(k: Kernels, b: Batch, at: real -> Batch, total: real, r: nat, normed: real -> Vec, x: real,
                        column: nat -> real, d: real)
    requires total > 0.0 && Shaped(b) && r < |b.y| && SmoothRow(k, b, r) && Follows(k, b, at, r, normed)
    requires normed(x) == Normed(k, b, r) && Slopes(normed, x, column, b.width)
    requires d == SumTo(Times(CoordsOf(Dyn(k, b, total, r)), column), b.width)
    ensures HasDerivative(SharesOf(k, at, total)(r), x, d)
  {
    DynIsGradient(k, b, total, r, normed, x, column);
    forall y: real ensures SharesOf(k, at, total)(r)(y) == RowLossInNormed(k, b, total, r, normed)(y) {
      ShareFollows(k, b, at, total, r, normed, y);
    }
    SameDerivative(RowLossInNormed(k, b, total, r, normed), SharesOf(k, at, total)(r), x, d);
  }

  // ---------------------------------------------------------------- the rows

  /** The batch with another value in one coordinate of one row. */
  function WithRow(b: Batch, r: nat, i: nat): real -> Batch
    requires r < |b.y| && i < |b.y[r]|
  {
    (x: real) => b.(y := b.y[r := b.y[r][i := x]])
  }

  lemma OtherRowStays(k: Kernels, b: Batch, total: real, r: nat, i: nat, other: nat, x: real)
    requires total > 0.0 && r < |b.y| && i < |b.y[r]| && other != r && other < |b.y|
    ensures SharesOf(k, WithRow(b, r, i), total)(other)(x) == -Objective(k, b, other) / total
  {
    var b' := WithRow(b, r, i)(x);
    assert Normed(k, b', other) == Normed(k, b, other);
    SameLogits(b, b', Normed(k, b, other));
  }

  lemma OtherRowConstant(k: Kernels, b: Batch, total: real, r: nat, i: nat, other: nat, x: real)
    requires total > 0.0 && r < |b.y| && i < |b.y[r]| && other != r && other < |b.y|
    ensures HasDerivative(SharesOf(k, WithRow(b, r, i), total)(other), x, 0.0)
  {
    forall y: real
      ensures SharesOf(k, WithRow(b, r, i), total)(other)(y) == -Objective(k, b, other) / total
    {
      OtherRowStays(k, b, total, r, i, other, y);
    }
    LineRule(SharesOf(k, WithRow(b, r, i), total)(other), x, 0.0);
  }

  function Only(r: nat, d: real): nat -> real {
    (other: nat) => if other == r then d else 0.0
  }

  lemma {:induction false} SumOnly(r: nat, d: real, n: nat)
    ensures SumTo(Only(r, d), n) == if r < n then d else 0.0
  {
    if n > 0 {
      SumOnly(r, d, n - 1);
    }
  }

  lemma RowFollows(k: Kernels, b: Batch, r: nat, i: nat)
    requires r < |b.y| && i < |b.y[r]|
    ensures Follows(k, b, WithRow(b, r, i), r, NormInRow(k, b.y[r], b.normW, i))
  {
  }

  lemma DynLength(k: Kernels, b: Batch, total: real, r: nat)
    requires total > 0.0
    ensures |Dyn(k, b, total, r)| == b.width
  {
  }

  /** Coordinate `i` of row `r` of the returned `dy`. */
  function DyAt(k: Kernels, b: Batch, total: real, r: nat, i: nat): real
    requires total > 0.0 && r < |b.y|
  {
    Coord(DyOf(RowsOf(k, b, total), 0, |b.y|)[r], i)
  }

  lemma DyEntry(k: Kernels, b: Batch, total: real, r: nat, i: nat, column: nat -> real)
    requires total > 0.0 && r < |b.y| && i < |b.y[r]| && RowVjp(k, b.y[r], b.normW, b.width, i, column)
    ensures DyAt(k, b, total, r, i) ==
      SumTo(Times(CoordsOf(Dyn(k, b, total, r)), column), b.width)
  {
    DynLength(k, b, total, r);
    Pulled((g: Vec) => k.dyRow(g, b.y[r], b.normW), b.width, i, column, Dyn(k, b, total, r));
  }

  lemma OwnShare(k: Kernels, b: Batch, total: real, r: nat, i: nat, column: nat -> real, d: real)
    requires total > 0.0 && Shaped(b) && r < |b.y| && i < |b.y[r]| && SmoothRow(k, b, r)
    requires RowVjp(k, b.y[r], b.normW, b.width, i, column)
    requires d == SumTo(Times(CoordsOf(Dyn(k, b, total, r)), column), b.width)
    ensures HasDerivative(SharesOf(k, WithRow(b, r, i), total)(r), b.y[r][i], d)
  {
    var y := b.y[r];
    RowFollows(k, b, r, i);
    assert y[i := y[i]] == y;
    ShareDerivative(k, b, WithRow(b, r, i), total, r, NormInRow(k, y, b.normW, i), y[i], column, d);
  }

  /** What the head returns for a coordinate of a row is the derivative of the loss it returns. */
  lemma DyIsDerivative(k: Kernels, b: Batch, total: real, r: nat, i: nat, column: nat -> real)
    requires total > 0.0 && Shaped(b) && r < |b.y| && i < |b.y[r]| && SmoothRow(k, b, r)
    requires RowVjp(k, b.y[r], b.normW, b.width, i, column)
    ensures HasDerivative(LossOf(k, WithRow(b, r, i), total, |b.y|), b.y[r][i], DyAt(k, b, total, r, i))
  {
    var d := SumTo(Times(CoordsOf(Dyn(k, b, total, r)), column), b.width);
    forall other: nat | other < |b.y|
      ensures HasDerivative(SharesOf(k, WithRow(b, r, i), total)(other), b.y[r][i], Only(r, d)(other))
    {
      if other == r {
        OwnShare(k, b, total, r, i, column, d);
      } else {
        OtherRowConstant(k, b, total, r, i, other, b.y[r][i]);
      }
    }
    LossDerivative(k, WithRow(b, r, i), total, |b.y|, b.y[r][i], Only(r, d));
    SumOnly(r, d, |b.y|);
    DyEntry(k, b, total, r, i, column);
  }

  // ---------------------------------------------------------------- the norm weight

  /** The batch with another value in one entry of the norm weight. */
  function WithNorm(b: Batch, i: nat): real -> Batch
    requires i < |b.normW|
  {
    (x: real) => b.(normW := b.normW[i := x])
  }

  lemma WeightFollows(k: Kernels, b: Batch, i: nat, r: nat)
    requires r < |b.y| && i < |b.normW|
    ensures Follows(k, b, WithNorm(b, i), r, NormInWeight(k, b.y[r], b.normW, i))
  {
  }

  function DnormTerms(k: Kernels, b: Batch, total: real, i: nat): nat -> real
    requires total > 0.0
  {
    (r: nat) => DnormTerm(k, b, total, i, r)
  }

  lemma DnormShare(k: Kernels, b: Batch, total: real, i: nat, r: nat, column: nat -> real)
    requires total > 0.0 && Shaped(b) && r < |b.y| && i < |b.normW| && SmoothRow(k, b, r)
    requires WeightVjp(k, b.y[r], b.normW, b.width, i, column)
    ensures HasDerivative(SharesOf(k, WithNorm(b, i), total)(r), b.normW[i], DnormTerms(k, b, total, i)(r))
  {
    var w := b.normW;
    WeightFollows(k, b, i, r);
    assert w[i := w[i]] == w;
    DynLength(k, b, total, r);
    Pulled((g: Vec) => k.dnormRow(g, b.y[r], w), b.width, i, column, Dyn(k, b, total, r));
    ShareDerivative(k, b, WithNorm(b, i), total, r, NormInWeight(k, b.y[r], w, i), w[i], column,
                    DnormTerms(k, b, total, i)(r));
  }

  /** At every row the norm is differentiable in entry `i` of its weight, and the backward pulls by it. */
  ghost predicate WeightVjps(k: Kernels, b: Batch, i: nat, columns: nat -> nat -> real)
    requires i < |b.normW|
  {
    forall r: nat {:trigger columns(r)} :: r < |b.y| ==> WeightVjp(k, b.y[r], b.normW, b.width, i, columns(r))
  }

  lemma DnormEntry(k: Kernels, b: Batch, total: real, i: nat)
    requires total > 0.0 && i < b.width
    ensures GradsOf(RowsOf(k, b, total), total, 0, |b.y|).dnorm[i] == SumTo(DnormTerms(k, b, total, i), |b.y|)
  {
    var m := RowsOf(k, b, total);
    SumSame((r: nat) => m.dnorm(i, r), DnormTerms(k, b, total, i), |b.y|);
    SumSame((r: nat) => m.dnorm(i, r), DnormTerms(k, b, total, i), 0);
  }

  /** What the head returns for an entry of the norm weight is the derivative of the loss it returns, over
      all rows. */
  lemma DnormIsDerivative(k: Kernels, b: Batch, total: real, i: nat, columns: nat -> nat -> real)
    requires total > 0.0 && Shaped(b) && i < |b.normW| && i < b.width
    requires WeightVjps(k, b, i, columns) && forall r: nat :: r < |b.y| ==> SmoothRow(k, b, r)
    ensures HasDerivative(LossOf(k, WithNorm(b, i), total, |b.y|), b.normW[i],
                          GradsOf(RowsOf(k, b, total), total, 0, |b.y|).dnorm[i])
  {
    var d := DnormTerms(k, b, total, i);
    forall r: nat | r < |b.y| ensures HasDerivative(SharesOf(k, WithNorm(b, i), total)(r), b.normW[i], d(r)) {
      DnormShare(k, b, total, i, r, columns(r));
    }
    LossDerivative(k, WithNorm(b, i), total, |b.y|, b.normW[i], d);
    DnormEntry(k, b, total, i);
  }
}
