/** The head's gradients in what it reads: the derivative of a row's loss along any curve of normed rows
    is the inner product of `dyn` with the curve's slope, and with the norm's backward as its
    vector-Jacobian product, `dy` and `dnorm` are the derivatives of the loss the head returns. */
module RlHeadInputs {
  import opened Derivative
  import opened RlHeadLoss
  import opened RlHeadGradient

  // ---------------------------------------------------------------- curves

  function CoordAlong(curve: real -> Vec, j: nat): real -> real {
    (x: real) => Coord(curve(x), j)
  }

  function LseOnCurve(k: Kernels, curve: real -> Vec): real -> real {
    (x: real) => k.lse(curve(x))
  }

  /** The first `n` coordinates of the curve have the given slopes at `x`. */
  ghost predicate Slopes(curve: real -> Vec, x: real, slopes: nat -> real, n: nat) {
    forall j: nat {:trigger slopes(j)} :: j < n ==> HasDerivative(CoordAlong(curve, j), x, slopes(j))
  }

  function Times(f: nat -> real, g: nat -> real): nat -> real {
    (i: nat) => f(i) * g(i)
  }

  /** `logsumexp` is differentiable at these logits, with the softmax for its gradient: along every curve
      through them its slope is the inner product with the curve's. */
  ghost predicate LseGradient(k: Kernels, logits: Vec, soft: nat -> real) {
    forall curve: real -> Vec, x: real, slopes: nat -> real {:trigger Slopes(curve, x, slopes, |logits|)} ::
      curve(x) == logits && Slopes(curve, x, slopes, |logits|) ==>
      HasDerivative(LseOnCurve(k, curve), x, SumTo(Times(soft, slopes), |logits|))
  }

  /** The kernels behave at this row. */
  ghost predicate SmoothRow(k: Kernels, b: Batch, r: nat) {
    var logits := Logits(k, b, r);
    var u := LogProb(k, logits, ActionAt(b, r)) - Coord(b.oldLp, r);
    HasDerivative(k.exp, u, k.exp(u)) && !AtKink(k, b, r) && LseGradient(k, logits, SoftTerm(k, b, r))
  }

  // ---------------------------------------------------------------- from the normed row to the logits

  function LogitsAlong(b: Batch, normed: real -> Vec): real -> Vec {
    (x: real) => LogitsOf(b, normed(x))
  }

  /** One term of a logit, as a function of the curve's parameter. */
  function TermsAlong(b: Batch, normed: real -> Vec, v: nat): nat -> real -> real {
    (j: nat) => (x: real) => Coord(normed(x), j) * HeadEntry(b, v, j)
  }

  function HeadRow(b: Batch, v: nat): nat -> real {
    (j: nat) => HeadEntry(b, v, j)
  }

  lemma TermDerivative(b: Batch, normed: real -> Vec, x: real, slopes: nat -> real, v: nat, j: nat)
    requires HasDerivative(CoordAlong(normed, j), x, slopes(j))
    ensures HasDerivative(TermsAlong(b, normed, v)(j), x, Times(slopes, HeadRow(b, v))(j))
  {
    ScaleRule(CoordAlong(normed, j), TermsAlong(b, normed, v)(j), x, slopes(j), HeadEntry(b, v, j),
              Times(slopes, HeadRow(b, v))(j));
  }

  lemma LogitAlong(b: Batch, normed: real -> Vec, v: nat, x: real)
    requires v < |b.w|
    ensures CoordAlong(LogitsAlong(b, normed), v)(x) == SumTo(ValuesAt(TermsAlong(b, normed, v), x), b.width)
  {
    assert LogitsAlong(b, normed)(x)[v] == LogitOf(b, normed(x), v);
    forall j: nat ensures LogitTerms(b, normed(x), v)(j) == ValuesAt(TermsAlong(b, normed, v), x)(j) {
    }
    SumSame(LogitTerms(b, normed(x), v), ValuesAt(TermsAlong(b, normed, v), x), b.width);
  }

  /** How the logits move with the normed row. */
  function LogitSlopes(b: Batch, slopes: nat -> real): nat -> real {
    (v: nat) => SumTo(Times(slopes, HeadRow(b, v)), b.width)
  }

  lemma LogitDerivative(b: Batch, normed: real -> Vec, x: real, slopes: nat -> real, v: nat)
    requires v < |b.w| && Slopes(normed, x, slopes, b.width)
    ensures HasDerivative(CoordAlong(LogitsAlong(b, normed), v), x, LogitSlopes(b, slopes)(v))
  {
    var f, d := TermsAlong(b, normed, v), Times(slopes, HeadRow(b, v));
    forall j: nat | j < b.width ensures HasDerivative(f(j), x, d(j)) {
      TermDerivative(b, normed, x, slopes, v, j);
    }
    forall y: real ensures CoordAlong(LogitsAlong(b, normed), v)(y) == SumTo(ValuesAt(f, y), b.width) {
      LogitAlong(b, normed, v, y);
    }
    SumDerivative(f, d, CoordAlong(LogitsAlong(b, normed), v), x, b.width);
  }

  // ---------------------------------------------------------------- from the logits to the loss

  function LogProbOnCurve(k: Kernels, curve: real -> Vec, action: nat): real -> real {
    (x: real) => LogProb(k, curve(x), action)
  }

  lemma LogProbSlope(k: Kernels, curve: real -> Vec, x: real, action: nat, d: real, lse: real, s: real)
    requires HasDerivative(CoordAlong(curve, action), x, d) && HasDerivative(LseOnCurve(k, curve), x, lse)
    requires s == d - lse
    ensures HasDerivative(LogProbOnCurve(k, curve, action), x, s)
  {
    var minus := (y: real) => -1.0 * k.lse(curve(y));
    ScaleRule(LseOnCurve(k, curve), minus, x, lse, -1.0, -1.0 * lse);
    SumRule(CoordAlong(curve, action), minus, LogProbOnCurve(k, curve, action), x, d, -1.0 * lse, s);
  }

  /** A row's share of the loss on a curve of logits. */
  function RowLossOnCurve(k: Kernels, b: Batch, total: real, r: nat, curve: real -> Vec): real -> real
    requires total > 0.0
  {
    (x: real) => -ObjectiveOf(k, b.mode, curve(x), ActionAt(b, r), Coord(b.oldLp, r), Coord(b.adv, r)) / total
  }

  lemma RowLossThrough(k: Kernels, b: Batch, total: real, r: nat, curve: real -> Vec)
    requires total > 0.0
    ensures var loss := LossAt(k.exp, b.mode, Coord(b.oldLp, r), Coord(b.adv, r), total);
      forall x :: RowLossOnCurve(k, b, total, r, curve)(x) == loss(LogProbOnCurve(k, curve, ActionAt(b, r))(x))
  {
    forall x: real ensures RowLossOnCurve(k, b, total, r, curve)(x) ==
      LossAt(k.exp, b.mode, Coord(b.oldLp, r), Coord(b.adv, r), total)(LogProbOnCurve(k, curve, ActionAt(b, r))(x))
    {
      LossAtIs(k, b.mode, curve(x), ActionAt(b, r), Coord(b.oldLp, r), Coord(b.adv, r), total);
    }
  }

  /** Where the log-probability of a row is on the curve, and how its loss depends on it. */
  lemma LossHere(k: Kernels, b: Batch, total: real, r: nat, curve: real -> Vec, x: real)
    requires total > 0.0 && SmoothRow(k, b, r) && curve(x) == Logits(k, b, r)
    ensures HasDerivative(LossAt(k.exp, b.mode, Coord(b.oldLp, r), Coord(b.adv, r), total),
                          LogProbOnCurve(k, curve, ActionAt(b, r))(x), Glp(k, b, total, r))
  {
    GlpIsDerivative(k, b, total, r, Glp(k, b, total, r));
  }

  lemma LogProbHere(k: Kernels, b: Batch, r: nat, curve: real -> Vec, x: real, dirs: nat -> real, s: real)
    requires Shaped(b) && r < |b.y| && SmoothRow(k, b, r) && curve(x) == Logits(k, b, r)
    requires Slopes(curve, x, dirs, |b.w|)
    requires s == dirs(ActionAt(b, r)) - SumTo(Times(SoftTerm(k, b, r), dirs), |b.w|)
    ensures HasDerivative(LogProbOnCurve(k, curve, ActionAt(b, r)), x, s)
  {
    var action, lse := ActionAt(b, r), SumTo(Times(SoftTerm(k, b, r), dirs), |b.w|);
    assert Slopes(curve, x, dirs, |Logits(k, b, r)|);
    assert HasDerivative(LseOnCurve(k, curve), x, lse);
    LogProbSlope(k, curve, x, action, dirs(action), lse, s);
  }

  /** The loss of a row along a curve of its logits, before it is written as an inner product. */
  lemma LossSlope(k: Kernels, b: Batch, total: real, r: nat, curve: real -> Vec, x: real, s: real, ds: real)
    requires total > 0.0 && SmoothRow(k, b, r) && curve(x) == Logits(k, b, r)
    requires HasDerivative(LogProbOnCurve(k, curve, ActionAt(b, r)), x, s) && ds == Glp(k, b, total, r) * s
    ensures HasDerivative(RowLossOnCurve(k, b, total, r, curve), x, ds)
  {
    var loss := LossAt(k.exp, b.mode, Coord(b.oldLp, r), Coord(b.adv, r), total);
    LossHere(k, b, total, r, curve, x);
    RowLossThrough(k, b, total, r, curve);
    Through(LogProbOnCurve(k, curve, ActionAt(b, r)), loss, RowLossOnCurve(k, b, total, r, curve), x, s,
            Glp(k, b, total, r), ds);
  }

  lemma Through(f: real -> real, g: real -> real, c: real -> real, x: real, s: real, t: real, ts: real)
    requires HasDerivative(f, x, s) && HasDerivative(g, f(x), t) && (forall y :: c(y) == g(f(y))) && ts == t * s
    ensures HasDerivative(c, x, ts)
  {
    ChainRule(f, g, c, x, s, t, ts);
  }

  // ---------------------------------------------------------------- inner products

  /** `x` is `glp` times what `d` exceeds `sum` by. */
  predicate Exceeds(x: real, glp: real, sum: real, d: real) {
    x == glp * d - glp * sum
  }

  lemma GlpTerm(x: real, glp: real, sum: real, own: real, soft: real, dir: real, d: real, hit: bool)
    requires Exceeds(x, glp, sum, own) && d == (soft * (-glp) + if hit then glp else 0.0) && (hit ==> own == 0.0)
    ensures Exceeds(x + d * dir, glp, sum + soft * dir, if hit then dir else own)
  {
  }

  /** `glp * (onehot - softmax)` against the slopes. */
  lemma {:induction false} DlogitAgainst(
    soft: nat -> real, dl: nat -> real, dirs: nat -> real, glp: real, action: nat, n: nat)
    requires forall v: nat :: dl(v) == soft(v) * (-glp) + if v == action then glp else 0.0
    ensures Exceeds(SumTo(Times(dl, dirs), n), glp, SumTo(Times(soft, dirs), n),
                    if action < n then dirs(action) else 0.0)
  {
    if n > 0 {
      DlogitAgainst(soft, dl, dirs, glp, action, n - 1);
      GlpTerm(SumTo(Times(dl, dirs), n - 1), glp, SumTo(Times(soft, dirs), n - 1),
              if action < n - 1 then dirs(action) else 0.0, soft(n - 1), dirs(n - 1), dl(n - 1), n - 1 == action);
    }
  }

  lemma GlpTimes(x: real, glp: real, sum: real, d: real, s: real, ds: real)
    requires Exceeds(x, glp, sum, d) && s == d - sum && ds == glp * s
    ensures ds == x
  {
  }

  /** A row times the columns of the head weight. */
  function ColumnSums(b: Batch, dl: nat -> real, n: nat): nat -> real {
    (j: nat) => SumTo(OneColumn(b, dl, j), n)
  }

  function OneColumn(b: Batch, dl: nat -> real, j: nat): nat -> real {
    (v: nat) => dl(v) * HeadEntry(b, v, j)
  }

  lemma ColumnStep(b: Batch, dl: nat -> real, n: nat, j: nat)
    requires n > 0
    ensures ColumnSums(b, dl, n)(j) == ColumnSums(b, dl, n - 1)(j) + dl(n - 1) * HeadEntry(b, n - 1, j)
  {
  }

  lemma {:induction false} AddRow(
    f: nat -> real, g: nat -> real, e: nat -> real, slopes: nat -> real, c: real, width: nat)
    requires forall j: nat :: f(j) == g(j) + c * e(j)
    ensures SumTo(Times(f, slopes), width) == SumTo(Times(g, slopes), width) + c * SumTo(Times(slopes, e), width)
  {
    if width > 0 {
      AddRow(f, g, e, slopes, c, width - 1);
      var j := width - 1;
      Spread(f(j), g(j), e(j), slopes(j), c, SumTo(Times(slopes, e), j));
    }
  }

  lemma Spread(f: real, g: real, e: real, s: real, c: real, rest: real)
    requires f == g + c * e
    ensures f * s + c * rest == g * s + c * (rest + s * e)
  {
  }

  lemma {:induction false} NoColumns(slopes: nat -> real, f: nat -> real, n: nat)
    requires forall j: nat :: f(j) == 0.0
    ensures SumTo(Times(f, slopes), n) == 0.0
  {
    if n > 0 {
      NoColumns(slopes, f, n - 1);
    }
  }

  /** Summing over tokens first or over coordinates first. */
  lemma {:induction false} Exchange(b: Batch, dl: nat -> real, slopes: nat -> real, n: nat)
    ensures SumTo(Times(dl, LogitSlopes(b, slopes)), n) == SumTo(Times(ColumnSums(b, dl, n), slopes), b.width)
  {
    if n == 0 {
      NoColumns(slopes, ColumnSums(b, dl, 0), b.width);
    } else {
      Exchange(b, dl, slopes, n - 1);
      forall j: nat ensures ColumnSums(b, dl, n)(j) == ColumnSums(b, dl, n - 1)(j) + dl(n - 1) * HeadRow(b, n - 1)(j) {
        ColumnStep(b, dl, n, j);
      }
      AddRow(ColumnSums(b, dl, n), ColumnSums(b, dl, n - 1), HeadRow(b, n - 1), slopes, dl(n - 1), b.width);
    }
  }

  function CoordsOf(v: Vec): nat -> real {
    (j: nat) => Coord(v, j)
  }

  lemma {:induction false} SumSameBelow(f: nat -> real, g: nat -> real, n: nat)
    requires forall i: nat :: i < n ==> f(i) == g(i)
    ensures SumTo(f, n) == SumTo(g, n)
  {
    if n > 0 {
      SumSameBelow(f, g, n - 1);
    }
  }

  lemma DynEntry(k: Kernels, b: Batch, total: real, r: nat, j: nat)
    requires total > 0.0 && j < b.width
    ensures Coord(Dyn(k, b, total, r), j) == ColumnSums(b, DlogitTerm(k, b, total, r), |b.w|)(j)
  {
    SumSame(DynTerms(k, b, total, r, j), OneColumn(b, DlogitTerm(k, b, total, r), j), |b.w|);
  }

  lemma DynAgainst(k: Kernels, b: Batch, total: real, r: nat, slopes: nat -> real)
    requires total > 0.0
    ensures SumTo(Times(DlogitTerm(k, b, total, r), LogitSlopes(b, slopes)), |b.w|) ==
      SumTo(Times(CoordsOf(Dyn(k, b, total, r)), slopes), b.width)
  {
    var columns, coords := ColumnSums(b, DlogitTerm(k, b, total, r), |b.w|), CoordsOf(Dyn(k, b, total, r));
    Exchange(b, DlogitTerm(k, b, total, r), slopes, |b.w|);
    forall j: nat | j < b.width ensures Times(columns, slopes)(j) == Times(coords, slopes)(j) {
      DynEntry(k, b, total, r, j);
    }
    SumSameBelow(Times(columns, slopes), Times(coords, slopes), b.width);
  }

  // ---------------------------------------------------------------- one row

  /** A row's share of the loss on a curve of normed rows. */
  function RowLossInNormed(k: Kernels, b: Batch, total: real, r: nat, normed: real -> Vec): real -> real
    requires total > 0.0
  {
    RowLossOnCurve(k, b, total, r, LogitsAlong(b, normed))
  }

  lemma RowAgainst(k: Kernels, b: Batch, total: real, r: nat, dirs: nat -> real)
    requires total > 0.0 && ActionAt(b, r) < |b.w|
    ensures Exceeds(SumTo(Times(DlogitTerm(k, b, total, r), dirs), |b.w|), Glp(k, b, total, r),
                    SumTo(Times(SoftTerm(k, b, r), dirs), |b.w|), dirs(ActionAt(b, r)))
  {
    DlogitAgainst(SoftTerm(k, b, r), DlogitTerm(k, b, total, r), dirs, Glp(k, b, total, r), ActionAt(b, r), |b.w|);
  }

  lemma GlpSum(k: Kernels, b: Batch, total: real, r: nat, dirs: nat -> real, s: real, ds: real)
    requires total > 0.0 && ActionAt(b, r) < |b.w| && ds == Glp(k, b, total, r) * s
    requires s == dirs(ActionAt(b, r)) - SumTo(Times(SoftTerm(k, b, r), dirs), |b.w|)
    ensures ds == SumTo(Times(DlogitTerm(k, b, total, r), dirs), |b.w|)
  {
    RowAgainst(k, b, total, r, dirs);
    GlpTimes(SumTo(Times(DlogitTerm(k, b, total, r), dirs), |b.w|), Glp(k, b, total, r),
             SumTo(Times(SoftTerm(k, b, r), dirs), |b.w|), dirs(ActionAt(b, r)), s, ds);
  }

  /** Along any curve of normed rows, the slope of the row's loss is `dyn` times the curve's slope. */
  lemma DynIsGradient(k: Kernels, b: Batch, total: real, r: nat, normed: real -> Vec, x: real, slopes: nat -> real)
    requires total > 0.0 && Shaped(b) && r < |b.y| && SmoothRow(k, b, r)
    requires normed(x) == Normed(k, b, r) && Slopes(normed, x, slopes, b.width)
    ensures HasDerivative(RowLossInNormed(k, b, total, r, normed), x,
                          SumTo(Times(CoordsOf(Dyn(k, b, total, r)), slopes), b.width))
  {
    var dirs, curve := LogitSlopes(b, slopes), LogitsAlong(b, normed);
    var s := dirs(ActionAt(b, r)) - SumTo(Times(SoftTerm(k, b, r), dirs), |b.w|);
    var ds := Glp(k, b, total, r) * s;
    LogitsMoveAlong(b, normed, x, slopes);
    LogProbHere(k, b, r, curve, x, dirs, s);
    LossSlope(k, b, total, r, curve, x, s, ds);
    GlpSum(k, b, total, r, dirs, s, ds);
    DynAgainst(k, b, total, r, slopes);
  }

  lemma LogitsMoveAlong(b: Batch, normed: real -> Vec, x: real, slopes: nat -> real)
    requires Slopes(normed, x, slopes, b.width)
    ensures Slopes(LogitsAlong(b, normed), x, LogitSlopes(b, slopes), |b.w|)
  {
    var curve, dirs := LogitsAlong(b, normed), LogitSlopes(b, slopes);
    forall v: nat | v < |b.w| ensures HasDerivative(CoordAlong(curve, v), x, dirs(v)) {
      LogitDerivative(b, normed, x, slopes, v);
    }
  }
}
