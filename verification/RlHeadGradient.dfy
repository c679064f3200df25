/** The head's gradients are the derivatives of its loss: in one logit of a row, and in one entry of the
    head weight over all rows. Where `exp` is its own derivative and `logsumexp` has the softmax for its
    partial derivatives are the only hypotheses on the kernels. */
module RlHeadGradient {
  import opened Derivative
  import opened RlHeadLoss

  // ---------------------------------------------------------------- one logit

  /** Functions of one logit, the others held fixed. */
  function LseAlong(k: Kernels, logits: Vec, v: nat): real -> real
    requires v < |logits|
  {
    (x: real) => k.lse(logits[v := x])
  }

  function LogProbAlong(k: Kernels, logits: Vec, v: nat, action: nat): real -> real
    requires v < |logits|
  {
    (x: real) => LogProb(k, logits[v := x], action)
  }

  /** The row's share of the loss, as the forward computes it. */
  function RowLossAlong(k: Kernels, b: Batch, total: real, r: nat, v: nat): real -> real
    requires total > 0.0 && v < |b.w|
  {
    var logits := Logits(k, b, r);
    (x: real) =>
      -ObjectiveOf(k, b.mode, logits[v := x], ActionAt(b, r), Coord(b.oldLp, r), Coord(b.adv, r)) / total
  }

  /** The kernels behave at this row: `exp` is its own derivative at the log-ratio, the partial
      derivative of `logsumexp` is the softmax, and the surrogate is at no kink. */
  ghost predicate Smooth(k: Kernels, b: Batch, r: nat, v: nat)
    requires v < |b.w|
  {
    var logits := Logits(k, b, r);
    var u := LogProb(k, logits, ActionAt(b, r)) - Coord(b.oldLp, r);
    && HasDerivative(k.exp, u, k.exp(u)) && !AtKink(k, b, r)
    && HasDerivative(LseAlong(k, logits, v), logits[v], Soft(k, b, r, v))
  }

  function OneHot(v: nat, action: nat): real {
    if v == action then 1.0 else 0.0
  }

  lemma PickDerivative(logits: Vec, v: nat, action: nat)
    requires v < |logits| && action < |logits|
    ensures HasDerivative((x: real) => Coord(logits[v := x], action), logits[v], OneHot(v, action))
  {
    LineRule((x: real) => Coord(logits[v := x], action), logits[v], OneHot(v, action));
  }

  /** The log-probability of the action moves with logit `v` by one-hot minus softmax. */
  lemma LogProbDerivative(k: Kernels, logits: Vec, v: nat, action: nat, soft: real, s: real)
    requires v < |logits| && action < |logits| && HasDerivative(LseAlong(k, logits, v), logits[v], soft)
    requires s == OneHot(v, action) - soft
    ensures HasDerivative(LogProbAlong(k, logits, v, action), logits[v], s)
  {
    var pick, minus := (x: real) => Coord(logits[v := x], action), (x: real) => -1.0 * k.lse(logits[v := x]);
    PickDerivative(logits, v, action);
    ScaleRule(LseAlong(k, logits, v), minus, logits[v], soft, -1.0, -1.0 * soft);
    SumRule(pick, minus, LogProbAlong(k, logits, v, action), logits[v], OneHot(v, action), -1.0 * soft, s);
  }

  lemma DlogitIs(k: Kernels, b: Batch, total: real, r: nat, v: nat, glp: real, s: real)
    requires total > 0.0 && glp == Glp(k, b, total, r) && s == OneHot(v, ActionAt(b, r)) - Soft(k, b, r, v)
    ensures Dlogit(k, b, total, r, v) == glp * s
  {
  }

  lemma RowLossIs(k: Kernels, b: Batch, total: real, r: nat, v: nat)
    requires total > 0.0 && v < |b.w|
    ensures var loss := LossAt(k.exp, b.mode, Coord(b.oldLp, r), Coord(b.adv, r), total);
      forall x :: RowLossAlong(k, b, total, r, v)(x) ==
        loss(LogProbAlong(k, Logits(k, b, r), v, ActionAt(b, r))(x))
  {
    forall x: real ensures RowLossAlong(k, b, total, r, v)(x) ==
      LossAt(k.exp, b.mode, Coord(b.oldLp, r), Coord(b.adv, r), total)(
        LogProbAlong(k, Logits(k, b, r), v, ActionAt(b, r))(x))
    {
      LossAtIs(k, b.mode, Logits(k, b, r)[v := x], ActionAt(b, r), Coord(b.oldLp, r), Coord(b.adv, r), total);
    }
  }

  /** The backward's logits gradient is the derivative of the row's loss in that logit. */
  lemma DlogitIsDerivative(k: Kernels, b: Batch, total: real, r: nat, v: nat)
    requires total > 0.0 && Shaped(b) && r < |b.y| && v < |b.w| && Smooth(k, b, r, v)
    ensures HasDerivative(RowLossAlong(k, b, total, r, v), Logits(k, b, r)[v], Dlogit(k, b, total, r, v))
  {
    var logits, action, glp := Logits(k, b, r), ActionAt(b, r), Glp(k, b, total, r);
    var loss := LossAt(k.exp, b.mode, Coord(b.oldLp, r), Coord(b.adv, r), total);
    var s := OneHot(v, action) - Soft(k, b, r, v);
    LogProbDerivative(k, logits, v, action, Soft(k, b, r, v), s);
    assert logits[v := logits[v]] == logits;
    GlpIsDerivative(k, b, total, r, glp);
    RowLossIs(k, b, total, r, v);
    ChainRule(LogProbAlong(k, logits, v, action), loss, RowLossAlong(k, b, total, r, v), logits[v], s, glp, glp * s);
    DlogitIs(k, b, total, r, v, glp, s);
  }

  // ---------------------------------------------------------------- one entry of the head weight

  /** The batch with another value in one entry of the head weight. */
  function WithWeight(b: Batch, v: nat, j: nat, x: real): Batch
    requires v < |b.w| && j < |b.w[v]|
  {
    b.(w := b.w[v := b.w[v][j := x]])
  }

  /** Two sums whose terms agree but for one. */
  lemma {:induction false} SumChange(f: nat -> real, g: nat -> real, n: nat, j: nat)
    requires forall i: nat :: i != j ==> f(i) == g(i)
    ensures SumTo(f, n) == SumTo(g, n) + if j < n then f(j) - g(j) else 0.0
  {
    if n > 0 {
      SumChange(f, g, n - 1, j);
    }
  }

  lemma Rise(y: real, x: real, w: real)
    ensures y * x - y * w == y * (x - w)
  {
  }

  /** Each logit is linear in the entry: logit `v` with the slope of the normed input, others not at all. */
  lemma LogitMoves(k: Kernels, b: Batch, r: nat, v: nat, j: nat, x: real, u: nat)
    requires v < |b.w| && j < |b.w[v]| && j < b.width && u < |b.w|
    ensures Logit(k, WithWeight(b, v, j, x), r, u) ==
      Logit(k, b, r, u) + if u == v then Coord(Normed(k, b, r), j) * (x - b.w[v][j]) else 0.0
  {
    var b' := WithWeight(b, v, j, x);
    var f, g := LogitTerms(b', Normed(k, b', r), u), LogitTerms(b, Normed(k, b, r), u);
    assert Normed(k, b', r) == Normed(k, b, r);
    forall i: nat | i != j || u != v ensures f(i) == g(i) {
      assert u != v ==> b'.w[u] == b.w[u];
      assert u == v ==> Coord(b'.w[v], i) == Coord(b.w[v], i);
    }
    SumChange(f, g, b.width, j);
    Rise(Coord(Normed(k, b, r), j), x, b.w[v][j]);
    assert Logit(k, b', r, u) == SumTo(f, b.width) && Logit(k, b, r, u) == SumTo(g, b.width);
  }

  lemma LogitsMove(k: Kernels, b: Batch, r: nat, v: nat, j: nat, x: real)
    requires v < |b.w| && j < |b.w[v]| && j < b.width
    ensures Logits(k, WithWeight(b, v, j, x), r) ==
      Logits(k, b, r)[v := Logits(k, b, r)[v] + Coord(Normed(k, b, r), j) * (x - b.w[v][j])]
  {
    var after := Logits(k, b, r)[v := Logits(k, b, r)[v] + Coord(Normed(k, b, r), j) * (x - b.w[v][j])];
    forall u | 0 <= u < |b.w| ensures Logits(k, WithWeight(b, v, j, x), r)[u] == after[u] {
      LogitMoves(k, b, r, v, j, x, u);
    }
  }

  /** A row's share of the loss as a function of the entry. */
  function RowLossInWeight(k: Kernels, b: Batch, total: real, v: nat, j: nat, r: nat): real -> real
    requires total > 0.0 && v < |b.w| && j < |b.w[v]|
  {
    (x: real) => -Objective(k, WithWeight(b, v, j, x), r) / total
  }

  lemma RowLossMoves(k: Kernels, b: Batch, total: real, v: nat, j: nat, r: nat, x: real, to: real)
    requires total > 0.0 && v < |b.w| && j < |b.w[v]| && j < b.width
    requires to == LineAt(Logits(k, b, r)[v], Coord(Normed(k, b, r), j), b.w[v][j], x)
    ensures RowLossInWeight(k, b, total, v, j, r)(x) == RowLossAlong(k, b, total, r, v)(to)
  {
    LogitsMove(k, b, r, v, j, x);
  }

  lemma RowWeightDerivative(k: Kernels, b: Batch, total: real, v: nat, j: nat, r: nat, dy: real)
    requires total > 0.0 && Shaped(b) && r < |b.y| && v < |b.w| && Smooth(k, b, r, v)
    requires j < |b.w[v]| && j < b.width && dy == Dlogit(k, b, total, r, v) * Coord(Normed(k, b, r), j)
    ensures HasDerivative(RowLossInWeight(k, b, total, v, j, r), b.w[v][j], dy)
  {
    var at, y, w := Logits(k, b, r)[v], Coord(Normed(k, b, r), j), b.w[v][j];
    var d := Dlogit(k, b, total, r, v);
    DlogitIsDerivative(k, b, total, r, v);
    MovesAlong(k, b, total, v, j, r, at, y, w);
    AlongLine(RowLossAlong(k, b, total, r, v), RowLossInWeight(k, b, total, v, j, r), at, y, w, d, dy);
  }

  lemma MovesAlong(k: Kernels, b: Batch, total: real, v: nat, j: nat, r: nat, at: real, y: real, w: real)
    requires total > 0.0 && v < |b.w| && j < |b.w[v]| && j < b.width
    requires at == Logits(k, b, r)[v] && y == Coord(Normed(k, b, r), j) && w == b.w[v][j]
    ensures forall x: real ::
      RowLossInWeight(k, b, total, v, j, r)(x) == RowLossAlong(k, b, total, r, v)(LineAt(at, y, w, x))
  {
    forall x: real
      ensures RowLossInWeight(k, b, total, v, j, r)(x) == RowLossAlong(k, b, total, r, v)(LineAt(at, y, w, x))
    {
      RowLossMoves(k, b, total, v, j, r, x, LineAt(at, y, w, x));
    }
  }

  // ---------------------------------------------------------------- all rows

  /** The values of many functions at one point. */
  function ValuesAt(f: nat -> real -> real, x: real): nat -> real {
    (r: nat) => f(r)(x)
  }

  /** The derivative of a sum of functions. */
  lemma {:induction false} SumDerivative(f: nat -> real -> real, d: nat -> real, c: real -> real, x: real, n: nat)
    requires forall r: nat :: r < n ==> HasDerivative(f(r), x, d(r))
    requires forall y :: c(y) == SumTo(ValuesAt(f, y), n)
    ensures HasDerivative(c, x, SumTo(d, n))
  {
    if n == 0 {
      LineRule(c, x, 0.0);
    } else {
      var before := (y: real) => SumTo(ValuesAt(f, y), n - 1);
      SumDerivative(f, d, before, x, n - 1);
      SumRule(before, f(n - 1), c, x, SumTo(d, n - 1), d(n - 1), SumTo(d, n));
    }
  }

  lemma {:induction false} SumOfShares(f: nat -> real, g: nat -> real, total: real, n: nat)
    requires total > 0.0 && forall r: nat :: g(r) == -f(r) / total
    ensures SumTo(g, n) == -SumTo(f, n) / total
  {
    if n > 0 {
      SumOfShares(f, g, total, n - 1);
      Fractions(SumTo(f, n - 1), f(n - 1), total);
    }
  }

  /** The rows' shares of the loss as functions of the entry. */
  function Shares(k: Kernels, b: Batch, total: real, v: nat, j: nat): nat -> real -> real
    requires total > 0.0 && v < |b.w| && j < |b.w[v]|
  {
    (r: nat) => RowLossInWeight(k, b, total, v, j, r)
  }

  /** The loss of all rows, as the head reports it, as a function of the entry. */
  function LossInWeight(k: Kernels, b: Batch, total: real, v: nat, j: nat): real -> real
    requires total > 0.0 && v < |b.w| && j < |b.w[v]|
  {
    (x: real) => GradsOf(RowsOf(k, WithWeight(b, v, j, x), total), total, 0, |b.y|).loss
  }

  lemma ShareOf(k: Kernels, b: Batch, total: real, v: nat, j: nat, x: real, r: nat)
    requires total > 0.0 && v < |b.w| && j < |b.w[v]|
    ensures ValuesAt(Shares(k, b, total, v, j), x)(r) ==
      -RowsOf(k, WithWeight(b, v, j, x), total).objective(r) / total
  {
  }

  lemma LossIsSum(k: Kernels, b: Batch, total: real, v: nat, j: nat, x: real)
    requires total > 0.0 && v < |b.w| && j < |b.w[v]|
    ensures LossInWeight(k, b, total, v, j)(x) == SumTo(ValuesAt(Shares(k, b, total, v, j), x), |b.y|)
  {
    var f, g := RowsOf(k, WithWeight(b, v, j, x), total).objective, ValuesAt(Shares(k, b, total, v, j), x);
    forall r: nat ensures g(r) == -f(r) / total {
      ShareOf(k, b, total, v, j, x, r);
    }
    SumOfShares(f, g, total, |b.y|);
    assert SumTo(f, 0) == 0.0;
  }

  lemma MoreRows(a: nat, b: nat, width: nat)
    requires a < b
    ensures a * width + width <= b * width
  {
    var more := b - a - 1;
    assert b * width == (a + 1 + more) * width == a * width + width + more * width;
  }

  lemma OneAddress(q: nat, m: nat, v: nat, j: nat, width: nat)
    requires q * width + m == v * width + j && m < width && j < width
    ensures q == v && m == j
  {
    if q < v {
      MoreRows(q, v, width);
    } else if v < q {
      MoreRows(v, q, width);
    }
  }

  lemma Remainder(c: nat, width: nat)
    requires width > 0
    ensures c == (c / width) * width + c % width && c % width < width
  {
  }

  lemma EntryNumber(width: nat, v: nat, j: nat, rows: nat, c: nat)
    requires j < width && v < rows && c == v * width + j
    ensures c < rows * width && c / width == v && c % width == j
  {
    MoreRows(v, rows, width);
    Remainder(c, width);
    OneAddress(c / width, c % width, v, j, width);
  }

  /** What a row adds to an entry of the gradient is the derivative of its share of the loss. */
  lemma RowShare(k: Kernels, b: Batch, total: real, v: nat, j: nat, c: nat, r: nat)
    requires total > 0.0 && Shaped(b) && r < |b.y| && v < |b.w| && Smooth(k, b, r, v)
    requires j < |b.w[v]| && j < b.width && c / b.width == v && c % b.width == j
    ensures HasDerivative(RowLossInWeight(k, b, total, v, j, r), b.w[v][j], DwTerm(k, b, total, c, r))
  {
    RowWeightDerivative(k, b, total, v, j, r, DwTerm(k, b, total, c, r));
  }

  /** What the head returns for an entry of its weight is the derivative of the loss it returns in that
      entry, over all rows. */
  lemma DwIsDerivative(k: Kernels, b: Batch, total: real, v: nat, j: nat, c: nat)
    requires total > 0.0 && Shaped(b) && v < |b.w| && j < |b.w[v]| && j < b.width && c == v * b.width + j
    requires forall r: nat :: r < |b.y| ==> Smooth(k, b, r, v)
    ensures c < |GradsOf(RowsOf(k, b, total), total, 0, |b.y|).dw|
    ensures HasDerivative(LossInWeight(k, b, total, v, j), b.w[v][j],
                          GradsOf(RowsOf(k, b, total), total, 0, |b.y|).dw[c])
  {
    EntryNumber(b.width, v, j, |b.w|, c);
    var d := (r: nat) => DwTerm(k, b, total, c, r);
    forall r: nat | r < |b.y| ensures HasDerivative(Shares(k, b, total, v, j)(r), b.w[v][j], d(r)) {
      RowShare(k, b, total, v, j, c, r);
    }
    forall y: real ensures LossInWeight(k, b, total, v, j)(y) == SumTo(ValuesAt(Shares(k, b, total, v, j), y), |b.y|) {
      LossIsSum(k, b, total, v, j, y);
    }
    SumDerivative(Shares(k, b, total, v, j), d, LossInWeight(k, b, total, v, j), b.w[v][j], |b.y|);
    DwEntry(k, b, total, c, d);
  }

  lemma DwEntry(k: Kernels, b: Batch, total: real, c: nat, d: nat -> real)
    requires total > 0.0 && c < |b.w| * b.width && forall r: nat :: d(r) == DwTerm(k, b, total, c, r)
    ensures GradsOf(RowsOf(k, b, total), total, 0, |b.y|).dw[c] == SumTo(d, |b.y|)
  {
    var m := RowsOf(k, b, total);
    SumSame((r: nat) => m.dw(c, r), d, |b.y|);
    SumSame((r: nat) => m.dw(c, r), d, 0);
  }
}
