/** The chunked RL head: final norm, LM head, policy-gradient loss and head backward, row by row over
    exact reals. The norm kernels, `exp` and `logsumexp` are arbitrary functions. */
module RlHeadLoss {
  import opened Wrappers
  import opened Derivative

  type Vec = seq<real>

  const EPS := 0.2

  datatype Mode = Ppo | Reinforce

  // ---------------------------------------------------------------- the objective of one row

  function Clamp(r: real): real {
    if r < 1.0 - EPS then 1.0 - EPS else if r > 1.0 + EPS then 1.0 + EPS else r
  }

  predicate PicksFirst(r: real, a: real) {
    r * a <= Clamp(r) * a
  }

  predicate InBand(r: real) {
    1.0 - EPS < r < 1.0 + EPS
  }

  /** The clipped surrogate. */
  function Surrogate(r: real, a: real): real {
    if PicksFirst(r, a) then r * a else Clamp(r) * a
  }

  /** The slope the backward uses: the advantage where gradients flow, zero where clipped. */
  function Slope(r: real, a: real): real {
    if PicksFirst(r, a) || InBand(r) then a else 0.0
  }

  /** Inside the band the first branch is always picked, so the extra disjunct never matters. */
  lemma BandIsPicked(r: real, a: real)
    ensures InBand(r) ==> PicksFirst(r, a)
    ensures Slope(r, a) == if PicksFirst(r, a) then a else 0.0
  {
  }

  lemma MulOrder(x: real, y: real, a: real)
    ensures a > 0.0 ==> (x * a <= y * a <==> x <= y)
    ensures a < 0.0 ==> (x * a <= y * a <==> y <= x)
  {
    if a > 0.0 {
      if x <= y {
        assert (y - x) * a >= 0.0;
      } else {
        assert (x - y) * a > 0.0;
      }
    } else if a < 0.0 {
      if y <= x {
        assert (x - y) * a <= 0.0;
      } else {
        assert (y - x) * a < 0.0;
      }
    }
  }

  /** The surrogate is the advantage times a one-sided clip. */
  lemma SurrogateIs(r: real, a: real)
    ensures a > 0.0 ==> Surrogate(r, a) == (if r <= 1.2 then r * a else 1.2 * a) && (PicksFirst(r, a) <==> r <= 1.2)
    ensures a < 0.0 ==> Surrogate(r, a) == (if r >= 0.8 then r * a else 0.8 * a) && (PicksFirst(r, a) <==> r >= 0.8)
    ensures a == 0.0 ==> Surrogate(r, a) == 0.0 && PicksFirst(r, a)
  {
    MulOrder(r, Clamp(r), a);
  }

  /** Where the surrogate bends. */
  predicate Kink(r: real, a: real) {
    (a > 0.0 && r == 1.0 + EPS) || (a < 0.0 && r == 1.0 - EPS)
  }

  function SurrogateAt(a: real): real -> real {
    (r: real) => Surrogate(r, a)
  }

  function Radius(r: real, a: real): real {
    if a > 0.0 then Abs(r - (1.0 + EPS)) else if a < 0.0 then Abs(r - (1.0 - EPS)) else 1.0
  }

  lemma Line(r: real, x: real, a: real)
    ensures x * a == r * a + a * (x - r)
  {
  }

  lemma LineBeside(r: real, x: real, a: real)
    requires !Kink(r, a) && Abs(x - r) < Radius(r, a)
    ensures Surrogate(x, a) == Surrogate(r, a) + Slope(r, a) * (x - r)
  {
    BandIsPicked(r, a);
    SurrogateIs(r, a);
    SurrogateIs(x, a);
    Line(r, x, a);
  }

  /** The slope on each side of a kink. */
  function SideSlope(a: real, forwards: bool): real {
    if forwards == (a > 0.0) then 0.0 else a
  }

  lemma LineFromKink(r: real, x: real, a: real, forwards: bool)
    requires Kink(r, a) && OnSide(x, r, forwards)
    ensures Surrogate(x, a) == Surrogate(r, a) + SideSlope(a, forwards) * (x - r)
  {
    SurrogateIs(r, a);
    SurrogateIs(x, a);
    Line(r, x, a);
  }

  ghost predicate IsSurrogate(f: real -> real, a: real) {
    forall r {:trigger Surrogate(r, a)} :: f(r) == Surrogate(r, a)
  }

  lemma PointBeside(f: real -> real, r: real, x: real, a: real)
    requires IsSurrogate(f, a) && !Kink(r, a) && Abs(x - r) < Radius(r, a)
    ensures f(x) == f(r) + Slope(r, a) * (x - r)
  {
    LineBeside(r, x, a);
  }

  lemma RadiusPositive(r: real, a: real)
    requires !Kink(r, a)
    ensures Radius(r, a) > 0.0
  {
  }

  /** Away from the kinks, the surrogate is a line of the slope the backward uses. */
  lemma SurrogateIsLine(f: real -> real, r: real, a: real)
    requires IsSurrogate(f, a) && !Kink(r, a)
    ensures LinearNear(f, r, Slope(r, a), Radius(r, a))
  {
    RadiusPositive(r, a);
    forall x | Abs(x - r) < Radius(r, a) ensures f(x) == f(r) + Slope(r, a) * (x - r) {
      PointBeside(f, r, x, a);
    }
  }

  lemma PointFromKink(f: real -> real, r: real, x: real, a: real, forwards: bool)
    requires IsSurrogate(f, a) && Kink(r, a) && OnSide(x, r, forwards)
    ensures f(x) == f(r) + SideSlope(a, forwards) * (x - r)
  {
    LineFromKink(r, x, a, forwards);
  }

  lemma SurrogateSides(f: real -> real, r: real, a: real, forwards: bool)
    requires IsSurrogate(f, a) && Kink(r, a)
    ensures LinearSide(f, r, SideSlope(a, forwards), 1.0, forwards)
  {
    forall x | OnSide(x, r, forwards) && Abs(x - r) < 1.0 ensures f(x) == f(r) + SideSlope(a, forwards) * (x - r) {
      PointFromKink(f, r, x, a, forwards);
    }
  }

  lemma IdentityDerivative(x: real)
    ensures HasDerivative((y: real) => y, x, 1.0)
  {
    LinearHasDerivative((y: real) => y, x, 1.0, 1.0);
  }

  /** At a kink no number is the derivative. */
  lemma KinkHasNoDerivative(r: real, a: real, s: real)
    requires Kink(r, a)
    ensures !HasDerivative(SurrogateAt(a), r, s)
  {
    IdentityDerivative(r);
    var up, down := SideSlope(a, true), SideSlope(a, false);
    SurrogateSides(SurrogateAt(a), r, a, true);
    SurrogateSides(SurrogateAt(a), r, a, false);
    ChainSide((y: real) => y, SurrogateAt(a), SurrogateAt(a), r, 1.0, up, up, 1.0, true);
    ChainSide((y: real) => y, SurrogateAt(a), SurrogateAt(a), r, 1.0, down, down, 1.0, false);
    NoDerivative(SurrogateAt(a), r, up, down, s);
  }

  /** The surrogate has a derivative at `r` exactly away from the kinks, and it is the slope the
      backward uses. */
  lemma DerivativeExactly(r: real, a: real, s: real)
    ensures HasDerivative(SurrogateAt(a), r, s) <==> !Kink(r, a) && s == Slope(r, a)
  {
    if Kink(r, a) {
      KinkHasNoDerivative(r, a, s);
    } else {
      SurrogateIsLine(SurrogateAt(a), r, a);
      LinearHasDerivative(SurrogateAt(a), r, Slope(r, a), Radius(r, a));
      if HasDerivative(SurrogateAt(a), r, s) {
        DerivativeUnique(SurrogateAt(a), r, s, Slope(r, a));
      }
    }
  }

  // ---------------------------------------------------------------- one row, forward and backward

  /** The kernels, per row: the norm of a row under the norm weight, its backward (from the gradient in
      the normed row, the row and the weight to the row's gradient and its share of the weight's), and
      the two transcendental functions. */
  datatype Kernels = Kernels(norm: (Vec, Vec) -> Vec, exp: real -> real, lse: Vec -> real,
                             dyRow: (Vec, Vec, Vec) -> Vec, dnormRow: (Vec, Vec, Vec) -> Vec)

  datatype Batch = Batch(
    y: seq<Vec>, actions: seq<nat>, oldLp: Vec, adv: Vec, w: seq<Vec>, normW: Vec, width: nat, mode: Mode)

  ghost predicate Shaped(b: Batch) {
    && |b.y| == |b.actions| == |b.oldLp| == |b.adv|
    && (forall r :: 0 <= r < |b.y| ==> b.actions[r] < |b.w|)
  }

  /** The coordinate, zero beyond the vector. */
  function Coord(v: Vec, i: nat): (x: real)
    ensures i < |v| ==> x == v[i]
  {
    if i < |v| then v[i] else 0.0
  }

  function SumTo(f: nat -> real, n: nat): real {
    if n == 0 then 0.0 else SumTo(f, n - 1) + f(n - 1)
  }

  /** The sum of `f` over the rows `lo .. hi`. */
  function SumRows(f: nat -> real, lo: nat, hi: nat): real
    requires lo <= hi
  {
    SumTo(f, hi) - SumTo(f, lo)
  }

  function Row(b: Batch, r: nat): (y: Vec)
    ensures r < |b.y| ==> y == b.y[r]
  {
    if r < |b.y| then b.y[r] else []
  }

  function Normed(k: Kernels, b: Batch, r: nat): Vec {
    k.norm(Row(b, r), b.normW)
  }

  /** Entry `j` of the head weight's row `v`. */
  function HeadEntry(b: Batch, v: nat, j: nat): (x: real)
    ensures v < |b.w| && j < |b.w[v]| ==> x == b.w[v][j]
  {
    if v < |b.w| then Coord(b.w[v], j) else 0.0
  }

  function LogitTerms(b: Batch, normed: Vec, v: nat): nat -> real {
    (j: nat) => Coord(normed, j) * HeadEntry(b, v, j)
  }

  function LogitOf(b: Batch, normed: Vec, v: nat): real {
    SumTo(LogitTerms(b, normed, v), b.width)
  }

  /** The logits of a normed row. */
  function LogitsOf(b: Batch, normed: Vec): (l: Vec)
    ensures |l| == |b.w|
  {
    seq(|b.w|, v requires 0 <= v < |b.w| => LogitOf(b, normed, v))
  }

  function Logit(k: Kernels, b: Batch, r: nat, v: nat): real {
    LogitOf(b, Normed(k, b, r), v)
  }

  function Logits(k: Kernels, b: Batch, r: nat): (l: Vec)
    ensures |l| == |b.w|
  {
    LogitsOf(b, Normed(k, b, r))
  }

  function ActionAt(b: Batch, r: nat): (a: nat)
    ensures r < |b.actions| ==> a == b.actions[r]
  {
    if r < |b.actions| then b.actions[r] else 0
  }

  /** `logits[action] - logsumexp(logits)`. */
  function LogProb(k: Kernels, logits: Vec, action: nat): real {
    Coord(logits, action) - k.lse(logits)
  }

  function Ratio(k: Kernels, logits: Vec, action: nat, oldLp: real): real {
    k.exp(LogProb(k, logits, action) - oldLp)
  }

  function ObjectiveOf(k: Kernels, mode: Mode, logits: Vec, action: nat, oldLp: real, adv: real): real {
    match mode
    case Reinforce => adv * LogProb(k, logits, action)
    case Ppo => Surrogate(Ratio(k, logits, action, oldLp), adv)
  }

  function Objective(k: Kernels, b: Batch, r: nat): real {
    ObjectiveOf(k, b.mode, Logits(k, b, r), ActionAt(b, r), Coord(b.oldLp, r), Coord(b.adv, r))
  }

  /** The derivative of the loss in the row's log-probability. */
  function Glp(k: Kernels, b: Batch, total: real, r: nat): real
    requires total > 0.0
  {
    var a := Coord(b.adv, r);
    match b.mode
    case Reinforce => -a / total
    case Ppo =>
      var ratio := Ratio(k, Logits(k, b, r), ActionAt(b, r), Coord(b.oldLp, r));
      if PicksFirst(ratio, a) || InBand(ratio) then -a * ratio / total else 0.0
  }

  /** The softmax probability of token `v`. */
  function Soft(k: Kernels, b: Batch, r: nat, v: nat): real {
    k.exp(Coord(Logits(k, b, r), v) - k.lse(Logits(k, b, r)))
  }

  /** `glp * (onehot(action) - softmax)`. */
  function Dlogit(k: Kernels, b: Batch, total: real, r: nat, v: nat): real
    requires total > 0.0
  {
    Soft(k, b, r, v) * (-Glp(k, b, total, r)) + if v == ActionAt(b, r) then Glp(k, b, total, r) else 0.0
  }

  function DynTerms(k: Kernels, b: Batch, total: real, r: nat, j: nat): nat -> real
    requires total > 0.0
  {
    (v: nat) => Dlogit(k, b, total, r, v) * HeadEntry(b, v, j)
  }

  function Dyn(k: Kernels, b: Batch, total: real, r: nat): Vec
    requires total > 0.0
  {
    seq(b.width, j requires 0 <= j < b.width => SumTo(DynTerms(k, b, total, r, j), |b.w|))
  }

  function DyRow(k: Kernels, b: Batch, total: real, r: nat): Vec
    requires total > 0.0
  {
    k.dyRow(Dyn(k, b, total, r), Row(b, r), b.normW)
  }

  /** What row `r` adds to entry `c` of the head gradient, entries numbered row by row. */
  function DwTerm(k: Kernels, b: Batch, total: real, c: nat, r: nat): real
    requires total > 0.0
  {
    if b.width == 0 then 0.0 else Dlogit(k, b, total, r, c / b.width) * Coord(Normed(k, b, r), c % b.width)
  }

  function DnormTerm(k: Kernels, b: Batch, total: real, j: nat, r: nat): real
    requires total > 0.0
  {
    Coord(k.dnormRow(Dyn(k, b, total, r), Row(b, r), b.normW), j)
  }

  // ---------------------------------------------------------------- the gradient is the derivative

  /** A row's share of the loss, as a function of its log-probability. */
  function LossAt(exp: real -> real, mode: Mode, oldLp: real, a: real, total: real): real -> real
    requires total > 0.0
  {
    (lp: real) => -(if mode == Reinforce then a * lp else Surrogate(exp(lp - oldLp), a)) / total
  }

  /** At the log-probability of some logits it is the row's share of the loss the forward reports. */
  lemma LossAtIs(k: Kernels, mode: Mode, logits: Vec, action: nat, oldLp: real, a: real, total: real)
    requires total > 0.0
    ensures LossAt(k.exp, mode, oldLp, a, total)(LogProb(k, logits, action)) ==
      -ObjectiveOf(k, mode, logits, action, oldLp, a) / total
  {
  }

  function NegatedSurrogate(a: real, total: real): real -> real
    requires total > 0.0
  {
    (r: real) => -Surrogate(r, a) / total
  }

  lemma NegatedLine(u: real, v: real, s: real, d: real, total: real)
    requires total > 0.0 && v == u + s * d
    ensures -v / total == -u / total + (-s / total) * d
  {
    assert (-s / total) * d == -(s * d) / total;
  }

  lemma NegatedNear(f: real -> real, g: real -> real, r: real, s: real, rho: real, total: real, t: real)
    requires total > 0.0 && t == -s / total && LinearNear(f, r, s, rho) && forall x :: g(x) == -f(x) / total
    ensures LinearNear(g, r, t, rho)
  {
    forall x | Abs(x - r) < rho ensures g(x) == g(r) + t * (x - r) {
      NegatedLine(f(r), f(x), s, x - r, total);
    }
  }

  lemma NegatedSide(
    f: real -> real, g: real -> real, r: real, s: real, rho: real, total: real, t: real, forwards: bool)
    requires total > 0.0 && t == -s / total && LinearSide(f, r, s, rho, forwards) && forall x :: g(x) == -f(x) / total
    ensures LinearSide(g, r, t, rho, forwards)
  {
    forall x | OnSide(x, r, forwards) && Abs(x - r) < rho ensures g(x) == g(r) + t * (x - r) {
      NegatedLine(f(r), f(x), s, x - r, total);
    }
  }

  lemma RatioDerivative(exp: real -> real, oldLp: real, lp: real)
    requires HasDerivative(exp, lp - oldLp, exp(lp - oldLp))
    ensures HasDerivative((x: real) => exp(x - oldLp), lp, exp(lp - oldLp))
  {
    ShiftedDerivative(exp, (x: real) => exp(x - oldLp), oldLp, lp, exp(lp - oldLp));
  }

  lemma ReinforceDerivative(exp: real -> real, oldLp: real, a: real, total: real, lp: real)
    requires total > 0.0
    ensures HasDerivative(LossAt(exp, Reinforce, oldLp, a, total), lp, -a / total)
  {
    var f := LossAt(exp, Reinforce, oldLp, a, total);
    forall x | Abs(x - lp) < 1.0 ensures f(x) == f(lp) + (-a / total) * (x - lp) {
      Line(lp, x, a);
      NegatedLine(a * lp, a * x, a, x - lp, total);
    }
    LinearHasDerivative(f, lp, -a / total, 1.0);
  }

  lemma PpoDerivative(exp: real -> real, oldLp: real, a: real, total: real, lp: real, ratio: real, t: real, ts: real)
    requires total > 0.0 && ratio == exp(lp - oldLp) && HasDerivative(exp, lp - oldLp, ratio) && !Kink(ratio, a)
    requires t == -Slope(ratio, a) / total && ts == t * ratio
    ensures HasDerivative(LossAt(exp, Ppo, oldLp, a, total), lp, ts)
  {
    RatioDerivative(exp, oldLp, lp);
    SurrogateIsLine(SurrogateAt(a), ratio, a);
    NegatedNear(SurrogateAt(a), NegatedSurrogate(a, total), ratio, Slope(ratio, a), Radius(ratio, a), total, t);
    LinearHasDerivative(NegatedSurrogate(a, total), ratio, t, Radius(ratio, a));
    ChainRule((x: real) => exp(x - oldLp), NegatedSurrogate(a, total), LossAt(exp, Ppo, oldLp, a, total),
      lp, ratio, t, ts);
  }

  lemma SidesDiffer(a: real, total: real, ratio: real, up: real, down: real)
    requires total > 0.0 && a != 0.0 && ratio > 0.0
    requires up == -SideSlope(a, true) / total && down == -SideSlope(a, false) / total
    ensures up * ratio != down * ratio
  {
    var c := -a / total;
    assert c * total == -a;
    assert c != 0.0 && c * ratio != 0.0;
  }

  lemma PpoSide(
    exp: real -> real, oldLp: real, a: real, total: real, lp: real, ratio: real, s: real, t: real, ts: real,
    forwards: bool)
    requires total > 0.0 && ratio == exp(lp - oldLp) && HasDerivative(exp, lp - oldLp, ratio) && Kink(ratio, a)
    requires s == SideSlope(a, forwards) && t == -s / total && ts == t * ratio
    ensures HasSlope(LossAt(exp, Ppo, oldLp, a, total), lp, ts, forwards)
  {
    var f, g := (x: real) => exp(x - oldLp), NegatedSurrogate(a, total);
    RatioDerivative(exp, oldLp, lp);
    SurrogateSides(SurrogateAt(a), ratio, a, forwards);
    NegatedSide(SurrogateAt(a), g, ratio, s, 1.0, total, t, forwards);
    ChainSide(f, g, LossAt(exp, Ppo, oldLp, a, total), lp, ratio, t, ts, 1.0, forwards);
  }

  lemma PpoKink(exp: real -> real, oldLp: real, a: real, total: real, lp: real, ratio: real, d: real)
    requires total > 0.0 && ratio == exp(lp - oldLp) && HasDerivative(exp, lp - oldLp, ratio) && Kink(ratio, a)
    ensures !HasDerivative(LossAt(exp, Ppo, oldLp, a, total), lp, d)
  {
    var up, down := -SideSlope(a, true) / total, -SideSlope(a, false) / total;
    PpoSide(exp, oldLp, a, total, lp, ratio, SideSlope(a, true), up, up * ratio, true);
    PpoSide(exp, oldLp, a, total, lp, ratio, SideSlope(a, false), down, down * ratio, false);
    SidesDiffer(a, total, ratio, up, down);
    NoDerivative(LossAt(exp, Ppo, oldLp, a, total), lp, up * ratio, down * ratio, d);
  }

  lemma GlpIs(k: Kernels, b: Batch, total: real, r: nat, a: real, ratio: real, t: real)
    requires total > 0.0 && b.mode == Ppo && a == Coord(b.adv, r)
    requires ratio == Ratio(k, Logits(k, b, r), ActionAt(b, r), Coord(b.oldLp, r)) && t == -Slope(ratio, a) / total
    ensures Glp(k, b, total, r) == t * ratio
  {
    assert (-a / total) * ratio == -a * ratio / total;
  }

  lemma GlpHolds(k: Kernels, b: Batch, total: real, r: nat, lp: real, oldLp: real, a: real, ratio: real)
    requires total > 0.0 && lp == LogProb(k, Logits(k, b, r), ActionAt(b, r)) && oldLp == Coord(b.oldLp, r)
    requires a == Coord(b.adv, r) && ratio == k.exp(lp - oldLp) && HasDerivative(k.exp, lp - oldLp, ratio)
    requires !(b.mode == Ppo && Kink(ratio, a))
    ensures HasDerivative(LossAt(k.exp, b.mode, oldLp, a, total), lp, Glp(k, b, total, r))
  {
    if b.mode == Ppo {
      var t := -Slope(ratio, a) / total;
      PpoDerivative(k.exp, oldLp, a, total, lp, ratio, t, t * ratio);
      GlpIs(k, b, total, r, a, ratio, t);
    } else {
      ReinforceDerivative(k.exp, oldLp, a, total, lp);
    }
  }

  /** The row's objective is a PPO surrogate at a kink. */
  predicate AtKink(k: Kernels, b: Batch, r: nat) {
    b.mode == Ppo && Kink(Ratio(k, Logits(k, b, r), ActionAt(b, r), Coord(b.oldLp, r)), Coord(b.adv, r))
  }

  /** Where `exp` is its own derivative, the row's loss has a derivative in the log-probability exactly
      when the objective is no PPO surrogate at a kink, and it is the value the backward uses. */
  lemma GlpIsDerivative(k: Kernels, b: Batch, total: real, r: nat, d: real)
    requires total > 0.0
    requires var u := LogProb(k, Logits(k, b, r), ActionAt(b, r)) - Coord(b.oldLp, r); HasDerivative(k.exp, u, k.exp(u))
    ensures var lp, loss :=
        LogProb(k, Logits(k, b, r), ActionAt(b, r)), LossAt(k.exp, b.mode, Coord(b.oldLp, r), Coord(b.adv, r), total);
      && loss(lp) == -Objective(k, b, r) / total
      && (HasDerivative(loss, lp, d) <==> !AtKink(k, b, r) && d == Glp(k, b, total, r))
  {
    var lp, oldLp, a := LogProb(k, Logits(k, b, r), ActionAt(b, r)), Coord(b.oldLp, r), Coord(b.adv, r);
    LossAtIs(k, b.mode, Logits(k, b, r), ActionAt(b, r), oldLp, a, total);
    var f, ratio := LossAt(k.exp, b.mode, oldLp, a, total), k.exp(lp - oldLp);
    if b.mode == Ppo && Kink(ratio, a) {
      PpoKink(k.exp, oldLp, a, total, lp, ratio, d);
    } else {
      GlpHolds(k, b, total, r, lp, oldLp, a, ratio);
      if HasDerivative(f, lp, d) {
        DerivativeUnique(f, lp, d, Glp(k, b, total, r));
      }
    }
  }

  lemma {:induction false} ScaledSum(f: nat -> real, g: nat -> real, m: real, action: nat, glp: real, n: nat)
    requires forall v: nat :: g(v) == f(v) * m + if v == action then glp else 0.0
    ensures SumTo(g, n) == SumTo(f, n) * m + if action < n then glp else 0.0
  {
    if n > 0 {
      ScaledSum(f, g, m, action, glp, n - 1);
      Gather(SumTo(f, n - 1), f(n - 1), m);
    }
  }

  lemma Gather(x: real, y: real, m: real)
    ensures (x + y) * m == x * m + y * m
  {
  }

  function SoftTerm(k: Kernels, b: Batch, r: nat): nat -> real {
    (v: nat) => Soft(k, b, r, v)
  }

  function DlogitTerm(k: Kernels, b: Batch, total: real, r: nat): nat -> real
    requires total > 0.0
  {
    (v: nat) => Dlogit(k, b, total, r, v)
  }

  /** Every row of the logits gradient sums to zero, because the softmax sums to one. */
  lemma DlogitsSumToZero(k: Kernels, b: Batch, total: real, r: nat)
    requires total > 0.0 && Shaped(b) && r < |b.y| && SumTo(SoftTerm(k, b, r), |b.w|) == 1.0
    ensures SumTo(DlogitTerm(k, b, total, r), |b.w|) == 0.0
  {
    ScaledSum(SoftTerm(k, b, r), DlogitTerm(k, b, total, r), -Glp(k, b, total, r), ActionAt(b, r),
              Glp(k, b, total, r), |b.w|);
  }

  // ---------------------------------------------------------------- chunks

  /** What each row contributes: its objective, its share of each gradient entry, its row of `dy`. */
  datatype Rows = Rows(count: nat, entries: nat, width: nat, objective: nat -> real,
                       dw: (nat, nat) -> real, dnorm: (nat, nat) -> real, dy: nat -> Vec)

  function RowsOf(k: Kernels, b: Batch, total: real): Rows
    requires total > 0.0
  {
    Rows(|b.y|, |b.w| * b.width, b.width, (r: nat) => Objective(k, b, r),
         (c: nat, r: nat) => DwTerm(k, b, total, c, r), (j: nat, r: nat) => DnormTerm(k, b, total, j, r),
         (r: nat) => DyRow(k, b, total, r))
  }

  datatype Grads = Grads(loss: real, dw: Vec, dnorm: Vec)

  /** Loss and gradients of the rows `lo .. hi`, with no mention of chunks. */
  function GradsOf(m: Rows, total: real, lo: nat, hi: nat): Grads
    requires lo <= hi && total > 0.0
  {
    Grads(-SumRows(m.objective, lo, hi) / total,
          seq(m.entries, c requires 0 <= c < m.entries => SumRows((r: nat) => m.dw(c, r), lo, hi)),
          seq(m.width, j requires 0 <= j < m.width => SumRows((r: nat) => m.dnorm(j, r), lo, hi)))
  }

  function Plus(a: Vec, b: Vec): (c: Vec)
    requires |a| == |b|
    ensures |c| == |a| && forall i :: 0 <= i < |a| ==> c[i] == a[i] + b[i]
  {
    seq(|a|, i requires 0 <= i < |a| => a[i] + b[i])
  }

  function Joined(g: Grads, h: Grads): Grads
    requires |g.dw| == |h.dw| && |g.dnorm| == |h.dnorm|
  {
    Grads(g.loss + h.loss, Plus(g.dw, h.dw), Plus(g.dnorm, h.dnorm))
  }

  /** Adjacent ranges add up. */
  lemma GradsJoin(m: Rows, total: real, lo: nat, mid: nat, hi: nat)
    requires lo <= mid <= hi && total > 0.0
    ensures Joined(GradsOf(m, total, lo, mid), GradsOf(m, total, mid, hi)) == GradsOf(m, total, lo, hi)
  {
    var f, g, h := GradsOf(m, total, lo, mid), GradsOf(m, total, mid, hi), GradsOf(m, total, lo, hi);
    Fractions(SumRows(m.objective, lo, mid), SumRows(m.objective, mid, hi), total);
    assert Plus(f.dw, g.dw) == h.dw && Plus(f.dnorm, g.dnorm) == h.dnorm;
  }

  lemma Fractions(x: real, y: real, total: real)
    requires total > 0.0
    ensures -x / total + -y / total == -(x + y) / total
  {
  }

  function NoGrads(m: Rows): Grads {
    Grads(0.0, seq(m.entries, _ => 0.0), seq(m.width, _ => 0.0))
  }

  lemma NoRows(m: Rows, total: real, lo: nat)
    requires total > 0.0
    ensures GradsOf(m, total, lo, lo) == NoGrads(m)
  {
  }

  function DyOf(m: Rows, lo: nat, hi: nat): (dy: seq<Vec>)
    requires lo <= hi
    ensures |dy| == hi - lo
  {
    seq(hi - lo, r requires 0 <= r < hi - lo => m.dy(lo + r))
  }

  /** A sum over rows `lo .. hi`, as the matrix products and reductions compute it. */
  method AddUp(f: nat -> real, lo: nat, hi: nat) returns (sum: real)
    requires lo <= hi
    ensures sum == SumRows(f, lo, hi)
  {
    sum := 0.0;
    for r := lo to hi
      invariant sum == SumRows(f, lo, r)
    {
      sum := sum + f(r);
    }
  }

  /** One chunk: its loss, its share of both weight gradients, and its slice of `dy`. */
  method ChunkGrads(m: Rows, total: real, lo: nat, hi: nat) returns (g: Grads, dy: seq<Vec>)
    requires lo <= hi && total > 0.0
    ensures g == GradsOf(m, total, lo, hi) && dy == DyOf(m, lo, hi)
  {
    var sum := AddUp(m.objective, lo, hi);
    var dw, dnorm := [], [];
    for c := 0 to m.entries
      invariant |dw| == c && forall i :: 0 <= i < c ==> dw[i] == SumRows((r: nat) => m.dw(i, r), lo, hi)
    {
      var entry := AddUp((r: nat) => m.dw(c, r), lo, hi);
      dw := dw + [entry];
    }
    for j := 0 to m.width
      invariant |dnorm| == j && forall i :: 0 <= i < j ==> dnorm[i] == SumRows((r: nat) => m.dnorm(i, r), lo, hi)
    {
      var entry := AddUp((r: nat) => m.dnorm(j, r), lo, hi);
      dnorm := dnorm + [entry];
    }
    g := Grads(-sum / total, dw, dnorm);
    dy := seq(hi - lo, r requires 0 <= r < hi - lo => m.dy(lo + r));
  }

  /** The loop over chunks of `step` rows. */
  method ChunkLoop(m: Rows, total: real, step: nat) returns (g: Grads, dy: seq<Vec>)
    requires total > 0.0 && step > 0
    ensures g == GradsOf(m, total, 0, m.count) && dy == DyOf(m, 0, m.count)
  {
    g, dy := NoGrads(m), [];
    NoRows(m, total, 0);
    var lo := 0;
    while lo < m.count
      invariant 0 <= lo <= m.count && g == GradsOf(m, total, 0, lo) && dy == DyOf(m, 0, lo)
    {
      var hi := if lo + step < m.count then lo + step else m.count;
      var part, rows := ChunkGrads(m, total, lo, hi);
      GradsJoin(m, total, 0, lo, hi);
      g := Joined(g, part);
      dy := dy + rows;
      lo := hi;
    }
  }

  function Or(given: Option<nat>, otherwise: nat): nat {
    if given.Some? && given.value != 0 then given.value else otherwise
  }

  /** The chunked head. What it returns does not mention the chunk size: for every positive one the
      loss is that of all rows at once, and the gradients are the sums over all rows. */
  method HeadLoss(k: Kernels, b: Batch, totalRows: Option<nat>, chunk: Option<nat>, defaultChunk: nat)
    returns (g: Grads, dy: seq<Vec>)
    requires Shaped(b) && defaultChunk > 0
    ensures b.y == [] ==> g == Grads(0.0, seq(|b.w| * b.width, _ => 0.0), seq(b.width, _ => 0.0)) && dy == []
    ensures b.y != [] ==>
      var n := if totalRows == None || totalRows == Some(0) then |b.y| else totalRows.value;
      var total := n as real;
      g == GradsOf(RowsOf(k, b, total), total, 0, |b.y|) && dy == DyOf(RowsOf(k, b, total), 0, |b.y|)
  {
    var total, step := Or(totalRows, |b.y|) as real, Or(chunk, defaultChunk);
    if b.y == [] {
      return NoGrads(RowsOf(k, b, 1.0)), [];
    }
    g, dy := ChunkLoop(RowsOf(k, b, total), total, step);
  }

  /** The autograd reference's row, in its own where-form. */
  function ReferenceRow(k: Kernels, b: Batch, r: nat): real {
    var logits, a := Logits(k, b, r), Coord(b.adv, r);
    var lp := Coord(logits, ActionAt(b, r)) - k.lse(logits);
    if b.mode == Reinforce then a * lp
    else
      var ratio := k.exp(lp - Coord(b.oldLp, r));
      var first, second := ratio * a, Clamp(ratio) * a;
      if first <= second then first else second
  }

  lemma ReferenceRowIs(k: Kernels, b: Batch, r: nat)
    ensures ReferenceRow(k, b, r) == Objective(k, b, r)
  {
  }

  lemma {:induction false} SumSame(f: nat -> real, g: nat -> real, n: nat)
    requires forall r: nat :: f(r) == g(r)
    ensures SumTo(f, n) == SumTo(g, n)
  {
    if n > 0 {
      SumSame(f, g, n - 1);
    }
  }

  /** The reference loss on a range of rows is the loss the chunked head reports for it. */
  method LossReference(k: Kernels, b: Batch, total: real, lo: nat, hi: nat) returns (loss: real)
    requires Shaped(b) && lo <= hi <= |b.y| && total > 0.0
    ensures loss == GradsOf(RowsOf(k, b, total), total, lo, hi).loss
  {
    var f := (r: nat) => ReferenceRow(k, b, r);
    var sum := AddUp(f, lo, hi);
    loss := -sum / total;
    ReferenceLoss(k, b, total, lo, hi, f, sum);
  }

  lemma ReferenceLoss(k: Kernels, b: Batch, total: real, lo: nat, hi: nat, f: nat -> real, sum: real)
    requires lo <= hi && total > 0.0 && (forall r: nat :: f(r) == ReferenceRow(k, b, r)) && sum == SumRows(f, lo, hi)
    ensures -sum / total == GradsOf(RowsOf(k, b, total), total, lo, hi).loss
  {
    ReferenceSums(k, b, total, lo, hi, f);
    var m := RowsOf(k, b, total);
    LossIs(m, total, lo, hi, sum);
  }

  lemma LossIs(m: Rows, total: real, lo: nat, hi: nat, sum: real)
    requires lo <= hi && total > 0.0 && sum == SumRows(m.objective, lo, hi)
    ensures GradsOf(m, total, lo, hi).loss == -sum / total
  {
  }

  lemma ReferenceSums(k: Kernels, b: Batch, total: real, lo: nat, hi: nat, f: nat -> real)
    requires lo <= hi && total > 0.0 && forall r: nat :: f(r) == ReferenceRow(k, b, r)
    ensures SumRows(f, lo, hi) == SumRows(RowsOf(k, b, total).objective, lo, hi)
  {
    var g := RowsOf(k, b, total).objective;
    forall r: nat ensures f(r) == g(r) {
      ReferenceRowIs(k, b, r);
    }
    SumSame(f, g, lo);
    SumSame(f, g, hi);
  }
}
