/** The derivative of a real function, as the limit of its difference quotient. */
module Derivative {

  function Abs(x: real): real {
    if x < 0.0 then -x else x
  }

  function Quotient(f: real -> real, x: real, h: real): real
    requires h != 0.0
  {
    (f(x + h) - f(x)) / h
  }

  /** Steps shorter than `delta` have a quotient within `eps` of `s`. */
  ghost predicate Within(f: real -> real, x: real, s: real, eps: real, delta: real) {
    delta > 0.0 && forall h {:trigger Quotient(f, x, h)} :: h != 0.0 && Abs(h) < delta ==>
      Abs(Quotient(f, x, h) - s) < eps
  }

  ghost predicate Settles(f: real -> real, x: real, s: real, eps: real) {
    exists delta :: Within(f, x, s, eps, delta)
  }

  ghost predicate HasDerivative(f: real -> real, x: real, s: real) {
    forall eps :: eps > 0.0 ==> Settles(f, x, s, eps)
  }

  // ---------------------------------------------------------------- arithmetic

  lemma AbsProduct(a: real, b: real)
    ensures Abs(a * b) == Abs(a) * Abs(b)
  {
    if a < 0.0 && b >= 0.0 {
      assert a * b <= 0.0;
    } else if a >= 0.0 && b < 0.0 {
      assert a * b <= 0.0;
    } else {
      assert a * b >= 0.0;
    }
  }

  lemma QuotientTimes(f: real -> real, x: real, h: real)
    requires h != 0.0
    ensures Quotient(f, x, h) * h == f(x + h) - f(x)
  {
  }

  lemma DivideExact(s: real, h: real)
    requires h != 0.0
    ensures (s * h) / h == s
  {
  }

  lemma Smaller(x: real, y: real, c: real)
    requires 0.0 <= x < y && 0.0 < c
    ensures x * c < y * c
  {
    assert (y - x) * c > 0.0;
  }

  // ---------------------------------------------------------------- rules

  lemma DerivativesClose(f: real -> real, x: real, s: real, t: real, eps: real)
    requires HasDerivative(f, x, s) && HasDerivative(f, x, t) && eps > 0.0
    ensures Abs(s - t) < 2.0 * eps
  {
    assert Settles(f, x, s, eps) && Settles(f, x, t, eps);
    var d :| Within(f, x, s, eps, d);
    var e :| Within(f, x, t, eps, e);
    var h := if d < e then d / 2.0 else e / 2.0;
    assert Abs(Quotient(f, x, h) - s) < eps && Abs(Quotient(f, x, h) - t) < eps;
  }

  /** A function has at most one derivative at a point. */
  lemma DerivativeUnique(f: real -> real, x: real, s: real, t: real)
    requires HasDerivative(f, x, s) && HasDerivative(f, x, t)
    ensures s == t
  {
    if s != t {
      DerivativesClose(f, x, s, t, Abs(s - t) / 2.0);
    }
  }

  /** Within `rho` of `x`, the function is a line of slope `s`. */
  ghost predicate LinearNear(f: real -> real, x: real, s: real, rho: real) {
    rho > 0.0 && forall y {:trigger f(y)} :: Abs(y - x) < rho ==> f(y) == f(x) + s * (y - x)
  }

  lemma LineQuotient(f: real -> real, x: real, s: real, h: real)
    requires h != 0.0 && f(x + h) == f(x) + s * h
    ensures Quotient(f, x, h) == s
  {
    DivideExact(s, h);
  }

  lemma LinearHasDerivative(f: real -> real, x: real, s: real, rho: real)
    requires LinearNear(f, x, s, rho)
    ensures HasDerivative(f, x, s)
  {
    forall eps | eps > 0.0 ensures Settles(f, x, s, eps) {
      forall h | h != 0.0 && Abs(h) < rho ensures Abs(Quotient(f, x, h) - s) < eps {
        assert x + h - x == h;
        LineQuotient(f, x, s, h);
      }
      assert Within(f, x, s, eps, rho);
    }
  }

  /** Shifting the argument. */
  lemma ShiftedDerivative(f: real -> real, g: real -> real, b: real, x: real, s: real)
    requires HasDerivative(f, x - b, s) && forall y :: g(y) == f(y - b)
    ensures HasDerivative(g, x, s)
  {
    forall eps | eps > 0.0 ensures Settles(g, x, s, eps) {
      var x' := x - b;
      assert Settles(f, x', s, eps);
      var delta :| Within(f, x', s, eps, delta);
      forall h | h != 0.0 && Abs(h) < delta ensures Abs(Quotient(g, x, h) - s) < eps {
        assert (x + h) - b == x' + h;
        assert Quotient(g, x, h) == Quotient(f, x', h);
      }
      assert Within(g, x, s, eps, delta);
    }
  }

  /** A step of `h` changes the value by less than `rho`. */
  predicate Stays(f: real -> real, x: real, rho: real, h: real) {
    Abs(f(x + h) - f(x)) < rho
  }

  /** A differentiable function is continuous: its values stay within `rho` for short steps. */
  lemma Continuous(f: real -> real, x: real, s: real, rho: real) returns (delta: real)
    requires HasDerivative(f, x, s) && rho > 0.0
    ensures delta > 0.0 && forall h {:trigger Stays(f, x, rho, h)} :: Abs(h) < delta ==> Stays(f, x, rho, h)
  {
    assert Settles(f, x, s, 1.0);
    var d :| Within(f, x, s, 1.0, d);
    var bound := Abs(s) + 1.0;
    delta := if d < rho / bound then d else rho / bound;
    assert (rho / bound) * bound == rho;
    forall h | Abs(h) < delta ensures Stays(f, x, rho, h) {
      if h != 0.0 {
        StepBound(f, x, s, h, bound, rho);
      } else {
        assert x + h == x;
      }
    }
  }

  lemma StepBound(f: real -> real, x: real, s: real, h: real, bound: real, rho: real)
    requires h != 0.0 && Abs(Quotient(f, x, h) - s) < 1.0 && bound == Abs(s) + 1.0
    requires Abs(h) < rho / bound && (rho / bound) * bound == rho
    ensures Stays(f, x, rho, h)
  {
    var q, d := Quotient(f, x, h), f(x + h) - f(x);
    assert d == q * h by {
      QuotientTimes(f, x, h);
    }
    AbsProduct(q, h);
    Smaller(Abs(q), bound, Abs(h));
    Smaller(Abs(h), rho / bound, bound);
    assert Abs(q) * Abs(h) < bound * Abs(h) == Abs(h) * bound < rho;
  }

  lemma Shrinks(eps: real, c: real)
    requires eps > 0.0 && c > 0.0
    ensures eps / c > 0.0 && (eps / c) * c == eps
  {
  }

  lemma ScaledQuotient(f: real -> real, c: real -> real, x: real, t: real, h: real)
    requires h != 0.0 && c(x + h) - c(x) == t * (f(x + h) - f(x))
    ensures Quotient(c, x, h) == t * Quotient(f, x, h)
  {
    QuotientTimes(f, x, h);
    assert c(x + h) - c(x) == (t * Quotient(f, x, h)) * h;
    DivideExact(t * Quotient(f, x, h), h);
  }

  lemma ScaledError(q: real, s: real, t: real, small: real, eps: real)
    requires Abs(q - s) < small && small * (Abs(t) + 1.0) == eps
    ensures Abs(t * q - t * s) < eps
  {
    assert t * q - t * s == (q - s) * t;
    AbsProduct(q - s, t);
    assert Abs(q - s) * Abs(t) <= Abs(q - s) * (Abs(t) + 1.0);
    Smaller(Abs(q - s), small, Abs(t) + 1.0);
  }

  /** A step of length `h` forwards or backwards. */
  function Step(forwards: bool, h: real): real {
    if forwards then h else -h
  }

  /** Steps to one side shorter than `delta` have a quotient within `eps` of `s`. */
  ghost predicate WithinSide(f: real -> real, x: real, s: real, eps: real, delta: real, forwards: bool) {
    delta > 0.0 && forall h {:trigger Step(forwards, h)} :: 0.0 < h < delta ==>
      Abs(Quotient(f, x, Step(forwards, h)) - s) < eps
  }

  ghost predicate SettlesSide(f: real -> real, x: real, s: real, eps: real, forwards: bool) {
    exists delta :: WithinSide(f, x, s, eps, delta, forwards)
  }

  /** The derivative on one side. */
  ghost predicate HasSlope(f: real -> real, x: real, s: real, forwards: bool) {
    forall eps :: eps > 0.0 ==> SettlesSide(f, x, s, eps, forwards)
  }

  lemma SidesClose(f: real -> real, x: real, s: real, t: real, d: real, eps: real)
    requires HasSlope(f, x, s, true) && HasSlope(f, x, t, false) && HasDerivative(f, x, d) && eps > 0.0
    ensures Abs(s - t) < 4.0 * eps
  {
    assert Settles(f, x, d, eps) && SettlesSide(f, x, s, eps, true) && SettlesSide(f, x, t, eps, false);
    var p :| Within(f, x, d, eps, p);
    var q :| WithinSide(f, x, s, eps, q, true);
    var r :| WithinSide(f, x, t, eps, r, false);
    var h := Least(p, q, r) / 2.0;
    assert Step(true, h) == h && Step(false, h) == -h;
    assert Abs(Quotient(f, x, h) - d) < eps && Abs(Quotient(f, x, -h) - d) < eps;
  }

  /** A function with different slopes on its two sides has no derivative. */
  lemma NoDerivative(f: real -> real, x: real, s: real, t: real, d: real)
    requires HasSlope(f, x, s, true) && HasSlope(f, x, t, false) && s != t
    ensures !HasDerivative(f, x, d)
  {
    if HasDerivative(f, x, d) {
      SidesClose(f, x, s, t, d, Abs(s - t) / 4.0);
    }
  }

  function Least(a: real, b: real, c: real): real {
    if a <= b && a <= c then a else if b <= c then b else c
  }

  // ---------------------------------------------------------------- one side at a time

  predicate OnSide(y: real, x: real, forwards: bool) {
    if forwards then x < y else y < x
  }

  /** On one side, within `rho` of `x`, the function is a line of slope `s`. */
  ghost predicate LinearSide(f: real -> real, x: real, s: real, rho: real, forwards: bool) {
    rho > 0.0 && forall y {:trigger f(y)} :: OnSide(y, x, forwards) && Abs(y - x) < rho ==> f(y) == f(x) + s * (y - x)
  }

  /** A positive slope keeps short steps on their side. */
  lemma KeepsSide(f: real -> real, x: real, s: real, h: real, forwards: bool)
    requires s > 0.0 && h > 0.0 && Abs(Quotient(f, x, Step(forwards, h)) - s) < s
    ensures OnSide(f(x + Step(forwards, h)), f(x), forwards)
  {
    var q := Quotient(f, x, Step(forwards, h));
    QuotientTimes(f, x, Step(forwards, h));
    assert q > 0.0 && q * h > 0.0;
    assert q * Step(forwards, h) == if forwards then q * h else -(q * h);
  }

  /** The chain rule on one side of a kink, through a function that rises. */
  lemma ChainSide(
    f: real -> real, g: real -> real, c: real -> real, x: real, s: real, t: real, ts: real, rho: real, forwards: bool)
    requires HasDerivative(f, x, s) && s > 0.0 && LinearSide(g, f(x), t, rho, forwards)
    requires (forall y :: c(y) == g(f(y))) && ts == t * s
    ensures HasSlope(c, x, ts, forwards)
  {
    var near := Continuous(f, x, s, rho);
    forall eps | eps > 0.0 ensures SettlesSide(c, x, ts, eps, forwards) {
      var small := eps / (Abs(t) + 1.0);
      Shrinks(eps, Abs(t) + 1.0);
      forall h | 0.0 < h < near ensures Follows(f, c, x, s, ts, small, eps, Step(forwards, h)) {
        assert Abs(Step(forwards, h)) < near;
        assert Stays(f, x, rho, Step(forwards, h));
        SideStep(f, g, c, x, s, t, ts, rho, h, small, eps, forwards);
      }
      SideSettles(f, c, x, s, ts, near, small, eps, forwards);
    }
  }

  /** If the quotient of `f` is close to `s`, that of `c` is close to `ts`. */
  ghost predicate Follows(
    f: real -> real, c: real -> real, x: real, s: real, ts: real, small: real, eps: real, step: real)
  {
    step != 0.0 && Abs(Quotient(f, x, step) - s) < s && Abs(Quotient(f, x, step) - s) < small ==>
      Abs(Quotient(c, x, step) - ts) < eps
  }

  lemma SideSettles(
    f: real -> real, c: real -> real, x: real, s: real, ts: real, near: real, small: real, eps: real, forwards: bool)
    requires HasDerivative(f, x, s) && s > 0.0 && near > 0.0 && small > 0.0
    requires forall h {:trigger Step(forwards, h)} :: 0.0 < h < near ==>
      Follows(f, c, x, s, ts, small, eps, Step(forwards, h))
    ensures SettlesSide(c, x, ts, eps, forwards)
  {
    assert Settles(f, x, s, small) && Settles(f, x, s, s);
    var d :| Within(f, x, s, small, d);
    var e :| Within(f, x, s, s, e);
    var delta := Least(d, e, near);
    forall h | 0.0 < h < delta ensures Abs(Quotient(c, x, Step(forwards, h)) - ts) < eps {
      var step := Step(forwards, h);
      assert Follows(f, c, x, s, ts, small, eps, step);
      assert Abs(step) == h && Abs(Quotient(f, x, step) - s) < s && Abs(Quotient(f, x, step) - s) < small;
    }
    assert WithinSide(c, x, ts, eps, delta, forwards);
  }

  lemma SideStep(
    f: real -> real, g: real -> real, c: real -> real, x: real, s: real, t: real, ts: real, rho: real, h: real,
    small: real, eps: real, forwards: bool)
    requires ts == t * s && LinearSide(g, f(x), t, rho, forwards) && forall y :: c(y) == g(f(y))
    requires s > 0.0 && h > 0.0 && Stays(f, x, rho, Step(forwards, h)) && small * (Abs(t) + 1.0) == eps
    ensures Follows(f, c, x, s, ts, small, eps, Step(forwards, h))
  {
    var step := Step(forwards, h);
    if Abs(Quotient(f, x, step) - s) < s && Abs(Quotient(f, x, step) - s) < small {
      KeepsSide(f, x, s, h, forwards);
      SideRise(f, g, c, x, t, rho, step, forwards);
      ScaledClose(f, c, x, s, t, ts, step, small, eps);
    }
  }

  lemma SideRise(
    f: real -> real, g: real -> real, c: real -> real, x: real, t: real, rho: real, step: real, forwards: bool)
    requires LinearSide(g, f(x), t, rho, forwards) && forall y :: c(y) == g(f(y))
    requires Stays(f, x, rho, step) && OnSide(f(x + step), f(x), forwards)
    ensures c(x + step) - c(x) == t * (f(x + step) - f(x))
  {
  }

  lemma ScaledClose(
    f: real -> real, c: real -> real, x: real, s: real, t: real, ts: real, h: real, small: real, eps: real)
    requires h != 0.0 && ts == t * s && c(x + h) - c(x) == t * (f(x + h) - f(x))
    requires Abs(Quotient(f, x, h) - s) < small && small * (Abs(t) + 1.0) == eps
    ensures Abs(Quotient(c, x, h) - ts) < eps
  {
    ScaledQuotient(f, c, x, t, h);
    ScaledError(Quotient(f, x, h), s, t, small, eps);
  }

  // ---------------------------------------------------------------- by the error of the line

  /** How far a step strays from the line of slope `s`. */
  function Stray(f: real -> real, x: real, s: real, h: real): real {
    f(x + h) - f(x) - s * h
  }

  predicate Hugs(f: real -> real, x: real, s: real, eps: real, h: real) {
    Abs(Stray(f, x, s, h)) <= eps * Abs(h)
  }

  ghost predicate HugsNear(f: real -> real, x: real, s: real, eps: real, delta: real) {
    delta > 0.0 && forall h {:trigger Hugs(f, x, s, eps, h)} :: Abs(h) < delta ==> Hugs(f, x, s, eps, h)
  }

  ghost predicate Clings(f: real -> real, x: real, s: real, eps: real) {
    exists delta :: HugsNear(f, x, s, eps, delta)
  }

  lemma StrayIs(f: real -> real, x: real, s: real, h: real)
    requires h != 0.0
    ensures Abs(Stray(f, x, s, h)) == Abs(Quotient(f, x, h) - s) * Abs(h)
  {
    var q := Quotient(f, x, h);
    QuotientTimes(f, x, h);
    assert Stray(f, x, s, h) == (q - s) * h;
    AbsProduct(q - s, h);
  }

  lemma AtMostTimes(x: real, y: real, c: real)
    requires x <= y && 0.0 <= c
    ensures x * c <= y * c
  {
    assert (y - x) * c >= 0.0;
  }

  lemma DerivativeClings(f: real -> real, x: real, s: real, eps: real)
    requires HasDerivative(f, x, s) && eps > 0.0
    ensures Clings(f, x, s, eps)
  {
    assert Settles(f, x, s, eps);
    var delta :| Within(f, x, s, eps, delta);
    forall h | Abs(h) < delta ensures Hugs(f, x, s, eps, h) {
      if h != 0.0 {
        StrayIs(f, x, s, h);
        AtMostTimes(Abs(Quotient(f, x, h) - s), eps, Abs(h));
      } else {
        assert x + h == x;
      }
    }
    assert HugsNear(f, x, s, eps, delta);
  }

  lemma HugsIsClose(f: real -> real, x: real, s: real, eps: real, h: real)
    requires h != 0.0 && eps > 0.0 && Hugs(f, x, s, eps / 2.0, h)
    ensures Abs(Quotient(f, x, h) - s) < eps
  {
    StrayIs(f, x, s, h);
    if Abs(Quotient(f, x, h) - s) >= eps {
      AtMostTimes(eps, Abs(Quotient(f, x, h) - s), Abs(h));
      Smaller(eps / 2.0, eps, Abs(h));
    }
  }

  /** A function has a derivative where it clings to a line. */
  lemma ClingsHasDerivative(f: real -> real, x: real, s: real)
    requires forall eps {:trigger Clings(f, x, s, eps)} :: eps > 0.0 ==> Clings(f, x, s, eps)
    ensures HasDerivative(f, x, s)
  {
    forall eps | eps > 0.0 ensures Settles(f, x, s, eps) {
      assert Clings(f, x, s, eps / 2.0);
      var delta :| HugsNear(f, x, s, eps / 2.0, delta);
      forall h | h != 0.0 && Abs(h) < delta ensures Abs(Quotient(f, x, h) - s) < eps {
        assert Hugs(f, x, s, eps / 2.0, h);
        HugsIsClose(f, x, s, eps, h);
      }
      assert Within(f, x, s, eps, delta);
    }
  }

  // ---------------------------------------------------------------- the chain rule

  lemma ChainArithmetic(a: real, k: real, b: real, s: real, t: real, m: real, small: real, tiny: real, eps: real)
    requires m >= 0.0 && small >= 0.0 && 0.0 <= tiny <= 1.0
    requires a <= small * k && k <= Abs(s) * m + b && b <= tiny * m
    requires small * (Abs(s) + 1.0) <= eps / 2.0 && Abs(t) * tiny <= eps / 2.0
    ensures a + Abs(t) * b <= eps * m
  {
    assert k <= (Abs(s) + 1.0) * m by {
      AtMostTimes(tiny, 1.0, m);
    }
    AtMostTimes(k, (Abs(s) + 1.0) * m, small);
    assert a <= (small * (Abs(s) + 1.0)) * m;
    AtMostTimes(small * (Abs(s) + 1.0), eps / 2.0, m);
    AtMostTimes(b, tiny * m, Abs(t));
    assert Abs(t) * b <= (Abs(t) * tiny) * m;
    AtMostTimes(Abs(t) * tiny, eps / 2.0, m);
  }

  lemma Triangle(a: real, b: real)
    ensures Abs(a + b) <= Abs(a) + Abs(b)
  {
  }

  lemma Expand(t: real, k: real, s: real, h: real, e: real, ts: real)
    requires e == k - s * h && ts == t * s
    ensures t * e == t * k - ts * h
  {
    assert t * (s * h) == (t * s) * h;
  }

  /** How the errors of the two functions are spent. */
  ghost predicate Budget(s: real, t: real, small: real, tiny: real, eps: real) {
    small >= 0.0 && 0.0 <= tiny <= 1.0 && small * (Abs(s) + 1.0) <= eps / 2.0 && Abs(t) * tiny <= eps / 2.0
  }

  /** A step `h` of the inner function strays by `e`, and the step `k` it makes in the outer by `a`. */
  predicate Strays(a: real, k: real, e: real, h: real, s: real, small: real, tiny: real) {
    k == s * h + e && Abs(a) <= small * Abs(k) && Abs(e) <= tiny * Abs(h)
  }

  lemma ChainReal(a: real, k: real, e: real, h: real, s: real, t: real, small: real, tiny: real, eps: real)
    requires Strays(a, k, e, h, s, small, tiny) && Budget(s, t, small, tiny, eps)
    ensures Abs(a + t * e) <= eps * Abs(h)
  {
    Triangle(a, t * e);
    AbsProduct(t, e);
    Triangle(s * h, e);
    AbsProduct(s, h);
    ChainArithmetic(Abs(a), Abs(k), Abs(e), s, t, Abs(h), small, tiny, eps);
  }

  lemma StrayThrough(f: real -> real, g: real -> real, c: real -> real, x: real, s: real, t: real, ts: real, h: real)
    requires ts == t * s && c(x) == g(f(x)) && c(x + h) == g(f(x + h))
    ensures Stray(c, x, ts, h) == Stray(g, f(x), t, f(x + h) - f(x)) + t * Stray(f, x, s, h)
  {
    var k := f(x + h) - f(x);
    assert f(x) + k == f(x + h);
    Expand(t, k, s, h, Stray(f, x, s, h), ts);
  }

  lemma ChainStrays(f: real -> real, g: real -> real, x: real, s: real, t: real, h: real, small: real, tiny: real)
    requires Hugs(f, x, s, tiny, h) && Hugs(g, f(x), t, small, f(x + h) - f(x))
    ensures Strays(Stray(g, f(x), t, f(x + h) - f(x)), f(x + h) - f(x), Stray(f, x, s, h), h, s, small, tiny)
  {
  }

  lemma HugsBy(c: real -> real, x: real, ts: real, eps: real, h: real, y: real)
    requires Stray(c, x, ts, h) == y && Abs(y) <= eps * Abs(h)
    ensures Hugs(c, x, ts, eps, h)
  {
  }

  /** One step through both functions. */
  lemma ChainHugs(
    f: real -> real, g: real -> real, c: real -> real, x: real, s: real, t: real, ts: real, h: real, small: real,
    tiny: real, eps: real)
    requires ts == t * s && c(x) == g(f(x)) && c(x + h) == g(f(x + h))
    requires Hugs(f, x, s, tiny, h) && Hugs(g, f(x), t, small, f(x + h) - f(x)) && Budget(s, t, small, tiny, eps)
    ensures Hugs(c, x, ts, eps, h)
  {
    var k, e := f(x + h) - f(x), Stray(f, x, s, h);
    var a := Stray(g, f(x), t, k);
    var y := a + t * e;
    assert Strays(a, k, e, h, s, small, tiny) by {
      ChainStrays(f, g, x, s, t, h, small, tiny);
    }
    assert Abs(y) <= eps * Abs(h) by {
      ChainReal(a, k, e, h, s, t, small, tiny, eps);
    }
    assert Stray(c, x, ts, h) == y by {
      StrayThrough(f, g, c, x, s, t, ts, h);
    }
    HugsBy(c, x, ts, eps, h, y);
  }

  lemma Share(half: real, m: real) returns (part: real)
    requires half > 0.0 && m >= 0.0
    ensures part > 0.0 && part * (m + 1.0) == half && m * part <= half
  {
    part := half / (m + 1.0);
    Shrinks(half, m + 1.0);
    assert part * (m + 1.0) == m * part + part;
  }

  /** Errors small enough to be spent, whatever the two slopes. */
  lemma Spend(s: real, t: real, eps: real) returns (small: real, tiny: real)
    requires eps > 0.0
    ensures small > 0.0 && tiny > 0.0 && Budget(s, t, small, tiny, eps)
  {
    small := Share(eps / 2.0, Abs(s));
    var part := Share(eps / 2.0, Abs(t));
    tiny := if part < 1.0 then part else 1.0;
    AtMostTimes(tiny, part, Abs(t));
  }

  lemma ChainClings(
    f: real -> real, g: real -> real, c: real -> real, x: real, s: real, t: real, ts: real, eps: real)
    requires HasDerivative(f, x, s) && HasDerivative(g, f(x), t) && (forall y :: c(y) == g(f(y))) && ts == t * s
    requires eps > 0.0
    ensures Clings(c, x, ts, eps)
  {
    var small, least := Spend(s, t, eps);
    DerivativeClings(g, f(x), t, small);
    DerivativeClings(f, x, s, least);
    var rho :| HugsNear(g, f(x), t, small, rho);
    var d :| HugsNear(f, x, s, least, d);
    var near := Continuous(f, x, s, rho);
    var delta := if d < near then d else near;
    forall h | Abs(h) < delta ensures Hugs(c, x, ts, eps, h) {
      assert Stays(f, x, rho, h) && Hugs(f, x, s, least, h) && Hugs(g, f(x), t, small, f(x + h) - f(x));
      ChainHugs(f, g, c, x, s, t, ts, h, small, least, eps);
    }
    assert HugsNear(c, x, ts, eps, delta);
  }

  /** The chain rule. */
  lemma ChainRule(f: real -> real, g: real -> real, c: real -> real, x: real, s: real, t: real, ts: real)
    requires HasDerivative(f, x, s) && HasDerivative(g, f(x), t) && (forall y :: c(y) == g(f(y))) && ts == t * s
    ensures HasDerivative(c, x, ts)
  {
    forall eps | eps > 0.0 ensures Clings(c, x, ts, eps) {
      ChainClings(f, g, c, x, s, t, ts, eps);
    }
    ClingsHasDerivative(c, x, ts);
  }

  // ---------------------------------------------------------------- sums

  lemma SumHugs(
    f: real -> real, g: real -> real, c: real -> real, x: real, s: real, t: real, u: real, h: real, eps: real)
    requires c(x) == f(x) + g(x) && c(x + h) == f(x + h) + g(x + h) && u == s + t
    requires Hugs(f, x, s, eps / 2.0, h) && Hugs(g, x, t, eps / 2.0, h)
    ensures Hugs(c, x, u, eps, h)
  {
    assert Stray(c, x, u, h) == Stray(f, x, s, h) + Stray(g, x, t, h);
    Triangle(Stray(f, x, s, h), Stray(g, x, t, h));
  }

  /** The derivative of a sum. */
  lemma SumRule(f: real -> real, g: real -> real, c: real -> real, x: real, s: real, t: real, u: real)
    requires HasDerivative(f, x, s) && HasDerivative(g, x, t) && (forall y :: c(y) == f(y) + g(y)) && u == s + t
    ensures HasDerivative(c, x, u)
  {
    forall eps | eps > 0.0 ensures Clings(c, x, u, eps) {
      DerivativeClings(f, x, s, eps / 2.0);
      DerivativeClings(g, x, t, eps / 2.0);
      var d :| HugsNear(f, x, s, eps / 2.0, d);
      var e :| HugsNear(g, x, t, eps / 2.0, e);
      var delta := if d < e then d else e;
      forall h | Abs(h) < delta ensures Hugs(c, x, u, eps, h) {
        assert Hugs(f, x, s, eps / 2.0, h) && Hugs(g, x, t, eps / 2.0, h);
        SumHugs(f, g, c, x, s, t, u, h, eps);
      }
      assert HugsNear(c, x, u, eps, delta);
    }
    ClingsHasDerivative(c, x, u);
  }

  /** The derivative of a line. */
  lemma LineRule(f: real -> real, x: real, s: real)
    requires forall y :: f(y) == f(x) + s * (y - x)
    ensures HasDerivative(f, x, s)
  {
    LinearHasDerivative(f, x, s, 1.0);
  }

  /** The derivative of a multiple. */
  lemma ScaleRule(f: real -> real, c: real -> real, x: real, s: real, t: real, ts: real)
    requires HasDerivative(f, x, s) && (forall y :: c(y) == t * f(y)) && ts == t * s
    ensures HasDerivative(c, x, ts)
  {
    var g := (y: real) => t * y;
    LineRule(g, f(x), t);
    ChainRule(f, g, c, x, s, t, ts);
  }

  // ---------------------------------------------------------------- products

  lemma SquareHugs(f: real -> real, x: real, h: real, eps: real)
    requires Abs(h) < eps && f(x) == x * x && f(x + h) == (x + h) * (x + h)
    ensures Hugs(f, x, 2.0 * x, eps, h)
  {
    assert Stray(f, x, 2.0 * x, h) == h * h;
    AbsProduct(h, h);
    AtMostTimes(Abs(h), eps, Abs(h));
  }

  lemma SquareRule(f: real -> real, x: real, d: real)
    requires d == 2.0 * x && forall y :: f(y) == y * y
    ensures HasDerivative(f, x, d)
  {
    forall eps | eps > 0.0 ensures Clings(f, x, d, eps) {
      forall h | Abs(h) < eps ensures Hugs(f, x, d, eps, h) {
        SquareHugs(f, x, h, eps);
      }
      assert HugsNear(f, x, d, eps, eps);
    }
    ClingsHasDerivative(f, x, d);
  }

  /** The square of a function. */
  lemma Squared(f: real -> real, x: real, s: real, d: real, ds: real) returns (c: real -> real)
    requires HasDerivative(f, x, s) && d == 2.0 * f(x) && ds == d * s
    ensures (forall y :: c(y) == f(y) * f(y)) && HasDerivative(c, x, ds)
  {
    var square := (y: real) => y * y;
    c := (y: real) => square(f(y));
    SquareRule(square, f(x), d);
    ChainRule(f, square, c, x, s, d, ds);
  }

  lemma Multiple(f: real -> real, x: real, s: real, t: real, ts: real) returns (c: real -> real)
    requires HasDerivative(f, x, s) && ts == t * s
    ensures (forall y :: c(y) == t * f(y)) && HasDerivative(c, x, ts)
  {
    c := (y: real) => t * f(y);
    ScaleRule(f, c, x, s, t, ts);
  }

  lemma Added(f: real -> real, g: real -> real, x: real, s: real, t: real, u: real) returns (c: real -> real)
    requires HasDerivative(f, x, s) && HasDerivative(g, x, t) && u == s + t
    ensures (forall y :: c(y) == f(y) + g(y)) && HasDerivative(c, x, u)
  {
    c := (y: real) => f(y) + g(y);
    SumRule(f, g, c, x, s, t, u);
  }

  /** Half the square of a function. */
  lemma HalfSquare(f: real -> real, x: real, s: real, fs: real) returns (c: real -> real)
    requires HasDerivative(f, x, s) && fs == f(x) * s
    ensures (forall y :: c(y) == 0.5 * (f(y) * f(y))) && HasDerivative(c, x, fs)
  {
    var square := Squared(f, x, s, 2.0 * f(x), 2.0 * fs);
    c := Multiple(square, x, 2.0 * fs, 0.5, fs);
  }

  lemma Polarize(p: real, q: real)
    ensures p * q == 0.5 * ((p + q) * (p + q)) + (-1.0 * (0.5 * (p * p)) + -1.0 * (0.5 * (q * q)))
  {
  }

  lemma PolarSlope(f: real, g: real, s: real, t: real, u: real, fs: real, gt: real, both: real)
    requires u == s * g + f * t && fs == f * s && gt == g * t && both == (f + g) * (s + t)
    ensures u == both + (-1.0 * fs + -1.0 * gt)
  {
  }

  /** The product is what half the square of the sum has over the half squares. */
  lemma PolarParts(f: real -> real, g: real -> real, x: real, s: real, t: real, fs: real, gt: real)
    returns (rest: real -> real)
    requires HasDerivative(f, x, s) && HasDerivative(g, x, t) && fs == f(x) * s && gt == g(x) * t
    ensures HasDerivative(rest, x, -1.0 * fs + -1.0 * gt)
    ensures forall y :: rest(y) == -1.0 * (0.5 * (f(y) * f(y))) + -1.0 * (0.5 * (g(y) * g(y)))
  {
    var p := HalfSquare(f, x, s, fs);
    var q := HalfSquare(g, x, t, gt);
    var one := Multiple(p, x, fs, -1.0, -1.0 * fs);
    var two := Multiple(q, x, gt, -1.0, -1.0 * gt);
    rest := Added(one, two, x, -1.0 * fs, -1.0 * gt, -1.0 * fs + -1.0 * gt);
  }

  lemma SumSquare(f: real -> real, g: real -> real, x: real, s: real, t: real, st: real) returns (both: real -> real)
    requires HasDerivative(f, x, s) && HasDerivative(g, x, t) && st == (f(x) + g(x)) * (s + t)
    ensures HasDerivative(both, x, st) && forall y :: both(y) == 0.5 * ((f(y) + g(y)) * (f(y) + g(y)))
  {
    var sum := Added(f, g, x, s, t, s + t);
    both := HalfSquare(sum, x, s + t, st);
  }

  lemma Polarized(f: real -> real, g: real -> real, c: real -> real, both: real -> real, rest: real -> real, y: real)
    requires c(y) == f(y) * g(y) && both(y) == 0.5 * ((f(y) + g(y)) * (f(y) + g(y)))
    requires rest(y) == -1.0 * (0.5 * (f(y) * f(y))) + -1.0 * (0.5 * (g(y) * g(y)))
    ensures c(y) == both(y) + rest(y)
  {
    Polarize(f(y), g(y));
  }

  /** The derivative of a product. */
  lemma ProductRule(f: real -> real, g: real -> real, c: real -> real, x: real, s: real, t: real, u: real)
    requires HasDerivative(f, x, s) && HasDerivative(g, x, t) && (forall y :: c(y) == f(y) * g(y))
    requires u == s * g(x) + f(x) * t
    ensures HasDerivative(c, x, u)
  {
    var fs, gt, st := f(x) * s, g(x) * t, (f(x) + g(x)) * (s + t);
    var both := SumSquare(f, g, x, s, t, st);
    var rest := PolarParts(f, g, x, s, t, fs, gt);
    forall y: real ensures c(y) == both(y) + rest(y) {
      Polarized(f, g, c, both, rest, y);
    }
    assert u == st + (-1.0 * fs + -1.0 * gt) by {
      PolarSlope(f(x), g(x), s, t, u, fs, gt, st);
    }
    SumRule(both, rest, c, x, st, -1.0 * fs + -1.0 * gt, u);
  }

  function LineAt(at: real, y: real, w: real, x: real): real {
    at + y * (x - w)
  }

  lemma LineAtHasDerivative(line: real -> real, at: real, y: real, w: real)
    requires forall x :: line(x) == LineAt(at, y, w, x)
    ensures line(w) == at && HasDerivative(line, w, y)
  {
    assert line(w) == LineAt(at, y, w, w) == at;
    LineRule(line, w, y);
  }

  /** The chain rule into a line. */
  lemma AlongLine(f: real -> real, c: real -> real, at: real, y: real, w: real, d: real, dy: real)
    requires HasDerivative(f, at, d) && (forall x :: c(x) == f(LineAt(at, y, w, x))) && dy == d * y
    ensures HasDerivative(c, w, dy)
  {
    var line := (x: real) => LineAt(at, y, w, x);
    LineAtHasDerivative(line, at, y, w);
    ChainRule(line, f, c, w, y, d, dy);
  }
}
