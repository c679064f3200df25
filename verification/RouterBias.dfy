/** The aux-free balance bias of the DeepSeek-V3 reference model: forwards add up assignment counts,
    and once per step the sign rule moves every bias towards the mean load and clears them. */
module RouterBias {
  import opened Wrappers

  type Counts = seq<nat>

  function Count(ids: seq<nat>, e: nat): nat {
    if ids == [] then 0 else Count(ids[..|ids| - 1], e) + if ids[|ids| - 1] == e then 1 else 0
  }

  function Total(c: Counts): nat {
    if c == [] then 0 else Total(c[..|c| - 1]) + c[|c| - 1]
  }

  function Histogram(ids: seq<nat>, experts: nat): (c: Counts)
    ensures |c| == experts && forall e :: 0 <= e < experts ==> c[e] == Count(ids, e)
  {
    seq(experts, e requires 0 <= e < experts => Count(ids, e))
  }

  method Bincount(ids: seq<nat>, experts: nat) returns (c: Counts)
    requires forall i :: 0 <= i < |ids| ==> ids[i] < experts
    ensures c == Histogram(ids, experts)
  {
    var a := new nat[experts](_ => 0);
    for i := 0 to |ids|
      invariant forall e :: 0 <= e < experts ==> a[e] == Count(ids[..i], e)
    {
      assert ids[..i + 1][..i] == ids[..i];
      a[ids[i]] := a[ids[i]] + 1;
    }
    assert ids[..|ids|] == ids;
    c := a[..];
  }

  function Added(a: Counts, b: Counts): (c: Counts)
    requires |a| == |b|
    ensures |c| == |a| && forall e :: 0 <= e < |a| ==> c[e] == a[e] + b[e]
  {
    seq(|a|, e requires 0 <= e < |a| => a[e] + b[e])
  }

  function Zeros(n: nat): (c: Counts)
    ensures |c| == n && forall e :: 0 <= e < n ==> c[e] == 0
  {
    seq(n, _ => 0)
  }

  function Sign(x: real): real {
    if x > 0.0 then 1.0 else if x < 0.0 then -1.0 else 0.0
  }

  function Mean(c: Counts): real
    requires c != []
  {
    Total(c) as real / |c| as real
  }

  /** The sign rule. */
  function Moved(bias: seq<real>, c: Counts, speed: real): (moved: seq<real>)
    requires |bias| == |c|
    ensures |moved| == |bias|
    ensures forall e :: 0 <= e < |bias| ==> moved[e] == bias[e] + speed * Sign(Mean(c) - c[e] as real)
  {
    seq(|bias|, e requires 0 <= e < |bias| => bias[e] + speed * Sign(Mean(c) - c[e] as real))
  }

  // ---------------------------------------------------------------- the layer as an object

  datatype State = State(steps: Option<Counts>, last: Option<Counts>, bias: seq<real>)

  datatype Event = Forward(ids: seq<nat>) | Update(speed: real)

  ghost predicate Shaped(s: State, experts: nat) {
    && |s.bias| == experts
    && (s.steps.Some? ==> |s.steps.value| == experts) && (s.last.Some? ==> |s.last.value| == experts)
  }

  function AfterForward(s: State, ids: seq<nat>): State
    requires Shaped(s, |s.bias|)
  {
    var c := Histogram(ids, |s.bias|);
    State(Some(if s.steps.None? then c else Added(s.steps.value, c)), Some(c), s.bias)
  }

  function AfterUpdate(s: State, speed: real): State
    requires Shaped(s, |s.bias|) && s.steps.Some?
  {
    State(Some(Zeros(|s.bias|)), s.last, Moved(s.bias, s.steps.value, speed))
  }

  datatype UpdateError = NothingCounted

  /** The counting part of `MoEMLP`. */
  class Balancer {
    var steps: Option<Counts>
    var last: Option<Counts>
    var bias: seq<real>

    function Value(): State
      reads this
    {
      State(steps, last, bias)
    }

    constructor (experts: nat)
      ensures Value() == State(None, None, seq(experts, _ => 0.0)) && Shaped(Value(), experts)
    {
      steps, last, bias := None, None, seq(experts, _ => 0.0);
    }

    method CountForward(ids: seq<nat>)
      requires Shaped(Value(), |bias|) && forall i :: 0 <= i < |ids| ==> ids[i] < |bias|
      modifies this
      ensures Value() == AfterForward(old(Value()), ids) && Shaped(Value(), |bias|)
    {
      var c := Bincount(ids, |bias|);
      last := Some(c);
      if steps.None? {
        steps := Some(c);
      } else {
        steps := Some(Added(steps.value, c));
      }
    }

    method ApplyBiasUpdate(speed: real) returns (r: Outcome<UpdateError>)
      requires Shaped(Value(), |bias|)
      modifies this
      ensures r.Pass? <==> old(steps).Some?
      ensures r.Pass? ==> Value() == AfterUpdate(old(Value()), speed)
      ensures r.Pass? ==> forall e :: 0 <= e < |bias| ==>
        Steered(old(bias[e]), bias[e], old(steps.value), speed, e)
      ensures !r.Pass? ==> Value() == old(Value())
      ensures Shaped(Value(), |bias|)
    {
      if steps.None? {
        return Refuse(NothingCounted);
      }
      forall e | 0 <= e < |bias| ensures Steered(bias[e], Moved(bias, steps.value, speed)[e], steps.value, speed, e) {
        MoveIsSteered(bias, steps.value, speed, e);
      }
      bias := Moved(bias, steps.value, speed);
      steps := Some(Zeros(|bias|));
      return Pass;
    }
  }

  // ---------------------------------------------------------------- whole runs

  /** The state after a run, if no update came before the first forward. */
  function Run(events: seq<Event>, start: State): (s: Option<State>)
    requires Shaped(start, |start.bias|)
    ensures s.Some? ==> Shaped(s.value, |start.bias|)
  {
    if events == [] then Some(start)
    else
      var before := Run(events[..|events| - 1], start);
      if before.None? then None
      else match events[|events| - 1]
        case Forward(ids) => Some(AfterForward(before.value, ids))
        case Update(speed) => if before.value.steps.None? then None else Some(AfterUpdate(before.value, speed))
  }

  function Initial(bias: seq<real>): State {
    State(None, None, bias)
  }

  /** Everything assigned since the last update. */
  function Since(events: seq<Event>): seq<nat> {
    if events == [] then []
    else match events[|events| - 1]
      case Forward(ids) => Since(events[..|events| - 1]) + ids
      case Update(_) => []
  }

  lemma {:induction false} CountConcat(a: seq<nat>, b: seq<nat>, e: nat)
    ensures Count(a + b, e) == Count(a, e) + Count(b, e)
  {
    if b == [] {
      assert a + b == a;
    } else {
      CountConcat(a, b[..|b| - 1], e);
      assert (a + b)[..|a + b| - 1] == a + b[..|b| - 1];
    }
  }

  lemma HistogramConcat(a: seq<nat>, b: seq<nat>, experts: nat)
    ensures Histogram(a + b, experts) == Added(Histogram(a, experts), Histogram(b, experts))
  {
    forall e | 0 <= e < experts
      ensures Histogram(a + b, experts)[e] == Histogram(a, experts)[e] + Histogram(b, experts)[e]
    {
      CountConcat(a, b, e);
    }
  }

  /** Over any interleaving of forwards and updates, the aggregate is the histogram of what was
      assigned since the last update. */
  lemma {:induction false} StepsAreSinceUpdate(events: seq<Event>, bias: seq<real>)
    requires Run(events, Initial(bias)).Some? && Run(events, Initial(bias)).value.steps.Some?
    ensures Run(events, Initial(bias)).value.steps.value == Histogram(Since(events), |bias|)
  {
    if events != [] {
      var rest := events[..|events| - 1];
      var before := Run(rest, Initial(bias)).value;
      match events[|events| - 1]
      case Forward(ids) =>
        if before.steps.Some? {
          StepsAreSinceUpdate(rest, bias);
          HistogramConcat(Since(rest), ids, |bias|);
        } else {
          NothingSince(rest, bias);
          assert [] + ids == ids;
        }
      case Update(_) =>
    }
  }

  lemma {:induction false} NothingSince(events: seq<Event>, bias: seq<real>)
    requires Run(events, Initial(bias)).Some? && Run(events, Initial(bias)).value.steps.None?
    ensures events == []
  {
  }

  lemma {:induction false} TotalAdded(a: Counts, b: Counts)
    requires |a| == |b|
    ensures Total(Added(a, b)) == Total(a) + Total(b)
  {
    if a != [] {
      var n := |a| - 1;
      TotalAdded(a[..n], b[..n]);
      assert Added(a, b)[..n] == Added(a[..n], b[..n]);
    }
  }

  lemma {:induction false} OneHit(x: nat, experts: nat)
    ensures Total(Histogram([x], experts)) == if x < experts then 1 else 0
  {
    if experts > 0 {
      var c := Histogram([x], experts);
      assert c[..experts - 1] == Histogram([x], experts - 1);
      OneHit(x, experts - 1);
      assert Count([x], experts - 1) == Count([], experts - 1) + if x == experts - 1 then 1 else 0;
    }
  }

  lemma {:induction false} TotalZeros(n: nat)
    ensures Total(Zeros(n)) == 0
  {
    if n > 0 {
      TotalZeros(n - 1);
      assert Zeros(n)[..n - 1] == Zeros(n - 1);
    }
  }

  /** Every assignment is counted once. */
  lemma {:induction false} HistogramTotal(ids: seq<nat>, experts: nat)
    requires forall i :: 0 <= i < |ids| ==> ids[i] < experts
    ensures Total(Histogram(ids, experts)) == |ids|
  {
    if ids == [] {
      TotalZeros(experts);
      assert Histogram(ids, experts) == Zeros(experts);
    } else {
      var rest, last := ids[..|ids| - 1], ids[|ids| - 1];
      HistogramTotal(rest, experts);
      OneHit(last, experts);
      assert ids == rest + [last];
      HistogramConcat(rest, [last], experts);
      TotalAdded(Histogram(rest, experts), Histogram([last], experts));
    }
  }

  /** Every forward routes whole tokens, each to `k` of the experts. */
  ghost predicate RoutesTokens(events: seq<Event>, k: nat, experts: nat)
    requires k > 0
  {
    forall i :: 0 <= i < |events| && events[i].Forward? ==>
      |events[i].ids| % k == 0 && forall j :: 0 <= j < |events[i].ids| ==> events[i].ids[j] < experts
  }

  /** How many tokens were routed since the last update. */
  function TokensSince(events: seq<Event>, k: nat): nat
    requires k > 0
  {
    if events == [] then 0
    else match events[|events| - 1]
      case Forward(ids) => TokensSince(events[..|events| - 1], k) + |ids| / k
      case Update(_) => 0
  }

  lemma {:induction false} SinceIsTokens(events: seq<Event>, k: nat, experts: nat)
    requires k > 0 && RoutesTokens(events, k, experts)
    ensures |Since(events)| == k * TokensSince(events, k)
    ensures forall j :: 0 <= j < |Since(events)| ==> Since(events)[j] < experts
  {
    if events != [] {
      var n := |events| - 1;
      SinceIsTokens(events[..n], k, experts);
      if events[n].Forward? {
        var ids := events[n].ids;
        assert |ids| == k * (|ids| / k);
        assert k * (TokensSince(events[..n], k) + |ids| / k) == k * TokensSince(events[..n], k) + k * (|ids| / k);
      }
    }
  }

  /** Over any run, the aggregated counts total `k` times the tokens routed since the last update. */
  lemma StepsTotal(events: seq<Event>, bias: seq<real>, k: nat)
    requires k > 0 && RoutesTokens(events, k, |bias|)
    requires Run(events, Initial(bias)).Some? && Run(events, Initial(bias)).value.steps.Some?
    ensures Total(Run(events, Initial(bias)).value.steps.value) == k * TokensSince(events, k)
  {
    StepsAreSinceUpdate(events, bias);
    SinceIsTokens(events, k, |bias|);
    HistogramTotal(Since(events), |bias|);
  }

  // ---------------------------------------------------------------- how far biases move

  function Abs(x: real): real {
    if x < 0.0 then -x else x
  }

  function Travel(events: seq<Event>): real {
    if events == [] then 0.0
    else Travel(events[..|events| - 1]) +
         match events[|events| - 1] { case Forward(_) => 0.0 case Update(speed) => Abs(speed) }
  }

  /** After any run each bias is within the sum of the update speeds of where it started. */
  lemma {:induction false} BiasStaysClose(events: seq<Event>, start: State, e: nat)
    requires Shaped(start, |start.bias|) && e < |start.bias| && Run(events, start).Some?
    ensures Abs(Run(events, start).value.bias[e] - start.bias[e]) <= Travel(events)
  {
    if events != [] {
      var rest := events[..|events| - 1];
      BiasStaysClose(rest, start, e);
      if events[|events| - 1].Update? {
        var before := Run(rest, start).value;
        OneMove(before.bias, before.steps.value, events[|events| - 1].speed, e);
      }
    }
  }

  lemma OneMove(bias: seq<real>, c: Counts, speed: real, e: nat)
    requires |bias| == |c| && e < |c|
    ensures Abs(Moved(bias, c, speed)[e] - bias[e]) <= Abs(speed)
  {
    var sign := Sign(Mean(c) - c[e] as real);
    assert sign == 1.0 || sign == -1.0 || sign == 0.0;
  }

  function Updates(events: seq<Event>): nat {
    if events == [] then 0 else Updates(events[..|events| - 1]) + if events[|events| - 1].Update? then 1 else 0
  }

  lemma {:induction false} TravelAtOneSpeed(events: seq<Event>, speed: real)
    requires forall i :: 0 <= i < |events| && events[i].Update? ==> events[i].speed == speed
    ensures Travel(events) == Updates(events) as real * Abs(speed)
  {
    if events != [] {
      TravelAtOneSpeed(events[..|events| - 1], speed);
    }
  }

  /** After any run with `s` updates at one speed, each bias is within `s` times that speed. */
  lemma BiasBound(events: seq<Event>, start: State, e: nat, speed: real)
    requires Shaped(start, |start.bias|) && e < |start.bias| && Run(events, start).Some?
    requires forall i :: 0 <= i < |events| && events[i].Update? ==> events[i].speed == speed
    ensures Abs(Run(events, start).value.bias[e] - start.bias[e]) <= Updates(events) as real * Abs(speed)
  {
    BiasStaysClose(events, start, e);
    TravelAtOneSpeed(events, speed);
  }

  // ---------------------------------------------------------------- the sign rule balances

  /** The summed distance of the counts above `m`. */
  function Excess(c: Counts, m: real): real {
    if c == [] then 0.0 else Excess(c[..|c| - 1], m) + (c[|c| - 1] as real - m)
  }

  lemma {:induction false} ExcessIs(c: Counts, m: real)
    ensures Excess(c, m) == Total(c) as real - |c| as real * m
  {
    if c != [] {
      ExcessIs(c[..|c| - 1], m);
    }
  }

  lemma MeanBalances(c: Counts)
    requires c != []
    ensures Excess(c, Mean(c)) == 0.0
  {
    ExcessIs(c, Mean(c));
  }

  lemma {:induction false} ExcessSign(c: Counts, m: real, i: nat)
    requires i < |c|
    ensures (forall j :: 0 <= j < |c| ==> c[j] as real >= m) ==> Excess(c, m) >= c[i] as real - m
    ensures (forall j :: 0 <= j < |c| ==> c[j] as real <= m) ==> Excess(c, m) <= c[i] as real - m
  {
    var rest := c[..|c| - 1];
    if rest != [] {
      ExcessSign(rest, m, if i < |rest| then i else 0);
    }
  }

  /** With unequal counts the sign rule raises some bias and lowers some bias. */
  lemma UnequalCountsMoveBoth(bias: seq<real>, c: Counts, speed: real, i: nat, j: nat)
    requires |bias| == |c| && i < |c| && j < |c| && c[i] != c[j] && speed > 0.0
    ensures exists e :: 0 <= e < |c| && Moved(bias, c, speed)[e] == bias[e] + speed
    ensures exists e :: 0 <= e < |c| && Moved(bias, c, speed)[e] == bias[e] - speed
  {
    var m := Mean(c);
    MeanBalances(c);
    ExcessSign(c, m, i);
    ExcessSign(c, m, j);
    var low :| 0 <= low < |c| && (c[low] as real) < m;
    var high :| 0 <= high < |c| && (c[high] as real) > m;
    assert Moved(bias, c, speed)[low] == bias[low] + speed;
    assert Moved(bias, c, speed)[high] == bias[high] - speed;
  }

  /** With equal counts nothing moves. */
  lemma EqualCountsMoveNothing(bias: seq<real>, c: Counts, speed: real)
    requires |bias| == |c| && forall i, j :: 0 <= i < |c| && 0 <= j < |c| ==> c[i] == c[j]
    ensures Moved(bias, c, speed) == bias
  {
    if c != [] {
      MeanBalances(c);
      forall e | 0 <= e < |c| ensures Moved(bias, c, speed)[e] == bias[e] {
        ExcessSign(c, Mean(c), e);
      }
    }
  }

  // ---------------------------------------------------------------- which way a bias moves

  /** A count times the number of experts, against the total: below, at or above the mean load. */
  function Load(c: Counts, e: nat): int
    requires e < |c|
  {
    |c| * c[e]
  }

  /** A bias moves by `speed` towards the mean load, judged on whole numbers. */
  ghost predicate Steered(before: real, after: real, c: Counts, speed: real, e: nat)
    requires e < |c|
  {
    && (Load(c, e) < Total(c) ==> after == before + speed)
    && (Load(c, e) > Total(c) ==> after == before - speed)
    && (Load(c, e) == Total(c) ==> after == before)
  }

  lemma GapSign(t: nat, n: nat, x: nat)
    requires n > 0
    ensures t as real / n as real - x as real > 0.0 <==> n * x < t
    ensures t as real / n as real - x as real < 0.0 <==> n * x > t
  {
    var m := t as real / n as real;
    assert m * n as real == t as real;
    CastProduct(n, x);
    if m > x as real {
      assert (m - x as real) * n as real > 0.0;
    } else if m < x as real {
      assert (x as real - m) * n as real > 0.0;
    }
  }

  lemma MoveIsSteered(bias: seq<real>, c: Counts, speed: real, e: nat)
    requires |bias| == |c| && e < |c|
    ensures Steered(bias[e], Moved(bias, c, speed)[e], c, speed, e)
  {
    GapSign(Total(c), |c|, c[e]);
  }

  /** A bias rises, falls or stays exactly when its expert is below, above or at the mean load. */
  lemma DirectionExactly(bias: seq<real>, c: Counts, speed: real, e: nat)
    requires |bias| == |c| && e < |c| && speed > 0.0
    ensures Moved(bias, c, speed)[e] == bias[e] + speed <==> |c| * c[e] < Total(c)
    ensures Moved(bias, c, speed)[e] == bias[e] - speed <==> |c| * c[e] > Total(c)
    ensures Moved(bias, c, speed)[e] == bias[e] <==> |c| * c[e] == Total(c)
  {
    MoveIsSteered(bias, c, speed, e);
  }

  lemma MoreLoad(n: nat, x: nat, y: nat)
    requires x <= y
    ensures n * x <= n * y
  {
  }

  /** In one update a busier expert does not gain on a less busy one. */
  lemma BusierDoesNotGain(bias: seq<real>, c: Counts, speed: real, i: nat, j: nat)
    requires |bias| == |c| && i < |c| && j < |c| && c[j] <= c[i] && speed >= 0.0
    ensures Moved(bias, c, speed)[i] - Moved(bias, c, speed)[j] <= bias[i] - bias[j]
  {
    MoveIsSteered(bias, c, speed, i);
    MoveIsSteered(bias, c, speed, j);
    MoreLoad(|c|, c[j], c[i]);
  }

  /** At the update in place `n`, expert `i` was assigned at least as often as `j` since the one before. */
  ghost predicate AsBusyAt(events: seq<Event>, n: nat, i: nat, j: nat)
    requires n < |events|
  {
    events[n].Update? ==> events[n].speed >= 0.0 && Count(Since(events[..n]), j) <= Count(Since(events[..n]), i)
  }

  /** Over any run in which expert `i` was as busy as `j` before every update, `i` never gains on `j`. */
  lemma {:induction false} BusierNeverGains(events: seq<Event>, bias: seq<real>, i: nat, j: nat)
    requires i < |bias| && j < |bias| && Run(events, Initial(bias)).Some?
    requires forall n {:trigger AsBusyAt(events, n, i, j)} :: 0 <= n < |events| ==> AsBusyAt(events, n, i, j)
    ensures Run(events, Initial(bias)).value.bias[i] - Run(events, Initial(bias)).value.bias[j] <= bias[i] - bias[j]
  {
    if events != [] {
      var n := |events| - 1;
      var rest := events[..n];
      forall m | 0 <= m < |rest| ensures AsBusyAt(rest, m, i, j) {
        assert rest[..m] == events[..m] && AsBusyAt(events, m, i, j);
      }
      BusierNeverGains(rest, bias, i, j);
      if events[n].Update? {
        var before := Run(rest, Initial(bias)).value;
        assert AsBusyAt(events, n, i, j);
        StepsAreSinceUpdate(rest, bias);
        BusierDoesNotGain(before.bias, before.steps.value, events[n].speed, i, j);
      }
    }
  }

  // ---------------------------------------------------------------- counting every forward m times

  function Times(c: Counts, m: nat): (r: Counts)
    ensures |r| == |c| && forall e :: 0 <= e < |c| ==> r[e] == m * c[e]
  {
    seq(|c|, e requires 0 <= e < |c| => m * c[e])
  }

  lemma {:induction false} TotalTimes(c: Counts, m: nat)
    ensures Total(Times(c, m)) == m * Total(c)
  {
    if c != [] {
      var n := |c| - 1;
      TotalTimes(c[..n], m);
      assert Times(c, m)[..n] == Times(c[..n], m);
      assert m * (Total(c[..n]) + c[n]) == m * Total(c[..n]) + m * c[n];
    }
  }

  lemma SignScales(x: real, y: real, m: nat)
    requires m > 0 && y == m as real * x
    ensures Sign(y) == Sign(x)
  {
  }

  lemma {:induction false} CastProduct(a: nat, b: nat)
    ensures (a * b) as real == a as real * b as real
  {
    if a > 0 {
      CastProduct(a - 1, b);
      assert a * b == (a - 1) * b + b;
    }
  }

  lemma ScaledGap(t: real, n: real, x: real, m: real)
    requires n > 0.0
    ensures (m * t) / n - m * x == m * (t / n - x)
  {
    assert (m * t) / n == m * (t / n);
  }

  lemma SignOfScaled(t: nat, n: nat, x: nat, m: nat, scaledT: nat, scaledX: nat)
    requires n > 0 && m > 0 && scaledT == m * t && scaledX == m * x
    ensures Sign(scaledT as real / n as real - scaledX as real) == Sign(t as real / n as real - x as real)
  {
    CastProduct(m, t);
    CastProduct(m, x);
    ScaledGap(t as real, n as real, x as real, m as real);
    SignScales(t as real / n as real - x as real, scaledT as real / n as real - scaledX as real, m);
  }

  lemma MeanTimes(c: Counts, m: nat, e: nat)
    requires m > 0 && e < |c|
    ensures Sign(Mean(Times(c, m)) - Times(c, m)[e] as real) == Sign(Mean(c) - c[e] as real)
  {
    TotalTimes(c, m);
    SignOfScaled(Total(c), |c|, c[e], m, Total(Times(c, m)), Times(c, m)[e]);
  }

  lemma MovedTimes(bias: seq<real>, c: Counts, m: nat, speed: real)
    requires m > 0 && |bias| == |c|
    ensures Moved(bias, Times(c, m), speed) == Moved(bias, c, speed)
  {
    forall e | 0 <= e < |bias| ensures Moved(bias, Times(c, m), speed)[e] == Moved(bias, c, speed)[e] {
      MeanTimes(c, m, e);
    }
  }

  /** A forward counted `m` times, as activation checkpointing re-runs do. */
  function Copies(ids: seq<nat>, m: nat): seq<Event> {
    if m == 0 then [] else Copies(ids, m - 1) + [Forward(ids)]
  }

  function Repeated(events: seq<Event>, m: nat): seq<Event> {
    if events == [] then []
    else
      Repeated(events[..|events| - 1], m) +
      match events[|events| - 1] { case Forward(ids) => Copies(ids, m) case Update(speed) => [Update(speed)] }
  }

  /** `t` is `s` with its aggregate multiplied. */
  ghost predicate Multiplied(s: Option<State>, t: Option<State>, m: nat) {
    s.Some? && t.Some? && t.value.bias == s.value.bias && (t.value.steps.None? <==> s.value.steps.None?) &&
    (s.value.steps.Some? ==> t.value.steps.value == Times(s.value.steps.value, m))
  }

  lemma RunOneMore(events: seq<Event>, e: Event, start: State)
    requires Shaped(start, |start.bias|)
    ensures Run(events + [e], start) ==
      if Run(events, start).None? then None
      else match e
        case Forward(ids) => Some(AfterForward(Run(events, start).value, ids))
        case Update(speed) =>
          if Run(events, start).value.steps.None? then None
          else Some(AfterUpdate(Run(events, start).value, speed))
  {
    assert (events + [e])[..|events|] == events;
  }

  /** `after` is `before` with `c` added to its aggregate. */
  ghost predicate Gained(before: State, after: Option<State>, c: Counts) {
    && after.Some? && after.value.bias == before.bias && |c| == |before.bias|
    && (before.steps.Some? ==> |before.steps.value| == |c|)
    && after.value.steps == Some(if before.steps.None? then c else Added(before.steps.value, c))
  }

  lemma GainedOnce(before: State, mid: State, ids: seq<nat>, m: nat)
    requires Shaped(before, |before.bias|) && Shaped(mid, |before.bias|)
    requires m > 0 && Gained(before, Some(mid), Times(Histogram(ids, |before.bias|), m))
    ensures Gained(before, Some(AfterForward(mid, ids)), Times(Histogram(ids, |before.bias|), m + 1))
  {
    var c := Histogram(ids, |before.bias|);
    TimesMore(c, m);
    if before.steps.Some? {
      assert Added(Added(before.steps.value, Times(c, m)), c) == Added(before.steps.value, Added(Times(c, m), c));
    }
  }

  lemma GainedFirst(before: State, ids: seq<nat>)
    requires Shaped(before, |before.bias|)
    ensures Gained(before, Some(AfterForward(before, ids)), Times(Histogram(ids, |before.bias|), 1))
  {
    var c := Histogram(ids, |before.bias|);
    assert Times(c, 1) == c;
  }

  /** Copies of one forward add its histogram that many times. */
  lemma {:induction false} CopiesAdd(events: seq<Event>, ids: seq<nat>, m: nat, start: State)
    requires Shaped(start, |start.bias|) && Run(events, start).Some? && m > 0
    ensures
      Gained(Run(events, start).value, Run(events + Copies(ids, m), start), Times(Histogram(ids, |start.bias|), m))
  {
    var less := events + Copies(ids, m - 1);
    assert events + Copies(ids, m) == less + [Forward(ids)];
    RunOneMore(less, Forward(ids), start);
    var before := Run(events, start).value;
    if m == 1 {
      assert less == events;
      GainedFirst(before, ids);
    } else {
      CopiesAdd(events, ids, m - 1, start);
      GainedOnce(before, Run(less, start).value, ids, m - 1);
    }
  }

  lemma TimesMore(c: Counts, m: nat)
    ensures Added(Times(c, m), c) == Times(c, m + 1)
  {
    forall e | 0 <= e < |c| ensures Added(Times(c, m), c)[e] == Times(c, m + 1)[e] {
      assert (m + 1) * c[e] == m * c[e] + c[e];
    }
  }

  lemma TimesAdded(a: Counts, b: Counts, m: nat)
    requires |a| == |b|
    ensures Added(Times(a, m), Times(b, m)) == Times(Added(a, b), m)
  {
    forall e | 0 <= e < |a| ensures Added(Times(a, m), Times(b, m))[e] == Times(Added(a, b), m)[e] {
      assert m * (a[e] + b[e]) == m * a[e] + m * b[e];
    }
  }

  /** Counting every forward `m` times, throughout any run, leaves every bias where it would be. */
  lemma {:induction false} RepeatedForwardsChangeNothing(events: seq<Event>, m: nat, start: State)
    requires Shaped(start, |start.bias|) && start.steps.None? && m > 0 && Run(events, start).Some?
    ensures Multiplied(Run(events, start), Run(Repeated(events, m), start), m)
  {
    if events != [] {
      var rest := events[..|events| - 1];
      RepeatedForwardsChangeNothing(rest, m, start);
      var s, t := Run(rest, start).value, Run(Repeated(rest, m), start).value;
      match events[|events| - 1]
      case Forward(ids) =>
        CopiesAdd(Repeated(rest, m), ids, m, start);
        if s.steps.Some? {
          TimesAdded(s.steps.value, Histogram(ids, |start.bias|), m);
        }
      case Update(speed) =>
        RunOneMore(Repeated(rest, m), Update(speed), start);
        MovedTimes(s.bias, s.steps.value, m, speed);
        assert Times(Zeros(|s.bias|), m) == Zeros(|s.bias|);
    }
  }
}
