/** The route pack: slots of all tokens sorted stably by expert, with one offset per expert, and the
    three ways of adding up expert outputs that must agree. */
module RoutePack {
  import opened Sorting
  import RouterBias
  import S = SparseSelection

  // ---------------------------------------------------------------- the pack

  function ExpertAt(flat: seq<nat>, i: nat): nat {
    if i < |flat| then flat[i] else 0
  }

  function ByExpert(flat: seq<nat>): (nat, nat) -> bool {
    (i: nat, j: nat) => ExpertAt(flat, i) <= ExpertAt(flat, j)
  }

  /** `argsort(flat, stable=True)`. */
  function Order(flat: seq<nat>): seq<nat> {
    Argsort(|flat|, ByExpert(flat))
  }

  /** How many slots go to the first `e` experts. */
  function Offset(flat: seq<nat>, e: nat): nat {
    if e == 0 then 0 else Offset(flat, e - 1) + RouterBias.Count(flat, e - 1)
  }

  datatype Pack = Pack(order: seq<nat>, offsets: seq<nat>)

  method RoutingFields(flat: seq<nat>, experts: nat) returns (pack: Pack)
    requires forall i :: 0 <= i < |flat| ==> flat[i] < experts
    ensures pack.order == Order(flat)
    ensures |pack.offsets| == experts + 1
    ensures forall e {:trigger pack.offsets[e]} :: 0 <= e <= experts ==> pack.offsets[e] == Offset(flat, e)
  {
    var counts := RouterBias.Bincount(flat, experts);
    var offs := new nat[experts + 1](_ => 0);
    for e := 0 to experts
      invariant forall d {:trigger offs[d]} :: 0 <= d <= e ==> offs[d] == Offset(flat, d)
    {
      offs[e + 1] := offs[e] + counts[e];
    }
    pack := Pack(Order(flat), offs[..]);
  }

  lemma OrderFacts(flat: seq<nat>)
    ensures |Order(flat)| == |flat| && NoRepeats(Order(flat)) && RankedAll(Order(flat), ByExpert(flat))
    ensures forall i: nat :: i in Order(flat) <==> i < |flat|
  {
    ArgsortFacts(|flat|, ByExpert(flat));
  }

  // ---------------------------------------------------------------- counting slots

  function SlotsBelow(flat: seq<nat>, e: nat): set<nat> {
    set i | i in Indices(|flat|) && ExpertAt(flat, i) < e
  }

  function SlotsOf(flat: seq<nat>, e: nat): set<nat> {
    set i | i in Indices(|flat|) && ExpertAt(flat, i) == e
  }

  lemma SlotIndex(flat: seq<nat>, i: nat)
    ensures i in Indices(|flat|) <==> i < |flat|
  {
    if i < |flat| {
      assert Indices(|flat|)[i] == i;
    }
  }

  lemma {:induction false} SlotsCount(flat: seq<nat>, e: nat)
    ensures |SlotsOf(flat, e)| == RouterBias.Count(flat, e)
  {
    if flat == [] {
      assert SlotsOf(flat, e) == {};
    } else {
      var n := |flat| - 1;
      SlotsCount(flat[..n], e);
      forall i: nat ensures i in SlotsOf(flat, e) <==> i in SlotsOf(flat[..n], e) || (i == n && flat[n] == e) {
        SlotIndex(flat, i);
        SlotIndex(flat[..n], i);
      }
      assert SlotsOf(flat, e) == SlotsOf(flat[..n], e) + if flat[n] == e then {n} else {};
      SlotIndex(flat[..n], n);
    }
  }

  lemma {:induction false} BelowCount(flat: seq<nat>, e: nat)
    ensures |SlotsBelow(flat, e)| == Offset(flat, e)
  {
    if e == 0 {
      assert SlotsBelow(flat, e) == {};
    } else {
      BelowCount(flat, e - 1);
      SlotsCount(flat, e - 1);
      assert SlotsBelow(flat, e) == SlotsBelow(flat, e - 1) + SlotsOf(flat, e - 1);
      assert SlotsBelow(flat, e - 1) !! SlotsOf(flat, e - 1);
    }
  }

  /** In the sorted order, the first `Offset(e)` positions hold exactly the slots of experts below `e`. */
  lemma BelowFirst(flat: seq<nat>, e: nat, p: nat)
    requires p < |Order(flat)|
    ensures ExpertAt(flat, Order(flat)[p]) < e <==> p < Offset(flat, e)
  {
    var order := Order(flat);
    OrderFacts(flat);
    var q := 0;
    while q < |order| && ExpertAt(flat, order[q]) < e
      invariant q <= |order| && forall j :: 0 <= j < q ==> ExpertAt(flat, order[j]) < e
    {
      q := q + 1;
    }
    forall j | q <= j < |order| ensures ExpertAt(flat, order[j]) >= e {
      assert j > q ==> Ranked(ByExpert(flat), order[q], order[j]);
    }
    PrefixIsBelow(flat, e, order, q);
  }

  lemma PrefixIsBelow(flat: seq<nat>, e: nat, order: seq<nat>, q: nat)
    requires order == Order(flat) && q <= |order|
    requires forall j :: 0 <= j < q ==> ExpertAt(flat, order[j]) < e
    requires forall j :: q <= j < |order| ==> ExpertAt(flat, order[j]) >= e
    ensures Offset(flat, e) == q
  {
    OrderFacts(flat);
    BelowCount(flat, e);
    var head := order[..q];
    S.MembersSize(head);
    forall i: nat ensures i in SlotsBelow(flat, e) <==> i in S.Members(head) {
      SlotIndex(flat, i);
      if i in head {
        assert i in order;
      }
      if i < |flat| {
        assert i in order;
        var j :| 0 <= j < |order| && order[j] == i;
        assert j < q ==> head[j] == i;
      }
    }
    assert SlotsBelow(flat, e) == S.Members(head);
  }

  lemma {:induction false} OffsetGrows(flat: seq<nat>, e: nat, f: nat)
    requires e <= f
    ensures Offset(flat, e) <= Offset(flat, f)
  {
    if e < f {
      OffsetGrows(flat, e, f - 1);
    }
  }

  lemma OffsetBound(flat: seq<nat>, e: nat)
    ensures Offset(flat, e) <= |flat|
  {
    OrderFacts(flat);
    BelowCount(flat, e);
    S.MembersSize(Order(flat));
    forall i | i in SlotsBelow(flat, e) ensures i in S.Members(Order(flat)) {
      SlotIndex(flat, i);
    }
    S.SubsetSize(SlotsBelow(flat, e), S.Members(Order(flat)));
  }

  /** The slots of expert `e`, in increasing order. */
  ghost predicate HoldsSlots(flat: seq<nat>, e: nat, slice: seq<nat>) {
    && (forall p, q :: 0 <= p < q < |slice| ==> slice[p] < slice[q])
    && (forall i: nat :: i in slice <==> i < |flat| && flat[i] == e)
  }

  function SliceOf(flat: seq<nat>, e: nat): seq<nat>
    requires Offset(flat, e) <= Offset(flat, e + 1) <= |Order(flat)|
  {
    Order(flat)[Offset(flat, e)..Offset(flat, e + 1)]
  }

  /** Position `p` of the sorted order is in the slice of its expert, and in no other. */
  lemma InSlice(flat: seq<nat>, e: nat, p: nat)
    requires p < |Order(flat)|
    ensures ExpertAt(flat, Order(flat)[p]) == e <==> Offset(flat, e) <= p < Offset(flat, e + 1)
  {
    BelowFirst(flat, e, p);
    BelowFirst(flat, e + 1, p);
  }

  lemma SliceIncreases(flat: seq<nat>, e: nat, lo: nat, hi: nat, p: nat, q: nat)
    requires lo == Offset(flat, e) && hi == Offset(flat, e + 1) && lo <= p < q < hi <= |Order(flat)|
    ensures Order(flat)[p] < Order(flat)[q]
  {
    var order := Order(flat);
    OrderFacts(flat);
    InSlice(flat, e, p);
    InSlice(flat, e, q);
    assert Ranked(ByExpert(flat), order[p], order[q]);
  }

  lemma SliceMembers(flat: seq<nat>, e: nat, lo: nat, hi: nat, i: nat)
    requires lo == Offset(flat, e) && hi == Offset(flat, e + 1) && lo <= hi <= |Order(flat)|
    ensures i in Order(flat)[lo..hi] <==> i < |flat| && flat[i] == e
  {
    var order := Order(flat);
    OrderFacts(flat);
    if i in order {
      var p :| 0 <= p < |order| && order[p] == i;
      InSlice(flat, e, p);
      assert lo <= p < hi ==> order[lo..hi][p - lo] == i;
    }
    if i in order[lo..hi] {
      var p :| 0 <= p < hi - lo && order[lo..hi][p] == i;
      InSlice(flat, e, lo + p);
      assert order[lo + p] in order;
    }
  }

  /** The pack is a stable counting sort: the order lists every slot once, and the slice between
      consecutive offsets holds exactly the slots of that expert, in increasing order. */
  lemma PackIsCountingSort(flat: seq<nat>, e: nat)
    ensures Offset(flat, e) <= Offset(flat, e + 1) <= |Order(flat)| && HoldsSlots(flat, e, SliceOf(flat, e))
  {
    var order, lo, hi := Order(flat), Offset(flat, e), Offset(flat, e + 1);
    OrderFacts(flat);
    OffsetGrows(flat, e, e + 1);
    OffsetBound(flat, e + 1);
    var slice := order[lo..hi];
    forall p, q | 0 <= p < q < |slice| ensures slice[p] < slice[q] {
      SliceIncreases(flat, e, lo, hi, lo + p, lo + q);
    }
    forall i: nat ensures i in slice <==> i < |flat| && flat[i] == e {
      SliceMembers(flat, e, lo, hi, i);
    }
  }

  // ---------------------------------------------------------------- finite sums

  function SumOver(s: seq<nat>, f: nat -> real): real {
    if s == [] then 0.0 else SumOver(s[..|s| - 1], f) + f(s[|s| - 1])
  }

  lemma {:induction false} SumConcat(a: seq<nat>, b: seq<nat>, f: nat -> real)
    ensures SumOver(a + b, f) == SumOver(a, f) + SumOver(b, f)
  {
    if b == [] {
      assert a + b == a;
    } else {
      var c, init := a + b, b[..|b| - 1];
      SumConcat(a, init, f);
      assert c[..|c| - 1] == a + init;
    }
  }

  lemma SumSingle(x: nat, f: nat -> real)
    ensures SumOver([x], f) == f(x)
  {
    assert [x][..0] == [];
  }

  lemma {:induction false} SumSame(s: seq<nat>, f: nat -> real, g: nat -> real)
    requires forall i :: i in s ==> f(i) == g(i)
    ensures SumOver(s, f) == SumOver(s, g)
  {
    if s != [] {
      SumSame(s[..|s| - 1], f, g);
      assert s[|s| - 1] in s;
    }
  }

  lemma {:induction false} SumZero(s: seq<nat>, f: nat -> real)
    requires forall i :: i in s ==> f(i) == 0.0
    ensures SumOver(s, f) == 0.0
  {
    if s != [] {
      SumZero(s[..|s| - 1], f);
      assert s[|s| - 1] in s;
    }
  }

  lemma {:induction false} SumAdd(s: seq<nat>, f: nat -> real, g: nat -> real, h: nat -> real)
    requires forall i :: i in s ==> h(i) == f(i) + g(i)
    ensures SumOver(s, h) == SumOver(s, f) + SumOver(s, g)
  {
    if s != [] {
      SumAdd(s[..|s| - 1], f, g, h);
      assert s[|s| - 1] in s;
    }
  }

  lemma RemoveAt(s: seq<nat>, j: nat)
    requires j < |s|
    ensures multiset(s) == multiset(s[..j] + s[j + 1..]) + multiset{s[j]}
  {
    assert s == s[..j] + [s[j]] + s[j + 1..];
  }

  lemma Cancel(p: multiset<nat>, q: multiset<nat>, x: nat)
    requires p + multiset{x} == q + multiset{x}
    ensures p == q
  {
    forall y: nat ensures p[y] == q[y] {
      assert (p + multiset{x})[y] == (q + multiset{x})[y];
    }
  }

  lemma SumRemoved(s: seq<nat>, j: nat, f: nat -> real)
    requires j < |s|
    ensures SumOver(s, f) == SumOver(s[..j] + s[j + 1..], f) + f(s[j])
  {
    SplitAt(s, j);
    SumAround(s[..j], s[j], s[j + 1..], f);
  }

  lemma SplitAt(s: seq<nat>, j: nat)
    requires j < |s|
    ensures s == s[..j] + [s[j]] + s[j + 1..]
  {
  }

  lemma SumAround(before: seq<nat>, x: nat, after: seq<nat>, f: nat -> real)
    ensures SumOver(before + [x] + after, f) == SumOver(before + after, f) + f(x)
  {
    SumConcat(before, after, f);
    SumConcat(before + [x], after, f);
    SumConcat(before, [x], f);
    SumSingle(x, f);
  }

  /** A sum does not depend on the order of its terms. */
  lemma {:induction false} SumPermuted(a: seq<nat>, b: seq<nat>, f: nat -> real)
    requires multiset(a) == multiset(b)
    ensures SumOver(a, f) == SumOver(b, f)
    decreases |a|
  {
    if a == [] {
      assert |multiset(b)| == 0;
    } else {
      var n := |a| - 1;
      assert a[n] in multiset(a) && a[n] in multiset(b);
      var j :| 0 <= j < |b| && b[j] == a[n];
      RemoveAt(a, n);
      RemoveAt(b, j);
      SumRemoved(a, n, f);
      SumRemoved(b, j, f);
      Cancel(multiset(a[..n] + a[n + 1..]), multiset(b[..j] + b[j + 1..]), a[n]);
      SumPermuted(a[..n] + a[n + 1..], b[..j] + b[j + 1..], f);
    }
  }

  // ---------------------------------------------------------------- three ways to combine experts

  /** One coordinate of one round: `k` slots per token, a weight per slot, and each expert's output
      for each token. */
  datatype Round = Round(flat: seq<nat>, k: nat, weights: seq<real>, output: (nat, nat) -> real)

  ghost predicate WellFormed(r: Round, tokens: nat, experts: nat) {
    && r.k > 0 && |r.flat| == |r.weights| == tokens * r.k
    && (forall i :: 0 <= i < |r.flat| ==> r.flat[i] < experts)
  }

  function WeightAt(r: Round, i: nat): real {
    if i < |r.weights| then r.weights[i] else 0.0
  }

  /** What slot `i` adds to token `t`. */
  function Term(r: Round, t: nat): nat -> real {
    (i: nat) => WeightAt(r, i) * r.output(ExpertAt(r.flat, i), t)
  }

  /** The slots of token `t`. */
  function Slots(t: nat, k: nat): (s: seq<nat>)
    ensures |s| == k && forall j :: 0 <= j < k ==> s[j] == t * k + j
  {
    seq(k, j requires 0 <= j < k => t * k + j)
  }

  /** The definition: the weighted sum over the token's own slots. */
  function TopKSum(r: Round, t: nat): real {
    SumOver(Slots(t, r.k), Term(r, t))
  }

  /** The sum over the first `j` slots of token `t`, straight from the lists. */
  function SlotSum(r: Round, t: nat, j: nat): real
    requires t * r.k + j <= |r.flat| == |r.weights|
  {
    if j == 0 then 0.0
    else
      var i := t * r.k + j - 1;
      SlotSum(r, t, j - 1) + r.weights[i] * r.output(r.flat[i], t)
  }

  lemma TermAt(r: Round, t: nat, i: nat)
    requires i < |r.flat| == |r.weights|
    ensures Term(r, t)(i) == r.weights[i] * r.output(r.flat[i], t)
  {
    assert WeightAt(r, i) == r.weights[i] && ExpertAt(r.flat, i) == r.flat[i];
  }

  lemma {:induction false} SlotSumIs(r: Round, t: nat, j: nat)
    requires j <= r.k && t * r.k + j <= |r.flat| == |r.weights|
    ensures SumOver(Slots(t, r.k)[..j], Term(r, t)) == SlotSum(r, t, j)
  {
    if j > 0 {
      SlotSumIs(r, t, j - 1);
      var slots := Slots(t, r.k)[..j];
      var i := t * r.k + j - 1;
      assert slots[..j - 1] == Slots(t, r.k)[..j - 1] && slots[j - 1] == i;
      TermAt(r, t, i);
    }
  }

  /** What every loop gives a token: each of its slots' weights times the output of that slot's expert. */
  lemma TopKSumIs(r: Round, t: nat)
    requires t * r.k + r.k <= |r.flat| == |r.weights|
    ensures TopKSum(r, t) == SlotSum(r, t, r.k)
  {
    SlotSumIs(r, t, r.k);
    assert Slots(t, r.k)[..r.k] == Slots(t, r.k);
  }

  /** `weights * (ids == e)` at slot `i`. */
  function HitWeight(r: Round, e: nat, i: nat): real {
    if ExpertAt(r.flat, i) == e then WeightAt(r, i) else 0.0
  }

  function Hit(r: Round, e: nat): nat -> real {
    (i: nat) => HitWeight(r, e, i)
  }

  /** The masked expert loop's coefficient for expert `e`. */
  function Coefficient(r: Round, s: seq<nat>, e: nat): real {
    SumOver(s, Hit(r, e))
  }

  function MaskedTerm(r: Round, s: seq<nat>, t: nat): nat -> real {
    (e: nat) => Coefficient(r, s, e) * r.output(e, t)
  }

  function HitTerm(r: Round, i: nat, t: nat): nat -> real {
    (e: nat) => HitWeight(r, e, i) * r.output(e, t)
  }

  lemma HitValue(r: Round, i: nat, t: nat, e: nat)
    ensures HitTerm(r, i, t)(e) == if ExpertAt(r.flat, i) == e then WeightAt(r, i) * r.output(e, t) else 0.0
  {
    Chosen(ExpertAt(r.flat, i) == e, WeightAt(r, i), HitWeight(r, e, i), r.output(e, t));
  }

  lemma Chosen(hit: bool, weight: real, w: real, y: real)
    requires w == if hit then weight else 0.0
    ensures w * y == if hit then weight * y else 0.0
  {
    if !hit {
      assert w == 0.0;
    }
  }

  /** Of all experts, exactly the slot's own contributes. */
  lemma {:induction false} OneHit(r: Round, i: nat, t: nat, n: nat)
    ensures SumOver(Indices(n), HitTerm(r, i, t)) ==
      if ExpertAt(r.flat, i) < n then WeightAt(r, i) * r.output(ExpertAt(r.flat, i), t) else 0.0
  {
    if n > 0 {
      OneHit(r, i, t, n - 1);
      assert Indices(n)[..n - 1] == Indices(n - 1) && Indices(n)[n - 1] == n - 1;
      HitValue(r, i, t, n - 1);
    }
  }

  lemma {:induction false} MaskedIsDirect(r: Round, s: seq<nat>, t: nat, experts: nat)
    requires forall i :: i in s ==> ExpertAt(r.flat, i) < experts
    ensures SumOver(Indices(experts), MaskedTerm(r, s, t)) == SumOver(s, Term(r, t))
  {
    var all := Indices(experts);
    if s == [] {
      forall e | e in all ensures MaskedTerm(r, s, t)(e) == 0.0 {
        assert Coefficient(r, s, e) == 0.0;
      }
      SumZero(all, MaskedTerm(r, s, t));
    } else {
      var rest, last := s[..|s| - 1], s[|s| - 1];
      MaskedIsDirect(r, rest, t, experts);
      assert last in s;
      OneHit(r, last, t, experts);
      forall e | e in all ensures MaskedTerm(r, s, t)(e) == MaskedTerm(r, rest, t)(e) + HitTerm(r, last, t)(e) {
        OneMoreSlot(r, s, t, e);
      }
      SumAdd(all, MaskedTerm(r, rest, t), HitTerm(r, last, t), MaskedTerm(r, s, t));
    }
  }

  lemma OneMoreSlot(r: Round, s: seq<nat>, t: nat, e: nat)
    requires s != []
    ensures MaskedTerm(r, s, t)(e) == MaskedTerm(r, s[..|s| - 1], t)(e) + HitTerm(r, s[|s| - 1], t)(e)
  {
    Spread(Coefficient(r, s[..|s| - 1], e), HitWeight(r, e, s[|s| - 1]), r.output(e, t), Coefficient(r, s, e));
  }

  lemma Spread(a: real, b: real, y: real, c: real)
    requires c == a + b
    ensures c * y == a * y + b * y
  {
  }

  /** The masked loop over all experts for one token. */
  method MaskedLoop(r: Round, t: nat, tokens: nat, experts: nat) returns (routed: real)
    requires WellFormed(r, tokens, experts) && t < tokens
    ensures routed == TopKSum(r, t)
  {
    var slots := Slots(t, r.k);
    routed := 0.0;
    for e := 0 to experts
      invariant routed == SumOver(Indices(e), MaskedTerm(r, slots, t))
    {
      var coef := 0.0;
      for j := 0 to r.k
        invariant coef == SumOver(slots[..j], Hit(r, e))
      {
        assert slots[..j + 1][..j] == slots[..j];
        coef := coef + HitWeight(r, e, slots[j]);
      }
      assert slots[..r.k] == slots;
      assert Indices(e + 1)[..e] == Indices(e);
      routed := routed + coef * r.output(e, t);
    }
    SlotsInRange(r, tokens, experts, t);
    MaskedIsDirect(r, slots, t, experts);
  }

  lemma SlotsInRange(r: Round, tokens: nat, experts: nat, t: nat)
    requires WellFormed(r, tokens, experts) && t < tokens
    ensures t * r.k + r.k <= |r.flat|
    ensures forall i :: i in Slots(t, r.k) ==> i < |r.flat| && ExpertAt(r.flat, i) < experts
  {
    assert (t + 1) * r.k <= tokens * r.k;
  }

  /** What slot `i` adds to token `t` when all slots are visited: nothing unless it is `t`'s own. */
  function Contribution(r: Round, t: nat): nat -> real {
    (i: nat) => if r.k > 0 && i / r.k == t then WeightAt(r, i) * r.output(ExpertAt(r.flat, i), t) else 0.0
  }

  lemma TokenOf(t: nat, k: nat, i: nat)
    requires k > 0
    ensures i / k == t <==> t * k <= i < t * k + k
  {
    var q, m := i / k, i % k;
    assert i == q * k + m && 0 <= m < k;
    if q < t {
      assert (q + 1) * k <= t * k;
    } else if q > t {
      assert (t + 1) * k <= q * k;
    }
  }

  lemma SplitAround(n: nat, lo: nat, k: nat, t: nat)
    requires lo + k <= n && lo == t * k
    ensures Indices(n) == Indices(n)[..lo] + Slots(t, k) + Indices(n)[lo + k..]
  {
  }

  /** Summing over all slots in any order gives the token its own weighted sum. */
  lemma AllSlotsSum(r: Round, tokens: nat, experts: nat, t: nat)
    requires WellFormed(r, tokens, experts) && t < tokens
    ensures SumOver(Indices(|r.flat|), Contribution(r, t)) == TopKSum(r, t)
  {
    var n, lo, f := |r.flat|, t * r.k, Contribution(r, t);
    var all := Indices(n);
    SlotsInRange(r, tokens, experts, t);
    var before, own, after := all[..lo], Slots(t, r.k), all[lo + r.k..];
    SplitAround(n, lo, r.k, t);
    SumConcat(before + own, after, f);
    SumConcat(before, own, f);
    forall i | i in before || i in after ensures f(i) == 0.0 {
      TokenOf(t, r.k, i);
    }
    SumZero(before, f);
    SumZero(after, f);
    forall i | i in own ensures f(i) == Term(r, t)(i) {
      TokenOf(t, r.k, i);
    }
    SumSame(own, f, Term(r, t));
  }

  lemma OrderSum(r: Round, tokens: nat, experts: nat, t: nat)
    requires WellFormed(r, tokens, experts) && t < tokens
    ensures SumOver(Order(r.flat), Contribution(r, t)) == TopKSum(r, t)
  {
    SortMultiset(Indices(|r.flat|), ByExpert(r.flat));
    SumPermuted(Order(r.flat), Indices(|r.flat|), Contribution(r, t));
    AllSlotsSum(r, tokens, experts, t);
  }

  lemma SlotToken(r: Round, tokens: nat, experts: nat, i: nat)
    requires WellFormed(r, tokens, experts) && i < |r.flat|
    ensures i / r.k < tokens
  {
    TokenOf(i / r.k, r.k, i);
    assert (i / r.k) * r.k < tokens * r.k;
    SmallerFactor(i / r.k, tokens, r.k);
  }

  lemma SmallerFactor(a: nat, b: nat, k: nat)
    requires a * k < b * k
    ensures a < b
  {
    assert (a - b) * k < 0;
  }

  lemma OneMoreTerm(r: Round, order: seq<nat>, p: nat, t: nat)
    requires p < |order|
    ensures SumOver(order[..p + 1], Contribution(r, t)) ==
      SumOver(order[..p], Contribution(r, t)) + Contribution(r, t)(order[p])
  {
    assert order[..p + 1][..p] == order[..p];
  }

  /** The entry of token `t` after some slots were added. */
  ghost predicate SumIs(r: Round, t: nat, slots: seq<nat>, v: real) {
    v == SumOver(slots, Contribution(r, t))
  }

  ghost predicate SumsAre(r: Round, slots: seq<nat>, out: seq<real>) {
    forall t {:trigger SumIs(r, t, slots, out[t])} :: 0 <= t < |out| ==> SumIs(r, t, slots, out[t])
  }

  lemma SlotAdds(r: Round, order: seq<nat>, p: nat, t: nat, v: real, token: nat, added: real)
    requires p < |order| && order[p] < |r.flat| == |r.weights| && r.k > 0 && token == order[p] / r.k
    requires added == r.weights[order[p]] * r.output(r.flat[order[p]], token) && SumIs(r, t, order[..p], v)
    ensures SumIs(r, t, order[..p + 1], if t == token then v + added else v)
  {
    OneMoreTerm(r, order, p, t);
    var i := order[p];
    assert WeightAt(r, i) == r.weights[i] && ExpertAt(r.flat, i) == r.flat[i];
    assert Contribution(r, t)(i) == if t == token then WeightAt(r, i) * r.output(ExpertAt(r.flat, i), t) else 0.0;
  }

  /** One slot of expert `e`'s slice, added to its token in place. */
  method AddSlot(r: Round, tokens: nat, experts: nat, order: seq<nat>, p: nat, e: nat, out: array<real>)
    requires WellFormed(r, tokens, experts) && out.Length == tokens && order == Order(r.flat) && p < |order|
    requires order[p] < |r.flat| && r.flat[order[p]] == e && SumsAre(r, order[..p], out[..])
    modifies out
    ensures SumsAre(r, order[..p + 1], out[..])
  {
    var i := order[p];
    var token := i / r.k;
    SlotToken(r, tokens, experts, i);
    ghost var was, slots := out[..], order[..p + 1];
    var added := r.weights[i] * r.output(e, token);
    out[token] := out[token] + added;
    forall t | 0 <= t < tokens ensures SumIs(r, t, slots, out[..][t]) {
      assert SumIs(r, t, order[..p], was[t]);
      SlotAdds(r, order, p, t, was[t], token, added);
    }
  }

  /** All slots of expert `e`: the slice between its offsets. */
  method AddSlice(r: Round, tokens: nat, experts: nat, order: seq<nat>, lo: nat, hi: nat, e: nat, out: array<real>)
    requires WellFormed(r, tokens, experts) && out.Length == tokens && order == Order(r.flat)
    requires lo == Offset(r.flat, e) <= hi == Offset(r.flat, e + 1) <= |order|
    requires SumsAre(r, order[..lo], out[..])
    modifies out
    ensures SumsAre(r, order[..hi], out[..])
  {
    OrderFacts(r.flat);
    for p := lo to hi
      invariant SumsAre(r, order[..p], out[..])
    {
      InSlice(r.flat, e, p);
      assert order[p] in order;
      AddSlot(r, tokens, experts, order, p, e, out);
    }
  }

  /** Expert by expert over the packed slices: every token ends with the sum over its own slots. */
  method GroupedLoop(r: Round, tokens: nat, experts: nat) returns (out: array<real>)
    requires WellFormed(r, tokens, experts)
    ensures out.Length == tokens && forall t :: 0 <= t < tokens ==> out[t] == TopKSum(r, t)
  {
    var pack := RoutingFields(r.flat, experts);
    var order := pack.order;
    out := new real[tokens](_ => 0.0);
    for e := 0 to experts
      invariant fresh(out) && Offset(r.flat, e) <= |order|
      invariant SumsAre(r, order[..Offset(r.flat, e)], out[..])
    {
      OrderFacts(r.flat);
      OffsetGrows(r.flat, e, e + 1);
      OffsetBound(r.flat, e + 1);
      AddSlice(r, tokens, experts, order, pack.offsets[e], pack.offsets[e + 1], e, out);
    }
    AllOffset(r, tokens, experts);
    assert order[..|order|] == order;
    forall t | 0 <= t < tokens ensures out[t] == TopKSum(r, t) {
      assert SumIs(r, t, order, out[..][t]);
      OrderSum(r, tokens, experts, t);
    }
  }

  lemma AllOffset(r: Round, tokens: nat, experts: nat)
    requires WellFormed(r, tokens, experts)
    ensures Offset(r.flat, experts) == |Order(r.flat)|
  {
    OrderFacts(r.flat);
    forall j | 0 <= j < |Order(r.flat)| ensures ExpertAt(r.flat, Order(r.flat)[j]) < experts {
      assert Order(r.flat)[j] in Order(r.flat);
    }
    PrefixIsBelow(r.flat, experts, Order(r.flat), |Order(r.flat)|);
  }
}
