/** Group-limited expert routing of the DeepSeek-V3 reference model, for one token: the best groups by
    their two best selection scores stay eligible, the best `top_k` eligible experts are chosen, and
    their raw scores are normalised to `routed_scaling`. Selection scores carry a bias, weights do not. */
module ExpertRouting {
  import opened Wrappers
  import opened Sorting
  import S = SparseSelection

  function Key(keys: seq<S.Score>, i: nat): S.Score {
    if i < |keys| then keys[i] else S.NegInf
  }

  /** Descending by score; a stable sort by this leaves ties in index order. */
  function ByScore(keys: seq<S.Score>): (nat, nat) -> bool {
    (i: nat, j: nat) => S.AtMost(Key(keys, j), Key(keys, i))
  }

  lemma ByScoreOrders(keys: seq<S.Score>)
    ensures TotalPreorder(ByScore(keys))
  {
  }

  function Finite(values: seq<real>): (keys: seq<S.Score>)
    ensures |keys| == |values| && forall i :: 0 <= i < |values| ==> keys[i] == S.Fin(values[i])
  {
    seq(|values|, i requires 0 <= i < |values| => S.Fin(values[i]))
  }

  /** Positions by descending value, ties by position. */
  function Ranking(keys: seq<S.Score>): seq<nat> {
    Argsort(|keys|, ByScore(keys))
  }

  lemma RankingFacts(keys: seq<S.Score>)
    ensures |Ranking(keys)| == |keys| && NoRepeats(Ranking(keys)) && RankedAll(Ranking(keys), ByScore(keys))
    ensures forall i: nat :: i in Ranking(keys) <==> i < |keys|
  {
    ByScoreOrders(keys);
    ArgsortFacts(|keys|, ByScore(keys));
  }

  /** `a` is preferred to `b`: a higher score, or the same score and a smaller index. */
  predicate Preferred(values: seq<real>, a: nat, b: nat)
    requires a < |values| && b < |values|
  {
    values[b] < values[a] || (values[b] == values[a] && a <= b)
  }

  // ---------------------------------------------------------------- group scores

  /** The sum of the first two values in rank order. */
  function GroupScore(values: seq<real>): real {
    var order := Ranking(Finite(values));
    RankingFacts(Finite(values));
    if |values| == 0 then 0.0
    else if |values| == 1 then values[0]
    else
      assert order[0] in order && order[1] in order;
      values[order[0]] + values[order[1]]
  }

  /** A group's score is the best sum of two of its members. */
  lemma GroupScoreIsBestPair(values: seq<real>, i: nat, j: nat)
    requires i < |values| && j < |values| && i != j
    ensures values[i] + values[j] <= GroupScore(values)
    ensures exists a, b ::
      0 <= a < |values| && 0 <= b < |values| && a != b && values[a] + values[b] == GroupScore(values)
  {
    var keys := Finite(values);
    var order := Ranking(keys);
    RankingFacts(keys);
    assert order[0] in order && order[1] in order && order[0] != order[1];
    assert i in order && j in order;
    var p :| 0 <= p < |order| && order[p] == i;
    var q :| 0 <= q < |order| && order[q] == j;
    BestFirst(values, order, p);
    BestFirst(values, order, q);
  }

  lemma BestFirst(values: seq<real>, order: seq<nat>, p: nat)
    requires order == Ranking(Finite(values)) && p < |order| && |values| >= 2
    ensures |order| == |values| && order[p] < |values| && order[0] < |values| && order[1] < |values|
    ensures values[order[p]] <= values[order[0]] && (p >= 1 ==> values[order[p]] <= values[order[1]])
  {
    var keys := Finite(values);
    RankingFacts(keys);
    assert order[p] in order && order[0] in order && order[1] in order;
    assert p > 0 ==> Ranked(ByScore(keys), order[0], order[p]);
    assert p > 1 ==> Ranked(ByScore(keys), order[1], order[p]);
  }

  // ---------------------------------------------------------------- eligibility

  /** Expert `e` belongs to a kept group. */
  predicate Eligible(size: nat, keep: seq<nat>, e: nat) {
    size > 0 && e / size in keep
  }

  function EligibleSet(experts: nat, size: nat, keep: seq<nat>): set<nat> {
    set e | e in Indices(experts) && Eligible(size, keep, e)
  }

  function Members(g: nat, size: nat): seq<nat> {
    seq(size, i requires 0 <= i < size => g * size + i)
  }

  lemma GroupOf(g: nat, size: nat, e: nat)
    requires size > 0
    ensures e / size == g <==> g * size <= e < g * size + size
  {
    var q, r := e / size, e % size;
    assert e == q * size + r && 0 <= r < size;
    if q < g {
      assert (q + 1) * size <= g * size;
    } else if q > g {
      assert (g + 1) * size <= q * size;
    }
  }

  lemma MemberOf(g: nat, size: nat, e: nat)
    requires size > 0
    ensures e in S.Members(Members(g, size)) <==> e / size == g
  {
    GroupOf(g, size, e);
    if g * size <= e < g * size + size {
      assert Members(g, size)[e - g * size] == e;
    }
  }

  lemma MembersFit(g: nat, groups: nat, size: nat, e: nat)
    requires size > 0 && g < groups && e / size == g
    ensures e < groups * size
  {
    GroupOf(g, size, e);
    NextGroup(g, groups, size);
  }

  lemma NextGroup(g: nat, groups: nat, size: nat)
    requires g < groups
    ensures g * size + size <= groups * size
  {
    assert (g + 1) * size <= groups * size;
  }

  ghost predicate KeptGroups(groups: nat, keep: seq<nat>) {
    NoRepeats(keep) && forall i :: 0 <= i < |keep| ==> keep[i] < groups
  }

  function CountEligible(groups: nat, size: nat, keep: seq<nat>): nat {
    |EligibleSet(groups * size, size, keep)|
  }

  /** A kept group contributes all its experts. */
  lemma GroupCounts(groups: nat, size: nat, rest: seq<nat>, last: nat)
    requires size > 0 && last < groups && last !in rest
    ensures CountEligible(groups, size, rest + [last]) == CountEligible(groups, size, rest) + size
  {
    var experts := groups * size;
    MembersCount(last, size);
    OneMoreGroup(groups, size, rest, last);
    DisjointCount(EligibleSet(experts, size, rest), S.Members(Members(last, size)),
                  EligibleSet(experts, size, rest + [last]));
  }

  lemma {:induction false} EligibleCount(groups: nat, size: nat, keep: seq<nat>)
    requires size > 0 && KeptGroups(groups, keep)
    ensures CountEligible(groups, size, keep) == |keep| * size
  {
    if keep == [] {
      assert EligibleSet(groups * size, size, keep) == {};
    } else {
      var rest, last := keep[..|keep| - 1], keep[|keep| - 1];
      EligibleCount(groups, size, rest);
      assert rest + [last] == keep;
      GroupCounts(groups, size, rest, last);
      OneMore(|rest|, size);
    }
  }

  lemma OneMore(n: nat, size: nat)
    ensures (n + 1) * size == n * size + size
  {
  }

  lemma MembersCount(g: nat, size: nat)
    ensures |S.Members(Members(g, size))| == size
  {
    S.MembersSize(Members(g, size));
  }

  lemma DisjointCount(a: set<nat>, b: set<nat>, c: set<nat>)
    requires a !! b && c == a + b
    ensures |c| == |a| + |b|
  {
  }

  lemma OneMoreGroup(groups: nat, size: nat, rest: seq<nat>, last: nat)
    requires size > 0 && last < groups && last !in rest
    ensures EligibleSet(groups * size, size, rest + [last]) ==
      EligibleSet(groups * size, size, rest) + S.Members(Members(last, size))
    ensures EligibleSet(groups * size, size, rest) !! S.Members(Members(last, size))
  {
    var experts := groups * size;
    forall e: nat
      ensures e in EligibleSet(experts, size, rest + [last]) <==>
        e in EligibleSet(experts, size, rest) || e in S.Members(Members(last, size))
    {
      MemberOf(last, size, e);
      if e / size == last {
        MembersFit(last, groups, size, e);
        assert Indices(experts)[e] == e;
      }
    }
    forall e | e in S.Members(Members(last, size)) ensures e !in EligibleSet(experts, size, rest) {
      MemberOf(last, size, e);
    }
  }

  function MaskedScores(sel: seq<real>, size: nat, keep: seq<nat>): (keys: seq<S.Score>)
    ensures |keys| == |sel|
    ensures forall e :: 0 <= e < |sel| ==> keys[e] == if Eligible(size, keep, e) then S.Fin(sel[e]) else S.NegInf
  {
    seq(|sel|, e requires 0 <= e < |sel| => if Eligible(size, keep, e) then S.Fin(sel[e]) else S.NegInf)
  }

  /** Behind an expert that is not eligible, the ranking holds no eligible one. */
  lemma NoneBehind(sel: seq<real>, size: nat, keep: seq<nat>, order: seq<nat>, p: nat, j: nat)
    requires order == Ranking(MaskedScores(sel, size, keep)) && p <= j < |order|
    requires !Eligible(size, keep, order[p])
    ensures !Eligible(size, keep, order[j])
  {
    var keys := MaskedScores(sel, size, keep);
    RankingFacts(keys);
    assert order[j] in order && order[p] in order;
    assert j > p ==> Ranked(ByScore(keys), order[p], order[j]);
  }

  /** The first position from which no flag is set, if no set flag follows a cleared one. */
  lemma Boundary(flags: seq<bool>) returns (p: nat)
    requires forall i, j :: 0 <= i <= j < |flags| && flags[j] ==> flags[i]
    ensures p <= |flags| && forall j :: 0 <= j < |flags| ==> (flags[j] <==> j < p)
  {
    p := 0;
    while p < |flags| && flags[p]
      invariant p <= |flags| && forall j :: 0 <= j < p ==> flags[j]
    {
      p := p + 1;
    }
  }

  /** In rank order, the eligible experts come first: exactly as many positions as there are of them. */
  lemma EligibleFirst(sel: seq<real>, size: nat, keep: seq<nat>, order: seq<nat>, i: nat)
    requires order == Ranking(MaskedScores(sel, size, keep)) && i < |order|
    ensures Eligible(size, keep, order[i]) <==> i < |EligibleSet(|sel|, size, keep)|
  {
    var flags := seq(|order|, j requires 0 <= j < |order| => Eligible(size, keep, order[j]));
    forall p, j | 0 <= p <= j < |flags| && flags[j] ensures flags[p] {
      if !flags[p] {
        NoneBehind(sel, size, keep, order, p, j);
      }
    }
    var p := Boundary(flags);
    assert forall j :: 0 <= j < |order| ==> flags[j] == Eligible(size, keep, order[j]);
    PrefixIsEligible(sel, size, keep, order, p);
    assert flags[i] == Eligible(size, keep, order[i]);
  }

  lemma PrefixIsEligible(sel: seq<real>, size: nat, keep: seq<nat>, order: seq<nat>, p: nat)
    requires order == Ranking(MaskedScores(sel, size, keep)) && p <= |order|
    requires forall j :: 0 <= j < p ==> Eligible(size, keep, order[j])
    requires forall j :: p <= j < |order| ==> !Eligible(size, keep, order[j])
    ensures |EligibleSet(|sel|, size, keep)| == p
  {
    RankingFacts(MaskedScores(sel, size, keep));
    var head := order[..p];
    S.MembersSize(head);
    forall e: nat ensures e in EligibleSet(|sel|, size, keep) <==> e in S.Members(head) {
      if e in head {
        assert e in order;
        assert Indices(|sel|)[e] == e;
      }
      if e < |sel| {
        assert e in order;
        var j :| 0 <= j < |order| && order[j] == e;
        assert j < p ==> head[j] == e;
      }
    }
    assert EligibleSet(|sel|, size, keep) == S.Members(head);
  }

  // ---------------------------------------------------------------- the selection

  function GroupScores(sel: seq<real>, groups: nat, size: nat): (scores: seq<real>)
    requires |sel| == groups * size
    ensures |scores| == groups
  {
    seq(groups, g requires 0 <= g < groups => GroupScore(GroupRow(sel, groups, size, g)))
  }

  function GroupRow(sel: seq<real>, groups: nat, size: nat, g: nat): (row: seq<real>)
    requires |sel| == groups * size && g < groups
    ensures |row| == size
  {
    RowFits(groups, size, g);
    sel[g * size..g * size + size]
  }

  lemma RowFits(groups: nat, size: nat, g: nat)
    requires g < groups
    ensures g * size + size <= groups * size
  {
    assert (g + 1) * size <= groups * size;
  }

  function Take(s: seq<nat>, n: nat): (r: seq<nat>)
    ensures |r| == S.Min(n, |s|) && r == s[..|r|]
  {
    s[..S.Min(n, |s|)]
  }

  /** The groups that stay eligible. */
  function Kept(scores: seq<real>, limit: nat): seq<nat> {
    Take(Ranking(Finite(scores)), limit)
  }

  /** The first `n` in rank order are preferred to every position left out. */
  lemma TakenArePreferred(keys: seq<S.Score>, n: nat, a: nat, b: nat)
    requires a in Take(Ranking(keys), n) && b < |keys| && b !in Take(Ranking(keys), n)
    ensures Ranked(ByScore(keys), a, b) && a < |keys|
  {
    var order, taken := Ranking(keys), Take(Ranking(keys), n);
    RankingFacts(keys);
    var p :| 0 <= p < |taken| && taken[p] == a;
    assert b in order && order[p] in order;
    var q :| 0 <= q < |order| && order[q] == b;
    assert forall m :: 0 <= m < |taken| ==> order[m] == taken[m] && taken[m] in taken;
    assert Ranked(ByScore(keys), order[p], order[q]);
  }

  lemma TakenAreRanked(keys: seq<S.Score>, n: nat, i: nat, j: nat)
    requires i < j < |Take(Ranking(keys), n)|
    ensures Ranked(ByScore(keys), Take(Ranking(keys), n)[i], Take(Ranking(keys), n)[j])
  {
    RankingFacts(keys);
  }

  lemma TakenFacts(keys: seq<S.Score>, n: nat)
    ensures |Take(Ranking(keys), n)| == S.Min(n, |keys|) && KeptGroups(|keys|, Take(Ranking(keys), n))
  {
    RankingFacts(keys);
    var taken := Take(Ranking(keys), n);
    forall i | 0 <= i < |taken| ensures taken[i] < |keys| {
      assert taken[i] in Ranking(keys);
    }
  }

  /** The kept groups are the best ones by the sum of their two best scores, ties by index. */
  ghost predicate BestGroups(sel: seq<real>, groups: nat, size: nat, limit: nat, keep: seq<nat>)
    requires |sel| == groups * size
  {
    var scores := GroupScores(sel, groups, size);
    && KeptGroups(groups, keep) && |keep| == S.Min(limit, groups)
    && (forall g, h {:trigger BeatsGroup(scores, g, h)} ::
          g in keep && 0 <= h < groups && h !in keep ==> BeatsGroup(scores, g, h))
  }

  predicate BeatsGroup(scores: seq<real>, g: int, h: int) {
    0 <= g < |scores| && 0 <= h < |scores| && Preferred(scores, g, h)
  }

  lemma KeptAreBest(sel: seq<real>, groups: nat, size: nat, limit: nat)
    requires |sel| == groups * size
    ensures BestGroups(sel, groups, size, limit, Kept(GroupScores(sel, groups, size), limit))
  {
    var scores := GroupScores(sel, groups, size);
    var keep := Kept(scores, limit);
    TakenFacts(Finite(scores), limit);
    forall g, h | g in keep && 0 <= h < groups && h !in keep ensures BeatsGroup(scores, g, h) {
      TakenArePreferred(Finite(scores), limit, g, h);
    }
  }

  /** The chosen experts: distinct, as many as asked for, in rank order, and ahead of every expert left
      out. */
  ghost predicate BestExperts(sel: seq<real>, size: nat, keep: seq<nat>, k: nat, ids: seq<nat>) {
    && KeptGroups(|sel|, ids) && |ids| == S.Min(k, |sel|)
    && (forall a, b {:trigger BeatsExpert(sel, size, keep, a, b)} ::
          a in ids && 0 <= b < |sel| && b !in ids ==> BeatsExpert(sel, size, keep, a, b))
    && (forall i, j {:trigger BeatsExpert(sel, size, keep, ids[i], ids[j])} ::
          0 <= i < j < |ids| ==> BeatsExpert(sel, size, keep, ids[i], ids[j]))
  }

  /** Only an eligible and preferred expert is ahead of an eligible one; those that are not eligible
      follow by index. */
  predicate BeatsExpert(sel: seq<real>, size: nat, keep: seq<nat>, a: int, b: int) {
    && 0 <= a < |sel| && 0 <= b < |sel|
    && if Eligible(size, keep, b) then Eligible(size, keep, a) && Preferred(sel, a, b)
       else Eligible(size, keep, a) || a <= b
  }

  lemma RankedBeats(sel: seq<real>, size: nat, keep: seq<nat>, a: nat, b: nat)
    requires a < |sel| && b < |sel| && Ranked(ByScore(MaskedScores(sel, size, keep)), a, b)
    ensures BeatsExpert(sel, size, keep, a, b)
  {
  }

  function ChosenExperts(sel: seq<real>, size: nat, keep: seq<nat>, k: nat): seq<nat> {
    Take(Ranking(MaskedScores(sel, size, keep)), k)
  }

  lemma ChosenAreBest(sel: seq<real>, size: nat, keep: seq<nat>, k: nat)
    ensures BestExperts(sel, size, keep, k, ChosenExperts(sel, size, keep, k))
  {
    var keys, ids := MaskedScores(sel, size, keep), ChosenExperts(sel, size, keep, k);
    TakenFacts(keys, k);
    forall a, b | a in ids && 0 <= b < |sel| && b !in ids ensures BeatsExpert(sel, size, keep, a, b) {
      TakenArePreferred(keys, k, a, b);
      RankedBeats(sel, size, keep, a, b);
    }
    forall i, j | 0 <= i < j < |ids| ensures BeatsExpert(sel, size, keep, ids[i], ids[j]) {
      TakenAreRanked(keys, k, i, j);
      RankedBeats(sel, size, keep, ids[i], ids[j]);
    }
  }

  /** Every chosen expert is eligible exactly when `k` fits into the kept groups. */
  lemma ChosenEligibleExactly(sel: seq<real>, groups: nat, size: nat, keep: seq<nat>, k: nat)
    requires size > 0 && |sel| == groups * size && KeptGroups(groups, keep)
    ensures (forall e :: e in ChosenExperts(sel, size, keep, k) ==> Eligible(size, keep, e)) <==>
      S.Min(k, |sel|) <= |keep| * size
  {
    var order, ids := Ranking(MaskedScores(sel, size, keep)), ChosenExperts(sel, size, keep, k);
    RankingFacts(MaskedScores(sel, size, keep));
    EligibleCount(groups, size, keep);
    if S.Min(k, |sel|) <= |keep| * size {
      forall e | e in ids ensures Eligible(size, keep, e) {
        var i :| 0 <= i < |ids| && ids[i] == e;
        EligibleFirst(sel, size, keep, order, i);
      }
    } else {
      var i := |keep| * size;
      EligibleFirst(sel, size, keep, order, i);
      assert ids[i] == order[i];
    }
  }

  // ---------------------------------------------------------------- weights

  function Sum(values: seq<real>): real {
    if values == [] then 0.0 else Sum(values[..|values| - 1]) + values[|values| - 1]
  }

  function Picked(scores: seq<real>, ids: seq<nat>): (picked: seq<real>)
    requires forall i :: 0 <= i < |ids| ==> ids[i] < |scores|
    ensures |picked| == |ids| && forall i :: 0 <= i < |ids| ==> picked[i] == scores[ids[i]]
  {
    seq(|ids|, i requires 0 <= i < |ids| => scores[ids[i]])
  }

  function Weight(x: real, total: real, scaling: real): real
    requires total > 0.0
  {
    x / total * scaling
  }

  function Normalised(picked: seq<real>, total: real, scaling: real): (weights: seq<real>)
    requires total > 0.0
    ensures |weights| == |picked| && forall i :: 0 <= i < |picked| ==> weights[i] == Weight(picked[i], total, scaling)
  {
    seq(|picked|, i requires 0 <= i < |picked| => Weight(picked[i], total, scaling))
  }

  lemma {:induction false} SumPositive(values: seq<real>)
    requires forall i :: 0 <= i < |values| ==> values[i] > 0.0
    ensures Sum(values) >= 0.0 && (values != [] ==> Sum(values) > 0.0)
  {
    if values != [] {
      SumPositive(values[..|values| - 1]);
    }
  }

  lemma {:induction false} NormalisedSum(picked: seq<real>, total: real, scaling: real)
    requires total > 0.0
    ensures Sum(Normalised(picked, total, scaling)) == Weight(Sum(picked), total, scaling)
  {
    if picked != [] {
      var rest, last := picked[..|picked| - 1], picked[|picked| - 1];
      NormalisedSum(rest, total, scaling);
      var weights := Normalised(picked, total, scaling);
      assert weights[..|picked| - 1] == Normalised(rest, total, scaling);
      Distribute(Sum(rest), last, total, scaling);
    }
  }

  lemma Distribute(a: real, b: real, total: real, scaling: real)
    requires total > 0.0
    ensures Weight(a + b, total, scaling) == Weight(a, total, scaling) + Weight(b, total, scaling)
  {
    assert (a + b) / total == a / total + b / total;
  }

  /** Weights are proportional to the raw scores of the chosen experts and add up to `scaling`. */
  ghost predicate WeightsOk(scores: seq<real>, ids: seq<nat>, scaling: real, weights: seq<real>) {
    && |weights| == |ids| && (forall i :: 0 <= i < |ids| ==> ids[i] < |scores|)
    && (ids != [] ==> Sum(weights) == scaling)
    && var total := Sum(Picked(scores, ids));
      forall i {:trigger Proportional(weights[i], total, scores[ids[i]], scaling)} :: 0 <= i < |ids| ==>
        Proportional(weights[i], total, scores[ids[i]], scaling)
  }

  predicate Proportional(weight: real, total: real, score: real, scaling: real) {
    weight * total == score * scaling
  }

  /** Two weights are in the ratio of their scores, which a bias does not enter. */
  lemma WeightRatio(scores: seq<real>, ids: seq<nat>, scaling: real, weights: seq<real>, i: nat, j: nat)
    requires WeightsOk(scores, ids, scaling, weights) && i < |ids| && j < |ids| && Sum(Picked(scores, ids)) > 0.0
    ensures weights[i] * scores[ids[j]] == weights[j] * scores[ids[i]]
  {
    var total := Sum(Picked(scores, ids));
    assert Proportional(weights[i], total, scores[ids[i]], scaling);
    assert Proportional(weights[j], total, scores[ids[j]], scaling);
    CrossRatio(weights[i], weights[j], scores[ids[i]], scores[ids[j]], total, scaling);
  }

  lemma CrossRatio(w: real, v: real, x: real, y: real, total: real, scaling: real)
    requires total > 0.0 && w * total == x * scaling && v * total == y * scaling
    ensures w * y == v * x
  {
    assert (w * y) * total == (x * scaling) * y;
    assert (v * x) * total == (y * scaling) * x;
    assert (w * y - v * x) * total == 0.0;
  }

  lemma {:induction false} SumOfEqual(values: seq<real>, x: real)
    requires forall i :: 0 <= i < |values| ==> values[i] == x
    ensures Sum(values) == |values| as real * x
  {
    if values != [] {
      SumOfEqual(values[..|values| - 1], x);
    }
  }

  lemma EvenShare(w: real, n: real, x: real, total: real, scaling: real)
    requires x > 0.0 && total == n * x && w * total == x * scaling
    ensures w * n == scaling
  {
    assert w * total == (w * n) * x;
    assert (w * n - scaling) * x == 0.0;
  }

  /** Experts of equal score share the scaling evenly. */
  lemma EqualScoresShare(scores: seq<real>, ids: seq<nat>, scaling: real, weights: seq<real>, x: real, i: nat)
    requires WeightsOk(scores, ids, scaling, weights) && x > 0.0 && i < |ids|
    requires forall j :: 0 <= j < |ids| ==> scores[ids[j]] == x
    ensures weights[i] * |ids| as real == scaling
  {
    var total := Sum(Picked(scores, ids));
    assert Proportional(weights[i], total, scores[ids[i]], scaling);
    SumOfEqual(Picked(scores, ids), x);
    EvenShare(weights[i], |ids| as real, x, total, scaling);
  }

  method Weigh(scores: seq<real>, ids: seq<nat>, scaling: real) returns (weights: seq<real>)
    requires (forall e :: 0 <= e < |scores| ==> scores[e] > 0.0) && forall i :: 0 <= i < |ids| ==> ids[i] < |scores|
    ensures WeightsOk(scores, ids, scaling, weights)
  {
    if ids == [] {
      return [];
    }
    var picked := Picked(scores, ids);
    SumPositive(picked);
    weights := Normalised(picked, Sum(picked), scaling);
    NormalisedIsOk(scores, ids, scaling);
  }

  lemma NormalisedIsOk(scores: seq<real>, ids: seq<nat>, scaling: real)
    requires ids != [] && (forall i :: 0 <= i < |ids| ==> ids[i] < |scores|) && Sum(Picked(scores, ids)) > 0.0
    ensures WeightsOk(scores, ids, scaling, Normalised(Picked(scores, ids), Sum(Picked(scores, ids)), scaling))
  {
    var picked := Picked(scores, ids);
    var total := Sum(picked);
    var weights := Normalised(picked, total, scaling);
    NormalisedSum(picked, total, scaling);
    Whole(total, scaling);
    forall i | 0 <= i < |ids| ensures Proportional(weights[i], total, scores[ids[i]], scaling) {
      Scale(picked[i], total, scaling);
    }
  }

  lemma Whole(total: real, scaling: real)
    requires total > 0.0
    ensures Weight(total, total, scaling) == scaling
  {
  }

  lemma Scale(x: real, total: real, scaling: real)
    requires total > 0.0
    ensures Proportional(Weight(x, total, scaling), total, x, scaling)
  {
    assert x / total * total == x;
  }

  // ---------------------------------------------------------------- routing one token

  datatype RouteError = GroupsDoNotDivide

  datatype Route = Route(ids: seq<nat>, weights: seq<real>)

  function Biased(scores: seq<real>, bias: seq<real>): (sel: seq<real>)
    requires |scores| == |bias|
    ensures |sel| == |scores|
  {
    seq(|scores|, e requires 0 <= e < |scores| => scores[e] + bias[e])
  }

  /** `a` comes before `b`: more score and bias together, or as much and a smaller index. */
  predicate Outranks(scores: seq<real>, bias: seq<real>, a: int, b: int)
    requires |scores| == |bias| && 0 <= a < |scores| && 0 <= b < |scores|
  {
    scores[b] + bias[b] < scores[a] + bias[a] || (scores[b] + bias[b] == scores[a] + bias[a] && a < b)
  }

  /** Two different experts of group `g`. */
  predicate Pair(n: nat, size: nat, g: int, a: int, b: int)
    requires size > 0
  {
    0 <= a < n && 0 <= b < n && a != b && a / size == g && b / size == g
  }

  predicate PairOutranks(scores: seq<real>, bias: seq<real>, first: bool, a: int, b: int, i: int, j: int)
    requires |scores| == |bias| && 0 <= a < |scores| && 0 <= b < |scores| && 0 <= i < |scores| && 0 <= j < |scores|
  {
    var x, y := scores[a] + bias[a] + scores[b] + bias[b], scores[i] + bias[i] + scores[j] + bias[j];
    y < x || (y == x && first)
  }

  ghost predicate BeatsPair(scores: seq<real>, bias: seq<real>, size: nat, g: nat, h: nat, i: int, j: int)
    requires |scores| == |bias| && size > 0 && 0 <= i < |scores| && 0 <= j < |scores|
  {
    exists a, b {:trigger Pair(|scores|, size, g, a, b)} ::
      Pair(|scores|, size, g, a, b) && PairOutranks(scores, bias, g < h, a, b, i, j)
  }

  /** Every pair of group `h` is beaten by a pair of group `g`; groups of one compare their expert. */
  ghost predicate GroupOutranks(scores: seq<real>, bias: seq<real>, size: nat, g: nat, h: nat)
    requires |scores| == |bias| && (size == 1 ==> g < |scores| && h < |scores|)
  {
    if size == 0 then g < h
    else if size == 1 then Outranks(scores, bias, g, h)
    else forall i, j {:trigger Pair(|scores|, size, h, i, j)} ::
           Pair(|scores|, size, h, i, j) ==> BeatsPair(scores, bias, size, g, h, i, j)
  }

  /** Only an eligible expert with more score and bias comes before an eligible one; those that are not
      eligible follow by index. */
  predicate Precedes(scores: seq<real>, bias: seq<real>, size: nat, keep: seq<nat>, a: int, b: int)
    requires |scores| == |bias|
  {
    && 0 <= a < |scores| && 0 <= b < |scores|
    && if Eligible(size, keep, b) then Eligible(size, keep, a) && Outranks(scores, bias, a, b)
       else Eligible(size, keep, a) || a < b
  }

  ghost predicate KeepsBest(scores: seq<real>, bias: seq<real>, groups: nat, size: nat, limit: nat, keep: seq<nat>)
    requires |scores| == |bias| == groups * size
  {
    && KeptGroups(groups, keep) && |keep| == S.Min(limit, groups)
    && (forall g: nat, h: nat {:trigger GroupOutranks(scores, bias, size, g, h)} ::
          g in keep && h < groups && h !in keep ==> GroupOutranks(scores, bias, size, g, h))
  }

  ghost predicate ChoosesBest(scores: seq<real>, bias: seq<real>, size: nat, keep: seq<nat>, k: nat, ids: seq<nat>)
    requires |scores| == |bias|
  {
    && KeptGroups(|scores|, ids) && |ids| == S.Min(k, |scores|)
    && (forall a, b {:trigger Precedes(scores, bias, size, keep, a, b)} ::
          a in ids && 0 <= b < |scores| && b !in ids ==> Precedes(scores, bias, size, keep, a, b))
    && (forall i, j {:trigger Precedes(scores, bias, size, keep, ids[i], ids[j])} ::
          0 <= i < j < |ids| ==> Precedes(scores, bias, size, keep, ids[i], ids[j]))
  }

  /** The selection, in scores and biases: the chosen experts are the best of the best groups, in rank
      order, and lie in them exactly when they fit. */
  ghost predicate Selects(scores: seq<real>, bias: seq<real>, groups: nat, size: nat, limit: nat, k: nat,
                          keep: seq<nat>, ids: seq<nat>)
  {
    && |scores| == |bias| == groups * size
    && KeepsBest(scores, bias, groups, size, limit, keep) && ChoosesBest(scores, bias, size, keep, k, ids)
    && ((forall e :: e in ids ==> Eligible(size, keep, e)) <==> S.Min(k, |scores|) <= |keep| * size)
  }

  /** Group `g` comes before group `h` by group score, ties by index. */
  predicate ScoresAhead(groupScores: seq<real>, g: nat, h: nat)
    requires g < |groupScores| && h < |groupScores|
  {
    groupScores[h] < groupScores[g] || (groupScores[h] == groupScores[g] && g < h)
  }

  lemma RowEntry(sel: seq<real>, groups: nat, size: nat, g: nat, e: nat)
    requires |sel| == groups * size && size > 0 && g < groups && e / size == g
    ensures g * size <= e < g * size + size <= |sel| && GroupRow(sel, groups, size, g)[e - g * size] == sel[e]
  {
    GroupOf(g, size, e);
    RowFits(groups, size, g);
  }

  /** No pair of a group is worth more than the group. */
  lemma PairInGroup(sel: seq<real>, groups: nat, size: nat, g: nat, i: nat, j: nat)
    requires |sel| == groups * size && size >= 2 && g < groups && Pair(|sel|, size, g, i, j)
    ensures sel[i] + sel[j] <= GroupScores(sel, groups, size)[g]
  {
    RowEntry(sel, groups, size, g, i);
    RowEntry(sel, groups, size, g, j);
    GroupScoreIsBestPair(GroupRow(sel, groups, size, g), i - g * size, j - g * size);
  }

  lemma MemberAt(sel: seq<real>, groups: nat, size: nat, g: nat, p: nat) returns (e: nat)
    requires |sel| == groups * size && p < size && g < groups
    ensures e < |sel| && e / size == g && e == g * size + p && sel[e] == GroupRow(sel, groups, size, g)[p]
  {
    e := g * size + p;
    GroupOf(g, size, e);
    RowEntry(sel, groups, size, g, e);
  }

  /** Some pair of a group is worth as much as the group. */
  lemma BestPair(sel: seq<real>, groups: nat, size: nat, g: nat) returns (a: nat, b: nat)
    requires |sel| == groups * size && size >= 2 && g < groups
    ensures Pair(|sel|, size, g, a, b) && sel[a] + sel[b] == GroupScores(sel, groups, size)[g]
  {
    var row := GroupRow(sel, groups, size, g);
    GroupScoreIsBestPair(row, 0, 1);
    var p, q :| 0 <= p < |row| && 0 <= q < |row| && p != q && row[p] + row[q] == GroupScore(row);
    a := MemberAt(sel, groups, size, g, p);
    b := MemberAt(sel, groups, size, g, q);
  }

  lemma BiasedPair(scores: seq<real>, bias: seq<real>, first: bool, a: nat, b: nat, i: nat, j: nat)
    requires |scores| == |bias| && a < |scores| && b < |scores| && i < |scores| && j < |scores|
    ensures var sel := Biased(scores, bias); PairOutranks(scores, bias, first, a, b, i, j) <==>
      sel[i] + sel[j] < sel[a] + sel[b] || (sel[i] + sel[j] == sel[a] + sel[b] && first)
  {
  }

  lemma AheadOutranks(scores: seq<real>, bias: seq<real>, groups: nat, size: nat, g: nat, h: nat)
    requires |scores| == |bias| == groups * size && size >= 2 && g < groups && h < groups
    requires ScoresAhead(GroupScores(Biased(scores, bias), groups, size), g, h)
    ensures GroupOutranks(scores, bias, size, g, h)
  {
    var sel := Biased(scores, bias);
    var a, b := BestPair(sel, groups, size, g);
    forall i, j | Pair(|scores|, size, h, i, j) ensures BeatsPair(scores, bias, size, g, h, i, j) {
      PairInGroup(sel, groups, size, h, i, j);
      BiasedPair(scores, bias, g < h, a, b, i, j);
    }
  }

  lemma OutranksAhead(scores: seq<real>, bias: seq<real>, groups: nat, size: nat, g: nat, h: nat)
    requires |scores| == |bias| == groups * size && size >= 2 && g < groups && h < groups
    requires GroupOutranks(scores, bias, size, g, h)
    ensures ScoresAhead(GroupScores(Biased(scores, bias), groups, size), g, h)
  {
    var sel := Biased(scores, bias);
    var i, j := BestPair(sel, groups, size, h);
    assert BeatsPair(scores, bias, size, g, h, i, j);
    var a, b :| Pair(|scores|, size, g, a, b) && PairOutranks(scores, bias, g < h, a, b, i, j);
    PairInGroup(sel, groups, size, g, a, b);
    BiasedPair(scores, bias, g < h, a, b, i, j);
  }

  lemma SingleScore(sel: seq<real>, groups: nat, size: nat, g: nat)
    requires |sel| == groups * size && size <= 1 && g < groups
    ensures GroupScores(sel, groups, size)[g] == if size == 0 then 0.0 else sel[g]
  {
  }

  /** The order of groups by their two best members is the order by group score. */
  lemma GroupOrder(scores: seq<real>, bias: seq<real>, groups: nat, size: nat, g: nat, h: nat)
    requires |scores| == |bias| == groups * size && g < groups && h < groups
    ensures GroupOutranks(scores, bias, size, g, h) <==>
      ScoresAhead(GroupScores(Biased(scores, bias), groups, size), g, h)
  {
    if size <= 1 {
      SingleScore(Biased(scores, bias), groups, size, g);
      SingleScore(Biased(scores, bias), groups, size, h);
    } else {
      if GroupOutranks(scores, bias, size, g, h) {
        OutranksAhead(scores, bias, groups, size, g, h);
      }
      if ScoresAhead(GroupScores(Biased(scores, bias), groups, size), g, h) {
        AheadOutranks(scores, bias, groups, size, g, h);
      }
    }
  }

  lemma KeptInScores(scores: seq<real>, bias: seq<real>, groups: nat, size: nat, limit: nat, keep: seq<nat>)
    requires |scores| == |bias| == groups * size && BestGroups(Biased(scores, bias), groups, size, limit, keep)
    ensures KeepsBest(scores, bias, groups, size, limit, keep)
  {
    var groupScores := GroupScores(Biased(scores, bias), groups, size);
    forall g: nat, h: nat | g in keep && h < groups && h !in keep ensures GroupOutranks(scores, bias, size, g, h) {
      assert BeatsGroup(groupScores, g, h);
      GroupOrder(scores, bias, groups, size, g, h);
    }
  }

  lemma ChosenInScores(scores: seq<real>, bias: seq<real>, size: nat, keep: seq<nat>, k: nat, ids: seq<nat>)
    requires |scores| == |bias| && BestExperts(Biased(scores, bias), size, keep, k, ids)
    ensures ChoosesBest(scores, bias, size, keep, k, ids)
  {
    var sel := Biased(scores, bias);
    forall a, b | a in ids && 0 <= b < |scores| && b !in ids ensures Precedes(scores, bias, size, keep, a, b) {
      assert BeatsExpert(sel, size, keep, a, b);
    }
    forall i, j | 0 <= i < j < |ids| ensures Precedes(scores, bias, size, keep, ids[i], ids[j]) {
      assert BeatsExpert(sel, size, keep, ids[i], ids[j]);
    }
  }

  lemma SelectionIsBest(scores: seq<real>, bias: seq<real>, groups: nat, size: nat, limit: nat, k: nat, keep: seq<nat>,
                        ids: seq<nat>)
    requires |scores| == |bias| == groups * size
    requires keep == Kept(GroupScores(Biased(scores, bias), groups, size), limit)
    requires ids == ChosenExperts(Biased(scores, bias), size, keep, k)
    ensures Selects(scores, bias, groups, size, limit, k, keep, ids)
  {
    var sel := Biased(scores, bias);
    KeptAreBest(sel, groups, size, limit);
    KeptInScores(scores, bias, groups, size, limit, keep);
    ChosenAreBest(sel, size, keep, k);
    ChosenInScores(scores, bias, size, keep, k, ids);
    if size > 0 {
      ChosenEligibleExactly(sel, groups, size, keep, k);
    }
  }

  /** Which experts a kept group makes eligible: the group mask, written in place, then repeated. */
  method EligibleMask(groups: nat, size: nat, keep: seq<nat>) returns (mask: seq<bool>)
    requires size > 0 && KeptGroups(groups, keep)
    ensures |mask| == groups * size && forall e :: 0 <= e < |mask| ==> (mask[e] <==> Eligible(size, keep, e))
  {
    var kept := new bool[groups](_ => false);
    for i := 0 to |keep|
      invariant forall g :: 0 <= g < groups ==> (kept[g] <==> g in keep[..i])
    {
      kept[keep[i]] := true;
    }
    assert keep[..|keep|] == keep;
    mask := [];
    for e := 0 to groups * size
      invariant forall g :: 0 <= g < groups ==> (kept[g] <==> g in keep)
      invariant |mask| == e && forall d :: 0 <= d < e ==> (mask[d] <==> Eligible(size, keep, d))
    {
      GroupInRange(groups, size, e);
      mask := mask + [kept[e / size]];
    }
  }

  lemma GroupInRange(groups: nat, size: nat, e: nat)
    requires size > 0 && e < groups * size
    ensures e / size < groups
  {
    GroupOf(e / size, size, e);
    MulOrder(e / size, groups, size);
  }

  lemma MulOrder(a: nat, b: nat, size: nat)
    requires a * size < b * size
    ensures a < b
  {
    assert (a - b) * size < 0;
  }

  /** Routes one token. `keep` is the set of groups that stayed eligible. */
  method RouteToken(scores: seq<real>, bias: seq<real>, groups: nat, limit: nat, k: nat, scaling: real)
    returns (r: Result<Route, RouteError>, ghost keep: seq<nat>)
    requires |scores| == |bias| && forall e :: 0 <= e < |scores| ==> scores[e] > 0.0
    ensures r.Err? <==> groups == 0 || |scores| % groups != 0
    ensures r.Ok? ==> |scores| == groups * (|scores| / groups)
    ensures r.Ok? ==>
      && Selects(scores, bias, groups, |scores| / groups, limit, k, keep, r.value.ids)
      && WeightsOk(scores, r.value.ids, scaling, r.value.weights)
  {
    keep := [];
    if groups == 0 || |scores| % groups != 0 {
      return Err(GroupsDoNotDivide), [];
    }
    var sel, size := Biased(scores, bias), |scores| / groups;
    Exact(|scores|, groups);
    var kept := Kept(GroupScores(sel, groups, size), limit);
    TakenFacts(Finite(GroupScores(sel, groups, size)), limit);
    var masked := MaskedScores(sel, size, kept);
    if size > 0 {
      var mask := EligibleMask(groups, size, kept);
      masked := seq(|sel|, e requires 0 <= e < |sel| => if mask[e] then S.Fin(sel[e]) else S.NegInf);
      assert masked == MaskedScores(sel, size, kept);
    }
    var ids := Take(Ranking(masked), k);
    SelectionIsBest(scores, bias, groups, size, limit, k, kept, ids);
    var weights := Weigh(scores, ids, scaling);
    return Ok(Route(ids, weights)), kept;
  }

  lemma Exact(n: nat, groups: nat)
    requires groups > 0 && n % groups == 0
    ensures n == groups * (n / groups)
  {
  }
}
