/** How a routing decision depends on the balance bias: it is the only one that meets the selection rule,
    raising one expert's bias never drops that expert, and one constant added to every bias changes
    nothing. */
module RoutingBias {
  import opened Sorting
  import opened ExpertRouting
  import S = SparseSelection

  /** Of two sets of one size, the second holds something new if the first does. */
  lemma Exchange(a: set<nat>, b: set<nat>, x: nat) returns (y: nat)
    requires |a| == |b| && x in a && x !in b
    ensures y in b && y !in a
  {
    if b <= a {
      S.SubsetSize(b, a - {x});
    }
    y :| y in b && y !in a;
  }

  lemma ExchangeIds(a: seq<nat>, b: seq<nat>, x: nat) returns (y: nat)
    requires NoRepeats(a) && NoRepeats(b) && |a| == |b| && x in a && x !in b
    ensures y in b && y !in a
  {
    S.MembersSize(a);
    S.MembersSize(b);
    y := Exchange(S.Members(a), S.Members(b), x);
  }

  lemma GroupBelow(groups: nat, size: nat, e: nat)
    requires size > 0 && e < groups * size
    ensures e / size < groups
  {
    GroupInRange(groups, size, e);
  }

  // ---------------------------------------------------------------- one selection

  lemma AtMostOneAhead(groupScores: seq<real>, g: nat, h: nat)
    requires g < |groupScores| && h < |groupScores|
    ensures !(ScoresAhead(groupScores, g, h) && ScoresAhead(groupScores, h, g))
  {
  }

  /** The kept groups do not depend on who selects them. */
  lemma SameGroups(scores: seq<real>, bias: seq<real>, groups: nat, size: nat, limit: nat, keep: seq<nat>,
                   keep': seq<nat>, g: nat)
    requires |scores| == |bias| == groups * size && g in keep
    requires KeepsBest(scores, bias, groups, size, limit, keep) && KeepsBest(scores, bias, groups, size, limit, keep')
    ensures g in keep'
  {
    if g !in keep' {
      var h := ExchangeIds(keep, keep', g);
      assert GroupOutranks(scores, bias, size, g, h) && GroupOutranks(scores, bias, size, h, g);
      GroupOrder(scores, bias, groups, size, g, h);
      GroupOrder(scores, bias, groups, size, h, g);
      AtMostOneAhead(GroupScores(Biased(scores, bias), groups, size), g, h);
    }
  }

  /** The two lists keep the same groups. */
  ghost predicate SameKept(keep: seq<nat>, keep': seq<nat>) {
    forall g: nat :: g in keep <==> g in keep'
  }

  lemma BothKept(scores: seq<real>, bias: seq<real>, groups: nat, size: nat, limit: nat, keep: seq<nat>,
                 keep': seq<nat>)
    requires |scores| == |bias| == groups * size
    requires KeepsBest(scores, bias, groups, size, limit, keep) && KeepsBest(scores, bias, groups, size, limit, keep')
    ensures SameKept(keep, keep')
  {
    forall g: nat ensures g in keep <==> g in keep' {
      if g in keep {
        SameGroups(scores, bias, groups, size, limit, keep, keep', g);
      }
      if g in keep' {
        SameGroups(scores, bias, groups, size, limit, keep', keep, g);
      }
    }
  }

  lemma NotBoth(scores: seq<real>, bias: seq<real>, size: nat, keep: seq<nat>, keep': seq<nat>, a: nat, b: nat)
    requires |scores| == |bias| && SameKept(keep, keep')
    ensures !(Precedes(scores, bias, size, keep, a, b) && Precedes(scores, bias, size, keep', b, a))
  {
  }

  /** Everything in the first `n` places precedes everything else. */
  lemma HeadPrecedes(scores: seq<real>, bias: seq<real>, size: nat, keep: seq<nat>, k: nat, ids: seq<nat>, n: nat,
                     a: nat, b: nat)
    requires |scores| == |bias| && ChoosesBest(scores, bias, size, keep, k, ids) && n <= |ids|
    requires a in ids[..n] && b < |scores| && b !in ids[..n]
    ensures Precedes(scores, bias, size, keep, a, b)
  {
    var i :| 0 <= i < n && ids[i] == a;
    assert forall m :: 0 <= m < n ==> ids[..n][m] == ids[m];
    if b in ids {
      var j :| n <= j < |ids| && ids[j] == b;
      assert Precedes(scores, bias, size, keep, ids[i], ids[j]);
    }
  }

  /** Two selections agree place by place. */
  lemma {:induction false} SamePlaces(scores: seq<real>, bias: seq<real>, size: nat, keep: seq<nat>, keep': seq<nat>,
                                     k: nat, ids: seq<nat>, ids': seq<nat>, n: nat)
    requires |scores| == |bias| && SameKept(keep, keep') && n <= |ids| == |ids'|
    requires ChoosesBest(scores, bias, size, keep, k, ids) && ChoosesBest(scores, bias, size, keep', k, ids')
    ensures ids[..n] == ids'[..n]
  {
    if n > 0 {
      SamePlaces(scores, bias, size, keep, keep', k, ids, ids', n - 1);
      var a, b := ids[n - 1], ids'[n - 1];
      assert ids[..n] == ids[..n - 1] + [a] && ids'[..n] == ids'[..n - 1] + [b];
      if a != b {
        assert b !in ids[..n] && a !in ids'[..n];
        HeadPrecedes(scores, bias, size, keep, k, ids, n, a, b);
        HeadPrecedes(scores, bias, size, keep', k, ids', n, b, a);
        NotBoth(scores, bias, size, keep, keep', a, b);
      }
    }
  }

  /** Scores and biases leave one choice: the same experts in the same order. */
  lemma SelectionIsUnique(scores: seq<real>, bias: seq<real>, groups: nat, size: nat, limit: nat, k: nat,
                          keep: seq<nat>, ids: seq<nat>, keep': seq<nat>, ids': seq<nat>)
    requires Selects(scores, bias, groups, size, limit, k, keep, ids)
    requires Selects(scores, bias, groups, size, limit, k, keep', ids')
    ensures ids == ids'
  {
    BothKept(scores, bias, groups, size, limit, keep, keep');
    SamePlaces(scores, bias, size, keep, keep', k, ids, ids', |ids|);
    assert ids[..|ids|] == ids && ids'[..|ids|] == ids';
  }

  // ---------------------------------------------------------------- one bias raised

  /** `bias'` is `bias` with the bias of expert `e` raised or left alone. */
  ghost predicate RaisedAt(bias: seq<real>, bias': seq<real>, e: nat) {
    && |bias| == |bias'| && e < |bias| && bias[e] <= bias'[e]
    && (forall d :: 0 <= d < |bias| && d != e ==> bias[d] == bias'[d])
  }

  lemma RaisedGroup(scores: seq<real>, bias: seq<real>, bias': seq<real>, groups: nat, size: nat, e: nat, g: nat)
    requires |scores| == |bias| == groups * size && RaisedAt(bias, bias', e) && g < groups && size > 0
    ensures GroupScores(Biased(scores, bias), groups, size)[g] <= GroupScores(Biased(scores, bias'), groups, size)[g]
  {
    var sel, sel' := Biased(scores, bias), Biased(scores, bias');
    assert forall d :: 0 <= d < |sel| ==> sel[d] <= sel'[d];
    if size == 1 {
      SingleScore(sel, groups, size, g);
      SingleScore(sel', groups, size, g);
    } else {
      var a, b := BestPair(sel, groups, size, g);
      PairInGroup(sel', groups, size, g, a, b);
    }
  }

  lemma SameSlice(sel: seq<real>, sel': seq<real>, lo: nat, size: nat)
    requires lo + size <= |sel| == |sel'| && forall d :: lo <= d < lo + size ==> sel[d] == sel'[d]
    ensures sel[lo..lo + size] == sel'[lo..lo + size]
  {
  }

  lemma OtherGroup(scores: seq<real>, bias: seq<real>, bias': seq<real>, groups: nat, size: nat, e: nat, g: nat)
    requires |scores| == |bias| == groups * size && RaisedAt(bias, bias', e) && g < groups && size > 0 && g != e / size
    ensures GroupScores(Biased(scores, bias), groups, size)[g] == GroupScores(Biased(scores, bias'), groups, size)[g]
  {
    var sel, sel' := Biased(scores, bias), Biased(scores, bias');
    var lo := g * size;
    RowFits(groups, size, g);
    assert forall d :: lo <= d < lo + size ==> sel[d] == sel'[d] by {
      GroupOf(g, size, e);
    }
    SameSlice(sel, sel', lo, size);
  }

  /** The group of the raised expert stays ahead of whatever it was ahead of. */
  lemma StaysAhead(scores: seq<real>, bias: seq<real>, bias': seq<real>, groups: nat, size: nat, e: nat, h: nat)
    requires |scores| == |bias| == groups * size && RaisedAt(bias, bias', e) && size > 0
    requires e / size < groups && h < groups && h != e / size
    ensures !(GroupOutranks(scores, bias, size, e / size, h) && GroupOutranks(scores, bias', size, h, e / size))
  {
    GroupOrder(scores, bias, groups, size, e / size, h);
    GroupOrder(scores, bias', groups, size, h, e / size);
    RaisedGroup(scores, bias, bias', groups, size, e, e / size);
    OtherGroup(scores, bias, bias', groups, size, e, h);
  }

  /** Two other groups compare as before. */
  lemma OthersCompare(scores: seq<real>, bias: seq<real>, bias': seq<real>, groups: nat, size: nat, e: nat, g: nat,
                      h: nat)
    requires |scores| == |bias| == groups * size && RaisedAt(bias, bias', e) && size > 0
    requires g < groups && h < groups && g != e / size && h != e / size
    ensures !(GroupOutranks(scores, bias, size, g, h) && GroupOutranks(scores, bias', size, h, g))
  {
    GroupOrder(scores, bias, groups, size, g, h);
    GroupOrder(scores, bias', groups, size, h, g);
    OtherGroup(scores, bias, bias', groups, size, e, g);
    OtherGroup(scores, bias, bias', groups, size, e, h);
  }

  lemma GroupStaysKept(scores: seq<real>, bias: seq<real>, bias': seq<real>, groups: nat, size: nat, limit: nat,
                       keep: seq<nat>, keep': seq<nat>, e: nat)
    requires |scores| == |bias| == |bias'| == groups * size && RaisedAt(bias, bias', e) && size > 0 && e / size in keep
    requires KeepsBest(scores, bias, groups, size, limit, keep) && KeepsBest(scores, bias', groups, size, limit, keep')
    ensures e / size in keep'
  {
    var g := e / size;
    GroupBelow(groups, size, e);
    if g !in keep' {
      var h := ExchangeIds(keep, keep', g);
      assert GroupOutranks(scores, bias, size, g, h) && GroupOutranks(scores, bias', size, h, g);
      StaysAhead(scores, bias, bias', groups, size, e, h);
    }
  }

  lemma OthersStayKept(scores: seq<real>, bias: seq<real>, bias': seq<real>, groups: nat, size: nat, limit: nat,
                       keep: seq<nat>, keep': seq<nat>, e: nat, g: nat)
    requires |scores| == |bias| == |bias'| == groups * size && RaisedAt(bias, bias', e) && size > 0
    requires e / size in keep <==> e / size in keep'
    requires KeepsBest(scores, bias, groups, size, limit, keep) && KeepsBest(scores, bias', groups, size, limit, keep')
    ensures g in keep <==> g in keep'
  {
    if g in keep && g !in keep' {
      var h := ExchangeIds(keep, keep', g);
      assert GroupOutranks(scores, bias, size, g, h) && GroupOutranks(scores, bias', size, h, g);
      OthersCompare(scores, bias, bias', groups, size, e, g, h);
    }
    if g in keep' && g !in keep {
      var h := ExchangeIds(keep', keep, g);
      assert GroupOutranks(scores, bias', size, g, h) && GroupOutranks(scores, bias, size, h, g);
      OthersCompare(scores, bias, bias', groups, size, e, h, g);
    }
  }

  lemma RaisedPrecedes(scores: seq<real>, bias: seq<real>, bias': seq<real>, size: nat, keep: seq<nat>,
                       keep': seq<nat>, e: nat, b: nat)
    requires |scores| == |bias| && RaisedAt(bias, bias', e) && SameKept(keep, keep')
    ensures !(Precedes(scores, bias, size, keep, e, b) && Precedes(scores, bias', size, keep', b, e))
  {
  }

  /** Among the same groups, a raised expert stays chosen. */
  lemma StaysChosen(scores: seq<real>, bias: seq<real>, bias': seq<real>, size: nat, keep: seq<nat>, keep': seq<nat>,
                    k: nat, ids: seq<nat>, ids': seq<nat>, e: nat)
    requires |scores| == |bias| && RaisedAt(bias, bias', e) && SameKept(keep, keep') && e in ids
    requires ChoosesBest(scores, bias, size, keep, k, ids) && ChoosesBest(scores, bias', size, keep', k, ids')
    ensures e in ids'
  {
    if e !in ids' {
      var b := ExchangeIds(ids, ids', e);
      assert Precedes(scores, bias, size, keep, e, b) && Precedes(scores, bias', size, keep', b, e);
      RaisedPrecedes(scores, bias, bias', size, keep, keep', e, b);
    }
  }

  /** An expert that was chosen without being eligible is chosen when its group becomes kept: there is
      room for all eligible experts. */
  lemma RoomForAll(scores: seq<real>, bias: seq<real>, bias': seq<real>, groups: nat, size: nat, limit: nat, k: nat,
                   keep: seq<nat>, ids: seq<nat>, keep': seq<nat>, ids': seq<nat>, e: nat)
    requires Selects(scores, bias, groups, size, limit, k, keep, ids)
    requires Selects(scores, bias', groups, size, limit, k, keep', ids')
    requires e in ids && !Eligible(size, keep, e) && Eligible(size, keep', e)
    ensures e in ids'
  {
    var a :| a in ids' && !Eligible(size, keep', a);
    assert e in ids' || Precedes(scores, bias', size, keep', a, e);
  }

  /** Raising one expert's bias never drops it from the chosen. */
  lemma RaisingKeeps(scores: seq<real>, bias: seq<real>, bias': seq<real>, groups: nat, size: nat, limit: nat, k: nat,
                     keep: seq<nat>, ids: seq<nat>, keep': seq<nat>, ids': seq<nat>, e: nat)
    requires Selects(scores, bias, groups, size, limit, k, keep, ids) && RaisedAt(bias, bias', e) && e in ids
    requires Selects(scores, bias', groups, size, limit, k, keep', ids')
    ensures e in ids'
  {
    var g := e / size;
    if g in keep {
      GroupStaysKept(scores, bias, bias', groups, size, limit, keep, keep', e);
    }
    if g in keep' && g !in keep {
      RoomForAll(scores, bias, bias', groups, size, limit, k, keep, ids, keep', ids', e);
    } else {
      forall h: nat ensures h in keep <==> h in keep' {
        OthersStayKept(scores, bias, bias', groups, size, limit, keep, keep', e, h);
      }
      StaysChosen(scores, bias, bias', size, keep, keep', k, ids, ids', e);
    }
  }

  // ---------------------------------------------------------------- all biases shifted

  ghost predicate ShiftedBy(bias: seq<real>, bias': seq<real>, c: real) {
    |bias| == |bias'| && forall e :: 0 <= e < |bias| ==> bias'[e] == bias[e] + c
  }

  lemma ShiftedPairs(scores: seq<real>, bias: seq<real>, bias': seq<real>, c: real, size: nat, g: nat, h: nat, i: int,
                     j: int)
    requires |scores| == |bias| && ShiftedBy(bias, bias', c) && size > 0 && 0 <= i < |scores| && 0 <= j < |scores|
    requires BeatsPair(scores, bias, size, g, h, i, j)
    ensures BeatsPair(scores, bias', size, g, h, i, j)
  {
    var a, b :| Pair(|scores|, size, g, a, b) && PairOutranks(scores, bias, g < h, a, b, i, j);
    assert PairOutranks(scores, bias', g < h, a, b, i, j);
  }

  lemma ShiftedGroups(scores: seq<real>, bias: seq<real>, bias': seq<real>, c: real, size: nat, g: nat, h: nat)
    requires |scores| == |bias| && ShiftedBy(bias, bias', c) && (size == 1 ==> g < |scores| && h < |scores|)
    requires GroupOutranks(scores, bias, size, g, h)
    ensures GroupOutranks(scores, bias', size, g, h)
  {
    if size >= 2 {
      forall i, j | Pair(|scores|, size, h, i, j) ensures BeatsPair(scores, bias', size, g, h, i, j) {
        ShiftedPairs(scores, bias, bias', c, size, g, h, i, j);
      }
    }
  }

  /** What is selected with one bias is selected with the other. */
  lemma ShiftedSelects(scores: seq<real>, bias: seq<real>, bias': seq<real>, c: real, groups: nat, size: nat,
                       limit: nat, k: nat, keep: seq<nat>, ids: seq<nat>)
    requires Selects(scores, bias, groups, size, limit, k, keep, ids) && ShiftedBy(bias, bias', c)
    ensures Selects(scores, bias', groups, size, limit, k, keep, ids)
  {
    forall g: nat, h: nat | g in keep && h < groups && h !in keep ensures GroupOutranks(scores, bias', size, g, h) {
      ShiftedGroups(scores, bias, bias', c, size, g, h);
    }
    forall a, b | a in ids && 0 <= b < |scores| && b !in ids ensures Precedes(scores, bias', size, keep, a, b) {
      assert Precedes(scores, bias, size, keep, a, b);
    }
    forall i, j | 0 <= i < j < |ids| ensures Precedes(scores, bias', size, keep, ids[i], ids[j]) {
      assert Precedes(scores, bias, size, keep, ids[i], ids[j]);
    }
  }

  /** One constant added to every bias changes nothing. */
  lemma ShiftingChangesNothing(scores: seq<real>, bias: seq<real>, bias': seq<real>, c: real, groups: nat, size: nat,
                               limit: nat, k: nat, keep: seq<nat>, ids: seq<nat>, keep': seq<nat>, ids': seq<nat>)
    requires Selects(scores, bias, groups, size, limit, k, keep, ids) && ShiftedBy(bias, bias', c)
    requires Selects(scores, bias', groups, size, limit, k, keep', ids')
    ensures ids == ids'
  {
    ShiftedSelects(scores, bias, bias', c, groups, size, limit, k, keep, ids);
    SelectionIsUnique(scores, bias', groups, size, limit, k, keep, ids, keep', ids');
  }
}
