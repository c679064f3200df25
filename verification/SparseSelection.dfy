/** The sparse selection of the GLM-5.2 reference model: per-token top-k over masked indexer scores,
    for every way `topk` may break ties. */
module SparseSelection {
  import opened Sorting

  /** A score after the additive mask: a finite number, or minus infinity. */
  datatype Score = NegInf | Fin(value: real)

  predicate AtMost(a: Score, b: Score) {
    a.NegInf? || (b.Fin? && a.value <= b.value)
  }

  function Masked(scores: seq<real>, blocked: seq<bool>): (row: seq<Score>)
    requires |scores| == |blocked|
    ensures |row| == |scores|
    ensures forall j :: 0 <= j < |row| ==> row[j] == if blocked[j] then NegInf else Fin(scores[j])
  {
    seq(|scores|, j requires 0 <= j < |scores| => if blocked[j] then NegInf else Fin(scores[j]))
  }

  /** Choice `i` is no worse than position `j`, unless that is chosen too. */
  predicate Holds(row: seq<Score>, chosen: seq<nat>, i: nat, j: nat) {
    i < |chosen| && chosen[i] < |row| && j < |row| && j !in chosen ==> AtMost(row[j], row[chosen[i]])
  }

  /** What `topk` promises, and all it promises: `k` distinct positions that no other position beats. */
  ghost predicate IsTopK(row: seq<Score>, k: nat, chosen: seq<nat>) {
    && |chosen| == k && NoRepeats(chosen)
    && (forall i :: 0 <= i < k ==> chosen[i] < |row|)
    && (forall i: nat, j: nat {:trigger Holds(row, chosen, i, j)} :: Holds(row, chosen, i, j))
  }

  function Min(a: nat, b: nat): nat {
    if a <= b then a else b
  }

  function Visible(blocked: seq<bool>): set<nat> {
    set j | 0 <= j < |blocked| && !blocked[j]
  }

  function Members(s: seq<nat>): set<nat> {
    set j | j in s
  }

  /** The mask of a selection: blocked unless chosen and visible. */
  function LiveMask(blocked: seq<bool>, chosen: seq<nat>): (mask: seq<bool>)
    ensures |mask| == |blocked|
  {
    seq(|blocked|, j requires 0 <= j < |blocked| => blocked[j] || j !in chosen)
  }

  lemma LiveMaskShows(blocked: seq<bool>, chosen: seq<nat>)
    ensures Visible(LiveMask(blocked, chosen)) == LiveSet(blocked, chosen)
  {
  }

  /** Scatter zeros at the chosen positions of an all-blocked row, then re-add the base mask. */
  method SelectRow(blocked: seq<bool>, chosen: seq<nat>) returns (mask: seq<bool>)
    requires forall i :: 0 <= i < |chosen| ==> chosen[i] < |blocked|
    ensures mask == LiveMask(blocked, chosen)
  {
    var m := new bool[|blocked|](_ => true);
    for i := 0 to |chosen|
      invariant forall j :: 0 <= j < m.Length ==> (m[j] <==> j !in chosen[..i])
    {
      m[chosen[i]] := false;
    }
    assert chosen[..|chosen|] == chosen;
    mask := seq(|blocked|, j requires 0 <= j < |blocked| reads m => m[j] || blocked[j]);
  }

  // ---------------------------------------------------------------- live sets

  lemma {:induction false} MembersSize(s: seq<nat>)
    requires NoRepeats(s)
    ensures |Members(s)| == |s|
  {
    if s != [] {
      var rest, last := s[..|s| - 1], s[|s| - 1];
      MembersSize(rest);
      assert Members(s) == Members(rest) + {last};
      assert last !in rest;
    }
  }

  lemma {:induction false} VisibleBound(blocked: seq<bool>)
    ensures |Visible(blocked)| <= |blocked|
  {
    if blocked != [] {
      var rest, n := blocked[..|blocked| - 1], |blocked| - 1;
      VisibleBound(rest);
      assert Visible(blocked) == Visible(rest) + if blocked[n] then {} else {n};
    }
  }

  lemma {:induction false} SubsetSize(a: set<nat>, b: set<nat>)
    requires a <= b
    ensures |a| <= |b|
    ensures |a| == |b| ==> a == b
    decreases |a|
  {
    if x :| x in a {
      SubsetSize(a - {x}, b - {x});
      assert a == (a - {x}) + {x} && b == (b - {x}) + {x};
    } else if y :| y in b {
      assert |b| > 0;
    }
  }

  /** The live set of one row: the visible positions among the chosen ones. */
  function LiveSet(blocked: seq<bool>, chosen: seq<nat>): set<nat> {
    Visible(blocked) * Members(chosen)
  }

  predicate NotAbove(scores: seq<real>, b: nat, a: nat) {
    a < |scores| && b < |scores| ==> scores[b] <= scores[a]
  }

  predicate StrictlyBelow(scores: seq<real>, b: nat, a: nat) {
    a < |scores| && b < |scores| ==> scores[b] < scores[a]
  }

  /** No visible position outside `live` beats one inside it. */
  ghost predicate TopScoring(scores: seq<real>, visible: set<nat>, live: set<nat>) {
    && live <= visible
    && (forall a, b {:trigger NotAbove(scores, b, a)} ::
          a in live && b in visible && b !in live ==> NotAbove(scores, b, a))
  }

  /** For any tie-breaking, the live set is visible, has exactly `min(k, visible)` members, holds only
      top-scoring positions, and is everything visible when that fits. */
  lemma LiveSetFacts(scores: seq<real>, blocked: seq<bool>, k: nat, chosen: seq<nat>)
    requires |scores| == |blocked| && IsTopK(Masked(scores, blocked), Min(k, |scores|), chosen)
    ensures TopScoring(scores, Visible(blocked), LiveSet(blocked, chosen))
    ensures |LiveSet(blocked, chosen)| == Min(k, |Visible(blocked)|)
    ensures |Visible(blocked)| <= k ==> LiveSet(blocked, chosen) == Visible(blocked)
  {
    var row, picked, visible := Masked(scores, blocked), Members(chosen), Visible(blocked);
    var live := LiveSet(blocked, chosen);
    MembersSize(chosen);
    VisibleBound(blocked);
    forall a, b | a in live && b in visible && b !in live ensures NotAbove(scores, b, a) {
      var i :| 0 <= i < |chosen| && chosen[i] == a;
      assert Holds(row, chosen, i, b);
    }
    if i :| 0 <= i < |chosen| && blocked[chosen[i]] {
      BlockedChoice(scores, blocked, k, chosen, i);
    } else {
      forall x | x in picked ensures x in visible {
        var i :| 0 <= i < |chosen| && chosen[i] == x;
      }
      assert live == picked;
      SubsetSize(live, visible);
    }
  }

  /** A blocked position is chosen only once everything visible has been. */
  lemma BlockedChoice(scores: seq<real>, blocked: seq<bool>, k: nat, chosen: seq<nat>, i: nat)
    requires |scores| == |blocked| && IsTopK(Masked(scores, blocked), Min(k, |scores|), chosen)
    requires i < |chosen| && chosen[i] < |blocked| && blocked[chosen[i]]
    ensures LiveSet(blocked, chosen) == Visible(blocked) && |Visible(blocked)| < k
  {
    var row, picked, visible := Masked(scores, blocked), Members(chosen), Visible(blocked);
    forall b | b in visible ensures b in chosen {
      assert Holds(row, chosen, i, b);
    }
    MembersSize(chosen);
    SubsetSize(visible, picked - {chosen[i]});
  }

  // ---------------------------------------------------------------- when the live set is determined

  /** Every live score is strictly above every other visible score. */
  ghost predicate Separated(scores: seq<real>, visible: set<nat>, live: set<nat>) {
    && live <= visible
    && (forall a, b {:trigger StrictlyBelow(scores, b, a)} ::
          a in live && b in visible && b !in live ==> StrictlyBelow(scores, b, a))
  }

  lemma TopScoringUnique(scores: seq<real>, visible: set<nat>, a: set<nat>, b: set<nat>)
    requires (forall j :: j in visible ==> j < |scores|) && |a| == |b|
    requires TopScoring(scores, visible, a) && Separated(scores, visible, b)
    ensures a == b
  {
    if x :| x in a && x !in b {
      forall y | y in b ensures y in a {
        assert StrictlyBelow(scores, x, y);
        assert y !in a ==> NotAbove(scores, y, x);
      }
      SubsetSize(b, a);
    } else {
      SubsetSize(a, b);
    }
  }

  predicate Tied(scores: seq<real>, a: nat, b: nat) {
    a < |scores| && b < |scores| && scores[a] == scores[b]
  }

  /** No live score equals a visible score left out. */
  ghost predicate Untied(scores: seq<real>, visible: set<nat>, live: set<nat>) {
    forall a, b {:trigger Tied(scores, a, b)} :: a in live && b in visible && b !in live ==> !Tied(scores, a, b)
  }

  lemma UntiedSeparates(scores: seq<real>, visible: set<nat>, live: set<nat>)
    requires (forall j :: j in visible ==> j < |scores|) && TopScoring(scores, visible, live)
    ensures Untied(scores, visible, live) <==> Separated(scores, visible, live)
  {
    if Untied(scores, visible, live) {
      forall a, b | a in live && b in visible && b !in live ensures StrictlyBelow(scores, b, a) {
        assert NotAbove(scores, b, a) && !Tied(scores, a, b);
      }
    }
    if Separated(scores, visible, live) {
      forall a, b | a in live && b in visible && b !in live ensures !Tied(scores, a, b) {
        assert StrictlyBelow(scores, b, a);
      }
    }
  }

  /** Trading a chosen position for one of the same score that was left out is another answer. */
  lemma TradeTied(row: seq<Score>, k: nat, chosen: seq<nat>, i: nat, b: nat)
    requires IsTopK(row, k, chosen) && i < k && b < |row| && b !in chosen && row[b] == row[chosen[i]]
    ensures IsTopK(row, k, chosen[i := b])
  {
    var traded := chosen[i := b];
    forall j, m | 0 <= j < m < k ensures traded[j] != traded[m] {
      assert chosen[j] != chosen[m] && chosen[j] in chosen && chosen[m] in chosen;
    }
    forall j: nat, x: nat ensures Holds(row, traded, j, x) {
      if j < k && x < |row| && x !in traded {
        TradeHolds(row, k, chosen, i, b, j, x);
      }
    }
  }

  lemma TradeHolds(row: seq<Score>, k: nat, chosen: seq<nat>, i: nat, b: nat, j: nat, x: nat)
    requires IsTopK(row, k, chosen) && i < k && b < |row| && b !in chosen && row[b] == row[chosen[i]]
    requires j < k && x < |row| && x !in chosen[i := b]
    ensures AtMost(row[x], row[chosen[i := b][j]])
  {
    if x in chosen {
      var m :| 0 <= m < k && chosen[m] == x;
      assert chosen[i := b][m] == if m == i then b else x;
      assert Holds(row, chosen, j, b);
    } else {
      assert Holds(row, chosen, i, x) && Holds(row, chosen, j, x);
    }
  }

  /** Every answer of `topk` gives the same live set as this one. */
  ghost predicate Determined(scores: seq<real>, blocked: seq<bool>, k: nat, chosen: seq<nat>)
    requires |scores| == |blocked|
  {
    forall other :: IsTopK(Masked(scores, blocked), Min(k, |scores|), other) ==>
      LiveSet(blocked, other) == LiveSet(blocked, chosen)
  }

  lemma UntiedIsDetermined(scores: seq<real>, blocked: seq<bool>, k: nat, chosen: seq<nat>, other: seq<nat>)
    requires |scores| == |blocked| && IsTopK(Masked(scores, blocked), Min(k, |scores|), chosen)
    requires IsTopK(Masked(scores, blocked), Min(k, |scores|), other)
    requires Untied(scores, Visible(blocked), LiveSet(blocked, chosen))
    ensures LiveSet(blocked, other) == LiveSet(blocked, chosen)
  {
    LiveSetFacts(scores, blocked, k, chosen);
    LiveSetFacts(scores, blocked, k, other);
    UntiedSeparates(scores, Visible(blocked), LiveSet(blocked, chosen));
    TopScoringUnique(scores, Visible(blocked), LiveSet(blocked, other), LiveSet(blocked, chosen));
  }

  /** A tie lets `topk` answer otherwise. */
  lemma TieDecides(scores: seq<real>, blocked: seq<bool>, k: nat, chosen: seq<nat>) returns (other: seq<nat>)
    requires |scores| == |blocked| && IsTopK(Masked(scores, blocked), Min(k, |scores|), chosen)
    requires !Untied(scores, Visible(blocked), LiveSet(blocked, chosen))
    ensures IsTopK(Masked(scores, blocked), Min(k, |scores|), other)
    ensures LiveSet(blocked, other) != LiveSet(blocked, chosen)
  {
    var visible, live := Visible(blocked), LiveSet(blocked, chosen);
    var a, b :| a in live && b in visible && b !in live && Tied(scores, a, b);
    var i :| 0 <= i < |chosen| && chosen[i] == a;
    assert b !in chosen;
    TradeTied(Masked(scores, blocked), Min(k, |scores|), chosen, i, b);
    other := chosen[i := b];
    assert other[i] in other && b in LiveSet(blocked, other);
  }

  /** The live set does not depend on how `topk` breaks ties exactly when no live score equals a
      visible one left out. */
  lemma DeterminedExactlyWithoutTies(scores: seq<real>, blocked: seq<bool>, k: nat, chosen: seq<nat>)
    requires |scores| == |blocked| && IsTopK(Masked(scores, blocked), Min(k, |scores|), chosen)
    ensures Determined(scores, blocked, k, chosen) <==> Untied(scores, Visible(blocked), LiveSet(blocked, chosen))
  {
    if Untied(scores, Visible(blocked), LiveSet(blocked, chosen)) {
      forall other | IsTopK(Masked(scores, blocked), Min(k, |scores|), other)
        ensures LiveSet(blocked, other) == LiveSet(blocked, chosen)
      {
        UntiedIsDetermined(scores, blocked, k, chosen, other);
      }
    } else {
      var other := TieDecides(scores, blocked, k, chosen);
    }
  }

  // ---------------------------------------------------------------- a kernel

  /** Positions by falling score, the lower first among equals. */
  function BestFirst(row: seq<Score>): seq<nat> {
    Argsort(|row|, ByFall(row))
  }

  function ByFall(row: seq<Score>): (nat, nat) -> bool {
    (i: nat, j: nat) => j >= |row| || (i < |row| && AtMost(row[j], row[i]))
  }

  lemma ByFallIsOrder(row: seq<Score>)
    ensures TotalPreorder(ByFall(row))
  {
  }

  function TopOf(row: seq<Score>, k: nat): seq<nat> {
    if k <= |BestFirst(row)| then BestFirst(row)[..k] else []
  }

  /** A stable sort is one way to compute `topk`. */
  lemma TopOfIsTopK(row: seq<Score>, k: nat)
    requires k <= |row|
    ensures IsTopK(row, k, TopOf(row, k))
  {
    var best := BestFirst(row);
    ByFallIsOrder(row);
    ArgsortFacts(|row|, ByFall(row));
    forall i | 0 <= i < k ensures best[i] < |row| {
      assert best[i] in best;
    }
    forall i: nat, j: nat ensures Holds(row, best[..k], i, j) {
      if i < k && j < |row| && j !in best[..k] {
        assert j in best;
        var m :| 0 <= m < |best| && best[m] == j;
        assert m >= k ==> Ranked(ByFall(row), best[i], best[m]);
      }
    }
  }
}
