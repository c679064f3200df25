/** IndexShare in packed rounds: each sequence selects and computes what it does alone, exactly as
    long as its own selections meet no ties. */
module IndexPacking {
  import opened PackedForward
  import opened IndexShare
  import S = SparseSelection

  // ---------------------------------------------------------------- packed against standalone

  function Shift(s: set<nat>, lo: nat): set<nat> {
    set j | j in s :: lo + j
  }

  lemma {:induction false} ShiftSize(s: set<nat>, lo: nat)
    ensures |Shift(s, lo)| == |s|
  {
    if x :| x in s {
      ShiftSize(s - {x}, lo);
      var rest := s - {x};
      assert s == rest + {x};
      forall y: nat ensures y in Shift(s, lo) <==> y in Shift(rest, lo) + {lo + x} {
        assert y in Shift(rest, lo) ==> y - lo in rest;
      }
      assert Shift(s, lo) == Shift(rest, lo) + {lo + x};
      assert lo + x !in Shift(rest, lo);
    }
  }

  /** Row `p` of `alone`, moved `lo` to the right and blocked everywhere else. */
  ghost predicate RowShifts(row: seq<bool>, alone: seq<bool>, lo: nat) {
    && lo + |alone| <= |row|
    && (forall j :: 0 <= j < |row| ==> (row[j] <==> !(lo <= j < lo + |alone| && !alone[j - lo])))
  }

  ghost predicate MaskShifts(mask: Mask, alone: Mask, lo: nat) {
    && lo + |alone| <= |mask|
    && (forall p {:trigger RowShiftsAt(mask, alone, lo, p)} :: 0 <= p < |alone| ==> RowShiftsAt(mask, alone, lo, p))
  }

  ghost predicate RowShiftsAt(mask: Mask, alone: Mask, lo: nat, p: nat)
    requires p < |alone| && lo + |alone| <= |mask|
  {
    RowShifts(mask[lo + p], alone[p], lo)
  }

  lemma RowFromLive(row: seq<bool>, alone: seq<bool>, lo: nat)
    requires lo + |alone| <= |row| && S.Visible(row) == Shift(S.Visible(alone), lo)
    ensures RowShifts(row, alone, lo)
  {
    forall j | 0 <= j < |row| ensures row[j] <==> !(lo <= j < lo + |alone| && !alone[j - lo]) {
      assert !row[j] <==> j in S.Visible(row);
      if lo <= j < lo + |alone| {
        assert !alone[j - lo] <==> j - lo in S.Visible(alone);
        assert j - lo in S.Visible(alone) ==> lo + (j - lo) in Shift(S.Visible(alone), lo);
      }
    }
  }

  // ---------------------------------------------------------------- one row, packed and alone

  /** One row of a selection: its scores, its base mask and what `topk` chose. */
  datatype Row = Row(scores: seq<real>, blocked: seq<bool>, chosen: seq<nat>)

  ghost predicate Answered(row: Row, k: nat) {
    && |row.scores| == |row.blocked|
    && S.IsTopK(S.Masked(row.scores, row.blocked), S.Min(k, |row.scores|), row.chosen)
  }

  function LiveOf(row: Row): set<nat> {
    S.LiveSet(row.blocked, row.chosen)
  }

  function MaskOf(row: Row): seq<bool> {
    S.LiveMask(row.blocked, row.chosen)
  }

  ghost predicate RowUntied(row: Row) {
    S.Untied(row.scores, S.Visible(row.blocked), LiveOf(row))
  }

  /** What packing keeps: the `n` visible scores of the row alone, moved `lo` to the right. */
  ghost predicate PairsUp(packed: Row, alone: Row, lo: nat, n: nat, k: nat) {
    && Answered(packed, k) && Answered(alone, k)
    && S.Visible(packed.blocked) == Interval(lo, n) && S.Visible(alone.blocked) == Interval(0, n)
    && lo + |alone.scores| <= |packed.scores| && n <= |alone.scores|
    && forall i :: 0 <= i < n ==> packed.scores[lo + i] == alone.scores[i]
  }

  lemma PairFacts(packed: Row, alone: Row, lo: nat, n: nat, k: nat)
    requires PairsUp(packed, alone, lo, n, k)
    ensures S.TopScoring(packed.scores, Interval(lo, n), LiveOf(packed))
    ensures S.TopScoring(alone.scores, Interval(0, n), LiveOf(alone))
    ensures |LiveOf(packed)| == |LiveOf(alone)|
  {
    S.LiveSetFacts(packed.scores, packed.blocked, k, packed.chosen);
    S.LiveSetFacts(alone.scores, alone.blocked, k, alone.chosen);
    IntervalSize(lo, n);
    IntervalSize(0, n);
  }

  /** The same scores, shifted, with a selection that is strictly separated when alone: the packed
      selection is the shifted one. */
  lemma SelectionShifts(scores: seq<real>, alone: seq<real>, lo: nat, n: nat, live: set<nat>, liveAlone: set<nat>)
    requires lo + n <= |scores| && n <= |alone| && forall i :: 0 <= i < n ==> scores[lo + i] == alone[i]
    requires S.TopScoring(scores, Interval(lo, n), live) && S.Separated(alone, Interval(0, n), liveAlone)
    requires |live| == |liveAlone|
    ensures live == Shift(liveAlone, lo)
  {
    var moved := Shift(liveAlone, lo);
    ShiftSize(liveAlone, lo);
    forall j: nat ensures (j in Interval(lo, n) <==> lo <= j < lo + n) && (j in Interval(0, n) <==> j < n) {
      IntervalMember(lo, n, j);
      IntervalMember(0, n, j);
    }
    forall a, b | a in moved && b in Interval(lo, n) && b !in moved ensures S.StrictlyBelow(scores, b, a) {
      assert a - lo in liveAlone && b - lo !in liveAlone;
      assert S.StrictlyBelow(alone, b - lo, a - lo);
      assert scores[lo + (a - lo)] == alone[a - lo] && scores[lo + (b - lo)] == alone[b - lo];
    }
    S.TopScoringUnique(scores, Interval(lo, n), live, moved);
  }

  lemma InInterval(n: nat, m: nat)
    requires n <= m
    ensures forall j :: j in Interval(0, n) ==> j < m
  {
    forall j | j in Interval(0, n) ensures j < m {
      IntervalMember(0, n, j);
    }
  }

  /** Without a tie, the packed row is the row alone, shifted. */
  lemma UntiedRowShifts(packed: Row, alone: Row, lo: nat, n: nat, k: nat)
    requires PairsUp(packed, alone, lo, n, k) && RowUntied(alone)
    ensures RowShifts(MaskOf(packed), MaskOf(alone), lo)
  {
    PairFacts(packed, alone, lo, n, k);
    InInterval(n, |alone.scores|);
    S.UntiedSeparates(alone.scores, Interval(0, n), LiveOf(alone));
    SelectionShifts(packed.scores, alone.scores, lo, n, LiveOf(packed), LiveOf(alone));
    S.LiveMaskShows(packed.blocked, packed.chosen);
    S.LiveMaskShows(alone.blocked, alone.chosen);
    RowFromLive(MaskOf(packed), MaskOf(alone), lo);
  }

  lemma LiveFromRow(row: seq<bool>, alone: seq<bool>, lo: nat)
    requires RowShifts(row, alone, lo)
    ensures S.Visible(row) == Shift(S.Visible(alone), lo)
  {
    forall j: nat ensures j in S.Visible(row) <==> j in Shift(S.Visible(alone), lo) {
      assert j in S.Visible(row) ==> j - lo in S.Visible(alone);
    }
  }

  /** Wherever a row alone is tied, so is a packed row with the shifted selection. */
  lemma TieShifts(scores: seq<real>, alone: seq<real>, lo: nat, n: nat, live: set<nat>)
    requires lo + n <= |scores| && n <= |alone| && forall i :: 0 <= i < n ==> scores[lo + i] == alone[i]
    requires live <= Interval(0, n) && !S.Untied(alone, Interval(0, n), live)
    ensures !S.Untied(scores, Interval(lo, n), Shift(live, lo))
  {
    var a, b :| a in live && b in Interval(0, n) && b !in live && S.Tied(alone, a, b);
    IntervalMember(0, n, a);
    IntervalMember(0, n, b);
    IntervalMember(lo, n, lo + b);
    assert lo + a in Shift(live, lo) && lo + b !in Shift(live, lo);
    assert S.Tied(scores, lo + a, lo + b);
  }

  /** With a tie, `topk` may answer the packed row otherwise. */
  lemma TiedAnswer(packed: Row, alone: Row, lo: nat, n: nat, k: nat) returns (answer: seq<nat>)
    requires PairsUp(packed, alone, lo, n, k) && !RowUntied(alone)
    ensures Answered(packed.(chosen := answer), k)
    ensures !RowShifts(MaskOf(packed.(chosen := answer)), MaskOf(alone), lo)
  {
    answer := packed.chosen;
    S.LiveMaskShows(alone.blocked, alone.chosen);
    if LiveOf(packed) == Shift(LiveOf(alone), lo) {
      TieShifts(packed.scores, alone.scores, lo, n, LiveOf(alone));
      answer := S.TieDecides(packed.scores, packed.blocked, k, packed.chosen);
    }
    S.LiveMaskShows(packed.blocked, answer);
    if RowShifts(MaskOf(packed.(chosen := answer)), MaskOf(alone), lo) {
      LiveFromRow(MaskOf(packed.(chosen := answer)), MaskOf(alone), lo);
    }
  }

  // ---------------------------------------------------------------- a sequence, packed and alone

  /** `alone` is sequence `s` of the packed round, run by itself. */
  ghost predicate RunsAlone(packed: Round, lens: seq<nat>, s: nat, alone: Round) {
    && s < |lens| && Runnable(packed) && Runnable(alone)
    && |packed.start| == Total(lens) && IsMask(lens, packed.base) && IsMask([lens[s]], alone.base)
    && alone.start == Segment(packed.start, lens, s) && alone.ropes == Segment(packed.ropes, lens, s)
    && alone.layers == packed.layers && alone.k == packed.k && alone.topk == packed.topk && IsKernel(alone.topk)
  }

  function RowOf(layer: SparseLayer, h: seq<Vec>, r: Round, t: nat): Row
    requires |h| == |r.ropes| == |r.base| && t < |h| && |r.base[t]| == |h|
  {
    Row(ScoresRow(layer, h, r.ropes, t), r.base[t], Chosen(layer, h, r, t))
  }

  /** No live score of row `p` equals a visible one left out. */
  ghost predicate NoTieAt(r: Round, layer: SparseLayer, h: seq<Vec>, p: nat)
    requires Shaped(r) && |h| == |r.start| && p < |h|
  {
    RowUntied(RowOf(layer, h, r, p))
  }

  ghost predicate NoTies(r: Round, layer: SparseLayer, h: seq<Vec>)
    requires Shaped(r) && |h| == |r.start|
  {
    forall p {:trigger NoTieAt(r, layer, h, p)} :: 0 <= p < |h| ==> NoTieAt(r, layer, h, p)
  }

  ghost predicate NoTiesIn(r: Round, i: nat)
    requires Runnable(r) && i < |r.layers|
  {
    r.layers[i].leader ==> NoTies(r, r.layers[i], Mapped(r.layers[i].norm, Input(r, i)))
  }

  /** No leader among the first `i` layers meets a tie. */
  ghost predicate NoTiesBefore(r: Round, i: nat)
    requires Runnable(r) && i <= |r.layers|
  {
    i == 0 || (NoTiesBefore(r, i - 1) && NoTiesIn(r, i - 1))
  }

  lemma {:induction false} NoTiesEarlier(r: Round, i: nat, l: nat)
    requires Runnable(r) && l < i <= |r.layers| && NoTiesBefore(r, i)
    ensures NoTiesBefore(r, l) && NoTiesIn(r, l)
  {
    if l < i - 1 {
      NoTiesEarlier(r, i - 1, l);
    }
  }

  lemma OwnStart(n: nat)
    ensures Start([n], 0) == 0 && Total([n]) == n
  {
    assert [n][..0] == [];
  }

  lemma AloneVisible(base: Mask, n: nat, p: nat)
    requires IsMask([n], base) && p < n
    ensures |base| == n && |base[p]| == n && S.Visible(base[p]) == Interval(0, p + 1)
  {
    OwnStart(n);
    VisiblePrefix([n], base, 0, p);
  }

  lemma RowAnswered(layer: SparseLayer, h: seq<Vec>, r: Round, t: nat)
    requires Shaped(r) && |h| == |r.start| && IsKernel(r.topk) && t < |h|
    ensures Answered(RowOf(layer, h, r, t), r.k)
  {
    assert KernelAt(r.topk, S.Masked(ScoresRow(layer, h, r.ropes, t), r.base[t]), S.Min(r.k, |h|));
  }

  lemma ScoresPaired(layer: SparseLayer, h: seq<Vec>, ropes: seq<Vec>, lo: nat, n: nat, p: nat)
    requires |h| == |ropes| && lo + n <= |h| && p < n
    ensures forall i :: 0 <= i < p + 1 ==>
      ScoresRow(layer, h, ropes, lo + p)[lo + i] == ScoresRow(layer, Slice(h, lo, n), Slice(ropes, lo, n), p)[i]
  {
  }

  lemma PairRows(
    layer: SparseLayer, h: seq<Vec>, h': seq<Vec>, packed: Round, alone: Round, lo: nat, n: nat, p: nat)
    requires Shaped(packed) && Shaped(alone) && |h| == |packed.start| && |h'| == |alone.start| == n && lo + n <= |h|
    requires h' == Slice(h, lo, n) && alone.ropes == Slice(packed.ropes, lo, n) && packed.k == alone.k && p < n
    requires IsKernel(packed.topk) && IsKernel(alone.topk)
    requires S.Visible(packed.base[lo + p]) == Interval(lo, p + 1) && S.Visible(alone.base[p]) == Interval(0, p + 1)
    ensures PairsUp(RowOf(layer, h, packed, lo + p), RowOf(layer, h', alone, p), lo, p + 1, alone.k)
  {
    RowAnswered(layer, h, packed, lo + p);
    RowAnswered(layer, h', alone, p);
    ScoresPaired(layer, h, packed.ropes, lo, n, p);
  }

  lemma RowsPairUp(layer: SparseLayer, h: seq<Vec>, packed: Round, lens: seq<nat>, s: nat, alone: Round, p: nat)
    requires RunsAlone(packed, lens, s, alone) && |h| == Total(lens) && p < lens[s]
    ensures Start(lens, s) + lens[s] <= |h|
    ensures PairsUp(RowOf(layer, h, packed, Start(lens, s) + p), RowOf(layer, Segment(h, lens, s), alone, p),
                    Start(lens, s), p + 1, alone.k)
  {
    SegmentFits(lens, s);
    VisiblePrefix(lens, packed.base, s, p);
    AloneVisible(alone.base, lens[s], p);
    PairRows(layer, h, Segment(h, lens, s), packed, alone, Start(lens, s), lens[s], p);
  }

  /** A leader's packed selection for a token is its standalone selection, shifted. */
  lemma LeaderRowShifts(layer: SparseLayer, h: seq<Vec>, packed: Round, lens: seq<nat>, s: nat, alone: Round, p: nat)
    requires RunsAlone(packed, lens, s, alone) && |h| == Total(lens) && p < lens[s]
    requires NoTieAt(alone, layer, Segment(h, lens, s), p)
    ensures Start(lens, s) + lens[s] <= |h|
    ensures RowShifts(SelectMask(layer, h, packed)[Start(lens, s) + p],
                      SelectMask(layer, Segment(h, lens, s), alone)[p], Start(lens, s))
  {
    RowsPairUp(layer, h, packed, lens, s, alone, p);
    UntiedRowShifts(RowOf(layer, h, packed, Start(lens, s) + p), RowOf(layer, Segment(h, lens, s), alone, p),
                    Start(lens, s), p + 1, alone.k);
  }

  // ---------------------------------------------------------------- and only without ties

  /** The question `topk` is asked about a row. */
  function Asked(row: Row): seq<S.Score>
    requires |row.scores| == |row.blocked|
  {
    S.Masked(row.scores, row.blocked)
  }

  /** A kernel that answers one question differently. */
  function Overridden(topk: TopK, row: seq<S.Score>, k: nat, answer: seq<nat>): TopK {
    (other: seq<S.Score>, n: nat) => if other == row && n == k then answer else topk(other, n)
  }

  lemma OverriddenIsKernel(topk: TopK, row: seq<S.Score>, k: nat, answer: seq<nat>)
    requires IsKernel(topk) && S.IsTopK(row, k, answer)
    ensures IsKernel(Overridden(topk, row, k, answer))
  {
    forall other, n: nat ensures KernelAt(Overridden(topk, row, k, answer), other, n) {
      assert KernelAt(topk, other, n);
    }
  }

  /** The row a kernel makes of the token, in the packed round or alone. */
  function Under(topk: TopK, layer: SparseLayer, h: seq<Vec>, r: Round, t: nat): Row
    requires |h| == |r.ropes| == |r.base| && t < |h| && |r.base[t]| == |h|
  {
    RowOf(layer, h, r.(topk := topk), t)
  }

  /** Every kernel that chooses for the token alone as this round does makes of its packed row its
      standalone row, shifted. */
  ghost predicate AlwaysShifts(
    layer: SparseLayer, h: seq<Vec>, h': seq<Vec>, packed: Round, alone: Round, lo: nat, p: nat)
    requires Shaped(packed) && Shaped(alone) && |h| == |packed.start| && |h'| == |alone.start|
    requires p < |h'| && lo + p < |h|
  {
    forall topk: TopK {:trigger IsKernel(topk)} ::
      IsKernel(topk) && Under(topk, layer, h', alone, p) == RowOf(layer, h', alone, p) ==>
        RowShifts(MaskOf(Under(topk, layer, h, packed, lo + p)), MaskOf(RowOf(layer, h', alone, p)), lo)
  }

  lemma OtherKernelRunsAlone(packed: Round, lens: seq<nat>, s: nat, alone: Round, topk: TopK)
    requires RunsAlone(packed, lens, s, alone) && IsKernel(topk)
    ensures RunsAlone(packed.(topk := topk), lens, s, alone.(topk := topk))
  {
  }

  /** Without a tie, every such kernel shifts. */
  lemma UntiedShifts(
    topk: TopK, layer: SparseLayer, h: seq<Vec>, packed: Round, lens: seq<nat>, s: nat, alone: Round, p: nat)
    requires RunsAlone(packed, lens, s, alone) && |h| == Total(lens) && p < lens[s] && IsKernel(topk)
    requires NoTieAt(alone, layer, Segment(h, lens, s), p)
    requires Under(topk, layer, Segment(h, lens, s), alone, p) == RowOf(layer, Segment(h, lens, s), alone, p)
    ensures Start(lens, s) + lens[s] <= |h|
    ensures RowShifts(MaskOf(Under(topk, layer, h, packed, Start(lens, s) + p)),
                      MaskOf(RowOf(layer, Segment(h, lens, s), alone, p)), Start(lens, s))
  {
    OtherKernelRunsAlone(packed, lens, s, alone, topk);
    RowsPairUp(layer, h, packed.(topk := topk), lens, s, alone.(topk := topk), p);
    UntiedRowShifts(Under(topk, layer, h, packed, Start(lens, s) + p), RowOf(layer, Segment(h, lens, s), alone, p),
                    Start(lens, s), p + 1, alone.k);
  }

  /** A kernel that answers otherwise for the packed row and as before for the row alone, which is
      shorter. */
  lemma Overriding(
    layer: SparseLayer, h: seq<Vec>, h': seq<Vec>, packed: Round, alone: Round, t: nat, p: nat, answer: seq<nat>)
    returns (topk: TopK)
    requires Shaped(packed) && Shaped(alone) && |h| == |packed.start| && |h'| == |alone.start| && |h'| != |h|
    requires p < |h'| && t < |h| && IsKernel(alone.topk)
    requires Answered(RowOf(layer, h, packed, t).(chosen := answer), packed.k)
    ensures IsKernel(topk) && Under(topk, layer, h', alone, p) == RowOf(layer, h', alone, p)
    ensures Under(topk, layer, h, packed, t) == RowOf(layer, h, packed, t).(chosen := answer)
  {
    var row, k := Asked(RowOf(layer, h, packed, t)), S.Min(packed.k, |h|);
    topk := Overridden(alone.topk, row, k, answer);
    OverriddenIsKernel(alone.topk, row, k, answer);
    assert |Asked(RowOf(layer, h', alone, p))| != |row|;
  }

  lemma NotAlways(
    topk: TopK, layer: SparseLayer, h: seq<Vec>, h': seq<Vec>, packed: Round, alone: Round, lo: nat, p: nat)
    requires Shaped(packed) && Shaped(alone) && |h| == |packed.start| && |h'| == |alone.start|
    requires p < |h'| && lo + p < |h|
    requires IsKernel(topk) && Under(topk, layer, h', alone, p) == RowOf(layer, h', alone, p)
    requires !RowShifts(MaskOf(Under(topk, layer, h, packed, lo + p)), MaskOf(RowOf(layer, h', alone, p)), lo)
    ensures !AlwaysShifts(layer, h, h', packed, alone, lo, p)
  {
  }

  /** With a tie, some such kernel does not shift. */
  lemma TiedBreaks(
    layer: SparseLayer, h: seq<Vec>, h': seq<Vec>, packed: Round, alone: Round, lo: nat, n: nat, p: nat)
    requires Shaped(packed) && Shaped(alone) && |h| == |packed.start| && |h'| == |alone.start| == n && lo + n <= |h|
    requires h' == Slice(h, lo, n) && alone.ropes == Slice(packed.ropes, lo, n) && packed.k == alone.k && p < n
    requires IsKernel(packed.topk) && IsKernel(alone.topk) && n != |h|
    requires S.Visible(packed.base[lo + p]) == Interval(lo, p + 1) && S.Visible(alone.base[p]) == Interval(0, p + 1)
    requires !RowUntied(RowOf(layer, h', alone, p))
    ensures !AlwaysShifts(layer, h, h', packed, alone, lo, p)
  {
    var answer := AnotherAnswer(layer, h, h', packed, alone, lo, n, p);
    AnswerBreaks(layer, h, h', packed, alone, lo, p, answer);
  }

  lemma AnswerBreaks(
    layer: SparseLayer, h: seq<Vec>, h': seq<Vec>, packed: Round, alone: Round, lo: nat, p: nat, answer: seq<nat>)
    requires Shaped(packed) && Shaped(alone) && |h| == |packed.start| && |h'| == |alone.start| && |h'| != |h|
    requires p < |h'| && lo + p < |h| && IsKernel(alone.topk)
    requires Answered(RowOf(layer, h, packed, lo + p).(chosen := answer), packed.k)
    requires
      !RowShifts(MaskOf(RowOf(layer, h, packed, lo + p).(chosen := answer)), MaskOf(RowOf(layer, h', alone, p)), lo)
    ensures !AlwaysShifts(layer, h, h', packed, alone, lo, p)
  {
    var topk := Overriding(layer, h, h', packed, alone, lo + p, p, answer);
    NotAlways(topk, layer, h, h', packed, alone, lo, p);
  }

  lemma AnotherAnswer(
    layer: SparseLayer, h: seq<Vec>, h': seq<Vec>, packed: Round, alone: Round, lo: nat, n: nat, p: nat)
    returns (answer: seq<nat>)
    requires Shaped(packed) && Shaped(alone) && |h| == |packed.start| && |h'| == |alone.start| == n && lo + n <= |h|
    requires h' == Slice(h, lo, n) && alone.ropes == Slice(packed.ropes, lo, n) && packed.k == alone.k && p < n
    requires IsKernel(packed.topk) && IsKernel(alone.topk)
    requires S.Visible(packed.base[lo + p]) == Interval(lo, p + 1) && S.Visible(alone.base[p]) == Interval(0, p + 1)
    requires !RowUntied(RowOf(layer, h', alone, p))
    ensures Answered(RowOf(layer, h, packed, lo + p).(chosen := answer), packed.k)
    ensures
      !RowShifts(MaskOf(RowOf(layer, h, packed, lo + p).(chosen := answer)), MaskOf(RowOf(layer, h', alone, p)), lo)
  {
    PairRows(layer, h, h', packed, alone, lo, n, p);
    answer := TiedAnswer(RowOf(layer, h, packed, lo + p), RowOf(layer, h', alone, p), lo, p + 1, alone.k);
  }

  lemma TiedNotAlways(layer: SparseLayer, h: seq<Vec>, packed: Round, lens: seq<nat>, s: nat, alone: Round, p: nat)
    requires RunsAlone(packed, lens, s, alone) && |h| == Total(lens) != lens[s] && p < lens[s]
    requires !NoTieAt(alone, layer, Segment(h, lens, s), p) && Start(lens, s) + lens[s] <= |h|
    ensures !AlwaysShifts(layer, h, Segment(h, lens, s), packed, alone, Start(lens, s), p)
  {
    VisiblePrefix(lens, packed.base, s, p);
    AloneVisible(alone.base, lens[s], p);
    TiedBreaks(layer, h, Segment(h, lens, s), packed, alone, Start(lens, s), lens[s], p);
  }

  lemma UntiedAlwaysShifts(
    layer: SparseLayer, h: seq<Vec>, packed: Round, lens: seq<nat>, s: nat, alone: Round, p: nat)
    requires RunsAlone(packed, lens, s, alone) && |h| == Total(lens) && p < lens[s]
    requires NoTieAt(alone, layer, Segment(h, lens, s), p) && Start(lens, s) + lens[s] <= |h|
    ensures AlwaysShifts(layer, h, Segment(h, lens, s), packed, alone, Start(lens, s), p)
  {
    forall topk: TopK | IsKernel(topk) &&
      Under(topk, layer, Segment(h, lens, s), alone, p) == RowOf(layer, Segment(h, lens, s), alone, p)
      ensures RowShifts(MaskOf(Under(topk, layer, h, packed, Start(lens, s) + p)),
                        MaskOf(RowOf(layer, Segment(h, lens, s), alone, p)), Start(lens, s))
    {
      UntiedShifts(topk, layer, h, packed, lens, s, alone, p);
    }
  }

  /** In a round with other tokens, a token's packed selection is its standalone selection, shifted, for
      every kernel that answers alike when the token is alone, exactly when that selection met no tie. */
  lemma LeaderRowShiftsExactly(
    layer: SparseLayer, h: seq<Vec>, packed: Round, lens: seq<nat>, s: nat, alone: Round, p: nat)
    requires RunsAlone(packed, lens, s, alone) && |h| == Total(lens) != lens[s] && p < lens[s]
    ensures Start(lens, s) + lens[s] <= |h|
    ensures AlwaysShifts(layer, h, Segment(h, lens, s), packed, alone, Start(lens, s), p) <==>
      NoTieAt(alone, layer, Segment(h, lens, s), p)
  {
    SegmentFits(lens, s);
    if NoTieAt(alone, layer, Segment(h, lens, s), p) {
      UntiedAlwaysShifts(layer, h, packed, lens, s, alone, p);
    } else {
      TiedNotAlways(layer, h, packed, lens, s, alone, p);
    }
  }

  // ---------------------------------------------------------------- a tied round

  /** A leader that scores all keys alike. */
  function Indifferent(): SparseLayer {
    SparseLayer(true, (x: Vec) => x,
                FullMixer((x: Vec, r: Vec) => x, (x: Vec, r: Vec) => x, (x: Vec) => x,
                          (q: Vec, keys: seq<(Vec, Vec)>) => q, (x: Vec, h: Vec) => x),
                (x: Vec, r: Vec, y: Vec, q: Vec) => 0.0, (x: Vec) => x)
  }

  /** Two tokens of one sequence, then one of another; and the first two alone. */
  function TiedPacked(topk: TopK): Round {
    Round([Indifferent()], [[], [], []], [[], [], []],
          [[false, true, true], [false, false, true], [true, true, false]], 1, topk)
  }

  function TiedAlone(topk: TopK): Round {
    Round([Indifferent()], [[], []], [[], []], [[false, true], [false, false]], 1, topk)
  }

  lemma TwoAndOne()
    ensures Total([2, 1]) == 3 && Total([2]) == 2 && Start([2, 1], 0) == 0
    ensures SeqOf([2, 1], 0) == 0 && SeqOf([2, 1], 1) == 0 && SeqOf([2, 1], 2) == 1
    ensures SeqOf([2], 0) == 0 && SeqOf([2], 1) == 0
  {
    OwnStart(2);
    assert [2, 1][..1] == [2] && [2, 1][..0] == [] && [2][..0] == [];
  }

  lemma TiedMasks(topk: TopK)
    ensures IsMask([2, 1], TiedPacked(topk).base) && IsMask([2], TiedAlone(topk).base)
  {
    TwoAndOne();
    var base, base' := TiedPacked(topk).base, TiedAlone(topk).base;
    assert IsMaskRow([2, 1], base[0], 0) && IsMaskRow([2, 1], base[1], 1) && IsMaskRow([2, 1], base[2], 2);
    assert IsMaskRow([2], base'[0], 0) && IsMaskRow([2], base'[1], 1);
  }

  lemma TiedRunsAlone(topk: TopK)
    requires IsKernel(topk)
    ensures RunsAlone(TiedPacked(topk), [2, 1], 0, TiedAlone(topk))
  {
    TwoAndOne();
    TiedMasks(topk);
  }

  /** The second token sees two keys of one score and selects one of them. */
  lemma TiedToken(topk: TopK)
    requires IsKernel(topk)
    ensures !NoTieAt(TiedAlone(topk), Indifferent(), [[], []], 1)
  {
    var row := RowOf(Indifferent(), [[], []], TiedAlone(topk), 1);
    RowAnswered(Indifferent(), [[], []], TiedAlone(topk), 1);
    var a := row.chosen[0];
    var b := 1 - a;
    assert a in LiveOf(row) && b in S.Visible(row.blocked) && b !in LiveOf(row);
    assert S.Tied(row.scores, a, b);
  }

  /** A packed round whose selection for a token is not its standalone selection, with one kernel. */
  lemma TiedRoundDiffers() returns (topk: TopK)
    ensures RunsAlone(TiedPacked(topk), [2, 1], 0, TiedAlone(topk))
    ensures !RowShifts(SelectMask(Indifferent(), [[], [], []], TiedPacked(topk))[1],
                       SelectMask(Indifferent(), [[], []], TiedAlone(topk))[1], 0)
  {
    var kernel := KernelExists();
    var h: seq<Vec>, h': seq<Vec> := [[], [], []], [[], []];
    var packed, alone := TiedPacked(kernel), TiedAlone(kernel);
    TiedRunsAlone(kernel);
    TwoAndOne();
    TiedToken(kernel);
    assert Segment(h, [2, 1], 0) == h';
    LeaderRowShiftsExactly(Indifferent(), h, packed, [2, 1], 0, alone, 1);
    assert !AlwaysShifts(Indifferent(), h, h', packed, alone, 0, 1);
    topk :| IsKernel(topk) && Under(topk, Indifferent(), h', alone, 1) == RowOf(Indifferent(), h', alone, 1) &&
      !RowShifts(MaskOf(Under(topk, Indifferent(), h, packed, 1)), MaskOf(RowOf(Indifferent(), h', alone, 1)), 0);
    TiedRunsAlone(topk);
  }

  // ---------------------------------------------------------------- attention under a shifted mask

  function ShiftSeq(live: seq<nat>, lo: nat): (r: seq<nat>)
    ensures |r| == |live| && forall i :: 0 <= i < |live| ==> r[i] == lo + live[i]
  {
    seq(|live|, i requires 0 <= i < |live| => lo + live[i])
  }

  lemma {:induction false} LiveShifts(row: seq<bool>, alone: seq<bool>, lo: nat, m: nat)
    requires RowShifts(row, alone, lo) && m <= |row|
    ensures Live(row, m) == if m <= lo then []
                            else ShiftSeq(Live(alone, if m <= lo + |alone| then m - lo else |alone|), lo)
  {
    if m > 0 {
      LiveShifts(row, alone, lo, m - 1);
    }
  }

  lemma {:induction false} LiveBound(blocked: seq<bool>, n: nat, i: nat)
    requires n <= |blocked| && i < |Live(blocked, n)|
    ensures Live(blocked, n)[i] < n
  {
    if i < |Live(blocked, n - 1)| {
      LiveBound(blocked, n - 1, i);
    }
  }

  lemma AttendedShifts(m: FullMixer, h: seq<Vec>, ropes: seq<Vec>, lo: nat, n: nat, p: nat, live: seq<nat>)
    requires |h| == |ropes| && lo + n <= |h| && p < n && forall i :: 0 <= i < |live| ==> live[i] < n
    ensures Attended(m, h, ropes, lo + p, ShiftSeq(live, lo)) ==
      Attended(m, Slice(h, lo, n), Slice(ropes, lo, n), p, live)
  {
    var keys, keys' := KeysAt(m, h, ropes, ShiftSeq(live, lo)), KeysAt(m, Slice(h, lo, n), Slice(ropes, lo, n), live);
    forall i | 0 <= i < |live| ensures keys[i] == keys'[i] {
      assert h[lo + live[i]] == Slice(h, lo, n)[live[i]] && ropes[lo + live[i]] == Slice(ropes, lo, n)[live[i]];
    }
    assert keys == keys';
  }

  lemma RowAttendsAlike(m: FullMixer, h: seq<Vec>, ropes: seq<Vec>, mask: Mask, alone: Mask, lo: nat, n: nat, p: nat)
    requires |h| == |ropes| == |mask| && lo + n <= |h| && |alone| == n && p < n
    requires |alone[p]| == n && RowShifts(mask[lo + p], alone[p], lo)
    ensures MaskedRows(m, h, ropes, mask)[lo + p] == MaskedRows(m, Slice(h, lo, n), Slice(ropes, lo, n), alone)[p]
  {
    var live := Live(alone[p], n);
    LiveShifts(mask[lo + p], alone[p], lo, |mask[lo + p]|);
    forall i | 0 <= i < |live| ensures live[i] < n {
      LiveBound(alone[p], n, i);
    }
    AttendedShifts(m, h, ropes, lo, n, p, live);
  }

  ghost predicate RowsLong(mask: Mask, n: nat) {
    forall t :: 0 <= t < |mask| ==> |mask[t]| == n
  }

  lemma AttentionAlike(m: FullMixer, h: seq<Vec>, ropes: seq<Vec>, mask: Mask, alone: Mask, lo: nat, n: nat)
    requires |h| == |ropes| == |mask| && lo + n <= |h| && |alone| == n && RowsLong(alone, n)
    requires MaskShifts(mask, alone, lo)
    ensures Slice(MaskedRows(m, h, ropes, mask), lo, n) == MaskedRows(m, Slice(h, lo, n), Slice(ropes, lo, n), alone)
  {
    var rows, rows' := MaskedRows(m, h, ropes, mask), MaskedRows(m, Slice(h, lo, n), Slice(ropes, lo, n), alone);
    forall p | 0 <= p < n ensures Slice(rows, lo, n)[p] == rows'[p] {
      assert RowShiftsAt(mask, alone, lo, p);
      RowAttendsAlike(m, h, ropes, mask, alone, lo, n, p);
    }
  }

  lemma BlockAlike(layer: SparseLayer, x: seq<Vec>, ropes: seq<Vec>, mask: Mask, alone: Mask, lens: seq<nat>, s: nat)
    requires |x| == |ropes| == |mask| == Total(lens) && s < |lens| && |alone| == lens[s] && RowsLong(alone, lens[s])
    requires MaskShifts(mask, alone, Start(lens, s))
    ensures Segment(BlockRows(layer, x, ropes, mask), lens, s) ==
      BlockRows(layer, Segment(x, lens, s), Segment(ropes, lens, s), alone)
  {
    var h := Mapped(layer.norm, x);
    var rows := MaskedRows(layer.mixer, h, ropes, mask);
    SegmentFits(lens, s);
    MappedSegment(layer.norm, x, lens, s);
    AttentionAlike(layer.mixer, h, ropes, mask, alone, Start(lens, s), lens[s]);
    AddedSegment(x, rows, lens, s);
    MappedSegment(layer.ffn, Added(x, rows), lens, s);
  }

  lemma SelectionAlike(layer: SparseLayer, h: seq<Vec>, packed: Round, lens: seq<nat>, s: nat, alone: Round)
    requires RunsAlone(packed, lens, s, alone) && |h| == Total(lens)
    requires forall p :: 0 <= p < lens[s] ==> NoTieAt(alone, layer, Segment(h, lens, s), p)
    ensures MaskShifts(SelectMask(layer, h, packed), SelectMask(layer, Segment(h, lens, s), alone), Start(lens, s))
    ensures RowsLong(SelectMask(layer, Segment(h, lens, s), alone), lens[s])
  {
    SegmentFits(lens, s);
    var mask, mask' := SelectMask(layer, h, packed), SelectMask(layer, Segment(h, lens, s), alone);
    forall p | 0 <= p < lens[s] ensures RowShiftsAt(mask, mask', Start(lens, s), p) {
      LeaderRowShifts(layer, h, packed, lens, s, alone, p);
    }
  }

  /** A block of any layer, under the selection a leader made on `h`. */
  lemma SelectedBlockAlike(
    leader: SparseLayer, h: seq<Vec>, h': seq<Vec>, layer: SparseLayer, x: seq<Vec>, x': seq<Vec>, packed: Round,
    lens: seq<nat>, s: nat, alone: Round)
    requires RunsAlone(packed, lens, s, alone) && |h| == |x| == Total(lens)
    requires h' == Segment(h, lens, s) && x' == Segment(x, lens, s) && NoTies(alone, leader, h')
    ensures Segment(BlockRows(layer, x, packed.ropes, SelectMask(leader, h, packed)), lens, s) ==
      BlockRows(layer, x', alone.ropes, SelectMask(leader, h', alone))
  {
    SelectionAlike(leader, h, packed, lens, s, alone);
    BlockAlike(layer, x, packed.ropes, SelectMask(leader, h, packed), SelectMask(leader, h', alone), lens, s);
  }

  /** What enters layer `i`, restricted to the packed sequence, is what enters it alone. */
  ghost predicate SameInput(packed: Round, lens: seq<nat>, s: nat, alone: Round, i: nat)
    requires RunsAlone(packed, lens, s, alone) && i <= |alone.layers|
  {
    Segment(Input(packed, i), lens, s) == Input(alone, i)
  }

  lemma StepStaysInside(packed: Round, lens: seq<nat>, s: nat, alone: Round, i: nat, l: nat)
    requires RunsAlone(packed, lens, s, alone) && i < |alone.layers| && l == Leader(alone.layers, i)
    requires SameInput(packed, lens, s, alone, l) && SameInput(packed, lens, s, alone, i)
    requires NoTiesBefore(alone, i + 1)
    ensures SameInput(packed, lens, s, alone, i + 1)
  {
    var leader := alone.layers[l];
    NoTiesEarlier(alone, i + 1, l);
    MappedSegment(leader.norm, Input(packed, l), lens, s);
    SelectedBlockAlike(leader, Mapped(leader.norm, Input(packed, l)), Mapped(leader.norm, Input(alone, l)),
                       alone.layers[i], Input(packed, i), Input(alone, i), packed, lens, s, alone);
  }

  /** A packed round does not leak between sequences: through every layer, leaders and followers, each
      sequence computes what it computes alone, as long as its own selections met no ties. */
  lemma {:induction false} InputStaysInside(packed: Round, lens: seq<nat>, s: nat, alone: Round, i: nat)
    requires RunsAlone(packed, lens, s, alone) && i <= |alone.layers| && NoTiesBefore(alone, i)
    ensures SameInput(packed, lens, s, alone, i)
    decreases i, 0
  {
    if i > 0 {
      InputStaysNext(packed, lens, s, alone, i - 1);
    }
  }

  lemma {:induction false} InputStaysNext(packed: Round, lens: seq<nat>, s: nat, alone: Round, i: nat)
    requires RunsAlone(packed, lens, s, alone) && i < |alone.layers| && NoTiesBefore(alone, i + 1)
    ensures SameInput(packed, lens, s, alone, i + 1)
    decreases i, 1
  {
    var l := Leader(alone.layers, i);
    NoTiesEarlier(alone, i + 1, l);
    NoTiesEarlier(alone, i + 1, i);
    InputStaysInside(packed, lens, s, alone, l);
    InputStaysInside(packed, lens, s, alone, i);
    StepStaysInside(packed, lens, s, alone, i, l);
  }
}
