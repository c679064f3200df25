/** Exactly when packing leaves a sequence's sparse attention alone: through all layers, whatever the
    `topk` kernel does with longer rows, if and only if the sequence's own selections met no tie. */
module IndexTies {
  import opened PackedForward
  import opened IndexShare
  import opened IndexPacking
  import S = SparseSelection

  /** Two kernels that answer rows of `n` scores alike. */
  ghost predicate AnswerAlike(topk: TopK, other: TopK, n: nat) {
    forall row, k {:trigger topk(row, k)} :: |row| == n ==> topk(row, k) == other(row, k)
  }

  // ---------------------------------------------------------------- the standalone run stays the same

  lemma SameRow(layer: SparseLayer, h: seq<Vec>, r: Round, topk: TopK, t: nat)
    requires Shaped(r) && |h| == |r.start| && t < |h| && AnswerAlike(topk, r.topk, |h|)
    ensures RowOf(layer, h, r.(topk := topk), t) == RowOf(layer, h, r, t)
  {
    var row := S.Masked(ScoresRow(layer, h, r.ropes, t), r.base[t]);
    assert topk(row, S.Min(r.k, |h|)) == r.topk(row, S.Min(r.k, |h|));
  }

  lemma SameSelection(layer: SparseLayer, h: seq<Vec>, r: Round, topk: TopK)
    requires Shaped(r) && |h| == |r.start| && AnswerAlike(topk, r.topk, |h|)
    ensures SelectMask(layer, h, r.(topk := topk)) == SelectMask(layer, h, r)
    ensures NoTies(r.(topk := topk), layer, h) <==> NoTies(r, layer, h)
  {
    var r' := r.(topk := topk);
    forall t | 0 <= t < |h|
      ensures SelectMask(layer, h, r')[t] == SelectMask(layer, h, r)[t]
      ensures NoTieAt(r', layer, h, t) <==> NoTieAt(r, layer, h, t)
    {
      SameRow(layer, h, r, topk, t);
    }
  }

  /** The same round with another kernel that answers its rows alike. */
  ghost predicate Twin(r: Round, other: Round) {
    Runnable(r) && Runnable(other) && other == r.(topk := other.topk) && AnswerAlike(other.topk, r.topk, |r.start|)
  }

  ghost predicate SameInputAt(r: Round, other: Round, i: nat)
    requires Twin(r, other) && i <= |r.layers|
  {
    Input(other, i) == Input(r, i)
  }

  ghost predicate SameMaskAt(r: Round, other: Round, i: nat)
    requires Twin(r, other) && i < |r.layers|
  {
    MaskAt(other, i) == MaskAt(r, i)
  }

  lemma TwinMask(r: Round, other: Round, i: nat, l: nat)
    requires Twin(r, other) && i < |r.layers| && l == Leader(r.layers, i) && SameInputAt(r, other, l)
    ensures SameMaskAt(r, other, i)
  {
    SameSelection(r.layers[l], Mapped(r.layers[l].norm, Input(r, l)), r, other.topk);
  }

  lemma TwinStep(r: Round, other: Round, i: nat, l: nat)
    requires Twin(r, other) && i < |r.layers| && l == Leader(r.layers, i)
    requires SameInputAt(r, other, l) && SameInputAt(r, other, i)
    ensures SameInputAt(r, other, i + 1)
  {
    TwinMask(r, other, i, l);
  }

  lemma {:induction false} SameRun(r: Round, other: Round, i: nat)
    requires Twin(r, other) && i <= |r.layers|
    ensures SameInputAt(r, other, i)
    decreases i, 0
  {
    if i > 0 {
      SameRunNext(r, other, i - 1, Leader(r.layers, i - 1));
    }
  }

  lemma {:induction false} SameRunNext(r: Round, other: Round, i: nat, l: nat)
    requires Twin(r, other) && i < |r.layers| && l == Leader(r.layers, i)
    ensures SameInputAt(r, other, i + 1)
    decreases i, 1
  {
    SameRun(r, other, l);
    SameRun(r, other, i);
    TwinStep(r, other, i, l);
  }

  lemma SameMask(r: Round, other: Round, i: nat)
    requires Twin(r, other) && i < |r.layers|
    ensures SameMaskAt(r, other, i)
  {
    SameRun(r, other, Leader(r.layers, i));
    TwinMask(r, other, i, Leader(r.layers, i));
  }

  lemma SameTiesAt(r: Round, other: Round, i: nat)
    requires Twin(r, other) && i < |r.layers| && SameInputAt(r, other, i)
    ensures NoTiesIn(other, i) <==> NoTiesIn(r, i)
  {
    SameSelection(r.layers[i], Mapped(r.layers[i].norm, Input(r, i)), r, other.topk);
  }

  lemma SameTiesIn(r: Round, other: Round, i: nat)
    requires Twin(r, other) && i < |r.layers|
    ensures NoTiesIn(other, i) <==> NoTiesIn(r, i)
  {
    SameRun(r, other, i);
    SameTiesAt(r, other, i);
  }

  lemma {:induction false} SameTies(r: Round, other: Round, i: nat)
    requires Twin(r, other) && i <= |r.layers|
    ensures NoTiesBefore(other, i) <==> NoTiesBefore(r, i)
    decreases i, 0
  {
    if i > 0 {
      SameTiesNext(r, other, i - 1);
    }
  }

  lemma {:induction false} SameTiesNext(r: Round, other: Round, i: nat)
    requires Twin(r, other) && i < |r.layers|
    ensures NoTiesBefore(other, i + 1) <==> NoTiesBefore(r, i + 1)
    decreases i, 1
  {
    SameTies(r, other, i);
    SameTiesIn(r, other, i);
  }

  // ---------------------------------------------------------------- without ties

  /** A layer attends, in the packed sequence, with the mask it attends with alone. */
  lemma MaskStaysInside(packed: Round, lens: seq<nat>, s: nat, alone: Round, i: nat)
    requires RunsAlone(packed, lens, s, alone) && i < |alone.layers| && NoTiesBefore(alone, i + 1)
    ensures MaskShifts(MaskAt(packed, i), MaskAt(alone, i), Start(lens, s))
  {
    var l := Leader(alone.layers, i);
    var leader := alone.layers[l];
    NoTiesEarlier(alone, i + 1, l);
    InputStaysInside(packed, lens, s, alone, l);
    MappedSegment(leader.norm, Input(packed, l), lens, s);
    SelectionAlike(leader, Mapped(leader.norm, Input(packed, l)), packed, lens, s, alone);
  }

  // ---------------------------------------------------------------- with a tie

  /** The question a packed token asks depends on its own sequence alone: other keys are masked. */
  lemma OwnQuestion(layer: SparseLayer, h: seq<Vec>, g: seq<Vec>, r: Round, lo: nat, n: nat, p: nat, m: nat)
    requires Shaped(r) && |h| == |g| == |r.start| && lo + n <= |h| && p < n && m <= n
    requires Slice(h, lo, n) == Slice(g, lo, n) && S.Visible(r.base[lo + p]) == Interval(lo, m)
    ensures Asked(RowOf(layer, h, r, lo + p)) == Asked(RowOf(layer, g, r, lo + p))
  {
    var a, b := Asked(RowOf(layer, h, r, lo + p)), Asked(RowOf(layer, g, r, lo + p));
    forall j | 0 <= j < |h| ensures a[j] == b[j] {
      if !r.base[lo + p][j] {
        assert j in S.Visible(r.base[lo + p]);
        IntervalMember(lo, m, j);
        assert h[j] == Slice(h, lo, n)[j - lo] && g[j] == Slice(g, lo, n)[j - lo];
        assert h[lo + p] == Slice(h, lo, n)[p] && g[lo + p] == Slice(g, lo, n)[p];
      }
    }
  }

  lemma {:induction false} FirstTie(r: Round, m: nat) returns (i: nat)
    requires Runnable(r) && m < |r.layers| && !NoTiesBefore(r, m + 1)
    ensures i <= m && NoTiesBefore(r, i) && !NoTiesIn(r, i)
    decreases m
  {
    if NoTiesBefore(r, m) {
      i := m;
    } else {
      i := FirstTie(r, m - 1);
    }
  }

  /** A kernel that answers one longer question as given. */
  lemma GivenAnswer(topk: TopK, question: seq<S.Score>, k: nat, answer: seq<nat>, n: nat) returns (other: TopK)
    requires IsKernel(topk) && S.IsTopK(question, k, answer) && |question| != n
    ensures IsKernel(other) && AnswerAlike(other, topk, n) && other(question, k) == answer
  {
    other := Overridden(topk, question, k, answer);
    OverriddenIsKernel(topk, question, k, answer);
  }

  lemma TieIn(packed: Round, lens: seq<nat>, s: nat, alone: Round, i: nat) returns (p: nat)
    requires RunsAlone(packed, lens, s, alone) && i < |alone.layers| && !NoTiesIn(alone, i)
    ensures alone.layers[i].leader && p < lens[s]
    ensures !NoTieAt(alone, alone.layers[i], Mapped(alone.layers[i].norm, Input(alone, i)), p)
  {
    var h := Mapped(alone.layers[i].norm, Input(alone, i));
    p :| 0 <= p < |h| && !NoTieAt(alone, alone.layers[i], h, p);
  }

  /** The rows that enter a leader's indexer, packed and alone. */
  lemma LeaderRows(
    packed: Round, lens: seq<nat>, s: nat, alone: Round, i: nat, h: seq<Vec>, h': seq<Vec>, lo: nat, n: nat)
    requires RunsAlone(packed, lens, s, alone) && i < |alone.layers| && NoTiesBefore(alone, i)
    requires h == Mapped(packed.layers[i].norm, Input(packed, i)) && h' == Mapped(alone.layers[i].norm, Input(alone, i))
    requires lo == Start(lens, s) && n == lens[s]
    ensures |h| == |packed.start| && |h'| == n && lo + n <= |h| && h' == Slice(h, lo, n)
  {
    SegmentFits(lens, s);
    InputStaysInside(packed, lens, s, alone, i);
    MappedSegment(packed.layers[i].norm, Input(packed, i), lens, s);
  }

  /** What a token sees, packed and alone. */
  lemma TokenSees(packed: Round, lens: seq<nat>, s: nat, alone: Round, p: nat, lo: nat)
    requires RunsAlone(packed, lens, s, alone) && p < lens[s] && lo == Start(lens, s)
    ensures lo + lens[s] <= |packed.start| && |alone.start| == lens[s]
    ensures alone.ropes == Slice(packed.ropes, lo, lens[s])
    ensures S.Visible(packed.base[lo + p]) == Interval(lo, p + 1) && S.Visible(alone.base[p]) == Interval(0, p + 1)
  {
    SegmentFits(lens, s);
    VisiblePrefix(lens, packed.base, s, p);
    AloneVisible(alone.base, lens[s], p);
  }

  /** The packed round with another kernel that answers the sequence's own rows alike. */
  ghost predicate OtherKernel(packed: Round, other: Round, n: nat) {
    other == packed.(topk := other.topk) && IsKernel(other.topk) && AnswerAlike(other.topk, packed.topk, n)
  }

  /** What enters a leader's indexer in the sequence is the same under it, no tie having come before. */
  lemma OtherRows(
    packed: Round, other: Round, lens: seq<nat>, s: nat, alone: Round, i: nat, h: seq<Vec>, g: seq<Vec>, lo: nat,
    n: nat)
    requires RunsAlone(packed, lens, s, alone) && i < |alone.layers| && NoTiesBefore(alone, i)
    requires OtherKernel(packed, other, lens[s]) && RunsAlone(other, lens, s, alone.(topk := other.topk))
    requires h == Mapped(packed.layers[i].norm, Input(packed, i)) && g == Mapped(other.layers[i].norm, Input(other, i))
    requires lo == Start(lens, s) && n == lens[s]
    ensures |h| == |g| == |packed.start| && lo + n <= |h| && Slice(h, lo, n) == Slice(g, lo, n)
  {
    var alone' := alone.(topk := other.topk);
    SameTies(alone, alone', i);
    SameRun(alone, alone', i);
    LeaderRows(packed, lens, s, alone, i, h, Mapped(alone.layers[i].norm, Input(alone, i)), lo, n);
    LeaderRows(other, lens, s, alone', i, g, Mapped(alone.layers[i].norm, Input(alone', i)), lo, n);
  }

  lemma SliceQuestion(
    layer: SparseLayer, h: seq<Vec>, g: seq<Vec>, packed: Round, other: Round, lo: nat, n: nat, p: nat)
    requires Shaped(packed) && |h| == |g| == |packed.start| && lo + n <= |h| && p < n
    requires Slice(h, lo, n) == Slice(g, lo, n) && S.Visible(packed.base[lo + p]) == Interval(lo, p + 1)
    requires other == packed.(topk := other.topk)
    ensures Asked(RowOf(layer, g, other, lo + p)) == Asked(RowOf(layer, h, packed, lo + p))
  {
    OwnQuestion(layer, h, g, packed, lo, n, p, p + 1);
    KernelAsksNothing(layer, g, packed, other, lo + p);
  }

  lemma KernelAsksNothing(layer: SparseLayer, h: seq<Vec>, r: Round, other: Round, t: nat)
    requires Shaped(r) && |h| == |r.start| && t < |h| && other == r.(topk := other.topk)
    ensures Asked(RowOf(layer, h, other, t)) == Asked(RowOf(layer, h, r, t))
  {
  }

  /** So the token asks the same question. */
  lemma QuestionStays(
    packed: Round, other: Round, lens: seq<nat>, s: nat, alone: Round, i: nat, p: nat, h: seq<Vec>, g: seq<Vec>,
    lo: nat)
    requires RunsAlone(packed, lens, s, alone) && i < |alone.layers| && NoTiesBefore(alone, i) && p < lens[s]
    requires OtherKernel(packed, other, lens[s]) && lo == Start(lens, s)
    requires h == Mapped(packed.layers[i].norm, Input(packed, i)) && g == Mapped(other.layers[i].norm, Input(other, i))
    ensures |h| == |g| == |packed.start| && lo + p < |h|
    ensures Asked(RowOf(packed.layers[i], g, other, lo + p)) == Asked(RowOf(packed.layers[i], h, packed, lo + p))
  {
    OtherKernelRunsAlone(packed, lens, s, alone, other.topk);
    OtherRows(packed, other, lens, s, alone, i, h, g, lo, lens[s]);
    TokenSees(packed, lens, s, alone, p, lo);
    SliceQuestion(packed.layers[i], h, g, packed, other, lo, lens[s], p);
  }

  /** A leader's mask row, from its row of the selection. */
  lemma LeaderMask(r: Round, i: nat, t: nat)
    requires Runnable(r) && i < |r.layers| && r.layers[i].leader && t < |r.start|
    ensures MaskAt(r, i)[t] == MaskOf(RowOf(r.layers[i], Mapped(r.layers[i].norm, Input(r, i)), r, t))
  {
  }

  /** Another legal answer to the packed token's question that leaks. */
  lemma TiedAnswerAt(
    packed: Round, lens: seq<nat>, s: nat, alone: Round, i: nat, p: nat, h: seq<Vec>, h': seq<Vec>, lo: nat)
    returns (answer: seq<nat>)
    requires RunsAlone(packed, lens, s, alone) && i < |alone.layers| && NoTiesBefore(alone, i) && p < lens[s]
    requires h == Mapped(packed.layers[i].norm, Input(packed, i)) && h' == Mapped(alone.layers[i].norm, Input(alone, i))
    requires !NoTieAt(alone, alone.layers[i], h', p) && lo == Start(lens, s)
    ensures |h| == |packed.start| && |h'| == |alone.start| && lo + p < |h|
    ensures Answered(RowOf(packed.layers[i], h, packed, lo + p).(chosen := answer), packed.k)
    ensures !RowShifts(MaskOf(RowOf(packed.layers[i], h, packed, lo + p).(chosen := answer)),
                       MaskOf(RowOf(packed.layers[i], h', alone, p)), lo)
  {
    LeaderRows(packed, lens, s, alone, i, h, h', lo, lens[s]);
    TokenSees(packed, lens, s, alone, p, lo);
    answer := AnotherAnswer(packed.layers[i], h, h', packed, alone, lo, lens[s], p);
  }

  lemma AnsweredRow(layer: SparseLayer, h: seq<Vec>, r: Round, t: nat, question: seq<S.Score>, answer: seq<nat>)
    requires Shaped(r) && |h| == |r.start| && t < |h| && question == Asked(RowOf(layer, h, r, t))
    requires r.topk(question, S.Min(r.k, |h|)) == answer
    ensures MaskOf(RowOf(layer, h, r, t)) == S.LiveMask(r.base[t], answer)
  {
  }

  /** The mask a leader makes of an answer. */
  lemma AnsweredMask(r: Round, i: nat, t: nat, g: seq<Vec>, question: seq<S.Score>, answer: seq<nat>)
    requires Runnable(r) && i < |r.layers| && r.layers[i].leader && t < |r.start|
    requires g == Mapped(r.layers[i].norm, Input(r, i)) && question == Asked(RowOf(r.layers[i], g, r, t))
    requires r.topk(question, S.Min(r.k, |r.start|)) == answer
    ensures MaskAt(r, i)[t] == S.LiveMask(r.base[t], answer)
  {
    LeaderMask(r, i, t);
    AnsweredRow(r.layers[i], g, r, t, question, answer);
  }

  lemma RowBreaksMask(mask: Mask, alone: Mask, lo: nat, p: nat)
    requires p < |alone| && lo + |alone| <= |mask| && !RowShifts(mask[lo + p], alone[p], lo)
    ensures !MaskShifts(mask, alone, lo)
  {
    assert !RowShiftsAt(mask, alone, lo, p);
  }

  lemma RowLeaks(r: Round, alone: Round, i: nat, lo: nat, p: nat, row: seq<bool>)
    requires Runnable(r) && Runnable(alone) && i < |r.layers| && i < |alone.layers|
    requires p < |alone.start| && lo + |alone.start| <= |r.start|
    requires MaskAt(r, i)[lo + p] == row && !RowShifts(row, MaskAt(alone, i)[p], lo)
    ensures !MaskShifts(MaskAt(r, i), MaskAt(alone, i), lo)
  {
    RowBreaksMask(MaskAt(r, i), MaskAt(alone, i), lo, p);
  }

  /** An answer that leaks, and a kernel that gives it. */
  lemma LeakyKernel(packed: Round, lens: seq<nat>, s: nat, alone: Round, i: nat, p: nat, h: seq<Vec>, lo: nat)
    returns (topk: TopK, answer: seq<nat>)
    requires RunsAlone(packed, lens, s, alone) && Total(lens) != lens[s] && i < |alone.layers| && p < lens[s]
    requires NoTiesBefore(alone, i) && alone.layers[i].leader && lo == Start(lens, s)
    requires !NoTieAt(alone, alone.layers[i], Mapped(alone.layers[i].norm, Input(alone, i)), p)
    requires h == Mapped(packed.layers[i].norm, Input(packed, i))
    ensures IsKernel(topk) && AnswerAlike(topk, alone.topk, lens[s]) && |h| == |packed.start| && lo + p < |h|
    ensures topk(Asked(RowOf(packed.layers[i], h, packed, lo + p)), S.Min(packed.k, |packed.start|)) == answer
    ensures !RowShifts(S.LiveMask(packed.base[lo + p], answer), MaskAt(alone, i)[p], lo)
  {
    var h' := Mapped(alone.layers[i].norm, Input(alone, i));
    answer := TiedAnswerAt(packed, lens, s, alone, i, p, h, h', lo);
    LeaderMask(alone, i, p);
    var question := Asked(RowOf(packed.layers[i], h, packed, lo + p));
    topk := GivenAnswer(packed.topk, question, S.Min(packed.k, |packed.start|), answer, lens[s]);
  }

  /** Under that kernel the token still asks that question, so its packed mask is not the shifted one. */
  lemma LeakShows(
    packed: Round, other: Round, lens: seq<nat>, s: nat, alone: Round, i: nat, p: nat, h: seq<Vec>, lo: nat,
    answer: seq<nat>)
    requires RunsAlone(packed, lens, s, alone) && i < |alone.layers| && p < lens[s] && NoTiesBefore(alone, i)
    requires alone.layers[i].leader && lo == Start(lens, s) && OtherKernel(packed, other, lens[s])
    requires h == Mapped(packed.layers[i].norm, Input(packed, i)) && |h| == |packed.start| && lo + p < |h|
    requires other.topk(Asked(RowOf(packed.layers[i], h, packed, lo + p)), S.Min(packed.k, |packed.start|)) == answer
    ensures MaskAt(other, i)[lo + p] == S.LiveMask(packed.base[lo + p], answer)
  {
    var g := Mapped(other.layers[i].norm, Input(other, i));
    QuestionStays(packed, other, lens, s, alone, i, p, h, g, lo);
    AnsweredMask(other, i, lo + p, g, Asked(RowOf(packed.layers[i], h, packed, lo + p)), answer);
  }

  /** At the first tie, some kernel that answers alike alone gives the packed token another mask. */
  lemma TieLeaks(packed: Round, lens: seq<nat>, s: nat, alone: Round, i: nat) returns (topk: TopK)
    requires RunsAlone(packed, lens, s, alone) && Total(lens) != lens[s] && i < |alone.layers|
    requires NoTiesBefore(alone, i) && !NoTiesIn(alone, i)
    ensures IsKernel(topk) && AnswerAlike(topk, alone.topk, lens[s])
    ensures !MaskShifts(MaskAt(packed.(topk := topk), i), MaskAt(alone, i), Start(lens, s))
  {
    var p := TieIn(packed, lens, s, alone, i);
    var lo, h := Start(lens, s), Mapped(packed.layers[i].norm, Input(packed, i));
    var answer;
    topk, answer := LeakyKernel(packed, lens, s, alone, i, p, h, lo);
    LeakShows(packed, packed.(topk := topk), lens, s, alone, i, p, h, lo, answer);
    TokenSees(packed, lens, s, alone, p, lo);
    RowLeaks(packed.(topk := topk), alone, i, lo, p, S.LiveMask(packed.base[lo + p], answer));
  }

  // ---------------------------------------------------------------- the exact condition

  /** Whatever the kernel does with longer rows, every layer attends in the packed sequence with the
      mask it attends with alone. */
  ghost predicate AlwaysInside(packed: Round, lens: seq<nat>, s: nat, alone: Round)
    requires RunsAlone(packed, lens, s, alone)
  {
    forall topk: TopK, i {:trigger IsKernel(topk), MaskAt(alone, i)} ::
      IsKernel(topk) && AnswerAlike(topk, alone.topk, lens[s]) && 0 <= i < |alone.layers| ==>
        MaskShifts(MaskAt(packed.(topk := topk), i), MaskAt(alone, i), Start(lens, s))
  }

  /** In a round with other tokens, packing leaves the attention of a sequence alone in all layers, for
      every kernel that answers its standalone rows alike, exactly when its standalone run met no tie. */
  lemma StaysInsideExactly(packed: Round, lens: seq<nat>, s: nat, alone: Round)
    requires RunsAlone(packed, lens, s, alone) && Total(lens) != lens[s]
    ensures AlwaysInside(packed, lens, s, alone) <==> NoTiesBefore(alone, |alone.layers|)
  {
    if NoTiesBefore(alone, |alone.layers|) {
      forall topk: TopK, i | IsKernel(topk) && AnswerAlike(topk, alone.topk, lens[s]) && 0 <= i < |alone.layers|
        ensures MaskShifts(MaskAt(packed.(topk := topk), i), MaskAt(alone, i), Start(lens, s))
      {
        OtherKernelStaysInside(packed, lens, s, alone, topk, i);
      }
    } else {
      var i := FirstTie(alone, |alone.layers| - 1);
      var topk := TieLeaks(packed, lens, s, alone, i);
      assert !MaskShifts(MaskAt(packed.(topk := topk), i), MaskAt(alone, i), Start(lens, s));
    }
  }

  lemma OtherKernelStaysInside(packed: Round, lens: seq<nat>, s: nat, alone: Round, topk: TopK, i: nat)
    requires RunsAlone(packed, lens, s, alone) && i < |alone.layers| && NoTiesBefore(alone, |alone.layers|)
    requires IsKernel(topk) && AnswerAlike(topk, alone.topk, lens[s])
    ensures MaskShifts(MaskAt(packed.(topk := topk), i), MaskAt(alone, i), Start(lens, s))
  {
    OtherKernelRunsAlone(packed, lens, s, alone, topk);
    if i + 1 < |alone.layers| {
      NoTiesEarlier(alone, |alone.layers|, i + 1);
    }
    SameTies(alone, alone.(topk := topk), i + 1);
    MaskStaysInside(packed.(topk := topk), lens, s, alone.(topk := topk), i);
    SameMask(alone, alone.(topk := topk), i);
  }
}
