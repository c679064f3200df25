/** IndexShare in the GLM-5.2 reference model: leader layers select the live keys, followers reuse the
    selection of the nearest preceding leader, in plain and in packed rounds. */
module IndexShare {
  import opened Wrappers
  import opened PackedForward
  import S = SparseSelection

  // ---------------------------------------------------------------- roles

  datatype ConfigError = WrongCount | NoLayers | FirstNotFull | UnknownRole | DenseNotFull | DenseBeyondLayers

  predicate RolesOk(layers: int, roles: seq<string>, firstDense: int) {
    && |roles| == layers && roles != [] && roles[0] == "full"
    && (forall i :: 0 <= i < |roles| ==> roles[i] == "full" || roles[i] == "shared")
    && firstDense <= |roles| && (forall i :: 0 <= i < firstDense ==> roles[i] == "full")
  }

  method CheckRoles(layers: int, roles: seq<string>, firstDense: int) returns (r: Outcome<ConfigError>)
    ensures r.Pass? <==> RolesOk(layers, roles, firstDense)
  {
    if |roles| != layers {
      return Refuse(WrongCount);
    }
    if roles == [] {
      return Refuse(NoLayers);
    }
    if roles[0] != "full" {
      return Refuse(FirstNotFull);
    }
    for i := 0 to |roles|
      invariant forall j :: 0 <= j < i ==> roles[j] == "full" || roles[j] == "shared"
    {
      if roles[i] != "full" && roles[i] != "shared" {
        return Refuse(UnknownRole);
      }
    }
    var i := 0;
    while i < firstDense
      invariant 0 <= i <= |roles| && (firstDense >= 0 ==> i <= firstDense)
      invariant forall j :: 0 <= j < i ==> roles[j] == "full"
    {
      if i == |roles| {
        return Refuse(DenseBeyondLayers);
      }
      if roles[i] != "full" {
        return Refuse(DenseNotFull);
      }
      i := i + 1;
    }
    return Pass;
  }

  // ---------------------------------------------------------------- layers and rounds

  type Mask = seq<seq<bool>>

  type TopK = (seq<S.Score>, nat) -> seq<nat>

  /** `index` scores a query token against a key token; `ffn` maps the mid-block residual to the
      block's output row. */
  datatype SparseLayer = SparseLayer(
    leader: bool, norm: Vec -> Vec, mixer: FullMixer, index: (Vec, Vec, Vec, Vec) -> real, ffn: Vec -> Vec)

  datatype Round = Round(layers: seq<SparseLayer>, start: seq<Vec>, ropes: seq<Vec>, base: Mask, k: nat, topk: TopK)

  ghost predicate Shaped(r: Round) {
    && |r.start| == |r.ropes| == |r.base|
    && (forall t :: 0 <= t < |r.base| ==> |r.base[t]| == |r.start|)
  }

  ghost predicate KernelAt(topk: TopK, row: seq<S.Score>, k: nat) {
    k <= |row| ==> S.IsTopK(row, k, topk(row, k))
  }

  /** Any tie-breaking will do. */
  ghost predicate IsKernel(topk: TopK) {
    forall row, k {:trigger KernelAt(topk, row, k)} :: KernelAt(topk, row, k)
  }

  function ScoresRow(layer: SparseLayer, h: seq<Vec>, ropes: seq<Vec>, t: nat): (row: seq<real>)
    requires |h| == |ropes| && t < |h|
    ensures |row| == |h| && forall j :: 0 <= j < |h| ==> row[j] == layer.index(h[t], ropes[t], h[j], ropes[j])
  {
    seq(|h|, j requires 0 <= j < |h| => layer.index(h[t], ropes[t], h[j], ropes[j]))
  }

  function Chosen(layer: SparseLayer, h: seq<Vec>, r: Round, t: nat): seq<nat>
    requires |h| == |r.ropes| == |r.base| && t < |h| && |r.base[t]| == |h|
  {
    r.topk(S.Masked(ScoresRow(layer, h, r.ropes, t), r.base[t]), S.Min(r.k, |h|))
  }

  function SelectMask(layer: SparseLayer, h: seq<Vec>, r: Round): (mask: Mask)
    requires Shaped(r) && |h| == |r.start|
    ensures |mask| == |h|
    ensures forall t :: 0 <= t < |h| ==> mask[t] == S.LiveMask(r.base[t], Chosen(layer, h, r, t))
  {
    seq(|h|, t requires 0 <= t < |h| => S.LiveMask(r.base[t], Chosen(layer, h, r, t)))
  }

  /** A leader's selection, row by row. */
  method Select(layer: SparseLayer, h: seq<Vec>, r: Round) returns (mask: Mask)
    requires Shaped(r) && |h| == |r.start| && IsKernel(r.topk)
    ensures mask == SelectMask(layer, h, r)
  {
    mask := [];
    for t := 0 to |h|
      invariant |mask| == t
      invariant forall u :: 0 <= u < t ==> mask[u] == S.LiveMask(r.base[u], Chosen(layer, h, r, u))
    {
      assert KernelAt(r.topk, S.Masked(ScoresRow(layer, h, r.ropes, t), r.base[t]), S.Min(r.k, |h|));
      var row := S.SelectRow(r.base[t], Chosen(layer, h, r, t));
      mask := mask + [row];
    }
  }

  function BlockRows(layer: SparseLayer, x: seq<Vec>, ropes: seq<Vec>, mask: Mask): (y: seq<Vec>)
    requires |mask| == |x|
    ensures |y| == |x|
  {
    Mapped(layer.ffn, Added(x, MaskedRows(layer.mixer, Mapped(layer.norm, x), ropes, mask)))
  }

  /** The unblocked positions of a row, in order. */
  ghost predicate InOrder(live: seq<nat>, blocked: seq<bool>) {
    && (forall i, j :: 0 <= i < j < |live| ==> live[i] < live[j])
    && (forall p: nat :: p in live <==> p < |blocked| && !blocked[p])
  }

  lemma {:induction false} LiveInOrder(blocked: seq<bool>, n: nat)
    requires n <= |blocked|
    ensures InOrder(Live(blocked, n), blocked[..n])
  {
    if n > 0 {
      LiveInOrder(blocked, n - 1);
      LiveOneMore(Live(blocked, n - 1), blocked[..n - 1], blocked[n - 1]);
      assert blocked[..n - 1] + [blocked[n - 1]] == blocked[..n];
    }
  }

  lemma LiveOneMore(live: seq<nat>, blocked: seq<bool>, last: bool)
    requires InOrder(live, blocked)
    ensures InOrder(live + if last then [] else [|blocked|], blocked + [last])
  {
    forall i | 0 <= i < |live| ensures live[i] < |blocked| {
      assert live[i] in live;
    }
  }

  /** A token leaves a sparse block as the feed-forward of its residual plus attention over the live
      positions of its own row of the mask, each key with its value. */
  lemma BlockToken(layer: SparseLayer, x: seq<Vec>, ropes: seq<Vec>, mask: Mask, t: nat) returns (live: seq<nat>)
    requires |mask| == |x| == |ropes| && t < |x| && |mask[t]| == |x|
    ensures InOrder(live, mask[t])
    ensures var m, norm := layer.mixer, layer.norm;
      var keys := seq(|live|, i requires 0 <= i < |live| =>
        if live[i] < |x| then (m.k(norm(x[live[i]]), ropes[live[i]]), m.v(norm(x[live[i]]))) else ([], []));
      var mix := m.out(m.attend(m.q(norm(x[t]), ropes[t]), keys), norm(x[t]));
      BlockRows(layer, x, ropes, mask)[t] ==
      layer.ffn(seq(|x[t]|, d requires 0 <= d < |x[t]| => x[t][d] + Coord(mix, d)))
  {
    live := Live(mask[t], |mask[t]|);
    LiveInOrder(mask[t], |mask[t]|);
    assert mask[t][..|mask[t]|] == mask[t];
    var m, h := layer.mixer, Mapped(layer.norm, x);
    forall i | 0 <= i < |live| ensures live[i] < |x| {
      assert live[i] in live;
    }
    var keys := seq(|live|, i requires 0 <= i < |live| =>
      if live[i] < |x| then (m.k(layer.norm(x[live[i]]), ropes[live[i]]), m.v(layer.norm(x[live[i]]))) else ([], []));
    assert KeysAt(m, h, ropes, live) == keys;
    var mix := m.out(m.attend(m.q(layer.norm(x[t]), ropes[t]), keys), layer.norm(x[t]));
    assert Add(x[t], mix) == seq(|x[t]|, d requires 0 <= d < |x[t]| => x[t][d] + Coord(mix, d));
  }

  /** The nearest leader at or before layer `i`. */
  function Leader(layers: seq<SparseLayer>, i: nat): (l: nat)
    requires i < |layers| && layers[0].leader
    ensures l <= i && layers[l].leader && forall j :: l < j <= i ==> !layers[j].leader
  {
    if layers[i].leader then i else Leader(layers, i - 1)
  }

  ghost predicate Runnable(r: Round) {
    Shaped(r) && (r.layers != [] ==> r.layers[0].leader)
  }

  /** What enters layer `i`, when every layer attends with the selection of its nearest leader. */
  ghost function Input(r: Round, i: nat): (x: seq<Vec>)
    requires Runnable(r) && i <= |r.layers|
    ensures |x| == |r.start|
    decreases i, 0
  {
    if i == 0 then r.start else BlockRows(r.layers[i - 1], Input(r, i - 1), r.ropes, MaskAt(r, i - 1))
  }

  /** The mask layer `i` attends with. */
  ghost function MaskAt(r: Round, i: nat): (mask: Mask)
    requires Runnable(r) && i < |r.layers|
    ensures |mask| == |r.start|
    decreases i, 1
  {
    var l := Leader(r.layers, i);
    SelectMask(r.layers[l], Mapped(r.layers[l].norm, Input(r, l)), r)
  }

  datatype RunError = FollowerWithoutMask

  /** Layer `i` in the loop: leaders select, followers take the mask passed on. */
  method RunLayer(layer: SparseLayer, x: seq<Vec>, r: Round, shared: Option<Mask>)
    returns (y: Result<(seq<Vec>, Mask), RunError>)
    requires Shaped(r) && IsKernel(r.topk) && |x| == |r.start| && (shared.Some? ==> |shared.value| == |x|)
    ensures y.Err? <==> !layer.leader && shared.None?
    ensures y.Ok? ==>
      y.value.1 == (if layer.leader then SelectMask(layer, Mapped(layer.norm, x), r) else shared.value) &&
      y.value.0 == BlockRows(layer, x, r.ropes, y.value.1)
  {
    var mask: Mask;
    if layer.leader {
      mask := Select(layer, Mapped(layer.norm, x), r);
    } else if shared.Some? {
      mask := shared.value;
    } else {
      return Err(FollowerWithoutMask);
    }
    return Ok((BlockRows(layer, x, r.ropes, mask), mask));
  }

  /** Where the loop stands before layer `i`: the block input, and the mask passed on. */
  ghost predicate Reached(r: Round, i: nat, x: seq<Vec>, mask: Option<Mask>) {
    && Runnable(r) && i <= |r.layers| && x == Input(r, i)
    && (if i == 0 then mask.None? else mask == Some(MaskAt(r, i - 1)))
  }

  lemma MaskPassedOn(r: Round, i: nat)
    requires Runnable(r) && i < |r.layers| && !r.layers[i].leader
    ensures i > 0 && MaskAt(r, i) == MaskAt(r, i - 1)
  {
  }

  lemma ReachNext(r: Round, i: nat, x: seq<Vec>, mask: Option<Mask>, y: seq<Vec>, next: Mask)
    requires Reached(r, i, x, mask) && i < |r.layers| && |next| == |x|
    requires if r.layers[i].leader then next == SelectMask(r.layers[i], Mapped(r.layers[i].norm, x), r)
             else mask == Some(next)
    requires y == BlockRows(r.layers[i], x, r.ropes, next)
    ensures Reached(r, i + 1, y, Some(next))
  {
    if !r.layers[i].leader {
      MaskPassedOn(r, i);
    }
    assert next == MaskAt(r, i);
  }

  lemma ReachedShape(r: Round, i: nat, x: seq<Vec>, mask: Option<Mask>)
    requires Reached(r, i, x, mask)
    ensures |x| == |r.start| && (mask.Some? ==> |mask.value| == |x|)
  {
  }

  /** The model's loop threads one mask through the layers. It fails exactly when the first layer is a
      follower; otherwise every layer attends with the selection of its nearest preceding leader. */
  method RunLayers(r: Round) returns (out: Result<seq<Vec>, RunError>)
    requires Shaped(r) && IsKernel(r.topk)
    ensures out.Err? <==> r.layers != [] && !r.layers[0].leader
    ensures out.Ok? ==> out.value == Input(r, |r.layers|)
  {
    if r.layers != [] && !r.layers[0].leader {
      var first := RunLayer(r.layers[0], r.start, r, None);
      return Err(first.error);
    }
    var x := r.start;
    var mask: Option<Mask> := None;
    for i := 0 to |r.layers|
      invariant Reached(r, i, x, mask)
    {
      x, mask := RunNext(r, i, x, mask);
    }
    return Ok(x);
  }

  /** One turn of the loop, from wherever it stands. */
  method RunNext(r: Round, i: nat, x: seq<Vec>, mask: Option<Mask>) returns (y: seq<Vec>, mask': Option<Mask>)
    requires Shaped(r) && IsKernel(r.topk) && i < |r.layers| && Reached(r, i, x, mask)
    ensures Reached(r, i + 1, y, mask')
  {
    ReachedShape(r, i, x, mask);
    var next := RunLayer(r.layers[i], x, r, mask);
    ReachNext(r, i, x, mask, next.value.0, next.value.1);
    y, mask' := next.value.0, Some(next.value.1);
  }

  /** The roles of a model: a layer leads exactly when its role is "full". */
  ghost predicate HasRoles(layers: seq<SparseLayer>, roles: seq<string>) {
    |layers| == |roles| && forall i :: 0 <= i < |layers| ==> (layers[i].leader <==> roles[i] == "full")
  }

  /** One layer of the model's loop: nothing if a follower finds no mask. */
  ghost function Threads(layer: SparseLayer, r: Round, x: seq<Vec>, mask: Option<Mask>): (c: Option<(seq<Vec>, Mask)>)
    requires Shaped(r) && |x| == |r.start| && (mask.Some? ==> |mask.value| == |x|)
    ensures c.Some? ==> |c.value.0| == |c.value.1| == |r.start|
  {
    if !layer.leader && mask.None? then None
    else
      var next := if layer.leader then SelectMask(layer, Mapped(layer.norm, x), r) else mask.value;
      Some((BlockRows(layer, x, r.ropes, next), next))
  }

  /** The hidden rows and the mask after the first `i` layers, as the model threads them. */
  ghost function Threaded(r: Round, i: nat): (c: Option<(seq<Vec>, Option<Mask>)>)
    requires Shaped(r) && i <= |r.layers|
    ensures c.Some? ==> |c.value.0| == |r.start| && (c.value.1.Some? ==> |c.value.1.value| == |r.start|)
  {
    if i == 0 then Some((r.start, None))
    else
      var before := Threaded(r, i - 1);
      if before.None? then None
      else
        var after := Threads(r.layers[i - 1], r, before.value.0, before.value.1);
        if after.None? then None else Some((after.value.0, Some(after.value.1)))
  }

  /** A leader sets the mask from the rows that enter it; a follower passes on the mask it was given. */
  lemma ThreadedNext(r: Round, i: nat)
    requires Shaped(r) && i < |r.layers| && Threaded(r, i).Some?
    requires r.layers[i].leader || Threaded(r, i).value.1.Some?
    ensures Threaded(r, i + 1).Some?
    ensures Threaded(r, i + 1).value.1 ==
      if r.layers[i].leader then Some(SelectMask(r.layers[i], Mapped(r.layers[i].norm, Threaded(r, i).value.0), r))
      else Threaded(r, i).value.1
  {
  }

  /** Layer `l` selected the mask that layer `i` attends with. */
  ghost predicate SelectedBy(r: Round, i: nat, l: nat) {
    && Shaped(r) && l <= i < |r.layers| && Threaded(r, l).Some? && Threaded(r, i + 1).Some?
    && Threaded(r, i + 1).value.1 ==
       Some(SelectMask(r.layers[l], Mapped(r.layers[l].norm, Threaded(r, l).value.0), r))
  }

  /** For every role list the configuration accepts, threading the mask through the layers never finds
      it missing, and the mask layer `i` attends with was selected by the nearest layer at or before it
      whose role is "full", from the rows that entered that layer. */
  lemma {:induction false} AcceptedRolesRun(r: Round, roles: seq<string>, firstDense: int, i: nat) returns (l: nat)
    requires Shaped(r) && RolesOk(|r.layers|, roles, firstDense) && HasRoles(r.layers, roles) && i < |r.layers|
    ensures l <= i && roles[l] == "full" && (forall j :: l < j <= i ==> roles[j] == "shared") && SelectedBy(r, i, l)
  {
    l := i;
    if i > 0 {
      l := AcceptedRolesRun(r, roles, firstDense, i - 1);
    }
    ThreadedNext(r, i);
    if r.layers[i].leader {
      l := i;
    }
  }

  /** There is a `topk` that keeps its promise. */
  lemma KernelExists() returns (topk: TopK)
    ensures IsKernel(topk)
  {
    topk := (row, k) => S.TopOf(row, k);
    forall row, k: nat ensures KernelAt(topk, row, k) {
      if k <= |row| {
        S.TopOfIsTopK(row, k);
      }
    }
  }

  // ---------------------------------------------------------------- live sets of tokens

  function Interval(lo: nat, n: nat): set<nat> {
    S.Members(Range(lo, n))
  }

  lemma IntervalMember(lo: nat, n: nat, j: nat)
    ensures j in Interval(lo, n) <==> lo <= j < lo + n
  {
    if lo <= j < lo + n {
      assert Range(lo, n)[j - lo] == j;
    }
  }

  lemma IntervalSize(lo: nat, n: nat)
    ensures |Interval(lo, n)| == n
  {
    S.MembersSize(Range(lo, n));
  }

  /** A token sees its own causal prefix and nothing else. */
  lemma VisiblePrefix(lens: seq<nat>, base: Mask, s: nat, p: nat)
    requires IsMask(lens, base) && s < |lens| && p < lens[s]
    ensures Start(lens, s) + p < |base| && |base[Start(lens, s) + p]| == Total(lens)
    ensures S.Visible(base[Start(lens, s) + p]) == Interval(Start(lens, s), p + 1)
  {
    var lo, t := Start(lens, s), Start(lens, s) + p;
    TokenAt(lens, s, p);
    StartStep(lens, s);
    assert IsMaskRow(lens, base[t], t);
    forall j: nat ensures j in S.Visible(base[t]) <==> j in Interval(lo, p + 1) {
      IntervalMember(lo, p + 1, j);
      if j < Total(lens) {
        InSequence(lens, s, j);
      }
    }
  }

  ghost predicate GoodLiveSet(scores: seq<real>, visible: set<nat>, k: nat, live: set<nat>) {
    && S.TopScoring(scores, visible, live) && |live| == S.Min(k, |visible|)
    && (|visible| <= k ==> live == visible)
  }

  lemma LiveSetOfRow(layer: SparseLayer, h: seq<Vec>, r: Round, t: nat, visible: set<nat>)
    requires Shaped(r) && |h| == |r.start| && IsKernel(r.topk) && t < |h| && visible == S.Visible(r.base[t])
    ensures GoodLiveSet(ScoresRow(layer, h, r.ropes, t), visible, r.k, S.Visible(SelectMask(layer, h, r)[t]))
  {
    assert KernelAt(r.topk, S.Masked(ScoresRow(layer, h, r.ropes, t), r.base[t]), S.Min(r.k, |h|));
    S.LiveSetFacts(ScoresRow(layer, h, r.ropes, t), r.base[t], r.k, Chosen(layer, h, r, t));
    S.LiveMaskShows(r.base[t], Chosen(layer, h, r, t));
  }

  /** The live set of the token at in-sequence position `p`, packed or not: inside its own causal
      prefix, exactly `min(index_topk, p + 1)` keys, only top-scoring ones, and the whole prefix when
      that fits. */
  lemma LiveSetOfToken(layer: SparseLayer, h: seq<Vec>, r: Round, lens: seq<nat>, s: nat, p: nat)
    requires Shaped(r) && |h| == |r.start| && IsMask(lens, r.base) && IsKernel(r.topk) && s < |lens| && p < lens[s]
    ensures Start(lens, s) + p < |h| && |Interval(Start(lens, s), p + 1)| == p + 1
    ensures GoodLiveSet(ScoresRow(layer, h, r.ropes, Start(lens, s) + p), Interval(Start(lens, s), p + 1), r.k,
                        S.Visible(SelectMask(layer, h, r)[Start(lens, s) + p]))
  {
    VisiblePrefix(lens, r.base, s, p);
    IntervalSize(Start(lens, s), p + 1);
    LiveSetOfRow(layer, h, r, Start(lens, s) + p, Interval(Start(lens, s), p + 1));
  }
}
