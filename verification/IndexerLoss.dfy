/** The indexer loss of the GLM-5.2 reference model: leaders with their trailing followers form groups,
    and each group contributes the divergence of its members' centroid. */
module IndexerLoss {
  import opened Wrappers
  import opened PackedForward
  import opened IndexShare

  // ---------------------------------------------------------------- groups

  /** What an attention member stashes: its target, and for leaders the scores and mask. */
  datatype Stash = Stash(leader: bool, scores: Option<Matrix>, mask: Mask, target: Option<Vec>)

  datatype Group = Group(scores: Matrix, mask: Mask, targets: seq<Vec>)

  function AddTarget(groups: seq<Group>, target: Option<Vec>): seq<Group> {
    if groups == [] || target.None? then groups
    else
      var last := groups[|groups| - 1];
      groups[..|groups| - 1] + [last.(targets := last.targets + [target.value])]
  }

  /** The grouping loop over blocks. */
  method GroupStashes(stashes: seq<Stash>) returns (groups: seq<Group>)
    ensures groups == Grouped(stashes)
  {
    groups := [];
    for i := 0 to |stashes|
      invariant groups == Grouped(stashes[..i])
    {
      var a := stashes[i];
      assert stashes[..i + 1][..i] == stashes[..i];
      if a.leader {
        if a.scores.Some? {
          groups := groups + [Group(a.scores.value, a.mask, [])];
        }
        groups := AddTarget(groups, a.target);
      } else {
        groups := AddTarget(groups, a.target);
      }
    }
    assert stashes[..|stashes|] == stashes;
  }

  function Opened(groups: seq<Group>, a: Stash): seq<Group> {
    if a.leader && a.scores.Some? then groups + [Group(a.scores.value, a.mask, [])] else groups
  }

  function Grouped(stashes: seq<Stash>): seq<Group> {
    if stashes == [] then []
    else
      var a := stashes[|stashes| - 1];
      AddTarget(Opened(Grouped(stashes[..|stashes| - 1]), a), a.target)
  }

  /** The stash is on: every member has its target, every leader its scores. */
  ghost predicate StashOn(stashes: seq<Stash>) {
    && (stashes != [] ==> stashes[0].leader)
    && (forall i :: 0 <= i < |stashes| ==> stashes[i].target.Some? && (stashes[i].leader ==> stashes[i].scores.Some?))
  }

  /** Members `lo .. hi` form one group: the leader `lo` followed by its trailing followers. */
  ghost predicate IsGroup(stashes: seq<Stash>, lo: nat, hi: nat, g: Group) {
    && lo < hi <= |stashes| && stashes[lo].leader && stashes[lo].scores == Some(g.scores) && stashes[lo].mask == g.mask
    && (forall i :: lo < i < hi ==> !stashes[i].leader) && (hi < |stashes| ==> stashes[hi].leader)
    && |g.targets| == hi - lo && (forall i :: lo <= i < hi ==> stashes[i].target == Some(g.targets[i - lo]))
  }

  /** Where group `g` starts in the list of members. */
  function GroupStart(groups: seq<Group>, g: nat): nat
    requires g <= |groups|
  {
    if g == 0 then 0 else GroupStart(groups, g - 1) + |groups[g - 1].targets|
  }

  ghost predicate GroupAt(stashes: seq<Stash>, groups: seq<Group>, g: nat)
    requires g < |groups|
  {
    IsGroup(stashes, GroupStart(groups, g), GroupStart(groups, g + 1), groups[g])
  }

  /** The groups, in order, partition the members into leaders with their trailing followers. */
  ghost predicate Partitions(stashes: seq<Stash>, groups: seq<Group>) {
    && GroupStart(groups, |groups|) == |stashes|
    && (forall g {:trigger GroupAt(stashes, groups, g)} :: 0 <= g < |groups| ==> GroupAt(stashes, groups, g))
  }

  lemma {:induction false} StartsAgree(a: seq<Group>, b: seq<Group>, n: nat)
    requires n <= |a| && n <= |b| && forall g :: 0 <= g < n ==> |a[g].targets| == |b[g].targets|
    ensures GroupStart(a, n) == GroupStart(b, n)
  {
    if n > 0 {
      StartsAgree(a, b, n - 1);
    }
  }

  lemma {:induction false} StartsGrow(groups: seq<Group>, g: nat, n: nat)
    requires g <= n <= |groups|
    ensures GroupStart(groups, g) <= GroupStart(groups, n)
  {
    if g < n {
      StartsGrow(groups, g, n - 1);
    }
  }

  lemma GroupStays(rest: seq<Stash>, a: Stash, lo: nat, hi: nat, g: Group)
    requires IsGroup(rest, lo, hi, g) && (hi < |rest| || a.leader)
    ensures IsGroup(rest + [a], lo, hi, g)
  {
  }

  /** Group `g` of the members so far is still a group after one more member, unless it is the last
      and the member is a follower. */
  lemma GroupKept(rest: seq<Stash>, a: Stash, groups: seq<Group>, groups': seq<Group>, g: nat)
    requires Partitions(rest, groups) && g < |groups| && g < |groups'| && groups'[g] == groups[g]
    requires GroupStart(groups', g) == GroupStart(groups, g)
    requires g + 1 < |groups| || a.leader
    ensures GroupAt(rest + [a], groups', g)
  {
    assert GroupAt(rest, groups, g);
    if g + 1 < |groups| {
      assert GroupAt(rest, groups, g + 1);
      StartsGrow(groups, g + 2, |groups|);
    }
    GroupStays(rest, a, GroupStart(groups, g), GroupStart(groups, g + 1), groups[g]);
  }

  lemma LeaderOpens(rest: seq<Stash>, a: Stash, groups: seq<Group>)
    requires Partitions(rest, groups) && a.leader && a.scores.Some? && a.target.Some?
    ensures Partitions(rest + [a], groups + [Group(a.scores.value, a.mask, [a.target.value])])
  {
    var groups' := groups + [Group(a.scores.value, a.mask, [a.target.value])];
    StartsAgree(groups, groups', |groups|);
    forall g | 0 <= g < |groups| ensures GroupAt(rest + [a], groups', g) {
      StartsAgree(groups, groups', g);
      GroupKept(rest, a, groups, groups', g);
    }
    assert GroupAt(rest + [a], groups', |groups|);
  }

  lemma FollowerJoins(rest: seq<Stash>, a: Stash, groups: seq<Group>)
    requires Partitions(rest, groups) && groups != [] && !a.leader && a.target.Some?
    ensures Partitions(rest + [a], AddTarget(groups, a.target))
  {
    var groups', last := AddTarget(groups, a.target), |groups| - 1;
    StartsAgree(groups, groups', last);
    forall g | 0 <= g < last ensures GroupAt(rest + [a], groups', g) {
      StartsAgree(groups, groups', g);
      GroupKept(rest, a, groups, groups', g);
    }
    assert GroupAt(rest, groups, last);
    assert GroupAt(rest + [a], groups', last);
  }

  lemma GroupStep(rest: seq<Stash>, a: Stash, stashes: seq<Stash>, groups: seq<Group>, groups': seq<Group>)
    requires Partitions(rest, groups) && stashes == rest + [a] && groups' == AddTarget(Opened(groups, a), a.target)
    requires a.target.Some? && (a.leader ==> a.scores.Some?) && (!a.leader ==> groups != [])
    ensures Partitions(stashes, groups') && groups' != []
  {
    if a.leader {
      var begun := Opened(groups, a);
      assert begun[..|begun| - 1] == groups && [] + [a.target.value] == [a.target.value];
      LeaderOpens(rest, a, groups);
    } else {
      FollowerJoins(rest, a, groups);
    }
  }

  ghost predicate WellGrouped(stashes: seq<Stash>) {
    Partitions(stashes, Grouped(stashes)) && (stashes != [] ==> Grouped(stashes) != [])
  }

  lemma OneMoreMember(stashes: seq<Stash>)
    requires StashOn(stashes) && stashes != [] && WellGrouped(stashes[..|stashes| - 1])
    ensures WellGrouped(stashes)
  {
    var rest := stashes[..|stashes| - 1];
    GroupStep(rest, stashes[|stashes| - 1], stashes, Grouped(rest), Grouped(stashes));
  }

  /** With the stash on, the groups concatenate to all members in order, each being one leader and
      its trailing followers. */
  lemma {:induction false} GroupsPartition(stashes: seq<Stash>)
    requires StashOn(stashes)
    ensures WellGrouped(stashes)
  {
    if stashes != [] {
      GroupsPartition(stashes[..|stashes| - 1]);
      OneMoreMember(stashes);
    }
  }

  // ---------------------------------------------------------------- the centroid of a group

  /** Entry `i` of the members' targets, added up. */
  function ColumnSum(targets: seq<Vec>, i: nat): real {
    if targets == [] then 0.0 else ColumnSum(targets[..|targets| - 1], i) + Coord(targets[|targets| - 1], i)
  }

  function Centroid(targets: seq<Vec>): (mean: Vec)
    requires targets != []
    ensures |mean| == |targets[0]|
    ensures forall i :: 0 <= i < |mean| ==> mean[i] == ColumnSum(targets, i) / (|targets| as real)
  {
    seq(|targets[0]|, i requires 0 <= i < |targets[0]| => ColumnSum(targets, i) / (|targets| as real))
  }

  lemma ColumnSumAppend(targets: seq<Vec>, n: nat, i: nat)
    requires n < |targets|
    ensures ColumnSum(targets[..n + 1], i) == ColumnSum(targets[..n], i) + Coord(targets[n], i)
  {
    assert targets[..n + 1][..n] == targets[..n];
  }

  /** `pbar`: entry by entry, the mean of the members' targets. */
  method MeanTarget(targets: seq<Vec>) returns (mean: Vec)
    requires targets != []
    ensures |mean| == |targets[0]|
    ensures forall i :: 0 <= i < |mean| ==> mean[i] == ColumnSum(targets, i) / (|targets| as real)
  {
    var sum := targets[0];
    forall i | 0 <= i < |sum| ensures sum[i] == ColumnSum(targets[..1], i) {
      ColumnSumAppend(targets, 0, i);
    }
    for n := 1 to |targets|
      invariant |sum| == |targets[0]|
      invariant forall i :: 0 <= i < |sum| ==> sum[i] == ColumnSum(targets[..n], i)
    {
      forall i | 0 <= i < |sum|
        ensures ColumnSum(targets[..n + 1], i) == ColumnSum(targets[..n], i) + Coord(targets[n], i)
      {
        ColumnSumAppend(targets, n, i);
      }
      sum := Add(sum, targets[n]);
    }
    assert targets[..|targets|] == targets;
    mean := seq(|sum|, i requires 0 <= i < |sum| => sum[i] / (|targets| as real));
  }

  /** The sum of `p[i] * w[i]` over the first `n` entries. */
  function Weighed(p: Vec, w: Vec, n: nat): real {
    if n == 0 then 0.0 else Weighed(p, w, n - 1) + Coord(p, n - 1) * Coord(w, n - 1)
  }

  /** The members' weights, added up. */
  function WeighedAll(targets: seq<Vec>, w: Vec, n: nat): real {
    if targets == [] then 0.0
    else WeighedAll(targets[..|targets| - 1], w, n) + Weighed(targets[|targets| - 1], w, n)
  }

  lemma Distribute(x: real, y: real, w: real)
    ensures (x + y) * w == x * w + y * w
  {
  }

  lemma {:induction false} WeighedAllStep(targets: seq<Vec>, w: Vec, n: nat)
    requires n > 0
    ensures WeighedAll(targets, w, n) == WeighedAll(targets, w, n - 1) + ColumnSum(targets, n - 1) * Coord(w, n - 1)
  {
    if targets != [] {
      var rest, last := targets[..|targets| - 1], targets[|targets| - 1];
      WeighedAllStep(rest, w, n);
      Distribute(ColumnSum(rest, n - 1), Coord(last, n - 1), Coord(w, n - 1));
    }
  }

  lemma {:induction false} NothingWeighed(targets: seq<Vec>, w: Vec)
    ensures WeighedAll(targets, w, 0) == 0.0
  {
    if targets != [] {
      NothingWeighed(targets[..|targets| - 1], w);
    }
  }

  lemma Scale(total: real, c: real, w: real, size: real)
    requires size > 0.0
    ensures total / size + (c / size) * w == (total + c * w) / size
  {
    assert (c / size) * w == (c * w) / size;
  }

  /** Weighing is linear: the centroid weighs the mean of what the members weigh. */
  lemma {:induction false} CentroidWeighs(targets: seq<Vec>, w: Vec, n: nat)
    requires targets != [] && n <= |targets[0]|
    ensures Weighed(Centroid(targets), w, n) == WeighedAll(targets, w, n) / (|targets| as real)
  {
    if n == 0 {
      NothingWeighed(targets, w);
    } else {
      CentroidWeighs(targets, w, n - 1);
      WeighedAllStep(targets, w, n);
      Scale(WeighedAll(targets, w, n - 1), ColumnSum(targets, n - 1), Coord(w, n - 1), |targets| as real);
    }
  }

  function Ones(n: nat): Vec {
    seq(n, _ => 1.0)
  }

  /** The total mass of a target. */
  function Mass(p: Vec): real {
    Weighed(p, Ones(|p|), |p|)
  }

  lemma {:induction false} EqualMasses(targets: seq<Vec>, w: Vec, n: nat, mass: real)
    requires forall m :: 0 <= m < |targets| ==> Weighed(targets[m], w, n) == mass
    ensures WeighedAll(targets, w, n) == (|targets| as real) * mass
  {
    if targets != [] {
      var rest := targets[..|targets| - 1];
      EqualMasses(rest, w, n, mass);
      assert (|targets| as real) * mass == (|rest| as real) * mass + mass by {
        assert |targets| as real == (|rest| as real) + 1.0;
        Distribute(|rest| as real, 1.0, mass);
      }
    }
  }

  lemma {:induction false} ColumnNonNegative(targets: seq<Vec>, i: nat)
    requires forall m :: 0 <= m < |targets| ==> Coord(targets[m], i) >= 0.0
    ensures ColumnSum(targets, i) >= 0.0
  {
    if targets != [] {
      ColumnNonNegative(targets[..|targets| - 1], i);
    }
  }

  /** The members' targets all have `n` entries, none negative, and one mass. */
  ghost predicate Alike(targets: seq<Vec>, n: nat, mass: real) {
    forall m :: 0 <= m < |targets| ==>
      |targets[m]| == n && Mass(targets[m]) == mass && forall i :: 0 <= i < n ==> targets[m][i] >= 0.0
  }

  /** The centroid of such targets is such a target. */
  lemma CentroidIsAlike(targets: seq<Vec>, n: nat, mass: real)
    requires targets != [] && Alike(targets, n, mass)
    ensures |Centroid(targets)| == n && Mass(Centroid(targets)) == mass
    ensures forall i :: 0 <= i < n ==> Centroid(targets)[i] >= 0.0
  {
    CentroidWeighs(targets, Ones(n), n);
    EqualMasses(targets, Ones(n), n, mass);
    Cancel(|targets| as real, mass);
    forall i | 0 <= i < n ensures Centroid(targets)[i] >= 0.0 {
      ColumnNonNegative(targets, i);
    }
  }

  lemma Cancel(size: real, mass: real)
    requires size > 0.0
    ensures (size * mass) / size == mass
  {
  }

  // ---------------------------------------------------------------- centroid and mean of divergences

  /** The log-softmax of a leader's masked scores, and `p log p`. */
  datatype Kernels = Kernels(logSoftmax: (Matrix, Mask) -> Vec, pLogP: real -> real)

  /** The sum of `p log p` over the first `n` entries. */
  function Information(f: real -> real, p: Vec, n: nat): real {
    if n == 0 then 0.0 else Information(f, p, n - 1) + f(Coord(p, n - 1))
  }

  /** The divergence of a target from the leader's distribution. */
  function Divergence(f: real -> real, p: Vec, logs: Vec): real {
    Information(f, p, |p|) - Weighed(p, logs, |p|)
  }

  function SumDivergences(f: real -> real, targets: seq<Vec>, logs: Vec): real {
    if targets == [] then 0.0
    else SumDivergences(f, targets[..|targets| - 1], logs) + Divergence(f, targets[|targets| - 1], logs)
  }

  function SumInformation(f: real -> real, targets: seq<Vec>, n: nat): real {
    if targets == [] then 0.0
    else SumInformation(f, targets[..|targets| - 1], n) + Information(f, targets[|targets| - 1], n)
  }

  lemma {:induction false} SumSplits(f: real -> real, targets: seq<Vec>, logs: Vec, n: nat)
    requires forall m :: 0 <= m < |targets| ==> |targets[m]| == n
    ensures SumDivergences(f, targets, logs) == SumInformation(f, targets, n) - WeighedAll(targets, logs, n)
  {
    if targets != [] {
      SumSplits(f, targets[..|targets| - 1], logs, n);
    }
  }

  /** How far the mean divergence of the members lies from the divergence of their centroid. */
  function Gap(f: real -> real, targets: seq<Vec>): real
    requires targets != []
  {
    SumInformation(f, targets, |targets[0]|) / (|targets| as real) - Information(f, Centroid(targets), |targets[0]|)
  }

  lemma Split(x: real, y: real, size: real)
    requires size > 0.0
    ensures (x - y) / size == x / size - y / size
  {
  }

  /** The loss takes the divergence of the centroid instead of the mean of the divergences. The two
      differ by a gap that does not depend on the leader's scores, so their gradients agree. */
  lemma CentroidGap(f: real -> real, targets: seq<Vec>, logs: Vec)
    requires targets != [] && forall m :: 0 <= m < |targets| ==> |targets[m]| == |targets[0]|
    ensures SumDivergences(f, targets, logs) / (|targets| as real) - Divergence(f, Centroid(targets), logs)
      == Gap(f, targets)
  {
    var n := |targets[0]|;
    SumSplits(f, targets, logs, n);
    CentroidWeighs(targets, logs, n);
    Split(SumInformation(f, targets, n), WeighedAll(targets, logs, n), |targets| as real);
  }

  // ---------------------------------------------------------------- the loss

  function LossOf(k: Kernels, g: Group): real {
    if g.targets == [] then 0.0 else Divergence(k.pLogP, Centroid(g.targets), k.logSoftmax(g.scores, g.mask))
  }

  function TotalLoss(k: Kernels, groups: seq<Group>): real {
    if groups == [] then 0.0 else TotalLoss(k, groups[..|groups| - 1]) + LossOf(k, groups[|groups| - 1])
  }

  /** The terms of one divergence, added up. */
  method AddDivergence(f: real -> real, p: Vec, logs: Vec) returns (d: real)
    ensures d == Divergence(f, p, logs)
  {
    d := 0.0;
    for i := 0 to |p|
      invariant d == Information(f, p, i) - Weighed(p, logs, i)
    {
      d := d + (f(Coord(p, i)) - Coord(p, i) * Coord(logs, i));
    }
  }

  method GroupLoss(k: Kernels, g: Group) returns (loss: real)
    ensures loss == LossOf(k, g)
  {
    if g.targets == [] {
      return 0.0;
    }
    var mean := MeanTarget(g.targets);
    assert mean == Centroid(g.targets);
    loss := AddDivergence(k.pLogP, mean, k.logSoftmax(g.scores, g.mask));
  }

  method AddGroups(k: Kernels, groups: seq<Group>) returns (total: real)
    ensures total == TotalLoss(k, groups)
  {
    total := 0.0;
    for g := 0 to |groups|
      invariant total == TotalLoss(k, groups[..g])
    {
      assert groups[..g + 1][..g] == groups[..g];
      var loss := GroupLoss(k, groups[g]);
      total := total + loss;
    }
    assert groups[..|groups|] == groups;
  }

  /** The loss adds one centroid divergence per group, averaged by the group's own size. */
  method ModelLoss(stashes: seq<Stash>, k: Kernels) returns (total: real)
    ensures total == TotalLoss(k, Grouped(stashes))
    ensures StashOn(stashes) ==> WellGrouped(stashes)
  {
    var groups := GroupStashes(stashes);
    if StashOn(stashes) {
      GroupsPartition(stashes);
    }
    total := AddGroups(k, groups);
  }
}
