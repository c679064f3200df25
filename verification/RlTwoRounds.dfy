/** The surgery on a program lowered with two accumulation rounds. The later round's head reads the
    weight gradient after the weight, so its replacement takes the gradient for the weight, and both
    heads get one name. */
module RlTwoRounds {
  import opened RlProgram
  import opened RlValidity
  import opened Sorting

  // ---------------------------------------------------------------- objects

  // The objects of one step of a one-layer model in two rounds, numbered as they come into existence.
  const W_EMBED := 0
  const O_EMBED := 1
  const W_BLOCK := 2
  const O_BLOCK := 3
  const W_HEAD := 4
  const O_HEAD := 5
  const TOKENS_0 := 6
  const TARGETS_0 := 7
  const TOKENS_1 := 8
  const TARGETS_1 := 9
  const Y_EMBED_0 := 10
  const Y_0 := 11
  const A_0 := 12
  const DY_0 := 13
  const LOSS_0 := 14
  const DW_HEAD := 15
  const DY_EMBED_0 := 16
  const DW_BLOCK := 17
  const DW_EMBED := 18
  const Y_EMBED_1 := 19
  const Y_1 := 20
  const A_1 := 21
  const DY_1 := 22
  const LOSS_1 := 23
  const DY_EMBED_1 := 24
  const STARTING := 10
  const ALL := 25

  /** One-letter names, but for the contexts, whose prefix the surgery looks for. */
  function Id(n: nat): string
    requires n < ALL
  {
    if n == A_0 then "A_0" else if n == A_1 then "A_1" else [(97 + n) as char]
  }

  lemma IdInjective(m: nat, n: nat)
    requires m < ALL && n < ALL && Id(m) == Id(n)
    ensures m == n
  {
    assert "A_0"[2] == '0' && "A_1"[2] == '1';
    assert m != A_0 && m != A_1 ==> Id(m)[0] == (97 + m) as char && |Id(m)| == 1;
    assert n != A_0 && n != A_1 ==> Id(n)[0] == (97 + n) as char && |Id(n)| == 1;
  }

  function Ids(ns: seq<nat>): (ids: seq<string>)
    requires forall i :: 0 <= i < |ns| ==> ns[i] < ALL
    ensures |ids| == |ns| && forall i :: 0 <= i < |ns| ==> ids[i] == Id(ns[i])
  {
    seq(|ns|, i requires 0 <= i < |ns| => Id(ns[i]))
  }

  /** Objects `lo` to `hi`. */
  function Between(lo: nat, hi: nat): set<string>
    requires hi <= ALL
  {
    set n | lo <= n < hi :: Id(n)
  }

  // ---------------------------------------------------------------- the lowered program

  /** A task of the lowering: it creates the objects `from` to `to`. */
  datatype Draft = Draft(name: TaskName, inputs: seq<nat>, from: nat, to: nat, mutates: seq<nat>, key: string)

  ghost predicate Sound(d: Draft) {
    && d.from <= d.to <= ALL && NoRepeats(d.inputs)
    && (forall i :: 0 <= i < |d.inputs| ==> d.inputs[i] < d.from)
    && (forall i :: 0 <= i < |d.mutates| ==> d.mutates[i] in d.inputs)
  }

  /** The tasks of both rounds and the optimizers, in lowering order: the first round creates the
      gradients, the second accumulates into them. */
  function Drafts(): seq<Draft> {
    [Draft(EmbedFwd(0, 0), [TOKENS_0, W_EMBED], 10, 11, [], "embed_fwd"),
     Draft(BlockFwd(0, 0, 0), [Y_EMBED_0, W_BLOCK], 11, 13, [], "block_fwd"),
     Draft(HeadLoss(0, 0), [Y_0, TARGETS_0, W_HEAD], 13, 16, [], "head_loss"),
     Draft(BlockBwd(0, 0, 0), [DY_0, A_0, Y_EMBED_0, W_BLOCK], 16, 18, [], "block_bwd"),
     Draft(Other("embed_bwd_0_0"), [DY_EMBED_0, TOKENS_0], 18, 19, [], "embed_bwd"),
     Draft(EmbedFwd(0, 1), [TOKENS_1, W_EMBED], 19, 20, [], "embed_fwd"),
     Draft(BlockFwd(0, 1, 0), [Y_EMBED_1, W_BLOCK], 20, 22, [], "block_fwd"),
     Draft(HeadLoss(0, 1), [Y_1, TARGETS_1, W_HEAD, DW_HEAD], 22, 24, [DW_HEAD], "head_loss"),
     Draft(BlockBwd(0, 1, 0), [DY_1, A_1, Y_EMBED_1, W_BLOCK, DW_BLOCK], 24, 25, [DW_BLOCK], "block_bwd"),
     Draft(Other("embed_bwd_0_1"), [DY_EMBED_1, TOKENS_1, DW_EMBED], 25, 25, [DW_EMBED], "embed_bwd"),
     Draft(Other("optimizer_embed_0"), [W_EMBED, DW_EMBED, O_EMBED], 25, 25, [W_EMBED, O_EMBED], "optimizer_embed"),
     Draft(Other("optimizer_0_0"), [W_BLOCK, DW_BLOCK, O_BLOCK], 25, 25, [W_BLOCK, O_BLOCK], "optimizer_block"),
     Draft(Other("optimizer_head_0"), [W_HEAD, DW_HEAD, O_HEAD], 25, 25, [W_HEAD, O_HEAD], "optimizer_head")]
  }

  ghost predicate AllSound(drafts: seq<Draft>) {
    && (forall k :: 0 <= k < |drafts| ==> Sound(drafts[k]))
    && (forall k :: 0 <= k < |drafts| - 1 ==> drafts[k].to == drafts[k + 1].from)
    && (drafts != [] ==> drafts[0].from == STARTING)
  }

  lemma DraftIsSound(k: nat)
    requires k < |Drafts()|
    ensures Sound(Drafts()[k])
  {
    var d := Drafts()[k];
    assert |d.inputs| <= 5 && |d.mutates| <= 2;
  }

  lemma DraftsFollow()
    ensures forall k :: 0 <= k < |Drafts()| - 1 ==> Drafts()[k].to == Drafts()[k + 1].from
  {
  }

  lemma DraftsAreSound()
    ensures AllSound(Drafts())
  {
    forall k | 0 <= k < |Drafts()| ensures Sound(Drafts()[k]) {
      DraftIsSound(k);
    }
    DraftsFollow();
  }

  function Outputs(lo: nat, hi: nat): (outputs: seq<Output>)
    requires lo <= hi <= ALL
    ensures |outputs| == hi - lo && forall i :: 0 <= i < |outputs| ==> outputs[i] == Output(Id(lo + i), 4)
  {
    seq(hi - lo, i requires 0 <= i < hi - lo => Output(Id(lo + i), 4))
  }

  ghost function TaskOf(d: Draft): Task
    requires Sound(d)
  {
    Task(d.name, Ids(d.inputs), Outputs(d.from, d.to), Ids(d.mutates), d.key, "")
  }

  ghost function TasksOf(drafts: seq<Draft>): (tasks: seq<Task>)
    requires AllSound(drafts)
    ensures |tasks| == |drafts| && forall k :: 0 <= k < |tasks| ==> tasks[k] == TaskOf(drafts[k])
  {
    seq(|drafts|, k requires 0 <= k < |drafts| => TaskOf(drafts[k]))
  }

  function Start(): (initial: seq<Initial>)
    ensures |initial| == STARTING && forall k :: 0 <= k < STARTING ==> initial[k] == Initial(Id(k), 4, Backing)
  {
    seq(STARTING, k requires 0 <= k < STARTING => Initial(Id(k), 4, Backing))
  }

  ghost function TwoRounds(): Program {
    DraftsAreSound();
    Program(Start(), TasksOf(Drafts()), Between(0, 6) + {Id(LOSS_0), Id(LOSS_1)},
            [Rewrite(BlockFwd(0, 0, 0), BlockRecompute(0, 0, 0)), Rewrite(BlockFwd(0, 1, 0), BlockRecompute(0, 1, 0))])
  }

  // ---------------------------------------------------------------- it is valid

  lemma OutputsOf(d: Draft)
    requires Sound(d)
    ensures OutputIds(TaskOf(d)) == Between(d.from, d.to)
  {
    var t := TaskOf(d);
    forall x ensures x in OutputIds(t) <==> x in Between(d.from, d.to) {
      if x in Between(d.from, d.to) {
        var n :| d.from <= n < d.to && Id(n) == x;
        assert t.outputs[n - d.from].id == x;
      }
    }
  }

  /** A sound draft is a valid task once the objects before it exist. */
  lemma DraftIsOk(d: Draft)
    requires Sound(d)
    ensures TaskOk(Between(0, d.from), TaskOf(d))
  {
    var t := TaskOf(d);
    OutputsOf(d);
    forall i, j | 0 <= i < j < |t.inputs| ensures t.inputs[i] != t.inputs[j] {
      if t.inputs[i] == t.inputs[j] {
        IdInjective(d.inputs[i], d.inputs[j]);
      }
    }
    forall i, j | 0 <= i < j < |t.outputs| ensures t.outputs[i].id != t.outputs[j].id {
      if t.outputs[i].id == t.outputs[j].id {
        IdInjective(d.from + i, d.from + j);
      }
    }
    forall x | x in t.mutates ensures x in t.inputs {
      var i :| 0 <= i < |t.mutates| && t.mutates[i] == x;
      var j :| 0 <= j < |d.inputs| && d.inputs[j] == d.mutates[i];
      assert t.inputs[j] == x;
    }
    forall x | x in OutputIds(t) ensures x !in Between(0, d.from) {
      if x in Between(0, d.from) {
        var m :| d.from <= m < d.to && Id(m) == x;
        var n :| 0 <= n < d.from && Id(n) == x;
        IdInjective(m, n);
      }
    }
  }

  /** How many objects exist before task `k`. */
  function Before(drafts: seq<Draft>, k: nat): nat {
    if k < |drafts| then drafts[k].from else if drafts == [] then STARTING else drafts[|drafts| - 1].to
  }

  lemma StartIds()
    ensures InitialIds(Start()) == Between(0, STARTING)
  {
    forall x ensures x in InitialIds(Start()) <==> x in Between(0, STARTING) {
      if x in Between(0, STARTING) {
        var n :| 0 <= n < STARTING && Id(n) == x;
        assert Start()[n].id == x;
      }
    }
  }

  lemma {:induction false} KnownBefore(drafts: seq<Draft>, k: nat)
    requires AllSound(drafts) && k <= |drafts|
    ensures STARTING <= Before(drafts, k) <= ALL
    ensures InitialIds(Start()) + Produced(TasksOf(drafts)[..k]) == Between(0, Before(drafts, k))
  {
    var T := TasksOf(drafts);
    if k == 0 {
      StartIds();
      assert T[..0] == [];
    } else {
      KnownBefore(drafts, k - 1);
      assert T[..k][..k - 1] == T[..k - 1];
      OutputsOf(drafts[k - 1]);
      JoinBetween(drafts[k - 1].from, drafts[k - 1].to);
    }
  }

  lemma JoinBetween(mid: nat, hi: nat)
    requires mid <= hi <= ALL
    ensures Between(0, mid) + Between(mid, hi) == Between(0, hi)
  {
  }

  /** A number for each task name of the lowering. */
  function Tag(name: TaskName): int {
    match name
    case EmbedFwd(_, r) => 5 * r
    case BlockFwd(_, r, _) => 5 * r + 1
    case HeadLoss(_, r) => 5 * r + 2
    case BlockBwd(_, r, _) => 5 * r + 3
    case Other(text) =>
      if text == "embed_bwd_0_0" then 4 else if text == "embed_bwd_0_1" then 9
      else if text == "optimizer_embed_0" then 10 else if text == "optimizer_0_0" then 11 else 12
    case _ => -1
  }

  lemma TagsCount(k: nat)
    requires k < |Drafts()|
    ensures Tag(Drafts()[k].name) == k
  {
    var a, b, c := "embed_bwd_0_1", "optimizer_embed_0", "optimizer_0_0";
    assert a[12] == '1' && "embed_bwd_0_0"[12] == '0' && c[0] == 'o';
    assert |b| == 17 && |c| == 13 && |"optimizer_head_0"| == 16;
  }

  lemma StartIsOk()
    ensures InitialOk(Start())
  {
    forall i, j | 0 <= i < j < STARTING ensures Start()[i].id != Start()[j].id {
      if Start()[i].id == Start()[j].id {
        IdInjective(i, j);
      }
    }
  }

  lemma NamedAt(k: nat, drafts: seq<Draft>, name: TaskName)
    requires k < |drafts| && AllSound(drafts) && drafts[k].name == name
    ensures Names(TasksOf(drafts), name)
  {
    assert TasksOf(drafts)[k].name == name;
  }

  lemma RewritesThere()
    ensures RewritesOk(TwoRounds().tasks, TwoRounds().rewrites)
  {
    DraftsAreSound();
    BackwardDrafts();
    NamedAt(1, Drafts(), BlockFwd(0, 0, 0));
    NamedAt(6, Drafts(), BlockFwd(0, 1, 0));
  }

  lemma TwoRoundsValid()
    ensures Valid(TwoRounds())
  {
    var drafts := Drafts();
    DraftsAreSound();
    var T := TasksOf(drafts);
    StartIsOk();
    forall k | 0 <= k < |T| ensures TaskOkAt(InitialIds(Start()), T, k) {
      KnownBefore(drafts, k);
      DraftIsOk(drafts[k]);
    }
    forall i, j | 0 <= i < j < |T| ensures NamesDiffer(T, i, j) {
      TagsCount(i);
      TagsCount(j);
    }
    KnownBefore(drafts, |drafts|);
    assert T[..|T|] == T;
    RewritesThere();
  }

  lemma TwoRoundsFresh()
    ensures Fresh(TwoRounds())
  {
    var drafts := Drafts();
    DraftsAreSound();
    KnownBefore(drafts, |drafts|);
    assert TasksOf(drafts)[..|drafts|] == TasksOf(drafts);
    forall x | x in ROLLOUT_INPUTS ensures x !in Between(0, ALL) {
      assert |x| > 3;
    }
    NoNewNames();
  }

  lemma NoNewNames()
    ensures forall k :: 0 <= k < |Drafts()| ==> !Drafts()[k].name.RlHeadLoss? && !Drafts()[k].name.BlockRecompute?
  {
  }

  // ---------------------------------------------------------------- and its result is not

  lemma HeadDrafts()
    ensures |Drafts()| == 13 && Drafts()[2] == Draft(HeadLoss(0, 0), [Y_0, TARGETS_0, W_HEAD], 13, 16, [], "head_loss")
    ensures Drafts()[7] ==
      Draft(HeadLoss(0, 1), [Y_1, TARGETS_1, W_HEAD, DW_HEAD], 22, 24, [DW_HEAD], "head_loss")
  {
  }

  /** The replaced head reads the first and the last input of the head. */
  lemma HeadOf(d: Draft)
    requires Sound(d) && d.name.HeadLoss? && d.inputs != []
    ensures RlHead(TaskOf(d)).inputs == [Id(d.inputs[0])] + ROLLOUT_INPUTS + [Id(d.inputs[|d.inputs| - 1])]
  {
  }

  lemma NotRead(y: nat, w: nat, g: nat)
    requires y < ALL && w < ALL && g < ALL && w != y && w != g && w != A_0 && w != A_1
    ensures Id(w) !in [Id(y)] + ROLLOUT_INPUTS + [Id(g)]
  {
    if Id(w) == Id(y) {
      IdInjective(w, y);
    }
    if Id(w) == Id(g) {
      IdInjective(w, g);
    }
    forall x | x in ROLLOUT_INPUTS ensures x != Id(w) {
      assert |x| > 1;
    }
  }

  /** The replaced head of the first round reads the weight; that of the second reads the gradient in
      its place, and no longer the weight. */
  lemma GradientForWeight(zero: Task, one: Task)
    requires zero == TwoRounds().tasks[2] && one == TwoRounds().tasks[7]
    ensures zero.name == HeadLoss(0, 0) && one.name == HeadLoss(0, 1)
    ensures Id(W_HEAD) in zero.inputs && Id(W_HEAD) in one.inputs
    ensures RlHead(zero).inputs == [Id(Y_0)] + ROLLOUT_INPUTS + [Id(W_HEAD)]
    ensures RlHead(one).inputs == [Id(Y_1)] + ROLLOUT_INPUTS + [Id(DW_HEAD)] && Id(W_HEAD) !in RlHead(one).inputs
  {
    DraftsAreSound();
    HeadDrafts();
    HeadOf(Drafts()[2]);
    HeadOf(Drafts()[7]);
    NotRead(Y_1, W_HEAD, DW_HEAD);
    assert zero.inputs[2] == Id(W_HEAD) && one.inputs[2] == Id(W_HEAD);
  }

  lemma BackwardDrafts()
    ensures |Drafts()| == 13
    ensures Drafts()[1].name == BlockFwd(0, 0, 0) && Drafts()[2].name != BlockFwd(0, 0, 0)
    ensures Drafts()[6].name == BlockFwd(0, 1, 0) && Drafts()[7].name != BlockFwd(0, 1, 0)
    ensures Drafts()[1].from == 11 && Drafts()[1].to == 13 && Drafts()[6].from == 20 && Drafts()[6].to == 22
    ensures Drafts()[3].name == BlockBwd(0, 0, 0) && Drafts()[8].name == BlockBwd(0, 1, 0)
    ensures forall k :: 0 <= k < 13 && Drafts()[k].name.BlockBwd? ==> k == 3 || k == 8
    ensures forall k :: 0 <= k < 13 && Drafts()[k].name.HeadLoss? ==> Drafts()[k].inputs != []
  {
  }

  lemma HasContext(f: Task, n: nat)
    requires n + 1 < ALL && f.outputs == Outputs(n, n + 2) && n != A_0 && n != A_1 && (n + 1 == A_0 || n + 1 == A_1)
    ensures Context(f.outputs) == 1
  {
    assert |f.outputs[0].id| == 1;
    assert f.outputs[1..][0] == f.outputs[1] && "A_" <= f.outputs[1].id;
  }

  /** A block's backward two tasks after its forward finds it. */
  lemma TwoBack(T: seq<Task>, k: nat)
    requires 2 <= k < |T| && T[k].name.BlockBwd? && T[k - 2].name == FwdName(T[k].name) != T[k - 1].name
    ensures Fwd(T, k) == k - 2
  {
    assert LastNamed(T, k - 1, FwdName(T[k].name)) == k - 2;
  }

  /** The builder goes through: it fails on validation only. */
  lemma TwoRoundsBuilds()
    ensures Buildable(TwoRounds().tasks)
    ensures PromotedIds(TwoRounds(), Chain(TwoRounds().tasks, |TwoRounds().tasks|)) <= Produced(TwoRounds().tasks)
  {
    DraftsAreSound();
    BackwardDrafts();
    var T := TwoRounds().tasks;
    TwoBack(T, 3);
    TwoBack(T, 8);
    HasContext(T[1], 11);
    HasContext(T[6], 20);
    forall k | 0 <= k < |T| ensures BuildableAt(T, k) {
      assert T[k].name == Drafts()[k].name;
    }
    TwoRoundsValid();
    PromotionIsDefined(TwoRounds());
  }

  /** The lowering is valid, and whatever the builder makes of it is not. */
  lemma TwoRoundsClash(rows: int, rl: Program)
    requires rows >= 1 && IsRlOf(TwoRounds(), rows, rl)
    ensures Valid(TwoRounds()) && !Valid(rl)
  {
    TwoRoundsValid();
    TwoRoundsFresh();
    DraftsAreSound();
    HeadDrafts();
    TwoHeadsClash(TwoRounds(), rows, rl, 2, 7);
  }
}
