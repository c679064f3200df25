/** When the surgery yields a valid program: an exact condition on the standard program. */
module RlValidity {
  import opened RlProgram
  import opened Sorting

  // ---------------------------------------------------------------- sequences of tasks

  lemma {:induction false} ProducedMember(tasks: seq<Task>, x: string)
    ensures x in Produced(tasks) <==> exists k :: 0 <= k < |tasks| && x in OutputIds(tasks[k])
  {
    if tasks != [] {
      var rest := tasks[..|tasks| - 1];
      ProducedMember(rest, x);
      if k :| 0 <= k < |rest| && x in OutputIds(rest[k]) {
        assert x in OutputIds(tasks[k]);
      }
      if k :| 0 <= k < |tasks| && x in OutputIds(tasks[k]) {
        assert k < |rest| ==> x in OutputIds(rest[k]);
      }
    }
  }

  lemma ProducedBefore(tasks: seq<Task>, k: nat, x: string)
    requires k <= |tasks|
    ensures x in Produced(tasks[..k]) <==> exists j :: 0 <= j < k && x in OutputIds(tasks[j])
  {
    ProducedMember(tasks[..k], x);
    if j :| 0 <= j < k && x in OutputIds(tasks[j]) {
      assert x in OutputIds(tasks[..k][j]);
    }
  }

  lemma {:induction false} ReferencedMember(tasks: seq<Task>, x: string)
    ensures x in Referenced(tasks) <==> exists k :: 0 <= k < |tasks| && x in Reads(tasks[k])
  {
    if tasks != [] {
      var rest := tasks[..|tasks| - 1];
      ReferencedMember(rest, x);
      if k :| 0 <= k < |rest| && x in Reads(rest[k]) {
        assert x in Reads(tasks[k]);
      }
      if k :| 0 <= k < |tasks| && x in Reads(tasks[k]) {
        assert k < |rest| ==> x in Reads(rest[k]);
      }
    }
  }

  lemma {:induction false} ProducedConcat(a: seq<Task>, b: seq<Task>)
    ensures Produced(a + b) == Produced(a) + Produced(b)
  {
    if b == [] {
      assert a + b == a;
    } else {
      ProducedConcat(a, b[..|b| - 1]);
      assert (a + b)[..|a + b| - 1] == a + b[..|b| - 1];
    }
  }

  lemma TasksOkConcat(known: set<string>, a: seq<Task>, b: seq<Task>)
    ensures TasksOk(known, a + b) <==> TasksOk(known, a) && TasksOk(known + Produced(a), b)
  {
    forall k | 0 <= k < |a| ensures (a + b)[..k] == a[..k] && (a + b)[k] == a[k] {}
    forall k | 0 <= k < |b|
      ensures known + Produced((a + b)[..|a| + k]) == known + Produced(a) + Produced(b[..k]) && (a + b)[|a| + k] == b[k]
    {
      assert (a + b)[..|a| + k] == a + b[..k];
      ProducedConcat(a, b[..k]);
    }
    if TasksOk(known, a + b) {
      forall k | 0 <= k < |a| ensures TaskOkAt(known, a, k) {
        assert TaskOkAt(known, a + b, k);
      }
      forall k | 0 <= k < |b| ensures TaskOkAt(known + Produced(a), b, k) {
        assert TaskOkAt(known, a + b, |a| + k);
      }
    }
    if TasksOk(known, a) && TasksOk(known + Produced(a), b) {
      forall k | 0 <= k < |a + b| ensures TaskOkAt(known, a + b, k) {
        if k < |a| {
          assert TaskOkAt(known, a, k);
        } else {
          assert TaskOkAt(known + Produced(a), b, k - |a|);
          assert (a + b)[..|a| + (k - |a|)] == (a + b)[..k];
        }
      }
    }
  }

  lemma {:induction false} ReferencedConcat(a: seq<Task>, b: seq<Task>)
    ensures Referenced(a + b) == Referenced(a) + Referenced(b)
  {
    if b == [] {
      assert a + b == a;
    } else {
      ReferencedConcat(a, b[..|b| - 1]);
      assert (a + b)[..|a + b| - 1] == a + b[..|b| - 1];
    }
  }

  // ---------------------------------------------------------------- the chain as blocks, one per task

  function Flat(blocks: seq<seq<Task>>): seq<Task> {
    if blocks == [] then [] else Flat(blocks[..|blocks| - 1]) + blocks[|blocks| - 1]
  }

  lemma {:induction false} FlatProduces(blocks: seq<seq<Task>>, x: string)
    ensures x in Produced(Flat(blocks)) <==> exists j :: 0 <= j < |blocks| && x in Produced(blocks[j])
  {
    if blocks != [] {
      var rest := blocks[..|blocks| - 1];
      FlatProduces(rest, x);
      ProducedConcat(Flat(rest), blocks[|blocks| - 1]);
      if j :| 0 <= j < |rest| && x in Produced(rest[j]) {
        assert x in Produced(blocks[j]);
      }
      if j :| 0 <= j < |blocks| && x in Produced(blocks[j]) {
        assert j < |rest| ==> x in Produced(rest[j]);
      }
    }
  }

  lemma {:induction false} FlatReferences(blocks: seq<seq<Task>>, x: string)
    ensures x in Referenced(Flat(blocks)) <==> exists j :: 0 <= j < |blocks| && x in Referenced(blocks[j])
  {
    if blocks != [] {
      var rest := blocks[..|blocks| - 1];
      FlatReferences(rest, x);
      ReferencedConcat(Flat(rest), blocks[|blocks| - 1]);
      if j :| 0 <= j < |rest| && x in Referenced(rest[j]) {
        assert x in Referenced(blocks[j]);
      }
      if j :| 0 <= j < |blocks| && x in Referenced(blocks[j]) {
        assert j < |rest| ==> x in Referenced(rest[j]);
      }
    }
  }

  lemma BlockReferenced(blocks: seq<seq<Task>>, k: nat, x: string)
    requires k < |blocks| && x in Referenced(blocks[k])
    ensures x in Referenced(Flat(blocks))
  {
    FlatReferences(blocks, x);
  }

  ghost predicate BlockOk(known: set<string>, blocks: seq<seq<Task>>, j: nat)
    requires j < |blocks|
  {
    TasksOk(known + Produced(Flat(blocks[..j])), blocks[j])
  }

  ghost predicate BlocksOk(known: set<string>, blocks: seq<seq<Task>>) {
    forall j {:trigger BlockOk(known, blocks, j)} :: 0 <= j < |blocks| ==> BlockOk(known, blocks, j)
  }

  lemma {:induction false} FlatOk(known: set<string>, blocks: seq<seq<Task>>)
    ensures TasksOk(known, Flat(blocks)) <==> BlocksOk(known, blocks)
  {
    if blocks != [] {
      var rest := blocks[..|blocks| - 1];
      FlatOk(known, rest);
      TasksOkConcat(known, Flat(rest), blocks[|blocks| - 1]);
      assert BlockOk(known, blocks, |rest|) <==> TasksOk(known + Produced(Flat(rest)), blocks[|blocks| - 1]);
      forall j | 0 <= j < |rest| ensures BlockOk(known, rest, j) <==> BlockOk(known, blocks, j) {
        assert rest[..j] == blocks[..j];
      }
      if BlocksOk(known, rest) && BlockOk(known, blocks, |rest|) {
        forall j | 0 <= j < |blocks| ensures BlockOk(known, blocks, j) {
          assert j < |rest| ==> BlockOk(known, rest, j);
        }
      }
    }
  }

  function Blocks(tasks: seq<Task>): (blocks: seq<seq<Task>>)
    requires forall k :: 0 <= k < |tasks| ==> BuildableAt(tasks, k)
    ensures |blocks| == |tasks|
    ensures forall k :: 0 <= k < |tasks| ==> blocks[k] == Emit(tasks, k)
  {
    seq(|tasks|, k requires 0 <= k < |tasks| => Emit(tasks, k))
  }

  lemma {:induction false} ChainIsFlat(tasks: seq<Task>, k: nat)
    requires k <= |tasks| && Buildable(tasks)
    ensures Chain(tasks, k) == Flat(Blocks(tasks)[..k])
  {
    if k > 0 {
      ChainIsFlat(tasks, k - 1);
      assert Blocks(tasks)[..k][..k - 1] == Blocks(tasks)[..k - 1];
    }
  }

  lemma ChainIsAllBlocks(tasks: seq<Task>)
    requires Buildable(tasks)
    ensures Chain(tasks, |tasks|) == Flat(Blocks(tasks))
  {
    var blocks := Blocks(tasks);
    ChainIsFlat(tasks, |tasks|);
    assert blocks[..|tasks|] == blocks;
  }

  // ---------------------------------------------------------------- producers in the standard program

  predicate IsBwd(tasks: seq<Task>, b: int) {
    0 <= b < |tasks| && tasks[b].name.BlockBwd?
  }

  /** The saved context that the recompute before backward `b` rebuilds. */
  function Ctx(tasks: seq<Task>, b: nat): string
    requires IsBwd(tasks, b) && BuildableAt(tasks, b)
  {
    var f := tasks[Fwd(tasks, b)];
    f.outputs[Context(f.outputs)].id
  }

  function Known(base: Program, k: nat): set<string>
    requires k <= |base.tasks|
  {
    InitialIds(base.initial) + Produced(base.tasks[..k])
  }

  lemma BaseTask(base: Program, k: nat)
    requires Valid(base) && k < |base.tasks|
    ensures TaskOk(Known(base, k), base.tasks[k])
  {
    assert TaskOkAt(InitialIds(base.initial), base.tasks, k);
  }

  lemma {:induction false} KnownGrows(base: Program, j: nat, k: nat)
    requires j <= k <= |base.tasks|
    ensures Known(base, j) <= Known(base, k)
  {
    forall x | x in Produced(base.tasks[..j]) ensures x in Produced(base.tasks[..k]) {
      ProducedBefore(base.tasks, j, x);
      ProducedBefore(base.tasks, k, x);
    }
  }

  /** Single assignment: an object is initial or has one producer, never both. */
  lemma OneProducer(base: Program, i: nat, j: nat, x: string)
    requires Valid(base) && i < |base.tasks| && j < |base.tasks|
    requires x in OutputIds(base.tasks[i])
    ensures x !in InitialIds(base.initial)
    ensures x in OutputIds(base.tasks[j]) ==> i == j
  {
    BaseTask(base, i);
    BaseTask(base, j);
    if i < j {
      ProducedBefore(base.tasks, j, x);
    } else if j < i {
      ProducedBefore(base.tasks, i, x);
    }
  }

  lemma OneContext(base: Program, b: nat, c: nat)
    requires Valid(base) && Buildable(base.tasks) && IsBwd(base.tasks, b) && IsBwd(base.tasks, c)
    requires Ctx(base.tasks, b) == Ctx(base.tasks, c)
    ensures b == c
  {
    var T := base.tasks;
    CtxProduced(T, b);
    CtxProduced(T, c);
    OneProducer(base, Fwd(T, b), Fwd(T, c), Ctx(T, b));
    if b != c {
      DifferentNames(T, b, c);
    }
  }

  lemma DifferentNames(tasks: seq<Task>, b: nat, c: nat)
    requires NamesDistinct(tasks) && b < |tasks| && c < |tasks| && b != c
    ensures tasks[b].name != tasks[c].name
  {
    assert b < c ==> NamesDiffer(tasks, b, c);
    assert c < b ==> NamesDiffer(tasks, c, b);
  }

  lemma CtxProduced(tasks: seq<Task>, b: nat)
    requires IsBwd(tasks, b) && BuildableAt(tasks, b)
    ensures 0 <= Fwd(tasks, b) < b && tasks[Fwd(tasks, b)].name == FwdName(tasks[b].name)
    ensures Ctx(tasks, b) in OutputIds(tasks[Fwd(tasks, b)])
  {
  }

  // ---------------------------------------------------------------- what the chain produces

  lemma EmitProduces(tasks: seq<Task>, k: nat, x: string)
    requires k < |tasks| && BuildableAt(tasks, k)
    ensures x in Produced(Emit(tasks, k)) <==>
      (!Dropped(tasks[k]) && x in OutputIds(tasks[k])) || (IsBwd(tasks, k) && x == Ctx(tasks, k))
  {
    ProducedMember(Emit(tasks, k), x);
    if tasks[k].name.BlockBwd? {
      var rec := Recompute(tasks[Fwd(tasks, k)]);
      assert Emit(tasks, k) == [rec, tasks[k]];
      assert rec.outputs[0].id == Ctx(tasks, k);
      assert OutputIds(rec) == {Ctx(tasks, k)};
    } else if !Dropped(tasks[k]) {
      assert Emit(tasks, k)[0].outputs == tasks[k].outputs;
    }
  }

  ghost predicate KeptProduces(tasks: seq<Task>, k: nat, x: string)
    requires k <= |tasks|
  {
    exists j :: 0 <= j < k && !Dropped(tasks[j]) && x in OutputIds(tasks[j])
  }

  ghost predicate Rebuilt(tasks: seq<Task>, k: nat, x: string)
    requires k <= |tasks| && Buildable(tasks)
  {
    exists b :: 0 <= b < k && IsBwd(tasks, b) && Ctx(tasks, b) == x
  }

  lemma ChainProduces(tasks: seq<Task>, k: nat, x: string)
    requires k <= |tasks| && Buildable(tasks)
    ensures x in Produced(Chain(tasks, k)) <==> KeptProduces(tasks, k, x) || Rebuilt(tasks, k, x)
  {
    var blocks := Blocks(tasks)[..k];
    ChainIsFlat(tasks, k);
    FlatProduces(blocks, x);
    if x in Produced(Chain(tasks, k)) {
      var j :| 0 <= j < |blocks| && x in Produced(blocks[j]);
      EmitProduces(tasks, j, x);
    }
    if j :| 0 <= j < k && !Dropped(tasks[j]) && x in OutputIds(tasks[j]) {
      EmitProduces(tasks, j, x);
      assert x in Produced(blocks[j]);
    }
    if j :| 0 <= j < k && IsBwd(tasks, j) && Ctx(tasks, j) == x {
      EmitProduces(tasks, j, x);
      assert x in Produced(blocks[j]);
    }
  }

  // ---------------------------------------------------------------- initial objects of the result

  /** The standard program leaves the new names alone. */
  ghost predicate Fresh(base: Program) {
    && (forall x :: x in ROLLOUT_INPUTS ==> x !in InitialIds(base.initial) && x !in Produced(base.tasks))
    && (forall k :: 0 <= k < |base.tasks| ==> !base.tasks[k].name.RlHeadLoss? && !base.tasks[k].name.BlockRecompute?)
  }

  lemma {:induction false} KeptInitialMember(initial: seq<Initial>, referenced: set<string>, o: Initial)
    ensures o in KeptInitial(initial, referenced) <==> o in initial && o.id in referenced
  {
    if initial != [] {
      KeptInitialMember(initial[..|initial| - 1], referenced, o);
      assert initial == initial[..|initial| - 1] + [initial[|initial| - 1]];
    }
  }

  lemma InitialIdsMember(initial: seq<Initial>, x: string)
    ensures x in InitialIds(initial) <==> exists o :: o in initial && o.id == x
  {
    if o :| o in initial && o.id == x {
      var k :| 0 <= k < |initial| && initial[k] == o;
      assert initial[k].id == x;
    }
  }

  lemma KeptInitialIds(initial: seq<Initial>, referenced: set<string>)
    ensures InitialIds(KeptInitial(initial, referenced)) == InitialIds(initial) * referenced
  {
    forall x
      ensures x in InitialIds(KeptInitial(initial, referenced)) <==> x in InitialIds(initial) && x in referenced
    {
      InitialIdsMember(initial, x);
      InitialIdsMember(KeptInitial(initial, referenced), x);
      forall o: Initial ensures o in KeptInitial(initial, referenced) <==> o in initial && o.id in referenced {
        KeptInitialMember(initial, referenced, o);
      }
    }
  }

  lemma InitialIdsConcat(a: seq<Initial>, b: seq<Initial>)
    ensures InitialIds(a + b) == InitialIds(a) + InitialIds(b)
  {
    forall x ensures x in InitialIds(a + b) <==> x in InitialIds(a) || x in InitialIds(b) {
      InitialIdsMember(a, x);
      InitialIdsMember(b, x);
      InitialIdsMember(a + b, x);
    }
  }

  lemma RolloutIds(rows: int)
    ensures InitialIds(RolloutObjects(rows)) == Rollouts()
  {
    forall x ensures x in InitialIds(RolloutObjects(rows)) <==> x in ROLLOUT_INPUTS {
      if x in ROLLOUT_INPUTS {
        var k :| 0 <= k < |ROLLOUT_INPUTS| && ROLLOUT_INPUTS[k] == x;
        assert RolloutObjects(rows)[k].id == x;
      }
    }
  }

  lemma RlInitialIds(base: Program, rows: int, rl: Program)
    requires IsRlOf(base, rows, rl)
    ensures InitialIds(rl.initial) ==
      InitialIds(base.initial) * Referenced(rl.tasks) + PromotedIds(base, rl.tasks) + Rollouts()
  {
    var kept := KeptInitial(base.initial, Referenced(rl.tasks));
    var promoted :| IsPromotion(base, rl.tasks, promoted) && rl.initial == kept + promoted + RolloutObjects(rows);
    KeptInitialIds(base.initial, Referenced(rl.tasks));
    InitialIdsConcat(kept, promoted);
    InitialIdsConcat(kept + promoted, RolloutObjects(rows));
    RolloutIds(rows);
  }

  // ---------------------------------------------------------------- when an input is there

  /** The objects that exist in the result when the walk's block `k` runs. */
  function KnownInRl(base: Program, rl: Program, k: nat): set<string>
    requires k <= |base.tasks| && Buildable(base.tasks)
  {
    InitialIds(rl.initial) + Produced(Chain(base.tasks, k))
  }

  /** A context is rebuilt at its own backward, no earlier. */
  ghost predicate RebuiltLater(tasks: seq<Task>, k: nat, x: string)
    requires Buildable(tasks)
  {
    exists b :: k <= b < |tasks| && IsBwd(tasks, b) && Ctx(tasks, b) == x
  }

  lemma RebuiltSplit(base: Program, k: nat, x: string)
    requires Valid(base) && Buildable(base.tasks) && k <= |base.tasks|
    ensures Rebuilt(base.tasks, |base.tasks|, x) <==> Rebuilt(base.tasks, k, x) || RebuiltLater(base.tasks, k, x)
    ensures !(Rebuilt(base.tasks, k, x) && RebuiltLater(base.tasks, k, x))
  {
    var T := base.tasks;
    forall b, c | 0 <= b < k <= c < |T| && IsBwd(T, b) && IsBwd(T, c) ensures Ctx(T, b) != Ctx(T, c) {
      if Ctx(T, b) == Ctx(T, c) {
        OneContext(base, b, c);
      }
    }
  }

  /** What is initial or produced by a kept task is no context. */
  lemma NeverRebuilt(base: Program, x: string)
    requires Valid(base) && Buildable(base.tasks)
    requires x in InitialIds(base.initial) || KeptProduces(base.tasks, |base.tasks|, x)
    ensures !Rebuilt(base.tasks, |base.tasks|, x)
  {
    var T := base.tasks;
    forall b | 0 <= b < |T| && IsBwd(T, b) ensures Ctx(T, b) != x {
      CtxProduced(T, b);
      OneProducer(base, Fwd(T, b), Fwd(T, b), Ctx(T, b));
      if j :| 0 <= j < |T| && !Dropped(T[j]) && x in OutputIds(T[j]) {
        OneProducer(base, j, Fwd(T, b), x);
      }
    }
  }

  lemma KeptProducerBefore(base: Program, k: nat, x: string)
    requires Valid(base) && k <= |base.tasks| && x in Known(base, k)
    ensures KeptProduces(base.tasks, |base.tasks|, x) <==> KeptProduces(base.tasks, k, x)
  {
    var T := base.tasks;
    ProducedBefore(T, k, x);
    if j :| 0 <= j < |T| && !Dropped(T[j]) && x in OutputIds(T[j]) {
      OneProducer(base, j, j, x);
      var i :| 0 <= i < k && x in OutputIds(T[i]);
      OneProducer(base, i, j, x);
    }
  }

  lemma NotARollout(base: Program, k: nat, x: string)
    requires Fresh(base) && k <= |base.tasks| && x in Known(base, k)
    ensures x !in Rollouts()
  {
    KnownGrows(base, k, |base.tasks|);
    assert base.tasks[..|base.tasks|] == base.tasks;
  }

  /** Something the standard program knows at `k`, and the result references, exists in the result
      at `k` unless it is a context that is only rebuilt later. */
  lemma KnownUnlessRebuiltLater(base: Program, rows: int, rl: Program, k: nat, x: string)
    requires Valid(base) && Fresh(base) && IsRlOf(base, rows, rl) && k <= |base.tasks|
    requires x in Known(base, k) && x in Referenced(rl.tasks)
    ensures x in KnownInRl(base, rl, k) <==> !RebuiltLater(base.tasks, k, x)
  {
    RlInitialIds(base, rows, rl);
    ChainProduces(base.tasks, k, x);
    ChainProduces(base.tasks, |base.tasks|, x);
    RebuiltSplit(base, k, x);
    KeptProducerBefore(base, k, x);
    NotARollout(base, k, x);
    if x in InitialIds(base.initial) || KeptProduces(base.tasks, |base.tasks|, x) {
      NeverRebuilt(base, x);
    }
  }

  // ---------------------------------------------------------------- one position at a time

  lemma SingleOk(known: set<string>, t: Task)
    ensures TasksOk(known, [t]) <==> TaskOk(known, t)
  {
    assert [t][..0] == [] && Produced([]) == {};
    assert known + {} == known;
    if TasksOk(known, [t]) {
      assert TaskOkAt(known, [t], 0);
    }
  }

  lemma PairOk(known: set<string>, a: Task, b: Task)
    ensures TasksOk(known, [a, b]) <==> TaskOk(known, a) && TaskOk(known + OutputIds(a), b)
  {
    TasksOkConcat(known, [a], [b]);
    assert [a] + [b] == [a, b];
    SingleOk(known, a);
    SingleOk(known + OutputIds(a), b);
    assert Produced([a]) == Produced([a][..0]) + OutputIds(a) == OutputIds(a);
  }

  lemma OutputsAreNew(base: Program, rows: int, rl: Program, k: nat)
    requires Valid(base) && Fresh(base) && IsRlOf(base, rows, rl) && k < |base.tasks| && !Dropped(base.tasks[k])
    ensures OutputIds(base.tasks[k]) !! KnownInRl(base, rl, k)
    ensures IsBwd(base.tasks, k) ==> Ctx(base.tasks, k) !in OutputIds(base.tasks[k])
  {
    var T := base.tasks;
    RlInitialIds(base, rows, rl);
    forall x | x in OutputIds(T[k])
      ensures x !in KnownInRl(base, rl, k) && (IsBwd(T, k) ==> x != Ctx(T, k))
    {
      OneProducer(base, k, k, x);
      ProducedMember(T, x);
      ChainProduces(T, k, x);
      ChainProduces(T, |T|, x);
      assert KeptProduces(T, |T|, x);
      NeverRebuilt(base, x);
      RebuiltSplit(base, k, x);
      forall j | 0 <= j < k ensures x !in OutputIds(T[j]) {
        if x in OutputIds(T[j]) {
          OneProducer(base, k, j, x);
        }
      }
    }
  }

  lemma ContextIsNew(base: Program, rows: int, rl: Program, k: nat)
    requires Valid(base) && Fresh(base) && IsRlOf(base, rows, rl) && IsBwd(base.tasks, k)
    ensures Ctx(base.tasks, k) !in KnownInRl(base, rl, k)
  {
    var T, x := base.tasks, Ctx(base.tasks, k);
    RlInitialIds(base, rows, rl);
    ContextNotKept(base, k, x);
    ContextComes(base, k, x);
  }

  lemma ContextComes(base: Program, k: nat, x: string)
    requires Valid(base) && Buildable(base.tasks) && IsBwd(base.tasks, k) && x == Ctx(base.tasks, k)
    requires !KeptProduces(base.tasks, k, x)
    ensures x !in Produced(Chain(base.tasks, k)) && x in Produced(Chain(base.tasks, |base.tasks|))
  {
    var T := base.tasks;
    assert RebuiltLater(T, k, x);
    RebuiltSplit(base, k, x);
    ChainProduces(T, k, x);
    ChainProduces(T, |T|, x);
  }

  lemma ContextNotKept(base: Program, k: nat, x: string)
    requires Valid(base) && Fresh(base) && Buildable(base.tasks) && IsBwd(base.tasks, k) && x == Ctx(base.tasks, k)
    ensures !KeptProduces(base.tasks, k, x) && x !in InitialIds(base.initial) && x !in ROLLOUT_INPUTS
  {
    var T := base.tasks;
    CtxProduced(T, k);
    OneProducer(base, Fwd(T, k), Fwd(T, k), x);
    ProducedMember(T, x);
    if KeptProduces(T, k, x) {
      var j :| 0 <= j < k && !Dropped(T[j]) && x in OutputIds(T[j]);
      OneProducer(base, j, Fwd(T, k), x);
    }
  }

  function InputsOf(t: Task): set<string> {
    set x | x in t.inputs
  }

  /** What the block of position `k` reads. */
  function BlockReads(tasks: seq<Task>, k: nat): set<string>
    requires k < |tasks| && BuildableAt(tasks, k)
  {
    match tasks[k].name
    case EmbedFwd(_, _) => {}
    case BlockFwd(_, _, _) => {}
    case HeadLoss(_, _) => {tasks[k].inputs[0], tasks[k].inputs[|tasks[k].inputs| - 1]}
    case BlockBwd(_, _, _) => InputsOf(Recompute(tasks[Fwd(tasks, k)])) + InputsOf(tasks[k])
    case _ => InputsOf(tasks[k])
  }

  lemma {:induction false} AuxTempsMember(outputs: seq<Output>, x: string)
    requires x in AuxTemps(outputs)
    ensures "AuxTemp_" <= x && exists k :: 0 <= k < |outputs| && outputs[k].id == x
  {
    if !("AuxTemp_" <= outputs[0].id && outputs[0].id == x) {
      AuxTempsMember(outputs[1..], x);
      var k :| 0 <= k < |outputs[1..]| && outputs[1..][k].id == x;
      assert outputs[k + 1].id == x;
    }
  }

  lemma {:induction false} AuxTempsDistinct(outputs: seq<Output>)
    requires forall i, j :: 0 <= i < j < |outputs| ==> outputs[i].id != outputs[j].id
    ensures NoRepeats(AuxTemps(outputs))
  {
    if outputs != [] {
      AuxTempsDistinct(outputs[1..]);
      var rest := AuxTemps(outputs[1..]);
      forall m | 0 <= m < |rest| ensures rest[m] != outputs[0].id {
        AuxTempsMember(outputs[1..], rest[m]);
      }
    }
  }

  lemma DistinctConcat(a: seq<string>, b: seq<string>)
    requires NoRepeats(a) && NoRepeats(b) && forall x :: x in b ==> x !in a
    ensures NoRepeats(a + b)
  {
    forall i, j | 0 <= i < j < |a + b| ensures (a + b)[i] != (a + b)[j] {
      if i < |a| <= j {
        assert b[j - |a|] in b;
      }
    }
  }

  lemma AuxTempFacts(base: Program, f: nat, k: nat, x: string)
    requires Valid(base) && f < k <= |base.tasks| && x in AuxTemps(base.tasks[f].outputs)
    ensures x in OutputIds(base.tasks[f]) && x in Known(base, k) && x !in base.tasks[f].inputs && "AuxTemp_" <= x
  {
    BaseTask(base, f);
    AuxTempsMember(base.tasks[f].outputs, x);
    ProducedBefore(base.tasks, k, x);
  }

  /** The recompute of a dropped forward reads what the standard program knows by then, without
      repeats, and never its own context. */
  lemma RecomputeInputs(base: Program, k: nat)
    requires Valid(base) && IsBwd(base.tasks, k) && BuildableAt(base.tasks, k)
    ensures var rec := Recompute(base.tasks[Fwd(base.tasks, k)]);
      && NoRepeats(rec.inputs) && InputsOf(rec) <= Known(base, k)
      && Ctx(base.tasks, k) !in rec.inputs && rec.outputs[0].size >= 1
  {
    var T, f := base.tasks, Fwd(base.tasks, k);
    CtxProduced(T, k);
    BaseTask(base, f);
    var F, ctx := T[f], Ctx(T, k);
    KnownGrows(base, f, k);
    forall x | x in AuxTemps(F.outputs) ensures x in Known(base, k) && x !in F.inputs && x != ctx {
      AuxTempFacts(base, f, k, x);
      assert "A_" <= ctx && ctx[1] == '_' && x[1] == 'u';
    }
    AuxTempsDistinct(F.outputs);
    DistinctConcat(F.inputs, AuxTemps(F.outputs));
  }

  lemma BlockReadsKnown(base: Program, k: nat)
    requires Valid(base) && k < |base.tasks| && BuildableAt(base.tasks, k)
    ensures BlockReads(base.tasks, k) <= Known(base, k)
  {
    BaseTask(base, k);
    if IsBwd(base.tasks, k) {
      RecomputeInputs(base, k);
    }
  }

  lemma BlockReadsEmitted(tasks: seq<Task>, k: nat, x: string)
    requires k < |tasks| && BuildableAt(tasks, k) && x in BlockReads(tasks, k)
    ensures x in Referenced(Emit(tasks, k))
  {
    var e := Emit(tasks, k);
    ReferencedMember(e, x);
    if IsBwd(tasks, k) {
      assert x in Reads(e[0]) || x in Reads(e[1]);
    } else {
      assert x in Reads(e[0]);
    }
  }

  lemma EmittedReferenced(tasks: seq<Task>, k: nat, x: string)
    requires Buildable(tasks) && k < |tasks| && BuildableAt(tasks, k) && x in Referenced(Emit(tasks, k))
    ensures x in Referenced(Chain(tasks, |tasks|))
  {
    ChainIsAllBlocks(tasks);
    BlockReferenced(Blocks(tasks), k, x);
  }

  lemma BlockReadsReferenced(tasks: seq<Task>, k: nat, x: string)
    requires Buildable(tasks) && k < |tasks| && BuildableAt(tasks, k) && x in BlockReads(tasks, k)
    ensures x in Referenced(Chain(tasks, |tasks|))
  {
    BlockReadsEmitted(tasks, k, x);
    EmittedReferenced(tasks, k, x);
  }

  /** No input of block `k` is a context that is only rebuilt after it. */
  ghost predicate InTime(tasks: seq<Task>, k: nat)
    requires Buildable(tasks) && k < |tasks| && BuildableAt(tasks, k)
  {
    forall x :: x in BlockReads(tasks, k) ==> !RebuiltLater(tasks, k + 1, x)
  }

  /** The replaced head keeps two distinct inputs, and mutates nothing it no longer reads. */
  predicate HeadOk(t: Task)
    requires t.inputs != []
  {
    var y, w := t.inputs[0], t.inputs[|t.inputs| - 1];
    y != w && forall x :: x in t.mutates ==> x == y || x == w
  }

  /** The inputs of block `k` all exist when it runs exactly when none is rebuilt later. */
  lemma ReadsExist(base: Program, rows: int, rl: Program, k: nat, x: string)
    requires Valid(base) && Fresh(base) && IsRlOf(base, rows, rl)
    requires k < |base.tasks| && BuildableAt(base.tasks, k) && x in BlockReads(base.tasks, k)
    ensures x in KnownInRl(base, rl, k) <==> !RebuiltLater(base.tasks, k, x)
    ensures x !in ROLLOUT_INPUTS
  {
    BlockReadsKnown(base, k);
    BlockReadsReferenced(base.tasks, k, x);
    KnownUnlessRebuiltLater(base, rows, rl, k, x);
    NotARollout(base, k, x);
  }

  lemma LaterThanNext(tasks: seq<Task>, k: nat, x: string)
    requires Buildable(tasks) && k < |tasks|
    ensures RebuiltLater(tasks, k, x) <==>
      RebuiltLater(tasks, k + 1, x) || (IsBwd(tasks, k) && BuildableAt(tasks, k) && Ctx(tasks, k) == x)
  {
    assert BuildableAt(tasks, k);
  }

  /** Moving a valid task elsewhere: only its inputs and its outputs' novelty can fail. */
  lemma MovedTask(known: set<string>, known': set<string>, t: Task)
    requires TaskOk(known, t) && OutputIds(t) !! known'
    ensures TaskOk(known', t) <==> InputsOf(t) <= known'
  {
    forall x ensures x in t.inputs <==> x in InputsOf(t) {}
  }

  /** At a position that rebuilds no context, its reads exist exactly when they are in time. */
  lemma ReadsInTime(base: Program, rows: int, rl: Program, k: nat)
    requires Valid(base) && Fresh(base) && IsRlOf(base, rows, rl)
    requires k < |base.tasks| && BuildableAt(base.tasks, k) && !IsBwd(base.tasks, k)
    ensures BlockReads(base.tasks, k) <= KnownInRl(base, rl, k) <==> InTime(base.tasks, k)
  {
    forall x | x in BlockReads(base.tasks, k)
      ensures x in KnownInRl(base, rl, k) <==> !RebuiltLater(base.tasks, k + 1, x)
    {
      ReadsExist(base, rows, rl, k, x);
      LaterThanNext(base.tasks, k, x);
    }
  }

  lemma PlainPosition(base: Program, rows: int, rl: Program, k: nat)
    requires Valid(base) && Fresh(base) && IsRlOf(base, rows, rl) && k < |base.tasks| && BuildableAt(base.tasks, k)
    requires !Dropped(base.tasks[k]) && !base.tasks[k].name.HeadLoss? && !base.tasks[k].name.BlockBwd?
    ensures TasksOk(KnownInRl(base, rl, k), Emit(base.tasks, k)) <==> InTime(base.tasks, k)
  {
    var t := base.tasks[k];
    SingleOk(KnownInRl(base, rl, k), t);
    assert Emit(base.tasks, k) == [t] && BlockReads(base.tasks, k) == InputsOf(t);
    BaseTask(base, k);
    OutputsAreNew(base, rows, rl, k);
    MovedTask(Known(base, k), KnownInRl(base, rl, k), t);
    ReadsInTime(base, rows, rl, k);
  }

  lemma RolloutsKnown(base: Program, rows: int, rl: Program, k: nat)
    requires IsRlOf(base, rows, rl) && k <= |base.tasks|
    ensures Rollouts() <= KnownInRl(base, rl, k)
  {
    RlInitialIds(base, rows, rl);
  }

  lemma HeadInputs(t: Task)
    requires t.name.HeadLoss? && t.inputs != []
    requires t.inputs[0] !in ROLLOUT_INPUTS && t.inputs[|t.inputs| - 1] !in ROLLOUT_INPUTS
    ensures var y, w := t.inputs[0], t.inputs[|t.inputs| - 1];
      && (NoRepeats(RlHead(t).inputs) <==> y != w)
      && (forall x :: x in RlHead(t).inputs <==> x == y || x == w || x in ROLLOUT_INPUTS)
  {
    var ins := RlHead(t).inputs;
    assert ins == [t.inputs[0], ROLLOUT_INPUTS[0], ROLLOUT_INPUTS[1], ROLLOUT_INPUTS[2], t.inputs[|t.inputs| - 1]];
    assert ROLLOUT_INPUTS[0][1] == 'c' && ROLLOUT_INPUTS[1][1] == 'l' && ROLLOUT_INPUTS[2][1] == 'd';
    if NoRepeats(ins) {
      assert ins[0] != ins[4];
    }
  }

  /** The replaced head on sets alone. */
  lemma MovedHead(known: set<string>, known': set<string>, t: Task)
    requires t.name.HeadLoss? && t.inputs != [] && TaskOk(known, t)
    requires OutputIds(t) !! known' && Rollouts() <= known' && Rollouts() !! known
    ensures TaskOk(known', RlHead(t)) <==>
      t.inputs[0] in known' && t.inputs[|t.inputs| - 1] in known' && HeadOk(t)
  {
    var y, w := t.inputs[0], t.inputs[|t.inputs| - 1];
    assert y in t.inputs && w in t.inputs;
    assert OutputIds(RlHead(t)) == OutputIds(t);
    HeadInputs(t);
  }

  lemma HeadPosition(base: Program, rows: int, rl: Program, k: nat)
    requires Valid(base) && Fresh(base) && IsRlOf(base, rows, rl) && k < |base.tasks| && BuildableAt(base.tasks, k)
    requires base.tasks[k].name.HeadLoss?
    ensures TasksOk(KnownInRl(base, rl, k), Emit(base.tasks, k)) <==> InTime(base.tasks, k) && HeadOk(base.tasks[k])
  {
    var t := base.tasks[k];
    SingleOk(KnownInRl(base, rl, k), RlHead(t));
    BaseTask(base, k);
    OutputsAreNew(base, rows, rl, k);
    RolloutsKnown(base, rows, rl, k);
    forall x | x in Known(base, k) ensures x !in Rollouts() {
      NotARollout(base, k, x);
    }
    MovedHead(Known(base, k), KnownInRl(base, rl, k), t);
    ReadsInTime(base, rows, rl, k);
  }

  /** A backward and its recompute on sets alone. */
  lemma MovedPair(known: set<string>, known': set<string>, rec: Task, t: Task, ctx: string)
    requires TaskOk(known, t) && OutputIds(t) !! known' && ctx !in OutputIds(t) && ctx !in known'
    requires rec.mutates == [] && |rec.outputs| == 1 && rec.outputs[0].id == ctx && rec.outputs[0].size >= 1
    requires NoRepeats(rec.inputs)
    ensures TasksOk(known', [rec, t]) <==> InputsOf(rec) <= known' && InputsOf(t) <= known' + {ctx}
  {
    assert rec.outputs[0].id == ctx;
    assert OutputIds(rec) == {ctx};
    PairOk(known', rec, t);
    MovedTask(known, known' + {ctx}, t);
    forall x ensures x in rec.inputs <==> x in InputsOf(rec) {}
  }

  lemma BwdReadsInTime(base: Program, rows: int, rl: Program, k: nat)
    requires Valid(base) && Fresh(base) && IsRlOf(base, rows, rl) && IsBwd(base.tasks, k) && BuildableAt(base.tasks, k)
    ensures var rec := Recompute(base.tasks[Fwd(base.tasks, k)]);
      && InputsOf(rec) <= KnownInRl(base, rl, k)
      && InputsOf(base.tasks[k]) <= KnownInRl(base, rl, k) + {Ctx(base.tasks, k)}
      <==> InTime(base.tasks, k)
  {
    var T, ctx := base.tasks, Ctx(base.tasks, k);
    RecomputeInputs(base, k);
    ContextIsNew(base, rows, rl, k);
    RebuiltSplit(base, k + 1, ctx);
    assert Rebuilt(T, k + 1, ctx);
    forall x | x in BlockReads(T, k)
      ensures x in KnownInRl(base, rl, k) + {ctx} <==> !RebuiltLater(T, k + 1, x)
      ensures x != ctx ==> (x in KnownInRl(base, rl, k) <==> !RebuiltLater(T, k + 1, x))
    {
      ReadsExist(base, rows, rl, k, x);
      LaterThanNext(T, k, x);
    }
    assert BlockReads(T, k) == InputsOf(Recompute(T[Fwd(T, k)])) + InputsOf(T[k]);
  }

  lemma BwdPosition(base: Program, rows: int, rl: Program, k: nat)
    requires Valid(base) && Fresh(base) && IsRlOf(base, rows, rl) && IsBwd(base.tasks, k) && BuildableAt(base.tasks, k)
    ensures TasksOk(KnownInRl(base, rl, k), Emit(base.tasks, k)) <==> InTime(base.tasks, k)
  {
    var T := base.tasks;
    BaseTask(base, k);
    RecomputeInputs(base, k);
    OutputsAreNew(base, rows, rl, k);
    ContextIsNew(base, rows, rl, k);
    MovedPair(Known(base, k), KnownInRl(base, rl, k), Recompute(T[Fwd(T, k)]), T[k], Ctx(T, k));
    BwdReadsInTime(base, rows, rl, k);
  }

  /** Block `k` of the result is valid exactly under these two conditions on the standard program. */
  lemma Position(base: Program, rows: int, rl: Program, k: nat)
    requires Valid(base) && Fresh(base) && IsRlOf(base, rows, rl) && k < |base.tasks| && BuildableAt(base.tasks, k)
    ensures TasksOk(KnownInRl(base, rl, k), Emit(base.tasks, k)) <==>
      InTime(base.tasks, k) && (base.tasks[k].name.HeadLoss? ==> HeadOk(base.tasks[k]))
  {
    if Dropped(base.tasks[k]) {
    } else if base.tasks[k].name.HeadLoss? {
      HeadPosition(base, rows, rl, k);
    } else if base.tasks[k].name.BlockBwd? {
      BwdPosition(base, rows, rl, k);
    } else {
      PlainPosition(base, rows, rl, k);
    }
  }

  // ---------------------------------------------------------------- task names

  ghost predicate NoCommonName(a: seq<Task>, b: seq<Task>) {
    forall i, j :: 0 <= i < |a| && 0 <= j < |b| ==> a[i].name != b[j].name
  }

  lemma NamesConcat(a: seq<Task>, b: seq<Task>)
    ensures NamesDistinct(a + b) <==> NamesDistinct(a) && NamesDistinct(b) && NoCommonName(a, b)
  {
    var c := a + b;
    if NamesDistinct(c) {
      forall i, j | 0 <= i < j < |a| ensures NamesDiffer(a, i, j) { assert NamesDiffer(c, i, j); }
      forall i, j | 0 <= i < j < |b| ensures NamesDiffer(b, i, j) { assert NamesDiffer(c, |a| + i, |a| + j); }
      forall i, j | 0 <= i < |a| && 0 <= j < |b| ensures a[i].name != b[j].name { assert NamesDiffer(c, i, |a| + j); }
    }
    if NamesDistinct(a) && NamesDistinct(b) && NoCommonName(a, b) {
      forall i, j | 0 <= i < j < |c| ensures NamesDiffer(c, i, j) {
        if j < |a| {
          assert NamesDiffer(a, i, j);
        } else if |a| <= i {
          assert NamesDiffer(b, i - |a|, j - |a|);
        } else {
          assert a[i].name != b[j - |a|].name;
        }
      }
    }
  }

  lemma {:induction false} FlatNames(blocks: seq<seq<Task>>, name: TaskName)
    ensures Names(Flat(blocks), name) <==> exists j :: 0 <= j < |blocks| && Names(blocks[j], name)
  {
    if blocks != [] {
      var rest, last := blocks[..|blocks| - 1], blocks[|blocks| - 1];
      FlatNames(rest, name);
      if k :| 0 <= k < |Flat(rest)| && Flat(rest)[k].name == name {
        assert Flat(blocks)[k].name == name;
      }
      if k :| 0 <= k < |last| && last[k].name == name {
        assert Flat(blocks)[|Flat(rest)| + k].name == name;
      }
      if j :| 0 <= j < |blocks| && Names(blocks[j], name) {
        assert j < |rest| ==> Names(rest[j], name);
      }
      if j :| 0 <= j < |rest| && Names(rest[j], name) {
        assert Names(blocks[j], name);
      }
    }
  }

  ghost predicate BlocksNamed(blocks: seq<seq<Task>>) {
    && (forall j {:trigger NamesDistinct(blocks[j])} :: 0 <= j < |blocks| ==> NamesDistinct(blocks[j]))
    && (forall i, j {:trigger NoCommonName(blocks[i], blocks[j])} ::
          0 <= i < j < |blocks| ==> NoCommonName(blocks[i], blocks[j]))
  }

  lemma FlatApart(blocks: seq<seq<Task>>, last: seq<Task>)
    ensures NoCommonName(Flat(blocks), last) <==> forall j :: 0 <= j < |blocks| ==> NoCommonName(blocks[j], last)
  {
    if NoCommonName(Flat(blocks), last) {
      forall j, m, n | 0 <= j < |blocks| && 0 <= m < |blocks[j]| && 0 <= n < |last|
        ensures blocks[j][m].name != last[n].name
      {
        assert Names(blocks[j], blocks[j][m].name);
        FlatNames(blocks, blocks[j][m].name);
      }
    }
    if forall j :: 0 <= j < |blocks| ==> NoCommonName(blocks[j], last) {
      forall m, n | 0 <= m < |Flat(blocks)| && 0 <= n < |last| ensures Flat(blocks)[m].name != last[n].name {
        FlatNames(blocks, Flat(blocks)[m].name);
      }
    }
  }

  lemma {:induction false} FlatDistinct(blocks: seq<seq<Task>>)
    ensures NamesDistinct(Flat(blocks)) <==> BlocksNamed(blocks)
  {
    if blocks != [] {
      var rest, last := blocks[..|blocks| - 1], blocks[|blocks| - 1];
      FlatDistinct(rest);
      NamesConcat(Flat(rest), last);
      FlatApart(rest, last);
      if BlocksNamed(blocks) {
        assert forall j :: 0 <= j < |rest| ==> rest[j] == blocks[j];
      }
    }
  }

  /** Two heads of one step would both become that step's `rl_head_loss`. */
  ghost predicate OneHeadPerStep(tasks: seq<Task>) {
    forall i, j {:trigger HeadsDiffer(tasks, i, j)} :: 0 <= i < j < |tasks| ==> HeadsDiffer(tasks, i, j)
  }

  ghost predicate HeadsDiffer(tasks: seq<Task>, i: nat, j: nat)
    requires i < |tasks| && j < |tasks|
  {
    tasks[i].name.HeadLoss? && tasks[j].name.HeadLoss? ==> tasks[i].name.s != tasks[j].name.s
  }

  lemma BlockNames(base: Program, i: nat, j: nat)
    requires NamesDistinct(base.tasks) && Fresh(base) && i < j < |base.tasks|
    requires BuildableAt(base.tasks, i) && BuildableAt(base.tasks, j)
    ensures NoCommonName(Emit(base.tasks, i), Emit(base.tasks, j)) <==> HeadsDiffer(base.tasks, i, j)
  {
    var T := base.tasks;
    DifferentNames(T, i, j);
    var a, b := Emit(T, i), Emit(T, j);
    if T[i].name.HeadLoss? && T[j].name.HeadLoss? {
      assert a[0].name == RlHeadLoss(T[i].name.s) && b[0].name == RlHeadLoss(T[j].name.s);
    } else {
      assert T[i].name.BlockBwd? ==> a[0].name == BlockRecompute(T[i].name.s, T[i].name.r, T[i].name.i);
      assert T[j].name.BlockBwd? ==> b[0].name == BlockRecompute(T[j].name.s, T[j].name.r, T[j].name.i);
    }
  }

  lemma BlocksNamedExactly(base: Program)
    requires NamesDistinct(base.tasks) && Fresh(base) && Buildable(base.tasks)
    ensures BlocksNamed(Blocks(base.tasks)) <==> OneHeadPerStep(base.tasks)
  {
    var T, blocks := base.tasks, Blocks(base.tasks);
    forall k | 0 <= k < |T| ensures NamesDistinct(blocks[k]) {
      assert BuildableAt(T, k);
      EmitNamedApart(T, k);
    }
    forall i, j | 0 <= i < j < |T| ensures NoCommonName(blocks[i], blocks[j]) <==> HeadsDiffer(T, i, j) {
      assert BuildableAt(T, i) && BuildableAt(T, j);
      BlockNames(base, i, j);
    }
    NamedExactly(T, blocks);
  }

  lemma NamedExactly(tasks: seq<Task>, blocks: seq<seq<Task>>)
    requires |blocks| == |tasks| && forall k :: 0 <= k < |blocks| ==> NamesDistinct(blocks[k])
    requires forall i, j {:trigger HeadsDiffer(tasks, i, j)} :: 0 <= i < j < |tasks| ==>
      (NoCommonName(blocks[i], blocks[j]) <==> HeadsDiffer(tasks, i, j))
    ensures BlocksNamed(blocks) <==> OneHeadPerStep(tasks)
  {
    if BlocksNamed(blocks) {
      forall i, j | 0 <= i < j < |tasks| ensures HeadsDiffer(tasks, i, j) {
        assert NoCommonName(blocks[i], blocks[j]);
      }
    }
    if OneHeadPerStep(tasks) {
      forall i, j | 0 <= i < j < |blocks| ensures NoCommonName(blocks[i], blocks[j]) {
        assert HeadsDiffer(tasks, i, j);
      }
    }
  }

  lemma EmitNamedApart(tasks: seq<Task>, k: nat)
    requires k < |tasks| && BuildableAt(tasks, k)
    ensures NamesDistinct(Emit(tasks, k))
  {
  }

  lemma ChainNames(base: Program)
    requires NamesDistinct(base.tasks) && Fresh(base) && Buildable(base.tasks)
    ensures NamesDistinct(Chain(base.tasks, |base.tasks|)) <==> OneHeadPerStep(base.tasks)
  {
    ChainIsAllBlocks(base.tasks);
    FlatDistinct(Blocks(base.tasks));
    BlocksNamedExactly(base);
  }

  /** Which names of the standard program the result still carries, or gains. */
  ghost predicate Survives(tasks: seq<Task>, name: TaskName) {
    match name
    case EmbedFwd(_, _) => false
    case BlockFwd(_, _, _) => false
    case HeadLoss(_, _) => false
    case BlockRecompute(s, r, i) => Names(tasks, BlockBwd(s, r, i))
    case RlHeadLoss(s) => exists k :: 0 <= k < |tasks| && tasks[k].name.HeadLoss? && tasks[k].name.s == s
    case _ => Names(tasks, name)
  }

  predicate Carries(t: Task, name: TaskName) {
    match t.name
    case EmbedFwd(_, _) => false
    case BlockFwd(_, _, _) => false
    case HeadLoss(s, _) => name == RlHeadLoss(s)
    case BlockBwd(s, r, i) => name == BlockRecompute(s, r, i) || name == t.name
    case _ => name == t.name
  }

  lemma EmitNames(base: Program, k: nat, name: TaskName)
    requires Fresh(base) && k < |base.tasks| && BuildableAt(base.tasks, k)
    ensures Names(Emit(base.tasks, k), name) <==> Carries(base.tasks[k], name)
  {
    var T, e := base.tasks, Emit(base.tasks, k);
    if T[k].name.HeadLoss? {
      assert e[0].name == RlHeadLoss(T[k].name.s);
    } else if T[k].name.BlockBwd? {
      assert e[0].name == BlockRecompute(T[k].name.s, T[k].name.r, T[k].name.i) && e[1].name == T[k].name;
    } else if !Dropped(T[k]) {
      assert e[0].name == T[k].name;
    }
  }

  ghost predicate Carried(tasks: seq<Task>, name: TaskName) {
    exists k :: 0 <= k < |tasks| && Carries(tasks[k], name)
  }

  lemma CarriedSurvives(base: Program, name: TaskName)
    requires Fresh(base)
    ensures Carried(base.tasks, name) <==> Survives(base.tasks, name)
  {
    var T := base.tasks;
    if Carried(T, name) {
      var k :| 0 <= k < |T| && Carries(T[k], name);
      assert T[k].name.BlockBwd? ==> Names(T, T[k].name);
    }
    if Survives(T, name) {
      if name.BlockRecompute? {
        var k :| 0 <= k < |T| && T[k].name == BlockBwd(name.s, name.r, name.i);
        assert Carries(T[k], name);
      } else if name.RlHeadLoss? {
        var k :| 0 <= k < |T| && T[k].name.HeadLoss? && T[k].name.s == name.s;
        assert Carries(T[k], name);
      } else {
        var k :| 0 <= k < |T| && T[k].name == name;
        assert Carries(T[k], name);
      }
    }
  }

  lemma ChainHasName(base: Program, name: TaskName)
    requires Fresh(base) && Buildable(base.tasks)
    ensures Names(Chain(base.tasks, |base.tasks|), name) <==> Survives(base.tasks, name)
  {
    var T, blocks := base.tasks, Blocks(base.tasks);
    ChainIsAllBlocks(T);
    FlatNames(blocks, name);
    forall k | 0 <= k < |T| ensures Names(blocks[k], name) <==> Carries(T[k], name) {
      assert BuildableAt(T, k);
      EmitNames(base, k, name);
    }
    CarriedSurvives(base, name);
  }

  // ---------------------------------------------------------------- initial objects and final locations

  lemma {:induction false} KeptInitialOk(initial: seq<Initial>, referenced: set<string>)
    requires InitialOk(initial)
    ensures InitialOk(KeptInitial(initial, referenced))
  {
    if initial != [] {
      var rest, last := initial[..|initial| - 1], initial[|initial| - 1];
      KeptInitialOk(rest, referenced);
      var kept := KeptInitial(rest, referenced);
      forall i | 0 <= i < |kept| && kept[i].id == last.id
        ensures kept[i].location != last.location && kept[i].size == last.size
      {
        KeptInitialMember(rest, referenced, kept[i]);
        var m :| 0 <= m < |rest| && rest[m] == kept[i];
        assert initial[m] == kept[i] && initial[|initial| - 1] == last;
      }
    }
  }

  lemma InitialOkConcat(a: seq<Initial>, b: seq<Initial>)
    requires InitialOk(a) && InitialOk(b) && InitialIds(a) !! InitialIds(b)
    ensures InitialOk(a + b)
  {
    forall i, j | 0 <= i < |a| && 0 <= j < |b| ensures a[i].id != b[j].id {
      assert a[i].id in InitialIds(a) && b[j].id in InitialIds(b);
    }
  }

  lemma {:induction false} AddedSizes(spec: map<string, Output>, outputs: seq<Output>)
    requires forall x :: x in spec ==> spec[x].size >= 1
    requires forall k :: 0 <= k < |outputs| ==> outputs[k].size >= 1
    ensures forall x :: x in AddOutputs(spec, outputs) ==> AddOutputs(spec, outputs)[x].size >= 1
  {
    if outputs != [] {
      AddedSizes(spec, outputs[..|outputs| - 1]);
    }
  }

  lemma {:induction false} SpecSizes(base: Program, k: nat)
    requires Valid(base) && k <= |base.tasks|
    ensures forall x :: x in OutSpec(base.tasks[..k]) ==> OutSpec(base.tasks[..k])[x].size >= 1
  {
    if k > 0 {
      SpecSizes(base, k - 1);
      BaseTask(base, k - 1);
      assert base.tasks[..k][..k - 1] == base.tasks[..k - 1];
      AddedSizes(OutSpec(base.tasks[..k - 1]), base.tasks[k - 1].outputs);
    }
  }

  lemma RlInitialOk(base: Program, rows: int, rl: Program)
    requires Valid(base) && Fresh(base) && IsRlOf(base, rows, rl) && rows >= 1
    ensures InitialOk(rl.initial)
  {
    var ref := Referenced(rl.tasks);
    var kept := KeptInitial(base.initial, ref);
    var promoted :| IsPromotion(base, rl.tasks, promoted) && rl.initial == kept + promoted + RolloutObjects(rows);
    KeptInitialOk(base.initial, ref);
    KeptInitialIds(base.initial, ref);
    SpecSizes(base, |base.tasks|);
    assert base.tasks[..|base.tasks|] == base.tasks;
    InitialOkConcat(kept, promoted);
    InitialIdsConcat(kept, promoted);
    RolloutIds(rows);
    RolloutsOk(rows);
    InitialOkConcat(kept + promoted, RolloutObjects(rows));
  }

  lemma RolloutsOk(rows: int)
    requires rows >= 1
    ensures InitialOk(RolloutObjects(rows))
  {
    assert ROLLOUT_INPUTS[0][1] == 'c' && ROLLOUT_INPUTS[1][1] == 'l' && ROLLOUT_INPUTS[2][1] == 'd';
  }

  /** The block of position `k` reads `x`, or its kept task mutates it. */
  ghost predicate Uses(tasks: seq<Task>, k: nat, x: string)
    requires k < |tasks|
  {
    BuildableAt(tasks, k) && (x in BlockReads(tasks, k) || (!Dropped(tasks[k]) && x in tasks[k].mutates))
  }

  lemma EmitReferences(tasks: seq<Task>, k: nat, x: string)
    requires k < |tasks| && BuildableAt(tasks, k) && x !in Rollouts()
    ensures x in Referenced(Emit(tasks, k)) <==> Uses(tasks, k, x)
  {
    var e := Emit(tasks, k);
    ReferencedMember(e, x);
    if x in Referenced(e) {
      var m :| 0 <= m < |e| && x in Reads(e[m]);
      if tasks[k].name.HeadLoss? {
        HeadReads(tasks[k], x);
      }
    }
    if x in BlockReads(tasks, k) {
      BlockReadsEmitted(tasks, k, x);
    } else if Uses(tasks, k, x) {
      assert x in Reads(e[|e| - 1]);
    }
  }

  lemma HeadReads(t: Task, x: string)
    requires t.name.HeadLoss? && t.inputs != [] && x in Reads(RlHead(t)) && x !in Rollouts()
    ensures x == t.inputs[0] || x == t.inputs[|t.inputs| - 1] || x in t.mutates
  {
    assert RlHead(t).inputs == [t.inputs[0]] + ROLLOUT_INPUTS + [t.inputs[|t.inputs| - 1]];
  }

  /** A final object that the surgery does not lose: a kept task still produces it, a recompute rebuilds
      it, or some block still uses it. */
  ghost predicate FinalKept(tasks: seq<Task>, x: string)
    requires Buildable(tasks)
  {
    KeptProduces(tasks, |tasks|, x) || Rebuilt(tasks, |tasks|, x) || exists k :: 0 <= k < |tasks| && Uses(tasks, k, x)
  }

  /** Every object with a terminal placement is kept. */
  ghost predicate FinalsKept(base: Program)
    requires Buildable(base.tasks)
  {
    forall x :: x in base.finals ==> FinalKept(base.tasks, x)
  }

  lemma ChainReferences(tasks: seq<Task>, x: string)
    requires Buildable(tasks) && x !in Rollouts()
    ensures x in Referenced(Chain(tasks, |tasks|)) <==> exists k :: 0 <= k < |tasks| && Uses(tasks, k, x)
  {
    var blocks := Blocks(tasks);
    ChainIsAllBlocks(tasks);
    FlatReferences(blocks, x);
    if x in Referenced(Chain(tasks, |tasks|)) {
      var k :| 0 <= k < |blocks| && x in Referenced(blocks[k]);
      assert BuildableAt(tasks, k);
      EmitReferences(tasks, k, x);
    }
    if k :| 0 <= k < |tasks| && Uses(tasks, k, x) {
      EmitReferences(tasks, k, x);
      assert x in Referenced(blocks[k]);
    }
  }

  lemma FinalKeptExactly(base: Program, rows: int, rl: Program, x: string)
    requires Valid(base) && Fresh(base) && IsRlOf(base, rows, rl) && x in base.finals
    ensures x in InitialIds(rl.initial) + Produced(rl.tasks) <==> FinalKept(base.tasks, x)
  {
    RlInitialIds(base, rows, rl);
    assert base.tasks[..|base.tasks|] == base.tasks;
    NotARollout(base, |base.tasks|, x);
    ChainProduces(base.tasks, |base.tasks|, x);
    ChainReferences(base.tasks, x);
  }

  lemma RlFinals(base: Program, rows: int, rl: Program)
    requires Valid(base) && Fresh(base) && IsRlOf(base, rows, rl)
    ensures rl.finals <= InitialIds(rl.initial) + Produced(rl.tasks) <==> FinalsKept(base)
  {
    forall x | x in base.finals
      ensures x in InitialIds(rl.initial) + Produced(rl.tasks) <==> FinalKept(base.tasks, x)
    {
      FinalKeptExactly(base, rows, rl, x);
    }
  }

  // ---------------------------------------------------------------- the exact condition

  ghost predicate PositionOk(tasks: seq<Task>, k: nat)
    requires Buildable(tasks) && k < |tasks|
  {
    BuildableAt(tasks, k) && InTime(tasks, k) && (tasks[k].name.HeadLoss? ==> HeadOk(tasks[k]))
  }

  ghost predicate InTimeEverywhere(tasks: seq<Task>)
    requires Buildable(tasks)
  {
    forall k {:trigger PositionOk(tasks, k)} :: 0 <= k < |tasks| ==> PositionOk(tasks, k)
  }

  /** What the standard program must satisfy for the surgery to give a valid one: one head per step
      with two separate inputs, no context read before its backward, and every terminal placement
      and recompute choice still meaningful. */
  ghost predicate Rewritable(base: Program)
    requires Buildable(base.tasks)
  {
    && OneHeadPerStep(base.tasks)
    && InTimeEverywhere(base.tasks)
    && FinalsKept(base)
    && (forall k :: 0 <= k < |base.rewrites| ==>
          Survives(base.tasks, base.rewrites[k].forward) || Survives(base.tasks, base.rewrites[k].recompute))
  }

  lemma BlockOkExactly(base: Program, rows: int, rl: Program, k: nat)
    requires Valid(base) && Fresh(base) && IsRlOf(base, rows, rl) && k < |base.tasks|
    ensures BlockOk(InitialIds(rl.initial), Blocks(base.tasks), k) <==> PositionOk(base.tasks, k)
  {
    assert BuildableAt(base.tasks, k);
    ChainIsFlat(base.tasks, k);
    Position(base, rows, rl, k);
  }

  lemma RlTasksOk(base: Program, rows: int, rl: Program)
    requires Valid(base) && Fresh(base) && IsRlOf(base, rows, rl)
    ensures TasksOk(InitialIds(rl.initial), rl.tasks) <==> InTimeEverywhere(base.tasks)
  {
    var T, blocks, known := base.tasks, Blocks(base.tasks), InitialIds(rl.initial);
    ChainIsAllBlocks(T);
    FlatOk(known, blocks);
    forall k | 0 <= k < |T| ensures BlockOk(known, blocks, k) <==> PositionOk(T, k) {
      BlockOkExactly(base, rows, rl, k);
    }
  }

  /** The surgery on a valid standard program yields a valid program exactly when it is rewritable. */
  lemma RlValidExactlyWhenRewritable(base: Program, rows: int, rl: Program)
    requires Valid(base) && Fresh(base) && rows >= 1 && IsRlOf(base, rows, rl)
    ensures Valid(rl) <==> Rewritable(base)
  {
    RlInitialOk(base, rows, rl);
    ChainNames(base);
    RlTasksOk(base, rows, rl);
    RlFinals(base, rows, rl);
    forall k | 0 <= k < |base.rewrites|
      ensures RewriteOk(rl.tasks, rl.rewrites[k]) <==>
        Survives(base.tasks, base.rewrites[k].forward) || Survives(base.tasks, base.rewrites[k].recompute)
    {
      ChainHasName(base, base.rewrites[k].forward);
      ChainHasName(base, base.rewrites[k].recompute);
    }
  }

  /** Two heads in one step, as with two accumulation rounds, never survive the surgery. */
  lemma TwoHeadsClash(base: Program, rows: int, rl: Program, i: nat, j: nat)
    requires Valid(base) && Fresh(base) && rows >= 1 && IsRlOf(base, rows, rl) && i < j < |base.tasks|
    requires base.tasks[i].name.HeadLoss? && base.tasks[j].name.HeadLoss?
    requires base.tasks[i].name.s == base.tasks[j].name.s
    ensures !Valid(rl)
  {
    assert !HeadsDiffer(base.tasks, i, j);
    RlValidExactlyWhenRewritable(base, rows, rl);
  }

  /** Every object the surgery promotes has a producer to describe it: on a valid standard program
      the builder fails only where a backward has no forward with a context, or a head no inputs. */
  lemma PromotionIsDefined(base: Program)
    requires Valid(base) && Buildable(base.tasks)
    ensures PromotedIds(base, Chain(base.tasks, |base.tasks|)) <= Produced(base.tasks)
  {
    var T, blocks := base.tasks, Blocks(base.tasks);
    ChainIsAllBlocks(T);
    forall x | x in PromotedIds(base, Chain(T, |T|)) ensures x in Produced(T) {
      FlatReferences(blocks, x);
      var k :| 0 <= k < |blocks| && x in Referenced(blocks[k]);
      assert BuildableAt(T, k);
      EmittedReads(base, k, x);
      KnownGrows(base, k, |T|);
      assert T[..|T|] == T;
    }
  }

  lemma EmittedReads(base: Program, k: nat, x: string)
    requires Valid(base) && k < |base.tasks| && BuildableAt(base.tasks, k)
    requires x in Referenced(Emit(base.tasks, k)) && x !in Rollouts()
    ensures x in Known(base, k)
  {
    var e := Emit(base.tasks, k);
    ReferencedMember(e, x);
    var m :| 0 <= m < |e| && x in Reads(e[m]);
    BaseTask(base, k);
    if IsBwd(base.tasks, k) {
      RecomputeInputs(base, k);
    }
  }

  // ---------------------------------------------------------------- the shape of the result

  lemma {:induction false} ChainPrefix(tasks: seq<Task>, k: nat, n: nat)
    requires k <= n <= |tasks| && Buildable(tasks)
    ensures Chain(tasks, k) <= Chain(tasks, n)
    decreases n - k
  {
    if k < n {
      assert BuildableAt(tasks, n - 1);
      ChainPrefix(tasks, k, n - 1);
    }
  }

  /** What becomes of a kept task: the head is replaced, everything else stays as it is. */
  function KeptForm(t: Task): Task
    requires t.name.HeadLoss? ==> t.inputs != []
  {
    if t.name.HeadLoss? then RlHead(t) else t
  }

  /** Where a kept task stands in the result. */
  function PlaceOf(tasks: seq<Task>, k: nat): int
    requires k < |tasks| && Buildable(tasks)
  {
    |Chain(tasks, k + 1)| - 1
  }

  lemma KeptAtPlace(tasks: seq<Task>, k: nat)
    requires k < |tasks| && Buildable(tasks) && !Dropped(tasks[k]) && BuildableAt(tasks, k)
    ensures |Chain(tasks, k)| <= PlaceOf(tasks, k) < |Chain(tasks, |tasks|)|
    ensures Chain(tasks, |tasks|)[PlaceOf(tasks, k)] == KeptForm(tasks[k])
  {
    ChainPrefix(tasks, k + 1, |tasks|);
    EmitEndsWithKept(tasks, k);
    ChainAdds(tasks, k);
    LastOfPrefix(Chain(tasks, k), Emit(tasks, k), Chain(tasks, |tasks|));
  }

  lemma EmitEndsWithKept(tasks: seq<Task>, k: nat)
    requires k < |tasks| && !Dropped(tasks[k]) && BuildableAt(tasks, k)
    ensures Emit(tasks, k) != [] && Emit(tasks, k)[|Emit(tasks, k)| - 1] == KeptForm(tasks[k])
  {
  }

  lemma LastOfPrefix(a: seq<Task>, b: seq<Task>, all: seq<Task>)
    requires b != [] && a + b <= all
    ensures all[|a + b| - 1] == b[|b| - 1]
  {
    assert (a + b)[|a + b| - 1] == b[|b| - 1];
  }

  /** Kept tasks keep their order. */
  lemma KeptInOrder(tasks: seq<Task>, i: nat, j: nat)
    requires Buildable(tasks) && i < j < |tasks| && !Dropped(tasks[i]) && !Dropped(tasks[j])
    requires BuildableAt(tasks, i) && BuildableAt(tasks, j)
    ensures PlaceOf(tasks, i) < PlaceOf(tasks, j)
  {
    EmitEndsWithKept(tasks, j);
    ChainGrows(tasks, i + 1, j);
    ChainAdds(tasks, j);
  }

  lemma ChainAdds(tasks: seq<Task>, k: nat)
    requires k < |tasks| && Buildable(tasks) && BuildableAt(tasks, k)
    ensures Chain(tasks, k + 1) == Chain(tasks, k) + Emit(tasks, k)
  {
  }

  lemma ChainGrows(tasks: seq<Task>, k: nat, n: nat)
    requires k <= n <= |tasks| && Buildable(tasks)
    ensures |Chain(tasks, k)| <= |Chain(tasks, n)|
  {
    ChainPrefix(tasks, k, n);
  }

  lemma PairInPlace(before: seq<Task>, pair: seq<Task>, all: seq<Task>)
    requires |pair| == 2 && before + pair <= all
    ensures all[|before + pair| - 2] == pair[0] && all[|before + pair| - 1] == pair[1]
  {
    assert (before + pair)[|before|] == pair[0] && (before + pair)[|before| + 1] == pair[1];
  }

  /** Each backward directly follows its own recompute. */
  lemma BackwardFollowsRecompute(tasks: seq<Task>, k: nat)
    requires Buildable(tasks) && IsBwd(tasks, k) && BuildableAt(tasks, k)
    ensures 0 < PlaceOf(tasks, k) < |Chain(tasks, |tasks|)|
    ensures Chain(tasks, |tasks|)[PlaceOf(tasks, k)] == tasks[k]
    ensures Chain(tasks, |tasks|)[PlaceOf(tasks, k) - 1] == Recompute(tasks[Fwd(tasks, k)])
  {
    ChainPrefix(tasks, k + 1, |tasks|);
    var before, pair := Chain(tasks, k), [Recompute(tasks[Fwd(tasks, k)]), tasks[k]];
    assert Chain(tasks, k + 1) == before + pair;
    PairInPlace(before, pair, Chain(tasks, |tasks|));
  }

  /** What stands in place of a head: the RL loss on the last block's output, the three rollout inputs and
      the head's own weight, with the head's outputs, mutations and parameters. */
  lemma ReplacedHead(tasks: seq<Task>, k: nat, s: int, r: int)
    requires Buildable(tasks) && k < |tasks| && tasks[k].name == HeadLoss(s, r) && BuildableAt(tasks, k)
    ensures 0 <= PlaceOf(tasks, k) < |Chain(tasks, |tasks|)|
    ensures Chain(tasks, |tasks|)[PlaceOf(tasks, k)] == Task(
      RlHeadLoss(s), [tasks[k].inputs[0], "actions_0_0", "old_logprobs_0_0", "advantages_0_0",
                      tasks[k].inputs[|tasks[k].inputs| - 1]],
      tasks[k].outputs, tasks[k].mutates, "rl_head_loss", tasks[k].params)
  {
    KeptAtPlace(tasks, k);
    var y, w := tasks[k].inputs[0], tasks[k].inputs[|tasks[k].inputs| - 1];
    assert [y] + ROLLOUT_INPUTS + [w] == [y, "actions_0_0", "old_logprobs_0_0", "advantages_0_0", w];
  }
}
