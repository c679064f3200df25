/** The RL program surgery of examples/rl_training/builder.py: forwards are dropped, a recompute is
    inserted before each block backward, the head is replaced, and what is then referenced but no
    longer produced becomes an initial object. */
module RlProgram {
  import opened Wrappers
  import opened Sorting
  import opened RlKeys

  /** Task ids of the standard lowering, read off their text form `{kind}_{step}_{round}_{layer}`. */
  datatype TaskName =
    | EmbedFwd(s: int, r: int)
    | BlockFwd(s: int, r: int, i: int)
    | HeadLoss(s: int, r: int)
    | BlockBwd(s: int, r: int, i: int)
    | BlockRecompute(s: int, r: int, i: int)
    | RlHeadLoss(s: int)
    | Other(text: string)

  datatype Output = Output(id: string, size: int)

  datatype Task = Task(
    name: TaskName, inputs: seq<string>, outputs: seq<Output>, mutates: seq<string>, key: string, params: string)

  datatype Location = Fast | Backing

  datatype Initial = Initial(id: string, size: int, location: Location)

  /** A save-or-recompute choice names the forward and the recompute that could produce its object. */
  datatype Rewrite = Rewrite(forward: TaskName, recompute: TaskName)

  datatype Program = Program(initial: seq<Initial>, tasks: seq<Task>, finals: set<string>, rewrites: seq<Rewrite>)

  const ROLLOUT_INPUTS: seq<string> := ["actions_0_0", "old_logprobs_0_0", "advantages_0_0"]

  // ---------------------------------------------------------------- structural validity

  function OutputIds(t: Task): set<string> {
    set k | 0 <= k < |t.outputs| :: t.outputs[k].id
  }

  function Produced(tasks: seq<Task>): set<string> {
    if tasks == [] then {} else Produced(tasks[..|tasks| - 1]) + OutputIds(tasks[|tasks| - 1])
  }

  function InitialIds(initial: seq<Initial>): set<string> {
    set k | 0 <= k < |initial| :: initial[k].id
  }

  /** A task of `validate_program`, given the objects that exist when it runs. */
  ghost predicate TaskOk(known: set<string>, t: Task) {
    && NoRepeats(t.inputs)
    && (forall x :: x in t.inputs ==> x in known)
    && (forall x :: x in t.mutates ==> x in t.inputs)
    && (forall i, j :: 0 <= i < j < |t.outputs| ==> t.outputs[i].id != t.outputs[j].id)
    && OutputIds(t) !! known
    && (forall k :: 0 <= k < |t.outputs| ==> t.outputs[k].size >= 1)
  }

  ghost predicate TaskOkAt(known: set<string>, tasks: seq<Task>, k: nat)
    requires k < |tasks|
  {
    TaskOk(known + Produced(tasks[..k]), tasks[k])
  }

  ghost predicate TasksOk(known: set<string>, tasks: seq<Task>) {
    forall k {:trigger TaskOkAt(known, tasks, k)} :: 0 <= k < |tasks| ==> TaskOkAt(known, tasks, k)
  }

  /** An id may appear once per location, with one size. */
  ghost predicate InitialOk(initial: seq<Initial>) {
    && (forall k :: 0 <= k < |initial| ==> initial[k].size >= 1)
    && (forall i, j :: 0 <= i < j < |initial| && initial[i].id == initial[j].id ==>
          initial[i].location != initial[j].location && initial[i].size == initial[j].size)
  }

  ghost predicate NamesDiffer(tasks: seq<Task>, i: nat, j: nat)
    requires i < |tasks| && j < |tasks|
  {
    tasks[i].name != tasks[j].name
  }

  ghost predicate NamesDistinct(tasks: seq<Task>) {
    forall i, j {:trigger NamesDiffer(tasks, i, j)} :: 0 <= i < j < |tasks| ==> NamesDiffer(tasks, i, j)
  }

  ghost predicate Names(tasks: seq<Task>, name: TaskName) {
    exists k :: 0 <= k < |tasks| && tasks[k].name == name
  }

  ghost predicate RewriteOk(tasks: seq<Task>, rewrite: Rewrite) {
    Names(tasks, rewrite.forward) || Names(tasks, rewrite.recompute)
  }

  ghost predicate RewritesOk(tasks: seq<Task>, rewrites: seq<Rewrite>) {
    forall k {:trigger RewriteOk(tasks, rewrites[k])} :: 0 <= k < |rewrites| ==> RewriteOk(tasks, rewrites[k])
  }

  /** What `validate_program` demands of a bare program, as far as the surgery can affect it. */
  ghost predicate Valid(p: Program) {
    && InitialOk(p.initial)
    && NamesDistinct(p.tasks)
    && TasksOk(InitialIds(p.initial), p.tasks)
    && p.finals <= InitialIds(p.initial) + Produced(p.tasks)
    && RewritesOk(p.tasks, p.rewrites)
  }

  // ---------------------------------------------------------------- the rewritten chain

  predicate Dropped(t: Task) {
    t.name.EmbedFwd? || t.name.BlockFwd?
  }

  /** `dropped_fwd[name]` when the walk reaches position `k`: the last task of that name before it. */
  function LastNamed(tasks: seq<Task>, k: nat, name: TaskName): (f: int)
    requires k <= |tasks|
    ensures f < k && (f >= 0 ==> tasks[f].name == name)
  {
    if k == 0 then -1 else if tasks[k - 1].name == name then k - 1 else LastNamed(tasks, k - 1, name)
  }

  function FwdName(name: TaskName): TaskName
    requires name.BlockBwd?
  {
    BlockFwd(name.s, name.r, name.i)
  }

  function Fwd(tasks: seq<Task>, k: nat): int
    requires k < |tasks| && tasks[k].name.BlockBwd?
  {
    LastNamed(tasks, k, FwdName(tasks[k].name))
  }

  /** The first output whose id starts with `A_`: the saved context. */
  function Context(outputs: seq<Output>): (c: int)
    ensures c < |outputs| && (c >= 0 ==> "A_" <= outputs[c].id)
  {
    if outputs == [] then -1
    else if "A_" <= outputs[0].id then 0
    else
      var rest := Context(outputs[1..]);
      if rest < 0 then -1 else rest + 1
  }

  function AuxTemps(outputs: seq<Output>): seq<string> {
    if outputs == [] then []
    else (if "AuxTemp_" <= outputs[0].id then [outputs[0].id] else []) + AuxTemps(outputs[1..])
  }

  predicate CanRecompute(f: Task) {
    f.name.BlockFwd? && Context(f.outputs) >= 0
  }

  function Recompute(f: Task): Task
    requires CanRecompute(f)
  {
    Task(BlockRecompute(f.name.s, f.name.r, f.name.i), f.inputs + AuxTemps(f.outputs),
         [f.outputs[Context(f.outputs)]], [], RecomputeKey(f.key), f.params)
  }

  function RlHead(t: Task): Task
    requires t.name.HeadLoss? && t.inputs != []
  {
    t.(name := RlHeadLoss(t.name.s), key := "rl_head_loss",
       inputs := [t.inputs[0]] + ROLLOUT_INPUTS + [t.inputs[|t.inputs| - 1]])
  }

  /** The walk does not raise at this position. */
  predicate BuildableAt(tasks: seq<Task>, k: nat)
    requires k < |tasks|
  {
    match tasks[k].name
    case HeadLoss(_, _) => tasks[k].inputs != []
    case BlockBwd(_, _, _) => Fwd(tasks, k) >= 0 && CanRecompute(tasks[Fwd(tasks, k)])
    case _ => true
  }

  ghost predicate Buildable(tasks: seq<Task>) {
    forall k {:trigger BuildableAt(tasks, k)} :: 0 <= k < |tasks| ==> BuildableAt(tasks, k)
  }

  /** What the walk appends at position `k`. */
  function Emit(tasks: seq<Task>, k: nat): seq<Task>
    requires k < |tasks| && BuildableAt(tasks, k)
  {
    match tasks[k].name
    case EmbedFwd(_, _) => []
    case BlockFwd(_, _, _) => []
    case HeadLoss(_, _) => [RlHead(tasks[k])]
    case BlockBwd(_, _, _) => [Recompute(tasks[Fwd(tasks, k)]), tasks[k]]
    case _ => [tasks[k]]
  }

  function Chain(tasks: seq<Task>, k: nat): seq<Task>
    requires k <= |tasks| && forall j :: 0 <= j < k ==> BuildableAt(tasks, j)
  {
    if k == 0 then [] else Chain(tasks, k - 1) + Emit(tasks, k - 1)
  }

  function Reads(t: Task): set<string> {
    (set x | x in t.inputs) + (set x | x in t.mutates)
  }

  function Referenced(tasks: seq<Task>): set<string> {
    if tasks == [] then {} else Referenced(tasks[..|tasks| - 1]) + Reads(tasks[|tasks| - 1])
  }

  function Rollouts(): set<string> {
    set x | x in ROLLOUT_INPUTS
  }

  // ---------------------------------------------------------------- the builder

  datatype BuildError =
    | MissingForward(bwd: TaskName)
    | NoContext(fwd: TaskName)
    | HeadWithoutInputs(head: TaskName)
    | NoSuchObject(id: string)

  ghost predicate IsDroppedTable(tasks: seq<Task>, k: nat, dropped: map<TaskName, Task>)
    requires k <= |tasks|
  {
    forall name: TaskName :: (name.EmbedFwd? || name.BlockFwd?) ==>
      (name in dropped <==> LastNamed(tasks, k, name) >= 0) &&
      (name in dropped ==> LastNamed(tasks, k, name) >= 0 && dropped[name] == tasks[LastNamed(tasks, k, name)])
  }

  lemma DroppedTableGrows(tasks: seq<Task>, k: nat, dropped: map<TaskName, Task>)
    requires k < |tasks| && IsDroppedTable(tasks, k, dropped)
    ensures IsDroppedTable(tasks, k + 1, if Dropped(tasks[k]) then dropped[tasks[k].name := tasks[k]] else dropped)
  {
  }

  /** One turn of the walk. */
  method RewriteTask(tasks: seq<Task>, k: nat, dropped: map<TaskName, Task>) returns (r: Result<seq<Task>, BuildError>)
    requires k < |tasks| && IsDroppedTable(tasks, k, dropped)
    ensures r.Ok? <==> BuildableAt(tasks, k)
    ensures r.Ok? ==> r.value == Emit(tasks, k)
  {
    var t := tasks[k];
    if Dropped(t) {
      return Ok([]);
    }
    if t.name.HeadLoss? {
      return if t.inputs == [] then Err(HeadWithoutInputs(t.name)) else Ok([RlHead(t)]);
    }
    if t.name.BlockBwd? {
      var name := FwdName(t.name);
      if name !in dropped {
        return Err(MissingForward(t.name));
      }
      assert dropped[name] == tasks[Fwd(tasks, k)];
      if Context(dropped[name].outputs) < 0 {
        return Err(NoContext(name));
      }
      return Ok([Recompute(dropped[name]), t]);
    }
    r := Ok([t]);
  }

  /** The walk over the standard chain. */
  method RewriteChain(tasks: seq<Task>) returns (r: Result<seq<Task>, BuildError>)
    ensures r.Ok? <==> Buildable(tasks)
    ensures r.Ok? ==> r.value == Chain(tasks, |tasks|)
  {
    var chain: seq<Task> := [];
    var dropped: map<TaskName, Task> := map[];
    for k := 0 to |tasks|
      invariant forall j :: 0 <= j < k ==> BuildableAt(tasks, j)
      invariant chain == Chain(tasks, k)
      invariant IsDroppedTable(tasks, k, dropped)
    {
      var step := RewriteTask(tasks, k, dropped);
      if step.Err? {
        return step;
      }
      DroppedTableGrows(tasks, k, dropped);
      if Dropped(tasks[k]) {
        dropped := dropped[tasks[k].name := tasks[k]];
      }
      chain := chain + step.value;
    }
    r := Ok(chain);
  }

  function AddOutputs(spec: map<string, Output>, outputs: seq<Output>): map<string, Output> {
    if outputs == [] then spec
    else AddOutputs(spec, outputs[..|outputs| - 1])[outputs[|outputs| - 1].id := outputs[|outputs| - 1]]
  }

  /** `out_spec`: the description of every object some task produces. */
  function OutSpec(tasks: seq<Task>): map<string, Output> {
    if tasks == [] then map[] else AddOutputs(OutSpec(tasks[..|tasks| - 1]), tasks[|tasks| - 1].outputs)
  }

  lemma {:induction false} AddOutputsKeys(spec: map<string, Output>, outputs: seq<Output>)
    ensures AddOutputs(spec, outputs).Keys == spec.Keys + set k | 0 <= k < |outputs| :: outputs[k].id
    ensures forall x :: x in AddOutputs(spec, outputs) && x !in spec ==> AddOutputs(spec, outputs)[x] in outputs
    ensures forall x :: x in AddOutputs(spec, outputs) && AddOutputs(spec, outputs)[x] !in outputs ==>
      x in spec && AddOutputs(spec, outputs)[x] == spec[x]
  {
    if outputs != [] {
      AddOutputsKeys(spec, outputs[..|outputs| - 1]);
      assert outputs == outputs[..|outputs| - 1] + [outputs[|outputs| - 1]];
    }
  }

  lemma {:induction false} OutSpecKeys(tasks: seq<Task>)
    ensures OutSpec(tasks).Keys == Produced(tasks)
  {
    if tasks != [] {
      OutSpecKeys(tasks[..|tasks| - 1]);
      AddOutputsKeys(OutSpec(tasks[..|tasks| - 1]), tasks[|tasks| - 1].outputs);
    }
  }

  /** The objects an inference engine must supply: referenced, no longer produced, not yet initial. */
  function PromotedIds(base: Program, chain: seq<Task>): set<string> {
    Referenced(chain) - Produced(chain) - InitialIds(base.initial) - Rollouts()
  }

  function KeptInitial(initial: seq<Initial>, referenced: set<string>): seq<Initial> {
    if initial == [] then []
    else
      var last := initial[|initial| - 1];
      KeptInitial(initial[..|initial| - 1], referenced) + if last.id in referenced then [last] else []
  }

  function RolloutObjects(rows: int): seq<Initial> {
    seq(|ROLLOUT_INPUTS|, k requires 0 <= k < |ROLLOUT_INPUTS| => Initial(ROLLOUT_INPUTS[k], 4 * rows, Backing))
  }

  /** One backing-resident object per promoted id, described as its producer described it. */
  ghost predicate IsPromotion(base: Program, chain: seq<Task>, promoted: seq<Initial>) {
    Describes(OutSpec(base.tasks), PromotedIds(base, chain), promoted)
  }

  ghost predicate IsRlOf(base: Program, rows: int, rl: Program) {
    && Buildable(base.tasks) && rl.tasks == Chain(base.tasks, |base.tasks|)
    && rl.finals == base.finals && rl.rewrites == base.rewrites
    && exists promoted :: IsPromotion(base, rl.tasks, promoted) &&
         rl.initial == KeptInitial(base.initial, Referenced(rl.tasks)) + promoted + RolloutObjects(rows)
  }

  ghost predicate Describes(spec: map<string, Output>, ids: set<string>, promoted: seq<Initial>) {
    && (forall i, j :: 0 <= i < j < |promoted| ==> promoted[i].id != promoted[j].id)
    && InitialIds(promoted) == ids
    && (forall k :: 0 <= k < |promoted| ==>
          promoted[k].id in spec && promoted[k] == Initial(promoted[k].id, spec[promoted[k].id].size, Backing))
  }

  lemma DescribeOneMore(spec: map<string, Output>, ids: set<string>, promoted: seq<Initial>, id: string)
    requires Describes(spec, ids, promoted) && id in spec && id !in ids
    ensures Describes(spec, ids + {id}, promoted + [Initial(id, spec[id].size, Backing)])
  {
    PromoteOne(promoted, Initial(id, spec[id].size, Backing));
    forall k | 0 <= k < |promoted| ensures promoted[k].id != id {
      assert promoted[k].id in InitialIds(promoted);
    }
  }

  method PromoteAll(spec: map<string, Output>, ids: set<string>) returns (r: Result<seq<Initial>, BuildError>)
    ensures r.Ok? <==> ids <= spec.Keys
    ensures r.Ok? ==> Describes(spec, ids, r.value)
  {
    var promoted: seq<Initial>, todo := [], ids;
    while todo != {}
      invariant todo <= ids && ids - todo <= spec.Keys && Describes(spec, ids - todo, promoted)
      decreases |todo|
    {
      var id :| id in todo;
      if id !in spec {
        return Err(NoSuchObject(id));
      }
      DescribeOneMore(spec, ids - todo, promoted, id);
      assert ids - (todo - {id}) == (ids - todo) + {id};
      promoted := promoted + [Initial(id, spec[id].size, Backing)];
      todo := todo - {id};
    }
    assert ids - todo == ids;
    r := Ok(promoted);
  }

  method Promote(base: Program, chain: seq<Task>) returns (r: Result<seq<Initial>, BuildError>)
    ensures r.Ok? <==> PromotedIds(base, chain) <= Produced(base.tasks)
    ensures r.Ok? ==> IsPromotion(base, chain, r.value)
  {
    OutSpecKeys(base.tasks);
    r := PromoteAll(OutSpec(base.tasks), PromotedIds(base, chain));
  }

  lemma PromoteOne(promoted: seq<Initial>, o: Initial)
    ensures InitialIds(promoted + [o]) == InitialIds(promoted) + {o.id}
  {
    var more := promoted + [o];
    assert more[|promoted|] == o;
    assert forall k :: 0 <= k < |promoted| ==> more[k] == promoted[k];
    forall x | x in InitialIds(promoted) ensures x in InitialIds(more) {
      var k :| 0 <= k < |promoted| && promoted[k].id == x;
      assert more[k].id == x;
    }
  }

  /** `build_rl_program` up to its final validation. `rows` is the configuration's token count. */
  method BuildRl(base: Program, rows: int) returns (r: Result<Program, BuildError>)
    ensures r.Ok? <==>
      Buildable(base.tasks) && PromotedIds(base, Chain(base.tasks, |base.tasks|)) <= Produced(base.tasks)
    ensures r.Ok? ==> IsRlOf(base, rows, r.value)
    ensures r.Ok? ==> var n := |r.value.initial|; n >= 3 && r.value.initial[n - 3..] == [
      Initial("actions_0_0", 4 * rows, Backing), Initial("old_logprobs_0_0", 4 * rows, Backing),
      Initial("advantages_0_0", 4 * rows, Backing)]
  {
    var chain := RewriteChain(base.tasks);
    if chain.Err? {
      return Err(chain.error);
    }
    var promoted := Promote(base, chain.value);
    if promoted.Err? {
      return Err(promoted.error);
    }
    r := Ok(Program(
      KeptInitial(base.initial, Referenced(chain.value)) + promoted.value + RolloutObjects(rows),
      chain.value, base.finals, base.rewrites));
  }
}
