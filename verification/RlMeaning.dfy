/** The surgery preserves meaning: under a store semantics with uninterpreted kernels, every object
    that kept tasks read or write ends as it does in the standard run. */
module RlMeaning {
  import opened RlProgram
  import opened RlValidity
  import K = RlKeys

  type Value = seq<int>

  /** Which of a task's results: its j-th output, or the new contents of its j-th mutated input. */
  datatype Slot = Out(j: int) | Mut(j: int)

  /** A kernel computes each result from the compute key, the block parameters and the input values. */
  type Kernel = (string, string, Slot, seq<Value>) -> Value

  type Store = map<string, Value>

  function Get(st: Store, x: string): Value {
    if x in st then st[x] else []
  }

  function Values(st: Store, ids: seq<string>): (v: seq<Value>)
    ensures |v| == |ids|
    ensures forall i :: 0 <= i < |ids| ==> v[i] == Get(st, ids[i])
  {
    seq(|ids|, i requires 0 <= i < |ids| => Get(st, ids[i]))
  }

  function OutIndex(outputs: seq<Output>, x: string): (j: int)
    ensures j < |outputs| && (j >= 0 ==> outputs[j].id == x)
  {
    if outputs == [] then -1
    else if outputs[|outputs| - 1].id == x then |outputs| - 1
    else OutIndex(outputs[..|outputs| - 1], x)
  }

  function MutIndex(mutates: seq<string>, x: string): int {
    if mutates == [] then -1
    else if mutates[|mutates| - 1] == x then |mutates| - 1
    else MutIndex(mutates[..|mutates| - 1], x)
  }

  function SlotOf(t: Task, x: string): Slot {
    if OutIndex(t.outputs, x) >= 0 then Out(OutIndex(t.outputs, x)) else Mut(MutIndex(t.mutates, x))
  }

  function Writes(t: Task): set<string> {
    OutputIds(t) + set x | x in t.mutates
  }

  function Written(kernel: Kernel, t: Task, values: seq<Value>, x: string): Value {
    kernel(t.key, t.params, SlotOf(t, x), values)
  }

  function Exec(kernel: Kernel, t: Task, st: Store): Store {
    st + map x | x in Writes(t) :: Written(kernel, t, Values(st, t.inputs), x)
  }

  function Run(kernel: Kernel, tasks: seq<Task>, st: Store): Store {
    if tasks == [] then st else Exec(kernel, tasks[|tasks| - 1], Run(kernel, tasks[..|tasks| - 1], st))
  }

  lemma ExecGet(kernel: Kernel, t: Task, st: Store, x: string)
    ensures Get(Exec(kernel, t, st), x) ==
      if x in Writes(t) then Written(kernel, t, Values(st, t.inputs), x) else Get(st, x)
  {
  }

  lemma {:induction false} RunConcat(kernel: Kernel, a: seq<Task>, b: seq<Task>, st: Store)
    ensures Run(kernel, a + b, st) == Run(kernel, b, Run(kernel, a, st))
  {
    if b == [] {
      assert a + b == a;
    } else {
      var c, init, last := a + b, b[..|b| - 1], b[|b| - 1];
      RunConcat(kernel, a, init, st);
      RunLast(kernel, a + init, last, st);
      RunLast(kernel, init, last, Run(kernel, a, st));
      assert c == (a + init) + [last] && b == init + [last];
    }
  }

  lemma RunLast(kernel: Kernel, tasks: seq<Task>, t: Task, st: Store)
    ensures Run(kernel, tasks + [t], st) == Exec(kernel, t, Run(kernel, tasks, st))
  {
    assert (tasks + [t])[..|tasks|] == tasks;
  }

  // ---------------------------------------------------------------- the two runs

  /** The standard run after its first `k` tasks. */
  function BaseAt(kernel: Kernel, base: Program, st: Store, k: nat): Store
    requires k <= |base.tasks|
  {
    Run(kernel, base.tasks[..k], st)
  }

  /** The RL run after the blocks of the first `k` tasks. */
  function RlAt(kernel: Kernel, base: Program, st: Store, k: nat): Store
    requires k <= |base.tasks| && Buildable(base.tasks)
  {
    Run(kernel, Chain(base.tasks, k), st)
  }

  lemma BaseStep(kernel: Kernel, base: Program, st: Store, k: nat)
    requires k < |base.tasks|
    ensures BaseAt(kernel, base, st, k + 1) == Exec(kernel, base.tasks[k], BaseAt(kernel, base, st, k))
  {
    assert base.tasks[..k + 1][..k] == base.tasks[..k];
  }

  lemma RlStep(kernel: Kernel, base: Program, st: Store, k: nat)
    requires k < |base.tasks| && Buildable(base.tasks) && BuildableAt(base.tasks, k)
    ensures RlAt(kernel, base, st, k + 1) == Run(kernel, Emit(base.tasks, k), RlAt(kernel, base, st, k))
  {
    RunConcat(kernel, Chain(base.tasks, k), Emit(base.tasks, k), st);
  }

  lemma RunOne(kernel: Kernel, t: Task, st: Store)
    ensures Run(kernel, [t], st) == Exec(kernel, t, st)
  {
    assert [t][..0] == [];
  }

  lemma RunTwo(kernel: Kernel, a: Task, b: Task, st: Store)
    ensures Run(kernel, [a, b], st) == Exec(kernel, b, Exec(kernel, a, st))
  {
    RunConcat(kernel, [a], [b], st);
    assert [a] + [b] == [a, b];
    RunOne(kernel, a, st);
    RunOne(kernel, b, Exec(kernel, a, st));
  }

  // ---------------------------------------------------------------- what the surgery relies on

  /** The discrete choices a forward emits, as values. */
  function AuxValues(kernel: Kernel, f: Task, values: seq<Value>): seq<Value> {
    seq(|AuxTemps(f.outputs)|, i requires 0 <= i < |AuxTemps(f.outputs)| =>
      kernel(f.key, f.params, SlotOf(f, AuxTemps(f.outputs)[i]), values))
  }

  /** Recompute repopulates the context from the forward's inputs and its own discrete choices. */
  ghost predicate RecomputeFaithful(kernel: Kernel, f: Task)
    requires CanRecompute(f)
  {
    forall values: seq<Value> | |values| == |f.inputs| ::
      kernel(K.RecomputeKey(f.key), f.params, Out(0), values + AuxValues(kernel, f, values)) ==
      kernel(f.key, f.params, SlotOf(f, f.outputs[Context(f.outputs)].id), values)
  }

  predicate IsChoice(o: Output) {
    "AuxTemp_" <= o.id
  }

  ghost predicate Increases(places: seq<nat>) {
    forall i, j :: 0 <= i < j < |places| ==> places[i] < places[j]
  }

  /** Where a forward's discrete choices are among its outputs. */
  ghost predicate AuxPlaces(outputs: seq<Output>, places: seq<nat>) {
    Increases(places) && forall p: nat :: p in places <==> p < |outputs| && IsChoice(outputs[p])
  }

  /** Its context is the first output of that name. */
  ghost predicate ContextPlace(outputs: seq<Output>, c: nat) {
    c < |outputs| && "A_" <= outputs[c].id && forall i :: 0 <= i < c ==> !("A_" <= outputs[i].id)
  }

  function Emitted(kernel: Kernel, f: Task, places: seq<nat>, values: seq<Value>): seq<Value> {
    seq(|places|, i requires 0 <= i < |places| => kernel(f.key, f.params, Out(places[i]), values))
  }

  ghost predicate Rebuilds(kernel: Kernel, f: Task, key: string, places: seq<nat>, c: nat, values: seq<Value>) {
    kernel(key, f.params, Out(0), values + Emitted(kernel, f, places, values)) ==
    kernel(f.key, f.params, Out(c), values)
  }

  /** What is asked of the kernels of a family: under the forward's key with every `_fwd` renamed to
      `_recompute`, the forward's inputs and the discrete choices it emitted give its context. */
  ghost predicate Repopulates(kernel: Kernel, f: Task) {
    forall key, places, c: nat, values {:trigger Rebuilds(kernel, f, key, places, c, values)} ::
      K.Renamed(f.key, key) && AuxPlaces(f.outputs, places) && ContextPlace(f.outputs, c) && |values| == |f.inputs| ==>
      Rebuilds(kernel, f, key, places, c, values)
  }

  lemma {:induction false} ContextIsFirst(outputs: seq<Output>)
    requires Context(outputs) >= 0
    ensures ContextPlace(outputs, Context(outputs))
  {
    if !("A_" <= outputs[0].id) {
      ContextIsFirst(outputs[1..]);
      assert forall i :: 0 < i < |outputs| ==> outputs[i] == outputs[1..][i - 1];
    }
  }

  ghost predicate PlacesOf(outputs: seq<Output>, places: seq<nat>, ids: seq<string>) {
    AuxPlaces(outputs, places) && NamedIn(outputs, places, ids)
  }

  function Later(places: seq<nat>): (r: seq<nat>)
    ensures |r| == |places| && forall i :: 0 <= i < |r| ==> r[i] == places[i] + 1
  {
    seq(|places|, i requires 0 <= i < |places| => places[i] + 1)
  }

  lemma LaterMember(places: seq<nat>, p: nat)
    ensures p in Later(places) <==> p > 0 && p - 1 in places
  {
    if p > 0 && p - 1 in places {
      var i :| 0 <= i < |places| && places[i] == p - 1;
      assert Later(places)[i] == p;
    }
  }

  lemma LaterIncreases(first: bool, rest: seq<nat>)
    requires Increases(rest)
    ensures Increases((if first then [0] else []) + Later(rest))
  {
  }

  lemma PlacesLater(outputs: seq<Output>, first: bool, places: seq<nat>, rest: seq<nat>, ids: seq<string>)
    requires outputs != [] && first == IsChoice(outputs[0]) && PlacesOf(outputs[1..], rest, ids)
    requires places == (if first then [0] else []) + Later(rest)
    ensures PlacesOf(outputs, places, (if first then [outputs[0].id] else []) + ids)
  {
    LaterIncreases(first, rest);
    assert AuxPlaces(outputs, places) by {
      forall p: nat ensures p in places <==> p < |outputs| && IsChoice(outputs[p]) {
        LaterChoice(outputs, first, rest, p);
      }
    }
    LaterNames(outputs, first, rest, ids);
  }

  lemma LaterChoice(outputs: seq<Output>, first: bool, rest: seq<nat>, p: nat)
    requires outputs != [] && first == IsChoice(outputs[0]) && AuxPlaces(outputs[1..], rest)
    ensures p in (if first then [0] else []) + Later(rest) <==> p < |outputs| && IsChoice(outputs[p])
  {
    LaterMember(rest, p);
  }

  /** The places name these outputs. */
  ghost predicate NamedIn(outputs: seq<Output>, places: seq<nat>, ids: seq<string>) {
    |places| == |ids| && forall i :: 0 <= i < |places| ==> places[i] < |outputs| && outputs[places[i]].id == ids[i]
  }

  lemma LaterNames(outputs: seq<Output>, first: bool, rest: seq<nat>, ids: seq<string>)
    requires outputs != [] && NamedIn(outputs[1..], rest, ids)
    ensures NamedIn(outputs, (if first then [0] else []) + Later(rest), (if first then [outputs[0].id] else []) + ids)
  {
  }

  /** The discrete choices a recompute reads, by their places. */
  lemma {:induction false} AuxTempsPlaces(outputs: seq<Output>) returns (places: seq<nat>)
    ensures PlacesOf(outputs, places, AuxTemps(outputs))
  {
    if outputs == [] {
      places := [];
    } else {
      var rest := AuxTempsPlaces(outputs[1..]);
      var first := IsChoice(outputs[0]);
      places := (if first then [0] else []) + Later(rest);
      PlacesLater(outputs, first, places, rest, AuxTemps(outputs[1..]));
    }
  }

  ghost predicate OutputsDiffer(outputs: seq<Output>) {
    forall i, j :: 0 <= i < j < |outputs| ==> outputs[i].id != outputs[j].id
  }

  lemma {:induction false} IndexOfOutput(outputs: seq<Output>, p: nat)
    requires p < |outputs| && OutputsDiffer(outputs)
    ensures OutIndex(outputs, outputs[p].id) == p
  {
    if p < |outputs| - 1 {
      IndexOfOutput(outputs[..|outputs| - 1], p);
    }
  }

  /** A forward that is repopulated as asked is recomputed faithfully by the inserted task. */
  lemma FaithfulFromText(kernel: Kernel, f: Task)
    requires CanRecompute(f) && Repopulates(kernel, f) && OutputsDiffer(f.outputs)
    ensures RecomputeFaithful(kernel, f)
  {
    var key, c := K.RecomputeKey(f.key), Context(f.outputs);
    var places := AuxTempsPlaces(f.outputs);
    K.RenamedExactly(f.key, key);
    ContextIsFirst(f.outputs);
    IndexOfOutput(f.outputs, c);
    forall values: seq<Value> | |values| == |f.inputs|
      ensures kernel(key, f.params, Out(0), values + AuxValues(kernel, f, values)) ==
        kernel(f.key, f.params, SlotOf(f, f.outputs[c].id), values)
    {
      EmittedIs(kernel, f, places, values);
      assert Rebuilds(kernel, f, key, places, c, values);
    }
  }

  lemma EmittedIs(kernel: Kernel, f: Task, places: seq<nat>, values: seq<Value>)
    requires PlacesOf(f.outputs, places, AuxTemps(f.outputs)) && OutputsDiffer(f.outputs)
    ensures Emitted(kernel, f, places, values) == AuxValues(kernel, f, values)
  {
    forall i | 0 <= i < |places| ensures Emitted(kernel, f, places, values)[i] == AuxValues(kernel, f, values)[i] {
      IndexOfOutput(f.outputs, places[i]);
      assert SlotOf(f, AuxTemps(f.outputs)[i]) == Out(places[i]);
    }
  }

  function NamesAt(outputs: seq<Output>, places: seq<nat>): seq<string> {
    seq(|places|, i requires 0 <= i < |places| => if places[i] < |outputs| then outputs[places[i]].id else "")
  }

  lemma {:induction false} NoneLater(tasks: seq<Task>, k: nat, name: TaskName, j: nat)
    requires k <= |tasks| && LastNamed(tasks, k, name) < j < k
    ensures tasks[j].name != name
  {
    if j < k - 1 {
      NoneLater(tasks, k - 1, name, j);
    }
  }

  /** What stands before a backward: a task derived from the last forward of the same step, round and
      layer, which reads that forward's inputs and discrete choices in order, writes its context and
      nothing else, and runs under the renamed key with the same parameters. */
  lemma InsertedRecompute(tasks: seq<Task>, k: nat, s: int, r: int, i: int) returns (f: nat, places: seq<nat>, c: nat)
    requires Buildable(tasks) && k < |tasks| && tasks[k].name == BlockBwd(s, r, i) && BuildableAt(tasks, k)
    ensures f < k && tasks[f].name == BlockFwd(s, r, i) && forall j :: f < j < k ==> tasks[j].name != tasks[f].name
    ensures AuxPlaces(tasks[f].outputs, places) && ContextPlace(tasks[f].outputs, c)
    ensures 0 < PlaceOf(tasks, k) < |Chain(tasks, |tasks|)| && Chain(tasks, |tasks|)[PlaceOf(tasks, k)] == tasks[k]
    ensures var rec := Chain(tasks, |tasks|)[PlaceOf(tasks, k) - 1];
      && rec.name == BlockRecompute(s, r, i) && rec.inputs == tasks[f].inputs + NamesAt(tasks[f].outputs, places)
      && rec.outputs == [tasks[f].outputs[c]] && rec.mutates == [] && rec.params == tasks[f].params
      && K.Renamed(tasks[f].key, rec.key)
  {
    f := Fwd(tasks, k);
    forall j | f < j < k ensures tasks[j].name != tasks[f].name {
      NoneLater(tasks, k, FwdName(tasks[k].name), j);
    }
    var outputs := tasks[f].outputs;
    places := AuxTempsPlaces(outputs);
    c := Context(outputs);
    ContextIsFirst(outputs);
    K.RenamedExactly(tasks[f].key, K.RecomputeKey(tasks[f].key));
    assert NamesAt(outputs, places) == AuxTemps(outputs);
    BackwardFollowsRecompute(tasks, k);
  }

  /** What a recompute depends on and what it stands for. */
  function Concerns(f: Task): set<string>
    requires CanRecompute(f)
  {
    InputsOf(Recompute(f)) + {f.outputs[Context(f.outputs)].id}
  }

  /** Nothing between a forward and its backward mutates what the recompute concerns. */
  ghost predicate Frozen(tasks: seq<Task>, b: nat)
    requires IsBwd(tasks, b) && BuildableAt(tasks, b)
  {
    forall j, x :: Fwd(tasks, b) < j < b && x in tasks[j].mutates ==> x !in Concerns(tasks[Fwd(tasks, b)])
  }

  /** Objects the RL run reads or writes. */
  function Used(tasks: seq<Task>): set<string>
    requires Buildable(tasks)
  {
    Referenced(Chain(tasks, |tasks|)) + Produced(Chain(tasks, |tasks|))
  }

  ghost predicate ForwardsLeaveUsedAlone(tasks: seq<Task>)
    requires Buildable(tasks)
  {
    forall d, x :: 0 <= d < |tasks| && Dropped(tasks[d]) && x in tasks[d].mutates ==> x !in Used(tasks)
  }

  /** What the replaced head reads: the final hidden state, the rollout data, the head weight. */
  ghost function HeadInputs(kernel: Kernel, base: Program, st: Store, st': Store, k: nat): seq<Value>
    requires k < |base.tasks| && base.tasks[k].inputs != []
  {
    var t, at := base.tasks[k], BaseAt(kernel, base, st, k);
    [Get(at, t.inputs[0]), Get(st', "actions_0_0"), Get(st', "old_logprobs_0_0"), Get(st', "advantages_0_0"),
     Get(at, t.inputs[|t.inputs| - 1])]
  }

  /** The replaced head gives the results of the standard head, on the standard run's values. */
  ghost predicate HeadAgrees(kernel: Kernel, base: Program, st: Store, st': Store, k: nat)
    requires k < |base.tasks| && base.tasks[k].name.HeadLoss? && base.tasks[k].inputs != []
  {
    var t, at := base.tasks[k], BaseAt(kernel, base, st, k);
    var values := HeadInputs(kernel, base, st, st', k);
    forall x :: x in Writes(t) ==>
      kernel("rl_head_loss", t.params, SlotOf(t, x), values) == Written(kernel, t, Values(at, t.inputs), x)
  }

  /** The initial store of the RL run: the standard initial values, and for each promoted object the
      value its forward gave it in the standard run. */
  ghost predicate Checkpointed(kernel: Kernel, base: Program, st: Store, st': Store)
    requires Buildable(base.tasks)
  {
    && (forall x :: x in InitialIds(base.initial) && x in Used(base.tasks) ==> Get(st', x) == Get(st, x))
    && (forall x, j | x in PromotedIds(base, Chain(base.tasks, |base.tasks|)) && 0 <= j < |base.tasks| ::
          x in OutputIds(base.tasks[j]) ==> Get(st', x) == Get(BaseAt(kernel, base, st, j + 1), x))
  }

  ghost predicate Relies(kernel: Kernel, base: Program, st: Store, st': Store)
    requires Buildable(base.tasks)
  {
    && ForwardsLeaveUsedAlone(base.tasks)
    && Checkpointed(kernel, base, st, st')
    && (forall k {:trigger ReliesAt(kernel, base, st, st', k)} ::
          0 <= k < |base.tasks| ==> ReliesAt(kernel, base, st, st', k))
  }

  ghost predicate ReliesAt(kernel: Kernel, base: Program, st: Store, st': Store, k: nat)
    requires k < |base.tasks|
  {
    BuildableAt(base.tasks, k) ==>
      match base.tasks[k].name
      case HeadLoss(_, _) => HeadAgrees(kernel, base, st, st', k)
      case BlockBwd(_, _, _) =>
        Repopulates(kernel, base.tasks[Fwd(base.tasks, k)]) && Frozen(base.tasks, k)
      case _ => true
  }

  // ---------------------------------------------------------------- from a forward to its backward

  lemma Untouched(kernel: Kernel, base: Program, st: Store, k: nat, x: string)
    requires k < |base.tasks| && x !in Writes(base.tasks[k])
    ensures Get(BaseAt(kernel, base, st, k + 1), x) == Get(BaseAt(kernel, base, st, k), x)
  {
    BaseStep(kernel, base, st, k);
    ExecGet(kernel, base.tasks[k], BaseAt(kernel, base, st, k), x);
  }

  /** A known object is never produced again. */
  lemma KnownNotWritten(base: Program, f: nat, k: nat, x: string)
    requires Valid(base) && f <= k < |base.tasks| && x in Known(base, f) && x !in base.tasks[k].mutates
    ensures x !in Writes(base.tasks[k])
  {
    KnownGrows(base, f, k);
    BaseTask(base, k);
  }

  lemma {:induction false} Unmutated(kernel: Kernel, base: Program, st: Store, f: nat, k: nat, x: string)
    requires f <= k <= |base.tasks|
    requires forall j :: f <= j < k ==> x !in Writes(base.tasks[j])
    ensures Get(BaseAt(kernel, base, st, k), x) == Get(BaseAt(kernel, base, st, f), x)
    decreases k - f
  {
    if f < k {
      Unmutated(kernel, base, st, f, k - 1, x);
      Untouched(kernel, base, st, k - 1, x);
    }
  }

  lemma KnownAfter(base: Program, k: nat)
    requires k < |base.tasks|
    ensures Known(base, k + 1) == Known(base, k) + OutputIds(base.tasks[k])
  {
    assert base.tasks[..k + 1][..k] == base.tasks[..k];
  }

  /** A forward whose backward is kept mutates nothing: its inputs are used by the recompute. */
  lemma ForwardIsPure(base: Program, b: nat, x: string)
    requires Valid(base) && Buildable(base.tasks) && IsBwd(base.tasks, b) && BuildableAt(base.tasks, b)
    requires ForwardsLeaveUsedAlone(base.tasks)
    ensures 0 <= Fwd(base.tasks, b) < b && x !in base.tasks[Fwd(base.tasks, b)].mutates
  {
    var T, f := base.tasks, Fwd(base.tasks, b);
    CtxProduced(T, b);
    assert x in T[f].mutates ==> x in T[f].inputs by {
      BaseTask(base, f);
    }
    if x in T[f].inputs {
      assert x in Recompute(T[f]).inputs;
      BlockReadsReferenced(T, b, x);
      assert x in Used(T) && Dropped(T[f]);
    }
  }

  lemma ConcernedKnown(base: Program, b: nat, x: string)
    requires Valid(base) && IsBwd(base.tasks, b) && BuildableAt(base.tasks, b)
    requires x in Concerns(base.tasks[Fwd(base.tasks, b)])
    ensures 0 <= Fwd(base.tasks, b) < b && x in Known(base, Fwd(base.tasks, b) + 1)
  {
    var T, f := base.tasks, Fwd(base.tasks, b);
    CtxProduced(T, b);
    KnownAfter(base, f);
    BaseTask(base, f);
    if x in AuxTemps(T[f].outputs) {
      AuxTempFacts(base, f, b, x);
    }
  }

  /** At the backward, an object its recompute concerns is as the forward left it. */
  lemma FrozenValue(kernel: Kernel, base: Program, st: Store, b: nat, x: string)
    requires Valid(base) && IsBwd(base.tasks, b) && BuildableAt(base.tasks, b)
    requires Frozen(base.tasks, b) && x in Concerns(base.tasks[Fwd(base.tasks, b)])
    ensures 0 <= Fwd(base.tasks, b) < b
    ensures Get(BaseAt(kernel, base, st, b), x) == Get(BaseAt(kernel, base, st, Fwd(base.tasks, b) + 1), x)
  {
    var f := Fwd(base.tasks, b);
    ConcernedKnown(base, b, x);
    forall j | f < j < b ensures x !in Writes(base.tasks[j]) {
      KnownNotWritten(base, f + 1, j, x);
    }
    Unmutated(kernel, base, st, f + 1, b, x);
  }

  lemma ForwardValue(kernel: Kernel, base: Program, st: Store, f: nat, x: string)
    requires Valid(base) && f < |base.tasks| && x in Writes(base.tasks[f])
    ensures Get(BaseAt(kernel, base, st, f + 1), x) ==
      Written(kernel, base.tasks[f], Values(BaseAt(kernel, base, st, f), base.tasks[f].inputs), x)
  {
    BaseStep(kernel, base, st, f);
    ExecGet(kernel, base.tasks[f], BaseAt(kernel, base, st, f), x);
  }

  lemma FaithfulForward(kernel: Kernel, base: Program, f: nat)
    requires Valid(base) && f < |base.tasks| && CanRecompute(base.tasks[f]) && Repopulates(kernel, base.tasks[f])
    ensures RecomputeFaithful(kernel, base.tasks[f])
  {
    BaseTask(base, f);
    FaithfulFromText(kernel, base.tasks[f]);
  }

  /** Run on the standard run's values at the backward, the recompute yields the context there. */
  lemma RecomputedContext(kernel: Kernel, base: Program, st: Store, st': Store, b: nat)
    requires Valid(base) && Buildable(base.tasks) && IsBwd(base.tasks, b) && BuildableAt(base.tasks, b)
    requires Relies(kernel, base, st, st')
    ensures var rec := Recompute(base.tasks[Fwd(base.tasks, b)]);
      Written(kernel, rec, Values(BaseAt(kernel, base, st, b), rec.inputs), Ctx(base.tasks, b)) ==
      Get(BaseAt(kernel, base, st, b), Ctx(base.tasks, b))
  {
    var T, f, ctx := base.tasks, Fwd(base.tasks, b), Ctx(base.tasks, b);
    CtxProduced(T, b);
    var F, rec, at := T[f], Recompute(T[f]), BaseAt(kernel, base, st, b);
    var values := Values(BaseAt(kernel, base, st, f), F.inputs);
    assert Values(at, rec.inputs) == values + AuxValues(kernel, F, values) by {
      ConcernedValues(kernel, base, st, st', b);
    }
    assert ReliesAt(kernel, base, st, st', b);
    FaithfulForward(kernel, base, f);
    FrozenValue(kernel, base, st, b, ctx);
    ForwardValue(kernel, base, st, f, ctx);
    RecomputeSlot(rec);
  }

  lemma RecomputeWrites(f: Task)
    requires CanRecompute(f)
    ensures Writes(Recompute(f)) == {f.outputs[Context(f.outputs)].id}
  {
    var rec := Recompute(f);
    assert rec.outputs[0].id in OutputIds(rec);
    assert (set x | x in rec.mutates) == {};
  }

  lemma RecomputeSlot(rec: Task)
    requires |rec.outputs| == 1
    ensures SlotOf(rec, rec.outputs[0].id) == Out(0)
  {
  }

  lemma InputUnchanged(kernel: Kernel, base: Program, st: Store, st': Store, b: nat, x: string)
    requires Valid(base) && Buildable(base.tasks) && IsBwd(base.tasks, b) && BuildableAt(base.tasks, b)
    requires Relies(kernel, base, st, st') && x in base.tasks[Fwd(base.tasks, b)].inputs
    ensures Get(BaseAt(kernel, base, st, b), x) == Get(BaseAt(kernel, base, st, Fwd(base.tasks, b)), x)
  {
    var f := Fwd(base.tasks, b);
    ForwardIsPure(base, b, x);
    assert x in Recompute(base.tasks[f]).inputs;
    assert ReliesAt(kernel, base, st, st', b);
    FrozenValue(kernel, base, st, b, x);
    BaseTask(base, f);
    KnownNotWritten(base, f, f, x);
    Untouched(kernel, base, st, f, x);
  }

  lemma AuxUnchanged(kernel: Kernel, base: Program, st: Store, st': Store, b: nat, i: nat)
    requires Valid(base) && Buildable(base.tasks) && IsBwd(base.tasks, b) && BuildableAt(base.tasks, b)
    requires Relies(kernel, base, st, st') && i < |AuxTemps(base.tasks[Fwd(base.tasks, b)].outputs)|
    ensures var F := base.tasks[Fwd(base.tasks, b)];
      Get(BaseAt(kernel, base, st, b), AuxTemps(F.outputs)[i]) ==
      AuxValues(kernel, F, Values(BaseAt(kernel, base, st, Fwd(base.tasks, b)), F.inputs))[i]
  {
    var f := Fwd(base.tasks, b);
    var x := AuxTemps(base.tasks[f].outputs)[i];
    CtxProduced(base.tasks, b);
    assert x in Recompute(base.tasks[f]).inputs;
    assert ReliesAt(kernel, base, st, st', b);
    FrozenValue(kernel, base, st, b, x);
    AuxTempFacts(base, f, b, x);
    ForwardValue(kernel, base, st, f, x);
  }

  lemma ConcernedValues(kernel: Kernel, base: Program, st: Store, st': Store, b: nat)
    requires Valid(base) && Buildable(base.tasks) && IsBwd(base.tasks, b) && BuildableAt(base.tasks, b)
    requires Relies(kernel, base, st, st')
    ensures var F := base.tasks[Fwd(base.tasks, b)];
      var values := Values(BaseAt(kernel, base, st, Fwd(base.tasks, b)), F.inputs);
      Values(BaseAt(kernel, base, st, b), Recompute(F).inputs) == values + AuxValues(kernel, F, values)
  {
    var f := Fwd(base.tasks, b);
    var F, at, aux := base.tasks[f], BaseAt(kernel, base, st, b), AuxTemps(base.tasks[f].outputs);
    var values := Values(BaseAt(kernel, base, st, f), F.inputs);
    assert Recompute(F).inputs == F.inputs + aux;
    assert Values(at, F.inputs) == values by {
      forall i | 0 <= i < |F.inputs| ensures Get(at, F.inputs[i]) == values[i] {
        InputUnchanged(kernel, base, st, st', b, F.inputs[i]);
      }
    }
    assert Values(at, aux) == AuxValues(kernel, F, values) by {
      forall i | 0 <= i < |aux| ensures Get(at, aux[i]) == AuxValues(kernel, F, values)[i] {
        AuxUnchanged(kernel, base, st, st', b, i);
      }
    }
    ValuesConcat(at, F.inputs, aux);
  }

  lemma ValuesConcat(st: Store, a: seq<string>, b: seq<string>)
    ensures Values(st, a + b) == Values(st, a) + Values(st, b)
  {
  }

  // ---------------------------------------------------------------- the two runs agree

  /** After the blocks of the first `k` tasks: what the standard run knows has its value there, except
      contexts still to be rebuilt; promoted objects and rollouts hold what they were given. */
  ghost predicate AgreesOn(kernel: Kernel, base: Program, st: Store, st': Store, k: nat, x: string)
    requires k <= |base.tasks| && Buildable(base.tasks)
  {
    && (x in Known(base, k) && !RebuiltLater(base.tasks, k, x) ==>
          Get(RlAt(kernel, base, st', k), x) == Get(BaseAt(kernel, base, st, k), x))
    && (x !in Known(base, k) && x !in Produced(Chain(base.tasks, |base.tasks|)) ==>
          Get(RlAt(kernel, base, st', k), x) == Get(st', x))
  }

  ghost predicate Agrees(kernel: Kernel, base: Program, st: Store, st': Store, k: nat)
    requires k <= |base.tasks| && Buildable(base.tasks)
  {
    forall x {:trigger AgreesOn(kernel, base, st, st', k, x)} ::
      x in Used(base.tasks) ==> AgreesOn(kernel, base, st, st', k, x)
  }

  lemma ReadAgrees(kernel: Kernel, base: Program, st: Store, st': Store, k: nat, x: string)
    requires Valid(base) && Buildable(base.tasks) && k < |base.tasks| && PositionOk(base.tasks, k)
    requires Agrees(kernel, base, st, st', k) && x in BlockReads(base.tasks, k)
    requires IsBwd(base.tasks, k) ==> x != Ctx(base.tasks, k)
    ensures Get(RlAt(kernel, base, st', k), x) == Get(BaseAt(kernel, base, st, k), x)
  {
    BlockReadsKnown(base, k);
    BlockReadsReferenced(base.tasks, k, x);
    LaterThanNext(base.tasks, k, x);
    assert AgreesOn(kernel, base, st, st', k, x);
  }

  lemma DroppedOutputIsPromoted(base: Program, k: nat, x: string)
    requires Valid(base) && Fresh(base) && Buildable(base.tasks) && k < |base.tasks| && Dropped(base.tasks[k])
    requires x in OutputIds(base.tasks[k]) && x in Used(base.tasks) && !RebuiltLater(base.tasks, k + 1, x)
    ensures x in PromotedIds(base, Chain(base.tasks, |base.tasks|)) && x !in Known(base, k)
  {
    var T := base.tasks;
    BaseTask(base, k);
    OneProducer(base, k, k, x);
    ChainProduces(T, |T|, x);
    assert !KeptProduces(T, |T|, x) by {
      forall j | 0 <= j < |T| && !Dropped(T[j]) ensures x !in OutputIds(T[j]) {
        if x in OutputIds(T[j]) {
          OneProducer(base, j, k, x);
        }
      }
    }
    assert !Rebuilt(T, |T|, x) by {
      forall b | 0 <= b < |T| && IsBwd(T, b) ensures Ctx(T, b) != x {
        if Ctx(T, b) == x {
          CtxProduced(T, b);
          OneProducer(base, k, Fwd(T, b), x);
        }
      }
    }
    KnownAfter(base, k);
    NotARollout(base, k + 1, x);
  }

  lemma DroppedStep(kernel: Kernel, base: Program, st: Store, st': Store, k: nat, x: string)
    requires Valid(base) && Fresh(base) && Buildable(base.tasks) && k < |base.tasks| && Dropped(base.tasks[k])
    requires Relies(kernel, base, st, st') && AgreesOn(kernel, base, st, st', k, x) && x in Used(base.tasks)
    ensures AgreesOn(kernel, base, st, st', k + 1, x)
  {
    assert BuildableAt(base.tasks, k);
    RlStep(kernel, base, st', k);
    KnownAfter(base, k);
    LaterThanNext(base.tasks, k, x);
    if x in Known(base, k) {
      KnownNotWritten(base, k, k, x);
      Untouched(kernel, base, st, k, x);
    } else if x in OutputIds(base.tasks[k]) && !RebuiltLater(base.tasks, k + 1, x) {
      DroppedOutputIsPromoted(base, k, x);
    }
  }

  predicate Plain(t: Task) {
    !Dropped(t) && !t.name.HeadLoss? && !t.name.BlockBwd?
  }

  /** What a kept task writes is known afterwards. */
  lemma WritesKnown(base: Program, k: nat)
    requires Valid(base) && k < |base.tasks|
    ensures Known(base, k) <= Known(base, k + 1) && Writes(base.tasks[k]) <= Known(base, k + 1)
    ensures Known(base, k + 1) <= Known(base, k) + Writes(base.tasks[k])
  {
    KnownAfter(base, k);
    BaseTask(base, k);
  }

  lemma PlainStep(kernel: Kernel, base: Program, st: Store, st': Store, k: nat, x: string)
    requires Valid(base) && Buildable(base.tasks) && k < |base.tasks| && Plain(base.tasks[k])
    requires PositionOk(base.tasks, k) && Agrees(kernel, base, st, st', k) && x in Used(base.tasks)
    ensures AgreesOn(kernel, base, st, st', k + 1, x)
  {
    var t, at, at' := base.tasks[k], BaseAt(kernel, base, st, k), RlAt(kernel, base, st', k);
    RlStep(kernel, base, st', k);
    RunOne(kernel, t, at');
    BaseStep(kernel, base, st, k);
    WritesKnown(base, k);
    LaterThanNext(base.tasks, k, x);
    assert AgreesOn(kernel, base, st, st', k, x);
    ExecGet(kernel, t, at', x);
    assert Values(at', t.inputs) == Values(at, t.inputs) by {
      forall i | 0 <= i < |t.inputs| ensures Get(at', t.inputs[i]) == Get(at, t.inputs[i]) {
        ReadAgrees(kernel, base, st, st', k, t.inputs[i]);
      }
    }
    ExecGet(kernel, t, at, x);
  }

  lemma RolloutNotProduced(base: Program, x: string)
    requires Fresh(base) && Buildable(base.tasks) && x in ROLLOUT_INPUTS
    ensures x !in Produced(Chain(base.tasks, |base.tasks|))
  {
    var T := base.tasks;
    ChainProduces(T, |T|, x);
    ProducedMember(T, x);
    forall b | 0 <= b < |T| && IsBwd(T, b) ensures Ctx(T, b) != x {
      CtxProduced(T, b);
    }
  }

  /** The rollout data reaches every head as it was supplied. */
  lemma RolloutKept(kernel: Kernel, base: Program, st: Store, st': Store, k: nat, x: string)
    requires Fresh(base) && Buildable(base.tasks) && k < |base.tasks| && BuildableAt(base.tasks, k)
    requires base.tasks[k].name.HeadLoss? && Agrees(kernel, base, st, st', k) && x in ROLLOUT_INPUTS
    ensures Get(RlAt(kernel, base, st', k), x) == Get(st', x)
  {
    var e := Emit(base.tasks, k);
    ReferencedMember(e, x);
    assert x in Reads(e[0]);
    EmittedReferenced(base.tasks, k, x);
    RolloutNotProduced(base, x);
    if x in Known(base, k) {
      NotARollout(base, k, x);
    }
    assert AgreesOn(kernel, base, st, st', k, x);
  }

  lemma HeadValues(kernel: Kernel, base: Program, st: Store, st': Store, k: nat)
    requires Valid(base) && Fresh(base) && Buildable(base.tasks) && k < |base.tasks| && PositionOk(base.tasks, k)
    requires base.tasks[k].name.HeadLoss? && Agrees(kernel, base, st, st', k)
    ensures var t, at := base.tasks[k], BaseAt(kernel, base, st, k);
      Values(RlAt(kernel, base, st', k), RlHead(t).inputs) ==
      [Get(at, t.inputs[0])] + Values(st', ROLLOUT_INPUTS) + [Get(at, t.inputs[|t.inputs| - 1])]
  {
    var t, at, at' := base.tasks[k], BaseAt(kernel, base, st, k), RlAt(kernel, base, st', k);
    var y, w := t.inputs[0], t.inputs[|t.inputs| - 1];
    ReadAgrees(kernel, base, st, st', k, y);
    ReadAgrees(kernel, base, st, st', k, w);
    assert Values(at', ROLLOUT_INPUTS) == Values(st', ROLLOUT_INPUTS) by {
      forall i | 0 <= i < |ROLLOUT_INPUTS| ensures Get(at', ROLLOUT_INPUTS[i]) == Get(st', ROLLOUT_INPUTS[i]) {
        RolloutKept(kernel, base, st, st', k, ROLLOUT_INPUTS[i]);
      }
    }
    HeadValuesConcat(at', y, ROLLOUT_INPUTS, w);
  }

  lemma HeadValuesConcat(st: Store, y: string, data: seq<string>, w: string)
    ensures Values(st, [y] + data + [w]) == [Get(st, y)] + Values(st, data) + [Get(st, w)]
  {
    ValuesConcat(st, [y], data);
    ValuesConcat(st, [y] + data, [w]);
    assert Values(st, [y]) == [Get(st, y)] && Values(st, [w]) == [Get(st, w)];
  }

  /** The five inputs of the replaced head, in order. */
  lemma HeadReads(st: Store, y: Value, w: Value)
    ensures [y] + Values(st, ROLLOUT_INPUTS) + [w] ==
      [y, Get(st, "actions_0_0"), Get(st, "old_logprobs_0_0"), Get(st, "advantages_0_0"), w]
  {
  }

  lemma HeadStep(kernel: Kernel, base: Program, st: Store, st': Store, k: nat, x: string)
    requires Valid(base) && Fresh(base) && Buildable(base.tasks) && k < |base.tasks| && PositionOk(base.tasks, k)
    requires base.tasks[k].name.HeadLoss? && HeadAgrees(kernel, base, st, st', k)
    requires Agrees(kernel, base, st, st', k) && x in Used(base.tasks)
    ensures AgreesOn(kernel, base, st, st', k + 1, x)
  {
    var t, at, at' := base.tasks[k], BaseAt(kernel, base, st, k), RlAt(kernel, base, st', k);
    RlStep(kernel, base, st', k);
    RunOne(kernel, RlHead(t), at');
    BaseStep(kernel, base, st, k);
    WritesKnown(base, k);
    LaterThanNext(base.tasks, k, x);
    assert AgreesOn(kernel, base, st, st', k, x);
    ExecGet(kernel, RlHead(t), at', x);
    ExecGet(kernel, t, at, x);
    if x in Writes(t) {
      HeadWrites(kernel, base, st, st', k, x);
    }
  }

  /** What the replaced head writes is what the standard head wrote. */
  lemma HeadWrites(kernel: Kernel, base: Program, st: Store, st': Store, k: nat, x: string)
    requires Valid(base) && Fresh(base) && Buildable(base.tasks) && k < |base.tasks| && PositionOk(base.tasks, k)
    requires base.tasks[k].name.HeadLoss? && HeadAgrees(kernel, base, st, st', k)
    requires Agrees(kernel, base, st, st', k) && x in Writes(base.tasks[k])
    ensures var t := base.tasks[k];
      Written(kernel, RlHead(t), Values(RlAt(kernel, base, st', k), RlHead(t).inputs), x) ==
      Written(kernel, t, Values(BaseAt(kernel, base, st, k), t.inputs), x)
  {
    var values := Values(RlAt(kernel, base, st', k), RlHead(base.tasks[k]).inputs);
    HeadReadsInputs(kernel, base, st, st', k);
    HeadWritten(kernel, base, st, st', k, values, x);
  }

  lemma HeadReadsInputs(kernel: Kernel, base: Program, st: Store, st': Store, k: nat)
    requires Valid(base) && Fresh(base) && Buildable(base.tasks) && k < |base.tasks| && PositionOk(base.tasks, k)
    requires base.tasks[k].name.HeadLoss? && Agrees(kernel, base, st, st', k)
    ensures Values(RlAt(kernel, base, st', k), RlHead(base.tasks[k]).inputs) == HeadInputs(kernel, base, st, st', k)
  {
    var t, at := base.tasks[k], BaseAt(kernel, base, st, k);
    HeadValues(kernel, base, st, st', k);
    HeadReads(st', Get(at, t.inputs[0]), Get(at, t.inputs[|t.inputs| - 1]));
  }

  lemma HeadWritten(kernel: Kernel, base: Program, st: Store, st': Store, k: nat, values: seq<Value>, x: string)
    requires k < |base.tasks| && base.tasks[k].name.HeadLoss? && base.tasks[k].inputs != []
    requires HeadAgrees(kernel, base, st, st', k) && x in Writes(base.tasks[k])
    requires values == HeadInputs(kernel, base, st, st', k)
    ensures var t := base.tasks[k];
      Written(kernel, RlHead(t), values, x) == Written(kernel, t, Values(BaseAt(kernel, base, st, k), t.inputs), x)
  {
  }

  /** After the recompute, everything the backward or a later block may read agrees. */
  lemma RecomputeStep(kernel: Kernel, base: Program, st: Store, st': Store, k: nat, x: string)
    requires Valid(base) && Buildable(base.tasks) && IsBwd(base.tasks, k) && PositionOk(base.tasks, k)
    requires Relies(kernel, base, st, st') && Agrees(kernel, base, st, st', k)
    requires x in Used(base.tasks) && x in Known(base, k) && !RebuiltLater(base.tasks, k + 1, x)
    ensures Get(Exec(kernel, Recompute(base.tasks[Fwd(base.tasks, k)]), RlAt(kernel, base, st', k)), x) ==
      Get(BaseAt(kernel, base, st, k), x)
  {
    var at, at' := BaseAt(kernel, base, st, k), RlAt(kernel, base, st', k);
    var rec := Recompute(base.tasks[Fwd(base.tasks, k)]);
    ExecGet(kernel, rec, at', x);
    RecomputeWrites(base.tasks[Fwd(base.tasks, k)]);
    if x == Ctx(base.tasks, k) {
      RecomputeReads(kernel, base, st, st', k);
      RecomputedContext(kernel, base, st, st', k);
    } else {
      LaterThanNext(base.tasks, k, x);
      assert AgreesOn(kernel, base, st, st', k, x);
    }
  }

  lemma RecomputeReads(kernel: Kernel, base: Program, st: Store, st': Store, k: nat)
    requires Valid(base) && Buildable(base.tasks) && IsBwd(base.tasks, k) && PositionOk(base.tasks, k)
    requires Agrees(kernel, base, st, st', k)
    ensures var rec := Recompute(base.tasks[Fwd(base.tasks, k)]);
      Values(RlAt(kernel, base, st', k), rec.inputs) == Values(BaseAt(kernel, base, st, k), rec.inputs)
  {
    var at, at' := BaseAt(kernel, base, st, k), RlAt(kernel, base, st', k);
    var rec := Recompute(base.tasks[Fwd(base.tasks, k)]);
    RecomputeInputs(base, k);
    forall i | 0 <= i < |rec.inputs| ensures Get(at', rec.inputs[i]) == Get(at, rec.inputs[i]) {
      ReadAgrees(kernel, base, st, st', k, rec.inputs[i]);
    }
  }

  lemma BwdReads(kernel: Kernel, base: Program, st: Store, st': Store, k: nat)
    requires Valid(base) && Buildable(base.tasks) && IsBwd(base.tasks, k) && PositionOk(base.tasks, k)
    requires Relies(kernel, base, st, st') && Agrees(kernel, base, st, st', k)
    ensures var t := base.tasks[k];
      Values(Exec(kernel, Recompute(base.tasks[Fwd(base.tasks, k)]), RlAt(kernel, base, st', k)), t.inputs) ==
      Values(BaseAt(kernel, base, st, k), t.inputs)
  {
    var t, at := base.tasks[k], BaseAt(kernel, base, st, k);
    var at' := Exec(kernel, Recompute(base.tasks[Fwd(base.tasks, k)]), RlAt(kernel, base, st', k));
    BlockReadsKnown(base, k);
    forall i | 0 <= i < |t.inputs| ensures Get(at', t.inputs[i]) == Get(at, t.inputs[i]) {
      BlockReadsReferenced(base.tasks, k, t.inputs[i]);
      RecomputeStep(kernel, base, st, st', k, t.inputs[i]);
    }
  }

  lemma BwdStep(kernel: Kernel, base: Program, st: Store, st': Store, k: nat, x: string)
    requires Valid(base) && Buildable(base.tasks) && IsBwd(base.tasks, k) && PositionOk(base.tasks, k)
    requires Relies(kernel, base, st, st') && Agrees(kernel, base, st, st', k) && x in Used(base.tasks)
    ensures AgreesOn(kernel, base, st, st', k + 1, x)
  {
    var t, at, at' := base.tasks[k], BaseAt(kernel, base, st, k), RlAt(kernel, base, st', k);
    var rec := Recompute(base.tasks[Fwd(base.tasks, k)]);
    RlStep(kernel, base, st', k);
    RunTwo(kernel, rec, t, at');
    BaseStep(kernel, base, st, k);
    WritesKnown(base, k);
    ExecGet(kernel, t, Exec(kernel, rec, at'), x);
    ExecGet(kernel, t, at, x);
    if x in Writes(t) {
      BwdReads(kernel, base, st, st', k);
    } else if x in Known(base, k) && !RebuiltLater(base.tasks, k + 1, x) {
      RecomputeStep(kernel, base, st, st', k, x);
    } else if x !in Known(base, k) && x !in Produced(Chain(base.tasks, |base.tasks|)) {
      RecomputeTouchesOnlyContext(kernel, base, st', k, x);
      assert AgreesOn(kernel, base, st, st', k, x);
    }
  }

  lemma RecomputeTouchesOnlyContext(kernel: Kernel, base: Program, st': Store, k: nat, x: string)
    requires Buildable(base.tasks) && IsBwd(base.tasks, k) && BuildableAt(base.tasks, k)
    requires x !in Produced(Chain(base.tasks, |base.tasks|))
    ensures Get(Exec(kernel, Recompute(base.tasks[Fwd(base.tasks, k)]), RlAt(kernel, base, st', k)), x) ==
      Get(RlAt(kernel, base, st', k), x)
  {
    var rec := Recompute(base.tasks[Fwd(base.tasks, k)]);
    ChainProduces(base.tasks, |base.tasks|, x);
    RecomputeWrites(base.tasks[Fwd(base.tasks, k)]);
    ExecGet(kernel, rec, RlAt(kernel, base, st', k), x);
  }

  lemma StepAgrees(kernel: Kernel, base: Program, st: Store, st': Store, k: nat, x: string)
    requires Valid(base) && Fresh(base) && Buildable(base.tasks) && k < |base.tasks| && PositionOk(base.tasks, k)
    requires Relies(kernel, base, st, st') && Agrees(kernel, base, st, st', k) && x in Used(base.tasks)
    ensures AgreesOn(kernel, base, st, st', k + 1, x)
  {
    var t := base.tasks[k];
    if Dropped(t) {
      assert AgreesOn(kernel, base, st, st', k, x);
      DroppedStep(kernel, base, st, st', k, x);
    } else if t.name.HeadLoss? {
      assert ReliesAt(kernel, base, st, st', k);
      HeadStep(kernel, base, st, st', k, x);
    } else if t.name.BlockBwd? {
      BwdStep(kernel, base, st, st', k, x);
    } else {
      PlainStep(kernel, base, st, st', k, x);
    }
  }

  lemma {:induction false} AgreesAlong(kernel: Kernel, base: Program, st: Store, st': Store, k: nat)
    requires Valid(base) && Fresh(base) && Buildable(base.tasks) && InTimeEverywhere(base.tasks)
    requires Relies(kernel, base, st, st') && k <= |base.tasks|
    ensures Agrees(kernel, base, st, st', k)
  {
    if k == 0 {
      assert Produced(base.tasks[..0]) == {};
    } else {
      AgreesAlong(kernel, base, st, st', k - 1);
      assert PositionOk(base.tasks, k - 1);
      forall x | x in Used(base.tasks) ensures AgreesOn(kernel, base, st, st', k, x) {
        StepAgrees(kernel, base, st, st', k - 1, x);
      }
    }
  }

  /** The RL program trains as the standard one does: given the checkpointed values of what its
      dropped forwards produced, and a head that agrees on them, every object its tasks read or write
      and the standard run knows -- weights, gradients, optimizer state -- ends with the same value. */
  lemma RlRunsAsBase(kernel: Kernel, base: Program, rows: int, rl: Program, st: Store, st': Store, x: string)
    requires Valid(base) && Fresh(base) && IsRlOf(base, rows, rl) && Valid(rl) && rows >= 1
    requires Relies(kernel, base, st, st')
    requires x in Referenced(rl.tasks) + Produced(rl.tasks) && x !in Rollouts()
    ensures Get(Run(kernel, rl.tasks, st'), x) == Get(Run(kernel, base.tasks, st), x)
  {
    var T := base.tasks;
    RlValidExactlyWhenRewritable(base, rows, rl);
    AgreesAlong(kernel, base, st, st', |T|);
    assert T[..|T|] == T;
    UsedIsKnown(base, x);
    assert AgreesOn(kernel, base, st, st', |T|, x);
  }

  lemma UsedIsKnown(base: Program, x: string)
    requires Valid(base) && Buildable(base.tasks) && x in Used(base.tasks) && x !in Rollouts()
    ensures x in Known(base, |base.tasks|)
  {
    var T := base.tasks;
    assert T[..|T|] == T;
    if x in Produced(Chain(T, |T|)) {
      ChainProduces(T, |T|, x);
      ProducedMember(T, x);
      if b :| 0 <= b < |T| && IsBwd(T, b) && Ctx(T, b) == x {
        CtxProduced(T, b);
      }
    } else {
      PromotionIsDefined(base);
    }
  }
}
