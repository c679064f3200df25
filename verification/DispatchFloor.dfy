/** The dispatch-floor program generator and the directive semantics it must respect: tasks run in
    chain order, and on completion a task's releases, offloads and prefetches take effect. */
module DispatchFloor {

  datatype Obj = X(i: nat) | A(i: nat) | W(j: nat)

  datatype Task = Task(
    inputs: seq<Obj>, outputs: seq<Obj>, releases: seq<Obj>, offloads: seq<Obj>, prefetches: seq<Obj>)

  datatype Shape = Minimal | Block | Production

  const WEIGHTS := 8
  const LEAD := 4

  // ---------------------------------------------------------------- the generator

  function InitialObjects(shape: Shape): seq<Obj> {
    [X(0)] + if shape == Minimal then [] else seq(WEIGHTS, j requires 0 <= j < WEIGHTS => W(j))
  }

  function Inputs(shape: Shape, i: nat): seq<Obj> {
    match shape
    case Minimal => [X(i)]
    case Block => [X(i), W(i % WEIGHTS), W((i + 1) % WEIGHTS)]
    case Production => [X(i), W(i % WEIGHTS)]
  }

  function Outputs(shape: Shape, i: nat): seq<Obj> {
    if shape == Minimal then [X(i + 1)] else [X(i + 1), A(i)]
  }

  function Releases(shape: Shape, i: nat): seq<Obj> {
    if shape == Minimal || i == 0 then [X(i)] else [X(i), A(i - 1)]
  }

  function Offloads(shape: Shape, n: nat, i: nat): seq<Obj> {
    if shape == Production && i + LEAD < n then [W(i % WEIGHTS)] else []
  }

  function Prefetches(shape: Shape, n: nat, i: nat): seq<Obj> {
    if shape == Production && i >= LEAD && i + LEAD < n then [W((i - LEAD) % WEIGHTS)] else []
  }

  function TaskAt(shape: Shape, n: nat, i: nat): Task {
    Task(Inputs(shape, i), Outputs(shape, i), Releases(shape, i), Offloads(shape, n, i), Prefetches(shape, n, i))
  }

  /** The generator's loop. The offload guard is written as in the source, over the ring size. */
  method BuildProgram(shape: Shape, n: nat) returns (initial: seq<Obj>, tasks: seq<Task>)
    ensures initial == InitialObjects(shape)
    ensures |tasks| == n && forall i :: 0 <= i < n ==> tasks[i] == TaskAt(shape, n, i)
  {
    initial := [X(0)];
    if shape != Minimal {
      for j := 0 to WEIGHTS
        invariant initial == [X(0)] + seq(j, k requires 0 <= k < j => W(k))
      {
        initial := initial + [W(j)];
      }
    }
    tasks := [];
    for i := 0 to n
      invariant |tasks| == i && forall k :: 0 <= k < i ==> tasks[k] == TaskAt(shape, n, k)
    {
      var inputs, outputs, releases := [X(i)], [X(i + 1)], [X(i)];
      if shape != Minimal {
        inputs := [X(i), W(i % WEIGHTS), W((i + 1) % WEIGHTS)];
        outputs := [X(i + 1), A(i)];
        if i > 0 {
          releases := [X(i), A(i - 1)];
        }
      }
      var offloads, prefetches := [], [];
      if shape == Production {
        inputs := [X(i), W(i % WEIGHTS)];
        if i + WEIGHTS - LEAD < n {
          offloads := [W(i % WEIGHTS)];
        }
        if i >= LEAD && i - LEAD + WEIGHTS < n {
          prefetches := [W((i - LEAD) % WEIGHTS)];
        }
      }
      tasks := tasks + [Task(inputs, outputs, releases, offloads, prefetches)];
    }
  }

  // ---------------------------------------------------------------- the directive semantics

  /** What is in fast memory, what has a backing copy, what was ever produced and ever released. */
  datatype Memory = Memory(fast: set<Obj>, backing: set<Obj>, made: set<Obj>, freed: set<Obj>)

  function Members(s: seq<Obj>): set<Obj> {
    set o | o in s
  }

  function Start(initial: seq<Obj>): Memory {
    Memory(Members(initial), {}, Members(initial), {})
  }

  /** Fast memory while a task runs. */
  function During(m: Memory, t: Task): set<Obj> {
    m.fast + Members(t.outputs)
  }

  /** Fast memory once its releases and offloads have taken effect. */
  function Drained(m: Memory, t: Task): set<Obj> {
    During(m, t) - Members(t.releases) - Members(t.offloads)
  }

  /** A task may run: its inputs are resident, its outputs are new, it releases and offloads only what
      is there, once, and prefetches only what is away and has a backing copy. */
  ghost predicate CanRun(m: Memory, t: Task) {
    && Members(t.inputs) <= m.fast && Members(t.outputs) !! m.made
    && Members(t.releases) <= During(m, t) && Members(t.releases) !! m.freed
    && Members(t.offloads) <= During(m, t) - Members(t.releases)
    && Members(t.prefetches) <= m.backing + Members(t.offloads) && Members(t.prefetches) !! Drained(m, t)
  }

  function After(m: Memory, t: Task): Memory {
    Memory(Drained(m, t) + Members(t.prefetches), m.backing + Members(t.offloads),
           m.made + Members(t.outputs), m.freed + Members(t.releases))
  }

  // ---------------------------------------------------------------- the state before each task

  /** Weight `j` is away before task `i`: its last use `k` offloaded it, and its prefetch is still to
      come or is never issued because it is not used again. */
  ghost predicate Away(shape: Shape, n: nat, i: nat, j: nat) {
    shape == Production && exists k: nat {:trigger k % WEIGHTS} :: k % WEIGHTS == j && AwaySince(n, i, k)
  }

  predicate AwaySince(n: nat, i: nat, k: nat) {
    k < i && i <= k + WEIGHTS && k + LEAD < n && (i <= k + LEAD || n <= k + WEIGHTS)
  }

  /** What is in fast memory before task `i`. */
  ghost predicate IsFast(shape: Shape, n: nat, i: nat, o: Obj) {
    match o
    case X(k) => k == i
    case A(k) => shape != Minimal && k + 1 == i
    case W(j) => shape != Minimal && j < WEIGHTS && !Away(shape, n, i, j)
  }

  /** A weight offloaded by some task before `i`. */
  ghost predicate IsBacked(shape: Shape, n: nat, i: nat, o: Obj) {
    shape == Production && o.W? && exists k: nat {:trigger k % WEIGHTS} :: k < i && k + LEAD < n && o.j == k % WEIGHTS
  }

  ghost predicate IsMade(shape: Shape, i: nat, o: Obj) {
    match o
    case X(k) => k <= i
    case A(k) => shape != Minimal && k < i
    case W(j) => shape != Minimal && j < WEIGHTS
  }

  ghost predicate IsFreed(shape: Shape, i: nat, o: Obj) {
    match o
    case X(k) => k < i
    case A(k) => shape != Minimal && k + 1 < i
    case W(_) => false
  }

  /** The memory is the one before task `i`. */
  ghost predicate Before(shape: Shape, n: nat, i: nat, m: Memory) {
    && (forall o :: o in m.fast <==> IsFast(shape, n, i, o))
    && (forall o :: o in m.backing <==> IsBacked(shape, n, i, o))
    && (forall o :: o in m.made <==> IsMade(shape, i, o))
    && (forall o :: o in m.freed <==> IsFreed(shape, i, o))
  }

  lemma StartsBefore(shape: Shape, n: nat)
    ensures Before(shape, n, 0, Start(InitialObjects(shape)))
  {
    var initial := InitialObjects(shape);
    forall o ensures o in initial <==> o == X(0) || (shape != Minimal && o.W? && o.j < WEIGHTS) {
      if shape != Minimal && o.W? && o.j < WEIGHTS {
        assert initial[1 + o.j] == o;
      }
    }
  }

  /** The weight a task uses came back after its last offload. */
  lemma UsedWeightIsBack(shape: Shape, n: nat, i: nat)
    requires i < n && shape != Minimal
    ensures !Away(shape, n, i, i % WEIGHTS)
    ensures shape == Block ==> !Away(shape, n, i, (i + 1) % WEIGHTS)
  {
    forall k: nat | k < i && i <= k + WEIGHTS && k % WEIGHTS == i % WEIGHTS ensures k + WEIGHTS == i {
    }
  }

  // ---------------------------------------------------------------- one task

  /** Task `i` offloads weight `j`. */
  predicate Offloaded(shape: Shape, n: nat, i: nat, j: nat) {
    shape == Production && i + LEAD < n && j == i % WEIGHTS
  }

  predicate Prefetched(shape: Shape, n: nat, i: nat, j: nat) {
    shape == Production && i >= LEAD && i + LEAD < n && j == (i - LEAD) % WEIGHTS
  }

  /** A prefetched weight is away when its prefetch fires, offloaded exactly four tasks earlier. */
  lemma PrefetchedIsAway(n: nat, i: nat, j: nat)
    requires i < n && Prefetched(Production, n, i, j)
    ensures Away(Production, n, i, j) && Offloaded(Production, n, i - LEAD, j) && j != i % WEIGHTS
  {
    assert (i - LEAD) % WEIGHTS == j;
  }

  lemma AwayOnlyFrom(n: nat, i: nat, j: nat)
    requires i < n && j < WEIGHTS
    ensures Away(Production, n, i + 1, j) ==>
      (Away(Production, n, i, j) || Offloaded(Production, n, i, j)) && !Prefetched(Production, n, i, j)
  {
    if k: nat :| k % WEIGHTS == j && AwaySince(n, i + 1, k) {
      assert k == i ==> Offloaded(Production, n, i, j);
    }
  }

  lemma AwayAfter(n: nat, i: nat, j: nat)
    requires i < n && j < WEIGHTS
    ensures (Away(Production, n, i, j) && !Prefetched(Production, n, i, j)) || Offloaded(Production, n, i, j) ==>
      Away(Production, n, i + 1, j)
  {
    if Offloaded(Production, n, i, j) {
      assert i % WEIGHTS == j;
    } else if k: nat :| k % WEIGHTS == j && AwaySince(n, i, k) {
      if !Prefetched(Production, n, i, j) {
        assert k + LEAD != i || n <= k + WEIGHTS;
      }
    }
  }

  lemma AwayStep(shape: Shape, n: nat, i: nat, j: nat)
    requires i < n && j < WEIGHTS
    ensures Away(shape, n, i + 1, j) <==>
      (Away(shape, n, i, j) || Offloaded(shape, n, i, j)) && !Prefetched(shape, n, i, j)
  {
    if shape == Production {
      AwayOnlyFrom(n, i, j);
      AwayAfter(n, i, j);
      if Prefetched(shape, n, i, j) {
        PrefetchedIsAway(n, i, j);
      }
    }
  }

  lemma BackedStep(shape: Shape, n: nat, i: nat, o: Obj)
    ensures IsBacked(shape, n, i + 1, o) <==> IsBacked(shape, n, i, o) || (o.W? && Offloaded(shape, n, i, o.j))
  {
    if o.W? && Offloaded(shape, n, i, o.j) {
      assert o.j == i % WEIGHTS;
    }
  }

  lemma DirectiveMembers(shape: Shape, n: nat, i: nat, o: Obj)
    ensures o in Members(Offloads(shape, n, i)) <==> o.W? && Offloaded(shape, n, i, o.j)
    ensures o in Members(Prefetches(shape, n, i)) <==> o.W? && Prefetched(shape, n, i, o.j)
  {
  }

  lemma TaskCanRun(shape: Shape, n: nat, i: nat, m: Memory)
    requires i < n && Before(shape, n, i, m)
    ensures CanRun(m, TaskAt(shape, n, i))
  {
    var t := TaskAt(shape, n, i);
    if shape != Minimal {
      UsedWeightIsBack(shape, n, i);
    }
    forall o | o in Members(t.prefetches) ensures o in m.backing && o !in Drained(m, t) {
      DirectiveMembers(shape, n, i, o);
      PrefetchedIsAway(n, i, o.j);
      assert IsBacked(shape, n, i, o) by {
        assert o.j == (i - LEAD) % WEIGHTS;
      }
    }
    forall o | o in Members(t.offloads) ensures o in During(m, t) - Members(t.releases) {
      DirectiveMembers(shape, n, i, o);
    }
  }

  lemma FastAfter(shape: Shape, n: nat, i: nat, m: Memory, o: Obj)
    requires i < n && Before(shape, n, i, m)
    ensures o in After(m, TaskAt(shape, n, i)).fast <==> IsFast(shape, n, i + 1, o)
  {
    DirectiveMembers(shape, n, i, o);
    if o.W? && o.j < WEIGHTS {
      AwayStep(shape, n, i, o.j);
    }
  }

  lemma TaskKeepsState(shape: Shape, n: nat, i: nat, m: Memory)
    requires i < n && Before(shape, n, i, m)
    ensures Before(shape, n, i + 1, After(m, TaskAt(shape, n, i)))
  {
    var after := After(m, TaskAt(shape, n, i));
    forall o ensures o in after.fast <==> IsFast(shape, n, i + 1, o) {
      FastAfter(shape, n, i, m, o);
    }
    forall o ensures o in after.backing <==> IsBacked(shape, n, i + 1, o) {
      DirectiveMembers(shape, n, i, o);
      BackedStep(shape, n, i, o);
    }
  }

  // ---------------------------------------------------------------- the whole chain

  /** The memory after the first `i` tasks, if each of them could run. */
  ghost function Run(tasks: seq<Task>, start: Memory, i: nat): (m: Memory)
    requires i <= |tasks|
  {
    if i == 0 then start else After(Run(tasks, start, i - 1), tasks[i - 1])
  }

  ghost predicate IsProgram(shape: Shape, n: nat, tasks: seq<Task>) {
    |tasks| == n && forall i :: 0 <= i < n ==> tasks[i] == TaskAt(shape, n, i)
  }

  lemma {:induction false} RunIsBefore(shape: Shape, n: nat, tasks: seq<Task>, i: nat)
    requires IsProgram(shape, n, tasks) && i <= n
    ensures Before(shape, n, i, Run(tasks, Start(InitialObjects(shape)), i))
  {
    if i == 0 {
      StartsBefore(shape, n);
    } else {
      var m := Run(tasks, Start(InitialObjects(shape)), i - 1);
      RunIsBefore(shape, n, tasks, i - 1);
      TaskKeepsState(shape, n, i - 1, m);
    }
  }

  lemma {:induction false} SubsetSize(a: set<Obj>, b: set<Obj>)
    requires a <= b
    ensures |a| <= |b|
  {
    if x :| x in a {
      SubsetSize(a - {x}, b - {x});
    }
  }

  function Weights(s: set<Obj>): set<Obj> {
    set o | o in s && o.W?
  }

  function Others(s: set<Obj>): set<Obj> {
    set o | o in s && !o.W?
  }

  lemma SplitSize(s: set<Obj>)
    ensures |s| == |Weights(s)| + |Others(s)|
  {
    assert s == Weights(s) + Others(s);
  }

  lemma {:induction false} RingBound(s: set<Obj>, n: nat)
    requires forall o :: o in s ==> o.W? && o.j < n
    ensures |s| <= n
    ensures (forall j: nat :: j < n ==> W(j) in s) ==> |s| == n
  {
    if n == 0 {
      assert s == {};
    } else {
      var rest := s - {W(n - 1)};
      RingBound(rest, n - 1);
      if forall j: nat :: j < n ==> W(j) in s {
        assert forall j: nat :: j < n - 1 ==> W(j) in rest;
      }
    }
  }

  /** At most twelve objects are live while a task runs: the ring, and two generations of `x` and `a`. */
  lemma LiveBound(shape: Shape, n: nat, i: nat, m: Memory)
    requires i < n && Before(shape, n, i, m)
    ensures |During(m, TaskAt(shape, n, i))| <= 12
  {
    var live := During(m, TaskAt(shape, n, i));
    SplitSize(live);
    RingBound(Weights(live), WEIGHTS);
    OthersBound(shape, n, i, m);
  }

  lemma OthersBound(shape: Shape, n: nat, i: nat, m: Memory)
    requires i < n && Before(shape, n, i, m)
    ensures |Others(During(m, TaskAt(shape, n, i)))| <= 4
  {
    var few := {X(i), X(i + 1), A(i), if i > 0 then A(i - 1) else A(i)};
    SubsetSize(Others(During(m, TaskAt(shape, n, i))), few);
  }

  /** For every length and shape, every task of the generated chain can run when its turn comes: its
      weight has been prefetched since its last offload, nothing is offloaded while absent or
      prefetched while present or without an earlier offload, every `x` and `a` is produced once and
      released at most once, and at most twelve objects are live. */
  lemma ChainRuns(shape: Shape, n: nat, tasks: seq<Task>, i: nat)
    requires IsProgram(shape, n, tasks) && i < n
    ensures CanRun(Run(tasks, Start(InitialObjects(shape)), i), tasks[i])
    ensures |During(Run(tasks, Start(InitialObjects(shape)), i), tasks[i])| <= 12
  {
    var m := Run(tasks, Start(InitialObjects(shape)), i);
    RunIsBefore(shape, n, tasks, i);
    TaskCanRun(shape, n, i, m);
    LiveBound(shape, n, i, m);
  }

  /** Every prefetch is used: four tasks later, with the weight resident all the while. */
  lemma PrefetchIsUsed(n: nat, tasks: seq<Task>, i: nat, j: nat)
    requires IsProgram(Production, n, tasks) && i < n && W(j) in tasks[i].prefetches
    ensures i + LEAD < n && W(j) in tasks[i + LEAD].inputs
    ensures forall k :: i < k <= i + LEAD ==> W(j) in Run(tasks, Start(InitialObjects(Production)), k).fast
  {
    DirectiveMembers(Production, n, i, W(j));
    assert (i + LEAD) % WEIGHTS == (i - LEAD) % WEIGHTS;
    forall k | i < k <= i + LEAD ensures W(j) in Run(tasks, Start(InitialObjects(Production)), k).fast {
      RunIsBefore(Production, n, tasks, k);
      StaysBack(n, i, j, k);
    }
  }

  lemma StaysBack(n: nat, i: nat, j: nat, k: nat)
    requires i < n && Prefetched(Production, n, i, j) && i < k <= i + LEAD
    ensures !Away(Production, n, k, j)
  {
    forall u: nat | u < k && k <= u + WEIGHTS && u % WEIGHTS == j ensures u + LEAD == i {
      assert j == (i - LEAD) % WEIGHTS;
    }
  }

  // ---------------------------------------------------------------- declared capacities

  const MIB := 1024 * 1024

  function FastCapacity(n: nat, size: nat): nat {
    if 8 * n * size > 64 * MIB then 8 * n * size else 64 * MIB
  }

  function BackingCapacity(size: nat): nat {
    if 4 * WEIGHTS * size > 64 * MIB then 4 * WEIGHTS * size else 64 * MIB
  }

  ghost function LiveAt(shape: Shape, tasks: seq<Task>, i: nat): nat
    requires i < |tasks|
  {
    |During(Run(tasks, Start(InitialObjects(shape)), i), tasks[i])|
  }

  /** The declared fast capacity holds a task's live objects exactly in the minimal shape, from two
      tasks on, or when eleven objects fit into 64 MiB. */
  lemma FastCapacityExactly(shape: Shape, n: nat, tasks: seq<Task>, size: nat, i: nat)
    requires IsProgram(shape, n, tasks) && i < n
    ensures LiveAt(shape, tasks, i) * size <= FastCapacity(n, size) <==>
      shape == Minimal || n >= 2 || 11 * size <= 64 * MIB
  {
    if shape == Minimal {
      MinimalLive(n, tasks, i);
      TwoFit(LiveAt(shape, tasks, i), n, size);
    } else if n >= 2 {
      ChainRuns(shape, n, tasks, i);
      TwelveFit(LiveAt(shape, tasks, i), n, size);
    } else {
      OnlyTask(shape, tasks);
    }
  }

  lemma MinimalLive(n: nat, tasks: seq<Task>, i: nat)
    requires IsProgram(Minimal, n, tasks) && i < n
    ensures LiveAt(Minimal, tasks, i) <= 2
  {
    RunIsBefore(Minimal, n, tasks, i);
    var m := Run(tasks, Start(InitialObjects(Minimal)), i);
    SubsetSize(During(m, tasks[i]), {X(i), X(i + 1)});
  }

  lemma TwoFit(live: nat, n: nat, size: nat)
    requires live <= 2 && n >= 1
    ensures live * size <= 8 * n * size
  {
    assert live * size <= 2 * size;
    assert 8 * size <= 8 * n * size;
  }

  lemma TwelveFit(live: nat, n: nat, size: nat)
    requires live <= 12 && n >= 2
    ensures live * size <= 8 * n * size
  {
    assert live * size <= 12 * size;
    assert 16 * size <= 8 * n * size;
  }

  lemma WholeRing(shape: Shape, n: nat, m: Memory)
    requires n > 0 && shape != Minimal && Before(shape, n, 0, m)
    ensures |Weights(During(m, TaskAt(shape, n, 0)))| == WEIGHTS
  {
    var ring := Weights(During(m, TaskAt(shape, n, 0)));
    forall j: nat | j < WEIGHTS ensures W(j) in ring {
      assert IsFast(shape, n, 0, W(j));
    }
    RingBound(ring, WEIGHTS);
  }

  lemma FirstOthers(shape: Shape, n: nat, m: Memory)
    requires n > 0 && shape != Minimal && Before(shape, n, 0, m)
    ensures |Others(During(m, TaskAt(shape, n, 0)))| == 3
  {
    assert IsFast(shape, n, 0, X(0));
    assert Others(During(m, TaskAt(shape, n, 0))) == {X(0), X(1), A(0)};
  }

  lemma OnlyTask(shape: Shape, tasks: seq<Task>)
    requires IsProgram(shape, 1, tasks) && shape != Minimal
    ensures LiveAt(shape, tasks, 0) == 11
  {
    var m := Start(InitialObjects(shape));
    StartsBefore(shape, 1);
    WholeRing(shape, 1, m);
    FirstOthers(shape, 1, m);
    SplitSize(During(m, TaskAt(shape, 1, 0)));
  }

  /** Everything ever offloaded fits into the declared backing capacity. */
  lemma BackingCapacitySuffices(shape: Shape, n: nat, tasks: seq<Task>, size: nat, i: nat)
    requires IsProgram(shape, n, tasks) && i <= n
    ensures |Run(tasks, Start(InitialObjects(shape)), i).backing| * size <= BackingCapacity(size)
  {
    var backing := Run(tasks, Start(InitialObjects(shape)), i).backing;
    RunIsBefore(shape, n, tasks, i);
    RingBound(backing, WEIGHTS);
    EightFit(|backing|, size);
  }

  lemma EightFit(live: nat, size: nat)
    requires live <= 8
    ensures live * size <= 32 * size
  {
  }
}
