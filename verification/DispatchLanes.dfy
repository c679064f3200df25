/** The dispatch-floor program under asynchronous transfers: offloads and prefetches queue on two
    first-in first-out lanes and finish whenever they finish, and a prefetch waits for the offload of
    its object. In every interleaving the chain runs to its end. */
module DispatchLanes {
  import opened DispatchFloor

  /** Tasks run so far, offloads and prefetches under way, and what each memory holds. A weight leaves
      fast memory when its offload finishes and enters it when its prefetch does. */
  datatype Lanes = Lanes(done: nat, leaving: seq<Obj>, coming: seq<Obj>, fast: set<Obj>, backing: set<Obj>)

  datatype Event = RunTask | FinishOffload | FinishPrefetch

  function Begin(shape: Shape): Lanes {
    Lanes(0, [], [], Members(InitialObjects(shape)), {})
  }

  /** The next task's inputs are resident and not on their way out. */
  ghost predicate Ready(tasks: seq<Task>, s: Lanes) {
    s.done < |tasks| && Members(tasks[s.done].inputs) <= s.fast - Members(s.leaving)
  }

  ghost predicate Enabled(tasks: seq<Task>, s: Lanes, e: Event) {
    match e
    case RunTask => Ready(tasks, s)
    case FinishOffload => s.leaving != []
    case FinishPrefetch => s.coming != [] && s.coming[0] in s.backing && s.coming[0] !in s.leaving
  }

  ghost function Next(tasks: seq<Task>, s: Lanes, e: Event): Lanes
    requires Enabled(tasks, s, e)
  {
    match e
    case RunTask =>
      var t := tasks[s.done];
      s.(done := s.done + 1, leaving := s.leaving + t.offloads, coming := s.coming + t.prefetches,
         fast := s.fast + Members(t.outputs) - Members(t.releases))
    case FinishOffload =>
      s.(leaving := s.leaving[1..], fast := s.fast - {s.leaving[0]}, backing := s.backing + {s.leaving[0]})
    case FinishPrefetch =>
      s.(coming := s.coming[1..], fast := s.fast + {s.coming[0]})
  }

  ghost predicate IsRun(shape: Shape, tasks: seq<Task>, states: seq<Lanes>, events: seq<Event>) {
    && |states| == |events| + 1 && states[0] == Begin(shape)
    && forall k :: 0 <= k < |events| ==>
         Enabled(tasks, states[k], events[k]) && states[k + 1] == Next(tasks, states[k], events[k])
  }

  // ---------------------------------------------------------------- counting transfers

  /** How many offloads the first `d` tasks issued: task `k` issues the `k`-th, of weight `k % 8`. */
  function Issued(shape: Shape, n: nat, d: nat): nat {
    if shape != Production || n < LEAD then 0 else if d + LEAD <= n then d else n - LEAD
  }

  /** How many prefetches: task `k + 4` issues the `k`-th, of the weight of the `k`-th offload. */
  function Called(shape: Shape, n: nat, d: nat): nat {
    var issued := Issued(shape, n, d);
    if issued < LEAD then 0 else issued - LEAD
  }

  /** The weights of transfers number `lo` to `hi`. */
  function Ring(lo: nat, hi: nat): (r: seq<Obj>)
    requires lo <= hi
    ensures |r| == hi - lo && forall i :: 0 <= i < |r| ==> r[i] == W((lo + i) % WEIGHTS)
  {
    seq(hi - lo, i requires 0 <= i < hi - lo => W((lo + i) % WEIGHTS))
  }

  /** A transfer of weight `j` with a number from `lo` below `hi`. */
  ghost predicate Among(lo: nat, hi: nat, j: nat) {
    exists k: nat {:trigger k % WEIGHTS} :: lo <= k < hi && k % WEIGHTS == j
  }

  lemma RingMembers(lo: nat, hi: nat, o: Obj)
    requires lo <= hi
    ensures o in Ring(lo, hi) <==> o.W? && Among(lo, hi, o.j)
  {
    if o.W? && Among(lo, hi, o.j) {
      var k: nat :| lo <= k < hi && k % WEIGHTS == o.j;
      assert Ring(lo, hi)[k - lo] == o;
    }
    if o in Ring(lo, hi) {
      var i :| 0 <= i < hi - lo && Ring(lo, hi)[i] == o;
      assert (lo + i) % WEIGHTS == o.j;
    }
  }

  lemma RingGrows(lo: nat, hi: nat)
    requires lo <= hi
    ensures Ring(lo, hi + 1) == Ring(lo, hi) + [W(hi % WEIGHTS)]
  {
  }

  lemma RingShrinks(lo: nat, hi: nat)
    requires lo < hi
    ensures Ring(lo, hi)[0] == W(lo % WEIGHTS) && Ring(lo, hi)[1..] == Ring(lo + 1, hi)
  {
  }

  /** What is in fast memory once `d` tasks ran, `o` offloads and `p` prefetches finished: a weight is
      away while its offload has finished and its prefetch has not. */
  ghost predicate Resident(shape: Shape, d: nat, o: nat, p: nat, x: Obj) {
    match x
    case X(k) => k == d
    case A(k) => shape != Minimal && k + 1 == d
    case W(j) => shape != Minimal && j < WEIGHTS && !Among(p, o, j)
  }

  ghost predicate FastAt(shape: Shape, s: Lanes, o: nat, p: nat, x: Obj) {
    x in s.fast <==> Resident(shape, s.done, o, p, x)
  }

  ghost predicate BackedAt(s: Lanes, o: nat, x: Obj) {
    x in s.backing <==> x.W? && Among(0, o, x.j)
  }

  /** The state is the one with these counts. */
  ghost predicate Counted(shape: Shape, n: nat, s: Lanes, o: nat, p: nat) {
    && s.done <= n && p <= o <= Issued(shape, n, s.done) && p <= Called(shape, n, s.done)
    && (shape == Production ==> s.done <= p + WEIGHTS)
    && s.leaving == Ring(o, Issued(shape, n, s.done)) && s.coming == Ring(p, Called(shape, n, s.done))
    && (forall x {:trigger FastAt(shape, s, o, p, x)} :: FastAt(shape, s, o, p, x))
    && (forall x {:trigger BackedAt(s, o, x)} :: BackedAt(s, o, x))
  }

  lemma BeginsCounted(shape: Shape, n: nat)
    ensures Counted(shape, n, Begin(shape), 0, 0)
  {
    StartsBefore(shape, n);
    forall x ensures FastAt(shape, Begin(shape), 0, 0, x) {
      assert x in Begin(shape).fast <==> IsFast(shape, n, 0, x);
    }
  }

  // ---------------------------------------------------------------- when steps are enabled

  /** Among eight consecutive numbers, each weight has one. */
  lemma OneTurn(lo: nat, hi: nat, k: nat)
    requires lo <= k < hi <= lo + WEIGHTS
    ensures !Among(lo, k, k % WEIGHTS) && !Among(k + 1, hi, k % WEIGHTS)
  {
  }

  lemma InputsThere(inputs: seq<Obj>, fast: set<Obj>, leaving: seq<Obj>)
    ensures Members(inputs) <= fast - Members(leaving) <==> forall x :: x in inputs ==> x in fast && x !in leaving
  {
    if Members(inputs) <= fast - Members(leaving) {
      forall x | x in inputs ensures x in fast && x !in leaving {
        assert x in Members(inputs);
      }
    }
  }

  /** The next task can run exactly when the prefetch it waits for has finished. */
  lemma ReadyExactly(shape: Shape, n: nat, tasks: seq<Task>, s: Lanes, o: nat, p: nat)
    requires IsProgram(shape, n, tasks) && Counted(shape, n, s, o, p)
    ensures Ready(tasks, s) <==> s.done < n && (shape == Production ==> s.done < p + WEIGHTS)
  {
    if s.done < n {
      var t := TaskAt(shape, n, s.done);
      assert t == tasks[s.done];
      forall x | x in t.inputs
        ensures x in s.fast && x !in s.leaving <==>
          !(shape == Production && x.W?) || s.done < p + WEIGHTS
      {
        InputReady(shape, n, s, o, p, x);
      }
      InputsThere(t.inputs, s.fast, s.leaving);
      if shape == Production {
        assert t.inputs[1] in t.inputs && t.inputs[1].W?;
      }
    }
  }

  lemma WeightReady(n: nat, d: nat, o: nat, p: nat, hi: nat)
    requires d < n && p <= o <= hi && hi == Issued(Production, n, d) && d <= p + WEIGHTS
    ensures !Among(p, o, d % WEIGHTS) && !Among(o, hi, d % WEIGHTS) <==> d < p + WEIGHTS
  {
    if d == p + WEIGHTS {
      assert p % WEIGHTS == d % WEIGHTS && p < hi;
      assert Among(p, o, d % WEIGHTS) || Among(o, hi, d % WEIGHTS);
    } else {
      OneTurn(p, d + 1, d);
    }
  }

  lemma InputReady(shape: Shape, n: nat, s: Lanes, o: nat, p: nat, x: Obj)
    requires s.done < n && Counted(shape, n, s, o, p) && x in TaskAt(shape, n, s.done).inputs
    ensures x in s.fast && x !in s.leaving <==> !(shape == Production && x.W?) || s.done < p + WEIGHTS
  {
    var d, hi := s.done, Issued(shape, n, s.done);
    RingMembers(o, hi, x);
    assert FastAt(shape, s, o, p, x);
    if shape == Production && x.W? {
      WeightReady(n, d, o, p, hi);
    }
  }

  /** A prefetch can finish exactly when the offload of its weight has. */
  lemma PrefetchReady(shape: Shape, n: nat, tasks: seq<Task>, s: Lanes, o: nat, p: nat)
    requires Counted(shape, n, s, o, p)
    ensures Enabled(tasks, s, FinishPrefetch) <==> p < Called(shape, n, s.done) && p < o
  {
    var hi := Issued(shape, n, s.done);
    if p < Called(shape, n, s.done) {
      RingShrinks(p, Called(shape, n, s.done));
      RingMembers(o, hi, W(p % WEIGHTS));
      if p < o {
        assert Among(0, o, p % WEIGHTS) && BackedAt(s, o, W(p % WEIGHTS));
        OneTurn(p, if hi > p then hi else p + 1, p);
        assert !Among(o, hi, p % WEIGHTS);
      } else {
        assert Among(o, hi, p % WEIGHTS);
      }
    }
  }

  // ---------------------------------------------------------------- every step keeps the counts

  lemma TaskResident(shape: Shape, n: nat, s: Lanes, o: nat, p: nat, x: Obj)
    requires s.done < n && Counted(shape, n, s, o, p)
    ensures var t := TaskAt(shape, n, s.done);
      x in s.fast + Members(t.outputs) - Members(t.releases) <==> Resident(shape, s.done + 1, o, p, x)
  {
    assert FastAt(shape, s, o, p, x);
  }

  lemma TaskKeeps(shape: Shape, n: nat, tasks: seq<Task>, s: Lanes, o: nat, p: nat)
    requires IsProgram(shape, n, tasks) && Counted(shape, n, s, o, p) && Ready(tasks, s)
    ensures Counted(shape, n, Next(tasks, s, RunTask), o, p)
  {
    var d, s' := s.done, Next(tasks, s, RunTask);
    ReadyExactly(shape, n, tasks, s, o, p);
    assert tasks[d] == TaskAt(shape, n, d);
    RingGrows(o, Issued(shape, n, d));
    RingGrows(p, Called(shape, n, d));
    forall x ensures FastAt(shape, s', o, p, x) {
      TaskResident(shape, n, s, o, p, x);
    }
    forall x ensures BackedAt(s', o, x) {
      assert BackedAt(s, o, x);
    }
  }

  lemma OffloadKeeps(shape: Shape, n: nat, tasks: seq<Task>, s: Lanes, o: nat, p: nat)
    requires Counted(shape, n, s, o, p) && Enabled(tasks, s, FinishOffload)
    ensures Counted(shape, n, Next(tasks, s, FinishOffload), o + 1, p) && s.leaving[0] in s.fast
  {
    var hi, s' := Issued(shape, n, s.done), Next(tasks, s, FinishOffload);
    RingShrinks(o, hi);
    OneTurn(p, hi, o);
    var o' := o + 1;
    forall x ensures FastAt(shape, s', o', p, x) {
      assert FastAt(shape, s, o, p, x);
      if x.W? {
        AmongMore(p, o, x.j);
      }
    }
    forall x ensures BackedAt(s', o', x) {
      assert BackedAt(s, o, x);
      if x.W? {
        AmongMore(0, o, x.j);
      }
    }
    assert FastAt(shape, s, o, p, s.leaving[0]);
  }

  lemma AmongMore(lo: nat, hi: nat, j: nat)
    requires lo <= hi
    ensures Among(lo, hi + 1, j) <==> Among(lo, hi, j) || j == hi % WEIGHTS
  {
    assert j == hi % WEIGHTS ==> Among(lo, hi + 1, j);
  }

  lemma AmongLess(lo: nat, hi: nat, j: nat)
    requires lo < hi
    ensures Among(lo, hi, j) <==> Among(lo + 1, hi, j) || j == lo % WEIGHTS
  {
    assert j == lo % WEIGHTS ==> Among(lo, hi, j);
  }

  lemma PrefetchKeeps(shape: Shape, n: nat, tasks: seq<Task>, s: Lanes, o: nat, p: nat)
    requires Counted(shape, n, s, o, p) && Enabled(tasks, s, FinishPrefetch)
    ensures Counted(shape, n, Next(tasks, s, FinishPrefetch), o, p + 1) && s.coming[0] !in s.fast
  {
    var s' := Next(tasks, s, FinishPrefetch);
    PrefetchReady(shape, n, tasks, s, o, p);
    RingShrinks(p, Called(shape, n, s.done));
    OneTurn(p, o, p);
    var p' := p + 1;
    forall x ensures FastAt(shape, s', o, p', x) {
      assert FastAt(shape, s, o, p, x);
      if x.W? {
        AmongLess(p, o, x.j);
      }
    }
    forall x ensures BackedAt(s', o, x) {
      assert BackedAt(s, o, x);
    }
    assert Among(p, o, p % WEIGHTS) && FastAt(shape, s, o, p, s.coming[0]);
  }

  function One(b: bool): nat {
    if b then 1 else 0
  }

  lemma StepIsCounted(shape: Shape, n: nat, tasks: seq<Task>, s: Lanes, e: Event, o: nat, p: nat)
    requires IsProgram(shape, n, tasks) && Counted(shape, n, s, o, p) && Enabled(tasks, s, e)
    ensures Counted(shape, n, Next(tasks, s, e), o + One(e == FinishOffload), p + One(e == FinishPrefetch))
  {
    match e
    case RunTask => TaskKeeps(shape, n, tasks, s, o, p);
    case FinishOffload => OffloadKeeps(shape, n, tasks, s, o, p);
    case FinishPrefetch => PrefetchKeeps(shape, n, tasks, s, o, p);
  }

  lemma StepAddsOne(tasks: seq<Task>, s: Lanes, e: Event)
    requires Enabled(tasks, s, e)
    ensures Next(tasks, s, e).done + One(e == FinishOffload) + One(e == FinishPrefetch) == s.done + 1
  {
  }

  /** The state has these counts, and `k` steps behind it. */
  ghost predicate Tallied(shape: Shape, n: nat, s: Lanes, o: nat, p: nat, k: nat) {
    Counted(shape, n, s, o, p) && k == s.done + o + p
  }

  lemma StepIsTallied(shape: Shape, n: nat, tasks: seq<Task>, s: Lanes, e: Event, s': Lanes, o: nat, p: nat, k: nat)
    requires IsProgram(shape, n, tasks) && Tallied(shape, n, s, o, p, k) && Enabled(tasks, s, e)
    requires s' == Next(tasks, s, e)
    ensures Tallied(shape, n, s', o + One(e == FinishOffload), p + One(e == FinishPrefetch), k + 1)
  {
    StepIsCounted(shape, n, tasks, s, e, o, p);
    StepAddsOne(tasks, s, e);
  }

  /** Every state of every run has counts, and as many steps behind it as they add up to. */
  lemma {:induction false} RunIsCounted(
    shape: Shape, n: nat, tasks: seq<Task>, states: seq<Lanes>, events: seq<Event>, k: nat) returns (o: nat, p: nat)
    requires IsProgram(shape, n, tasks) && IsRun(shape, tasks, states, events) && k < |states|
    ensures Tallied(shape, n, states[k], o, p, k)
  {
    if k == 0 {
      BeginsCounted(shape, n);
      o, p := 0, 0;
    } else {
      o, p := RunIsCounted(shape, n, tasks, states, events, k - 1);
      var e := events[k - 1];
      StepIsTallied(shape, n, tasks, states[k - 1], e, states[k], o, p, k - 1);
      o, p := o + One(e == FinishOffload), p + One(e == FinishPrefetch);
    }
  }

  // ---------------------------------------------------------------- what every run gets

  /** All tasks ran and no transfer is under way. */
  predicate Finished(tasks: seq<Task>, s: Lanes) {
    s.done == |tasks| && s.leaving == [] && s.coming == []
  }

  /** No interleaving gets stuck: until the chain is finished, some step is enabled. */
  lemma NeverStuck(shape: Shape, n: nat, tasks: seq<Task>, states: seq<Lanes>, events: seq<Event>, k: nat)
    requires IsProgram(shape, n, tasks) && IsRun(shape, tasks, states, events) && k < |states|
    ensures Finished(tasks, states[k]) <==> forall e :: !Enabled(tasks, states[k], e)
  {
    var o, p := RunIsCounted(shape, n, tasks, states, events, k);
    var s := states[k];
    ReadyExactly(shape, n, tasks, s, o, p);
    PrefetchReady(shape, n, tasks, s, o, p);
    if Finished(tasks, s) {
      forall e ensures !Enabled(tasks, s, e) {
        match e
        case RunTask =>
        case FinishOffload =>
        case FinishPrefetch =>
      }
    } else if Ready(tasks, s) {
      assert Enabled(tasks, s, RunTask);
    } else if s.leaving != [] {
      assert Enabled(tasks, s, FinishOffload);
    } else {
      assert Enabled(tasks, s, FinishPrefetch);
    }
  }

  /** Every run is at most three steps per task long, so every run that cannot go on has finished. */
  lemma RunsEnd(shape: Shape, n: nat, tasks: seq<Task>, states: seq<Lanes>, events: seq<Event>)
    requires IsProgram(shape, n, tasks) && IsRun(shape, tasks, states, events)
    ensures |events| <= 3 * n
  {
    var o, p := RunIsCounted(shape, n, tasks, states, events, |events|);
  }

  /** Whenever a task starts, its outputs are new and what it releases or offloads is there; whenever an
      offload finishes, its weight is there; whenever a prefetch finishes, its weight is not. */
  lemma StepsAreSafe(shape: Shape, n: nat, tasks: seq<Task>, states: seq<Lanes>, events: seq<Event>, k: nat)
    requires IsProgram(shape, n, tasks) && IsRun(shape, tasks, states, events) && k < |events|
    ensures match events[k]
      case RunTask =>
        var s, t := states[k], tasks[states[k].done];
        && Members(t.outputs) !! s.fast && Members(t.releases) <= s.fast + Members(t.outputs)
        && Members(t.offloads) <= s.fast - Members(t.releases) && Members(t.offloads) !! Members(s.leaving)
      case FinishOffload => states[k].leaving[0] in states[k].fast
      case FinishPrefetch => states[k].coming[0] !in states[k].fast
  {
    var o, p := RunIsCounted(shape, n, tasks, states, events, k);
    var s := states[k];
    match events[k]
    case RunTask => TaskIsSafe(shape, n, tasks, s, o, p);
    case FinishOffload => OffloadKeeps(shape, n, tasks, s, o, p);
    case FinishPrefetch => PrefetchKeeps(shape, n, tasks, s, o, p);
  }

  lemma TaskIsSafe(shape: Shape, n: nat, tasks: seq<Task>, s: Lanes, o: nat, p: nat)
    requires IsProgram(shape, n, tasks) && Counted(shape, n, s, o, p) && Ready(tasks, s)
    ensures var t := tasks[s.done];
      && Members(t.outputs) !! s.fast && Members(t.releases) <= s.fast + Members(t.outputs)
      && Members(t.offloads) <= s.fast - Members(t.releases) && Members(t.offloads) !! Members(s.leaving)
  {
    var t := TaskAt(shape, n, s.done);
    assert t == tasks[s.done];
    ReadyExactly(shape, n, tasks, s, o, p);
    forall x | x in t.offloads ensures x in s.fast && x !in s.leaving {
      assert t.inputs[1] == x;
      InputReady(shape, n, s, o, p, x);
    }
    forall x | x in t.releases ensures x in s.fast {
      assert FastAt(shape, s, o, p, x);
    }
    forall x | x in t.outputs ensures x !in s.fast {
      assert FastAt(shape, s, o, p, x);
    }
  }

  /** While a task runs, what is live or coming fits twelve objects. */
  lemma TwelveLive(shape: Shape, n: nat, tasks: seq<Task>, states: seq<Lanes>, events: seq<Event>, k: nat)
    requires IsProgram(shape, n, tasks) && IsRun(shape, tasks, states, events)
    requires k < |states| && states[k].done < n
    ensures |states[k].fast + Members(tasks[states[k].done].outputs) + Members(states[k].coming)| <= 12
  {
    var o, p := RunIsCounted(shape, n, tasks, states, events, k);
    CountedLive(shape, n, states[k], o, p);
  }

  /** The objects besides the weights that can be live around task `d`. */
  function Around(d: nat): set<Obj> {
    {X(d), X(d + 1), A(d), if d > 0 then A(d - 1) else A(d)}
  }

  lemma LiveAround(shape: Shape, n: nat, s: Lanes, o: nat, p: nat, x: Obj)
    requires Counted(shape, n, s, o, p)
    requires x in s.fast || x in TaskAt(shape, n, s.done).outputs || x in s.coming
    ensures if x.W? then x.j < WEIGHTS else x in Around(s.done)
  {
    RingMembers(p, Called(shape, n, s.done), x);
    assert FastAt(shape, s, o, p, x);
  }

  lemma CountedLive(shape: Shape, n: nat, s: Lanes, o: nat, p: nat)
    requires Counted(shape, n, s, o, p)
    ensures |s.fast + Members(TaskAt(shape, n, s.done).outputs) + Members(s.coming)| <= 12
  {
    var live := s.fast + Members(TaskAt(shape, n, s.done).outputs) + Members(s.coming);
    forall x | x in live ensures if x.W? then x.j < WEIGHTS else x in Around(s.done) {
      LiveAround(shape, n, s, o, p, x);
    }
    AtMostTwelve(live, s.done);
  }

  lemma AtMostTwelve(live: set<Obj>, d: nat)
    requires forall x :: x in live ==> if x.W? then x.j < WEIGHTS else x in Around(d)
    ensures |live| <= 12
  {
    SplitSize(live);
    RingBound(Weights(live), WEIGHTS);
    SubsetSize(Others(live), Around(d));
  }
}
