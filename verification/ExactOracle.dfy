/** The exhaustive plan oracle: every map from (task, object) to an action is tried once, and the
    fastest valid plan is kept. The validator and the simulator are one arbitrary function, of which
    only the simulator's clock is known. */
module ExactOracle {
  import opened Wrappers
  import opened Sorting
  import SimulatorClock

  // ---------------------------------------------------------------- chains and plans

  type Time = SimulatorClock.Time

  /** A task: its outputs, its three directive lists, and everything the oracle leaves alone. */
  datatype Task = Task(
    body: string, outputs: seq<string>, releases: seq<string>, offloads: seq<string>, prefetches: seq<string>)

  datatype Chain = Chain(body: string, initial: seq<string>, tasks: seq<Task>)

  datatype Action = Nothing | Release | Offload | Prefetch

  predicate BareTask(t: Task) {
    t.releases == [] && t.offloads == [] && t.prefetches == []
  }

  predicate Bare(chain: Chain) {
    forall i :: 0 <= i < |chain.tasks| ==> BareTask(chain.tasks[i])
  }

  function AddNew(ids: seq<string>, more: seq<string>): seq<string> {
    if more == [] then ids
    else
      var all := AddNew(ids, more[..|more| - 1]);
      if more[|more| - 1] in all then all else all + [more[|more| - 1]]
  }

  lemma {:induction false} AddNewFacts(ids: seq<string>, more: seq<string>)
    requires NoRepeats(ids)
    ensures NoRepeats(AddNew(ids, more)) && ids <= AddNew(ids, more)
    ensures forall x :: x in AddNew(ids, more) <==> x in ids || x in more
  {
    if more != [] {
      AddNewFacts(ids, more[..|more| - 1]);
      assert more == more[..|more| - 1] + [more[|more| - 1]];
    }
  }

  /** An object of the chain: initial, or some task's output. */
  ghost predicate IsObject(chain: Chain, n: nat, x: string)
    requires n <= |chain.tasks|
  {
    x in chain.initial || exists i :: 0 <= i < n && x in chain.tasks[i].outputs
  }

  method AppendNew(ids: seq<string>, more: seq<string>) returns (all: seq<string>)
    ensures all == AddNew(ids, more)
  {
    all := ids;
    for i := 0 to |more|
      invariant all == AddNew(ids, more[..i])
    {
      assert more[..i + 1][..i] == more[..i];
      if more[i] !in all {
        all := all + [more[i]];
      }
    }
    assert more[..|more|] == more;
  }

  /** The objects in order of first appearance. */
  function AllIds(chain: Chain, n: nat): seq<string>
    requires n <= |chain.tasks|
  {
    if n == 0 then AddNew([], chain.initial) else AddNew(AllIds(chain, n - 1), chain.tasks[n - 1].outputs)
  }

  function Ids(chain: Chain): seq<string> {
    AllIds(chain, |chain.tasks|)
  }

  lemma {:induction false} EveryObjectOnce(chain: Chain, n: nat)
    requires n <= |chain.tasks|
    ensures NoRepeats(AllIds(chain, n)) && forall x :: x in AllIds(chain, n) <==> IsObject(chain, n, x)
  {
    if n == 0 {
      AddNewFacts([], chain.initial);
    } else {
      EveryObjectOnce(chain, n - 1);
      AddNewFacts(AllIds(chain, n - 1), chain.tasks[n - 1].outputs);
    }
  }

  method ObjectIds(chain: Chain) returns (ids: seq<string>)
    ensures ids == Ids(chain)
    ensures NoRepeats(ids) && forall x :: x in ids <==> IsObject(chain, |chain.tasks|, x)
  {
    ids := AppendNew([], chain.initial);
    for t := 0 to |chain.tasks|
      invariant ids == AllIds(chain, t)
    {
      ids := AppendNew(ids, chain.tasks[t].outputs);
    }
    EveryObjectOnce(chain, |chain.tasks|);
  }

  /** The objects a row of actions sends to `action`, in object order. */
  function Sent(ids: seq<string>, row: seq<Action>, action: Action): seq<string>
    requires |ids| == |row|
  {
    if ids == [] then []
    else
      var n := |ids| - 1;
      Sent(ids[..n], row[..n], action) + if row[n] == action then [ids[n]] else []
  }

  function AnnotateTask(t: Task, ids: seq<string>, row: seq<Action>): Task
    requires |ids| == |row|
  {
    t.(releases := Sent(ids, row, Release), offloads := Sent(ids, row, Offload), prefetches := Sent(ids, row, Prefetch))
  }

  lemma RowFits(width: nat, tasks: nat, t: nat)
    requires t < tasks
    ensures t * width + width <= tasks * width
  {
    assert (t + 1) * width <= tasks * width;
  }

  function Row(assignment: seq<Action>, width: nat, tasks: nat, t: nat): (row: seq<Action>)
    requires |assignment| == width * tasks && t < tasks
    ensures |row| == width
  {
    RowFits(width, tasks, t);
    assignment[t * width..t * width + width]
  }

  function Annotate(bare: Chain, ids: seq<string>, assignment: seq<Action>): Chain
    requires |assignment| == |ids| * |bare.tasks|
  {
    bare.(tasks := seq(|bare.tasks|, t requires 0 <= t < |bare.tasks| =>
      AnnotateTask(bare.tasks[t], ids, Row(assignment, |ids|, |bare.tasks|, t))))
  }

  /** The inner loop: three lists filled in one pass over the objects. */
  method AnnotateOne(task: Task, ids: seq<string>, row: seq<Action>) returns (annotated: Task)
    requires |ids| == |row|
    ensures annotated == AnnotateTask(task, ids, row)
  {
    var releases, offloads, prefetches := [], [], [];
    for o := 0 to |ids|
      invariant releases == Sent(ids[..o], row[..o], Release)
      invariant offloads == Sent(ids[..o], row[..o], Offload)
      invariant prefetches == Sent(ids[..o], row[..o], Prefetch)
    {
      assert ids[..o + 1][..o] == ids[..o] && row[..o + 1][..o] == row[..o];
      match row[o]
      case Nothing =>
      case Release => releases := releases + [ids[o]];
      case Offload => offloads := offloads + [ids[o]];
      case Prefetch => prefetches := prefetches + [ids[o]];
    }
    assert ids[..|ids|] == ids && row[..|ids|] == row;
    annotated := task.(releases := releases, offloads := offloads, prefetches := prefetches);
  }

  method AnnotateChain(bare: Chain, ids: seq<string>, assignment: seq<Action>) returns (chain: Chain)
    requires |assignment| == |ids| * |bare.tasks|
    ensures chain == Annotate(bare, ids, assignment)
  {
    var tasks := [];
    for t := 0 to |bare.tasks|
      invariant |tasks| == t
      invariant forall u :: 0 <= u < t ==>
        tasks[u] == AnnotateTask(bare.tasks[u], ids, Row(assignment, |ids|, |bare.tasks|, u))
    {
      var task := AnnotateOne(bare.tasks[t], ids, Row(assignment, |ids|, |bare.tasks|, t));
      tasks := tasks + [task];
    }
    chain := bare.(tasks := tasks);
  }

  // ---------------------------------------------------------------- a plan determines its actions

  /** Reading an object's action back from the directives of a task. */
  function ActionOf(t: Task, id: string): Action {
    if id in t.releases then Release
    else if id in t.offloads then Offload
    else if id in t.prefetches then Prefetch
    else Nothing
  }

  lemma {:induction false} SentMember(ids: seq<string>, row: seq<Action>, action: Action, o: nat)
    requires |ids| == |row| && NoRepeats(ids) && o < |ids|
    ensures ids[o] in Sent(ids, row, action) <==> row[o] == action
  {
    var n := |ids| - 1;
    if o < n {
      SentMember(ids[..n], row[..n], action, o);
      assert ids[o] != ids[n];
    } else {
      SentOnly(ids[..n], row[..n], action, ids[n]);
    }
  }

  lemma {:induction false} SentOnly(ids: seq<string>, row: seq<Action>, action: Action, x: string)
    requires |ids| == |row| && x !in ids
    ensures x !in Sent(ids, row, action)
  {
    if ids != [] {
      SentOnly(ids[..|ids| - 1], row[..|ids| - 1], action, x);
    }
  }

  /** The annotated chain gives back the assignment, slot by slot. */
  lemma AnnotateRoundTrip(bare: Chain, ids: seq<string>, assignment: seq<Action>, t: nat, o: nat)
    requires |assignment| == |ids| * |bare.tasks| && NoRepeats(ids) && t < |bare.tasks| && o < |ids|
    ensures t * |ids| + o < |assignment|
    ensures ActionOf(Annotate(bare, ids, assignment).tasks[t], ids[o]) == assignment[t * |ids| + o]
  {
    RowFits(|ids|, |bare.tasks|, t);
    var row := Row(assignment, |ids|, |bare.tasks|, t);
    SentMember(ids, row, Release, o);
    SentMember(ids, row, Offload, o);
    SentMember(ids, row, Prefetch, o);
  }

  /** Different assignments are different plans. */
  lemma AnnotateInjective(bare: Chain, ids: seq<string>, a: seq<Action>, b: seq<Action>)
    requires |a| == |b| == |ids| * |bare.tasks| && NoRepeats(ids)
    requires Annotate(bare, ids, a) == Annotate(bare, ids, b)
    ensures a == b
  {
    forall i | 0 <= i < |a| ensures a[i] == b[i] {
      SlotAddress(|ids|, |bare.tasks|, i);
      AnnotateRoundTrip(bare, ids, a, i / |ids|, i % |ids|);
      AnnotateRoundTrip(bare, ids, b, i / |ids|, i % |ids|);
    }
  }

  lemma SlotAddress(width: nat, tasks: nat, i: nat)
    requires i < width * tasks
    ensures width > 0 && i / width < tasks && i == (i / width) * width + i % width
  {
    assert width == 0 ==> width * tasks == 0;
    var q, r := i / width, i % width;
    assert i == q * width + r && 0 <= r < width;
    assert q * width < tasks * width;
    assert (q - tasks) * width < 0;
  }

  // ---------------------------------------------------------------- every assignment once

  function Pow4(n: nat): (p: nat)
    ensures p > 0
  {
    if n == 0 then 1 else 4 * Pow4(n - 1)
  }

  function Digit(a: Action): (d: nat)
    ensures d < 4
  {
    match a { case Nothing => 0 case Release => 1 case Offload => 2 case Prefetch => 3 }
  }

  function FromDigit(d: nat): (a: Action)
    ensures d < 4 ==> Digit(a) == d
  {
    if d == 0 then Nothing else if d == 1 then Release else if d == 2 then Offload else Prefetch
  }

  /** The `c`-th assignment of `n` slots, the last slot moving fastest. */
  function Assignment(n: nat, c: nat): (a: seq<Action>)
    ensures |a| == n
  {
    if n == 0 then [] else Assignment(n - 1, c / 4) + [FromDigit(c % 4)]
  }

  function Number(a: seq<Action>): nat {
    if a == [] then 0 else 4 * Number(a[..|a| - 1]) + Digit(a[|a| - 1])
  }

  lemma {:induction false} NumberBound(a: seq<Action>)
    ensures Number(a) < Pow4(|a|)
  {
    if a != [] {
      NumberBound(a[..|a| - 1]);
    }
  }

  /** Every assignment is enumerated, at its own number. */
  lemma {:induction false} AssignmentOfNumber(a: seq<Action>)
    ensures Assignment(|a|, Number(a)) == a
  {
    if a != [] {
      var rest := a[..|a| - 1];
      AssignmentOfNumber(rest);
      assert Number(a) / 4 == Number(rest) && Number(a) % 4 == Digit(a[|a| - 1]);
    }
  }

  /** And at no other. */
  lemma {:induction false} NumberOfAssignment(n: nat, c: nat)
    requires c < Pow4(n)
    ensures Number(Assignment(n, c)) == c
  {
    if n > 0 {
      NumberOfAssignment(n - 1, c / 4);
      var a := Assignment(n, c);
      assert a[..n - 1] == Assignment(n - 1, c / 4);
    }
  }

  lemma HasNumber(n: nat, c: nat, a: seq<Action>)
    requires c < Pow4(n)
    ensures a == Assignment(n, c) <==> |a| == n && Number(a) == c
  {
    NumberOfAssignment(n, c);
    AssignmentOfNumber(a);
  }

  // ---------------------------------------------------------------- the search

  predicate Faster(a: Time, b: Time) {
    SimulatorClock.Less(a, b)
  }

  /** What the simulator logs: the ends of its intervals, and the two peaks. */
  datatype Log = Log(ends: seq<Time>, fast: int, backing: int)

  /** Validation and simulation of a chain: a refusal that the oracle skips, an abort that it does not
      catch, or a log. */
  datatype Verdict = Refused | Aborted | Logged(log: Log)

  type Simulator = Chain -> Verdict

  /** Every log is one that the simulator's clock can return. */
  ghost predicate Clocked(simulate: Simulator) {
    forall chain: Chain {:trigger simulate(chain)} :: simulate(chain).Logged? ==>
      SimulatorClock.Returns(simulate(chain).log.ends)
  }

  datatype Problem = Problem(bare: Chain, simulate: Simulator)

  /** Python's `max` of the ends. */
  function Latest(ends: seq<Time>): Time
    requires ends != []
  {
    var last := ends[|ends| - 1];
    if |ends| == 1 then last
    else
      var m := Latest(ends[..|ends| - 1]);
      if Faster(m, last) then last else m
  }

  function Makespan(log: Log): Time {
    if log.ends == [] then SimulatorClock.At(0.0) else Latest(log.ends)
  }

  lemma {:induction false} LatestFacts(ends: seq<Time>)
    requires ends != [] && SimulatorClock.AllBounded(ends)
    ensures Latest(ends) in ends && forall e :: e in ends ==> !Faster(Latest(ends), e)
  {
    if |ends| > 1 {
      var n := |ends| - 1;
      LatestFacts(ends[..n]);
      assert ends == ends[..n] + [ends[n]];
      assert Latest(ends[..n]) in ends && SimulatorClock.Bounded(Latest(ends[..n]));
    }
  }

  /** The makespan of a returned log is its latest end, or zero for an empty one, and not beyond the
      limit of the clock. */
  lemma MakespanFacts(log: Log)
    requires SimulatorClock.Returns(log.ends)
    ensures log.ends == [] ==> Makespan(log) == SimulatorClock.At(0.0)
    ensures log.ends != [] ==> Makespan(log) in log.ends && forall e :: e in log.ends ==> !Faster(Makespan(log), e)
    ensures SimulatorClock.Bounded(Makespan(log))
  {
    SimulatorClock.ReturnedIsBounded(log.ends);
    if log.ends != [] {
      LatestFacts(log.ends);
    }
  }

  datatype Run = Run(makespan: Time, fast: int, backing: int)

  /** The score of a logged run. */
  function Score(v: Verdict): Option<Run> {
    if v.Logged? then Some(Run(Makespan(v.log), v.log.fast, v.log.backing)) else None
  }

  function Slots(p: Problem): nat {
    |Ids(p.bare)| * |p.bare.tasks|
  }

  /** The verdict on assignment number `c`, and its score. */
  function VerdictAt(p: Problem, c: nat): Verdict {
    p.simulate(Annotate(p.bare, Ids(p.bare), Assignment(Slots(p), c)))
  }

  function OutcomeAt(p: Problem, c: nat): Option<Run> {
    Score(VerdictAt(p, c))
  }

  lemma OutcomeIsBounded(p: Problem, c: nat)
    requires Clocked(p.simulate) && OutcomeAt(p, c).Some?
    ensures SimulatorClock.Bounded(OutcomeAt(p, c).value.makespan)
  {
    MakespanFacts(VerdictAt(p, c).log);
  }

  function ValidBelow(p: Problem, c: nat): nat {
    if c == 0 then 0 else ValidBelow(p, c - 1) + if OutcomeAt(p, c - 1).Some? then 1 else 0
  }

  datatype Plan = Plan(assignments: nat, valid: nat, makespan: Time, fast: int, backing: int, chain: Chain)

  datatype OracleError = NotBare | TooMany | SimulatorAborted | Infeasible

  /** Number `k` is the first of the fastest among the numbers below `c`. */
  ghost predicate Fastest(p: Problem, c: nat, k: nat, plan: Plan) {
    && k < c && plan.chain == Annotate(p.bare, Ids(p.bare), Assignment(Slots(p), k))
    && OutcomeAt(p, k) == Some(Run(plan.makespan, plan.fast, plan.backing))
    && (forall j {:trigger OutcomeAt(p, j)} :: 0 <= j < c && OutcomeAt(p, j).Some? ==>
          Beaten(plan.makespan, OutcomeAt(p, j).value.makespan, j < k))
  }

  /** Not faster than the plan, and slower if it was tried before. */
  predicate Beaten(best: Time, other: Time, before: bool) {
    !Faster(other, best) && (before ==> Faster(best, other))
  }

  ghost predicate NoneValid(p: Problem, c: nat) {
    forall j {:trigger OutcomeAt(p, j)} :: 0 <= j < c ==> OutcomeAt(p, j).None?
  }

  ghost predicate NoneAborts(p: Problem, c: nat) {
    forall j {:trigger VerdictAt(p, j)} :: 0 <= j < c ==> !VerdictAt(p, j).Aborted?
  }

  lemma StillFastest(p: Problem, c: nat, k: nat, plan: Plan)
    requires Fastest(p, c, k, plan)
    requires OutcomeAt(p, c).Some? ==> !Faster(OutcomeAt(p, c).value.makespan, plan.makespan)
    ensures Fastest(p, c + 1, k, plan)
  {
  }

  lemma NowBeaten(held: Time, best: Time, other: Time, before: bool)
    requires Beaten(held, other, before) && Faster(best, held) && SimulatorClock.Bounded(other)
    ensures Beaten(best, other, true)
  {
  }

  /** The loop's strict comparison replaces the incumbent only by a faster plan. */
  lemma NowFastest(p: Problem, c: nat, k: nat, incumbent: Plan, plan: Plan)
    requires Clocked(p.simulate) && Fastest(p, c, k, incumbent) && Faster(plan.makespan, incumbent.makespan)
    requires plan.chain == Annotate(p.bare, Ids(p.bare), Assignment(Slots(p), c))
    requires OutcomeAt(p, c) == Some(Run(plan.makespan, plan.fast, plan.backing))
    ensures Fastest(p, c + 1, c, plan)
  {
    forall j | 0 <= j < c + 1 && OutcomeAt(p, j).Some?
      ensures Beaten(plan.makespan, OutcomeAt(p, j).value.makespan, j < c)
    {
      if j < c {
        OutcomeIsBounded(p, j);
        NowBeaten(incumbent.makespan, plan.makespan, OutcomeAt(p, j).value.makespan, j < k);
      }
    }
  }

  lemma FirstValid(p: Problem, c: nat, plan: Plan)
    requires NoneValid(p, c) && plan.chain == Annotate(p.bare, Ids(p.bare), Assignment(Slots(p), c))
    requires OutcomeAt(p, c) == Some(Run(plan.makespan, plan.fast, plan.backing))
    ensures Fastest(p, c + 1, c, plan)
  {
  }

  /** What the loop knows after the first `c` assignments. */
  ghost predicate Searched(p: Problem, c: nat, best: Option<Plan>, fastest: Time, valid: nat, k: nat) {
    && valid == ValidBelow(p, c)
    && (best.None? ==> NoneValid(p, c) && fastest == SimulatorClock.PosInf)
    && (best.Some? ==> Fastest(p, c, k, best.value) && fastest == best.value.makespan)
  }

  /** The search loop keeps the first fastest plan and counts the valid ones; an abort ends it. */
  method Search(p: Problem, total: nat) returns (aborted: bool, best: Option<Plan>, valid: nat, ghost k: nat)
    requires Clocked(p.simulate)
    ensures aborted <==> !NoneAborts(p, total)
    ensures !aborted ==> valid == ValidBelow(p, total) && (best.None? <==> NoneValid(p, total))
    ensures !aborted && best.Some? ==> Fastest(p, total, k, best.value)
  {
    var ids := ObjectIds(p.bare);
    var slots := |ids| * |p.bare.tasks|;
    aborted, best, valid, k := false, None, 0, 0;
    var fastest := SimulatorClock.PosInf;
    for c := 0 to total
      invariant NoneAborts(p, c) && Searched(p, c, best, fastest, valid, k)
    {
      var candidate := AnnotateChain(p.bare, ids, Assignment(slots, c));
      var verdict := p.simulate(candidate);
      assert verdict == VerdictAt(p, c);
      if verdict.Aborted? {
        return true, None, 0, 0;
      }
      best, fastest, valid, k := Compare(p, c, candidate, verdict, best, fastest, valid, k);
    }
    if best.Some? {
      assert OutcomeAt(p, k).Some?;
    }
  }

  /** One turn of the loop, once the simulator has returned. */
  method Compare(
    p: Problem, c: nat, candidate: Chain, verdict: Verdict, best: Option<Plan>, fastest: Time, valid: nat, ghost k: nat)
    returns (best': Option<Plan>, fastest': Time, valid': nat, ghost k': nat)
    requires Clocked(p.simulate) && candidate == Annotate(p.bare, Ids(p.bare), Assignment(Slots(p), c))
    requires verdict == VerdictAt(p, c) && Searched(p, c, best, fastest, valid, k)
    ensures Searched(p, c + 1, best', fastest', valid', k')
  {
    best', fastest', valid', k' := best, fastest, valid, k;
    var outcome := Score(verdict);
    assert outcome == OutcomeAt(p, c);
    if outcome.Some? {
      valid' := valid + 1;
      OutcomeIsBounded(p, c);
      var run := outcome.value;
      if Faster(run.makespan, fastest) {
        var plan := Plan(0, 0, run.makespan, run.fast, run.backing, candidate);
        if best.Some? {
          NowFastest(p, c, k, best.value, plan);
        } else {
          FirstValid(p, c, plan);
        }
        best', fastest', k' := Some(plan), run.makespan, c;
      } else {
        assert best.Some?;
        StillFastest(p, c, k, best.value);
      }
    } else if best.Some? {
      StillFastest(p, c, k, best.value);
    }
  }

  // ---------------------------------------------------------------- over all maps, not their numbers

  /** The verdict on the plan with these actions, and its score. */
  function VerdictOf(p: Problem, a: seq<Action>): Verdict
    requires |a| == Slots(p)
  {
    p.simulate(Annotate(p.bare, Ids(p.bare), a))
  }

  ghost predicate IsValid(p: Problem, a: seq<Action>) {
    |a| == Slots(p) && VerdictOf(p, a).Logged?
  }

  ghost function ValidList(p: Problem, c: nat): seq<seq<Action>> {
    if c == 0 then []
    else ValidList(p, c - 1) + if OutcomeAt(p, c - 1).Some? then [Assignment(Slots(p), c - 1)] else []
  }

  lemma ValidAt(p: Problem, c: nat)
    ensures IsValid(p, Assignment(Slots(p), c)) <==> OutcomeAt(p, c).Some?
  {
  }

  ghost predicate MemberExactly(p: Problem, c: nat, a: seq<Action>) {
    a in ValidList(p, c) <==> IsValid(p, a) && Number(a) < c
  }

  lemma MemberStep(p: Problem, c: nat, a: seq<Action>, x: seq<Action>)
    requires MemberExactly(p, c, a) && x == Assignment(Slots(p), c)
    requires (a == x <==> |a| == Slots(p) && Number(a) == c) && (IsValid(p, x) <==> OutcomeAt(p, c).Some?)
    ensures MemberExactly(p, c + 1, a)
  {
  }

  lemma {:induction false} ValidListMember(p: Problem, c: nat, a: seq<Action>)
    requires c <= Pow4(Slots(p))
    ensures MemberExactly(p, c, a)
  {
    if c > 0 {
      ValidListMember(p, c - 1, a);
      MemberNext(p, c - 1, a);
    }
  }

  lemma MemberNext(p: Problem, c: nat, a: seq<Action>)
    requires c < Pow4(Slots(p)) && MemberExactly(p, c, a)
    ensures MemberExactly(p, c + 1, a)
  {
    HasNumber(Slots(p), c, a);
    ValidAt(p, c);
    MemberStep(p, c, a, Assignment(Slots(p), c));
  }

  lemma NotYetListed(p: Problem, c: nat)
    requires c < Pow4(Slots(p))
    ensures Assignment(Slots(p), c) !in ValidList(p, c)
  {
    NumberOfAssignment(Slots(p), c);
    ValidListMember(p, c, Assignment(Slots(p), c));
  }

  ghost predicate ListCounts(p: Problem, c: nat) {
    |ValidList(p, c)| == ValidBelow(p, c) && NoRepeats(ValidList(p, c))
  }

  lemma ListStep(p: Problem, c: nat, x: seq<Action>)
    requires ListCounts(p, c) && x == Assignment(Slots(p), c) && x !in ValidList(p, c)
    ensures ListCounts(p, c + 1)
  {
    NotRepeated(ValidList(p, c), x);
  }

  lemma ListOneMore(p: Problem, c: nat)
    requires c < Pow4(Slots(p)) && ListCounts(p, c)
    ensures ListCounts(p, c + 1)
  {
    NotYetListed(p, c);
    ListStep(p, c, Assignment(Slots(p), c));
  }

  lemma {:induction false} ValidListCount(p: Problem, c: nat)
    requires c <= Pow4(Slots(p))
    ensures ListCounts(p, c)
  {
    if c > 0 {
      ValidListCount(p, c - 1);
      ListOneMore(p, c - 1);
    }
  }

  lemma NotRepeated(s: seq<seq<Action>>, x: seq<Action>)
    requires NoRepeats(s) && x !in s
    ensures NoRepeats(s + [x])
  {
  }

  /** `n` is how many maps from (task, object) to an action are valid plans. */
  ghost predicate CountsValid(p: Problem, n: nat) {
    exists all: seq<seq<Action>> :: |all| == n && ListsValid(p, all)
  }

  /** Every valid map, once. */
  ghost predicate ListsValid(p: Problem, all: seq<seq<Action>>) {
    NoRepeats(all) && forall a :: a in all <==> IsValid(p, a)
  }

  lemma CountIsTrue(p: Problem)
    ensures CountsValid(p, ValidBelow(p, Pow4(Slots(p))))
  {
    var total := Pow4(Slots(p));
    ValidListCount(p, total);
    forall a ensures a in ValidList(p, total) <==> IsValid(p, a) {
      ValidListMember(p, total, a);
      NumberBound(a);
    }
    assert ListsValid(p, ValidList(p, total));
  }

  /** The latest of the logged ends, or zero if there is none. */
  ghost predicate IsLatest(m: Time, ends: seq<Time>) {
    if ends == [] then m == SimulatorClock.At(0.0)
    else m in ends && forall e :: e in ends ==> !SimulatorClock.Less(m, e)
  }

  lemma MakespanIsLatest(log: Log, m: Time)
    requires SimulatorClock.Returns(log.ends)
    ensures IsLatest(m, log.ends) <==> m == Makespan(log)
  {
    MakespanFacts(log);
    SimulatorClock.ReturnedIsBounded(log.ends);
    if log.ends != [] && IsLatest(m, log.ends) {
      assert SimulatorClock.Bounded(m) && !SimulatorClock.Less(m, Makespan(log));
    }
  }

  /** The order in which actions are tried. */
  predicate Sooner(a: Action, b: Action) {
    a != b && (a.Nothing? || b.Prefetch? || (a.Release? && b.Offload?))
  }

  /** The order in which maps are tried: the first slot that differs decides. */
  ghost predicate Before(a: seq<Action>, b: seq<Action>) {
    exists k :: 0 <= k < |a| && k < |b| && a[..k] == b[..k] && Sooner(a[k], b[k])
  }

  lemma {:induction false} NumbersInOrder(a: seq<Action>, b: seq<Action>)
    requires |a| == |b| && Number(a) < Number(b)
    ensures Before(a, b)
  {
    var n := |a| - 1;
    var a', b' := a[..n], b[..n];
    if Number(a') < Number(b') {
      NumbersInOrder(a', b');
      var k :| 0 <= k < n && a'[..k] == b'[..k] && Sooner(a'[k], b'[k]);
      assert a[..k] == a'[..k] && b[..k] == b'[..k];
    } else {
      AssignmentOfNumber(a');
      AssignmentOfNumber(b');
      assert a[..n] == b[..n] && Sooner(a[n], b[n]);
    }
  }

  /** The plan of these actions, with the latest end and the two peaks of its log. */
  ghost predicate PlanOf(p: Problem, a: seq<Action>, plan: Plan) {
    && IsValid(p, a) && plan.chain == Annotate(p.bare, Ids(p.bare), a)
    && IsLatest(plan.makespan, VerdictOf(p, a).log.ends)
    && plan.fast == VerdictOf(p, a).log.fast && plan.backing == VerdictOf(p, a).log.backing
  }

  /** No valid map ends sooner, and one that ends at the same time is tried later. */
  ghost predicate Wins(p: Problem, a: seq<Action>, best: Time, b: seq<Action>) {
    IsValid(p, b) && b != a ==> forall m :: IsLatest(m, VerdictOf(p, b).log.ends) ==>
      !SimulatorClock.Less(m, best) && (SimulatorClock.Less(best, m) || Before(a, b))
  }

  ghost predicate Optimal(p: Problem, plan: Plan) {
    exists a :: PlanOf(p, a, plan) && forall b {:trigger Wins(p, a, plan.makespan, b)} :: Wins(p, a, plan.makespan, b)
  }

  lemma OutcomeOfMap(p: Problem, b: seq<Action>)
    requires IsValid(p, b)
    ensures Number(b) < Pow4(Slots(p))
    ensures var log := VerdictOf(p, b).log;
      OutcomeAt(p, Number(b)) == Some(Run(Makespan(log), log.fast, log.backing))
  {
    NumberBound(b);
    AssignmentOfNumber(b);
  }

  lemma WinsBy(p: Problem, a: seq<Action>, best: Time, b: seq<Action>)
    requires Clocked(p.simulate) && IsValid(p, b)
    requires Beaten(best, Makespan(VerdictOf(p, b).log), false)
    requires Faster(best, Makespan(VerdictOf(p, b).log)) || Before(a, b)
    ensures Wins(p, a, best, b)
  {
    var log := VerdictOf(p, b).log;
    forall m | IsLatest(m, log.ends) ensures m == Makespan(log) {
      MakespanIsLatest(log, m);
    }
  }

  lemma FirstWins(p: Problem, k: nat, plan: Plan, a: seq<Action>, b: seq<Action>)
    requires Clocked(p.simulate) && Fastest(p, Pow4(Slots(p)), k, plan) && a == Assignment(Slots(p), k)
    ensures Wins(p, a, plan.makespan, b)
  {
    if IsValid(p, b) && b != a {
      HasNumber(Slots(p), k, a);
      HasNumber(Slots(p), k, b);
      OutcomeOfMap(p, b);
      var other := OutcomeAt(p, Number(b)).value.makespan;
      assert Beaten(plan.makespan, other, Number(b) < k);
      if k < Number(b) {
        NumbersInOrder(a, b);
      }
      WinsBy(p, a, plan.makespan, b);
    }
  }

  lemma FastestIsOptimal(p: Problem, k: nat, plan: Plan)
    requires Clocked(p.simulate) && Fastest(p, Pow4(Slots(p)), k, plan)
    ensures Optimal(p, plan)
  {
    var a := Assignment(Slots(p), k);
    MakespanIsLatest(VerdictOf(p, a).log, plan.makespan);
    assert PlanOf(p, a, plan);
    forall b ensures Wins(p, a, plan.makespan, b) {
      FirstWins(p, k, plan, a, b);
    }
  }

  /** The counts do not matter to a plan. */
  lemma StaysOptimal(p: Problem, plan: Plan, plan': Plan)
    requires Optimal(p, plan) && plan' == plan.(assignments := plan'.assignments, valid := plan'.valid)
    ensures Optimal(p, plan')
  {
    var a :| PlanOf(p, a, plan) && forall b {:trigger Wins(p, a, plan.makespan, b)} :: Wins(p, a, plan.makespan, b);
    assert PlanOf(p, a, plan');
  }

  /** Some map is a valid plan. */
  ghost predicate Feasible(p: Problem) {
    exists a :: IsValid(p, a)
  }

  /** The simulator aborts on some map. */
  ghost predicate Aborts(p: Problem) {
    exists a :: AbortsOn(p, a)
  }

  ghost predicate AbortsOn(p: Problem, a: seq<Action>) {
    |a| == Slots(p) && VerdictOf(p, a).Aborted?
  }

  lemma VerdictOfNumber(p: Problem, a: seq<Action>)
    requires |a| == Slots(p)
    ensures Number(a) < Pow4(Slots(p)) && VerdictAt(p, Number(a)) == VerdictOf(p, a)
  {
    NumberBound(a);
    AssignmentOfNumber(a);
  }

  lemma NumberHasVerdict(p: Problem, j: nat, a: seq<Action>)
    requires a == Assignment(Slots(p), j)
    ensures |a| == Slots(p) && VerdictOf(p, a) == VerdictAt(p, j)
  {
  }

  lemma FeasibleExactly(p: Problem)
    ensures NoneValid(p, Pow4(Slots(p))) <==> !Feasible(p)
  {
    if a :| IsValid(p, a) {
      VerdictOfNumber(p, a);
      assert OutcomeAt(p, Number(a)).Some?;
    } else {
      forall j | 0 <= j < Pow4(Slots(p)) ensures OutcomeAt(p, j).None? {
        NumberHasVerdict(p, j, Assignment(Slots(p), j));
        assert !IsValid(p, Assignment(Slots(p), j));
      }
    }
  }

  lemma AbortsExactly(p: Problem)
    ensures NoneAborts(p, Pow4(Slots(p))) <==> !Aborts(p)
  {
    if a :| AbortsOn(p, a) {
      VerdictOfNumber(p, a);
      assert VerdictAt(p, Number(a)).Aborted?;
    } else {
      forall j | 0 <= j < Pow4(Slots(p)) ensures !VerdictAt(p, j).Aborted? {
        NumberHasVerdict(p, j, Assignment(Slots(p), j));
        assert !AbortsOn(p, Assignment(Slots(p), j));
      }
    }
  }

  // ---------------------------------------------------------------- the oracle

  /** The oracle: it refuses annotated chains and too large spaces, an abort of the simulator goes
      through, it reports infeasible exactly when no map is a valid plan, and otherwise returns an
      optimal plan with the true counts. */
  method FindExactPlan(p: Problem, limit: int) returns (r: Result<Plan, OracleError>)
    requires Clocked(p.simulate)
    ensures r == Err(NotBare) <==> !Bare(p.bare)
    ensures r == Err(TooMany) <==> Bare(p.bare) && Pow4(Slots(p)) > limit
    ensures r == Err(SimulatorAborted) <==> Bare(p.bare) && Pow4(Slots(p)) <= limit && Aborts(p)
    ensures r == Err(Infeasible) <==> Bare(p.bare) && Pow4(Slots(p)) <= limit && !Aborts(p) && !Feasible(p)
    ensures r.Ok? ==> r.value.assignments == Pow4(Slots(p)) && CountsValid(p, r.value.valid) && Optimal(p, r.value)
  {
    for i := 0 to |p.bare.tasks|
      invariant forall j :: 0 <= j < i ==> BareTask(p.bare.tasks[j])
    {
      if !BareTask(p.bare.tasks[i]) {
        return Err(NotBare);
      }
    }
    var ids := ObjectIds(p.bare);
    var total := Pow4(|ids| * |p.bare.tasks|);
    if total > limit {
      return Err(TooMany);
    }
    var aborted, best, valid, k := Search(p, total);
    FeasibleExactly(p);
    AbortsExactly(p);
    CountIsTrue(p);
    if aborted {
      return Err(SimulatorAborted);
    }
    if best.None? {
      return Err(Infeasible);
    }
    FastestIsOptimal(p, k, best.value);
    var plan := best.value.(assignments := total, valid := valid);
    StaysOptimal(p, best.value, plan);
    return Ok(plan);
  }
}
