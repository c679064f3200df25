/** The clock of the transfer simulator (src/dataflow_sim/engine/simulator.py): two transfer streams, the
    loop that completes transfers up to a time, and the final drain. An idle stream is given the end
    2^63, so a time that reaches it makes the loops complete a transfer that is not there, and abort.
    What runs and when is arbitrary here: any targets, any task ends, any start of a transfer. */
module SimulatorClock {
  import opened Wrappers

  /** A float time in microseconds. */
  datatype Time = NegInf | At(us: real) | PosInf | NaN

  predicate Less(a: Time, b: Time) {
    !a.NaN? && !b.NaN? && a != b && (a.NegInf? || b.PosInf? || (a.At? && b.At? && a.us < b.us))
  }

  predicate AtMost(a: Time, b: Time) {
    !a.NaN? && (a == b || Less(a, b))
  }

  function Plus(a: Time, d: real): Time {
    if a.At? then At(a.us + d) else a
  }

  /** Python's `min` of two. */
  function Least(a: Time, b: Time): Time {
    if Less(b, a) then b else a
  }

  /** The end given to an idle stream: the largest machine integer, as a float. */
  const IDLE := At(9223372036854775808.0)

  /** A time that is not beyond that. */
  predicate Bounded(t: Time) {
    AtMost(t, IDLE)
  }

  datatype Pc =
    | Ready(now: Time)
    | Advancing(target: Time)
    | Draining
    | Returned
    | Refused
    | Aborted

  /** The ends of the transfers in flight, from slow memory and to it, and of all intervals logged. */
  datatype Clock = Clock(pc: Pc, from: Option<Time>, to: Option<Time>, ends: seq<Time>)

  function End(lane: Option<Time>): Time {
    if lane.Some? then lane.value else IDLE
  }

  datatype Event =
    | StartFrom(runtime: real)
    | StartTo(runtime: real)
    | Aim(target: Time)
    | RunTask(end: Time)
    | Break
    | Complete(next: Option<real>, other: Option<real>)
    | Drain
    | Return
    | Refuse

  predicate RuntimeOk(runtime: real) {
    runtime >= 1.0
  }

  /** A transfer starts on an idle stream. */
  function StartedFrom(c: Clock, now: Time, runtime: real): Clock {
    c.(from := Some(Plus(now, runtime)), ends := c.ends + [Plus(now, runtime)])
  }

  function StartedTo(c: Clock, now: Time, runtime: real): Clock {
    c.(to := Some(Plus(now, runtime)), ends := c.ends + [Plus(now, runtime)])
  }

  /** A completion on the stream whose end comes first, and the transfers that start then: the next on
      that stream, and a prefetch that waited for an offload. */
  ghost predicate Completes(c: Clock, next: Option<real>, other: Option<real>, c': Clock) {
    if AtMost(End(c.from), End(c.to)) then
      if c.from.None? then c' == c.(pc := Aborted)
      else
        var done := c.(from := None);
        other.None? && (next.Some? ==> RuntimeOk(next.value)) &&
        c' == if next.None? then done else StartedFrom(done, c.from.value, next.value)
    else
      if c.to.None? then c' == c.(pc := Aborted)
      else
        var done := c.(to := None);
        (next.Some? ==> RuntimeOk(next.value)) && (other.Some? ==> RuntimeOk(other.value) && c.from.None?) &&
        var mid := if next.None? then done else StartedTo(done, c.to.value, next.value);
        c' == if other.None? then mid else StartedFrom(mid, c.to.value, other.value)
  }

  ghost predicate Next(c: Clock, e: Event, c': Clock) {
    match e
    case StartFrom(d) => c.pc.Ready? && c.from.None? && RuntimeOk(d) && c' == StartedFrom(c, c.pc.now, d)
    case StartTo(d) => c.pc.Ready? && c.to.None? && RuntimeOk(d) && c' == StartedTo(c, c.pc.now, d)
    case Aim(t) => c.pc.Ready? && c' == c.(pc := Advancing(t))
    case RunTask(end) => c.pc.Ready? && c' == c.(pc := Advancing(end), ends := c.ends + [end])
    case Break =>
      c.pc.Advancing? && Less(c.pc.target, Least(End(c.from), End(c.to))) && c' == c.(pc := Ready(c.pc.target))
    case Complete(next, other) =>
      && (if c.pc.Draining? then c.from.Some? || c.to.Some?
          else c.pc.Advancing? && !Less(c.pc.target, Least(End(c.from), End(c.to))))
      && Completes(c, next, other, c')
    case Drain => c.pc.Ready? && c' == c.(pc := Draining)
    case Return => c.pc.Draining? && c.from.None? && c.to.None? && c' == c.(pc := Returned)
    case Refuse => !Over(c.pc) && c' == c.(pc := Refused)
  }

  predicate Over(pc: Pc) {
    pc.Returned? || pc.Refused? || pc.Aborted?
  }

  ghost predicate Run(clocks: seq<Clock>, events: seq<Event>) {
    && |clocks| == |events| + 1 && clocks[0] == Clock(Ready(At(0.0)), None, None, [])
    && forall k :: 0 <= k < |events| ==> Next(clocks[k], events[k], clocks[k + 1])
  }

  // ---------------------------------------------------------------- no time beyond the limit is returned

  ghost predicate AllBounded(ends: seq<Time>) {
    forall k :: 0 <= k < |ends| ==> Bounded(ends[k])
  }

  predicate Late(lane: Option<Time>) {
    lane.Some? && !Bounded(lane.value)
  }

  /** The run can no longer return: a transfer in flight ends beyond the limit, or the loop runs towards
      a time it cannot reach. */
  predicate Doomed(c: Clock) {
    Late(c.from) || Late(c.to) || (c.pc.Advancing? && !Bounded(c.pc.target)) || c.pc.Refused? || c.pc.Aborted?
  }

  ghost predicate Inv(c: Clock) {
    && (c.from.Some? ==> !c.from.value.NaN? && c.from.value in c.ends)
    && (c.to.Some? ==> !c.to.value.NaN? && c.to.value in c.ends)
    && (c.pc.Ready? ==> !c.pc.now.NaN?)
    && (c.pc.Returned? ==> c.from.None? && c.to.None?)
    && (AllBounded(c.ends) || Doomed(c))
  }

  lemma LessOrNot(a: Time, b: Time)
    requires !a.NaN? && !b.NaN?
    ensures Less(a, b) || AtMost(b, a)
    ensures !(Less(a, b) && AtMost(b, a))
  {
  }

  /** A transfer that starts and would end beyond the limit dooms the run. */
  lemma StartKeepsInv(c: Clock, end: Time, c': Clock)
    requires Inv(c) && !end.NaN? && !Over(c.pc) && c'.pc == c.pc && c'.ends == c.ends + [end]
    requires (c.from.None? && c'.from == Some(end) && c'.to == c.to) ||
             (c.to.None? && c'.to == Some(end) && c'.from == c.from)
    ensures Inv(c')
  {
    if AllBounded(c.ends) && Bounded(end) {
      assert AllBounded(c'.ends);
    }
  }

  /** Completing the transfer that ends first leaves a later one, if one ended beyond the limit. */
  lemma CompletionKeepsInv(c: Clock, done: Clock)
    requires Inv(c) && !Over(c.pc) && (c.pc.Advancing? || c.pc.Draining?)
    requires c.pc.Advancing? ==> !Less(c.pc.target, Least(End(c.from), End(c.to)))
    requires if AtMost(End(c.from), End(c.to)) then c.from.Some? && done == c.(from := None)
             else c.to.Some? && done == c.(to := None)
    ensures Inv(done)
  {
    LessOrNot(End(c.to), End(c.from));
    if c.pc.Advancing? && Bounded(c.pc.target) {
      LessOrNot(c.pc.target, Least(End(c.from), End(c.to)));
    }
  }

  lemma StepKeepsInv(c: Clock, e: Event, c': Clock)
    requires Inv(c) && Next(c, e, c')
    ensures Inv(c')
  {
    match e {
      case StartFrom(d) => StartKeepsInv(c, Plus(c.pc.now, d), c');
      case StartTo(d) => StartKeepsInv(c, Plus(c.pc.now, d), c');
      case RunTask(end) => assert Bounded(end) && AllBounded(c.ends) ==> AllBounded(c'.ends);
      case Complete(next, other) =>
        if AtMost(End(c.from), End(c.to)) && c.from.Some? {
          var done := c.(from := None);
          CompletionKeepsInv(c, done);
          if next.Some? {
            StartKeepsInv(done, Plus(c.from.value, next.value), c');
          }
        } else if !AtMost(End(c.from), End(c.to)) && c.to.Some? {
          var done := c.(to := None);
          CompletionKeepsInv(c, done);
          var mid := if next.None? then done else StartedTo(done, c.to.value, next.value);
          if next.Some? {
            StartKeepsInv(done, Plus(c.to.value, next.value), mid);
          }
          if other.Some? {
            StartKeepsInv(mid, Plus(c.to.value, other.value), c');
          }
        }
      case _ =>
    }
  }

  lemma {:induction false} RunKeepsInv(clocks: seq<Clock>, events: seq<Event>, k: nat)
    requires Run(clocks, events) && k < |clocks|
    ensures Inv(clocks[k])
  {
    if k > 0 {
      RunKeepsInv(clocks, events, k - 1);
      StepKeepsInv(clocks[k - 1], events[k - 1], clocks[k]);
    }
  }

  /** Some run returns a log with these ends. */
  ghost predicate Returns(ends: seq<Time>) {
    exists clocks: seq<Clock>, events: seq<Event> ::
      Run(clocks, events) && clocks[|events|].pc.Returned? && clocks[|events|].ends == ends
  }

  /** A run that returns its log has logged no end beyond the limit, and none that is not a number:
      whatever would end later makes the simulator abort. */
  lemma ReturnedIsBounded(ends: seq<Time>)
    requires Returns(ends)
    ensures AllBounded(ends)
  {
    var clocks: seq<Clock>, events: seq<Event> :|
      Run(clocks, events) && clocks[|events|].pc.Returned? && clocks[|events|].ends == ends;
    RunKeepsInv(clocks, events, |events|);
  }

  /** The simulator aborts in these loops only when some time it runs towards or has logged reaches the
      limit. */
  lemma AbortsOnlyAtTheLimit(clocks: seq<Clock>, events: seq<Event>, k: nat)
    requires Run(clocks, events) && k < |events| && !Over(clocks[k].pc) && clocks[k + 1].pc.Aborted?
    ensures (clocks[k].pc.Advancing? && !Less(clocks[k].pc.target, IDLE)) ||
      exists end :: end in clocks[k].ends && !Less(end, IDLE)
  {
    var c := clocks[k];
    RunKeepsInv(clocks, events, k);
    assert Next(c, events[k], clocks[k + 1]) && events[k].Complete?;
    if c.from.Some? {
      assert !Less(c.from.value, IDLE);
    } else if c.to.Some? {
      assert !Less(c.to.value, IDLE);
    }
  }

  /** With nothing in flight, running towards such a time aborts at once. */
  lemma EndlessTaskAborts(c: Clock, e: Event, c': Clock)
    requires c.pc.Advancing? && !Less(c.pc.target, IDLE) && c.from.None? && c.to.None? && Next(c, e, c') && !e.Refuse?
    ensures c'.pc.Aborted?
  {
  }
}
