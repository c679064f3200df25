/** `save_checkpoint` (src/dataflow/checkpoint/compose.py) as a step machine. The composer walks its
    program one call at a time, the sources' daemons run their snapshot jobs on their own, and at
    any point a call may fail or the composer may stop for good. The disk survives. */
module CheckpointProtocol {
  import opened Wrappers
  import opened CheckpointRecord
  import opened CheckpointReassembly
  import opened CheckpointSave
  import opened CheckpointDirectory

  /** The temporary record file: half-written, or holding the whole document. */
  datatype Tmp = NoTmp | HalfTmp | FullTmp(doc: Record)

  datatype Disk = Disk(dirs: map<string, Dir>, tmp: Tmp, final: Option<Record>)

  /** One source's snapshot job, as its daemon sees it: writing its slices one by one, then its marker
      under a temporary name, then renaming it. */
  datatype Job =
    | Idle
    | Requested
    | Writing(slices: seq<Slice>, next: nat)
    | Marking(slices: seq<Slice>)
    | Done(slices: seq<Slice>)
    | Error

  datatype Pc =
    | Requesting(next: nat)
    | Waiting(next: nat)
    | Composing
    | Querying(doc: Record, next: nat)
    | Validating(doc: Record)
    | OpeningTmp(doc: Record)
    | FillingTmp(doc: Record)
    | Renaming(doc: Record)
    | Landed(doc: Record)
    | Raised
    | Stopped

  datatype State = State(pc: Pc, jobs: seq<Job>, disk: Disk)

  /** What one call of `save_checkpoint` is given, and how its sources hash. */
  datatype Config = Config(
    sources: seq<Source>, step: int, seed: int, logical: map<string, Logical>,
    schemas: map<string, seq<Field>>, digest: seq<Field> -> Digest, hash: Hash)

  ghost predicate Init(cfg: Config, s: State, disk: Disk) {
    s.pc == Requesting(0) && |s.jobs| == |cfg.sources| && s.disk == disk &&
    forall i :: 0 <= i < |s.jobs| ==> s.jobs[i] == Idle
  }

  /** A slice list the engine does not refuse outright. */
  ghost predicate Admitted(source: Source) {
    source.wires != [] && WiresOk(source.wires)
  }

  /** The composer gets as far as source `i`: a refused slice list raises at once. */
  ghost predicate Reached(cfg: Config, i: nat)
    requires i < |cfg.sources|
  {
    forall k :: 0 <= k <= i ==> Admitted(cfg.sources[k])
  }

  // ---------------------------------------------------------------- steps

  datatype Action =
    | Request | StartWaiting | Wait | StartComposing
    | Compose(slices: Slices) | Query | StartValidating
    | Validate | OpenTmp | FillTmp | Rename
    | Raise | Stop
    | Begin(i: nat, resident: Resident) | Write(i: nat) | Mark(i: nat) | Land(i: nat) | Break(i: nat)

  /** The statuses the composer has waited for. */
  function Statuses(hash: Hash, jobs: seq<Job>): seq<seq<Streamed>>
    requires forall i :: 0 <= i < |jobs| ==> jobs[i].Done?
  {
    seq(|jobs|, i requires 0 <= i < |jobs| => Report(hash, jobs[i].slices))
  }

  ghost predicate AllDone(cfg: Config, jobs: seq<Job>) {
    |jobs| == |cfg.sources| && forall i :: 0 <= i < |jobs| ==> jobs[i].Done?
  }

  /** The slice table `ComposeSlices` returns, accepted by `CheckReplicationDrift`. */
  ghost predicate ComposesTo(cfg: Config, jobs: seq<Job>, slices: Slices)
    requires AllDone(cfg, jobs)
  {
    Tabulates(cfg.sources, Statuses(cfg.hash, jobs), slices)
  }

  /** The composer's computation between the last wait and the engine queries realises `ComposesTo`:
      it yields a table exactly when one exists. */
  method ComposeAndCheck(cfg: Config, jobs: seq<Job>) returns (r: Result<Slices, SaveError>)
    requires AllDone(cfg, jobs)
    ensures r.Ok? ==> ComposesTo(cfg, jobs, r.value)
    ensures r.Err? ==> forall slices :: !ComposesTo(cfg, jobs, slices)
  {
    r := TabulateAndCheck(cfg.sources, Statuses(cfg.hash, jobs));
  }

  ghost function DocOf(cfg: Config, slices: Slices): Record {
    RecordOf(cfg.step, cfg.seed, cfg.logical, cfg.sources, slices)
  }

  /** A step of the composer's own program. */
  ghost predicate Advance(cfg: Config, s: State, a: Action, s': State)
    requires |s.jobs| == |cfg.sources|
  {
    match a
    case Request =>
      s.pc.Requesting? && s.pc.next < |cfg.sources| && s.jobs[s.pc.next] == Idle &&
      Admitted(cfg.sources[s.pc.next]) &&
      s' == s.(pc := Requesting(s.pc.next + 1), jobs := s.jobs[s.pc.next := Requested])
    case StartWaiting =>
      s.pc == Requesting(|cfg.sources|) && s' == s.(pc := Waiting(0))
    case Wait =>
      s.pc.Waiting? && s.pc.next < |cfg.sources| && s.jobs[s.pc.next].Done? &&
      s' == s.(pc := Waiting(s.pc.next + 1))
    case StartComposing =>
      s.pc == Waiting(|cfg.sources|) && s' == s.(pc := Composing)
    case Compose(slices) =>
      s.pc == Composing && AllDone(cfg, s.jobs) && ComposesTo(cfg, s.jobs, slices) &&
      s' == s.(pc := Querying(DocOf(cfg, slices), 0))
    case Query =>
      s.pc.Querying? && s.pc.next < |cfg.sources| && s' == s.(pc := Querying(s.pc.doc, s.pc.next + 1))
    case StartValidating =>
      s.pc.Querying? && s.pc.next == |cfg.sources| && s' == s.(pc := Validating(s.pc.doc))
    case Validate =>
      s.pc.Validating? && RecordValid(s.pc.doc, cfg.schemas, cfg.digest) && s' == s.(pc := OpeningTmp(s.pc.doc))
    case OpenTmp =>
      s.pc.OpeningTmp? && s' == s.(pc := FillingTmp(s.pc.doc), disk := s.disk.(tmp := HalfTmp))
    case FillTmp =>
      s.pc.FillingTmp? && s' == s.(pc := Renaming(s.pc.doc), disk := s.disk.(tmp := FullTmp(s.pc.doc)))
    case Rename =>
      s.pc.Renaming? && s.disk.tmp.FullTmp? &&
      s' == s.(pc := Landed(s.pc.doc), disk := s.disk.(tmp := NoTmp, final := Some(s.disk.tmp.doc)))
    case Raise => !Over(s.pc) && s' == s.(pc := Raised)
    case Stop => !Over(s.pc) && s' == s.(pc := Stopped)
    case _ => false
  }

  predicate Over(pc: Pc) {
    pc.Landed? || pc.Raised? || pc.Stopped?
  }

  predicate SamePath(cfg: Config, i: nat, j: nat)
    requires i < |cfg.sources| && j < |cfg.sources|
  {
    i != j && cfg.sources[i].path == cfg.sources[j].path
  }

  function DirAt(dirs: map<string, Dir>, p: string): Dir {
    if p in dirs then dirs[p] else Dir([], None, None)
  }

  /** Job `i` goes on as `job`, and leaves its directory as `dir`. */
  ghost function Changed(cfg: Config, s: State, i: nat, job: Job, dir: Dir): State
    requires |s.jobs| == |cfg.sources| && i < |s.jobs|
  {
    s.(jobs := s.jobs[i := job], disk := s.disk.(dirs := s.disk.dirs[cfg.sources[i].path := dir]))
  }

  /** A step of a source's daemon, which runs on whatever happens to the composer. A job truncates the
      payload file of its directory, writes its slices at their offsets, and lands its marker; another
      job may be at work in the same directory, and a rename fails if the temporary marker is gone. */
  ghost predicate Daemon(cfg: Config, s: State, a: Action, s': State)
    requires |s.jobs| == |cfg.sources|
  {
    match a
    case Begin(i, resident) =>
      i < |s.jobs| && s.jobs[i] == Requested && Fits(resident, cfg.sources[i].wires) &&
      s' == Changed(cfg, s, i, Writing(Segments(resident, cfg.sources[i].wires), 0),
                    DirAt(s.disk.dirs, cfg.sources[i].path).(payload := []))
    case Write(i) =>
      i < |s.jobs| && s.jobs[i].Writing? && s.jobs[i].next < |s.jobs[i].slices| &&
      var dir, slices, n := DirAt(s.disk.dirs, cfg.sources[i].path), s.jobs[i].slices, s.jobs[i].next;
      s' == Changed(cfg, s, i, Writing(slices, n + 1),
                    dir.(payload := WriteAt(dir.payload, OffsetOf(slices, n), slices[n].bytes)))
    case Mark(i) =>
      i < |s.jobs| && s.jobs[i].Writing? && s.jobs[i].next == |s.jobs[i].slices| &&
      s' == Changed(cfg, s, i, Marking(s.jobs[i].slices),
                    DirAt(s.disk.dirs, cfg.sources[i].path).(tmp := Some(MarkerOf(cfg.hash, s.jobs[i].slices))))
    case Land(i) =>
      i < |s.jobs| && s.jobs[i].Marking? &&
      var dir := DirAt(s.disk.dirs, cfg.sources[i].path);
      dir.tmp.Some? && s' == Changed(cfg, s, i, Done(s.jobs[i].slices), dir.(tmp := None, marker := dir.tmp))
    case Break(i) =>
      i < |s.jobs| && (s.jobs[i] == Requested || s.jobs[i].Writing? || s.jobs[i].Marking?) &&
      s' == s.(jobs := s.jobs[i := Error])
    case _ => false
  }

  ghost predicate Next(cfg: Config, s: State, a: Action, s': State) {
    |s.jobs| == |cfg.sources| && (Advance(cfg, s, a, s') || Daemon(cfg, s, a, s'))
  }

  /** A run: every consecutive pair is a step. */
  ghost predicate Run(cfg: Config, disk: Disk, states: seq<State>, actions: seq<Action>) {
    && |states| == |actions| + 1 && Init(cfg, states[0], disk)
    && forall k :: 0 <= k < |actions| ==> Next(cfg, states[k], actions[k], states[k + 1])
  }

  // ---------------------------------------------------------------- what a record promises

  /** The slice's directory is intact and lists the span, with the very hash the record gives if it
      gives one. */
  ghost predicate Backed(hash: Hash, record: Record, lid: string, e: Entry, dirs: map<string, Dir>) {
    && 0 <= e.snapshot < |record.snapshots| && record.snapshots[e.snapshot].path in dirs
    && var dir := dirs[record.snapshots[e.snapshot].path];
    Intact(hash, dir) && Listing(hash, Held(dir), lid, e)
  }

  ghost predicate Listing(hash: Hash, slices: seq<Slice>, lid: string, e: Entry) {
    var h := LastHash(Report(hash, slices), Where(lid, e.dst));
    h.Some? && (e.hash.Some? ==> e.hash == h)
  }

  ghost predicate AllBacked(hash: Hash, record: Record, dirs: map<string, Dir>) {
    forall lid, e {:trigger Backed(hash, record, lid, e, dirs)} ::
      lid in record.logical && e in EntriesOf(record, lid) ==> Backed(hash, record, lid, e, dirs)
  }

  /** The completeness marker: a record at the final name validates and every snapshot it names has
      landed. */
  ghost predicate MarkerHolds(cfg: Config, disk: Disk) {
    disk.final.Some? ==>
      RecordValid(disk.final.value, map[], cfg.digest) && AllBacked(cfg.hash, disk.final.value, disk.dirs)
  }

  /** A source the composer gets to writes this directory. */
  ghost predicate Rewrites(cfg: Config, p: string) {
    exists i :: 0 <= i < |cfg.sources| && Reached(cfg, i) && cfg.sources[i].path == p
  }

  /** What a caller can check first: no slice of a record already there lives in a directory that
      this save will rewrite. A fresh destination has no record at all. */
  ghost predicate NothingToOverwrite(cfg: Config, disk: Disk) {
    disk.final.Some? ==> forall lid, e ::
      lid in disk.final.value.logical && e in EntriesOf(disk.final.value, lid) &&
      0 <= e.snapshot < |disk.final.value.snapshots| ==>
        !Rewrites(cfg, disk.final.value.snapshots[e.snapshot].path)
  }

  ghost predicate Alone(cfg: Config, i: nat)
    requires i < |cfg.sources|
  {
    forall j {:trigger SamePath(cfg, i, j)} :: 0 <= j < |cfg.sources| ==> !SamePath(cfg, i, j)
  }

  /** The other thing to check: every source with entries in the record has its directory to itself.
      The composer never compares paths. */
  ghost predicate OwnDirectories(cfg: Config) {
    forall i {:trigger Alone(cfg, i)} :: 0 <= i < |cfg.sources| && cfg.sources[i].entries != [] ==> Alone(cfg, i)
  }

  // ---------------------------------------------------------------- the invariant

  predicate Begun(job: Job) {
    job.Writing? || job.Marking? || job.Done?
  }

  function PartOf(job: Job): Part
    requires Begun(job)
  {
    Part(job.slices, if job.Writing? then job.next else |job.slices|)
  }

  /** The jobs that have begun in a directory. */
  ghost function Parts(cfg: Config, jobs: seq<Job>, p: string): set<Part>
    requires |jobs| == |cfg.sources|
  {
    set j | 0 <= j < |jobs| && cfg.sources[j].path == p && Begun(jobs[j]) :: PartOf(jobs[j])
  }

  /** Those that have written a marker. */
  ghost function MarkedIn(cfg: Config, jobs: seq<Job>, p: string): set<seq<Slice>>
    requires |jobs| == |cfg.sources|
  {
    set j | 0 <= j < |jobs| && cfg.sources[j].path == p && (jobs[j].Marking? || jobs[j].Done?) :: jobs[j].slices
  }

  ghost predicate MarkerFrom(hash: Hash, marked: set<seq<Slice>>, marker: Option<seq<Line>>) {
    marker.Some? && exists slices :: slices in marked && marker.value == MarkerOf(hash, slices)
  }

  ghost predicate NoneFailed(cfg: Config, jobs: seq<Job>, p: string)
    requires |jobs| == |cfg.sources|
  {
    forall j :: 0 <= j < |jobs| && cfg.sources[j].path == p ==> jobs[j] != Error
  }

  ghost predicate SomeDone(cfg: Config, jobs: seq<Job>, p: string)
    requires |jobs| == |cfg.sources|
  {
    exists j :: 0 <= j < |jobs| && cfg.sources[j].path == p && jobs[j].Done?
  }

  /** What a directory is while its jobs run: an overlay of their writes, under one of their markers. */
  ghost predicate DirOk(hash: Hash, parts: set<Part>, marked: set<seq<Slice>>, done: bool, dir: Dir) {
    && (parts != {} ==> Overlay(parts, dir.payload))
    && (marked != {} && dir.tmp.Some? ==> MarkerFrom(hash, marked, dir.tmp))
    && (done ==> MarkerFrom(hash, marked, dir.marker))
  }

  ghost predicate DirFollows(cfg: Config, jobs: seq<Job>, dirs: map<string, Dir>, p: string)
    requires |jobs| == |cfg.sources|
  {
    NoneFailed(cfg, jobs, p) ==>
      && (Parts(cfg, jobs, p) != {} ==> p in dirs)
      && DirOk(cfg.hash, Parts(cfg, jobs, p), MarkedIn(cfg, jobs, p), SomeDone(cfg, jobs, p), DirAt(dirs, p))
  }

  ghost predicate DirsFollowJobs(cfg: Config, s: State) {
    && |s.jobs| == |cfg.sources|
    && (forall p {:trigger DirFollows(cfg, s.jobs, s.disk.dirs, p)} :: DirFollows(cfg, s.jobs, s.disk.dirs, p))
  }

  /** A job streams its source's requests from some contents of its objects. */
  ghost predicate StreamedBy(cfg: Config, i: nat, slices: seq<Slice>)
    requires i < |cfg.sources|
  {
    cfg.sources[i].wires != [] && exists resident: Resident ::
      Fits(resident, cfg.sources[i].wires) && slices == Segments(resident, cfg.sources[i].wires)
  }

  ghost predicate JobsOk(cfg: Config, jobs: seq<Job>) {
    && |jobs| == |cfg.sources|
    && (forall i {:trigger Begun(jobs[i])} :: 0 <= i < |jobs| && Begun(jobs[i]) ==> StreamedBy(cfg, i, jobs[i].slices))
  }

  lemma StreamedIsSized(cfg: Config, jobs: seq<Job>, i: nat)
    requires JobsOk(cfg, jobs) && i < |jobs| && Begun(jobs[i])
    ensures jobs[i].slices != [] && Sized(jobs[i].slices)
  {
    assert StreamedBy(cfg, i, jobs[i].slices);
    var resident: Resident :|
      Fits(resident, cfg.sources[i].wires) && jobs[i].slices == Segments(resident, cfg.sources[i].wires);
    SegmentsSized(resident, cfg.sources[i].wires);
  }

  ghost predicate DonePrefix(s: State, n: nat) {
    n <= |s.jobs| && forall i :: 0 <= i < n ==> s.jobs[i].Done?
  }

  /** The document in hand is the composition of the finished jobs' statuses. */
  ghost predicate Composition(cfg: Config, jobs: seq<Job>, doc: Record) {
    AllDone(cfg, jobs) && exists slices :: ComposesTo(cfg, jobs, slices) && doc == DocOf(cfg, slices)
  }

  ghost predicate PcOk(cfg: Config, s: State) {
    match s.pc
    case Requesting(n) => n <= |cfg.sources| && forall k :: 0 <= k < n ==> Admitted(cfg.sources[k])
    case Waiting(n) => DonePrefix(s, n)
    case Composing => AllDone(cfg, s.jobs)
    case Querying(doc, _) => Composition(cfg, s.jobs, doc)
    case Validating(doc) => Composition(cfg, s.jobs, doc)
    case OpeningTmp(doc) => Composition(cfg, s.jobs, doc) && RecordValid(doc, cfg.schemas, cfg.digest)
    case FillingTmp(doc) => Composition(cfg, s.jobs, doc) && RecordValid(doc, cfg.schemas, cfg.digest)
    case Renaming(doc) =>
      Composition(cfg, s.jobs, doc) && RecordValid(doc, cfg.schemas, cfg.digest) && s.disk.tmp == FullTmp(doc)
    case Landed(doc) => Composition(cfg, s.jobs, doc) && RecordValid(doc, cfg.schemas, cfg.digest)
    case Raised => true
    case Stopped => true
  }

  /** Where the final name points: at what was there before, or at this save's landed document. */
  ghost predicate FinalOk(disk: Disk, s: State) {
    if s.pc.Landed? then s.disk.final == Some(s.pc.doc) else s.disk.final == disk.final
  }

  ghost predicate Untouched(cfg: Config, disk: Disk, dirs: map<string, Dir>) {
    forall p :: !Rewrites(cfg, p) ==>
      (p in dirs <==> p in disk.dirs) && (p in disk.dirs ==> dirs[p] == disk.dirs[p])
  }

  ghost predicate Asked(cfg: Config, jobs: seq<Job>) {
    |jobs| == |cfg.sources| && forall i :: 0 <= i < |jobs| && jobs[i] != Idle ==> Reached(cfg, i)
  }

  ghost predicate Inv(cfg: Config, disk: Disk, s: State) {
    DirsFollowJobs(cfg, s) && JobsOk(cfg, s.jobs) && Asked(cfg, s.jobs) && PcOk(cfg, s) && FinalOk(disk, s) &&
    Untouched(cfg, disk, s.disk.dirs)
  }

  lemma InitInv(cfg: Config, disk: Disk, s: State)
    requires Init(cfg, s, disk)
    ensures Inv(cfg, disk, s)
  {
  }

  /** A job that has not begun leaves no trace in any directory. */
  lemma RequestKeepsDirs(cfg: Config, s: State, n: nat)
    requires DirsFollowJobs(cfg, s) && JobsOk(cfg, s.jobs) && n < |s.jobs| && s.jobs[n] == Idle
    ensures DirsFollowJobs(cfg, s.(pc := Requesting(n + 1), jobs := s.jobs[n := Requested]))
    ensures JobsOk(cfg, s.jobs[n := Requested])
  {
    var jobs := s.jobs[n := Requested];
    forall p ensures DirFollows(cfg, jobs, s.disk.dirs, p) {
      assert DirFollows(cfg, s.jobs, s.disk.dirs, p);
      SameTraces(cfg, s.jobs, jobs, p);
    }
    forall i | 0 <= i < |jobs| && Begun(jobs[i]) ensures StreamedBy(cfg, i, jobs[i].slices) {
      assert Begun(s.jobs[i]);
    }
  }

  lemma SameTraces(cfg: Config, jobs: seq<Job>, jobs': seq<Job>, p: string)
    requires |jobs| == |jobs'| == |cfg.sources|
    requires forall j :: 0 <= j < |jobs| && cfg.sources[j].path == p ==>
      jobs'[j] == jobs[j] || (jobs[j] == Idle && jobs'[j] == Requested)
    ensures Parts(cfg, jobs', p) == Parts(cfg, jobs, p) && MarkedIn(cfg, jobs', p) == MarkedIn(cfg, jobs, p)
    ensures NoneFailed(cfg, jobs', p) == NoneFailed(cfg, jobs, p) && SomeDone(cfg, jobs', p) == SomeDone(cfg, jobs, p)
  {
    forall j | 0 <= j < |jobs| && cfg.sources[j].path == p
      ensures Begun(jobs'[j]) == Begun(jobs[j]) && (Begun(jobs[j]) ==> jobs'[j] == jobs[j])
    {
    }
  }

  lemma ComposerKeepsPc(cfg: Config, disk: Disk, s: State, a: Action, s': State)
    requires |s.jobs| == |cfg.sources| && PcOk(cfg, s) && FinalOk(disk, s) && Advance(cfg, s, a, s')
    ensures PcOk(cfg, s') && FinalOk(disk, s')
  {
  }

  lemma ComposerKeepsInv(cfg: Config, disk: Disk, s: State, a: Action, s': State)
    requires Inv(cfg, disk, s) && Advance(cfg, s, a, s')
    ensures Inv(cfg, disk, s')
  {
    ComposerKeepsPc(cfg, disk, s, a, s');
    if a.Request? {
      RequestKeepsDirs(cfg, s, s.pc.next);
    } else {
      assert s'.jobs == s.jobs && s'.disk.dirs == s.disk.dirs;
      forall p ensures DirFollows(cfg, s'.jobs, s'.disk.dirs, p) {
        assert DirFollows(cfg, s.jobs, s.disk.dirs, p);
      }
    }
  }

  // ---------------------------------------------------------------- the daemons keep it

  /** The traces in a directory after job `i` of it went on as `job`. */
  lemma PartsAfter(cfg: Config, jobs: seq<Job>, i: nat, job: Job, p: string)
    requires |jobs| == |cfg.sources| && i < |jobs| && cfg.sources[i].path == p && Begun(job)
    ensures PartOf(job) in Parts(cfg, jobs[i := job], p)
    ensures Begun(jobs[i]) ==> PartOf(jobs[i]) in Parts(cfg, jobs, p)
    ensures Begun(jobs[i]) ==> Parts(cfg, jobs, p) - {PartOf(jobs[i])} <= Parts(cfg, jobs[i := job], p)
    ensures Begun(jobs[i]) && PartOf(job) == PartOf(jobs[i]) ==> Parts(cfg, jobs[i := job], p) == Parts(cfg, jobs, p)
  {
    var jobs' := jobs[i := job];
    assert jobs'[i] == job;
    forall j | 0 <= j < |jobs| && j != i && cfg.sources[j].path == p && Begun(jobs[j])
      ensures PartOf(jobs[j]) in Parts(cfg, jobs', p)
    {
      assert jobs'[j] == jobs[j];
    }
    if Begun(jobs[i]) && PartOf(job) == PartOf(jobs[i]) {
      forall x ensures x in Parts(cfg, jobs', p) <==> x in Parts(cfg, jobs, p) {
        if x in Parts(cfg, jobs', p) {
          var j :| 0 <= j < |jobs| && cfg.sources[j].path == p && Begun(jobs'[j]) && PartOf(jobs'[j]) == x;
          assert Begun(jobs[j]) && PartOf(jobs[j]) == x;
        }
      }
    }
  }

  lemma MarkedAfter(cfg: Config, jobs: seq<Job>, i: nat, job: Job, p: string)
    requires |jobs| == |cfg.sources| && i < |jobs| && cfg.sources[i].path == p && !jobs[i].Done?
    requires jobs[i].Marking? ==> job == Done(jobs[i].slices)
    ensures MarkedIn(cfg, jobs, p) <= MarkedIn(cfg, jobs[i := job], p)
    ensures job.Marking? || job.Done? ==> job.slices in MarkedIn(cfg, jobs[i := job], p)
    ensures !job.Marking? && !job.Done? ==> MarkedIn(cfg, jobs[i := job], p) == MarkedIn(cfg, jobs, p)
    ensures !job.Done? ==> SomeDone(cfg, jobs[i := job], p) == SomeDone(cfg, jobs, p)
    ensures NoneFailed(cfg, jobs[i := job], p) && !jobs[i].Error? ==> NoneFailed(cfg, jobs, p)
  {
    var jobs' := jobs[i := job];
    assert jobs'[i] == job;
    forall j | 0 <= j < |jobs| && cfg.sources[j].path == p && (jobs[j].Marking? || jobs[j].Done?)
      ensures jobs[j].slices in MarkedIn(cfg, jobs', p)
    {
      assert jobs'[j].Marking? || jobs'[j].Done?;
    }
    if !job.Done? && SomeDone(cfg, jobs, p) {
      var j :| 0 <= j < |jobs| && cfg.sources[j].path == p && jobs[j].Done?;
      assert jobs'[j].Done?;
    }
    forall j | NoneFailed(cfg, jobs', p) && !jobs[i].Error? && 0 <= j < |jobs| && cfg.sources[j].path == p
      ensures jobs[j] != Error
    {
      assert jobs'[j] != Error;
    }
  }

  lemma MarkerStays(hash: Hash, marked: set<seq<Slice>>, marked': set<seq<Slice>>, marker: Option<seq<Line>>)
    requires MarkerFrom(hash, marked, marker) && marked <= marked'
    ensures MarkerFrom(hash, marked', marker)
  {
  }

  ghost predicate FollowsOwn(cfg: Config, jobs: seq<Job>, dir: Dir, p: string)
    requires |jobs| == |cfg.sources|
  {
    DirOk(cfg.hash, Parts(cfg, jobs, p), MarkedIn(cfg, jobs, p), SomeDone(cfg, jobs, p), dir)
  }

  lemma BeginKeepsDir(cfg: Config, jobs: seq<Job>, dir: Dir, i: nat, job: Job, p: string)
    requires |jobs| == |cfg.sources| && i < |jobs| && cfg.sources[i].path == p && jobs[i] == Requested
    requires FollowsOwn(cfg, jobs, dir, p) && job.Writing? && job.next == 0
    ensures FollowsOwn(cfg, jobs[i := job], dir.(payload := []), p)
  {
    PartsAfter(cfg, jobs, i, job, p);
    MarkedAfter(cfg, jobs, i, job, p);
    OverlayStarts(Parts(cfg, jobs[i := job], p), job.slices);
  }

  lemma WriteKeepsDir(cfg: Config, jobs: seq<Job>, dir: Dir, i: nat, slices: seq<Slice>, n: nat, p: string)
    requires |jobs| == |cfg.sources| && i < |jobs| && cfg.sources[i].path == p && jobs[i] == Writing(slices, n)
    requires FollowsOwn(cfg, jobs, dir, p) && n < |slices| && SizedSlice(slices[n])
    ensures FollowsOwn(cfg, jobs[i := Writing(slices, n + 1)],
                       dir.(payload := WriteAt(dir.payload, OffsetOf(slices, n), slices[n].bytes)), p)
  {
    var job := Writing(slices, n + 1);
    PartsAfter(cfg, jobs, i, job, p);
    MarkedAfter(cfg, jobs, i, job, p);
    OverlayWrites(Parts(cfg, jobs, p), Parts(cfg, jobs[i := job], p), dir.payload, slices, n);
  }

  lemma MarkKeepsDir(cfg: Config, jobs: seq<Job>, dir: Dir, i: nat, slices: seq<Slice>, p: string)
    requires |jobs| == |cfg.sources| && i < |jobs| && cfg.sources[i].path == p && jobs[i] == Writing(slices, |slices|)
    requires FollowsOwn(cfg, jobs, dir, p)
    ensures FollowsOwn(cfg, jobs[i := Marking(slices)], dir.(tmp := Some(MarkerOf(cfg.hash, slices))), p)
  {
    var job := Marking(slices);
    PartsAfter(cfg, jobs, i, job, p);
    MarkedAfter(cfg, jobs, i, job, p);
    if SomeDone(cfg, jobs, p) {
      MarkerStays(cfg.hash, MarkedIn(cfg, jobs, p), MarkedIn(cfg, jobs[i := job], p), dir.marker);
    }
  }

  lemma LandKeepsDir(cfg: Config, jobs: seq<Job>, dir: Dir, i: nat, slices: seq<Slice>, p: string)
    requires |jobs| == |cfg.sources| && i < |jobs| && cfg.sources[i].path == p && jobs[i] == Marking(slices)
    requires FollowsOwn(cfg, jobs, dir, p) && dir.tmp.Some?
    ensures FollowsOwn(cfg, jobs[i := Done(slices)], dir.(tmp := None, marker := dir.tmp), p)
  {
    var job := Done(slices);
    PartsAfter(cfg, jobs, i, job, p);
    MarkedAfter(cfg, jobs, i, job, p);
    assert slices in MarkedIn(cfg, jobs, p);
    MarkerStays(cfg.hash, MarkedIn(cfg, jobs, p), MarkedIn(cfg, jobs[i := job], p), dir.tmp);
  }

  /** A step of job `i` keeps its own directory... */
  lemma OwnDirFollows(cfg: Config, s: State, a: Action, s': State, i: nat, p: string)
    requires DirsFollowJobs(cfg, s) && JobsOk(cfg, s.jobs) && Daemon(cfg, s, a, s') && !a.Break?
    requires i == a.i && p == cfg.sources[i].path
    ensures DirFollows(cfg, s'.jobs, s'.disk.dirs, p)
  {
    assert DirFollows(cfg, s.jobs, s.disk.dirs, p);
    var dir := DirAt(s.disk.dirs, p);
    if NoneFailed(cfg, s'.jobs, p) {
      MarkedAfter(cfg, s.jobs, i, s'.jobs[i], p);
      assert FollowsOwn(cfg, s.jobs, dir, p);
      match a {
        case Begin(_, resident) =>
          BeginKeepsDir(cfg, s.jobs, dir, i, s'.jobs[i], p);
        case Write(_) =>
          StreamedIsSized(cfg, s.jobs, i);
          WriteKeepsDir(cfg, s.jobs, dir, i, s.jobs[i].slices, s.jobs[i].next, p);
        case Mark(_) =>
          MarkKeepsDir(cfg, s.jobs, dir, i, s.jobs[i].slices, p);
        case Land(_) =>
          LandKeepsDir(cfg, s.jobs, dir, i, s.jobs[i].slices, p);
      }
    }
  }

  /** ... and every other. */
  lemma DaemonKeepsDirs(cfg: Config, s: State, a: Action, s': State)
    requires DirsFollowJobs(cfg, s) && JobsOk(cfg, s.jobs) && Daemon(cfg, s, a, s')
    ensures DirsFollowJobs(cfg, s')
  {
    forall p ensures DirFollows(cfg, s'.jobs, s'.disk.dirs, p) {
      if p != cfg.sources[a.i].path {
        assert DirFollows(cfg, s.jobs, s.disk.dirs, p);
        SameTraces(cfg, s.jobs, s'.jobs, p);
      } else if a.Break? {
        assert s'.jobs[a.i] == Error;
      } else {
        OwnDirFollows(cfg, s, a, s', a.i, p);
      }
    }
  }

  /** A finished job stays as it is. */
  lemma DaemonKeepsDone(cfg: Config, s: State, a: Action, s': State)
    requires JobsOk(cfg, s.jobs) && Asked(cfg, s.jobs) && Daemon(cfg, s, a, s')
    ensures |s'.jobs| == |s.jobs| && forall i :: 0 <= i < |s.jobs| && s.jobs[i].Done? ==> s'.jobs[i] == s.jobs[i]
    ensures JobsOk(cfg, s'.jobs) && Asked(cfg, s'.jobs)
  {
    assert s.jobs[a.i] != Idle && Reached(cfg, a.i);
    forall i | 0 <= i < |s'.jobs| && Begun(s'.jobs[i]) ensures StreamedBy(cfg, i, s'.jobs[i].slices) {
      assert Begun(s.jobs[i]) ==> StreamedBy(cfg, i, s.jobs[i].slices);
    }
  }

  lemma DaemonKeepsPc(cfg: Config, disk: Disk, s: State, a: Action, s': State)
    requires |s.jobs| == |cfg.sources| && PcOk(cfg, s) && FinalOk(disk, s) && Daemon(cfg, s, a, s')
    requires |s'.jobs| == |s.jobs| && forall i :: 0 <= i < |s.jobs| && s.jobs[i].Done? ==> s'.jobs[i] == s.jobs[i]
    ensures PcOk(cfg, s') && FinalOk(disk, s')
  {
  }

  lemma DaemonKeepsInv(cfg: Config, disk: Disk, s: State, a: Action, s': State)
    requires Inv(cfg, disk, s) && Daemon(cfg, s, a, s')
    ensures Inv(cfg, disk, s')
  {
    DaemonKeepsDirs(cfg, s, a, s');
    DaemonKeepsDone(cfg, s, a, s');
    DaemonKeepsPc(cfg, disk, s, a, s');
    assert Rewrites(cfg, cfg.sources[a.i].path);
  }

  lemma {:induction false} RunKeepsInv(cfg: Config, disk: Disk, states: seq<State>, actions: seq<Action>, k: nat)
    requires Run(cfg, disk, states, actions) && k < |states|
    ensures Inv(cfg, disk, states[k])
  {
    if k == 0 {
      InitInv(cfg, disk, states[0]);
    } else {
      RunKeepsInv(cfg, disk, states, actions, k - 1);
      assert Next(cfg, states[k - 1], actions[k - 1], states[k]);
      if Advance(cfg, states[k - 1], actions[k - 1], states[k]) {
        ComposerKeepsInv(cfg, disk, states[k - 1], actions[k - 1], states[k]);
      } else {
        DaemonKeepsInv(cfg, disk, states[k - 1], actions[k - 1], states[k]);
      }
    }
  }
}
