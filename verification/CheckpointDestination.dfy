/** Which destinations are safe: the exact condition under which every run of `save_checkpoint` keeps a
    record at the final name a completeness marker, with the runs that break it otherwise. */
module CheckpointDestination {
  import opened Wrappers
  import opened CheckpointRecord
  import opened CheckpointReassembly
  import opened CheckpointSave
  import opened CheckpointDirectory
  import opened CheckpointProtocol
  import opened CheckpointSafety

  // ---------------------------------------------------------------- a dry run

  ghost function Blanks(cfg: Config): (residents: seq<Resident>)
    requires AllAdmitted(cfg)
    ensures |residents| == |cfg.sources|
    ensures forall i :: 0 <= i < |residents| ==> Fits(residents[i], cfg.sources[i].wires)
    ensures forall i :: 0 <= i < |residents| ==> residents[i] == Blank(cfg.sources[i].wires)
  {
    forall i | 0 <= i < |cfg.sources| ensures Fits(Blank(cfg.sources[i].wires), cfg.sources[i].wires) {
      assert Admitted(cfg.sources[i]);
      BlankFits(cfg.sources[i].wires);
    }
    seq(|cfg.sources|, i requires 0 <= i < |cfg.sources| => Blank(cfg.sources[i].wires))
  }

  ghost function DryRun(cfg: Config): (jobs: seq<Job>)
    requires AllAdmitted(cfg)
    ensures AllDone(cfg, jobs)
    ensures forall i :: 0 <= i < |jobs| ==>
      Fits(Blank(cfg.sources[i].wires), cfg.sources[i].wires) &&
      jobs[i].slices == Segments(Blank(cfg.sources[i].wires), cfg.sources[i].wires)
  {
    JobsFrom(cfg, Blanks(cfg))
  }

  /** Composed from zero-filled objects, the record validates: what a caller can compute beforehand. */
  ghost predicate Landable(cfg: Config) {
    AllAdmitted(cfg) && exists slices ::
      ComposesTo(cfg, DryRun(cfg), slices) && RecordValid(DocOf(cfg, slices), cfg.schemas, cfg.digest)
  }

  // ---------------------------------------------------------------- the bytes do not matter

  /** What is to stand at each place. */
  type Content = Where -> seq<byte>

  /** A report in which every hash depends on the place alone. */
  ghost predicate ByPlace(hash: Hash, content: Content, streamed: seq<Streamed>) {
    forall at :: LastHash(streamed, at).Some? ==> LastHash(streamed, at).value == hash(content(at))
  }

  function BlankAt(): Content {
    (at: Where) => Zeros(Extent(at.dst.hi - at.dst.lo))
  }

  lemma BlankHash(hash: Hash, wires: seq<Wire>, w: Option<Wire>, at: Where)
    requires w.Some? ==> WireFits(Blank(wires), w.value) && w.value.dst == at.dst
    ensures CutHash(hash, Blank(wires), w).Some? ==> CutHash(hash, Blank(wires), w).value == hash(BlankAt()(at))
  {
    if w.Some? {
      assert Cut(Blank(wires), w.value).bytes == BlankAt()(at);
    }
  }

  lemma BlankByPlace(hash: Hash, wires: seq<Wire>, streamed: seq<Streamed>)
    requires Fits(Blank(wires), wires) && streamed == Report(hash, Segments(Blank(wires), wires))
    ensures ByPlace(hash, BlankAt(), streamed)
  {
    forall at | LastHash(streamed, at).Some? ensures LastHash(streamed, at).value == hash(BlankAt()(at)) {
      LastHashIs(hash, Blank(wires), wires, at);
      BlankHash(hash, wires, LastWire(wires, at), at);
    }
  }

  /** Replicas agree in a table of such reports. */
  lemma ByPlaceAgrees(
    hash: Hash, content: Content, sources: seq<Source>, statuses: seq<seq<Streamed>>, entries: seq<Entry>, lid: string)
    requires |sources| == |statuses| && (forall i :: 0 <= i < |statuses| ==> ByPlace(hash, content, statuses[i]))
    requires forall i :: 0 <= i < |sources| ==> Hashed(sources[i].entries, statuses[i])
    requires entries == Composed(sources, statuses, |sources|, lid)
    ensures HashesAgree(entries)
  {
    ComposedProvenance(sources, statuses, |sources|, lid);
    forall k | 0 <= k < |entries| ensures entries[k].hash == Some(hash(content(Where(lid, entries[k].dst)))) {
      var e := entries[k];
      assert e in entries;
      ComposedIsHashed(sources, statuses, lid, e);
      assert ByPlace(hash, content, statuses[e.snapshot]);
    }
  }

  /** Whether a span is reported does not depend on what the objects hold. */
  lemma HashedAlike(hash: Hash, a: Resident, b: Resident, wires: seq<Wire>, entries: seq<Planned>)
    requires Fits(a, wires) && Fits(b, wires) && Hashed(entries, Report(hash, Segments(a, wires)))
    ensures Hashed(entries, Report(hash, Segments(b, wires)))
  {
    forall k | 0 <= k < |entries|
      ensures LastHash(Report(hash, Segments(b, wires)), Where(entries[k].lid, entries[k].dst)).Some?
    {
      LastHashIs(hash, a, wires, Where(entries[k].lid, entries[k].dst));
      LastHashIs(hash, b, wires, Where(entries[k].lid, entries[k].dst));
    }
  }

  /** The same entries but for their hashes. */
  ghost predicate SameShape(a: seq<Entry>, b: seq<Entry>) {
    |a| == |b| && forall k :: 0 <= k < |a| ==> b[k] == a[k].(hash := b[k].hash)
  }

  lemma {:induction false} SourceShape(i: int, entries: seq<Planned>, a: seq<Streamed>, b: seq<Streamed>, lid: string)
    ensures SameShape(FromSource(i, entries, a, lid), FromSource(i, entries, b, lid))
  {
    if entries != [] {
      SourceShape(i, entries[..|entries| - 1], a, b, lid);
    }
  }

  lemma {:induction false} ComposedShape(
    sources: seq<Source>, a: seq<seq<Streamed>>, b: seq<seq<Streamed>>, n: nat, lid: string)
    requires n <= |sources| == |a| == |b|
    ensures SameShape(Composed(sources, a, n, lid), Composed(sources, b, n, lid))
  {
    if n > 0 {
      ComposedShape(sources, a, b, n - 1, lid);
      SourceShape(n - 1, sources[n - 1].entries, a[n - 1], b[n - 1], lid);
    }
  }

  lemma ShapeKeepsValid(lid: string, total: int, a: seq<Entry>, b: seq<Entry>, snapshots: seq<Snapshot>)
    requires SameShape(a, b) && ObjectValid(lid, total, a, snapshots) && HashesAgree(b)
    ensures ObjectValid(lid, total, b, snapshots)
  {
    assert Spans(a) == Spans(b);
    forall i | 0 <= i < |b| ensures ShapeOk(lid, total, b[i], snapshots) {
      assert ShapeOk(lid, total, a[i], snapshots);
    }
    forall i, j, x | 0 <= i < |b| && 0 <= j < |b| && Covers(b[i].dst, x) && Covers(b[j].dst, x)
      ensures b[i].dst == b[j].dst
    {
      assert Covers(a[i].dst, x) && Covers(a[j].dst, x);
    }
  }

  lemma ShapeKeepsAligned(a: seq<Entry>, b: seq<Entry>, fields: seq<Field>)
    requires SameShape(a, b) && Aligned(a, fields)
    ensures Aligned(b, fields)
  {
    forall i | 0 <= i < |b| ensures EndpointOk(b[i].dst.lo, fields) && EndpointOk(b[i].dst.hi, fields) {
      assert a[i].dst == b[i].dst;
    }
  }

  lemma ShapeKeepsLogical(cfg: Config, a: Slices, b: Slices, lid: string)
    requires lid in cfg.logical && SameShape(SliceOf(a, lid), SliceOf(b, lid)) && HashesAgree(SliceOf(b, lid))
    requires LogicalValid(DocOf(cfg, a), lid, cfg.schemas, cfg.digest)
    ensures LogicalValid(DocOf(cfg, b), lid, cfg.schemas, cfg.digest)
  {
    var before, after := SliceOf(a, lid), SliceOf(b, lid);
    ShapeKeepsValid(lid, cfg.logical[lid].bytes, before, after, DocOf(cfg, b).snapshots);
    if lid in cfg.schemas {
      ShapeKeepsAligned(before, after, cfg.schemas[lid]);
    }
  }

  /** A valid record stays valid when other bytes give other hashes that agree. */
  lemma ShapeKeepsRecord(cfg: Config, a: Slices, b: Slices)
    requires RecordValid(DocOf(cfg, a), cfg.schemas, cfg.digest)
    requires forall lid :: SameShape(SliceOf(a, lid), SliceOf(b, lid)) && HashesAgree(SliceOf(b, lid))
    requires forall lid :: lid in b ==> b[lid] != []
    ensures RecordValid(DocOf(cfg, b), cfg.schemas, cfg.digest)
  {
    forall lid | lid in b ensures lid in cfg.logical {
      assert |SliceOf(a, lid)| == |SliceOf(b, lid)| > 0;
      assert lid in DocOf(cfg, a).slices.Keys;
    }
    forall lid | lid in cfg.logical ensures LogicalValid(DocOf(cfg, b), lid, cfg.schemas, cfg.digest) {
      assert LogicalValid(DocOf(cfg, a), lid, cfg.schemas, cfg.digest);
      ShapeKeepsLogical(cfg, a, b, lid);
    }
  }

  /** The lids some source plans an entry for. */
  function Lids(sources: seq<Source>): set<string> {
    set i, k | 0 <= i < |sources| && 0 <= k < |sources[i].entries| :: sources[i].entries[k].lid
  }

  lemma ComposedLids(sources: seq<Source>, statuses: seq<seq<Streamed>>, lid: string)
    requires |sources| == |statuses| && Composed(sources, statuses, |sources|, lid) != []
    ensures lid in Lids(sources)
  {
    var entries := Composed(sources, statuses, |sources|, lid);
    ComposedProvenance(sources, statuses, |sources|, lid);
    assert entries[0] in entries && Provenance(sources, statuses, lid, entries[0]);
    var i := entries[0].snapshot;
    var k :| 0 <= k < |sources[i].entries| && sources[i].entries[k] == Planned(lid, entries[0].dst, entries[0].src);
  }

  /** The table of all sources. */
  lemma TableExists(sources: seq<Source>, statuses: seq<seq<Streamed>>) returns (slices: Slices)
    requires |sources| == |statuses|
    ensures IsTable(sources, statuses, |sources|, slices)
  {
    slices := map lid | lid in Lids(sources) && Composed(sources, statuses, |sources|, lid) != [] ::
      Composed(sources, statuses, |sources|, lid);
    forall lid ensures SliceOf(slices, lid) == Composed(sources, statuses, |sources|, lid) {
      if Composed(sources, statuses, |sources|, lid) != [] {
        ComposedLids(sources, statuses, lid);
      }
    }
  }

  lemma DryRunIsHashed(cfg: Config, jobs: seq<Job>, i: nat)
    requires AllDone(cfg, jobs) && JobsOk(cfg, jobs) && AllAdmitted(cfg) && i < |jobs|
    requires Hashed(cfg.sources[i].entries, Report(cfg.hash, jobs[i].slices))
    ensures Hashed(cfg.sources[i].entries, Report(cfg.hash, DryRun(cfg)[i].slices))
    ensures ByPlace(cfg.hash, BlankAt(), Report(cfg.hash, DryRun(cfg)[i].slices))
  {
    assert Begun(jobs[i]) && StreamedBy(cfg, i, jobs[i].slices);
    var wires := cfg.sources[i].wires;
    var resident: Resident :| Fits(resident, wires) && jobs[i].slices == Segments(resident, wires);
    assert DryRun(cfg)[i].slices == Segments(Blank(wires), wires);
    HashedAlike(cfg.hash, resident, Blank(wires), wires, cfg.sources[i].entries);
    BlankByPlace(cfg.hash, wires, Report(cfg.hash, DryRun(cfg)[i].slices));
  }

  /** Finished jobs whose reports go by place compose. */
  lemma ByPlaceComposes(cfg: Config, jobs: seq<Job>, content: Content) returns (table: Slices)
    requires AllDone(cfg, jobs)
    requires forall i :: 0 <= i < |jobs| ==>
      Hashed(cfg.sources[i].entries, Report(cfg.hash, jobs[i].slices)) &&
      ByPlace(cfg.hash, content, Report(cfg.hash, jobs[i].slices))
    ensures ComposesTo(cfg, jobs, table)
  {
    var statuses := Statuses(cfg.hash, jobs);
    table := TableExists(cfg.sources, statuses);
    forall lid | lid in table ensures HashesAgree(table[lid]) {
      assert SliceOf(table, lid) == Composed(cfg.sources, statuses, |cfg.sources|, lid);
      ByPlaceAgrees(cfg.hash, content, cfg.sources, statuses, table[lid], lid);
    }
  }

  /** Two compositions of one save differ in their hashes alone, so both records are valid or none. */
  lemma ValidAlike(cfg: Config, a: seq<Job>, b: seq<Job>, from: Slices, to: Slices)
    requires AllDone(cfg, a) && AllDone(cfg, b) && ComposesTo(cfg, a, from) && ComposesTo(cfg, b, to)
    requires RecordValid(DocOf(cfg, from), cfg.schemas, cfg.digest)
    ensures RecordValid(DocOf(cfg, to), cfg.schemas, cfg.digest)
  {
    var x, y := Statuses(cfg.hash, a), Statuses(cfg.hash, b);
    forall lid ensures SameShape(SliceOf(from, lid), SliceOf(to, lid)) && HashesAgree(SliceOf(to, lid)) {
      assert SliceOf(from, lid) == Composed(cfg.sources, x, |cfg.sources|, lid);
      assert SliceOf(to, lid) == Composed(cfg.sources, y, |cfg.sources|, lid);
      ComposedShape(cfg.sources, x, y, |cfg.sources|, lid);
    }
    ShapeKeepsRecord(cfg, from, to);
  }

  /** Whatever bytes a save that validates was given, the dry run validates too. */
  lemma LandedIsLandable(cfg: Config, jobs: seq<Job>, slices: Slices)
    requires AllDone(cfg, jobs) && JobsOk(cfg, jobs) && ComposesTo(cfg, jobs, slices)
    requires RecordValid(DocOf(cfg, slices), cfg.schemas, cfg.digest)
    ensures Landable(cfg)
  {
    StreamersAdmitted(cfg, jobs);
    forall i | 0 <= i < |jobs|
      ensures Hashed(cfg.sources[i].entries, Report(cfg.hash, DryRun(cfg)[i].slices))
      ensures ByPlace(cfg.hash, BlankAt(), Report(cfg.hash, DryRun(cfg)[i].slices))
    {
      assert Hashed(cfg.sources[i].entries, Statuses(cfg.hash, jobs)[i]);
      DryRunIsHashed(cfg, jobs, i);
    }
    var table := ByPlaceComposes(cfg, DryRun(cfg), BlankAt());
    ValidAlike(cfg, jobs, DryRun(cfg), slices, table);
  }

  /** And a save whose dry run validates lands with any bytes on which replicas agree. */
  lemma DriftFreeIsValid(cfg: Config, jobs: seq<Job>, slices: Slices)
    requires Landable(cfg) && AllDone(cfg, jobs) && ComposesTo(cfg, jobs, slices)
    ensures RecordValid(DocOf(cfg, slices), cfg.schemas, cfg.digest)
  {
    var blank :| ComposesTo(cfg, DryRun(cfg), blank) && RecordValid(DocOf(cfg, blank), cfg.schemas, cfg.digest);
    ValidAlike(cfg, DryRun(cfg), jobs, blank, slices);
  }

  // ---------------------------------------------------------------- sharing a directory

  function Recorded(i: int, e: Planned, streamed: seq<Streamed>): Entry {
    Entry(i, e.src, e.dst, LastHash(streamed, Where(e.lid, e.dst)))
  }

  lemma {:induction false} FromSourceHas(i: int, entries: seq<Planned>, streamed: seq<Streamed>, e: Planned)
    requires e in entries
    ensures Recorded(i, e, streamed) in FromSource(i, entries, streamed, e.lid)
  {
    if e != entries[|entries| - 1] {
      assert e in entries[..|entries| - 1];
      FromSourceHas(i, entries[..|entries| - 1], streamed, e);
    }
  }

  lemma InEither(a: seq<Entry>, b: seq<Entry>, e: Entry)
    requires e in a || e in b
    ensures e in a + b
  {
  }

  /** A source with an entry contributes it to the composition. */
  lemma {:induction false} ComposedHas(sources: seq<Source>, statuses: seq<seq<Streamed>>, n: nat, i: nat, e: Planned)
    requires i < n <= |sources| == |statuses| && e in sources[i].entries
    ensures Recorded(i, e, statuses[i]) in Composed(sources, statuses, n, e.lid)
  {
    var before, own := Composed(sources, statuses, n - 1, e.lid),
      FromSource(n - 1, sources[n - 1].entries, statuses[n - 1], e.lid);
    if i == n - 1 {
      FromSourceHas(i, sources[i].entries, statuses[i], e);
    } else {
      ComposedHas(sources, statuses, n - 1, i, e);
    }
    InEither(before, own, Recorded(i, e, statuses[i]));
  }

  /** A landed record is no completeness marker if the directory of a source does not verify, or does
      not list one of its entries with the recorded hash. */
  lemma NotBacked(cfg: Config, jobs: seq<Job>, slices: Slices, disk: Disk, i: nat, k: nat)
    requires AllDone(cfg, jobs) && ComposesTo(cfg, jobs, slices) && i < |cfg.sources| && k < |cfg.sources[i].entries|
    requires RecordValid(DocOf(cfg, slices), cfg.schemas, cfg.digest) && disk.final == Some(DocOf(cfg, slices))
    requires cfg.sources[i].path in disk.dirs
    requires var dir, e := disk.dirs[cfg.sources[i].path], cfg.sources[i].entries[k];
      !Intact(cfg.hash, dir) ||
      LastHash(Report(cfg.hash, Held(dir)), Where(e.lid, e.dst)) !=
      LastHash(Report(cfg.hash, jobs[i].slices), Where(e.lid, e.dst))
    ensures !MarkerHolds(cfg, disk)
  {
    var lid, doc := cfg.sources[i].entries[k].lid, DocOf(cfg, slices);
    var e := Recorded(i, cfg.sources[i].entries[k], Statuses(cfg.hash, jobs)[i]);
    ComposedHas(cfg.sources, Statuses(cfg.hash, jobs), |cfg.sources|, i, cfg.sources[i].entries[k]);
    assert SliceOf(slices, lid) == Composed(cfg.sources, Statuses(cfg.hash, jobs), |cfg.sources|, lid);
    assert Hashed(cfg.sources[i].entries, Statuses(cfg.hash, jobs)[i]);
    assert lid in doc.slices.Keys && e in EntriesOf(doc, lid);
    assert !Backed(cfg.hash, doc, lid, e, disk.dirs);
  }

  /** The state of a run before the composer waits. */
  ghost predicate AllFinished(cfg: Config, s: State, written: seq<Job>) {
    s.pc == Requesting(|cfg.sources|) && s.jobs == written
  }

  /** All jobs one after the other, `i` and then `j` last: the directory is as `j` leaves it. */
  lemma OneThenOther(cfg: Config, disk: Disk, written: seq<Job>, i: nat, j: nat)
    returns (states: seq<State>, actions: seq<Action>)
    requires AllDone(cfg, written) && JobsOk(cfg, written) && i < |written| && j < |written| && SamePath(cfg, i, j)
    ensures Run(cfg, disk, states, actions) && AllFinished(cfg, states[|actions|], written)
    ensures var dirs := states[|actions|].disk.dirs;
      cfg.sources[j].path in dirs && dirs[cfg.sources[j].path] == Sole(cfg.hash, written[j].slices)
  {
    StreamersAdmitted(cfg, written);
    assert Begun(written[i]) && Begun(written[j]);
    states, actions := SerialRun(cfg, disk, written, |written|, {i, j});
    states, actions := JobRun(cfg, disk, states, actions, i, written[i].slices);
    states, actions := JobRun(cfg, disk, states, actions, j, written[j].slices);
  }

  /** Job `i` runs to its end between the last write and the marker of job `j`: the directory has the
      payload of `i` under the marker of `j`. */
  lemma OneInsideOther(cfg: Config, disk: Disk, written: seq<Job>, i: nat, j: nat)
    returns (states: seq<State>, actions: seq<Action>)
    requires AllDone(cfg, written) && JobsOk(cfg, written) && i < |written| && j < |written| && SamePath(cfg, i, j)
    ensures Run(cfg, disk, states, actions) && AllFinished(cfg, states[|actions|], written)
    ensures var dirs := states[|actions|].disk.dirs;
      && cfg.sources[j].path in dirs
      && dirs[cfg.sources[j].path] == Dir(File(written[i].slices), None, Some(MarkerOf(cfg.hash, written[j].slices)))
  {
    StreamersAdmitted(cfg, written);
    assert Begun(written[i]) && Begun(written[j]);
    states, actions := SerialRun(cfg, disk, written, |written|, {i, j});
    states, actions := FillRun(cfg, disk, states, actions, j, written[j].slices, |written[j].slices|);
    states, actions := JobRun(cfg, disk, states, actions, i, written[i].slices);
    states, actions := MarkRun(cfg, disk, states, actions, j, written[j].slices);
  }

  /** A marker over a file that does not hold its slices does not verify. */
  lemma WrongFileIsNotIntact(hash: Hash, a: seq<Slice>, b: seq<Slice>)
    requires Injective(hash) && Sized(b) && !HoldsAll(File(a), b)
    ensures !Intact(hash, Dir(File(a), None, Some(MarkerOf(hash, b))))
  {
    var dir := Dir(File(a), None, Some(MarkerOf(hash, b)));
    if Intact(hash, dir) {
      IntactHoldsAll(hash, b, dir);
    }
  }

  /** Two jobs with different files: run one inside the other. */
  lemma DifferentFilesBreak(cfg: Config, disk: Disk, jobs: seq<Job>, slices: Slices, i: nat, j: nat)
    returns (states: seq<State>, actions: seq<Action>)
    requires Landable(cfg) && Injective(cfg.hash) && AllDone(cfg, jobs) && JobsOk(cfg, jobs)
    requires ComposesTo(cfg, jobs, slices) && i < |jobs| && j < |jobs| && SamePath(cfg, i, j)
    requires cfg.sources[i].entries != [] && File(jobs[i].slices) != File(jobs[j].slices)
    ensures Run(cfg, disk, states, actions)
    ensures states[|actions|].pc.Landed? && !MarkerHolds(cfg, states[|actions|].disk)
  {
    StreamedIsSized(cfg, jobs, i);
    StreamedIsSized(cfg, jobs, j);
    if !HoldsAll(File(jobs[i].slices), jobs[j].slices) {
      WrongFileIsNotIntact(cfg.hash, jobs[i].slices, jobs[j].slices);
      states, actions := OneInsideOther(cfg, disk, jobs, i, j);
    } else {
      if HoldsAll(File(jobs[j].slices), jobs[i].slices) {
        HoldEachOther(jobs[i].slices, jobs[j].slices);
      }
      WrongFileIsNotIntact(cfg.hash, jobs[j].slices, jobs[i].slices);
      states, actions := OneInsideOther(cfg, disk, jobs, j, i);
    }
    DriftFreeIsValid(cfg, jobs, slices);
    states, actions := LandFrom(cfg, disk, states, actions, slices);
    NotBacked(cfg, jobs, slices, states[|actions|].disk, i, 0);
  }

  /** A span that the second job does not report, or not with that hash: run one after the other. */
  lemma DifferentReportsBreak(cfg: Config, disk: Disk, jobs: seq<Job>, slices: Slices, i: nat, j: nat, k: nat)
    returns (states: seq<State>, actions: seq<Action>)
    requires Landable(cfg) && AllDone(cfg, jobs) && JobsOk(cfg, jobs) && ComposesTo(cfg, jobs, slices)
    requires i < |jobs| && j < |jobs| && SamePath(cfg, i, j) && k < |cfg.sources[i].entries|
    requires !ReportsOne(cfg, jobs, i, j, cfg.sources[i].entries[k])
    ensures Run(cfg, disk, states, actions)
    ensures states[|actions|].pc.Landed? && !MarkerHolds(cfg, states[|actions|].disk)
  {
    states, actions := OneThenOther(cfg, disk, jobs, i, j);
    DriftFreeIsValid(cfg, jobs, slices);
    states, actions := LandFrom(cfg, disk, states, actions, slices);
    StreamedIsSized(cfg, jobs, j);
    SoleIsIntact(cfg.hash, jobs[j].slices, Sole(cfg.hash, jobs[j].slices));
    NotBacked(cfg, jobs, slices, states[|actions|].disk, i, k);
  }

  /** Two sources that share a directory and disagree on it can land a record that is no completeness
      marker: the composer never compares their paths. */
  lemma DisagreementBreaks(cfg: Config, disk: Disk, jobs: seq<Job>, slices: Slices, i: nat, j: nat)
    returns (states: seq<State>, actions: seq<Action>)
    requires Landable(cfg) && Injective(cfg.hash) && AllDone(cfg, jobs) && JobsOk(cfg, jobs)
    requires ComposesTo(cfg, jobs, slices) && i < |jobs| && j < |jobs| && SamePath(cfg, i, j)
    requires cfg.sources[i].entries != [] && !Agree(cfg, jobs, i, j)
    ensures Run(cfg, disk, states, actions)
    ensures states[|actions|].pc.Landed? && !MarkerHolds(cfg, states[|actions|].disk)
  {
    if File(jobs[i].slices) != File(jobs[j].slices) {
      states, actions := DifferentFilesBreak(cfg, disk, jobs, slices, i, j);
    } else {
      var k :| 0 <= k < |cfg.sources[i].entries| && !ReportsOne(cfg, jobs, i, j, cfg.sources[i].entries[k]);
      states, actions := DifferentReportsBreak(cfg, disk, jobs, slices, i, j, k);
    }
  }

  /** A source that does not request a span recorded by another in its directory: even one after the
      other, the save lands and its record names bytes that are gone. */
  lemma SerialSharingBreaks(cfg: Config, disk: Disk, i: nat, j: nat, k: nat)
    returns (states: seq<State>, actions: seq<Action>)
    requires Landable(cfg) && i < |cfg.sources| && j < |cfg.sources| && SamePath(cfg, i, j)
    requires k < |cfg.sources[i].entries|
    requires LastWire(cfg.sources[j].wires, Where(cfg.sources[i].entries[k].lid, cfg.sources[i].entries[k].dst)).None?
    ensures Run(cfg, disk, states, actions)
    ensures states[|actions|].pc.Landed? && !MarkerHolds(cfg, states[|actions|].disk)
  {
    var slices :| ComposesTo(cfg, DryRun(cfg), slices) && RecordValid(DocOf(cfg, slices), cfg.schemas, cfg.digest);
    var jobs, e := DryRun(cfg), cfg.sources[i].entries[k];
    JobsFromOk(cfg, Blanks(cfg));
    LastHashIs(cfg.hash, Blank(cfg.sources[j].wires), cfg.sources[j].wires, Where(e.lid, e.dst));
    assert Hashed(cfg.sources[i].entries, Statuses(cfg.hash, jobs)[i]);
    assert !ReportsOne(cfg, jobs, i, j, e);
    states, actions := DifferentReportsBreak(cfg, disk, jobs, slices, i, j, k);
  }

  // ---------------------------------------------------------------- the exact condition

  /** Every state of every run keeps the completeness marker. */
  ghost predicate SafeDestination(cfg: Config, disk: Disk) {
    forall states: seq<State>, actions, k: nat | Run(cfg, disk, states, actions) && k < |states| ::
      MarkerHolds(cfg, states[k].disk)
  }

  lemma LandedStateIsLandable(cfg: Config, s: State)
    requires s.pc.Landed? && PcOk(cfg, s) && JobsOk(cfg, s.jobs)
    ensures Landable(cfg)
  {
    var slices :| ComposesTo(cfg, s.jobs, slices) && s.pc.doc == DocOf(cfg, slices);
    LandedIsLandable(cfg, s.jobs, slices);
  }

  lemma UnlandableKeepsMarker(cfg: Config, disk: Disk, s: State)
    requires Inv(cfg, disk, s) && MarkerHolds(cfg, disk) && NothingToOverwrite(cfg, disk) && !Landable(cfg)
    ensures MarkerHolds(cfg, s.disk)
  {
    if s.pc.Landed? {
      LandedStateIsLandable(cfg, s);
    }
    OldRecordStaysBacked(cfg, disk, s);
  }

  /** A save keeps the completeness marker in all its runs exactly when it rewrites no snapshot of a
      record already there and, if it can land at all, sources that share a directory agree on it. */
  lemma SafeExactly(cfg: Config, disk: Disk)
    requires MarkerHolds(cfg, disk) && Injective(cfg.hash)
    ensures SafeDestination(cfg, disk) <==>
      NothingToOverwrite(cfg, disk) && (Landable(cfg) ==> SharersAgree(cfg))
  {
    if !NothingToOverwrite(cfg, disk) {
      var states, actions := OverwritingBreaksCompleteness(cfg, disk);
    } else if Landable(cfg) && !SharersAgree(cfg) {
      var jobs, slices :|
        AllDone(cfg, jobs) && JobsOk(cfg, jobs) && ComposesTo(cfg, jobs, slices) && !AllAgree(cfg, jobs);
      var i, j :| 0 <= i < |jobs| && 0 <= j < |jobs| && cfg.sources[i].entries != [] && SamePath(cfg, i, j) &&
        !Agree(cfg, jobs, i, j);
      var states, actions := DisagreementBreaks(cfg, disk, jobs, slices, i, j);
    } else {
      forall states: seq<State>, actions, k: nat | Run(cfg, disk, states, actions) && k < |states|
        ensures MarkerHolds(cfg, states[k].disk)
      {
        if Landable(cfg) {
          RecordMeansComplete(cfg, disk, states, actions, k);
        } else {
          RunKeepsInv(cfg, disk, states, actions, k);
          UnlandableKeepsMarker(cfg, disk, states[k]);
        }
      }
    }
  }
}
