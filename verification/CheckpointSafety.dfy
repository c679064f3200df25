/** What every run of `save_checkpoint` keeps: a record at the final name is a completeness marker,
    if the save overwrites no snapshot of an older record and sources that share a directory agree on
    it. A landed record rebuilds its objects from any replicas. */
module CheckpointSafety {
  import opened Wrappers
  import opened CheckpointRecord
  import opened CheckpointReassembly
  import opened CheckpointSave
  import opened CheckpointDirectory
  import opened CheckpointProtocol

  // ---------------------------------------------------------------- safety over whole runs

  /** The reader asks less than the writer: it has no field schemas. */
  lemma ReaderAcceptsWhatWriterAccepts(doc: Record, schemas: map<string, seq<Field>>, digest: seq<Field> -> Digest)
    requires RecordValid(doc, schemas, digest)
    ensures RecordValid(doc, map[], digest)
  {
    forall lid | lid in doc.logical ensures LogicalValid(doc, lid, map[], digest) {
      assert LogicalValid(doc, lid, schemas, digest);
    }
  }

  /** Every entry of a composed document comes from a planned entry of the source it names. */
  lemma EntryOfSource(cfg: Config, jobs: seq<Job>, slices: Slices, lid: string, e: Entry)
    requires AllDone(cfg, jobs) && ComposesTo(cfg, jobs, slices) && e in EntriesOf(DocOf(cfg, slices), lid)
    ensures Provenance(cfg.sources, Statuses(cfg.hash, jobs), lid, e)
    ensures cfg.sources[e.snapshot].entries != []
    ensures e.hash == LastHash(Report(cfg.hash, jobs[e.snapshot].slices), Where(lid, e.dst))
  {
    assert EntriesOf(DocOf(cfg, slices), lid) == SliceOf(slices, lid);
    ComposedProvenance(cfg.sources, Statuses(cfg.hash, jobs), |cfg.sources|, lid);
  }

  // ---------------------------------------------------------------- sources in one directory

  /** Finished jobs of two sources: they write the same payload file, and the second reports every
      span the first records, with the same hash. */
  ghost predicate Agree(cfg: Config, jobs: seq<Job>, i: nat, j: nat)
    requires AllDone(cfg, jobs) && i < |jobs| && j < |jobs|
  {
    File(jobs[i].slices) == File(jobs[j].slices) && ReportsAll(cfg, jobs, i, j)
  }

  ghost predicate ReportsAll(cfg: Config, jobs: seq<Job>, i: nat, j: nat)
    requires AllDone(cfg, jobs) && i < |jobs| && j < |jobs|
  {
    forall k :: 0 <= k < |cfg.sources[i].entries| ==> ReportsOne(cfg, jobs, i, j, cfg.sources[i].entries[k])
  }

  ghost predicate ReportsOne(cfg: Config, jobs: seq<Job>, i: nat, j: nat, e: Planned)
    requires AllDone(cfg, jobs) && i < |jobs| && j < |jobs|
  {
    LastHash(Report(cfg.hash, jobs[j].slices), Where(e.lid, e.dst)) ==
    LastHash(Report(cfg.hash, jobs[i].slices), Where(e.lid, e.dst))
  }

  ghost predicate AllAgree(cfg: Config, jobs: seq<Job>)
    requires AllDone(cfg, jobs)
  {
    forall i, j :: 0 <= i < |jobs| && 0 <= j < |jobs| && cfg.sources[i].entries != [] && SamePath(cfg, i, j) ==>
      Agree(cfg, jobs, i, j)
  }

  /** Whatever the sources hold, as long as their replicas agree: a source that shares the directory
      of one that contributes agrees with it. */
  ghost predicate SharersAgree(cfg: Config) {
    forall jobs, slices | AllDone(cfg, jobs) && JobsOk(cfg, jobs) && ComposesTo(cfg, jobs, slices) ::
      AllAgree(cfg, jobs)
  }

  /** Directories of their own are one way to agree. */
  lemma OwnDirectoriesAgree(cfg: Config)
    requires OwnDirectories(cfg)
    ensures SharersAgree(cfg)
  {
    forall i, j | 0 <= i < |cfg.sources| && 0 <= j < |cfg.sources| && cfg.sources[i].entries != []
      ensures !SamePath(cfg, i, j)
    {
      assert Alone(cfg, i);
    }
  }

  lemma PartsWrote(cfg: Config, jobs: seq<Job>, i: nat)
    requires AllDone(cfg, jobs) && JobsOk(cfg, jobs) && i < |jobs|
    requires forall j :: 0 <= j < |jobs| && SamePath(cfg, i, j) ==> File(jobs[j].slices) == File(jobs[i].slices)
    ensures AllWrote(Parts(cfg, jobs, cfg.sources[i].path), File(jobs[i].slices))
    ensures PartOf(jobs[i]) in Parts(cfg, jobs, cfg.sources[i].path)
  {
    forall part | part in Parts(cfg, jobs, cfg.sources[i].path)
      ensures part.slices != [] && Sized(part.slices) && part.next == |part.slices|
      ensures File(part.slices) == File(jobs[i].slices)
    {
      var j :| 0 <= j < |jobs| && cfg.sources[j].path == cfg.sources[i].path && PartOf(jobs[j]) == part;
      StreamedIsSized(cfg, jobs, j);
      assert j != i ==> SamePath(cfg, i, j);
    }
  }

  /** A directory in which all jobs have written the same file, under the marker of one of them. */
  lemma AgreedDir(hash: Hash, parts: set<Part>, marked: set<seq<Slice>>, dir: Dir, file: seq<byte>)
    returns (slices: seq<Slice>)
    requires DirOk(hash, parts, marked, true, dir) && parts != {} && AllWrote(parts, file)
    requires forall slices :: slices in marked ==> Sized(slices) && File(slices) == file
    ensures slices in marked && Intact(hash, dir) && Held(dir) == slices
  {
    OverlayIsFile(parts, dir.payload, file);
    slices :| slices in marked && dir.marker.value == MarkerOf(hash, slices);
    SoleIsIntact(hash, slices, dir);
  }

  lemma MarkedAlike(cfg: Config, jobs: seq<Job>, i: nat, slices: seq<Slice>) returns (m: nat)
    requires AllDone(cfg, jobs) && JobsOk(cfg, jobs) && i < |jobs| && slices in MarkedIn(cfg, jobs, cfg.sources[i].path)
    requires forall j :: 0 <= j < |jobs| && SamePath(cfg, i, j) ==> File(jobs[j].slices) == File(jobs[i].slices)
    ensures m < |jobs| && cfg.sources[m].path == cfg.sources[i].path && jobs[m].slices == slices
    ensures Sized(slices) && File(slices) == File(jobs[i].slices)
  {
    m :| 0 <= m < |jobs| && cfg.sources[m].path == cfg.sources[i].path && jobs[m].slices == slices;
    StreamedIsSized(cfg, jobs, m);
    assert m != i ==> SamePath(cfg, i, m);
  }

  /** The directory of finished jobs that write the same file: intact, under the marker of one of them. */
  lemma FinishedDir(cfg: Config, s: State, i: nat) returns (m: nat)
    requires AllDone(cfg, s.jobs) && JobsOk(cfg, s.jobs) && DirsFollowJobs(cfg, s) && i < |s.jobs|
    requires forall j :: 0 <= j < |s.jobs| && SamePath(cfg, i, j) ==> File(s.jobs[j].slices) == File(s.jobs[i].slices)
    ensures m < |s.jobs| && cfg.sources[m].path == cfg.sources[i].path && cfg.sources[i].path in s.disk.dirs
    ensures Intact(cfg.hash, s.disk.dirs[cfg.sources[i].path])
    ensures Held(s.disk.dirs[cfg.sources[i].path]) == s.jobs[m].slices
  {
    var p, jobs := cfg.sources[i].path, s.jobs;
    var parts, marked := Parts(cfg, jobs, p), MarkedIn(cfg, jobs, p);
    PartsWrote(cfg, jobs, i);
    assert DirFollows(cfg, jobs, s.disk.dirs, p) && NoneFailed(cfg, jobs, p) && SomeDone(cfg, jobs, p) by {
      assert jobs[i].Done?;
    }
    forall slices | slices in marked ensures Sized(slices) && File(slices) == File(jobs[i].slices) {
      var j := MarkedAlike(cfg, jobs, i, slices);
    }
    var slices := AgreedDir(cfg.hash, parts, marked, s.disk.dirs[p], File(jobs[i].slices));
    m := MarkedAlike(cfg, jobs, i, slices);
  }

  /** A directory to itself holds what its job streamed. */
  lemma OwnDir(cfg: Config, s: State, i: nat)
    requires AllDone(cfg, s.jobs) && JobsOk(cfg, s.jobs) && DirsFollowJobs(cfg, s) && i < |s.jobs| && Alone(cfg, i)
    ensures cfg.sources[i].path in s.disk.dirs && Intact(cfg.hash, s.disk.dirs[cfg.sources[i].path])
    ensures Held(s.disk.dirs[cfg.sources[i].path]) == s.jobs[i].slices
  {
    var m := FinishedDir(cfg, s, i);
    assert m != i ==> SamePath(cfg, i, m);
  }

  lemma CompositionIsBacked(cfg: Config, s: State, slices: Slices, lid: string, e: Entry)
    requires AllDone(cfg, s.jobs) && JobsOk(cfg, s.jobs) && DirsFollowJobs(cfg, s) && AllAgree(cfg, s.jobs)
    requires ComposesTo(cfg, s.jobs, slices) && e in EntriesOf(DocOf(cfg, slices), lid)
    ensures Backed(cfg.hash, DocOf(cfg, slices), lid, e, s.disk.dirs)
  {
    EntryOfSource(cfg, s.jobs, slices, lid, e);
    var i := e.snapshot;
    forall j | 0 <= j < |s.jobs| && SamePath(cfg, i, j) ensures File(s.jobs[j].slices) == File(s.jobs[i].slices) {
      assert Agree(cfg, s.jobs, i, j);
    }
    var m := FinishedDir(cfg, s, i);
    var k :| 0 <= k < |cfg.sources[i].entries| && cfg.sources[i].entries[k] == Planned(lid, e.dst, e.src);
    if m != i {
      assert SamePath(cfg, i, m) && Agree(cfg, s.jobs, i, m);
      assert ReportsOne(cfg, s.jobs, i, m, cfg.sources[i].entries[k]);
    }
    assert Hashed(cfg.sources[i].entries, Statuses(cfg.hash, s.jobs)[i]);
  }

  /** A record that no step of the save touches stays backed. */
  lemma OldRecordStaysBacked(cfg: Config, disk: Disk, s: State)
    requires MarkerHolds(cfg, disk) && NothingToOverwrite(cfg, disk) && Untouched(cfg, disk, s.disk.dirs)
    requires s.disk.final == disk.final
    ensures MarkerHolds(cfg, s.disk)
  {
    if disk.final.Some? {
      var doc := disk.final.value;
      forall lid, e | lid in doc.logical && e in EntriesOf(doc, lid)
        ensures Backed(cfg.hash, doc, lid, e, s.disk.dirs)
      {
        assert Backed(cfg.hash, doc, lid, e, disk.dirs);
        var p := doc.snapshots[e.snapshot].path;
        assert !Rewrites(cfg, p);
      }
    }
  }

  lemma LandedIsBacked(cfg: Config, disk: Disk, s: State)
    requires Inv(cfg, disk, s) && SharersAgree(cfg) && s.pc.Landed?
    ensures MarkerHolds(cfg, s.disk)
  {
    var doc := s.pc.doc;
    ReaderAcceptsWhatWriterAccepts(doc, cfg.schemas, cfg.digest);
    var slices :| ComposesTo(cfg, s.jobs, slices) && doc == DocOf(cfg, slices);
    assert AllAgree(cfg, s.jobs);
    forall lid, e | lid in doc.logical && e in EntriesOf(doc, lid) ensures Backed(cfg.hash, doc, lid, e, s.disk.dirs) {
      CompositionIsBacked(cfg, s, slices, lid, e);
    }
  }

  /** In every state of every run, a record at the final name is complete, provided the save
      overwrites no snapshot of a record that was there before and sources that share a directory
      agree on it. */
  lemma RecordMeansComplete(cfg: Config, disk: Disk, states: seq<State>, actions: seq<Action>, k: nat)
    requires Run(cfg, disk, states, actions) && k < |states|
    requires MarkerHolds(cfg, disk) && NothingToOverwrite(cfg, disk) && SharersAgree(cfg)
    ensures MarkerHolds(cfg, states[k].disk)
  {
    RunKeepsInv(cfg, disk, states, actions, k);
    if states[k].pc.Landed? {
      LandedIsBacked(cfg, disk, states[k]);
    } else {
      OldRecordStaysBacked(cfg, disk, states[k]);
    }
  }

  /** Into a fresh destination, a record appears exactly when the save lands, and then every source
      finished and the composed document validated; a save that raised or stopped leaves none. */
  lemma FreshSaveIsAllOrNothing(cfg: Config, disk: Disk, states: seq<State>, actions: seq<Action>, k: nat)
    requires Run(cfg, disk, states, actions) && k < |states| && disk.final.None?
    ensures states[k].disk.final.Some? <==> states[k].pc.Landed?
    ensures states[k].disk.final.Some? ==>
      && AllDone(cfg, states[k].jobs) && RecordValid(states[k].disk.final.value, cfg.schemas, cfg.digest)
      && (SharersAgree(cfg) ==> MarkerHolds(cfg, states[k].disk))
    ensures states[k].pc.Raised? || states[k].pc.Stopped? ==> states[k].disk.final.None?
  {
    RunKeepsInv(cfg, disk, states, actions, k);
    if SharersAgree(cfg) {
      RecordMeansComplete(cfg, disk, states, actions, k);
    }
  }

  /** A landed record carries the step and seed it was asked for, the logical objects, and for every source
      its directory, key and inventory. */
  lemma LandedRecordDescribes(cfg: Config, disk: Disk, states: seq<State>, actions: seq<Action>, k: nat, i: nat)
    requires Run(cfg, disk, states, actions) && k < |states| && states[k].pc.Landed? && i < |cfg.sources|
    ensures states[k].disk.final.Some? && |states[k].disk.final.value.snapshots| == |cfg.sources|
    ensures var doc := states[k].disk.final.value;
      && doc.schema == "dataflow-checkpoint/v1" && doc.step == cfg.step && doc.seed == cfg.seed
      && doc.logical == cfg.logical && doc.snapshots[i].path == cfg.sources[i].path
      && doc.snapshots[i].source == cfg.sources[i].key && doc.snapshots[i].objects == cfg.sources[i].objects
  {
    RunKeepsInv(cfg, disk, states, actions, k);
    var slices :| ComposesTo(cfg, states[k].jobs, slices) && states[k].pc.doc == DocOf(cfg, slices);
  }

  // ---------------------------------------------------------------- rebuilding from a landed record

  /** Every entry of the record is the last slice requested for its span. */
  ghost predicate OwnHashes(cfg: Config) {
    forall i, k {:trigger OwnWire(cfg.sources[i].wires, cfg.sources[i].entries[k])} ::
      0 <= i < |cfg.sources| && 0 <= k < |cfg.sources[i].entries| ==>
        OwnWire(cfg.sources[i].wires, cfg.sources[i].entries[k])
  }

  /** The directory holds the slice an entry names, with these bytes. */
  ghost predicate HeldBy(slices: seq<Slice>, lid: string, e: Entry, bytes: seq<byte>) {
    Slice(Bare(lid), e.src, lid, e.dst, bytes) in slices
  }

  /** The directory an entry names holds its slice, with these bytes. */
  ghost predicate BytesOnDisk(
    snapshots: seq<Snapshot>, lid: string, dirs: map<string, Dir>, e: Entry, bytes: seq<byte>)
  {
    && 0 <= e.snapshot < |snapshots| && snapshots[e.snapshot].path in dirs
    && HeldBy(Held(dirs[snapshots[e.snapshot].path]), lid, e, bytes)
  }

  ghost predicate EntryOnDisk(
    snapshots: seq<Snapshot>, lid: string, dirs: map<string, Dir>, store: Payloads, e: Entry)
  {
    KeyOf(lid, e) in store && BytesOnDisk(snapshots, lid, dirs, e, store[KeyOf(lid, e)])
  }

  /** The payloads of a record's slices, as the disk holds them. */
  ghost predicate OnDisk(doc: Record, lid: string, dirs: map<string, Dir>, store: Payloads) {
    forall e {:trigger EntryOnDisk(doc.snapshots, lid, dirs, store, e)} ::
      e in EntriesOf(doc, lid) ==> EntryOnDisk(doc.snapshots, lid, dirs, store, e)
  }

  /** In one source's slices, the bytes of an entry's own slice have the recorded hash. */
  lemma OwnSliceHashes(hash: Hash, resident: Resident, wires: seq<Wire>, lid: string, e: Entry, bytes: seq<byte>)
    requires Fits(resident, wires) && OwnWire(wires, Planned(lid, e.dst, e.src))
    requires HeldBy(Segments(resident, wires), lid, e, bytes)
    ensures LastHash(Report(hash, Segments(resident, wires)), Where(lid, e.dst)) == Some(hash(bytes))
    ensures |bytes| == e.dst.hi - e.dst.lo
  {
    LastHashIs(hash, resident, wires, Where(lid, e.dst));
    var k :| 0 <= k < |wires| && Segments(resident, wires)[k] == Slice(Bare(lid), e.src, lid, e.dst, bytes);
    assert WireFits(resident, wires[k]);
  }

  lemma OwnSliceHeld(resident: Resident, wires: seq<Wire>, lid: string, e: Entry) returns (bytes: seq<byte>)
    requires Fits(resident, wires) && OwnWire(wires, Planned(lid, e.dst, e.src))
    ensures HeldBy(Segments(resident, wires), lid, e, bytes)
  {
    var w := LastWire(wires, Where(lid, e.dst)).value;
    var m :| 0 <= m < |wires| && wires[m] == w;
    assert WireFits(resident, wires[m]);
    bytes := Cut(resident, w).bytes;
    assert Segments(resident, wires)[m] == Slice(Bare(lid), e.src, lid, e.dst, bytes);
  }

  /** All sources finished, each contributing one with its directory to itself, and every hash its own. */
  ghost predicate CleanFinish(cfg: Config, s: State) {
    && AllDone(cfg, s.jobs) && JobsOk(cfg, s.jobs) && DirsFollowJobs(cfg, s)
    && OwnDirectories(cfg) && OwnHashes(cfg)
  }

  /** What an entry's source streamed, is on disk, and requested last for the entry's span. */
  lemma EntrySource(cfg: Config, s: State, slices: Slices, lid: string, e: Entry) returns (resident: Resident)
    requires CleanFinish(cfg, s) && ComposesTo(cfg, s.jobs, slices) && e in EntriesOf(DocOf(cfg, slices), lid)
    ensures 0 <= e.snapshot < |cfg.sources| && Fits(resident, cfg.sources[e.snapshot].wires)
    ensures OwnWire(cfg.sources[e.snapshot].wires, Planned(lid, e.dst, e.src))
    ensures var held := Segments(resident, cfg.sources[e.snapshot].wires);
      && cfg.sources[e.snapshot].path in s.disk.dirs
      && Held(s.disk.dirs[cfg.sources[e.snapshot].path]) == held
      && e.hash == LastHash(Report(cfg.hash, held), Where(lid, e.dst))
  {
    EntryOfSource(cfg, s.jobs, slices, lid, e);
    var i := e.snapshot;
    assert Alone(cfg, i) && s.jobs[i].Done? && Begun(s.jobs[i]);
    OwnDir(cfg, s, i);
    assert StreamedBy(cfg, i, s.jobs[i].slices);
    resident :| Fits(resident, cfg.sources[i].wires) && s.jobs[i].slices == Segments(resident, cfg.sources[i].wires);
    var k :| 0 <= k < |cfg.sources[i].entries| && cfg.sources[i].entries[k] == Planned(lid, e.dst, e.src);
    assert OwnWire(cfg.sources[i].wires, cfg.sources[i].entries[k]);
  }

  /** The recorded hash of an entry is that of its bytes on disk. */
  lemma DiskHash(cfg: Config, s: State, slices: Slices, lid: string, e: Entry, bytes: seq<byte>)
    requires CleanFinish(cfg, s) && ComposesTo(cfg, s.jobs, slices) && e in EntriesOf(DocOf(cfg, slices), lid)
    requires BytesOnDisk(DocOf(cfg, slices).snapshots, lid, s.disk.dirs, e, bytes)
    ensures e.hash == Some(cfg.hash(bytes)) && |bytes| == e.dst.hi - e.dst.lo
  {
    var resident := EntrySource(cfg, s, slices, lid, e);
    OwnSliceHashes(cfg.hash, resident, cfg.sources[e.snapshot].wires, lid, e, bytes);
  }

  /** With hashes that identify bytes, the recorded hashes identify the payloads on disk. */
  lemma DiskIsIdentified(cfg: Config, s: State, slices: Slices, lid: string, store: Payloads)
    requires CleanFinish(cfg, s) && Injective(cfg.hash) && ComposesTo(cfg, s.jobs, slices)
    requires OnDisk(DocOf(cfg, slices), lid, s.disk.dirs, store)
    ensures Stored(lid, EntriesOf(DocOf(cfg, slices), lid), store)
    ensures HashesIdentify(lid, EntriesOf(DocOf(cfg, slices), lid), store)
  {
    var entries := EntriesOf(DocOf(cfg, slices), lid);
    forall i | 0 <= i < |entries|
      ensures KeyOf(lid, entries[i]) in store && entries[i].hash == Some(cfg.hash(store[KeyOf(lid, entries[i])]))
      ensures |store[KeyOf(lid, entries[i])]| == entries[i].dst.hi - entries[i].dst.lo
    {
      assert EntryOnDisk(DocOf(cfg, slices).snapshots, lid, s.disk.dirs, store, entries[i]);
      DiskHash(cfg, s, slices, lid, entries[i], store[KeyOf(lid, entries[i])]);
    }
  }

  /** Two picks of an object's entries rebuild one full-length byte string. */
  ghost predicate RebuildsAlike(
    lid: string, total: int, entries: seq<Entry>, store: Payloads, p: seq<nat>, q: seq<nat>)
    requires Picks(entries, Tiling(entries), p) && Picks(entries, Tiling(entries), q)
  {
    && Stored(lid, entries, store)
    && Reassemble(lid, entries, Tiling(entries), p, store) == Reassemble(lid, entries, Tiling(entries), q, store)
    && |Reassemble(lid, entries, Tiling(entries), p, store)| == Extent(total)
  }

  lemma CompositionRebuilds(
    cfg: Config, s: State, slices: Slices, lid: string, entries: seq<Entry>, store: Payloads, p: seq<nat>, q: seq<nat>)
    requires CleanFinish(cfg, s) && Injective(cfg.hash) && ComposesTo(cfg, s.jobs, slices) && lid in cfg.logical
    requires RecordValid(DocOf(cfg, slices), cfg.schemas, cfg.digest)
    requires OnDisk(DocOf(cfg, slices), lid, s.disk.dirs, store) && entries == EntriesOf(DocOf(cfg, slices), lid)
    requires Picks(entries, Tiling(entries), p) && Picks(entries, Tiling(entries), q)
    ensures RebuildsAlike(lid, cfg.logical[lid].bytes, entries, store, p, q)
  {
    DiskIsIdentified(cfg, s, slices, lid, store);
    DriftFreeRecordIsCertified(cfg.step, cfg.seed, cfg.logical, cfg.sources, Statuses(cfg.hash, s.jobs), slices, lid);
    assert LogicalValid(DocOf(cfg, slices), lid, cfg.schemas, cfg.digest);
    AnyReplicaRebuilds(lid, cfg.logical[lid].bytes, entries, DocOf(cfg, slices).snapshots, store, p, q);
  }

  /** A landed record rebuilds every object from any replicas on disk, all to the same bytes. */
  lemma LandedRecordRebuilds(
    cfg: Config, disk: Disk, states: seq<State>, actions: seq<Action>, k: nat, lid: string, store: Payloads,
    p: seq<nat>, q: seq<nat>)
    requires Run(cfg, disk, states, actions) && k < |states| && states[k].pc.Landed? && lid in cfg.logical
    requires OwnDirectories(cfg) && OwnHashes(cfg) && Injective(cfg.hash)
    requires OnDisk(states[k].pc.doc, lid, states[k].disk.dirs, store)
    requires Picks(EntriesOf(states[k].pc.doc, lid), Tiling(EntriesOf(states[k].pc.doc, lid)), p)
    requires Picks(EntriesOf(states[k].pc.doc, lid), Tiling(EntriesOf(states[k].pc.doc, lid)), q)
    ensures RebuildsAlike(lid, cfg.logical[lid].bytes, EntriesOf(states[k].pc.doc, lid), store, p, q)
  {
    RunKeepsInv(cfg, disk, states, actions, k);
    StateRebuilds(cfg, disk, states[k], lid, EntriesOf(states[k].pc.doc, lid), store, p, q);
  }

  lemma StateRebuilds(
    cfg: Config, disk: Disk, s: State, lid: string, entries: seq<Entry>, store: Payloads, p: seq<nat>, q: seq<nat>)
    requires Inv(cfg, disk, s) && s.pc.Landed? && lid in cfg.logical && entries == EntriesOf(s.pc.doc, lid)
    requires OwnDirectories(cfg) && OwnHashes(cfg) && Injective(cfg.hash)
    requires OnDisk(s.pc.doc, lid, s.disk.dirs, store)
    requires Picks(entries, Tiling(entries), p) && Picks(entries, Tiling(entries), q)
    ensures RebuildsAlike(lid, cfg.logical[lid].bytes, entries, store, p, q)
  {
    var slices :| ComposesTo(cfg, s.jobs, slices) && s.pc.doc == DocOf(cfg, slices);
    CompositionRebuilds(cfg, s, slices, lid, entries, store, p, q);
  }

  lemma SliceOnDisk(cfg: Config, s: State, slices: Slices, lid: string, e: Entry) returns (bytes: seq<byte>)
    requires CleanFinish(cfg, s) && ComposesTo(cfg, s.jobs, slices) && e in EntriesOf(DocOf(cfg, slices), lid)
    ensures BytesOnDisk(DocOf(cfg, slices).snapshots, lid, s.disk.dirs, e, bytes)
  {
    var resident := EntrySource(cfg, s, slices, lid, e);
    bytes := OwnSliceHeld(resident, cfg.sources[e.snapshot].wires, lid, e);
  }

  ghost predicate FoundOnDisk(snapshots: seq<Snapshot>, lid: string, dirs: map<string, Dir>, e: Entry) {
    exists bytes :: BytesOnDisk(snapshots, lid, dirs, e, bytes)
  }

  lemma {:induction false} CollectStore(
    snapshots: seq<Snapshot>, lid: string, dirs: map<string, Dir>, entries: seq<Entry>) returns (store: Payloads)
    requires forall k :: 0 <= k < |entries| ==> FoundOnDisk(snapshots, lid, dirs, entries[k])
    ensures forall e {:trigger EntryOnDisk(snapshots, lid, dirs, store, e)} ::
      e in entries ==> EntryOnDisk(snapshots, lid, dirs, store, e)
  {
    if entries == [] {
      store := map[];
    } else {
      var rest, last := entries[..|entries| - 1], entries[|entries| - 1];
      var before := CollectStore(snapshots, lid, dirs, rest);
      assert FoundOnDisk(snapshots, lid, dirs, last);
      var bytes :| BytesOnDisk(snapshots, lid, dirs, last, bytes);
      store := before[KeyOf(lid, last) := bytes];
      forall e | e in entries ensures EntryOnDisk(snapshots, lid, dirs, store, e) {
        assert e in rest || e == last;
        assert e in rest ==> EntryOnDisk(snapshots, lid, dirs, before, e);
      }
    }
  }

  /** The disk of a landed record does hold every slice the record names. */
  lemma LandedSlicesExist(cfg: Config, disk: Disk, s: State, lid: string) returns (store: Payloads)
    requires Inv(cfg, disk, s) && s.pc.Landed? && OwnDirectories(cfg) && OwnHashes(cfg)
    ensures OnDisk(s.pc.doc, lid, s.disk.dirs, store)
  {
    var slices :| ComposesTo(cfg, s.jobs, slices) && s.pc.doc == DocOf(cfg, slices);
    var entries := EntriesOf(s.pc.doc, lid);
    forall k | 0 <= k < |entries| ensures FoundOnDisk(s.pc.doc.snapshots, lid, s.disk.dirs, entries[k]) {
      var bytes := SliceOnDisk(cfg, s, slices, lid, entries[k]);
    }
    store := CollectStore(s.pc.doc.snapshots, lid, s.disk.dirs, entries);
  }

  // ---------------------------------------------------------------- building runs

  lemma ExtendRun(cfg: Config, disk: Disk, states: seq<State>, actions: seq<Action>, a: Action, s': State)
    returns (states': seq<State>, actions': seq<Action>)
    requires Run(cfg, disk, states, actions) && Next(cfg, states[|actions|], a, s')
    ensures Run(cfg, disk, states', actions') && states'[|actions'|] == s'
  {
    states', actions' := states + [s'], actions + [a];
    forall k | 0 <= k < |actions'| ensures Next(cfg, states'[k], actions'[k], states'[k + 1]) {
      if k < |actions| {
        assert Next(cfg, states[k], actions[k], states[k + 1]);
      }
    }
  }

  ghost predicate AllAdmitted(cfg: Config) {
    forall i :: 0 <= i < |cfg.sources| ==> Admitted(cfg.sources[i])
  }

  /** The first `n` jobs are requested, and nothing else has happened. */
  ghost predicate OnlyRequested(cfg: Config, jobs: seq<Job>, n: nat) {
    |jobs| == |cfg.sources| && forall i :: 0 <= i < |jobs| ==> jobs[i] == if i < n then Requested else Idle
  }

  /** The run that requests the first `n` snapshots and does nothing else. */
  lemma {:induction false} RequestRun(cfg: Config, disk: Disk, n: nat)
    returns (states: seq<State>, actions: seq<Action>)
    requires n <= |cfg.sources| && forall k :: 0 <= k < n ==> Admitted(cfg.sources[k])
    ensures Run(cfg, disk, states, actions)
    ensures var s := states[|actions|]; s.pc == Requesting(n) && s.disk == disk && OnlyRequested(cfg, s.jobs, n)
  {
    if n == 0 {
      states := [State(Requesting(0), seq(|cfg.sources|, i => Idle), disk)];
      actions := [];
    } else {
      states, actions := RequestRun(cfg, disk, n - 1);
      var s := states[|actions|];
      var s' := s.(pc := Requesting(n), jobs := s.jobs[n - 1 := Requested]);
      states, actions := ExtendRun(cfg, disk, states, actions, Request, s');
    }
  }

  // ---------------------------------------------------------------- saving over an older record

  /** A marker that lists anything does not verify on an empty file. */
  lemma TruncatedIsNotIntact(hash: Hash, dir: Dir, lid: string, e: Entry)
    requires Listing(hash, Held(dir), lid, e)
    ensures !Intact(hash, dir.(payload := []))
  {
    assert Held(dir) != [];
    assert !Verifies(hash, [], dir.marker.value[0]);
  }

  /** Saving over a record whose snapshots the save rewrites breaks completeness: as soon as the
      first such job starts, the old record is still there and its snapshot is truncated. */
  lemma OverwritingBreaksCompleteness(cfg: Config, disk: Disk) returns (states: seq<State>, actions: seq<Action>)
    requires MarkerHolds(cfg, disk) && !NothingToOverwrite(cfg, disk)
    ensures Run(cfg, disk, states, actions) && !MarkerHolds(cfg, states[|actions|].disk)
  {
    var doc := disk.final.value;
    var lid, e :| lid in doc.logical && e in EntriesOf(doc, lid) && 0 <= e.snapshot < |doc.snapshots| &&
      Rewrites(cfg, doc.snapshots[e.snapshot].path);
    var i :| 0 <= i < |cfg.sources| && Reached(cfg, i) && cfg.sources[i].path == doc.snapshots[e.snapshot].path;
    assert Backed(cfg.hash, doc, lid, e, disk.dirs);
    states, actions := RequestRun(cfg, disk, i + 1);
    var s, wires := states[|actions|], cfg.sources[i].wires;
    BlankFits(wires);
    var dir := DirAt(disk.dirs, cfg.sources[i].path);
    var s' := Changed(cfg, s, i, Writing(Segments(Blank(wires), wires), 0), dir.(payload := []));
    assert Daemon(cfg, s, Begin(i, Blank(wires)), s');
    states, actions := ExtendRun(cfg, disk, states, actions, Begin(i, Blank(wires)), s');
    TruncatedIsNotIntact(cfg.hash, dir, lid, e);
    assert !Backed(cfg.hash, doc, lid, e, s'.disk.dirs);
  }

  // ---------------------------------------------------------------- jobs that run to the end

  /** Finished jobs, from given contents of the sources' objects. */
  ghost function JobsFrom(cfg: Config, residents: seq<Resident>): (jobs: seq<Job>)
    requires |residents| == |cfg.sources|
    requires forall i :: 0 <= i < |residents| ==> Fits(residents[i], cfg.sources[i].wires)
    ensures AllDone(cfg, jobs)
    ensures forall i :: 0 <= i < |jobs| ==> jobs[i] == Done(Segments(residents[i], cfg.sources[i].wires))
  {
    seq(|residents|, i requires 0 <= i < |residents| => Done(Segments(residents[i], cfg.sources[i].wires)))
  }

  lemma JobsFromOk(cfg: Config, residents: seq<Resident>)
    requires |residents| == |cfg.sources| && AllAdmitted(cfg)
    requires forall i :: 0 <= i < |residents| ==> Fits(residents[i], cfg.sources[i].wires)
    ensures JobsOk(cfg, JobsFrom(cfg, residents))
  {
    var jobs := JobsFrom(cfg, residents);
    forall i | 0 <= i < |jobs| && Begun(jobs[i]) ensures StreamedBy(cfg, i, jobs[i].slices) {
      assert Fits(residents[i], cfg.sources[i].wires);
    }
  }

  /** Job `i` has written its first `n` slices, with nobody else at work since it began. */
  ghost function Filling(cfg: Config, s: State, i: nat, slices: seq<Slice>, n: nat): State
    requires |s.jobs| == |cfg.sources| && i < |s.jobs| && n <= |slices|
  {
    Changed(cfg, s, i, Writing(slices, n), DirAt(s.disk.dirs, cfg.sources[i].path).(payload := File(slices[..n])))
  }

  lemma BeginStep(cfg: Config, s: State, i: nat, slices: seq<Slice>) returns (a: Action)
    requires |s.jobs| == |cfg.sources| && i < |s.jobs| && s.jobs[i] == Requested && StreamedBy(cfg, i, slices)
    ensures Next(cfg, s, a, Filling(cfg, s, i, slices, 0))
  {
    var resident: Resident :|
      Fits(resident, cfg.sources[i].wires) && slices == Segments(resident, cfg.sources[i].wires);
    a := Begin(i, resident);
    assert File(slices[..0]) == [];
    assert Daemon(cfg, s, a, Filling(cfg, s, i, slices, 0));
  }

  lemma WriteStep(cfg: Config, s: State, i: nat, slices: seq<Slice>, n: nat)
    requires |s.jobs| == |cfg.sources| && i < |s.jobs| && n < |slices|
    ensures Next(cfg, Filling(cfg, s, i, slices, n), Write(i), Filling(cfg, s, i, slices, n + 1))
  {
    var before, after := Filling(cfg, s, i, slices, n), Filling(cfg, s, i, slices, n + 1);
    FileGrows(slices, n);
    assert after.jobs == before.jobs[i := Writing(slices, n + 1)];
    assert Daemon(cfg, before, Write(i), after);
  }

  /** A requested job begins and writes its first `n` slices, with nobody else at work. */
  lemma {:induction false} FillRun(
    cfg: Config, disk: Disk, states: seq<State>, actions: seq<Action>, i: nat, slices: seq<Slice>, n: nat)
    returns (states': seq<State>, actions': seq<Action>)
    requires Run(cfg, disk, states, actions) && |states[|actions|].jobs| == |cfg.sources|
    requires i < |cfg.sources| && states[|actions|].jobs[i] == Requested && StreamedBy(cfg, i, slices) && n <= |slices|
    ensures Run(cfg, disk, states', actions')
    ensures states'[|actions'|] == Filling(cfg, states[|actions|], i, slices, n)
  {
    var s := states[|actions|];
    if n == 0 {
      var a := BeginStep(cfg, s, i, slices);
      states', actions' := ExtendRun(cfg, disk, states, actions, a, Filling(cfg, s, i, slices, 0));
    } else {
      states', actions' := FillRun(cfg, disk, states, actions, i, slices, n - 1);
      WriteStep(cfg, s, i, slices, n - 1);
      states', actions' := ExtendRun(cfg, disk, states', actions', Write(i), Filling(cfg, s, i, slices, n));
    }
  }

  /** A job that has written its slices writes and renames its marker. */
  lemma MarkRun(cfg: Config, disk: Disk, states: seq<State>, actions: seq<Action>, i: nat, slices: seq<Slice>)
    returns (states': seq<State>, actions': seq<Action>)
    requires Run(cfg, disk, states, actions) && |states[|actions|].jobs| == |cfg.sources|
    requires i < |cfg.sources| && states[|actions|].jobs[i] == Writing(slices, |slices|)
    ensures Run(cfg, disk, states', actions')
    ensures var s := states[|actions|];
      states'[|actions'|] == Changed(cfg, s, i, Done(slices),
        DirAt(s.disk.dirs, cfg.sources[i].path).(tmp := None, marker := Some(MarkerOf(cfg.hash, slices))))
  {
    var s, marker := states[|actions|], MarkerOf(cfg.hash, slices);
    var dir := DirAt(s.disk.dirs, cfg.sources[i].path);
    var marking := Changed(cfg, s, i, Marking(slices), dir.(tmp := Some(marker)));
    var done := Changed(cfg, s, i, Done(slices), dir.(tmp := None, marker := Some(marker)));
    assert Daemon(cfg, s, Mark(i), marking);
    states', actions' := ExtendRun(cfg, disk, states, actions, Mark(i), marking);
    assert done == Changed(cfg, marking, i, Done(slices), dir.(tmp := None, marker := Some(marker)));
    assert Daemon(cfg, marking, Land(i), done);
    states', actions' := ExtendRun(cfg, disk, states', actions', Land(i), done);
  }

  /** The directory a job leaves that nobody disturbs. */
  ghost function Sole(hash: Hash, slices: seq<Slice>): Dir {
    Dir(File(slices), None, Some(MarkerOf(hash, slices)))
  }

  /** A requested job runs to its end with nobody else at work. */
  lemma JobRun(cfg: Config, disk: Disk, states: seq<State>, actions: seq<Action>, i: nat, slices: seq<Slice>)
    returns (states': seq<State>, actions': seq<Action>)
    requires Run(cfg, disk, states, actions) && |states[|actions|].jobs| == |cfg.sources|
    requires i < |cfg.sources| && states[|actions|].jobs[i] == Requested && StreamedBy(cfg, i, slices)
    ensures Run(cfg, disk, states', actions')
    ensures states'[|actions'|] == Changed(cfg, states[|actions|], i, Done(slices), Sole(cfg.hash, slices))
  {
    states', actions' := FillRun(cfg, disk, states, actions, i, slices, |slices|);
    assert slices[..|slices|] == slices;
    states', actions' := MarkRun(cfg, disk, states', actions', i, slices);
    var s := states[|actions|];
    assert s.jobs[i := Writing(slices, |slices|)][i := Done(slices)] == s.jobs[i := Done(slices)];
  }

  /** Of all requested jobs, those below `n` that are not skipped have run to their end. */
  ghost predicate SerialJobs(cfg: Config, jobs: seq<Job>, written: seq<Job>, n: nat, skip: set<int>) {
    && |jobs| == |cfg.sources| == |written|
    && forall i :: 0 <= i < |jobs| ==> jobs[i] == if i < n && i !in skip then written[i] else Requested
  }

  /** All requests, then jobs one after the other. */
  lemma {:induction false} SerialRun(cfg: Config, disk: Disk, written: seq<Job>, n: nat, skip: set<int>)
    returns (states: seq<State>, actions: seq<Action>)
    requires AllDone(cfg, written) && JobsOk(cfg, written) && AllAdmitted(cfg) && n <= |written|
    ensures Run(cfg, disk, states, actions)
    ensures var s := states[|actions|];
      s.pc == Requesting(|cfg.sources|) && SerialJobs(cfg, s.jobs, written, n, skip)
  {
    if n == 0 {
      states, actions := RequestRun(cfg, disk, |cfg.sources|);
    } else {
      states, actions := SerialRun(cfg, disk, written, n - 1, skip);
      if n - 1 !in skip {
        assert Begun(written[n - 1]) && StreamedBy(cfg, n - 1, written[n - 1].slices);
        states, actions := JobRun(cfg, disk, states, actions, n - 1, written[n - 1].slices);
      }
    }
  }

  // ---------------------------------------------------------------- landing

  /** From a state with all jobs finished, the composer can wait for each. */
  lemma {:induction false} WaitRun(cfg: Config, disk: Disk, states: seq<State>, actions: seq<Action>, n: nat)
    returns (states': seq<State>, actions': seq<Action>)
    requires Run(cfg, disk, states, actions) && AllDone(cfg, states[|actions|].jobs) && n <= |cfg.sources|
    requires states[|actions|].pc == Requesting(|cfg.sources|)
    ensures Run(cfg, disk, states', actions') && states'[|actions'|] == states[|actions|].(pc := Waiting(n))
  {
    if n == 0 {
      states', actions' := ExtendRun(cfg, disk, states, actions, StartWaiting, states[|actions|].(pc := Waiting(0)));
    } else {
      states', actions' := WaitRun(cfg, disk, states, actions, n - 1);
      states', actions' := ExtendRun(cfg, disk, states', actions', Wait, states[|actions|].(pc := Waiting(n)));
    }
  }

  lemma {:induction false} QueryRun(
    cfg: Config, disk: Disk, states: seq<State>, actions: seq<Action>, doc: Record, n: nat)
    returns (states': seq<State>, actions': seq<Action>)
    requires Run(cfg, disk, states, actions) && n <= |cfg.sources| == |states[|actions|].jobs|
    requires states[|actions|].pc == Querying(doc, 0)
    ensures Run(cfg, disk, states', actions') && states'[|actions'|] == states[|actions|].(pc := Querying(doc, n))
  {
    if n == 0 {
      states', actions' := states, actions;
    } else {
      states', actions' := QueryRun(cfg, disk, states, actions, doc, n - 1);
      states', actions' := ExtendRun(cfg, disk, states', actions', Query, states[|actions|].(pc := Querying(doc, n)));
    }
  }

  /** From the last wait on, a composition that validates lands. */
  lemma ComposeRun(cfg: Config, disk: Disk, states: seq<State>, actions: seq<Action>, slices: Slices)
    returns (states': seq<State>, actions': seq<Action>)
    requires Run(cfg, disk, states, actions) && AllDone(cfg, states[|actions|].jobs)
    requires states[|actions|].pc == Waiting(|cfg.sources|) && ComposesTo(cfg, states[|actions|].jobs, slices)
    ensures Run(cfg, disk, states', actions')
    ensures states'[|actions'|] == states[|actions|].(pc := Validating(DocOf(cfg, slices)))
  {
    var s, doc := states[|actions|], DocOf(cfg, slices);
    states', actions' := ExtendRun(cfg, disk, states, actions, StartComposing, s.(pc := Composing));
    states', actions' := ExtendRun(cfg, disk, states', actions', Compose(slices), s.(pc := Querying(doc, 0)));
    states', actions' := QueryRun(cfg, disk, states', actions', doc, |cfg.sources|);
    states', actions' := ExtendRun(cfg, disk, states', actions', StartValidating, s.(pc := Validating(doc)));
  }

  lemma WriteRun(cfg: Config, disk: Disk, states: seq<State>, actions: seq<Action>, doc: Record)
    returns (states': seq<State>, actions': seq<Action>)
    requires Run(cfg, disk, states, actions) && |states[|actions|].jobs| == |cfg.sources|
    requires states[|actions|].pc == Validating(doc) && RecordValid(doc, cfg.schemas, cfg.digest)
    ensures Run(cfg, disk, states', actions')
    ensures var s := states[|actions|];
      states'[|actions'|] == s.(pc := Landed(doc), disk := s.disk.(tmp := NoTmp, final := Some(doc)))
  {
    var s := states[|actions|];
    var half, full := s.disk.(tmp := HalfTmp), s.disk.(tmp := FullTmp(doc));
    states', actions' := ExtendRun(cfg, disk, states, actions, Validate, s.(pc := OpeningTmp(doc)));
    states', actions' := ExtendRun(cfg, disk, states', actions', OpenTmp, s.(pc := FillingTmp(doc), disk := half));
    states', actions' := ExtendRun(cfg, disk, states', actions', FillTmp, s.(pc := Renaming(doc), disk := full));
    states', actions' := ExtendRun(cfg, disk, states', actions', Rename,
      s.(pc := Landed(doc), disk := s.disk.(tmp := NoTmp, final := Some(doc))));
  }

  /** Once all jobs have finished, hashed and drift-free sources with a valid record can land. */
  lemma LandFrom(cfg: Config, disk: Disk, states: seq<State>, actions: seq<Action>, slices: Slices)
    returns (states': seq<State>, actions': seq<Action>)
    requires Run(cfg, disk, states, actions) && states[|actions|].pc == Requesting(|cfg.sources|)
    requires AllDone(cfg, states[|actions|].jobs) && ComposesTo(cfg, states[|actions|].jobs, slices)
    requires RecordValid(DocOf(cfg, slices), cfg.schemas, cfg.digest)
    ensures Run(cfg, disk, states', actions')
    ensures var s, s', doc := states[|actions|], states'[|actions'|], DocOf(cfg, slices);
      s' == s.(pc := Landed(doc), disk := s.disk.(tmp := NoTmp, final := Some(doc)))
  {
    states', actions' := WaitRun(cfg, disk, states, actions, |cfg.sources|);
    states', actions' := ComposeRun(cfg, disk, states', actions', slices);
    states', actions' := WriteRun(cfg, disk, states', actions', DocOf(cfg, slices));
  }

  /** Finished, hashed, drift-free sources with a valid record admit a run that lands. */
  lemma LandRun(cfg: Config, disk: Disk, written: seq<Job>, slices: Slices)
    returns (states: seq<State>, actions: seq<Action>)
    requires AllDone(cfg, written) && JobsOk(cfg, written) && ComposesTo(cfg, written, slices)
    requires RecordValid(DocOf(cfg, slices), cfg.schemas, cfg.digest)
    ensures Run(cfg, disk, states, actions)
    ensures var s := states[|actions|];
      s.pc == Landed(DocOf(cfg, slices)) && s.disk.final == Some(DocOf(cfg, slices)) && s.jobs == written
  {
    StreamersAdmitted(cfg, written);
    states, actions := SerialRun(cfg, disk, written, |written|, {});
    assert states[|actions|].jobs == written;
    states, actions := LandFrom(cfg, disk, states, actions, slices);
  }

  lemma StreamersAdmitted(cfg: Config, jobs: seq<Job>)
    requires AllDone(cfg, jobs) && JobsOk(cfg, jobs)
    ensures AllAdmitted(cfg)
  {
    forall i | 0 <= i < |cfg.sources| ensures Admitted(cfg.sources[i]) {
      assert Begun(jobs[i]) && StreamedBy(cfg, i, jobs[i].slices);
    }
  }
}
