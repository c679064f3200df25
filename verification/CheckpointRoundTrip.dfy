/** Saving, then restoring: the plan resolved from a landed record writes back every byte of every
    object it is asked for, and nothing else. */
module CheckpointRoundTrip {
  import opened CheckpointRecord
  import opened CheckpointReassembly
  import opened CheckpointSave
  import opened CheckpointDirectory
  import opened CheckpointProtocol
  import opened CheckpointSafety
  import opened CheckpointDestination
  import opened CheckpointRestore
  import opened CheckpointPlacement

  ghost predicate AllInStep(cfg: Config) {
    forall i :: 0 <= i < |cfg.sources| ==> InStep(cfg.sources[i])
  }

  /** No source fills a span from two places. */
  ghost predicate OnePerSpan(cfg: Config) {
    forall i, j, k | 0 <= i < |cfg.sources| && 0 <= j < |cfg.sources[i].entries| && 0 <= k < |cfg.sources[i].entries| ::
      cfg.sources[i].entries[j].lid == cfg.sources[i].entries[k].lid &&
      cfg.sources[i].entries[j].dst == cfg.sources[i].entries[k].dst ==>
        cfg.sources[i].entries[j].src == cfg.sources[i].entries[k].src
  }

  lemma {:induction false} LastWireExists(wires: seq<Wire>, k: nat)
    requires k < |wires|
    ensures LastWire(wires, Where(wires[k].lid, wires[k].dst)).Some?
  {
    if k < |wires| - 1 {
      LastWireExists(wires[..|wires| - 1], k);
    }
  }

  /** A policy in step that fills no span twice records every slice with its own hash. */
  lemma InStepOwnsHashes(cfg: Config)
    requires AllInStep(cfg) && OnePerSpan(cfg)
    ensures OwnHashes(cfg)
  {
    forall i, k | 0 <= i < |cfg.sources| && 0 <= k < |cfg.sources[i].entries|
      ensures OwnWire(cfg.sources[i].wires, cfg.sources[i].entries[k])
    {
      var wires, e := cfg.sources[i].wires, cfg.sources[i].entries[k];
      assert InStep(cfg.sources[i]) && Asks(wires[k], e);
      LastWireExists(wires, k);
      var w := LastWire(wires, Where(e.lid, e.dst)).value;
      var m :| 0 <= m < |wires| && wires[m] == w;
      assert Asks(wires[m], cfg.sources[i].entries[m]);
    }
  }

  /** What the directories of the contributing sources hold. */
  ghost predicate HeldOnDisk(cfg: Config, dirs: map<string, Dir>, held: seq<seq<Slice>>) {
    && |held| == |cfg.sources|
    && forall i :: 0 <= i < |held| && cfg.sources[i].entries != [] ==>
         cfg.sources[i].path in dirs && Held(dirs[cfg.sources[i].path]) == held[i]
  }

  /** Cuts of the same bytes are the same. */
  lemma SameCut(resident: Resident, wires: seq<Wire>, k: nat, slice: Slice)
    requires Fits(resident, wires) && k < |wires| && slice in Segments(resident, wires)
    requires slice.id == wires[k].id && slice.src == wires[k].src
    ensures slice.bytes == Segments(resident, wires)[k].bytes
  {
    var m :| 0 <= m < |wires| && Segments(resident, wires)[m] == slice;
    assert WireFits(resident, wires[m]) && WireFits(resident, wires[k]);
  }

  /** A slice streamed in step is an entry of the record. */
  lemma StreamedIsRecorded(cfg: Config, jobs: seq<Job>, slices: Slices, lid: string, s: nat, k: nat) returns (e: Entry)
    requires AllDone(cfg, jobs) && ComposesTo(cfg, jobs, slices) && AllInStep(cfg)
    requires s < |cfg.sources| && k < |cfg.sources[s].wires| && cfg.sources[s].wires[k].lid == lid
    ensures e in EntriesOf(DocOf(cfg, slices), lid) && e.snapshot == s
    ensures e.src == cfg.sources[s].wires[k].src && e.dst == cfg.sources[s].wires[k].dst
    ensures cfg.sources[s].wires[k].id == Bare(lid)
  {
    assert InStep(cfg.sources[s]) && Asks(cfg.sources[s].wires[k], cfg.sources[s].entries[k]);
    var statuses := Statuses(cfg.hash, jobs);
    e := Recorded(s, cfg.sources[s].entries[k], statuses[s]);
    ComposedHas(cfg.sources, statuses, |cfg.sources|, s, cfg.sources[s].entries[k]);
    assert SliceOf(slices, lid) == Composed(cfg.sources, statuses, |cfg.sources|, lid);
  }

  /** Every slice on disk of a contributing source is the payload of a recorded entry. */
  lemma HeldIsNamed(
    cfg: Config, s: State, slices: Slices, lid: string, store: Payloads, held: seq<seq<Slice>>, e0: Entry, k: nat)
    returns (e: Entry)
    requires CleanFinish(cfg, s) && AllInStep(cfg) && ComposesTo(cfg, s.jobs, slices)
    requires OnDisk(DocOf(cfg, slices), lid, s.disk.dirs, store) && HeldOnDisk(cfg, s.disk.dirs, held)
    requires e0 in EntriesOf(DocOf(cfg, slices), lid) && 0 <= e0.snapshot < |held|
    requires k < |held[e0.snapshot]| && held[e0.snapshot][k].lid == lid
    ensures e in EntriesOf(DocOf(cfg, slices), lid) && e.snapshot == e0.snapshot
    ensures KeyOf(lid, e) in store && held[e0.snapshot][k] == Named(lid, e, store)
  {
    var i := e0.snapshot;
    var resident := EntrySource(cfg, s, slices, lid, e0);
    EntryOfSource(cfg, s.jobs, slices, lid, e0);
    assert held[i] == Segments(resident, cfg.sources[i].wires);
    e := StreamedIsRecorded(cfg, s.jobs, slices, lid, i, k);
    assert EntryOnDisk(DocOf(cfg, slices).snapshots, lid, s.disk.dirs, store, e);
    SameCut(resident, cfg.sources[i].wires, k, Named(lid, e, store));
  }

  lemma DiskIsListed(
    cfg: Config, s: State, slices: Slices, lid: string, entries: seq<Entry>, store: Payloads, held: seq<seq<Slice>>)
    requires CleanFinish(cfg, s) && AllInStep(cfg) && ComposesTo(cfg, s.jobs, slices)
    requires OnDisk(DocOf(cfg, slices), lid, s.disk.dirs, store) && HeldOnDisk(cfg, s.disk.dirs, held)
    requires entries == EntriesOf(DocOf(cfg, slices), lid) && Stored(lid, entries, store)
    ensures AllListed(lid, entries, store, held)
  {
    forall j, k | 0 <= j < |entries| && 0 <= entries[j].snapshot < |held| && 0 <= k < |held[entries[j].snapshot]| &&
      held[entries[j].snapshot][k].lid == lid
      ensures Listed(lid, entries, store, entries[j].snapshot, held[entries[j].snapshot][k])
    {
      var e := HeldIsNamed(cfg, s, slices, lid, store, held, entries[j], k);
      var i :| 0 <= i < |entries| && entries[i] == e;
    }
  }

  lemma DiskHolds(
    cfg: Config, s: State, slices: Slices, lid: string, entries: seq<Entry>, store: Payloads, held: seq<seq<Slice>>)
    requires CleanFinish(cfg, s) && ComposesTo(cfg, s.jobs, slices)
    requires OnDisk(DocOf(cfg, slices), lid, s.disk.dirs, store) && HeldOnDisk(cfg, s.disk.dirs, held)
    requires entries == EntriesOf(DocOf(cfg, slices), lid) && Stored(lid, entries, store)
    ensures Holds(lid, entries, store, held)
  {
    forall i | 0 <= i < |entries|
      ensures 0 <= entries[i].snapshot < |held| && Named(lid, entries[i], store) in held[entries[i].snapshot]
    {
      assert EntryOnDisk(DocOf(cfg, slices).snapshots, lid, s.disk.dirs, store, entries[i]);
      EntryOfSource(cfg, s.jobs, slices, lid, entries[i]);
    }
  }

  /** The restored object is `whole`, written byte by byte, and nothing else is touched. */
  ghost predicate RestoresExactly(
    steps: seq<PlanStep>, lid: string, total: int, held: seq<seq<Slice>>, whole: seq<byte>)
  {
    && |whole| == Extent(total) && WritesOnly(steps, lid, held, whole)
    && forall x :: 0 <= x < |whole| ==> Writes(steps, lid, held, lid, x, whole[x])
  }

  lemma CompositionRestores(
    cfg: Config, s: State, slices: Slices, ids: seq<string>, steps: seq<PlanStep>, lid: string, store: Payloads,
    held: seq<seq<Slice>>, pick: seq<nat>)
    requires CleanFinish(cfg, s) && Injective(cfg.hash) && AllInStep(cfg) && ComposesTo(cfg, s.jobs, slices)
    requires RecordValid(DocOf(cfg, slices), cfg.schemas, cfg.digest) && PlanExact(DocOf(cfg, slices), ids, steps)
    requires AllAdmissible(steps) && lid in ids && lid in cfg.logical
    requires OnDisk(DocOf(cfg, slices), lid, s.disk.dirs, store) && HeldOnDisk(cfg, s.disk.dirs, held)
    requires var entries := EntriesOf(DocOf(cfg, slices), lid); Picks(entries, Tiling(entries), pick)
    ensures Stored(lid, EntriesOf(DocOf(cfg, slices), lid), store)
    ensures RestoresExactly(steps, lid, cfg.logical[lid].bytes, held, Rebuilt(DocOf(cfg, slices), lid, store, pick))
  {
    var doc, total := DocOf(cfg, slices), cfg.logical[lid].bytes;
    var entries := EntriesOf(doc, lid);
    DiskIsIdentified(cfg, s, slices, lid, store);
    DriftFreeRecordIsCertified(cfg.step, cfg.seed, cfg.logical, cfg.sources, Statuses(cfg.hash, s.jobs), slices, lid);
    assert LogicalValid(doc, lid, cfg.schemas, cfg.digest);
    DiskHolds(cfg, s, slices, lid, entries, store, held);
    var whole := Rebuilt(doc, lid, store, pick);
    DiskIsListed(cfg, s, slices, lid, entries, store, held);
    RestoreWritesOnly(doc, ids, steps, lid, store, held, pick);
    AnyReplicaRebuilds(lid, total, entries, doc.snapshots, store, pick, pick);
    forall x | 0 <= x < |whole| ensures Writes(steps, lid, held, lid, x, whole[x]) {
      RestoreWritesAll(doc, ids, steps, lid, store, held, pick, x);
    }
  }

  lemma LandedComposition(cfg: Config, disk: Disk, s: State) returns (slices: Slices)
    requires Inv(cfg, disk, s) && s.pc.Landed? && OwnDirectories(cfg) && AllInStep(cfg) && OwnHashes(cfg)
    ensures CleanFinish(cfg, s) && ComposesTo(cfg, s.jobs, slices) && s.pc.doc == DocOf(cfg, slices)
    ensures RecordValid(s.pc.doc, cfg.schemas, cfg.digest)
  {
    slices :| ComposesTo(cfg, s.jobs, slices) && s.pc.doc == DocOf(cfg, slices);
  }

  /** Every step of the plan finds in its directory what the restore is said to read there. */
  ghost predicate ReadsDisk(steps: seq<PlanStep>, dirs: map<string, Dir>, held: seq<seq<Slice>>) {
    forall i :: 0 <= i < |steps| ==>
      && 0 <= steps[i].snapshot < |held| && steps[i].path in dirs
      && Held(dirs[steps[i].path]) == held[steps[i].snapshot]
  }

  /** A step stands for some entry of its snapshot. */
  lemma StepHasEntry(record: Record, ids: seq<string>, steps: seq<PlanStep>, i: nat) returns (lid: string, e: Entry)
    requires PlanExact(record, ids, steps) && i < |steps|
    ensures e in EntriesOf(record, lid) && e.snapshot == steps[i].snapshot
  {
    lid :| lid in steps[i].remap;
    assert WindowsExact(record, ids, lid, steps[i].snapshot, steps[i].remap[lid]);
    var w := steps[i].remap[lid][0];
    assert Sends(w, w.logical.lo, w.local.lo, w.id, w.bytes);
    assert PlanSends(steps, steps[i].snapshot, lid, w.logical.lo, w.local.lo, w.id, w.bytes);
    var entries := EntriesOf(record, lid);
    assert SourceOf(entries, w.logical.lo, steps[i].snapshot);
    var k :| 0 <= k < |entries| && Covers(entries[k].dst, w.logical.lo) && entries[k].snapshot == steps[i].snapshot;
    e := entries[k];
  }

  lemma PlanReadsDisk(cfg: Config, s: State, slices: Slices, ids: seq<string>, steps: seq<PlanStep>,
                      held: seq<seq<Slice>>)
    requires CleanFinish(cfg, s) && ComposesTo(cfg, s.jobs, slices) && PlanExact(DocOf(cfg, slices), ids, steps)
    requires HeldOnDisk(cfg, s.disk.dirs, held)
    ensures ReadsDisk(steps, s.disk.dirs, held)
  {
    forall i | 0 <= i < |steps|
      ensures 0 <= steps[i].snapshot < |held| && steps[i].path in s.disk.dirs
      ensures Held(s.disk.dirs[steps[i].path]) == held[steps[i].snapshot]
    {
      var lid, e := StepHasEntry(DocOf(cfg, slices), ids, steps, i);
      EntryOfSource(cfg, s.jobs, slices, lid, e);
    }
  }

  /** After any run that lands, with sources in step, each in its own directory, filling no span
      twice, and hashes that identify bytes: the engine admits every plan that is resolved from the
      record without asking for an object twice, and carrying it out writes back exactly the bytes
      that any choice of replicas rebuilds. */
  lemma LandedSaveRestores(
    cfg: Config, disk: Disk, states: seq<State>, actions: seq<Action>, n: nat, ids: seq<string>,
    steps: seq<PlanStep>, lid: string, store: Payloads, held: seq<seq<Slice>>, pick: seq<nat>)
    requires Run(cfg, disk, states, actions) && n < |states| && states[n].pc.Landed?
    requires OwnDirectories(cfg) && AllInStep(cfg) && OnePerSpan(cfg) && Injective(cfg.hash)
    requires PlanExact(states[n].pc.doc, ids, steps) && OnceEach(states[n].pc.doc, ids)
    requires lid in ids && lid in cfg.logical
    requires OnDisk(states[n].pc.doc, lid, states[n].disk.dirs, store) && HeldOnDisk(cfg, states[n].disk.dirs, held)
    requires var entries := EntriesOf(states[n].pc.doc, lid); Picks(entries, Tiling(entries), pick)
    ensures AllAdmissible(steps) && ReadsDisk(steps, states[n].disk.dirs, held)
    ensures Stored(lid, EntriesOf(states[n].pc.doc, lid), store)
    ensures RestoresExactly(steps, lid, cfg.logical[lid].bytes, held, Rebuilt(states[n].pc.doc, lid, store, pick))
  {
    RunKeepsInv(cfg, disk, states, actions, n);
    InStepOwnsHashes(cfg);
    ReaderAcceptsWhatWriterAccepts(states[n].pc.doc, cfg.schemas, cfg.digest);
    AdmittedExactly(states[n].pc.doc, ids, steps, cfg.digest);
    var slices := LandedComposition(cfg, disk, states[n]);
    CompositionRestores(cfg, states[n], slices, ids, steps, lid, store, held, pick);
    PlanReadsDisk(cfg, states[n], slices, ids, steps, held);
  }

  // ---------------------------------------------------------------- back to the sources' memory

  /** The source streamed its slices from these objects. */
  ghost predicate StreamedFrom(cfg: Config, s: State, i: int, resident: Resident) {
    && 0 <= i < |cfg.sources| == |s.jobs| && s.jobs[i].Done? && Fits(resident, cfg.sources[i].wires)
    && s.jobs[i].slices == Segments(resident, cfg.sources[i].wires)
  }

  lemma StreamOf(cfg: Config, s: State, slices: Slices, lid: string, e: Entry) returns (resident: Resident)
    requires CleanFinish(cfg, s) && ComposesTo(cfg, s.jobs, slices) && e in EntriesOf(DocOf(cfg, slices), lid)
    ensures StreamedFrom(cfg, s, e.snapshot, resident) && cfg.sources[e.snapshot].path in s.disk.dirs
    ensures Held(s.disk.dirs[cfg.sources[e.snapshot].path]) == Segments(resident, cfg.sources[e.snapshot].wires)
  {
    EntryOfSource(cfg, s.jobs, slices, lid, e);
    var i := e.snapshot;
    assert Alone(cfg, i) && s.jobs[i].Done? && Begun(s.jobs[i]);
    OwnDir(cfg, s, i);
    assert StreamedBy(cfg, i, s.jobs[i].slices);
    resident :| Fits(resident, cfg.sources[i].wires) && s.jobs[i].slices == Segments(resident, cfg.sources[i].wires);
  }

  /** The slice an entry names on disk is a range of the object in its source's memory. */
  lemma SliceOfMemory(resident: Resident, wires: seq<Wire>, lid: string, e: Entry, bytes: seq<byte>)
    requires Fits(resident, wires) && HeldBy(Segments(resident, wires), lid, e, bytes)
    ensures Bare(lid) in resident && 0 <= e.src.lo <= e.src.hi <= |resident[Bare(lid)]|
    ensures bytes == resident[Bare(lid)][e.src.lo..e.src.hi]
  {
    var k :| 0 <= k < |wires| && Segments(resident, wires)[k] == Slice(Bare(lid), e.src, lid, e.dst, bytes);
    assert WireFits(resident, wires[k]);
  }

  lemma RebuiltHolds(
    cfg: Config, s: State, slices: Slices, lid: string, store: Payloads, pick: seq<nat>, i: nat, x: int)
    requires CleanFinish(cfg, s) && Injective(cfg.hash) && ComposesTo(cfg, s.jobs, slices) && lid in cfg.logical
    requires RecordValid(DocOf(cfg, slices), cfg.schemas, cfg.digest)
    requires OnDisk(DocOf(cfg, slices), lid, s.disk.dirs, store)
    requires var entries := EntriesOf(DocOf(cfg, slices), lid);
      Picks(entries, Tiling(entries), pick) && i < |entries| && Covers(entries[i].dst, x)
    ensures Stored(lid, EntriesOf(DocOf(cfg, slices), lid), store)
    ensures var whole, e := Rebuilt(DocOf(cfg, slices), lid, store, pick), EntriesOf(DocOf(cfg, slices), lid)[i];
      0 <= x < |whole| && whole[x] == store[KeyOf(lid, e)][x - e.dst.lo]
  {
    var doc := DocOf(cfg, slices);
    DiskIsIdentified(cfg, s, slices, lid, store);
    DriftFreeRecordIsCertified(cfg.step, cfg.seed, cfg.logical, cfg.sources, Statuses(cfg.hash, s.jobs), slices, lid);
    assert LogicalValid(doc, lid, cfg.schemas, cfg.digest);
    AnySliceHolds(lid, cfg.logical[lid].bytes, EntriesOf(doc, lid), doc.snapshots, store, pick, i, x);
  }

  /** Under the same hypotheses: wherever the record maps a range of a source's object to byte `x`, the
      byte that is restored there is the one the source had in memory when it streamed that range. */
  lemma RestoredIsMemory(
    cfg: Config, disk: Disk, states: seq<State>, actions: seq<Action>, n: nat, lid: string, store: Payloads,
    pick: seq<nat>, i: nat, x: int) returns (resident: Resident)
    requires Run(cfg, disk, states, actions) && n < |states| && states[n].pc.Landed? && lid in cfg.logical
    requires OwnDirectories(cfg) && AllInStep(cfg) && OnePerSpan(cfg) && Injective(cfg.hash)
    requires OnDisk(states[n].pc.doc, lid, states[n].disk.dirs, store)
    requires var entries := EntriesOf(states[n].pc.doc, lid);
      Picks(entries, Tiling(entries), pick) && i < |entries| && Covers(entries[i].dst, x)
    ensures StreamedFrom(cfg, states[n], EntriesOf(states[n].pc.doc, lid)[i].snapshot, resident)
    ensures Stored(lid, EntriesOf(states[n].pc.doc, lid), store)
    ensures var whole, e := Rebuilt(states[n].pc.doc, lid, store, pick), EntriesOf(states[n].pc.doc, lid)[i];
      && 0 <= x < |whole| && Bare(lid) in resident && 0 <= e.src.lo + x - e.dst.lo < |resident[Bare(lid)]|
      && whole[x] == resident[Bare(lid)][e.src.lo + x - e.dst.lo]
  {
    RunKeepsInv(cfg, disk, states, actions, n);
    InStepOwnsHashes(cfg);
    resident := StateMemory(cfg, disk, states[n], EntriesOf(states[n].pc.doc, lid), lid, store, pick, i, x);
  }

  lemma StateMemory(
    cfg: Config, disk: Disk, s: State, entries: seq<Entry>, lid: string, store: Payloads, pick: seq<nat>, i: nat,
    x: int) returns (resident: Resident)
    requires Inv(cfg, disk, s) && s.pc.Landed? && lid in cfg.logical && entries == EntriesOf(s.pc.doc, lid)
    requires OwnDirectories(cfg) && AllInStep(cfg) && OwnHashes(cfg) && Injective(cfg.hash)
    requires OnDisk(s.pc.doc, lid, s.disk.dirs, store)
    requires Picks(entries, Tiling(entries), pick) && i < |entries| && Covers(entries[i].dst, x)
    ensures StreamedFrom(cfg, s, entries[i].snapshot, resident) && Stored(lid, entries, store)
    ensures var whole, e := Rebuilt(s.pc.doc, lid, store, pick), entries[i];
      && 0 <= x < |whole| && Bare(lid) in resident && 0 <= e.src.lo + x - e.dst.lo < |resident[Bare(lid)]|
      && whole[x] == resident[Bare(lid)][e.src.lo + x - e.dst.lo]
  {
    var slices := LandedComposition(cfg, disk, s);
    resident := EntryMemory(cfg, s, slices, lid, store, pick, i, x);
  }

  lemma EntryMemory(cfg: Config, s: State, slices: Slices, lid: string, store: Payloads, pick: seq<nat>, i: nat, x: int)
    returns (resident: Resident)
    requires CleanFinish(cfg, s) && Injective(cfg.hash) && ComposesTo(cfg, s.jobs, slices) && lid in cfg.logical
    requires RecordValid(DocOf(cfg, slices), cfg.schemas, cfg.digest)
    requires OnDisk(DocOf(cfg, slices), lid, s.disk.dirs, store)
    requires var entries := EntriesOf(DocOf(cfg, slices), lid);
      Picks(entries, Tiling(entries), pick) && i < |entries| && Covers(entries[i].dst, x)
    ensures StreamedFrom(cfg, s, EntriesOf(DocOf(cfg, slices), lid)[i].snapshot, resident)
    ensures Stored(lid, EntriesOf(DocOf(cfg, slices), lid), store)
    ensures var whole, e := Rebuilt(DocOf(cfg, slices), lid, store, pick), EntriesOf(DocOf(cfg, slices), lid)[i];
      && 0 <= x < |whole| && Bare(lid) in resident && 0 <= e.src.lo + x - e.dst.lo < |resident[Bare(lid)]|
      && whole[x] == resident[Bare(lid)][e.src.lo + x - e.dst.lo]
  {
    var e := EntriesOf(DocOf(cfg, slices), lid)[i];
    RebuiltHolds(cfg, s, slices, lid, store, pick, i, x);
    assert EntryOnDisk(DocOf(cfg, slices).snapshots, lid, s.disk.dirs, store, e);
    resident := StreamOf(cfg, s, slices, lid, e);
    SliceOfMemory(resident, cfg.sources[e.snapshot].wires, lid, e, store[KeyOf(lid, e)]);
  }
}
