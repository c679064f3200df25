/** Three small saves: one source that fills a span twice and two sources that lose each other's slices
    in one directory land and mislead their readers; two replicas in one directory are safe. */
module CheckpointTwins {
  import opened Wrappers
  import opened CheckpointRecord
  import opened CheckpointReassembly
  import opened CheckpointSave
  import opened CheckpointProtocol
  import opened CheckpointSafety
  import opened CheckpointDestination
  import opened CheckpointSharing

  lemma FromOne(i: int, e: Planned, streamed: seq<Streamed>, lid: string)
    ensures FromSource(i, [e], streamed, lid) == if e.lid == lid then [Recorded(i, e, streamed)] else []
  {
    assert [] + [e] == [e];
    FromSourceAppend(i, [], e, streamed, lid);
  }

  lemma FromTwo(i: int, e: Planned, f: Planned, streamed: seq<Streamed>, lid: string)
    requires e.lid == f.lid
    ensures FromSource(i, [e, f], streamed, lid) ==
      if e.lid == lid then [Recorded(i, e, streamed), Recorded(i, f, streamed)] else []
  {
    FromOne(i, e, streamed, lid);
    FromSourceAppend(i, [e], f, streamed, lid);
    assert [e] + [f] == [e, f];
  }

  /** One byte, in one slice or in several of one span. */
  lemma OneByteValid(lid: string, entries: seq<Entry>, snapshots: seq<Snapshot>, h: Option<Digest>)
    requires entries != [] && forall k :: 0 <= k < |entries| ==> entries[k].dst == Span(0, 1) && entries[k].hash == h
    requires forall k :: 0 <= k < |entries| ==> ShapeOk(lid, 1, entries[k], snapshots)
    ensures ObjectValid(lid, 1, entries, snapshots)
  {
    assert Covers(Spans(entries)[0], 0);
  }

  // ---------------------------------------------------------------- one source, one span twice

  const HEAD := Planned("w", Span(0, 1), Span(0, 1))
  const TAIL := Planned("w", Span(0, 1), Span(1, 2))

  /** Both bytes of the object `w` are to fill the one byte of the logical object `w`. */
  function TwinSource(): Source {
    Source("s", "p", [Wire("w", Span(0, 1), "w", Span(0, 1), 1), Wire("w", Span(1, 2), "w", Span(0, 1), 1)],
           [HEAD, TAIL], map["w" := 2])
  }

  function TwinSave(digest: seq<Field> -> Digest, hash: Hash): Config {
    Config([TwinSource()], 0, 0, map["w" := Logical(1, None)], map[], digest, hash)
  }

  function TwinBytes(): Resident {
    map["w" := [0, 1]]
  }

  function TwinSlices(): seq<Slice> {
    [Slice("w", Span(0, 1), "w", Span(0, 1), [0]), Slice("w", Span(1, 2), "w", Span(0, 1), [1])]
  }

  lemma TwinCut(k: nat)
    requires k < 2
    ensures WireFits(TwinBytes(), TwinSource().wires[k])
    ensures Cut(TwinBytes(), TwinSource().wires[k]) == TwinSlices()[k]
  {
    assert TwinBytes()["w"][k..k + 1] == [TwinBytes()["w"][k]];
  }

  lemma TwinSegments()
    ensures Fits(TwinBytes(), TwinSource().wires) && Segments(TwinBytes(), TwinSource().wires) == TwinSlices()
  {
    TwinCut(0);
    TwinCut(1);
  }

  lemma TwinHash(hash: Hash)
    ensures LastHash(Report(hash, TwinSlices()), Where("w", Span(0, 1))) == Some(hash([1]))
  {
  }

  ghost function TwinRecorded(hash: Hash): seq<Entry> {
    [Entry(0, Span(0, 1), Span(0, 1), Some(hash([1]))), Entry(0, Span(1, 2), Span(0, 1), Some(hash([1])))]
  }

  lemma TwinComposes(digest: seq<Field> -> Digest, hash: Hash)
    ensures AllDone(TwinSave(digest, hash), [Done(TwinSlices())])
    ensures ComposesTo(TwinSave(digest, hash), [Done(TwinSlices())], map["w" := TwinRecorded(hash)])
  {
    var cfg, slices: Slices := TwinSave(digest, hash), map["w" := TwinRecorded(hash)];
    var statuses := Statuses(hash, [Done(TwinSlices())]);
    assert statuses[0] == Report(hash, TwinSlices());
    TwinHash(hash);
    forall lid ensures SliceOf(slices, lid) == Composed(cfg.sources, statuses, 1, lid) {
      FromTwo(0, HEAD, TAIL, statuses[0], lid);
      assert Composed(cfg.sources, statuses, 0, lid) == [];
    }
  }

  lemma TwinIsValid(digest: seq<Field> -> Digest, hash: Hash)
    ensures RecordValid(DocOf(TwinSave(digest, hash), map["w" := TwinRecorded(hash)]), map[], digest)
  {
    var doc := DocOf(TwinSave(digest, hash), map["w" := TwinRecorded(hash)]);
    OneByteValid("w", TwinRecorded(hash), doc.snapshots, Some(hash([1])));
    forall lid | lid in doc.logical ensures LogicalValid(doc, lid, map[], digest) {
    }
  }

  /** The save lands, the completeness marker holds and both slices are on disk, yet readers of the
      one byte disagree: both entries carry the hash of the slice streamed last. */
  lemma SharedSpanMisleads(digest: seq<Field> -> Digest, hash: Hash, disk: Disk)
    returns (states: seq<State>, actions: seq<Action>, store: Payloads, p: seq<nat>, q: seq<nat>)
    ensures Run(TwinSave(digest, hash), disk, states, actions) && OwnDirectories(TwinSave(digest, hash))
    ensures states[|actions|].pc.Landed? && MarkerHolds(TwinSave(digest, hash), states[|actions|].disk)
    ensures OnDisk(states[|actions|].pc.doc, "w", states[|actions|].disk.dirs, store)
    ensures var entries := EntriesOf(states[|actions|].pc.doc, "w");
      && Stored("w", entries, store) && Picks(entries, Tiling(entries), p) && Picks(entries, Tiling(entries), q)
      && Reassemble("w", entries, Tiling(entries), p, store) != Reassemble("w", entries, Tiling(entries), q, store)
  {
    var cfg, slices: Slices := TwinSave(digest, hash), map["w" := TwinRecorded(hash)];
    TwinComposes(digest, hash);
    TwinIsValid(digest, hash);
    TwinSegments();
    assert JobsFrom(cfg, [TwinBytes()]) == [Done(TwinSlices())];
    assert Admitted(TwinSource());
    JobsFromOk(cfg, [TwinBytes()]);
    states, actions := LandRun(cfg, disk, [Done(TwinSlices())], slices);
    RunKeepsInv(cfg, disk, states, actions, |actions|);
    OwnDirectoriesAgree(cfg);
    LandedIsBacked(cfg, disk, states[|actions|]);
    store, p, q := TwinReaders(cfg, states[|actions|], DocOf(cfg, slices));
  }

  lemma TwinReaders(cfg: Config, s: State, doc: Record) returns (store: Payloads, p: seq<nat>, q: seq<nat>)
    requires |cfg.sources| == 1 && cfg.sources[0] == TwinSource() && s.jobs == [Done(TwinSlices())]
    requires DirsFollowJobs(cfg, s) && JobsOk(cfg, s.jobs) && OwnDirectories(cfg) && RecordValid(doc, map[], cfg.digest)
    requires |doc.snapshots| == 1 && doc.snapshots[0].path == "p" && "w" in doc.logical && doc.logical["w"].bytes == 1
    requires EntriesOf(doc, "w") == TwinRecorded(cfg.hash)
    ensures OnDisk(doc, "w", s.disk.dirs, store)
    ensures var entries := EntriesOf(doc, "w");
      && Stored("w", entries, store) && Picks(entries, Tiling(entries), p) && Picks(entries, Tiling(entries), q)
      && Reassemble("w", entries, Tiling(entries), p, store) != Reassemble("w", entries, Tiling(entries), q, store)
  {
    var entries := EntriesOf(doc, "w");
    assert Alone(cfg, 0);
    OwnDir(cfg, s, 0);
    store := map[KeyOf("w", entries[0]) := [0], KeyOf("w", entries[1]) := [1]];
    assert TwinSlices()[0] in TwinSlices() && TwinSlices()[1] in TwinSlices();
    assert LogicalValid(doc, "w", map[], cfg.digest);
    TilingFacts(entries);
    p := PickWith(entries, Tiling(entries), 0);
    q := PickWith(entries, Tiling(entries), 1);
    ReadAt("w", 1, entries, doc.snapshots, store, p, 0);
    ReadAt("w", 1, entries, doc.snapshots, store, q, 1);
  }

  // ---------------------------------------------------------------- two sources, one directory

  function ByteSource(key: string, lid: string): Source {
    Source(key, "p", [Wire(lid, Span(0, 1), lid, Span(0, 1), 1)], [Planned(lid, Span(0, 1), Span(0, 1))], map[lid := 1])
  }

  /** Two one-byte objects from two sources that write the same directory. */
  function SharedSave(digest: seq<Field> -> Digest, hash: Hash): Config {
    Config([ByteSource("s", "a"), ByteSource("t", "b")], 0, 0,
           map["a" := Logical(1, None), "b" := Logical(1, None)], map[], digest, hash)
  }

  lemma ByteFits(key: string, lid: string)
    ensures Fits(Blank(ByteSource(key, lid).wires), ByteSource(key, lid).wires)
  {
    BlankFits(ByteSource(key, lid).wires);
  }

  lemma ByteHash(hash: Hash, key: string, lid: string, slices: seq<Slice>)
    requires Fits(Blank(ByteSource(key, lid).wires), ByteSource(key, lid).wires)
    requires slices == Segments(Blank(ByteSource(key, lid).wires), ByteSource(key, lid).wires)
    ensures LastHash(Report(hash, slices), Where(lid, Span(0, 1))).Some?
  {
    LastHashIs(hash, Blank(ByteSource(key, lid).wires), ByteSource(key, lid).wires, Where(lid, Span(0, 1)));
  }

  ghost function SharedSlices(a: Option<Digest>, b: Option<Digest>): Slices {
    map["a" := [Entry(0, Span(0, 1), Span(0, 1), a)], "b" := [Entry(1, Span(0, 1), Span(0, 1), b)]]
  }

  /** The composed table of two such sources. */
  lemma SharedTable(sources: seq<Source>, statuses: seq<seq<Streamed>>, a: Option<Digest>, b: Option<Digest>)
    requires sources == [ByteSource("s", "a"), ByteSource("t", "b")] && |statuses| == 2
    requires a == LastHash(statuses[0], Where("a", Span(0, 1))) && b == LastHash(statuses[1], Where("b", Span(0, 1)))
    ensures IsTable(sources, statuses, 2, SharedSlices(a, b))
    ensures a.Some? && b.Some? ==> Tabulates(sources, statuses, SharedSlices(a, b))
  {
    var slices := SharedSlices(a, b);
    forall lid ensures SliceOf(slices, lid) == Composed(sources, statuses, 2, lid) {
      FromOne(0, sources[0].entries[0], statuses[0], lid);
      FromOne(1, sources[1].entries[0], statuses[1], lid);
      assert Composed(sources, statuses, 0, lid) == [];
      assert Composed(sources, statuses, 1, lid) == FromSource(0, sources[0].entries, statuses[0], lid);
    }
  }

  lemma SharedIsValid(cfg: Config, a: Option<Digest>, b: Option<Digest>)
    requires cfg == SharedSave(cfg.digest, cfg.hash)
    ensures RecordValid(DocOf(cfg, SharedSlices(a, b)), map[], cfg.digest)
  {
    var slices := SharedSlices(a, b);
    var doc := DocOf(cfg, slices);
    OneByteValid("a", slices["a"], doc.snapshots, a);
    OneByteValid("b", slices["b"], doc.snapshots, b);
    assert LogicalValid(doc, "a", map[], cfg.digest) && LogicalValid(doc, "b", map[], cfg.digest);
  }

  lemma SharedStatuses(cfg: Config) returns (a: Option<Digest>, b: Option<Digest>)
    requires cfg == SharedSave(cfg.digest, cfg.hash)
    ensures AllAdmitted(cfg) && a.Some? && b.Some?
    ensures var statuses := Statuses(cfg.hash, DryRun(cfg));
      a == LastHash(statuses[0], Where("a", Span(0, 1))) && b == LastHash(statuses[1], Where("b", Span(0, 1)))
  {
    ByteFits("s", "a");
    ByteFits("t", "b");
    var statuses := Statuses(cfg.hash, DryRun(cfg));
    a, b := LastHash(statuses[0], Where("a", Span(0, 1))), LastHash(statuses[1], Where("b", Span(0, 1)));
    ByteHash(cfg.hash, "s", "a", DryRun(cfg)[0].slices);
    ByteHash(cfg.hash, "t", "b", DryRun(cfg)[1].slices);
  }

  lemma SharedIsLandable(cfg: Config)
    requires cfg == SharedSave(cfg.digest, cfg.hash)
    ensures Landable(cfg)
  {
    var a, b := SharedStatuses(cfg);
    SharedTable(cfg.sources, Statuses(cfg.hash, DryRun(cfg)), a, b);
    SharedIsValid(cfg, a, b);
    assert ComposesTo(cfg, DryRun(cfg), SharedSlices(a, b));
  }

  /** The second source's snapshot replaces the first one's, and the record lands all the same. */
  lemma SharedDirectoryMisleads(digest: seq<Field> -> Digest, hash: Hash, disk: Disk)
    returns (states: seq<State>, actions: seq<Action>)
    ensures Run(SharedSave(digest, hash), disk, states, actions) && states[|actions|].pc.Landed?
    ensures !MarkerHolds(SharedSave(digest, hash), states[|actions|].disk)
  {
    var cfg := SharedSave(digest, hash);
    SharedIsLandable(cfg);
    assert LastWire(cfg.sources[1].wires[..0], Where("a", Span(0, 1))).None?;
    states, actions := SerialSharingBreaks(cfg, disk, 0, 1, 0);
  }

  // ---------------------------------------------------------------- two replicas, one directory

  /** Two sources that write the same byte of the same object into one directory. */
  function ReplicaSave(digest: seq<Field> -> Digest, hash: Hash): Config {
    Config([ByteSource("s", "a"), ByteSource("t", "a")], 0, 0, map["a" := Logical(1, None)], map[], digest, hash)
  }

  lemma ByteIsPlain(key: string, lid: string)
    requires Bare(lid) == lid
    ensures Plain(ByteSource(key, lid))
  {
  }

  lemma ReplicasAskAlike(cfg: Config)
    requires cfg.sources == [ByteSource("s", "a"), ByteSource("t", "a")]
    ensures AllPlain(cfg) && SharersAskAlike(cfg)
  {
    assert Bare("a") == "a";
    ByteIsPlain("s", "a");
    ByteIsPlain("t", "a");
    forall i, j | 0 <= i < 2 && 0 <= j < 2 ensures SameSpans(cfg.sources[i].wires, cfg.sources[j].wires) {
    }
  }

  /** However their jobs interleave, a record they land is a completeness marker. */
  lemma SharedReplicasAreSafe(digest: seq<Field> -> Digest, hash: Hash, disk: Disk)
    requires Injective(hash) && MarkerHolds(ReplicaSave(digest, hash), disk)
    requires NothingToOverwrite(ReplicaSave(digest, hash), disk)
    ensures SafeDestination(ReplicaSave(digest, hash), disk) && !OwnDirectories(ReplicaSave(digest, hash))
  {
    var cfg := ReplicaSave(digest, hash);
    assert SamePath(cfg, 0, 1) && !Alone(cfg, 0);
    ReplicasAskAlike(cfg);
    PlainSafeExactly(cfg, disk);
  }
}
