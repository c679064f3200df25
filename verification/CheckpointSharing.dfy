/** When sources may share a snapshot directory: sources as the policies emit them, which request and
    record in step and stream no byte twice, agree on a directory exactly when they request the same
    spans in the same order. */
module CheckpointSharing {
  import opened Wrappers
  import opened CheckpointRecord
  import opened CheckpointReassembly
  import opened CheckpointSave
  import opened CheckpointDirectory
  import opened CheckpointProtocol
  import opened CheckpointSafety
  import opened CheckpointDestination

  function PlaceOf(w: Wire): Where {
    Where(w.lid, w.dst)
  }

  predicate Apart(a: Span, b: Span) {
    a.hi <= b.lo || b.hi <= a.lo
  }

  /** Requests and entries in step, no span requested twice, no byte of an object streamed twice. */
  ghost predicate Plain(source: Source) {
    && InStep(source)
    && (forall j, k :: 0 <= j < k < |source.wires| ==> PlaceOf(source.wires[j]) != PlaceOf(source.wires[k]))
    && (forall j, k :: 0 <= j < k < |source.wires| && source.wires[j].id == source.wires[k].id ==>
          Apart(source.wires[j].src, source.wires[k].src))
  }

  ghost predicate AllPlain(cfg: Config) {
    forall i :: 0 <= i < |cfg.sources| ==> Plain(cfg.sources[i])
  }

  /** The same spans of the same objects, in the same order. */
  predicate SameSpans(a: seq<Wire>, b: seq<Wire>) {
    |a| == |b| && forall k :: 0 <= k < |a| ==> PlaceOf(a[k]) == PlaceOf(b[k])
  }

  ghost predicate SharersAskAlike(cfg: Config) {
    forall i, j :: 0 <= i < |cfg.sources| && 0 <= j < |cfg.sources| && SamePath(cfg, i, j) ==>
      SameSpans(cfg.sources[i].wires, cfg.sources[j].wires)
  }

  // ---------------------------------------------------------------- asking alike is enough

  lemma {:induction false} OnlyWire(wires: seq<Wire>, k: nat)
    requires k < |wires| && forall j, l :: 0 <= j < l < |wires| ==> PlaceOf(wires[j]) != PlaceOf(wires[l])
    ensures LastWire(wires, PlaceOf(wires[k])) == Some(wires[k])
  {
    if k < |wires| - 1 {
      assert PlaceOf(wires[k]) != PlaceOf(wires[|wires| - 1]);
      OnlyWire(wires[..|wires| - 1], k);
    }
  }

  /** Replicas in a composed table were reported alike. */
  lemma ReplicasReportAlike(cfg: Config, jobs: seq<Job>, slices: Slices, i: nat, j: nat, e: Planned, f: Planned)
    requires AllDone(cfg, jobs) && ComposesTo(cfg, jobs, slices) && i < |jobs| && j < |jobs|
    requires e in cfg.sources[i].entries && f in cfg.sources[j].entries && e.lid == f.lid && e.dst == f.dst
    ensures ReportsOne(cfg, jobs, i, j, e)
  {
    var statuses := Statuses(cfg.hash, jobs);
    ComposedHas(cfg.sources, statuses, |cfg.sources|, i, e);
    ComposedHas(cfg.sources, statuses, |cfg.sources|, j, f);
    var entries := SliceOf(slices, e.lid);
    assert entries == Composed(cfg.sources, statuses, |cfg.sources|, e.lid);
    var m :| 0 <= m < |entries| && entries[m] == Recorded(i, e, statuses[i]);
    var n :| 0 <= n < |entries| && entries[n] == Recorded(j, f, statuses[j]);
    assert HashesAgree(entries);
  }

  /** What a plain source streamed for request `k` is what its report says of the span. */
  lemma PlainReport(cfg: Config, jobs: seq<Job>, i: nat, k: nat)
    requires AllDone(cfg, jobs) && JobsOk(cfg, jobs) && i < |jobs| && Plain(cfg.sources[i])
    requires k < |cfg.sources[i].wires|
    ensures |jobs[i].slices| == |cfg.sources[i].wires|
    ensures LastHash(Report(cfg.hash, jobs[i].slices), PlaceOf(cfg.sources[i].wires[k])) ==
      Some(cfg.hash(jobs[i].slices[k].bytes))
  {
    assert Begun(jobs[i]) && StreamedBy(cfg, i, jobs[i].slices);
    var wires := cfg.sources[i].wires;
    var resident: Resident :| Fits(resident, wires) && jobs[i].slices == Segments(resident, wires);
    LastHashIs(cfg.hash, resident, wires, PlaceOf(wires[k]));
    OnlyWire(wires, k);
  }

  lemma {:induction false} FileOfBytes(a: seq<Slice>, b: seq<Slice>)
    requires |a| == |b| && forall k :: 0 <= k < |a| ==> a[k].bytes == b[k].bytes
    ensures File(a) == File(b)
  {
    if a != [] {
      FileOfBytes(a[..|a| - 1], b[..|b| - 1]);
    }
  }

  lemma AskingAlikeAgrees(cfg: Config, jobs: seq<Job>, slices: Slices, i: nat, j: nat)
    requires AllDone(cfg, jobs) && JobsOk(cfg, jobs) && ComposesTo(cfg, jobs, slices) && Injective(cfg.hash)
    requires i < |jobs| && j < |jobs| && Plain(cfg.sources[i]) && Plain(cfg.sources[j])
    requires SameSpans(cfg.sources[i].wires, cfg.sources[j].wires)
    ensures Agree(cfg, jobs, i, j)
  {
    var a, b := cfg.sources[i], cfg.sources[j];
    forall k | 0 <= k < |a.entries|
      ensures ReportsOne(cfg, jobs, i, j, a.entries[k]) && |jobs[i].slices| == |jobs[j].slices| == |a.entries|
      ensures jobs[i].slices[k].bytes == jobs[j].slices[k].bytes
    {
      assert Asks(a.wires[k], a.entries[k]) && Asks(b.wires[k], b.entries[k]);
      assert PlaceOf(a.wires[k]) == PlaceOf(b.wires[k]);
      ReplicasReportAlike(cfg, jobs, slices, i, j, a.entries[k], b.entries[k]);
      PlainReport(cfg, jobs, i, k);
      PlainReport(cfg, jobs, j, k);
    }
    StreamedIsSized(cfg, jobs, i);
    StreamedIsSized(cfg, jobs, j);
    SlicesPerWire(cfg, jobs, i);
    SlicesPerWire(cfg, jobs, j);
    FileOfBytes(jobs[i].slices, jobs[j].slices);
  }

  lemma SlicesPerWire(cfg: Config, jobs: seq<Job>, i: nat)
    requires AllDone(cfg, jobs) && JobsOk(cfg, jobs) && i < |jobs|
    ensures |jobs[i].slices| == |cfg.sources[i].wires|
  {
    assert Begun(jobs[i]) && StreamedBy(cfg, i, jobs[i].slices);
  }

  // ---------------------------------------------------------------- and necessary

  /** Request `k` of an object fills the place, from this byte on. */
  predicate Starts(wires: seq<Wire>, k: int, at: Where, id: string, x: int) {
    0 <= k < |wires| && PlaceOf(wires[k]) == at && wires[k].id == id && wires[k].src.lo == x
  }

  /** Zeros, but for the byte that comes first in one place. */
  ghost function MarkAt(wires: seq<Wire>, at: Where): (resident: Resident)
    ensures resident.Keys == Ids(wires) && forall x :: x in resident ==> |resident[x]| == Longest(wires)
    ensures forall x, n :: x in resident && 0 <= n < |resident[x]| ==>
      resident[x][n] == if exists k :: Starts(wires, k, at, x, n) then 1 else 0
  {
    map x | x in Ids(wires) ::
      seq(Longest(wires), n requires 0 <= n < Longest(wires) =>
        if exists k :: Starts(wires, k, at, x, n) then 1 else 0)
  }

  function MarkedBytes(at: Where, place: Where): (bytes: seq<byte>)
    ensures |bytes| == Extent(place.dst.hi - place.dst.lo)
    ensures forall d :: 0 <= d < |bytes| ==> bytes[d] == if place == at && d == 0 then 1 else 0
  {
    seq(Extent(place.dst.hi - place.dst.lo), d => if place == at && d == 0 then 1 else 0)
  }

  function MarkedAt(at: Where): Content {
    (place: Where) => MarkedBytes(at, place)
  }

  lemma MarkFits(wires: seq<Wire>, at: Where)
    requires WiresOk(wires)
    ensures Fits(MarkAt(wires, at), wires)
  {
    forall k | 0 <= k < |wires| ensures WireFits(MarkAt(wires, at), wires[k]) {
      assert wires[k].id in Ids(wires);
      LongestBounds(wires, k);
    }
  }

  /** A plain source marked this way streams the mark for that place and zeros for any other. */
  lemma MarkByte(source: Source, at: Where, k: nat, d: nat)
    requires Plain(source) && WiresOk(source.wires) && k < |source.wires|
    requires d < source.wires[k].src.hi - source.wires[k].src.lo
    ensures WireFits(MarkAt(source.wires, at), source.wires[k])
    ensures Cut(MarkAt(source.wires, at), source.wires[k]).bytes[d] ==
      if PlaceOf(source.wires[k]) == at && d == 0 then 1 else 0
  {
    MarkFits(source.wires, at);
    var w, resident := source.wires[k], MarkAt(source.wires, at);
    var x := w.src.lo + d;
    if j :| Starts(source.wires, j, at, w.id, x) {
      assert WireOk(source.wires[j]) && WireOk(w);
      assert j < k ==> Apart(source.wires[j].src, w.src);
      assert k < j ==> Apart(w.src, source.wires[j].src);
    }
    assert PlaceOf(w) == at && d == 0 ==> Starts(source.wires, k, at, w.id, x);
  }

  lemma MarkCut(source: Source, at: Where, k: nat)
    requires Plain(source) && WiresOk(source.wires) && k < |source.wires|
    ensures WireFits(MarkAt(source.wires, at), source.wires[k])
    ensures Cut(MarkAt(source.wires, at), source.wires[k]).bytes == MarkedBytes(at, PlaceOf(source.wires[k]))
  {
    MarkFits(source.wires, at);
    var w := source.wires[k];
    var bytes, want := Cut(MarkAt(source.wires, at), w).bytes, MarkedBytes(at, PlaceOf(w));
    assert WireOk(w) && |bytes| == |want|;
    forall d | 0 <= d < |bytes| ensures bytes[d] == want[d] {
      MarkByte(source, at, k, d);
    }
  }

  lemma MarkByPlace(hash: Hash, source: Source, at: Where, streamed: seq<Streamed>)
    requires Plain(source) && WiresOk(source.wires) && Fits(MarkAt(source.wires, at), source.wires)
    requires streamed == Report(hash, Segments(MarkAt(source.wires, at), source.wires))
    ensures ByPlace(hash, MarkedAt(at), streamed)
  {
    forall place | LastHash(streamed, place).Some?
      ensures LastHash(streamed, place).value == hash(MarkedAt(at)(place))
    {
      assert MarkedAt(at)(place) == MarkedBytes(at, place);
      LastHashIs(hash, MarkAt(source.wires, at), source.wires, place);
      var w := LastWire(source.wires, place).value;
      var k :| 0 <= k < |source.wires| && source.wires[k] == w;
      MarkCut(source, at, k);
    }
  }

  ghost function MarkAll(cfg: Config, at: Where): (residents: seq<Resident>)
    requires AllAdmitted(cfg)
    ensures |residents| == |cfg.sources|
    ensures forall i :: 0 <= i < |residents| ==>
      residents[i] == MarkAt(cfg.sources[i].wires, at) && Fits(residents[i], cfg.sources[i].wires)
  {
    forall i | 0 <= i < |cfg.sources| ensures Fits(MarkAt(cfg.sources[i].wires, at), cfg.sources[i].wires) {
      assert Admitted(cfg.sources[i]);
      MarkFits(cfg.sources[i].wires, at);
    }
    seq(|cfg.sources|, i requires 0 <= i < |cfg.sources| => MarkAt(cfg.sources[i].wires, at))
  }

  ghost predicate MarkedJob(wires: seq<Wire>, at: Where, job: Job) {
    Fits(MarkAt(wires, at), wires) && job == Done(Segments(MarkAt(wires, at), wires))
  }

  /** One place marked in all sources: their replicas agree. */
  lemma MarkComposes(cfg: Config, at: Where) returns (jobs: seq<Job>, slices: Slices)
    requires Landable(cfg) && AllPlain(cfg)
    ensures AllDone(cfg, jobs) && JobsOk(cfg, jobs) && ComposesTo(cfg, jobs, slices)
    ensures forall i :: 0 <= i < |jobs| ==> MarkedJob(cfg.sources[i].wires, at, jobs[i])
  {
    jobs := JobsFrom(cfg, MarkAll(cfg, at));
    JobsFromOk(cfg, MarkAll(cfg, at));
    var blank :| ComposesTo(cfg, DryRun(cfg), blank);
    forall i | 0 <= i < |jobs|
      ensures Hashed(cfg.sources[i].entries, Report(cfg.hash, jobs[i].slices))
      ensures ByPlace(cfg.hash, MarkedAt(at), Report(cfg.hash, jobs[i].slices))
    {
      var source := cfg.sources[i];
      assert Admitted(source) && Plain(source) && Fits(MarkAll(cfg, at)[i], source.wires);
      assert Hashed(source.entries, Statuses(cfg.hash, DryRun(cfg))[i]);
      assert DryRun(cfg)[i].slices == Segments(Blank(source.wires), source.wires);
      HashedAlike(cfg.hash, Blank(source.wires), MarkAt(source.wires, at), source.wires, source.entries);
      MarkByPlace(cfg.hash, source, at, Report(cfg.hash, jobs[i].slices));
    }
    slices := ByPlaceComposes(cfg, jobs, MarkedAt(at));
  }

  lemma {:induction false} FileLength(a: seq<Slice>, b: seq<Slice>)
    requires |a| == |b| && forall k :: 0 <= k < |a| ==> |a[k].bytes| == |b[k].bytes|
    ensures |File(a)| == |File(b)|
  {
    if a != [] {
      FileLength(a[..|a| - 1], b[..|b| - 1]);
    }
  }

  /** Slices of the same lengths up to `k`, and then different first bytes: different files. */
  lemma FilesDiffer(a: seq<Slice>, b: seq<Slice>, k: nat)
    requires k < |a| && k < |b| && Sized(a) && Sized(b)
    requires forall j :: 0 <= j < k ==> |a[j].bytes| == |b[j].bytes|
    requires SizedSlice(a[k]) && SizedSlice(b[k]) && a[k].bytes[0] != b[k].bytes[0]
    ensures File(a) != File(b)
  {
    FileLength(a[..k], b[..k]);
    var x := OffsetOf(a, k);
    assert Inside(a, k, x) && Inside(b, k, x);
    FileByte(a, k, x);
    FileByte(b, k, x);
  }

  lemma SameLengths(a: Source, b: Source, k: nat, x: Resident, y: Resident)
    requires Fits(x, a.wires) && Fits(y, b.wires) && k <= |a.wires| && k <= |b.wires|
    requires SameSpans(a.wires[..k], b.wires[..k])
    ensures forall m :: 0 <= m < k ==> |Segments(x, a.wires)[m].bytes| == |Segments(y, b.wires)[m].bytes|
  {
    forall m | 0 <= m < k ensures |Segments(x, a.wires)[m].bytes| == |Segments(y, b.wires)[m].bytes| {
      assert PlaceOf(a.wires[..k][m]) == PlaceOf(b.wires[..k][m]);
      assert WireFits(x, a.wires[m]) && WireFits(y, b.wires[m]);
    }
  }

  /** Two sources ask alike up to request `k`, and there for different spans: mark the first's span. */
  lemma MarkTellsApart(a: Source, b: Source, k: nat, at: Where, x: seq<Slice>, y: seq<Slice>)
    requires Plain(a) && Plain(b) && WiresOk(a.wires) && WiresOk(b.wires) && k < |a.wires| && k < |b.wires|
    requires SameSpans(a.wires[..k], b.wires[..k])
    requires at == PlaceOf(a.wires[k]) != PlaceOf(b.wires[k])
    requires Fits(MarkAt(a.wires, at), a.wires) && x == Segments(MarkAt(a.wires, at), a.wires)
    requires Fits(MarkAt(b.wires, at), b.wires) && y == Segments(MarkAt(b.wires, at), b.wires)
    ensures File(x) != File(y)
  {
    SegmentsSized(MarkAt(a.wires, at), a.wires);
    SegmentsSized(MarkAt(b.wires, at), b.wires);
    SameLengths(a, b, k, MarkAt(a.wires, at), MarkAt(b.wires, at));
    assert SizedSlice(x[k]) && SizedSlice(y[k]);
    MarkByte(a, at, k, 0);
    MarkByte(b, at, k, 0);
    FilesDiffer(x, y, k);
  }

  /** How far two request lists ask alike. */
  lemma Mismatch(a: seq<Wire>, b: seq<Wire>) returns (k: nat)
    requires !SameSpans(a, b)
    ensures k <= |a| && k <= |b| && SameSpans(a[..k], b[..k])
    ensures k == |b| ==> |b| < |a| && SameSpans(a[..|b|], b)
    ensures k == |a| ==> |a| < |b| && SameSpans(b[..|a|], a)
    ensures k < |a| && k < |b| ==> PlaceOf(a[k]) != PlaceOf(b[k])
  {
    k := 0;
    while k < |a| && k < |b| && PlaceOf(a[k]) == PlaceOf(b[k])
      invariant k <= |a| && k <= |b| && forall m :: 0 <= m < k ==> PlaceOf(a[m]) == PlaceOf(b[m])
    {
      k := k + 1;
    }
  }

  lemma {:induction false} NotAsked(wires: seq<Wire>, at: Where)
    requires forall m :: 0 <= m < |wires| ==> PlaceOf(wires[m]) != at
    ensures LastWire(wires, at).None?
  {
    if wires != [] {
      NotAsked(wires[..|wires| - 1], at);
    }
  }

  lemma DisagreeOn(cfg: Config, jobs: seq<Job>, slices: Slices, i: nat, j: nat)
    requires AllDone(cfg, jobs) && JobsOk(cfg, jobs) && ComposesTo(cfg, jobs, slices)
    requires i < |jobs| && j < |jobs| && cfg.sources[i].entries != [] && SamePath(cfg, i, j)
    requires !Agree(cfg, jobs, i, j)
    ensures !SharersAgree(cfg)
  {
    assert !AllAgree(cfg, jobs);
  }

  /** A plain source that asks like another and then for more: the more is not asked for by the other. */
  lemma MoreIsMissing(cfg: Config, i: nat, j: nat)
    requires Landable(cfg) && AllPlain(cfg) && i < |cfg.sources| && j < |cfg.sources| && SamePath(cfg, i, j)
    requires |cfg.sources[j].wires| < |cfg.sources[i].wires|
    requires SameSpans(cfg.sources[i].wires[..|cfg.sources[j].wires|], cfg.sources[j].wires)
    ensures !SharersAgree(cfg)
  {
    var a, b := cfg.sources[i], cfg.sources[j];
    var k := |b.wires|;
    var at, jobs := PlaceOf(a.wires[k]), DryRun(cfg);
    assert Plain(a) && Asks(a.wires[k], a.entries[k]);
    forall m | 0 <= m < |b.wires| ensures PlaceOf(b.wires[m]) != at {
      assert PlaceOf(a.wires[..k][m]) == PlaceOf(b.wires[m]) && PlaceOf(a.wires[m]) != PlaceOf(a.wires[k]);
    }
    NotAsked(b.wires, at);
    var slices :| ComposesTo(cfg, jobs, slices);
    JobsFromOk(cfg, Blanks(cfg));
    LastHashIs(cfg.hash, Blank(b.wires), b.wires, at);
    assert Hashed(a.entries, Statuses(cfg.hash, jobs)[i]);
    assert !ReportsOne(cfg, jobs, i, j, a.entries[k]);
    DisagreeOn(cfg, jobs, slices, i, j);
  }

  lemma PlainContributes(cfg: Config, i: nat)
    requires AllAdmitted(cfg) && AllPlain(cfg) && i < |cfg.sources|
    ensures cfg.sources[i].entries != []
  {
    assert Admitted(cfg.sources[i]) && Plain(cfg.sources[i]);
  }

  lemma OtherOrderDisagrees(cfg: Config, i: nat, j: nat, k: nat)
    requires Landable(cfg) && AllPlain(cfg) && i < |cfg.sources| && j < |cfg.sources| && SamePath(cfg, i, j)
    requires k < |cfg.sources[i].wires| && k < |cfg.sources[j].wires|
    requires SameSpans(cfg.sources[i].wires[..k], cfg.sources[j].wires[..k])
    requires PlaceOf(cfg.sources[i].wires[k]) != PlaceOf(cfg.sources[j].wires[k])
    ensures !SharersAgree(cfg)
  {
    var a, b := cfg.sources[i], cfg.sources[j];
    var at := PlaceOf(a.wires[k]);
    var jobs, slices := MarkComposes(cfg, at);
    assert Admitted(a) && Admitted(b) && Plain(a) && Plain(b);
    assert MarkedJob(a.wires, at, jobs[i]) && MarkedJob(b.wires, at, jobs[j]);
    MarkTellsApart(a, b, k, at, jobs[i].slices, jobs[j].slices);
    PlainContributes(cfg, i);
    DisagreeOn(cfg, jobs, slices, i, j);
  }

  /** Plain sources that share a directory and do not ask alike disagree on some contents. */
  lemma AskingOtherwiseDisagrees(cfg: Config, i: nat, j: nat)
    requires Landable(cfg) && AllPlain(cfg) && i < |cfg.sources| && j < |cfg.sources| && SamePath(cfg, i, j)
    requires !SameSpans(cfg.sources[i].wires, cfg.sources[j].wires)
    ensures !SharersAgree(cfg)
  {
    var a, b := cfg.sources[i].wires, cfg.sources[j].wires;
    var k := Mismatch(a, b);
    if k == |b| {
      MoreIsMissing(cfg, i, j);
    } else if k == |a| {
      MoreIsMissing(cfg, j, i);
    } else {
      OtherOrderDisagrees(cfg, i, j, k);
    }
  }

  /** Plain sources agree on the directories they share exactly when they ask alike. */
  lemma SharersAgreeExactly(cfg: Config)
    requires Landable(cfg) && AllPlain(cfg) && Injective(cfg.hash)
    ensures SharersAgree(cfg) <==> SharersAskAlike(cfg)
  {
    if SharersAskAlike(cfg) {
      forall jobs, slices | AllDone(cfg, jobs) && JobsOk(cfg, jobs) && ComposesTo(cfg, jobs, slices)
        ensures AllAgree(cfg, jobs)
      {
        forall i, j | 0 <= i < |jobs| && 0 <= j < |jobs| && SamePath(cfg, i, j) ensures Agree(cfg, jobs, i, j) {
          assert Plain(cfg.sources[i]) && Plain(cfg.sources[j]);
          AskingAlikeAgrees(cfg, jobs, slices, i, j);
        }
      }
    } else {
      var i, j :| 0 <= i < |cfg.sources| && 0 <= j < |cfg.sources| && SamePath(cfg, i, j) &&
        !SameSpans(cfg.sources[i].wires, cfg.sources[j].wires);
      AskingOtherwiseDisagrees(cfg, i, j);
    }
  }

  /** Which destinations are safe for plain sources, in terms a caller can check: no snapshot of an
      older record is rewritten and, if the save can land at all, sources that share a directory
      request the same spans in the same order. */
  lemma PlainSafeExactly(cfg: Config, disk: Disk)
    requires MarkerHolds(cfg, disk) && AllPlain(cfg) && Injective(cfg.hash)
    ensures SafeDestination(cfg, disk) <==>
      NothingToOverwrite(cfg, disk) && (Landable(cfg) ==> SharersAskAlike(cfg))
  {
    SafeExactly(cfg, disk);
    if Landable(cfg) {
      SharersAgreeExactly(cfg);
    }
  }
}
