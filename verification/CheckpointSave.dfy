/** The composer of src/dataflow/checkpoint/compose.py: what a source's daemon streams and reports,
    and the slice table the composer builds from many sources' reports. */
module CheckpointSave {
  import opened Wrappers
  import opened CheckpointRecord
  import opened CheckpointReassembly

  /** A record entry as the source policy emits it, before its hash is known. */
  datatype Planned = Planned(lid: string, dst: Span, src: Span)

  /** A slice request to a source's engine; `total` is the size of the logical object. */
  datatype Wire = Wire(id: string, src: Span, lid: string, dst: Span, total: int)

  datatype Source = Source(
    key: string, path: string, wires: seq<Wire>, entries: seq<Planned>, objects: map<string, int>)

  /** One slice of a finished snapshot, as the daemon reports it. */
  datatype Streamed = Streamed(lid: string, dst: Span, hash: Digest)

  datatype Where = Where(lid: string, dst: Span)

  datatype SaveError = NoHash(key: string, entry: Planned) | Drift(reason: Refusal)

  type Hash = seq<byte> -> Digest

  // ---------------------------------------------------------------- what a source streams

  /** A source's objects while its snapshot runs. */
  type Resident = map<string, seq<byte>>

  predicate WireOk(w: Wire) {
    0 <= w.src.lo < w.src.hi && w.dst.hi - w.dst.lo == w.src.hi - w.src.lo && 0 <= w.dst.lo && w.dst.hi <= w.total
  }

  /** A slice list the engine admits, whatever its objects hold. */
  ghost predicate WiresOk(wires: seq<Wire>) {
    && (forall k :: 0 <= k < |wires| ==> WireOk(wires[k]))
    && (forall j, k :: 0 <= j < |wires| && 0 <= k < |wires| && wires[j].lid == wires[k].lid ==>
          wires[j].total == wires[k].total)
  }

  predicate WireFits(resident: Resident, w: Wire) {
    WireOk(w) && w.id in resident && w.src.hi <= |resident[w.id]|
  }

  ghost predicate Fits(resident: Resident, wires: seq<Wire>) {
    WiresOk(wires) && forall k :: 0 <= k < |wires| ==> WireFits(resident, wires[k])
  }

  function Cut(resident: Resident, w: Wire): Slice
    requires WireFits(resident, w)
  {
    Slice(w.id, w.src, w.lid, w.dst, resident[w.id][w.src.lo..w.src.hi])
  }

  /** The segments a snapshot job writes. */
  function Segments(resident: Resident, wires: seq<Wire>): (slices: seq<Slice>)
    requires Fits(resident, wires)
    ensures |slices| == |wires| && forall k :: 0 <= k < |wires| ==> slices[k] == Cut(resident, wires[k])
  {
    seq(|wires|, k requires 0 <= k < |wires| => Cut(resident, wires[k]))
  }

  /** The status a finished job reports: each slice's place and the hash of its bytes. */
  function Report(hash: Hash, slices: seq<Slice>): (streamed: seq<Streamed>)
    ensures |streamed| == |slices|
    ensures forall k :: 0 <= k < |slices| ==>
      streamed[k] == Streamed(slices[k].lid, slices[k].dst, hash(slices[k].bytes))
  {
    seq(|slices|, k requires 0 <= k < |slices| => Streamed(slices[k].lid, slices[k].dst, hash(slices[k].bytes)))
  }

  // ---------------------------------------------------------------- hashes by span

  /** The hash reported last for a span. */
  function LastHash(streamed: seq<Streamed>, at: Where): (h: Option<Digest>)
    ensures h.Some? ==> Streamed(at.lid, at.dst, h.value) in streamed
  {
    if streamed == [] then None
    else
      var last := streamed[|streamed| - 1];
      if Where(last.lid, last.dst) == at then Some(last.hash)
      else LastHash(streamed[..|streamed| - 1], at)
  }

  method HashBySpan(streamed: seq<Streamed>) returns (hashes: map<Where, Digest>)
    ensures forall at :: LastHash(streamed, at) == if at in hashes then Some(hashes[at]) else None
  {
    hashes := map[];
    for i := 0 to |streamed|
      invariant forall at :: LastHash(streamed[..i], at) == if at in hashes then Some(hashes[at]) else None
    {
      assert streamed[..i + 1][..i] == streamed[..i];
      hashes := hashes[Where(streamed[i].lid, streamed[i].dst) := streamed[i].hash];
    }
    assert streamed[..|streamed|] == streamed;
  }

  /** The request whose slice is reported last for a span. */
  function LastWire(wires: seq<Wire>, at: Where): (w: Option<Wire>)
    ensures w.Some? ==> w.value in wires && w.value.lid == at.lid && w.value.dst == at.dst
  {
    if wires == [] then None
    else
      var last := wires[|wires| - 1];
      if Where(last.lid, last.dst) == at then Some(last) else LastWire(wires[..|wires| - 1], at)
  }

  /** The hash of the bytes a request cuts from a source's objects. */
  function CutHash(hash: Hash, resident: Resident, w: Option<Wire>): Option<Digest>
    requires w.Some? ==> WireFits(resident, w.value)
  {
    if w.None? then None else Some(hash(Cut(resident, w.value).bytes))
  }

  lemma ReportPrefix(hash: Hash, resident: Resident, wires: seq<Wire>, n: nat)
    requires Fits(resident, wires) && n < |wires|
    ensures Fits(resident, wires[..n])
    ensures Report(hash, Segments(resident, wires))[..n] == Report(hash, Segments(resident, wires[..n]))
    ensures Report(hash, Segments(resident, wires))[n] ==
      Streamed(wires[n].lid, wires[n].dst, hash(Cut(resident, wires[n]).bytes))
  {
  }

  lemma LastHashStep(streamed: seq<Streamed>, front: seq<Streamed>, at: Where, last: Streamed)
    requires streamed != [] && streamed[..|streamed| - 1] == front && streamed[|streamed| - 1] == last
    ensures LastHash(streamed, at) ==
      if Where(last.lid, last.dst) == at then Some(last.hash) else LastHash(front, at)
  {
  }

  /** The hash kept for a span is that of the last slice streamed for it. */
  lemma {:induction false} LastHashIs(hash: Hash, resident: Resident, wires: seq<Wire>, at: Where)
    requires Fits(resident, wires)
    ensures LastWire(wires, at).Some? ==> WireFits(resident, LastWire(wires, at).value)
    ensures LastHash(Report(hash, Segments(resident, wires)), at) == CutHash(hash, resident, LastWire(wires, at))
  {
    if wires != [] {
      var n := |wires| - 1;
      ReportPrefix(hash, resident, wires, n);
      LastHashIs(hash, resident, wires[..n], at);
      LastHashStep(Report(hash, Segments(resident, wires)), Report(hash, Segments(resident, wires[..n])), at,
        Streamed(wires[n].lid, wires[n].dst, hash(Cut(resident, wires[n]).bytes)));
    }
  }

  // ---------------------------------------------------------------- whose hash an entry gets

  /** Equal hashes mean equal bytes. */
  ghost predicate Injective(hash: Hash) {
    forall a, b :: hash(a) == hash(b) ==> a == b
  }

  predicate PlannedFits(resident: Resident, e: Planned) {
    && 0 <= e.src.lo < e.src.hi && Bare(e.lid) in resident && e.src.hi <= |resident[Bare(e.lid)]|
  }

  /** The bytes an entry of the record names. */
  function OwnBytes(resident: Resident, e: Planned): seq<byte>
    requires PlannedFits(resident, e)
  {
    resident[Bare(e.lid)][e.src.lo..e.src.hi]
  }

  /** The last slice requested for the entry's span is the entry's own: what a caller can check
      before saving. */
  predicate OwnWire(wires: seq<Wire>, e: Planned) {
    var w := LastWire(wires, Where(e.lid, e.dst));
    w.Some? && w.value.id == Bare(e.lid) && w.value.src == e.src
  }

  /** Whatever the source holds, the entry is recorded with the hash of its own bytes. */
  ghost predicate GetsOwnHash(hash: Hash, wires: seq<Wire>, e: Planned) {
    forall resident: Resident | Fits(resident, wires) && PlannedFits(resident, e) ::
      LastHash(Report(hash, Segments(resident, wires)), Where(e.lid, e.dst)) == Some(hash(OwnBytes(resident, e)))
  }

  function Longest(wires: seq<Wire>): nat {
    if wires == [] then 0
    else
      var n, hi := Longest(wires[..|wires| - 1]), wires[|wires| - 1].src.hi;
      if hi > n then hi else n
  }

  lemma {:induction false} LongestBounds(wires: seq<Wire>, k: nat)
    requires k < |wires|
    ensures wires[k].src.hi <= Longest(wires)
  {
    if k < |wires| - 1 {
      LongestBounds(wires[..|wires| - 1], k);
    }
  }

  function Ids(wires: seq<Wire>): set<string> {
    set k | 0 <= k < |wires| :: wires[k].id
  }

  function Zeros(n: nat): seq<byte> {
    seq(n, _ => 0)
  }

  /** Zero-filled objects long enough for a source's requests. */
  function Blank(wires: seq<Wire>): Resident {
    map x | x in Ids(wires) :: Zeros(Longest(wires))
  }

  lemma BlankFits(wires: seq<Wire>)
    requires WiresOk(wires)
    ensures Fits(Blank(wires), wires)
  {
    forall k | 0 <= k < |wires| ensures WireFits(Blank(wires), wires[k]) {
      assert wires[k].id in Ids(wires);
      LongestBounds(wires, k);
    }
  }

  /** Zeros everywhere but for one byte of one object. */
  function Marked(ids: set<string>, n: nat, id: string, at: nat): (resident: Resident)
    ensures resident.Keys == ids && forall x :: x in ids ==> |resident[x]| == n
    ensures forall x, k :: x in ids && 0 <= k < n ==> resident[x][k] == if x == id && k == at then 1 else 0
  {
    map x | x in ids :: seq(n, k requires 0 <= k < n => if x == id && k == at then 1 else 0)
  }

  /** Objects on which an entry's own bytes differ from those of a slice that is not its own. */
  lemma TellApart(wires: seq<Wire>, w: Wire, e: Planned) returns (resident: Resident)
    requires WiresOk(wires) && w in wires && 0 <= e.src.lo < e.src.hi
    requires e.dst.hi - e.dst.lo == e.src.hi - e.src.lo && w.dst == e.dst
    requires w.id != Bare(e.lid) || w.src != e.src
    ensures Fits(resident, wires) && PlannedFits(resident, e) && WireFits(resident, w)
    ensures Cut(resident, w).bytes != OwnBytes(resident, e)
  {
    var id, n := Bare(e.lid), if e.src.hi > Longest(wires) then e.src.hi else Longest(wires);
    var at := if w.id == id && w.src.lo < e.src.lo then w.src.lo else e.src.lo;
    resident := Marked(Ids(wires) + {id}, n, id, at);
    forall k | 0 <= k < |wires| ensures WireFits(resident, wires[k]) {
      LongestBounds(wires, k);
    }
    assert Cut(resident, w).bytes[0] == resident[w.id][w.src.lo];
    assert OwnBytes(resident, e)[0] == resident[id][e.src.lo];
  }

  /** A recorded hash belongs to its own slice, whatever the source holds, exactly when that slice is
      the last one requested for its span: the table of reported hashes keeps one per span. */
  lemma OwnHashExactly(hash: Hash, wires: seq<Wire>, e: Planned)
    requires Injective(hash) && WiresOk(wires) && LastWire(wires, Where(e.lid, e.dst)).Some?
    requires 0 <= e.src.lo < e.src.hi && e.dst.hi - e.dst.lo == e.src.hi - e.src.lo
    ensures GetsOwnHash(hash, wires, e) <==> OwnWire(wires, e)
  {
    var at := Where(e.lid, e.dst);
    if OwnWire(wires, e) {
      forall resident: Resident | Fits(resident, wires) && PlannedFits(resident, e)
        ensures LastHash(Report(hash, Segments(resident, wires)), at) == Some(hash(OwnBytes(resident, e)))
      {
        LastHashIs(hash, resident, wires, at);
      }
    } else {
      var resident := TellApart(wires, LastWire(wires, at).value, e);
      LastHashIs(hash, resident, wires, at);
    }
  }

  // ---------------------------------------------------------------- what policies emit

  /** Slice requests and record entries in step, as every source policy emits them. */
  predicate InStep(source: Source) {
    && |source.wires| == |source.entries|
    && forall k :: 0 <= k < |source.wires| ==> Asks(source.wires[k], source.entries[k])
  }

  predicate Asks(w: Wire, e: Planned) {
    w.id == Bare(e.lid) && w.src == e.src && w.lid == e.lid && w.dst == e.dst
  }

  // ---------------------------------------------------------------- composing the slices

  ghost predicate Hashed(entries: seq<Planned>, streamed: seq<Streamed>) {
    forall k :: 0 <= k < |entries| ==> LastHash(streamed, Where(entries[k].lid, entries[k].dst)).Some?
  }

  /** One source's slices of a logical object, in its own order, under snapshot index `i`. */
  function FromSource(i: int, entries: seq<Planned>, streamed: seq<Streamed>, lid: string): seq<Entry> {
    if entries == [] then []
    else
      var e := entries[|entries| - 1];
      FromSource(i, entries[..|entries| - 1], streamed, lid) +
      if e.lid == lid then [Entry(i, e.src, e.dst, LastHash(streamed, Where(lid, e.dst)))] else []
  }

  /** The slices of a logical object over the first `n` sources, in source order. */
  function Composed(sources: seq<Source>, statuses: seq<seq<Streamed>>, n: nat, lid: string): seq<Entry>
    requires n <= |sources| == |statuses|
  {
    if n == 0 then []
    else Composed(sources, statuses, n - 1, lid) + FromSource(n - 1, sources[n - 1].entries, statuses[n - 1], lid)
  }

  type Slices = map<string, seq<Entry>>

  function SliceOf(slices: Slices, lid: string): seq<Entry> {
    if lid in slices then slices[lid] else []
  }

  /** `slices` is `before` with one source's entries appended, each to its object's list. */
  ghost predicate Extends(before: Slices, slices: Slices, i: int, entries: seq<Planned>, streamed: seq<Streamed>) {
    && (forall lid :: SliceOf(slices, lid) == SliceOf(before, lid) + FromSource(i, entries, streamed, lid))
    && (forall lid :: lid in slices ==> slices[lid] != [])
  }

  lemma FromSourceAppend(i: int, entries: seq<Planned>, e: Planned, streamed: seq<Streamed>, lid: string)
    ensures FromSource(i, entries + [e], streamed, lid) == FromSource(i, entries, streamed, lid) +
      if e.lid == lid then [Entry(i, e.src, e.dst, LastHash(streamed, Where(lid, e.dst)))] else []
  {
    assert (entries + [e])[..|entries|] == entries;
  }

  lemma SliceOfUpdate(slices: Slices, at: string, list: seq<Entry>, lid: string)
    ensures SliceOf(slices[at := list], lid) == if lid == at then list else SliceOf(slices, lid)
  {
  }

  lemma ExtendByOne(
    before: Slices, slices: Slices, i: int, entries: seq<Planned>, streamed: seq<Streamed>, e: Planned, hash: Digest)
    requires Extends(before, slices, i, entries, streamed)
    requires LastHash(streamed, Where(e.lid, e.dst)) == Some(hash)
    ensures Extends(before, slices[e.lid := SliceOf(slices, e.lid) + [Entry(i, e.src, e.dst, Some(hash))]],
                    i, entries + [e], streamed)
  {
    var entry := Entry(i, e.src, e.dst, Some(hash));
    var list := SliceOf(slices, e.lid) + [entry];
    forall lid
      ensures SliceOf(slices[e.lid := list], lid) == SliceOf(before, lid) + FromSource(i, entries + [e], streamed, lid)
    {
      FromSourceAppend(i, entries, e, streamed, lid);
      SliceOfUpdate(slices, e.lid, list, lid);
      Associate(SliceOf(before, lid), FromSource(i, entries, streamed, lid), if lid == e.lid then [entry] else []);
    }
  }

  lemma Associate(a: seq<Entry>, b: seq<Entry>, c: seq<Entry>)
    ensures (a + b) + c == a + (b + c)
  {
  }

  ghost predicate HashTable(streamed: seq<Streamed>, hashes: map<Where, Digest>) {
    forall at :: LastHash(streamed, at) == if at in hashes then Some(hashes[at]) else None
  }

  /** One turn of the inner loop. */
  method AppendOne(i: int, e: Planned, hashes: map<Where, Digest>, slices: Slices,
                   ghost streamed: seq<Streamed>, ghost before: Slices, ghost done: seq<Planned>)
    returns (r: Option<Slices>)
    requires HashTable(streamed, hashes) && Extends(before, slices, i, done, streamed)
    ensures r.Some? <==> LastHash(streamed, Where(e.lid, e.dst)).Some?
    ensures r.Some? ==> Extends(before, r.value, i, done + [e], streamed)
  {
    var at := Where(e.lid, e.dst);
    assert LastHash(streamed, at) == if at in hashes then Some(hashes[at]) else None;
    if at !in hashes {
      return None;
    }
    ExtendByOne(before, slices, i, done, streamed, e, hashes[at]);
    r := Some(slices[e.lid := SliceOf(slices, e.lid) + [Entry(i, e.src, e.dst, Some(hashes[at]))]]);
  }

  lemma ExtendsByNothing(before: Slices, i: int, streamed: seq<Streamed>)
    requires forall lid :: lid in before ==> before[lid] != []
    ensures Extends(before, before, i, [], streamed)
  {
  }

  method AppendSource(i: int, source: Source, streamed: seq<Streamed>, before: Slices)
    returns (r: Result<Slices, SaveError>)
    requires forall lid :: lid in before ==> before[lid] != []
    ensures r.Ok? <==> Hashed(source.entries, streamed)
    ensures r.Ok? ==> Extends(before, r.value, i, source.entries, streamed)
    ensures r.Err? ==> r.error.NoHash? && r.error.entry in source.entries
  {
    var hashes := HashBySpan(streamed);
    assert HashTable(streamed, hashes);
    var slices := before;
    ExtendsByNothing(before, i, streamed);
    for k := 0 to |source.entries|
      invariant Hashed(source.entries[..k], streamed)
      invariant Extends(before, slices, i, source.entries[..k], streamed)
    {
      var next := AppendOne(i, source.entries[k], hashes, slices, streamed, before, source.entries[..k]);
      if next.None? {
        return Err(NoHash(source.key, source.entries[k]));
      }
      assert source.entries[..k + 1] == source.entries[..k] + [source.entries[k]];
      slices := next.value;
    }
    assert source.entries[..|source.entries|] == source.entries;
    r := Ok(slices);
  }

  /** The table of the first `n` sources. */
  ghost predicate IsTable(sources: seq<Source>, statuses: seq<seq<Streamed>>, n: nat, slices: Slices)
    requires n <= |sources| == |statuses|
  {
    && (forall lid :: lid in slices ==> slices[lid] != [])
    && (forall lid :: SliceOf(slices, lid) == Composed(sources, statuses, n, lid))
  }

  lemma OneMoreSource(sources: seq<Source>, statuses: seq<seq<Streamed>>, n: nat, before: Slices, slices: Slices)
    requires n < |sources| == |statuses| && IsTable(sources, statuses, n, before)
    requires Extends(before, slices, n, sources[n].entries, statuses[n])
    ensures IsTable(sources, statuses, n + 1, slices)
  {
    forall lid ensures SliceOf(slices, lid) == Composed(sources, statuses, n + 1, lid) {
      assert SliceOf(before, lid) == Composed(sources, statuses, n, lid);
    }
  }

  /** The composer's slice table: every source's entries, each under its source's index and with
      the hash that source reported. */
  method ComposeSlices(sources: seq<Source>, statuses: seq<seq<Streamed>>) returns (r: Result<Slices, SaveError>)
    requires |sources| == |statuses|
    ensures r.Ok? <==> forall i :: 0 <= i < |sources| ==> Hashed(sources[i].entries, statuses[i])
    ensures r.Ok? ==> IsTable(sources, statuses, |sources|, r.value)
    ensures r.Err? ==> r.error.NoHash?
  {
    var slices: Slices := map[];
    for i := 0 to |sources|
      invariant forall j :: 0 <= j < i ==> Hashed(sources[j].entries, statuses[j])
      invariant IsTable(sources, statuses, i, slices)
    {
      var next := AppendSource(i, sources[i], statuses[i], slices);
      if next.Err? {
        return next;
      }
      OneMoreSource(sources, statuses, i, slices, next.value);
      slices := next.value;
    }
    r := Ok(slices);
  }

  /** An entry stands for one planned entry of the source its index names, with that source's hash. */
  ghost predicate Provenance(sources: seq<Source>, statuses: seq<seq<Streamed>>, lid: string, e: Entry)
    requires |sources| == |statuses|
  {
    && 0 <= e.snapshot < |sources|
    && Planned(lid, e.dst, e.src) in sources[e.snapshot].entries
    && e.hash == LastHash(statuses[e.snapshot], Where(lid, e.dst))
  }

  lemma {:induction false} FromSourceProvenance(i: int, entries: seq<Planned>, streamed: seq<Streamed>, lid: string)
    ensures forall e :: e in FromSource(i, entries, streamed, lid) ==>
      && e.snapshot == i && Planned(lid, e.dst, e.src) in entries
      && e.hash == LastHash(streamed, Where(lid, e.dst))
  {
    if entries != [] {
      FromSourceProvenance(i, entries[..|entries| - 1], streamed, lid);
    }
  }

  /** In every composed slice table the snapshot index names the source whose status gave the hash. */
  lemma {:induction false} ComposedProvenance(sources: seq<Source>, statuses: seq<seq<Streamed>>, n: nat, lid: string)
    requires n <= |sources| == |statuses|
    ensures forall e :: e in Composed(sources, statuses, n, lid) ==> Provenance(sources, statuses, lid, e)
    ensures forall e :: e in Composed(sources, statuses, n, lid) ==> e.snapshot < n
  {
    if n > 0 {
      ComposedProvenance(sources, statuses, n - 1, lid);
      FromSourceProvenance(n - 1, sources[n - 1].entries, statuses[n - 1], lid);
    }
  }

  function OfSnapshot(entries: seq<Entry>, i: int): seq<Entry> {
    if entries == [] then []
    else
      var last := entries[|entries| - 1];
      OfSnapshot(entries[..|entries| - 1], i) + if last.snapshot == i then [last] else []
  }

  lemma {:induction false} OfSnapshotConcat(a: seq<Entry>, b: seq<Entry>, i: int)
    ensures OfSnapshot(a + b, i) == OfSnapshot(a, i) + OfSnapshot(b, i)
  {
    if b == [] {
      assert a + b == a;
    } else {
      var rest, last := b[..|b| - 1], b[|b| - 1];
      var tail := if last.snapshot == i then [last] else [];
      OfSnapshotConcat(a, rest, i);
      assert (a + b)[..|a + b| - 1] == a + rest;
      assert OfSnapshot(a + b, i) == OfSnapshot(a + rest, i) + tail;
    }
  }

  lemma {:induction false} OfSnapshotAll(entries: seq<Entry>, i: int, j: int)
    requires forall e :: e in entries ==> e.snapshot == j
    ensures OfSnapshot(entries, i) == if i == j then entries else []
  {
    if entries != [] {
      OfSnapshotAll(entries[..|entries| - 1], i, j);
      assert entries[|entries| - 1] in entries;
      assert entries == entries[..|entries| - 1] + [entries[|entries| - 1]];
    }
  }

  /** Nothing is lost, repeated or reordered: restricted to one source, the composed slices are
      that source's own entries. */
  lemma {:induction false} ComposedKeepsEachSource(
    sources: seq<Source>, statuses: seq<seq<Streamed>>, n: nat, lid: string, i: nat)
    requires i < n <= |sources| == |statuses|
    ensures OfSnapshot(Composed(sources, statuses, n, lid), i) == FromSource(i, sources[i].entries, statuses[i], lid)
  {
    var before := Composed(sources, statuses, n - 1, lid);
    var own := FromSource(n - 1, sources[n - 1].entries, statuses[n - 1], lid);
    FromSourceProvenance(n - 1, sources[n - 1].entries, statuses[n - 1], lid);
    ComposedProvenance(sources, statuses, n - 1, lid);
    SplitSnapshot(before, own, i, n - 1);
    if i < n - 1 {
      ComposedKeepsEachSource(sources, statuses, n - 1, lid, i);
    }
  }

  lemma SplitSnapshot(before: seq<Entry>, own: seq<Entry>, i: int, j: int)
    requires i <= j && (forall e :: e in before ==> e.snapshot < j) && (forall e :: e in own ==> e.snapshot == j)
    ensures OfSnapshot(before + own, i) == if i == j then own else OfSnapshot(before, i)
  {
    OfSnapshotConcat(before, own, i);
    OfSnapshotAll(own, i, j);
    if i == j {
      NoneOfSnapshot(before, i);
    }
  }

  lemma {:induction false} NoneOfSnapshot(entries: seq<Entry>, i: int)
    requires forall e :: e in entries ==> e.snapshot != i
    ensures OfSnapshot(entries, i) == []
  {
    if entries != [] {
      NoneOfSnapshot(entries[..|entries| - 1], i);
      assert entries[|entries| - 1] in entries;
    }
  }

  // ---------------------------------------------------------------- the drift check

  method CheckReplicationDrift(slices: Slices) returns (r: Outcome<Refusal>)
    ensures r.Pass? <==> forall lid :: lid in slices ==> HashesAgree(slices[lid])
  {
    var todo := slices.Keys;
    while todo != {}
      invariant todo <= slices.Keys
      invariant forall lid :: lid in slices && lid !in todo ==> HashesAgree(slices[lid])
      decreases |todo|
    {
      var lid :| lid in todo;
      r := CheckReplicaHashes(lid, slices[lid]);
      if r.Refuse? {
        return;
      }
      todo := todo - {lid};
    }
    r := Pass;
  }

  /** The record of one save. */
  function RecordOf(step: int, seed: int, logical: map<string, Logical>, sources: seq<Source>, slices: Slices): Record {
    Record(RECORD_SCHEMA, step, seed, logical,
           seq(|sources|, i requires 0 <= i < |sources| =>
             Snapshot(sources[i].path, sources[i].key, sources[i].objects)),
           slices)
  }

  /** A slice table of all sources in which replicas agree. */
  ghost predicate Tabulates(sources: seq<Source>, statuses: seq<seq<Streamed>>, slices: Slices)
    requires |sources| == |statuses|
  {
    && (forall i :: 0 <= i < |sources| ==> Hashed(sources[i].entries, statuses[i]))
    && IsTable(sources, statuses, |sources|, slices)
    && (forall lid :: lid in slices ==> HashesAgree(slices[lid]))
  }

  lemma SameTable(sources: seq<Source>, statuses: seq<seq<Streamed>>, table: Slices, slices: Slices, lid: string)
    requires |sources| == |statuses| && lid in table && table[lid] != []
    requires SliceOf(table, lid) == Composed(sources, statuses, |sources|, lid)
    ensures Tabulates(sources, statuses, slices) ==> HashesAgree(table[lid])
  {
    if Tabulates(sources, statuses, slices) {
      assert SliceOf(slices, lid) == SliceOf(table, lid);
    }
  }

  /** Composing, then the drift check: a table exactly when one exists. */
  method TabulateAndCheck(sources: seq<Source>, statuses: seq<seq<Streamed>>) returns (r: Result<Slices, SaveError>)
    requires |sources| == |statuses|
    ensures r.Ok? ==> Tabulates(sources, statuses, r.value)
    ensures r.Err? ==> forall slices :: !Tabulates(sources, statuses, slices)
  {
    r := ComposeSlices(sources, statuses);
    if r.Err? {
      return;
    }
    var table := r.value;
    var drift := CheckReplicationDrift(table);
    if drift.Refuse? {
      ghost var lid :| lid in table && !HashesAgree(table[lid]);
      forall slices ensures !Tabulates(sources, statuses, slices) {
        SameTable(sources, statuses, table, slices, lid);
      }
      r := Err(Drift(drift.reason));
    }
  }

  lemma ComposedIsHashed(sources: seq<Source>, statuses: seq<seq<Streamed>>, lid: string, e: Entry)
    requires |sources| == |statuses| && Provenance(sources, statuses, lid, e)
    requires Hashed(sources[e.snapshot].entries, statuses[e.snapshot])
    ensures e.hash.Some?
  {
    var entries := sources[e.snapshot].entries;
    var m :| 0 <= m < |entries| && entries[m] == Planned(lid, e.dst, e.src);
  }

  /** Once the drift check passes, the record's own replica check cannot refuse, and every entry
      carries a hash: a landed record is certified. */
  lemma DriftFreeRecordIsCertified(
    step: int, seed: int, logical: map<string, Logical>, sources: seq<Source>, statuses: seq<seq<Streamed>>,
    slices: Slices, lid: string)
    requires |sources| == |statuses| && Tabulates(sources, statuses, slices)
    ensures var entries := EntriesOf(RecordOf(step, seed, logical, sources, slices), lid);
      HashesAgree(entries) && Certified(entries)
  {
    var entries := EntriesOf(RecordOf(step, seed, logical, sources, slices), lid);
    assert entries == SliceOf(slices, lid) == Composed(sources, statuses, |sources|, lid);
    ComposedProvenance(sources, statuses, |sources|, lid);
    forall k | 0 <= k < |entries| ensures entries[k].hash.Some? {
      assert entries[k] in entries;
      ComposedIsHashed(sources, statuses, lid, entries[k]);
    }
  }
}
