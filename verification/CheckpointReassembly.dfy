/** What an accepted record promises its readers: the distinct spans of every object tile it,
    any choice of replicas rebuilds the same bytes, and no element is split. */
module CheckpointReassembly {
  import opened Wrappers
  import opened CheckpointRecord
  import Sorting

  newtype byte = x: int | 0 <= x < 256

  // ---------------------------------------------------------------- tiling

  /** Adjacent non-empty spans from `lo` to `hi`. */
  ghost predicate Tiles(spans: seq<Span>, lo: int, hi: int) {
    if spans == [] then lo == hi
    else spans[0].lo == lo && lo < spans[0].hi && Tiles(spans[1..], spans[0].hi, hi)
  }

  /** The distinct spans of an object's slices, in order. */
  function Tiling(entries: seq<Entry>): seq<Span> {
    Sorting.Distinct(SortedSpans(entries))
  }

  function Extent(total: int): nat {
    if total > 0 then total else 0
  }

  lemma TilingFacts(entries: seq<Entry>)
    ensures Sorting.SortedBy(Tiling(entries), SpanLe)
    ensures forall i, j :: 0 <= i < j < |Tiling(entries)| ==> Tiling(entries)[i] != Tiling(entries)[j]
    ensures forall s :: s in Tiling(entries) <==> s in Spans(entries)
  {
    SortedSpansFacts(entries);
    Sorting.DistinctFacts(SortedSpans(entries), SpanLe);
  }

  lemma MemberIndex(entries: seq<Entry>, s: Span) returns (i: nat)
    requires s in Spans(entries)
    ensures i < |entries| && entries[i].dst == s
  {
    i :| 0 <= i < |Spans(entries)| && Spans(entries)[i] == s;
  }

  lemma TileOf(entries: seq<Entry>, i: nat) returns (k: nat)
    requires i < |entries|
    ensures k < |Tiling(entries)| && Tiling(entries)[k] == entries[i].dst
  {
    TilingFacts(entries);
    assert Spans(entries)[i] in Tiling(entries);
    k :| 0 <= k < |Tiling(entries)| && Tiling(entries)[k] == Spans(entries)[i];
  }

  lemma TilingOrdered(total: int, entries: seq<Entry>, i: nat, j: nat)
    requires InBounds(total, entries) && ExactReplicas(entries)
    requires i < j < |Tiling(entries)|
    ensures Tiling(entries)[i].hi <= Tiling(entries)[j].lo
  {
    TilingFacts(entries);
    var s, t := Tiling(entries)[i], Tiling(entries)[j];
    var a := MemberIndex(entries, s);
    var b := MemberIndex(entries, t);
    assert SpanLe(s, t);
    if t.lo < s.hi {
      assert Covers(entries[a].dst, t.lo) && Covers(entries[b].dst, t.lo);
      assert false;
    }
  }

  /** The k-th span starts no later than any byte its predecessors leave. */
  lemma NoHole(total: int, entries: seq<Entry>, k: nat, c: int)
    requires InBounds(total, entries) && Complete(total, entries) && ExactReplicas(entries)
    requires k <= |Tiling(entries)| && 0 <= c
    requires k > 0 ==> Tiling(entries)[k - 1].hi <= c
    ensures (if k < |Tiling(entries)| then Tiling(entries)[k].lo else total) <= c
  {
    var tiling := Tiling(entries);
    TilingFacts(entries);
    if k < |tiling| {
      var a := MemberIndex(entries, tiling[k]);
    }
    if c < total {
      assert CoveredBy(Spans(entries), c);
      var m :| 0 <= m < |entries| && Covers(Spans(entries)[m], c);
      var n := TileOf(entries, m);
      if n + 1 < k {
        TilingOrdered(total, entries, n, k - 1);
        var b := MemberIndex(entries, tiling[k - 1]);
      } else if n > k {
        TilingOrdered(total, entries, k, n);
      }
    }
  }

  lemma {:induction false} TilingFrom(total: int, entries: seq<Entry>, k: nat)
    requires InBounds(total, entries) && Complete(total, entries) && ExactReplicas(entries)
    requires k <= |Tiling(entries)|
    ensures Tiles(Tiling(entries)[k..], if k == 0 then 0 else Tiling(entries)[k - 1].hi, Extent(total))
    decreases |Tiling(entries)| - k
  {
    var tiling := Tiling(entries);
    TilingFacts(entries);
    var c := if k == 0 then 0 else tiling[k - 1].hi;
    if k > 0 {
      var a := MemberIndex(entries, tiling[k - 1]);
    }
    if k == |tiling| {
      NoHole(total, entries, k, c);
    } else {
      var a := MemberIndex(entries, tiling[k]);
      if k > 0 {
        TilingOrdered(total, entries, k - 1, k);
      }
      NoHole(total, entries, k, c);
      TilingFrom(total, entries, k + 1);
      assert tiling[k..][1..] == tiling[k + 1..];
    }
  }

  /** The distinct object ranges of an accepted object tile `[0, bytes)` exactly. */
  lemma AcceptedObjectTiles(lid: string, total: int, entries: seq<Entry>, snapshots: seq<Snapshot>)
    requires ObjectValid(lid, total, entries, snapshots)
    ensures Tiles(Tiling(entries), 0, Extent(total))
    ensures forall s :: s in Tiling(entries) <==> exists i :: 0 <= i < |entries| && entries[i].dst == s
  {
    TilingFrom(total, entries, 0);
    assert Tiling(entries)[0..] == Tiling(entries);
    TilingFacts(entries);
    forall s ensures s in Tiling(entries) <==> exists i :: 0 <= i < |entries| && entries[i].dst == s {
      if s in Tiling(entries) {
        var i := MemberIndex(entries, s);
      }
      if i :| 0 <= i < |entries| && entries[i].dst == s {
        assert Spans(entries)[i] == s;
      }
    }
  }

  // ---------------------------------------------------------------- replicas are interchangeable

  /** A snapshot stores one payload segment per slice: these bytes of the resident object, filling
      this span of the logical object. */
  datatype PayloadKey = PayloadKey(snapshot: int, lid: string, src: Span, dst: Span)

  type Payloads = map<PayloadKey, seq<byte>>

  /** One segment of a snapshot's payload file, as the snapshot's own index describes it: bytes `src`
      of the object `id`, to be placed at `dst` of the logical object. */
  datatype Slice = Slice(id: string, src: Span, lid: string, dst: Span, bytes: seq<byte>)

  function KeyOf(lid: string, e: Entry): PayloadKey {
    PayloadKey(e.snapshot, lid, e.src, e.dst)
  }

  /** Every slice's payload exists and is as long as its span. */
  ghost predicate Stored(lid: string, entries: seq<Entry>, store: Payloads) {
    forall i :: 0 <= i < |entries| ==>
      KeyOf(lid, entries[i]) in store && |store[KeyOf(lid, entries[i])]| == entries[i].dst.hi - entries[i].dst.lo
  }

  /** The assumption behind the certificate: slices with an equal, present hash hold equal bytes. */
  ghost predicate HashesIdentify(lid: string, entries: seq<Entry>, store: Payloads)
    requires Stored(lid, entries, store)
  {
    forall i, j | 0 <= i < |entries| && 0 <= j < |entries| ::
      entries[i].hash.Some? && entries[i].hash == entries[j].hash ==>
        store[KeyOf(lid, entries[i])] == store[KeyOf(lid, entries[j])]
  }

  /** A reader's choice: one entry for each span of the tiling. */
  ghost predicate Picks(entries: seq<Entry>, tiling: seq<Span>, pick: seq<nat>) {
    |pick| == |tiling| &&
    forall k :: 0 <= k < |pick| ==> pick[k] < |entries| && entries[pick[k]].dst == tiling[k]
  }

  ghost function Reassemble(lid: string, entries: seq<Entry>, tiling: seq<Span>, pick: seq<nat>, store: Payloads)
    : seq<byte>
    requires Stored(lid, entries, store) && Picks(entries, tiling, pick)
    decreases |tiling|
  {
    if tiling == [] then []
    else store[KeyOf(lid, entries[pick[0]])] + Reassemble(lid, entries, tiling[1..], pick[1..], store)
  }

  /** Two entries of one span that name different payload segments. */
  predicate Replicas(e: Entry, f: Entry) {
    e.dst == f.dst && (e.snapshot != f.snapshot || e.src != f.src)
  }

  /** Every replica carries a hash: what a caller can check beforehand. */
  ghost predicate Certified(entries: seq<Entry>) {
    forall i, j {:trigger Replicas(entries[i], entries[j])} | 0 <= i < |entries| && 0 <= j < |entries| ::
      Replicas(entries[i], entries[j]) ==> entries[i].hash.Some?
  }

  lemma {:induction false} SamePayloads(
    lid: string, entries: seq<Entry>, tiling: seq<Span>, p: seq<nat>, q: seq<nat>, store: Payloads)
    requires Stored(lid, entries, store) && HashesIdentify(lid, entries, store)
    requires HashesAgree(entries) && Certified(entries)
    requires Picks(entries, tiling, p) && Picks(entries, tiling, q)
    ensures Reassemble(lid, entries, tiling, p, store) == Reassemble(lid, entries, tiling, q, store)
    decreases |tiling|
  {
    if tiling != [] {
      SamePayloads(lid, entries, tiling[1..], p[1..], q[1..], store);
      SameSegment(lid, entries, p[0], q[0], store);
    }
  }

  lemma SameSegment(lid: string, entries: seq<Entry>, i: nat, j: nat, store: Payloads)
    requires Stored(lid, entries, store) && HashesIdentify(lid, entries, store)
    requires HashesAgree(entries) && Certified(entries)
    requires i < |entries| && j < |entries| && entries[i].dst == entries[j].dst
    ensures store[KeyOf(lid, entries[i])] == store[KeyOf(lid, entries[j])]
  {
    assert Replicas(entries[i], entries[j]) ==> entries[i].hash.Some?;
  }

  lemma {:induction false} ReassembledLength(
    lid: string, entries: seq<Entry>, tiling: seq<Span>, lo: int, hi: int, pick: seq<nat>, store: Payloads)
    requires Stored(lid, entries, store) && Picks(entries, tiling, pick) && Tiles(tiling, lo, hi)
    ensures |Reassemble(lid, entries, tiling, pick, store)| == hi - lo
    decreases |tiling|
  {
    if tiling != [] {
      ReassembledLength(lid, entries, tiling[1..], tiling[0].hi, hi, pick[1..], store);
    }
  }

  /** Every byte of the reassembly comes from the payload of any slice that covers it. */
  lemma {:induction false} ReassembledByte(
    lid: string, entries: seq<Entry>, tiling: seq<Span>, lo: int, hi: int, pick: seq<nat>, store: Payloads,
    k: nat, b: int)
    requires Stored(lid, entries, store) && Picks(entries, tiling, pick) && Tiles(tiling, lo, hi)
    requires k < |tiling| && Covers(tiling[k], b)
    ensures lo <= b < hi && |Reassemble(lid, entries, tiling, pick, store)| == hi - lo
    ensures b - tiling[k].lo < |store[KeyOf(lid, entries[pick[k]])]|
    ensures Reassemble(lid, entries, tiling, pick, store)[b - lo] ==
      store[KeyOf(lid, entries[pick[k]])][b - tiling[k].lo]
    decreases |tiling|
  {
    ReassembledLength(lid, entries, tiling, lo, hi, pick, store);
    ReassembledLength(lid, entries, tiling[1..], tiling[0].hi, hi, pick[1..], store);
    if k > 0 {
      ReassembledByte(lid, entries, tiling[1..], tiling[0].hi, hi, pick[1..], store, k - 1, b);
    } else {
      TilesOrder(tiling[1..], tiling[0].hi, hi);
    }
  }

  lemma {:induction false} TilesOrder(tiling: seq<Span>, lo: int, hi: int)
    requires Tiles(tiling, lo, hi)
    ensures lo <= hi
  {
    if tiling != [] {
      TilesOrder(tiling[1..], tiling[0].hi, hi);
    }
  }

  /** Readers may take any replica: all choices rebuild one full-length byte string. */
  lemma AnyReplicaRebuilds(
    lid: string, total: int, entries: seq<Entry>, snapshots: seq<Snapshot>, store: Payloads,
    p: seq<nat>, q: seq<nat>)
    requires ObjectValid(lid, total, entries, snapshots) && Certified(entries)
    requires Stored(lid, entries, store) && HashesIdentify(lid, entries, store)
    requires Picks(entries, Tiling(entries), p) && Picks(entries, Tiling(entries), q)
    ensures Reassemble(lid, entries, Tiling(entries), p, store) == Reassemble(lid, entries, Tiling(entries), q, store)
    ensures |Reassemble(lid, entries, Tiling(entries), p, store)| == Extent(total)
  {
    AcceptedObjectTiles(lid, total, entries, snapshots);
    SamePayloads(lid, entries, Tiling(entries), p, q, store);
    ReassembledLength(lid, entries, Tiling(entries), 0, Extent(total), p, store);
  }

  /** The readers of an object all agree, whatever the snapshots hold within the hash assumption. */
  ghost predicate Interchangeable(lid: string, entries: seq<Entry>) {
    forall store: Payloads, p, q | Stored(lid, entries, store) && HashesIdentify(lid, entries, store) &&
      Picks(entries, Tiling(entries), p) && Picks(entries, Tiling(entries), q) ::
        Reassemble(lid, entries, Tiling(entries), p, store) == Reassemble(lid, entries, Tiling(entries), q, store)
  }

  /** A pick that reads entry `i`'s span from entry `i`. */
  lemma PickWith(entries: seq<Entry>, tiling: seq<Span>, i: nat) returns (pick: seq<nat>)
    requires i < |entries|
    requires forall s :: s in tiling ==> s in Spans(entries)
    ensures Picks(entries, tiling, pick)
    ensures forall k :: 0 <= k < |tiling| && tiling[k] == entries[i].dst ==> pick[k] == i
  {
    pick := [];
    for k := 0 to |tiling|
      invariant |pick| == k
      invariant forall m :: 0 <= m < k ==> pick[m] < |entries| && entries[pick[m]].dst == tiling[m]
      invariant forall m :: 0 <= m < k && tiling[m] == entries[i].dst ==> pick[m] == i
    {
      assert tiling[k] in tiling;
      var m := MemberIndex(entries, tiling[k]);
      pick := pick + [if tiling[k] == entries[i].dst then i else m];
    }
  }

  /** Overwriting an unhashed slice leaves the hash assumption intact. */
  lemma FlipUnhashed(lid: string, entries: seq<Entry>, store: Payloads, i: nat, bytes: seq<byte>)
    returns (store': Payloads)
    requires Stored(lid, entries, store) && HashesIdentify(lid, entries, store) && HashesAgree(entries)
    requires i < |entries| && entries[i].hash.None? && |bytes| == entries[i].dst.hi - entries[i].dst.lo
    ensures Stored(lid, entries, store') && HashesIdentify(lid, entries, store')
    ensures store' == store[KeyOf(lid, entries[i]) := bytes]
  {
    store' := store[KeyOf(lid, entries[i]) := bytes];
    forall m | 0 <= m < |entries| && entries[m].hash.Some?
      ensures store'[KeyOf(lid, entries[m])] == store[KeyOf(lid, entries[m])]
    {
      assert entries[m].dst != entries[i].dst;
    }
  }

  /** Two unhashed replicas can hold different bytes unnoticed, in two snapshots or in one. */
  lemma UncertifiedReadersDisagree(
    lid: string, total: int, entries: seq<Entry>, snapshots: seq<Snapshot>, store: Payloads, i: nat, j: nat)
    requires ObjectValid(lid, total, entries, snapshots)
    requires Stored(lid, entries, store) && HashesIdentify(lid, entries, store)
    requires i < |entries| && j < |entries| && Replicas(entries[i], entries[j]) && entries[i].hash.None?
    ensures !Interchangeable(lid, entries)
  {
    var tiling, dst := Tiling(entries), entries[i].dst;
    assert dst.lo < dst.hi;
    var other := store[KeyOf(lid, entries[j])];
    var store' := FlipUnhashed(lid, entries, store, i, other[0 := if other[0] == 0 then 1 else 0]);
    TilingFacts(entries);
    var p := PickWith(entries, tiling, i);
    var q := PickWith(entries, tiling, j);
    ReadAt(lid, total, entries, snapshots, store', p, i);
    ReadAt(lid, total, entries, snapshots, store', q, j);
  }

  /** A pick that reads entry `i` shows the first byte of its payload at the start of its span. */
  lemma ReadAt(
    lid: string, total: int, entries: seq<Entry>, snapshots: seq<Snapshot>, store: Payloads, pick: seq<nat>, i: nat)
    requires ObjectValid(lid, total, entries, snapshots) && Stored(lid, entries, store) && i < |entries|
    requires Picks(entries, Tiling(entries), pick)
    requires forall k :: 0 <= k < |Tiling(entries)| && Tiling(entries)[k] == entries[i].dst ==> pick[k] == i
    ensures var whole := Reassemble(lid, entries, Tiling(entries), pick, store);
      0 <= entries[i].dst.lo < |whole| && |store[KeyOf(lid, entries[i])]| > 0 &&
      whole[entries[i].dst.lo] == store[KeyOf(lid, entries[i])][0]
  {
    AcceptedObjectTiles(lid, total, entries, snapshots);
    var k := TileOf(entries, i);
    ReassembledByte(lid, entries, Tiling(entries), 0, Extent(total), pick, store, k, entries[i].dst.lo);
  }

  /** Acceptance makes replicas interchangeable exactly when no replica lacks a hash:
      the validator compares hashes with `get`, so it takes two absent ones for equal. */
  lemma ReplicaCertificateIsExact(
    lid: string, total: int, entries: seq<Entry>, snapshots: seq<Snapshot>, store: Payloads)
    requires ObjectValid(lid, total, entries, snapshots)
    requires Stored(lid, entries, store) && HashesIdentify(lid, entries, store)
    ensures Interchangeable(lid, entries) <==> Certified(entries)
  {
    if Certified(entries) {
      forall store: Payloads, p, q | Stored(lid, entries, store) && HashesIdentify(lid, entries, store) &&
        Picks(entries, Tiling(entries), p) && Picks(entries, Tiling(entries), q)
        ensures Reassemble(lid, entries, Tiling(entries), p, store) ==
          Reassemble(lid, entries, Tiling(entries), q, store)
      {
        AnyReplicaRebuilds(lid, total, entries, snapshots, store, p, q);
      }
    } else {
      var i, j :| 0 <= i < |entries| && 0 <= j < |entries| && Replicas(entries[i], entries[j]) &&
        entries[i].hash.None?;
      UncertifiedReadersDisagree(lid, total, entries, snapshots, store, i, j);
    }
  }

  /** Two unhashed slices of one snapshot, cut from different bytes, that fill the same span. */
  function TwinEntries(): seq<Entry> {
    [Entry(0, Span(0, 1), Span(0, 1), None), Entry(0, Span(1, 2), Span(0, 1), None)]
  }

  lemma TwinsAreValid(lid: string, path: string, source: string)
    ensures ObjectValid(lid, 1, TwinEntries(), [Snapshot(path, source, map[Bare(lid) := 2])])
  {
    assert Covers(Spans(TwinEntries())[0], 0);
  }

  /** The validator accepts them, and its readers disagree. */
  lemma TwinsAreAccepted(lid: string, path: string, source: string)
    ensures ObjectValid(lid, 1, TwinEntries(), [Snapshot(path, source, map[Bare(lid) := 2])])
    ensures !Interchangeable(lid, TwinEntries())
  {
    var entries := TwinEntries();
    TwinsAreValid(lid, path, source);
    var store: Payloads := map[KeyOf(lid, entries[0]) := [0], KeyOf(lid, entries[1]) := [0]];
    assert Replicas(entries[0], entries[1]);
    UncertifiedReadersDisagree(lid, 1, entries, [Snapshot(path, source, map[Bare(lid) := 2])], store, 0, 1);
  }

  // ---------------------------------------------------------------- elements stay whole

  /** Disjoint typed fields inside the object. */
  ghost predicate DisjointFields(total: int, fields: seq<Field>) {
    && (forall k :: 0 <= k < |fields| ==>
          && !fields[k].dtype.Unlisted?
          && 0 <= fields[k].offset && 0 <= fields[k].size && fields[k].offset + fields[k].size <= total)
    && (forall j, k :: 0 <= j < k < |fields| ==>
          fields[j].offset + fields[j].size <= fields[k].offset ||
          fields[k].offset + fields[k].size <= fields[j].offset)
  }

  function ElementStart(f: Field, n: int): int {
    f.offset + n * ElementBytes(f.dtype)
  }

  lemma MulMonotone(a: int, b: int, e: int)
    requires a <= b && 0 < e
    ensures a * e <= b * e
  {
    assert 0 <= (b - a) * e;
  }

  lemma MultipleOutside(d: int, n: int, e: int)
    requires e > 0 && d % e == 0
    ensures !(n * e < d < (n + 1) * e)
  {
    var m := d / e;
    assert d == m * e;
    if m <= n {
      MulMonotone(m, n, e);
    } else {
      MulMonotone(n + 1, m, e);
    }
  }

  lemma InteriorTouchedOnce(total: int, fields: seq<Field>, k: nat, m: nat, endpoint: int)
    requires DisjointFields(total, fields) && k < |fields| && m < |fields|
    requires fields[k].offset < endpoint < fields[k].offset + fields[k].size
    requires Touches(fields[m], endpoint)
    ensures m == k
  {
  }

  /** No accepted endpoint falls strictly inside an element. */
  lemma EndpointOutsideElement(total: int, fields: seq<Field>, k: nat, n: int, endpoint: int)
    requires DisjointFields(total, fields) && k < |fields| && EndpointOk(endpoint, fields)
    requires 0 <= n && ElementStart(fields[k], n + 1) <= fields[k].offset + fields[k].size
    ensures !(ElementStart(fields[k], n) < endpoint < ElementStart(fields[k], n + 1))
  {
    var f, e := fields[k], ElementBytes(fields[k].dtype);
    MulMonotone(0, n, e);
    if f.offset < endpoint < f.offset + f.size {
      var m :| 0 <= m < |fields| && Touches(fields[m], endpoint) && OnBoundary(fields[m], endpoint);
      InteriorTouchedOnce(total, fields, k, m, endpoint);
      MultipleOutside(endpoint - f.offset, n, e);
    }
  }

  /** An accepted record never splits an element: each lies inside a single slice's span. */
  lemma ElementInOneSpan(
    lid: string, total: int, entries: seq<Entry>, snapshots: seq<Snapshot>, fields: seq<Field>, k: nat, n: int)
    requires ObjectValid(lid, total, entries, snapshots)
    requires DisjointFields(total, fields) && Aligned(entries, fields)
    requires k < |fields| && 0 <= n && ElementStart(fields[k], n + 1) <= fields[k].offset + fields[k].size
    ensures exists s | s in Tiling(entries) ::
      && s.lo <= ElementStart(fields[k], n) && ElementStart(fields[k], n + 1) <= s.hi
      && forall t | t in Tiling(entries) && t != s ::
           t.hi <= ElementStart(fields[k], n) || ElementStart(fields[k], n + 1) <= t.lo
  {
    var lo, hi := ElementStart(fields[k], n), ElementStart(fields[k], n + 1);
    assert 0 <= n * ElementBytes(fields[k].dtype);
    assert 0 <= lo < hi <= total;
    assert CoveredBy(Spans(entries), lo);
    var m :| 0 <= m < |entries| && Covers(Spans(entries)[m], lo);
    var s := entries[m].dst;
    EndpointOutsideElement(total, fields, k, n, s.hi);
    TilingFacts(entries);
    assert Spans(entries)[m] == s && s in Tiling(entries);
    forall t | t in Tiling(entries) && t != s ensures t.hi <= lo || hi <= t.lo {
      var j := MemberIndex(entries, t);
      if t.lo < hi && lo < t.hi {
        EndpointOutsideElement(total, fields, k, n, t.lo);
        assert t.lo <= lo;
        assert Covers(entries[m].dst, lo) && Covers(entries[j].dst, lo);
        assert false;
      }
    }
  }
}
