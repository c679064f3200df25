/** The checkpoint record of src/dataflow/checkpoint/record.py: its data, its two interval
    sweeps, its replica certificate and its total validation. The validators are methods, proved
    to pass exactly when a declarative condition about bytes holds. */
module CheckpointRecord {
  import opened Wrappers
  import Sorting

  const RECORD_SCHEMA := "dataflow-checkpoint/v1"

  datatype Span = Span(lo: int, hi: int)

  type Digest = string

  /** One slice of a logical object: bytes `src` of a snapshot's resident object are bytes `dst`
      of the logical object. `hash` is absent when the JSON entry has no hash. */
  datatype Entry = Entry(snapshot: int, src: Span, dst: Span, hash: Option<Digest>)

  datatype Snapshot = Snapshot(path: string, source: string, objects: map<string, int>)

  datatype Logical = Logical(bytes: int, schemaDigest: Option<Digest>)

  datatype Dtype = Fp32 | Bf16 | Fp16 | Fp8 | Int32 | Int64 | Int8 | Uint8 | Unlisted(name: string)

  datatype Field = Field(name: string, offset: int, size: int, dtype: Dtype)

  /** The opaque caller state (scheme, payload, summary, launch) is carried by no rule and omitted. */
  datatype Record = Record(
    schema: string, step: int, seed: int,
    logical: map<string, Logical>, snapshots: seq<Snapshot>, slices: map<string, seq<Entry>>)

  datatype Refusal =
    | Incomplete
    | ForeignSchema(found: string)
    | UnknownObject(lid: string)
    | NoSuchSnapshot(lid: string, entry: Entry)
    | LengthMismatch(lid: string, entry: Entry)
    | OutsideObject(lid: string, entry: Entry)
    | NoResidentSize(lid: string, entry: Entry)
    | OutsideResident(lid: string, entry: Entry)
    | Uncovered(lid: string, gaps: seq<Span>)
    | PartialOverlap(lid: string, at: Span, first: Entry, other: Entry)
    | ReplicaDrift(lid: string, first: Entry, other: Entry)
    | DigestMismatch(lid: string)
    | SplitsElement(lid: string, endpoint: int, field: Field)
    | OutsideFields(lid: string, endpoint: int)
    | UnknownDtype(lid: string, field: Field)

  // ---------------------------------------------------------------- declarative conditions

  predicate Covers(s: Span, b: int) {
    s.lo <= b < s.hi
  }

  ghost predicate CoveredBy(spans: seq<Span>, b: int) {
    exists i :: 0 <= i < |spans| && Covers(spans[i], b)
  }

  function Spans(entries: seq<Entry>): (spans: seq<Span>)
    ensures |spans| == |entries|
    ensures forall i :: 0 <= i < |entries| ==> spans[i] == entries[i].dst
  {
    seq(|entries|, i requires 0 <= i < |entries| => entries[i].dst)
  }

  ghost predicate InBounds(total: int, entries: seq<Entry>) {
    forall i :: 0 <= i < |entries| ==> 0 <= entries[i].dst.lo < entries[i].dst.hi <= total
  }

  /** Every byte of the object lies in some slice. */
  ghost predicate Complete(total: int, entries: seq<Entry>) {
    forall b :: 0 <= b < total ==> CoveredBy(Spans(entries), b)
  }

  /** Two slices that share a byte have the same span: overlap only as exact replicas. */
  ghost predicate ExactReplicas(entries: seq<Entry>) {
    forall i, j, b | 0 <= i < |entries| && 0 <= j < |entries| ::
      Covers(entries[i].dst, b) && Covers(entries[j].dst, b) ==> entries[i].dst == entries[j].dst
  }

  /** Replicas of one span carry equal hashes; two absent hashes are equal. */
  ghost predicate HashesAgree(entries: seq<Entry>) {
    forall i, j :: 0 <= i < |entries| && 0 <= j < |entries| && entries[i].dst == entries[j].dst ==>
      entries[i].hash == entries[j].hash
  }

  /** The resident name behind a logical id: a source-qualified `name@key` drops its last `@key`. */
  function Bare(lid: string): (bare: string)
    ensures '@' !in lid ==> bare == lid
    ensures '@' in lid ==> |bare| < |lid| && lid[..|bare|] == bare && lid[|bare|] == '@'
    ensures '@' in lid ==> forall k :: |bare| < k < |lid| ==> lid[k] != '@'
  {
    if '@' !in lid then lid
    else if lid[|lid| - 1] == '@' then lid[..|lid| - 1]
    else assert lid == lid[..|lid| - 1] + [lid[|lid| - 1]]; Bare(lid[..|lid| - 1])
  }

  predicate ShapeOk(lid: string, total: int, e: Entry, snapshots: seq<Snapshot>) {
    && 0 <= e.snapshot < |snapshots|
    && e.dst.hi - e.dst.lo == e.src.hi - e.src.lo
    && 0 <= e.dst.lo < e.dst.hi <= total
    && Bare(lid) in snapshots[e.snapshot].objects
    && 0 <= e.src.lo < e.src.hi <= snapshots[e.snapshot].objects[Bare(lid)]
  }

  ghost predicate ShapesOk(lid: string, total: int, entries: seq<Entry>, snapshots: seq<Snapshot>) {
    forall i :: 0 <= i < |entries| ==> ShapeOk(lid, total, entries[i], snapshots)
  }

  ghost predicate ObjectValid(lid: string, total: int, entries: seq<Entry>, snapshots: seq<Snapshot>) {
    && ShapesOk(lid, total, entries, snapshots)
    && Complete(total, entries)
    && ExactReplicas(entries)
    && HashesAgree(entries)
  }

  function ElementBytes(d: Dtype): (n: int)
    ensures d.Unlisted? <==> n == 0
  {
    match d
    case Fp32 => 4
    case Bf16 => 2
    case Fp16 => 2
    case Fp8 => 1
    case Int32 => 4
    case Int64 => 8
    case Int8 => 1
    case Uint8 => 1
    case Unlisted(_) => 0
  }

  /** The text of a dtype in a schema. */
  function NameOf(d: Dtype): string {
    match d
    case Fp32 => "fp32"
    case Bf16 => "bf16"
    case Fp16 => "fp16"
    case Fp8 => "fp8"
    case Int32 => "int32"
    case Int64 => "int64"
    case Int8 => "int8"
    case Uint8 => "uint8"
    case Unlisted(name) => name
  }

  /** The number a text ends with. */
  function EndNumber(text: string): nat {
    if text == [] || !('0' <= text[|text| - 1] <= '9') then 0
    else 10 * EndNumber(text[..|text| - 1]) + (text[|text| - 1] as int - '0' as int)
  }

  lemma OneDigit(text: string, n: nat)
    requires n >= 1 && |text| == n + 1 && !('0' <= text[n - 1] <= '9') && '0' <= text[n] <= '9'
    ensures EndNumber(text) == text[n] as int - '0' as int
  {
  }

  lemma TwoDigits(text: string, n: nat)
    requires n >= 1 && |text| == n + 2 && !('0' <= text[n - 1] <= '9')
    requires '0' <= text[n] <= '9' && '0' <= text[n + 1] <= '9'
    ensures EndNumber(text) == 10 * (text[n] as int - '0' as int) + (text[n + 1] as int - '0' as int)
  {
    OneDigit(text[..n + 1], n);
  }

  /** An element takes as many bits as its dtype's name says. */
  lemma ElementBits(d: Dtype)
    requires !d.Unlisted?
    ensures 8 * ElementBytes(d) == EndNumber(NameOf(d))
  {
    var text := NameOf(d);
    if d.Fp8? || d.Int8? || d.Uint8? {
      OneDigit(text, |text| - 1);
    } else {
      TwoDigits(text, |text| - 2);
    }
  }

  predicate Touches(f: Field, endpoint: int) {
    f.offset <= endpoint <= f.offset + f.size
  }

  predicate OnBoundary(f: Field, endpoint: int) {
    !f.dtype.Unlisted? && (endpoint - f.offset) % ElementBytes(f.dtype) == 0
  }

  /** The FIRST field of the schema that touches the endpoint decides. */
  ghost predicate EndpointOk(endpoint: int, fields: seq<Field>) {
    exists k :: 0 <= k < |fields| && Touches(fields[k], endpoint) && OnBoundary(fields[k], endpoint) &&
      forall j :: 0 <= j < k ==> !Touches(fields[j], endpoint)
  }

  ghost predicate Aligned(entries: seq<Entry>, fields: seq<Field>) {
    forall i :: 0 <= i < |entries| ==>
      EndpointOk(entries[i].dst.lo, fields) && EndpointOk(entries[i].dst.hi, fields)
  }

  function EntriesOf(record: Record, lid: string): seq<Entry> {
    if lid in record.slices then record.slices[lid] else []
  }

  ghost predicate SchemaRespected(
    record: Record, lid: string, schemas: map<string, seq<Field>>, digest: seq<Field> -> Digest)
  {
    lid in schemas && lid in record.logical ==>
      && record.logical[lid].schemaDigest == Some(digest(schemas[lid]))
      && Aligned(EntriesOf(record, lid), schemas[lid])
  }

  ghost predicate RecordValid(record: Record, schemas: map<string, seq<Field>>, digest: seq<Field> -> Digest) {
    && record.schema == RECORD_SCHEMA
    && record.slices.Keys <= record.logical.Keys
    && (forall lid {:trigger LogicalValid(record, lid, schemas, digest)} ::
          lid in record.logical ==> LogicalValid(record, lid, schemas, digest))
  }

  ghost predicate LogicalValid(
    record: Record, lid: string, schemas: map<string, seq<Field>>, digest: seq<Field> -> Digest)
    requires lid in record.logical
  {
    && ObjectValid(lid, record.logical[lid].bytes, EntriesOf(record, lid), record.snapshots)
    && SchemaRespected(record, lid, schemas, digest)
  }

  // ---------------------------------------------------------------- entry shapes

  /** The rules an entry must meet, in the order they are checked. */
  predicate Rule(n: nat, lid: string, total: int, e: Entry, snapshots: seq<Snapshot>) {
    var known := 0 <= e.snapshot < |snapshots|;
    var sized := known && Bare(lid) in snapshots[e.snapshot].objects;
    match n
    case 0 => known
    case 1 => e.dst.hi - e.dst.lo == e.src.hi - e.src.lo
    case 2 => 0 <= e.dst.lo < e.dst.hi <= total
    case 3 => sized
    case _ => sized && 0 <= e.src.lo < e.src.hi <= snapshots[e.snapshot].objects[Bare(lid)]
  }

  /** The rule a refusal of an entry speaks of. */
  function RuleNamed(r: Refusal): nat {
    match r
    case NoSuchSnapshot(_, _) => 0
    case LengthMismatch(_, _) => 1
    case OutsideObject(_, _) => 2
    case NoResidentSize(_, _) => 3
    case _ => 4
  }

  /** Refuses exactly the malformed entries, and names the first rule that the entry breaks. */
  function ShapeRefusal(lid: string, total: int, e: Entry, snapshots: seq<Snapshot>): (r: Outcome<Refusal>)
    ensures r.Pass? <==> ShapeOk(lid, total, e, snapshots)
    ensures r.Refuse? ==>
      && !Rule(RuleNamed(r.reason), lid, total, e, snapshots)
      && forall n: nat :: n < RuleNamed(r.reason) ==> Rule(n, lid, total, e, snapshots)
  {
    if !(0 <= e.snapshot < |snapshots|) then Refuse(NoSuchSnapshot(lid, e))
    else if e.dst.hi - e.dst.lo != e.src.hi - e.src.lo then Refuse(LengthMismatch(lid, e))
    else if !(0 <= e.dst.lo < e.dst.hi <= total) then Refuse(OutsideObject(lid, e))
    else if Bare(lid) !in snapshots[e.snapshot].objects then Refuse(NoResidentSize(lid, e))
    else if !(0 <= e.src.lo < e.src.hi <= snapshots[e.snapshot].objects[Bare(lid)]) then
      Refuse(OutsideResident(lid, e))
    else Pass
  }

  /** Refuses with the first violated rule of the first malformed entry. */
  method CheckEntryShapes(lid: string, total: int, entries: seq<Entry>, snapshots: seq<Snapshot>)
    returns (r: Outcome<Refusal>)
    ensures r.Pass? <==> ShapesOk(lid, total, entries, snapshots)
    ensures r.Refuse? ==> exists k | 0 <= k < |entries| ::
      && r == ShapeRefusal(lid, total, entries[k], snapshots)
      && forall j :: 0 <= j < k ==> ShapeOk(lid, total, entries[j], snapshots)
  {
    for i := 0 to |entries|
      invariant forall j :: 0 <= j < i ==> ShapeOk(lid, total, entries[j], snapshots)
    {
      r := ShapeRefusal(lid, total, entries[i], snapshots);
      if r.Refuse? {
        return;
      }
    }
    r := Pass;
  }

  // ---------------------------------------------------------------- the gap sweep

  predicate SpanLe(a: Span, b: Span) {
    a.lo < b.lo || (a.lo == b.lo && a.hi <= b.hi)
  }

  function SortedSpans(entries: seq<Entry>): seq<Span> {
    Sorting.Sort(Spans(entries), SpanLe)
  }

  lemma SortedSpansFacts(entries: seq<Entry>)
    ensures Sorting.SortedBy(SortedSpans(entries), SpanLe)
    ensures |SortedSpans(entries)| == |entries|
    ensures forall s :: s in SortedSpans(entries) <==> s in Spans(entries)
    ensures forall b :: CoveredBy(SortedSpans(entries), b) <==> CoveredBy(Spans(entries), b)
  {
    Sorting.SortSorted(Spans(entries), SpanLe);
    Sorting.SortMultiset(Spans(entries), SpanLe);
    Sorting.SortMembers(Spans(entries), SpanLe);
    var sorted, spans := SortedSpans(entries), Spans(entries);
    forall b ensures CoveredBy(sorted, b) <==> CoveredBy(spans, b) {
      if CoveredBy(sorted, b) {
        var i :| 0 <= i < |sorted| && Covers(sorted[i], b);
        assert sorted[i] in spans;
      }
      if CoveredBy(spans, b) {
        var i :| 0 <= i < |spans| && Covers(spans[i], b);
        assert spans[i] in sorted;
      }
    }
  }

  /** Gaps come in order, each holds a byte, and a covered byte separates neighbours. */
  ghost predicate SeparatedGaps(gaps: seq<Span>) {
    && (forall i :: 0 <= i < |gaps| ==> gaps[i].lo < gaps[i].hi)
    && (forall i, j :: 0 <= i < j < |gaps| ==> gaps[i].hi < gaps[j].lo)
  }

  /** The state of the cursor sweep after its first `k` spans: the gaps are the uncovered bytes
      before the cursor, and all end at or before the last span read. */
  ghost predicate Swept(spans: seq<Span>, k: nat, cursor: int, gaps: seq<Span>)
    requires k <= |spans|
  {
    && (if k == 0 then cursor == 0 && gaps == [] else spans[k - 1].lo < cursor)
    && (forall j :: 0 <= j < k ==> spans[j].hi <= cursor)
    && (cursor == 0 || exists j :: 0 <= j < k && spans[j].hi == cursor)
    && SeparatedGaps(gaps)
    && (forall g :: 0 <= g < |gaps| ==> k > 0 && 0 <= gaps[g].lo && gaps[g].hi <= spans[k - 1].lo)
    && (forall b :: CoveredBy(gaps, b) <==> 0 <= b < cursor && !CoveredBy(spans[..k], b))
  }

  function Step(gaps: seq<Span>, cursor: int, s: Span): seq<Span> {
    if s.lo > cursor then gaps + [Span(cursor, s.lo)] else gaps
  }

  lemma SweepStart(spans: seq<Span>)
    ensures Swept(spans, 0, 0, [])
  {
  }

  lemma SweepStep(spans: seq<Span>, k: nat, cursor: int, gaps: seq<Span>)
    requires k < |spans| && Sorting.SortedBy(spans, SpanLe)
    requires forall j :: 0 <= j < |spans| ==> 0 <= spans[j].lo < spans[j].hi
    requires Swept(spans, k, cursor, gaps)
    ensures Swept(spans, k + 1, if spans[k].hi > cursor then spans[k].hi else cursor, Step(gaps, cursor, spans[k]))
  {
    var s := spans[k];
    var gaps', cursor' := Step(gaps, cursor, s), if s.hi > cursor then s.hi else cursor;
    assert spans[..k + 1] == spans[..k] + [s];
    AppendCovered(spans[..k], s);
    assert k > 0 ==> SpanLe(spans[k - 1], s);
    forall b ensures CoveredBy(gaps', b) <==> 0 <= b < cursor' && !CoveredBy(spans[..k + 1], b) {
      AppendCovered(gaps, Span(cursor, s.lo));
      BytesBounded(gaps, s.lo, b);
      BytesBounded(spans[..k], cursor, b);
    }
  }

  lemma BytesBounded(spans: seq<Span>, hi: int, b: int)
    requires forall j :: 0 <= j < |spans| ==> spans[j].hi <= hi
    ensures CoveredBy(spans, b) ==> b < hi
  {
  }

  lemma SweepEnd(total: int, spans: seq<Span>, cursor: int, gaps: seq<Span>)
    requires Swept(spans, |spans|, cursor, gaps)
    requires forall j :: 0 <= j < |spans| ==> 0 <= spans[j].lo < spans[j].hi <= total
    ensures var all := if cursor < total then gaps + [Span(cursor, total)] else gaps;
      && SeparatedGaps(all)
      && forall b :: CoveredBy(all, b) <==> 0 <= b < total && !CoveredBy(spans, b)
  {
    assert spans[..|spans|] == spans;
    AppendCovered(gaps, Span(cursor, total));
    forall b ensures CoveredBy(spans, b) ==> b < cursor {
      BytesBounded(spans, cursor, b);
    }
  }

  method SweepSpans(total: int, spans: seq<Span>) returns (gaps: seq<Span>)
    requires Sorting.SortedBy(spans, SpanLe)
    requires forall j :: 0 <= j < |spans| ==> 0 <= spans[j].lo < spans[j].hi <= total
    ensures SeparatedGaps(gaps)
    ensures forall b :: CoveredBy(gaps, b) <==> 0 <= b < total && !CoveredBy(spans, b)
  {
    gaps := [];
    var cursor := 0;
    SweepStart(spans);
    for k := 0 to |spans|
      invariant Swept(spans, k, cursor, gaps)
    {
      SweepStep(spans, k, cursor, gaps);
      ghost var next := Step(gaps, cursor, spans[k]);
      var lo, hi := spans[k].lo, spans[k].hi;
      if lo > cursor {
        gaps := gaps + [Span(cursor, lo)];
      }
      assert gaps == next;
      cursor := if hi > cursor then hi else cursor;
    }
    SweepEnd(total, spans, cursor, gaps);
    if cursor < total {
      gaps := gaps + [Span(cursor, total)];
    }
  }

  /** The cursor sweep finds exactly the bytes that no slice covers. */
  method CoverageGaps(total: int, entries: seq<Entry>) returns (gaps: seq<Span>)
    requires InBounds(total, entries)
    ensures SeparatedGaps(gaps)
    ensures forall b :: CoveredBy(gaps, b) <==> 0 <= b < total && !CoveredBy(Spans(entries), b)
  {
    var spans := SortedSpans(entries);
    SortedSpansFacts(entries);
    forall k | 0 <= k < |spans| ensures 0 <= spans[k].lo < spans[k].hi <= total {
      assert spans[k] in Spans(entries);
    }
    gaps := SweepSpans(total, spans);
  }

  lemma AppendCovered(spans: seq<Span>, s: Span)
    ensures forall b :: CoveredBy(spans + [s], b) <==> CoveredBy(spans, b) || Covers(s, b)
  {
    var more := spans + [s];
    forall b ensures CoveredBy(more, b) <==> CoveredBy(spans, b) || Covers(s, b) {
      if Covers(s, b) {
        assert more[|spans|] == s;
      }
      if CoveredBy(spans, b) {
        var i :| 0 <= i < |spans| && Covers(spans[i], b);
        assert more[i] == spans[i];
      }
    }
  }

  method CheckCoverage(lid: string, total: int, entries: seq<Entry>) returns (r: Outcome<Refusal>)
    requires InBounds(total, entries)
    ensures r.Pass? <==> Complete(total, entries)
    ensures r.Refuse? ==>
      && r.reason.Uncovered? && r.reason.lid == lid && r.reason.gaps != []
      && SeparatedGaps(r.reason.gaps)
      && forall b :: CoveredBy(r.reason.gaps, b) <==> 0 <= b < total && !CoveredBy(Spans(entries), b)
  {
    var gaps := CoverageGaps(total, entries);
    if gaps != [] {
      assert Covers(gaps[0], gaps[0].lo);
      assert CoveredBy(gaps, gaps[0].lo);
      r := Refuse(Uncovered(lid, gaps));
    } else {
      r := Pass;
    }
  }

  // ---------------------------------------------------------------- the elementary-interval sweep

  /** `sorted({x for e in entries for x in e["object_range"]})`: endpoints, increasing, no repeats. */
  function Bounds(entries: seq<Entry>): seq<int> {
    Sorting.Distinct(Sorting.Sort(Endpoints(entries), IntLe))
  }

  predicate IntLe(x: int, y: int) {
    x <= y
  }

  function Endpoints(entries: seq<Entry>): seq<int> {
    if entries == [] then [] else [entries[0].dst.lo, entries[0].dst.hi] + Endpoints(entries[1..])
  }

  ghost predicate Increasing(s: seq<int>) {
    forall i, j :: 0 <= i < j < |s| ==> s[i] < s[j]
  }

  lemma {:induction false} EndpointsMembers(entries: seq<Entry>, x: int)
    ensures x in Endpoints(entries) <==>
      exists i :: 0 <= i < |entries| && (entries[i].dst.lo == x || entries[i].dst.hi == x)
  {
    if entries != [] {
      EndpointsMembers(entries[1..], x);
      var rest := entries[1..];
      if i :| 0 <= i < |rest| && (rest[i].dst.lo == x || rest[i].dst.hi == x) {
        assert entries[i + 1] == rest[i];
      }
      if i :| 0 <= i < |entries| && (entries[i].dst.lo == x || entries[i].dst.hi == x) {
        assert i > 0 ==> rest[i - 1] == entries[i];
      }
    }
  }

  lemma BoundsFacts(entries: seq<Entry>)
    ensures Increasing(Bounds(entries))
    ensures forall i :: 0 <= i < |entries| ==>
      entries[i].dst.lo in Bounds(entries) && entries[i].dst.hi in Bounds(entries)
    ensures forall x :: x in Bounds(entries) ==>
      exists i :: 0 <= i < |entries| && (entries[i].dst.lo == x || entries[i].dst.hi == x)
  {
    var all := Endpoints(entries);
    Sorting.SortSorted(all, IntLe);
    Sorting.SortMembers(all, IntLe);
    Sorting.DistinctFacts(Sorting.Sort(all, IntLe), IntLe);
    forall i | 0 <= i < |entries|
      ensures entries[i].dst.lo in Bounds(entries) && entries[i].dst.hi in Bounds(entries)
    {
      EndpointsMembers(entries, entries[i].dst.lo);
      EndpointsMembers(entries, entries[i].dst.hi);
    }
    forall x | x in Bounds(entries)
      ensures exists i :: 0 <= i < |entries| && (entries[i].dst.lo == x || entries[i].dst.hi == x)
    {
      EndpointsMembers(entries, x);
    }
  }

  predicate Spanning(e: Entry, at: Span) {
    e.dst.lo <= at.lo && at.hi <= e.dst.hi
  }

  /** The entries covering an elementary interval, in record order. */
  function Covering(entries: seq<Entry>, at: Span): seq<Entry> {
    if entries == [] then []
    else (if Spanning(entries[0], at) then [entries[0]] else []) + Covering(entries[1..], at)
  }

  lemma {:induction false} CoveringMembers(entries: seq<Entry>, at: Span)
    ensures forall e :: e in Covering(entries, at) <==> e in entries && Spanning(e, at)
  {
    if entries != [] {
      CoveringMembers(entries[1..], at);
    }
  }

  ghost predicate Uniform(entries: seq<Entry>, at: Span) {
    forall e, f :: e in Covering(entries, at) && f in Covering(entries, at) ==> e.dst == f.dst
  }

  function Elementary(bounds: seq<int>, k: nat): Span
    requires k + 1 < |bounds|
  {
    Span(bounds[k], bounds[k + 1])
  }

  /** One elementary interval: each coverer is compared with the first only. */
  method CheckInterval(entries: seq<Entry>, at: Span) returns (clash: Option<(Entry, Entry)>)
    ensures clash.None? <==> Uniform(entries, at)
    ensures clash.Some? ==>
      && clash.value.0 in Covering(entries, at) && clash.value.1 in Covering(entries, at)
      && clash.value.0.dst != clash.value.1.dst
  {
    var covering := Covering(entries, at);
    if |covering| >= 2 {
      var first := covering[0];
      for n := 1 to |covering|
        invariant forall m :: 0 <= m < n ==> covering[m].dst == first.dst
      {
        if covering[n].dst != first.dst {
          return Some((first, covering[n]));
        }
      }
    }
    clash := None;
  }

  /** Sweeps the elementary intervals; passes exactly when overlap is only by exact replicas. */
  method CheckOverlap(lid: string, entries: seq<Entry>) returns (r: Outcome<Refusal>)
    requires forall i :: 0 <= i < |entries| ==> entries[i].dst.lo < entries[i].dst.hi
    ensures r.Pass? <==> ExactReplicas(entries)
    ensures r.Refuse? ==>
      && r.reason.PartialOverlap? && r.reason.lid == lid
      && r.reason.first in entries && r.reason.other in entries
      && r.reason.first.dst != r.reason.other.dst && r.reason.at.lo < r.reason.at.hi
      && Spanning(r.reason.first, r.reason.at) && Spanning(r.reason.other, r.reason.at)
  {
    var bounds := Bounds(entries);
    BoundsFacts(entries);
    var k := 0;
    while k + 1 < |bounds|
      invariant 0 <= k
      invariant forall m :: 0 <= m < k && m + 1 < |bounds| ==> Uniform(entries, Elementary(bounds, m))
    {
      var at := Elementary(bounds, k);
      var clash := CheckInterval(entries, at);
      if clash.Some? {
        CoveringMembers(entries, at);
        OverlapWitness(entries, clash.value.0, clash.value.1, at);
        return Refuse(PartialOverlap(lid, at, clash.value.0, clash.value.1));
      }
      k := k + 1;
    }
    SweepIsComplete(entries);
    r := Pass;
  }

  lemma OverlapWitness(entries: seq<Entry>, e: Entry, f: Entry, at: Span)
    requires e in entries && f in entries && e.dst != f.dst
    requires at.lo < at.hi && Spanning(e, at) && Spanning(f, at)
    ensures !ExactReplicas(entries)
  {
    var i :| 0 <= i < |entries| && entries[i] == e;
    var j :| 0 <= j < |entries| && entries[j] == f;
    assert Covers(entries[i].dst, at.lo) && Covers(entries[j].dst, at.lo);
  }

  /** Every byte between two bounds lies in one elementary interval. */
  lemma ElementaryAround(bounds: seq<int>, lo: nat, hi: nat, b: int) returns (k: nat)
    requires Increasing(bounds) && lo < hi < |bounds|
    requires bounds[lo] <= b < bounds[hi]
    ensures lo <= k < hi && Covers(Elementary(bounds, k), b)
  {
    k := lo;
    while b >= bounds[k + 1]
      invariant lo <= k < hi && bounds[k] <= b
      decreases hi - k
    {
      k := k + 1;
    }
  }

  /** Where an entry's endpoints stand among the bounds. */
  lemma EndpointsAt(entries: seq<Entry>, i: nat) returns (lo: nat, hi: nat)
    requires i < |entries|
    ensures Increasing(Bounds(entries)) && lo < |Bounds(entries)| && hi < |Bounds(entries)|
    ensures Bounds(entries)[lo] == entries[i].dst.lo && Bounds(entries)[hi] == entries[i].dst.hi
  {
    BoundsFacts(entries);
    lo :| 0 <= lo < |Bounds(entries)| && Bounds(entries)[lo] == entries[i].dst.lo;
    hi :| 0 <= hi < |Bounds(entries)| && Bounds(entries)[hi] == entries[i].dst.hi;
  }

  /** An interval between neighbouring bounds that meets an entry is spanned by it. */
  lemma MeetsSpans(entries: seq<Entry>, i: nat, k: nat, b: int)
    requires i < |entries| && k + 1 < |Bounds(entries)|
    requires Covers(entries[i].dst, b) && Covers(Elementary(Bounds(entries), k), b)
    ensures Spanning(entries[i], Elementary(Bounds(entries), k))
  {
    var lo, hi := EndpointsAt(entries, i);
    assert lo <= k;
    assert k + 1 <= hi;
  }

  /** A covered byte lies in some elementary interval. */
  lemma CoveredElementary(entries: seq<Entry>, i: nat, b: int) returns (k: nat)
    requires i < |entries| && Covers(entries[i].dst, b)
    ensures k + 1 < |Bounds(entries)| && Covers(Elementary(Bounds(entries), k), b)
  {
    var lo, hi := EndpointsAt(entries, i);
    assert lo < hi;
    k := ElementaryAround(Bounds(entries), lo, hi, b);
  }

  lemma SweepIsComplete(entries: seq<Entry>)
    requires forall m :: 0 <= m && m + 1 < |Bounds(entries)| ==> Uniform(entries, Elementary(Bounds(entries), m))
    ensures ExactReplicas(entries)
  {
    forall i, j, b | 0 <= i < |entries| && 0 <= j < |entries| &&
      Covers(entries[i].dst, b) && Covers(entries[j].dst, b)
      ensures entries[i].dst == entries[j].dst
    {
      var k := CoveredElementary(entries, i, b);
      var at := Elementary(Bounds(entries), k);
      MeetsSpans(entries, i, k, b);
      MeetsSpans(entries, j, k, b);
      CoveringMembers(entries, at);
      assert entries[i] in Covering(entries, at) && entries[j] in Covering(entries, at);
      assert Uniform(entries, at);
    }
  }

  // ---------------------------------------------------------------- the replica certificate

  /** The entries of one span, in order. */
  function OfSpan(entries: seq<Entry>, s: Span): seq<Entry> {
    if entries == [] then []
    else
      var last := entries[|entries| - 1];
      OfSpan(entries[..|entries| - 1], s) + if last.dst == s then [last] else []
  }

  lemma {:induction false} OfSpanMembers(entries: seq<Entry>, s: Span)
    ensures forall e :: e in OfSpan(entries, s) <==> e in entries && e.dst == s
  {
    if entries != [] {
      OfSpanMembers(entries[..|entries| - 1], s);
      assert entries == entries[..|entries| - 1] + [entries[|entries| - 1]];
    }
  }

  /** The `by_span` grouping: under each span in use, its entries in order. */
  ghost predicate Grouped(entries: seq<Entry>, bySpan: map<Span, seq<Entry>>) {
    && (forall s :: s in bySpan <==> OfSpan(entries, s) != [])
    && (forall s :: s in bySpan ==> bySpan[s] == OfSpan(entries, s))
  }

  lemma GroupOneEntry(entries: seq<Entry>, bySpan: map<Span, seq<Entry>>, e: Entry)
    requires Grouped(entries, bySpan)
    ensures Grouped(entries + [e], bySpan[e.dst := (if e.dst in bySpan then bySpan[e.dst] else []) + [e]])
  {
    assert (entries + [e])[..|entries|] == entries;
  }

  method GroupBySpan(entries: seq<Entry>) returns (bySpan: map<Span, seq<Entry>>)
    ensures Grouped(entries, bySpan)
  {
    bySpan := map[];
    for i := 0 to |entries|
      invariant Grouped(entries[..i], bySpan)
    {
      var e := entries[i];
      GroupOneEntry(entries[..i], bySpan, e);
      assert entries[..i + 1] == entries[..i] + [e];
      var twins := if e.dst in bySpan then bySpan[e.dst] else [];
      bySpan := bySpan[e.dst := twins + [e]];
    }
    assert entries[..|entries|] == entries;
  }

  ghost predicate SameHashes(twins: seq<Entry>) {
    forall e, f :: e in twins && f in twins ==> e.hash == f.hash
  }

  /** Compares the hash of each replica with the first's; returns the first that differs. */
  method CheckTwins(twins: seq<Entry>) returns (drifted: Option<Entry>)
    requires twins != []
    ensures drifted.None? ==> SameHashes(twins)
    ensures drifted.Some? ==> exists n | 0 <= n < |twins| ::
      && drifted.value == twins[n] && twins[n].hash != twins[0].hash
      && forall m :: 0 <= m < n ==> twins[m].hash == twins[0].hash
  {
    for n := 1 to |twins|
      invariant forall m :: 0 <= m < n ==> twins[m].hash == twins[0].hash
    {
      if twins[n].hash != twins[0].hash {
        return Some(twins[n]);
      }
    }
    drifted := None;
  }

  method CheckReplicaHashes(lid: string, entries: seq<Entry>) returns (r: Outcome<Refusal>)
    ensures r.Pass? <==> HashesAgree(entries)
    ensures r.Refuse? ==>
      && r.reason.ReplicaDrift? && r.reason.lid == lid
      && r.reason.first in entries && r.reason.other in entries
      && r.reason.first.dst == r.reason.other.dst && r.reason.first.hash != r.reason.other.hash
  {
    var bySpan := GroupBySpan(entries);
    var todo := bySpan.Keys;
    while todo != {}
      invariant todo <= bySpan.Keys
      invariant forall s | s in bySpan && s !in todo :: SameHashes(bySpan[s])
      decreases |todo|
    {
      var span :| span in todo;
      var first := bySpan[span][0];
      var drifted := CheckTwins(bySpan[span]);
      if drifted.Some? {
        OfSpanMembers(entries, span);
        DriftWitness(entries, first, drifted.value);
        return Refuse(ReplicaDrift(lid, first, drifted.value));
      }
      todo := todo - {span};
    }
    forall i, j | 0 <= i < |entries| && 0 <= j < |entries| && entries[i].dst == entries[j].dst
      ensures entries[i].hash == entries[j].hash
    {
      OfSpanMembers(entries, entries[i].dst);
      assert entries[i] in OfSpan(entries, entries[i].dst) && entries[j] in OfSpan(entries, entries[i].dst);
      assert SameHashes(bySpan[entries[i].dst]);
    }
    r := Pass;
  }

  lemma DriftWitness(entries: seq<Entry>, e: Entry, f: Entry)
    requires e in entries && f in entries && e.dst == f.dst && e.hash != f.hash
    ensures !HashesAgree(entries)
  {
    var i :| 0 <= i < |entries| && entries[i] == e;
    var j :| 0 <= j < |entries| && entries[j] == f;
    assert entries[i].dst == entries[j].dst;
  }

  // ---------------------------------------------------------------- element alignment

  method CheckElementBoundary(lid: string, endpoint: int, fields: seq<Field>) returns (r: Outcome<Refusal>)
    ensures r.Pass? <==> EndpointOk(endpoint, fields)
  {
    for k := 0 to |fields|
      invariant forall j :: 0 <= j < k ==> !Touches(fields[j], endpoint)
    {
      var f := fields[k];
      if Touches(f, endpoint) {
        if f.dtype.Unlisted? {
          return Refuse(UnknownDtype(lid, f));
        }
        if (endpoint - f.offset) % ElementBytes(f.dtype) != 0 {
          return Refuse(SplitsElement(lid, endpoint, f));
        }
        return Pass;
      }
    }
    r := Refuse(OutsideFields(lid, endpoint));
  }

  method CheckAlignment(lid: string, entries: seq<Entry>, fields: seq<Field>) returns (r: Outcome<Refusal>)
    ensures r.Pass? <==> Aligned(entries, fields)
  {
    for i := 0 to |entries|
      invariant forall j :: 0 <= j < i ==>
        EndpointOk(entries[j].dst.lo, fields) && EndpointOk(entries[j].dst.hi, fields)
    {
      r := CheckElementBoundary(lid, entries[i].dst.lo, fields);
      if r.Refuse? {
        return;
      }
      r := CheckElementBoundary(lid, entries[i].dst.hi, fields);
      if r.Refuse? {
        return;
      }
    }
    r := Pass;
  }

  // ---------------------------------------------------------------- total validation

  method CheckObject(lid: string, total: int, entries: seq<Entry>, snapshots: seq<Snapshot>)
    returns (r: Outcome<Refusal>)
    ensures r.Pass? <==> ObjectValid(lid, total, entries, snapshots)
  {
    r := CheckEntryShapes(lid, total, entries, snapshots);
    if r.Refuse? {
      return;
    }
    r := CheckCoverage(lid, total, entries);
    if r.Refuse? {
      return;
    }
    r := CheckOverlap(lid, entries);
    if r.Refuse? {
      return;
    }
    r := CheckReplicaHashes(lid, entries);
  }

  method CheckLogical(record: Record, lid: string, schemas: map<string, seq<Field>>, digest: seq<Field> -> Digest)
    returns (r: Outcome<Refusal>)
    requires lid in record.logical
    ensures r.Pass? <==> LogicalValid(record, lid, schemas, digest)
  {
    r := CheckObject(lid, record.logical[lid].bytes, EntriesOf(record, lid), record.snapshots);
    if r.Pass? && lid in schemas {
      if record.logical[lid].schemaDigest != Some(digest(schemas[lid])) {
        return Refuse(DigestMismatch(lid));
      }
      r := CheckAlignment(lid, EntriesOf(record, lid), schemas[lid]);
    }
  }

  /** Total validation. `schemas` is empty for the reader, which has none. */
  method ValidateRecord(record: Record, schemas: map<string, seq<Field>>, digest: seq<Field> -> Digest)
    returns (r: Outcome<Refusal>)
    ensures r.Pass? <==> RecordValid(record, schemas, digest)
  {
    if record.schema != RECORD_SCHEMA {
      return Refuse(ForeignSchema(record.schema));
    }
    var unknown := record.slices.Keys - record.logical.Keys;
    if unknown != {} {
      var lid :| lid in unknown;
      return Refuse(UnknownObject(lid));
    }
    var todo := record.logical.Keys;
    while todo != {}
      invariant todo <= record.logical.Keys
      invariant forall lid :: lid in record.logical && lid !in todo ==> LogicalValid(record, lid, schemas, digest)
      decreases |todo|
    {
      var lid :| lid in todo;
      r := CheckLogical(record, lid, schemas, digest);
      if r.Refuse? {
        return;
      }
      todo := todo - {lid};
    }
    r := Pass;
  }

  /** What a reader finds at the record's final name. */
  method ReadRecord(file: Option<Record>, digest: seq<Field> -> Digest) returns (r: Result<Record, Refusal>)
    ensures r.Ok? <==> file.Some? && RecordValid(file.value, map[], digest)
    ensures r.Ok? ==> r.value == file.value
    ensures file.None? ==> r == Err(Incomplete)
  {
    if file.None? {
      return Err(Incomplete);
    }
    var doc := file.value;
    if doc.schema != RECORD_SCHEMA {
      return Err(ForeignSchema(doc.schema));
    }
    var v := ValidateRecord(doc, map[], digest);
    r := if v.Refuse? then Err(v.reason) else Ok(doc);
  }
}
