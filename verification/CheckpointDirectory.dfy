/** A snapshot directory (src/dataflow/service/handlers_snapshot.py): a payload file that holds the
    slices at aligned offsets, and a marker that lists them and lands by a rename. Several jobs may
    write one directory, each truncating the file when it starts. */
module CheckpointDirectory {
  import opened Wrappers
  import opened CheckpointRecord
  import opened CheckpointReassembly
  import opened CheckpointSave

  const ALIGN := 4096

  function AlignUp(n: nat): (m: nat)
    ensures n <= m < n + 4096 && m % 4096 == 0
  {
    (n + ALIGN - 1) / ALIGN * ALIGN
  }

  // ---------------------------------------------------------------- one job's payload file

  /** The payload file of a job that has the directory to itself. */
  function File(slices: seq<Slice>): seq<byte> {
    if slices == [] then []
    else
      var before := File(slices[..|slices| - 1]);
      before + Zeros(AlignUp(|before|) - |before|) + slices[|slices| - 1].bytes
  }

  /** Where slice `k` is planned: behind the slices before it, aligned. */
  function OffsetOf(slices: seq<Slice>, k: nat): nat
    requires k <= |slices|
  {
    AlignUp(|File(slices[..k])|)
  }

  predicate Inside(slices: seq<Slice>, k: nat, x: int) {
    k < |slices| && OffsetOf(slices, k) <= x < OffsetOf(slices, k) + |slices[k].bytes|
  }

  function ByteAt(slices: seq<Slice>, k: nat, x: int): byte
    requires Inside(slices, k, x)
  {
    slices[k].bytes[x - OffsetOf(slices, k)]
  }

  lemma InsidePrefix(slices: seq<Slice>, n: nat, k: nat, x: int)
    requires k < n <= |slices|
    ensures Inside(slices[..n], k, x) <==> Inside(slices, k, x)
    ensures Inside(slices, k, x) ==> ByteAt(slices[..n], k, x) == ByteAt(slices, k, x)
  {
    assert slices[..n][..k] == slices[..k];
  }

  /** A file holds every slice at its offset... */
  lemma {:induction false} FileByte(slices: seq<Slice>, k: nat, x: int)
    requires Inside(slices, k, x)
    ensures x < |File(slices)| && File(slices)[x] == ByteAt(slices, k, x)
  {
    var n := |slices| - 1;
    if k < n {
      InsidePrefix(slices, n, k, x);
      FileByte(slices[..n], k, x);
    }
  }

  /** ... and zeros between them. */
  lemma {:induction false} FileHole(slices: seq<Slice>, x: int)
    requires 0 <= x < |File(slices)| && forall k: nat :: !Inside(slices, k, x)
    ensures File(slices)[x] == 0
  {
    var n := |slices| - 1;
    if x < |File(slices[..n])| {
      forall k: nat ensures !Inside(slices[..n], k, x) {
        if k < n {
          InsidePrefix(slices, n, k, x);
        }
      }
      FileHole(slices[..n], x);
    } else {
      assert !Inside(slices, n, x);
    }
  }

  /** Slices as the engine cuts them: none is empty, and each has the length of its ranges. */
  ghost predicate Sized(slices: seq<Slice>) {
    forall k :: 0 <= k < |slices| ==> SizedSlice(slices[k])
  }

  predicate SizedSlice(s: Slice) {
    0 <= s.src.lo < s.src.hi && s.dst.hi - s.dst.lo == s.src.hi - s.src.lo == |s.bytes|
  }

  lemma SegmentsSized(resident: Resident, wires: seq<Wire>)
    requires Fits(resident, wires)
    ensures Sized(Segments(resident, wires))
  {
    forall k | 0 <= k < |wires| ensures SizedSlice(Segments(resident, wires)[k]) {
      assert WireFits(resident, wires[k]);
    }
  }

  /** The last byte of a file is the last byte of its last slice. */
  lemma FileEnd(slices: seq<Slice>)
    requires slices != [] && Sized(slices)
    ensures |File(slices)| > 0 && Inside(slices, |slices| - 1, |File(slices)| - 1)
  {
    assert SizedSlice(slices[|slices| - 1]);
  }

  // ---------------------------------------------------------------- reading a directory

  /** A slice as the marker lists it. */
  datatype Line = Line(id: string, src: Span, lid: string, dst: Span, offset: nat, hash: Digest)

  datatype Dir = Dir(payload: seq<byte>, tmp: Option<seq<Line>>, marker: Option<seq<Line>>)

  function LineAt(hash: Hash, slices: seq<Slice>, k: nat): Line
    requires k < |slices|
  {
    var s := slices[k];
    Line(s.id, s.src, s.lid, s.dst, OffsetOf(slices, k), hash(s.bytes))
  }

  /** The marker a job writes. */
  function MarkerOf(hash: Hash, slices: seq<Slice>): (marker: seq<Line>)
    ensures |marker| == |slices| && forall k :: 0 <= k < |slices| ==> marker[k] == LineAt(hash, slices, k)
  {
    seq(|slices|, k requires 0 <= k < |slices| => LineAt(hash, slices, k))
  }

  /** The bytes of a file in a range, short at its end. */
  function Chunk(file: seq<byte>, at: nat, size: int): seq<byte> {
    if size <= 0 || |file| <= at then [] else if |file| < at + size then file[at..] else file[at..at + size]
  }

  function Read(payload: seq<byte>, l: Line): Slice {
    Slice(l.id, l.src, l.lid, l.dst, Chunk(payload, l.offset, l.src.hi - l.src.lo))
  }

  /** The listed slice can be read in full and has the listed hash. */
  ghost predicate Verifies(hash: Hash, payload: seq<byte>, l: Line) {
    SizedSlice(Read(payload, l)) && hash(Read(payload, l).bytes) == l.hash
  }

  /** The directory has landed and every slice it lists verifies. */
  ghost predicate Intact(hash: Hash, dir: Dir) {
    dir.marker.Some? && forall k {:trigger Verifies(hash, dir.payload, dir.marker.value[k])} ::
      0 <= k < |dir.marker.value| ==> Verifies(hash, dir.payload, dir.marker.value[k])
  }

  /** What a reader finds in the directory. */
  function Held(dir: Dir): (slices: seq<Slice>)
    ensures dir.marker.Some? ==> |slices| == |dir.marker.value|
  {
    if dir.marker.None? then []
    else seq(|dir.marker.value|, k requires 0 <= k < |dir.marker.value| => Read(dir.payload, dir.marker.value[k]))
  }

  lemma ReadsBack(hash: Hash, slices: seq<Slice>, file: seq<byte>, k: nat)
    requires k < |slices| && SizedSlice(slices[k])
    requires forall x :: Inside(slices, k, x) ==> x < |file| && file[x] == ByteAt(slices, k, x)
    ensures Read(file, LineAt(hash, slices, k)) == slices[k]
  {
    var at, bytes := OffsetOf(slices, k), slices[k].bytes;
    assert Inside(slices, k, at + |bytes| - 1);
    forall d | 0 <= d < |bytes| ensures file[at..at + |bytes|][d] == bytes[d] {
      assert Inside(slices, k, at + d);
    }
  }

  /** A job that has the directory to itself leaves what it streamed. */
  lemma SoleIsIntact(hash: Hash, slices: seq<Slice>, dir: Dir)
    requires Sized(slices) && dir.payload == File(slices) && dir.marker == Some(MarkerOf(hash, slices))
    ensures Intact(hash, dir) && Held(dir) == slices
  {
    forall k | 0 <= k < |slices| ensures Read(dir.payload, dir.marker.value[k]) == slices[k] {
      forall x | Inside(slices, k, x) ensures x < |dir.payload| && dir.payload[x] == ByteAt(slices, k, x) {
        FileByte(slices, k, x);
      }
      ReadsBack(hash, slices, dir.payload, k);
    }
  }

  // ---------------------------------------------------------------- whose file a marker can read

  /** The file holds these slices at their offsets. */
  ghost predicate HoldsAll(file: seq<byte>, slices: seq<Slice>) {
    forall k: nat, x :: Inside(slices, k, x) ==> x < |file| && file[x] == ByteAt(slices, k, x)
  }

  /** With hashes that identify bytes, a marker verifies only on a file that holds its slices. */
  lemma IntactHoldsAll(hash: Hash, slices: seq<Slice>, dir: Dir)
    requires Injective(hash) && dir.marker == Some(MarkerOf(hash, slices)) && Intact(hash, dir) && Sized(slices)
    ensures HoldsAll(dir.payload, slices)
  {
    forall k: nat, x | Inside(slices, k, x) ensures x < |dir.payload| && dir.payload[x] == ByteAt(slices, k, x) {
      assert Verifies(hash, dir.payload, dir.marker.value[k]) && SizedSlice(slices[k]);
      var at, bytes := OffsetOf(slices, k), slices[k].bytes;
      assert Chunk(dir.payload, at, |bytes|) == bytes;
      assert dir.payload[at..at + |bytes|][x - at] == bytes[x - at];
    }
  }

  lemma HoldsAllIsLonger(a: seq<Slice>, b: seq<Slice>)
    requires HoldsAll(File(a), b) && b != [] && Sized(b)
    ensures |File(b)| <= |File(a)|
  {
    FileEnd(b);
  }

  /** Two jobs whose files hold each other's slices write the same file. */
  lemma HoldEachOther(a: seq<Slice>, b: seq<Slice>)
    requires a != [] && b != [] && Sized(a) && Sized(b) && HoldsAll(File(a), b) && HoldsAll(File(b), a)
    ensures File(a) == File(b)
  {
    HoldsAllIsLonger(a, b);
    HoldsAllIsLonger(b, a);
    forall x | 0 <= x < |File(a)| ensures File(a)[x] == File(b)[x] {
      if k: nat :| Inside(a, k, x) {
        FileByte(a, k, x);
      } else if k: nat :| Inside(b, k, x) {
        FileByte(b, k, x);
      } else {
        FileHole(a, x);
        FileHole(b, x);
      }
    }
  }

  // ---------------------------------------------------------------- several jobs in one file

  /** A write at an offset; behind the end it leaves a hole of zeros. */
  function WriteAt(file: seq<byte>, at: nat, bytes: seq<byte>): seq<byte> {
    var padded := if |file| < at then file + Zeros(at - |file|) else file;
    padded[..at] + bytes + if at + |bytes| < |padded| then padded[at + |bytes|..] else []
  }

  lemma WriteAtByte(file: seq<byte>, at: nat, bytes: seq<byte>, x: nat)
    ensures |WriteAt(file, at, bytes)| == if |file| < at + |bytes| then at + |bytes| else |file|
    ensures x < |WriteAt(file, at, bytes)| ==>
      WriteAt(file, at, bytes)[x] ==
        if at <= x < at + |bytes| then bytes[x - at] else if x < |file| then file[x] else 0
  {
  }

  /** The writes of a job that is not disturbed build its file. */
  lemma FileGrows(slices: seq<Slice>, n: nat)
    requires n < |slices|
    ensures WriteAt(File(slices[..n]), OffsetOf(slices, n), slices[n].bytes) == File(slices[..n + 1])
  {
    assert slices[..n + 1][..n] == slices[..n];
  }

  /** A job under way: its slices, and how many it has written. */
  datatype Part = Part(slices: seq<Slice>, next: nat)

  ghost predicate WroteBy(part: Part, k: nat, x: int, b: byte) {
    k < part.next && Inside(part.slices, k, x) && ByteAt(part.slices, k, x) == b
  }

  /** Some job has written this byte at this place. */
  ghost predicate From(parts: set<Part>, x: int, b: byte) {
    exists part, k: nat :: part in parts && WroteBy(part, k, x, b)
  }

  /** At every place a job has written, some job's byte stands. */
  ghost predicate Stands(parts: set<Part>, payload: seq<byte>, part: Part) {
    forall k: nat, x :: k < part.next && Inside(part.slices, k, x) ==> x < |payload| && From(parts, x, payload[x])
  }

  /** What the payload file can be: bytes of the jobs that write it and zeros, ending in a written
      byte, and whole where the job that truncated it last has written. */
  ghost predicate Overlay(parts: set<Part>, payload: seq<byte>) {
    && (forall x :: 0 <= x < |payload| ==> payload[x] == 0 || From(parts, x, payload[x]))
    && (payload != [] ==> From(parts, |payload| - 1, payload[|payload| - 1]))
    && (exists part :: part in parts && Stands(parts, payload, part))
  }

  /** Jobs go on writing. */
  ghost predicate Grows(parts: set<Part>, parts': set<Part>) {
    forall part :: part in parts ==> Goes(part, parts')
  }

  ghost predicate Goes(part: Part, parts: set<Part>) {
    exists n: nat :: n >= part.next && Part(part.slices, n) in parts
  }

  lemma FromGrows(parts: set<Part>, parts': set<Part>, x: int, b: byte)
    requires Grows(parts, parts') && From(parts, x, b)
    ensures From(parts', x, b)
  {
    var part, k: nat :| part in parts && WroteBy(part, k, x, b);
    assert Goes(part, parts');
    var n: nat :| n >= part.next && Part(part.slices, n) in parts';
    assert WroteBy(Part(part.slices, n), k, x, b);
  }

  lemma OverlayStarts(parts: set<Part>, slices: seq<Slice>)
    requires Part(slices, 0) in parts
    ensures Overlay(parts, [])
  {
    assert Stands(parts, [], Part(slices, 0));
  }

  /** A job that lands its marker leaves the payload file alone. */
  lemma OverlayStays(parts: set<Part>, parts': set<Part>, payload: seq<byte>)
    requires Overlay(parts, payload) && parts <= parts'
    ensures Overlay(parts', payload)
  {
    forall part | part in parts ensures Goes(part, parts') {
      assert Part(part.slices, part.next) in parts';
    }
    forall x | 0 <= x < |payload| && From(parts, x, payload[x]) ensures From(parts', x, payload[x]) {
      FromGrows(parts, parts', x, payload[x]);
    }
    var part :| part in parts && Stands(parts, payload, part);
    assert Stands(parts', payload, part);
  }

  /** One write: what stood still stands, or the new byte does. */
  lemma WriteKeepsByte(parts: set<Part>, parts': set<Part>, payload: seq<byte>, slices: seq<Slice>, n: nat, x: nat)
    requires Grows(parts, parts') && n < |slices| && Part(slices, n + 1) in parts'
    ensures var after := WriteAt(payload, OffsetOf(slices, n), slices[n].bytes);
      && (Inside(slices, n, x) ==> x < |after| && From(parts', x, after[x]))
      && (x < |payload| && From(parts, x, payload[x]) ==> x < |after| && From(parts', x, after[x]))
      && (x < |after| && !Inside(slices, n, x) && x < |payload| ==> after[x] == payload[x])
      && (x < |after| && !Inside(slices, n, x) && x >= |payload| ==> after[x] == 0)
  {
    var after := WriteAt(payload, OffsetOf(slices, n), slices[n].bytes);
    WriteAtByte(payload, OffsetOf(slices, n), slices[n].bytes, x);
    if Inside(slices, n, x) {
      assert WroteBy(Part(slices, n + 1), n, x, after[x]);
    } else if x < |payload| && From(parts, x, payload[x]) {
      FromGrows(parts, parts', x, payload[x]);
    }
  }

  lemma WriteStands(
    parts: set<Part>, parts': set<Part>, payload: seq<byte>, slices: seq<Slice>, n: nat, part: Part, after: seq<byte>)
    requires Grows(parts, parts') && n < |slices| && Part(slices, n + 1) in parts'
    requires after == WriteAt(payload, OffsetOf(slices, n), slices[n].bytes) && Stands(parts, payload, part)
    ensures Stands(parts', after, part)
    ensures part == Part(slices, n) ==> Stands(parts', after, Part(slices, n + 1))
  {
    forall k: nat, x | k < |part.slices| && k < part.next && Inside(part.slices, k, x)
      ensures x < |after| && From(parts', x, after[x])
    {
      WriteKeepsByte(parts, parts', payload, slices, n, x);
    }
    if part == Part(slices, n) {
      forall k: nat, x | k < n + 1 && Inside(slices, k, x) ensures x < |after| && From(parts', x, after[x]) {
        WriteKeepsByte(parts, parts', payload, slices, n, x);
      }
    }
  }

  /** A job writes its next slice. */
  lemma OverlayWrites(parts: set<Part>, parts': set<Part>, payload: seq<byte>, slices: seq<Slice>, n: nat)
    requires Overlay(parts, payload) && n < |slices| && SizedSlice(slices[n])
    requires Part(slices, n + 1) in parts' && parts - {Part(slices, n)} <= parts'
    ensures Overlay(parts', WriteAt(payload, OffsetOf(slices, n), slices[n].bytes))
  {
    var after := WriteAt(payload, OffsetOf(slices, n), slices[n].bytes);
    forall part | part in parts ensures Goes(part, parts') {
      assert part != Part(slices, n) ==> Part(part.slices, part.next) in parts';
      assert part == Part(slices, n) ==> Part(part.slices, n + 1) in parts';
    }
    forall x | 0 <= x < |after| ensures after[x] == 0 || From(parts', x, after[x]) {
      WriteKeepsByte(parts, parts', payload, slices, n, x);
    }
    WriteAtByte(payload, OffsetOf(slices, n), slices[n].bytes, |after| - 1);
    WriteKeepsByte(parts, parts', payload, slices, n, |after| - 1);
    var part :| part in parts && Stands(parts, payload, part);
    WriteStands(parts, parts', payload, slices, n, part, after);
    assert part in parts' || part == Part(slices, n);
  }

  /** All jobs of the directory have written the same file to the end. */
  ghost predicate AllWrote(parts: set<Part>, file: seq<byte>) {
    forall part :: part in parts ==>
      part.slices != [] && Sized(part.slices) && part.next == |part.slices| && File(part.slices) == file
  }

  lemma FromFile(parts: set<Part>, file: seq<byte>, x: int, b: byte)
    requires AllWrote(parts, file) && From(parts, x, b)
    ensures 0 <= x < |file| && file[x] == b
  {
    var part, k: nat :| part in parts && WroteBy(part, k, x, b);
    FileByte(part.slices, k, x);
  }

  /** Jobs that write the same file leave it, however their writes and truncations interleave. */
  lemma OverlayIsFile(parts: set<Part>, payload: seq<byte>, file: seq<byte>)
    requires Overlay(parts, payload) && AllWrote(parts, file)
    ensures payload == file
  {
    var part :| part in parts && Stands(parts, payload, part);
    var n := |part.slices|;
    FileEnd(part.slices);
    assert |file| <= |payload| by {
      assert Inside(part.slices, n - 1, |file| - 1);
    }
    FromFile(parts, file, |payload| - 1, payload[|payload| - 1]);
    forall x | 0 <= x < |file| ensures payload[x] == file[x] {
      if From(parts, x, payload[x]) {
        FromFile(parts, file, x, payload[x]);
      } else {
        forall k: nat ensures !Inside(part.slices, k, x) {
          assert Inside(part.slices, k, x) ==> k < part.next;
        }
        FileHole(part.slices, x);
      }
    }
  }
}
