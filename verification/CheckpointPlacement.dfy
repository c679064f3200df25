/** The engine's side of a restore (src/dataflow/service/handlers_snapshot.py): which remap plans it
    admits, and what the plans resolved from a record make it write. */
module CheckpointPlacement {
  import opened Wrappers
  import opened CheckpointRecord
  import opened CheckpointReassembly
  import opened CheckpointRestore
  import Sorting

  // ---------------------------------------------------------------- which remaps are admitted

  datatype RemapError =
    | LengthsDiffer(lid: string, window: Window)
    | OutsideLocal(lid: string, window: Window)
    | SizesDiffer(id: string, seen: int, window: Window)
    | Overlapping(lid: string)

  predicate InsideLocal(w: Window) {
    0 <= w.local.lo < w.local.hi <= w.bytes
  }

  /** Two windows share a byte of the logical object. */
  predicate Overlap(a: Window, b: Window) {
    a.logical.lo < b.logical.hi && b.logical.lo < a.logical.hi
  }

  ghost predicate NoOverlap(windows: seq<Window>) {
    forall j, k :: 0 <= j < k < |windows| ==> !Overlap(windows[j], windows[k])
  }

  ghost predicate WindowsOk(windows: seq<Window>) {
    forall k :: 0 <= k < |windows| ==> Wellformed(windows[k]) && InsideLocal(windows[k])
  }

  /** The first `n` windows. */
  ghost function First(windows: seq<Window>, n: nat): set<Window>
    requires n <= |windows|
  {
    set k | 0 <= k < n :: windows[k]
  }

  ghost function WindowSet(windows: seq<Window>): set<Window> {
    First(windows, |windows|)
  }

  /** Local targets that share an id have one size. */
  ghost predicate OneSize(windows: set<Window>) {
    forall a, b :: a in windows && b in windows && a.id == b.id ==> a.bytes == b.bytes
  }

  ghost function AllWindows(remap: map<string, seq<Window>>): set<Window> {
    set lid, k | lid in remap && 0 <= k < |remap[lid]| :: remap[lid][k]
  }

  /** A remap the engine admits. */
  ghost predicate Admissible(remap: map<string, seq<Window>>) {
    && (forall lid :: lid in remap ==> WindowsOk(remap[lid]) && NoOverlap(remap[lid]))
    && OneSize(AllWindows(remap))
  }

  ghost predicate AllAdmissible(steps: seq<PlanStep>) {
    forall i :: 0 <= i < |steps| ==> Admissible(steps[i].remap)
  }

  /** Windows overlap exactly where some byte is sent twice. */
  lemma {:induction false} OverlapCount(windows: seq<Window>)
    requires AllWellformed(windows)
    ensures NoOverlap(windows) <==> forall c :: Count(windows, c) <= 1
  {
    if NoOverlap(windows) {
      forall c ensures Count(windows, c) <= 1 {
        AtMostOnce(windows, c);
      }
    } else {
      var j, k :| 0 <= j < k < |windows| && Overlap(windows[j], windows[k]);
      assert Wellformed(windows[j]) && Wellformed(windows[k]);
      var c := if windows[j].logical.lo < windows[k].logical.lo then windows[k].logical.lo else windows[j].logical.lo;
      SentTwice(windows, j, k, c);
    }
  }

  lemma {:induction false} NeverSent(windows: seq<Window>, c: int)
    requires forall k :: 0 <= k < |windows| ==> !Covers(windows[k].logical, c)
    ensures Count(windows, c) == 0
  {
    if windows != [] {
      NeverSent(windows[..|windows| - 1], c);
    }
  }

  lemma {:induction false} AtMostOnce(windows: seq<Window>, c: int)
    requires AllWellformed(windows) && NoOverlap(windows)
    ensures Count(windows, c) <= 1
  {
    if windows != [] {
      var n := |windows| - 1;
      if Covers(windows[n].logical, c) {
        forall k | 0 <= k < n ensures !Covers(windows[..n][k].logical, c) {
          assert !Overlap(windows[k], windows[n]);
        }
        NeverSent(windows[..n], c);
      } else {
        AtMostOnce(windows[..n], c);
      }
    }
  }

  lemma {:induction false} SentOnce(windows: seq<Window>, k: nat, c: int)
    requires k < |windows| && Covers(windows[k].logical, c)
    ensures Count(windows, c) >= 1
  {
    if k < |windows| - 1 {
      SentOnce(windows[..|windows| - 1], k, c);
    }
  }

  lemma {:induction false} SentTwice(windows: seq<Window>, j: nat, k: nat, c: int)
    requires j < k < |windows| && Covers(windows[j].logical, c) && Covers(windows[k].logical, c)
    ensures Count(windows, c) >= 2
  {
    var n := |windows| - 1;
    if k < n {
      SentTwice(windows[..n], j, k, c);
    } else {
      SentOnce(windows[..n], j, c);
    }
  }

  // ---------------------------------------------------------------- the engine's check

  predicate InTurn(windows: seq<Window>, k: int) {
    0 <= k && k + 1 < |windows| ==> windows[k].logical.hi <= windows[k + 1].logical.lo
  }

  ghost predicate AllInTurn(windows: seq<Window>) {
    forall k :: InTurn(windows, k)
  }

  /** Sorted windows that overlap at all overlap next to each other. */
  lemma NeighboursOverlap(windows: seq<Window>)
    requires AllWellformed(windows) && Sorting.SortedBy(windows, WindowLe)
    ensures NoOverlap(windows) <==> AllInTurn(windows)
  {
    if AllInTurn(windows) {
      forall j, k | 0 <= j < k < |windows| ensures windows[j].logical.hi <= windows[k].logical.lo {
        InSuccession(windows, j, k);
      }
    } else {
      var k :| !InTurn(windows, k);
      assert WindowLe(windows[k], windows[k + 1]) && Wellformed(windows[k]) && Wellformed(windows[k + 1]);
      assert Overlap(windows[k], windows[k + 1]);
    }
  }

  lemma {:induction false} InSuccession(windows: seq<Window>, j: nat, k: nat)
    requires j < k < |windows| && AllWellformed(windows)
    requires AllInTurn(windows)
    ensures windows[j].logical.hi <= windows[k].logical.lo
    decreases k
  {
    if j < k - 1 {
      InSuccession(windows, j, k - 1);
      assert Wellformed(windows[k - 1]);
    }
    assert InTurn(windows, k - 1);
  }

  lemma SortedOverlap(windows: seq<Window>)
    requires AllWellformed(windows)
    ensures AllWellformed(Sorting.Sort(windows, WindowLe))
    ensures Sorting.SortedBy(Sorting.Sort(windows, WindowLe), WindowLe)
    ensures NoOverlap(Sorting.Sort(windows, WindowLe)) <==> NoOverlap(windows)
  {
    SortedWindows(windows);
    Sorting.SortSorted(windows, WindowLe);
    SameOverlap(Sorting.Sort(windows, WindowLe), windows);
  }

  lemma SameOverlap(a: seq<Window>, b: seq<Window>)
    requires SameCount(a, b) && AllWellformed(a) && AllWellformed(b)
    ensures NoOverlap(a) <==> NoOverlap(b)
  {
    OverlapCount(a);
    OverlapCount(b);
    if NoOverlap(a) {
      forall c ensures Count(b, c) <= 1 {
        assert Count(a, c) <= 1;
      }
    }
    if NoOverlap(b) {
      forall c ensures Count(a, c) <= 1 {
        assert Count(b, c) <= 1;
      }
    }
  }

  lemma SortShowsOverlap(windows: seq<Window>)
    requires AllWellformed(windows)
    ensures NoOverlap(windows) <==> AllInTurn(Sorting.Sort(windows, WindowLe))
  {
    SortedOverlap(windows);
    NeighboursOverlap(Sorting.Sort(windows, WindowLe));
  }

  /** The windows of one logical object: sort, then compare neighbours. */
  method CheckOverlaps(windows: seq<Window>) returns (ok: bool)
    requires AllWellformed(windows)
    ensures ok <==> NoOverlap(windows)
  {
    var sorted := Sorting.Sort(windows, WindowLe);
    SortShowsOverlap(windows);
    var k := 0;
    while k + 1 < |sorted|
      invariant k == 0 || 0 < k < |sorted|
      invariant forall m :: m < k ==> InTurn(sorted, m)
    {
      if sorted[k + 1].logical.lo < sorted[k].logical.hi {
        assert !InTurn(sorted, k) && !AllInTurn(sorted);
        return false;
      }
      k := k + 1;
    }
    assert AllInTurn(sorted);
    ok := true;
  }

  /** The sizes seen so far, by local id. */
  ghost predicate SizesSeen(sizes: map<string, int>, seen: set<Window>) {
    && (forall w :: w in seen ==> w.id in sizes && sizes[w.id] == w.bytes)
    && (forall id {:trigger SeenId(seen, id)} :: id in sizes ==> SeenId(seen, id))
  }

  ghost predicate SeenId(seen: set<Window>, id: string) {
    exists w :: w in seen && w.id == id
  }

  lemma SeenOneSize(sizes: map<string, int>, seen: set<Window>, w: Window)
    requires SizesSeen(sizes, seen)
    ensures OneSize(seen)
    ensures OneSize(seen + {w}) <==> (w.id in sizes ==> sizes[w.id] == w.bytes)
    ensures (w.id in sizes ==> sizes[w.id] == w.bytes) ==> SizesSeen(sizes[w.id := w.bytes], seen + {w})
  {
    if w.id in sizes {
      assert SeenId(seen, w.id);
      var v :| v in seen && v.id == w.id;
      assert v in seen + {w} && w in seen + {w};
    }
    var more := seen + {w};
    forall id | id in sizes || id == w.id ensures SeenId(more, id) {
      if id == w.id {
        assert w in more;
      } else {
        assert SeenId(seen, id);
        var v :| v in seen && v.id == id;
        assert v in more;
      }
    }
  }

  lemma MoreSizes(a: set<Window>, b: set<Window>)
    requires a <= b && OneSize(b)
    ensures OneSize(a)
  {
  }

  /** One turn of the inner loop: the window itself, then its size against those seen. */
  method CheckWindow(lid: string, w: Window, sizes: map<string, int>, ghost seen: set<Window>)
    returns (r: Outcome<RemapError>, more: map<string, int>)
    requires SizesSeen(sizes, seen)
    ensures r.Pass? <==> Wellformed(w) && InsideLocal(w) && OneSize(seen + {w})
    ensures r.Pass? ==> SizesSeen(more, seen + {w})
  {
    SeenOneSize(sizes, seen, w);
    more := sizes[w.id := w.bytes];
    if w.logical.lo >= w.logical.hi || w.logical.hi - w.logical.lo != w.local.hi - w.local.lo {
      r := Refuse(LengthsDiffer(lid, w));
    } else if !InsideLocal(w) {
      r := Refuse(OutsideLocal(lid, w));
    } else if w.id in sizes && sizes[w.id] != w.bytes {
      r := Refuse(SizesDiffer(w.id, sizes[w.id], w));
    } else {
      r := Pass;
    }
  }

  lemma OneWindowMore(seen: set<Window>, windows: seq<Window>, k: nat)
    requires k < |windows|
    ensures seen + First(windows, k + 1) == (seen + First(windows, k)) + {windows[k]}
    ensures seen + First(windows, k + 1) <= seen + WindowSet(windows)
  {
  }

  /** The window at hand breaks a rule, so the list does. */
  lemma BadWindow(seen: set<Window>, windows: seq<Window>, k: nat, next: set<Window>)
    requires k < |windows| && next == seen + First(windows, k + 1)
    requires !(Wellformed(windows[k]) && InsideLocal(windows[k]) && OneSize(next))
    ensures !(WindowsOk(windows) && OneSize(seen + WindowSet(windows)))
  {
    OneWindowMore(seen, windows, k);
    if OneSize(seen + WindowSet(windows)) {
      MoreSizes(next, seen + WindowSet(windows));
    }
  }

  /** The inner loop over the windows of one logical object. */
  method CheckWindows(lid: string, windows: seq<Window>, sizes: map<string, int>, ghost seen: set<Window>)
    returns (r: Outcome<RemapError>, more: map<string, int>)
    requires SizesSeen(sizes, seen)
    ensures r.Pass? <==> WindowsOk(windows) && OneSize(seen + WindowSet(windows))
    ensures r.Pass? ==> SizesSeen(more, seen + WindowSet(windows))
  {
    more := sizes;
    assert seen + First(windows, 0) == seen;
    for k := 0 to |windows|
      invariant SizesSeen(more, seen + First(windows, k))
      invariant forall j :: 0 <= j < k ==> Wellformed(windows[j]) && InsideLocal(windows[j])
    {
      OneWindowMore(seen, windows, k);
      r, more := CheckWindow(lid, windows[k], more, seen + First(windows, k));
      if r.Refuse? {
        BadWindow(seen, windows, k, seen + First(windows, k + 1));
        return;
      }
    }
    SeenIsOneSize(more, seen + WindowSet(windows));
    r := Pass;
  }

  /** The windows of one logical object: each on its own, then all of them for overlaps. */
  method CheckObject(lid: string, windows: seq<Window>, sizes: map<string, int>, ghost seen: set<Window>)
    returns (r: Outcome<RemapError>, more: map<string, int>)
    requires SizesSeen(sizes, seen)
    ensures r.Pass? <==> WindowsOk(windows) && NoOverlap(windows) && OneSize(seen + WindowSet(windows))
    ensures r.Pass? ==> SizesSeen(more, seen + WindowSet(windows))
  {
    r, more := CheckWindows(lid, windows, sizes, seen);
    if r.Pass? {
      var ok := CheckOverlaps(windows);
      if !ok {
        r := Refuse(Overlapping(lid));
      }
    }
  }

  lemma SeenIsOneSize(sizes: map<string, int>, seen: set<Window>)
    requires SizesSeen(sizes, seen)
    ensures OneSize(seen)
  {
  }

  /** The windows of the logical objects that are not left to do. */
  ghost function WindowsBut(remap: map<string, seq<Window>>, todo: set<string>): set<Window> {
    set lid, k | lid in remap && lid !in todo && 0 <= k < |remap[lid]| :: remap[lid][k]
  }

  lemma OneObjectLess(remap: map<string, seq<Window>>, todo: set<string>, lid: string)
    requires lid in todo && lid in remap
    ensures WindowsBut(remap, todo - {lid}) == WindowsBut(remap, todo) + WindowSet(remap[lid])
    ensures WindowsBut(remap, todo - {lid}) <= AllWindows(remap)
  {
    forall w | w in WindowsBut(remap, todo - {lid}) ensures w in WindowsBut(remap, todo) + WindowSet(remap[lid]) {
      var other, k :| other in remap && other !in todo - {lid} && 0 <= k < |remap[other]| && remap[other][k] == w;
      assert other != lid ==> other !in todo;
    }
  }

  /** The engine admits a remap exactly when its windows are well formed and lie in their targets, the
      windows of one logical object do not overlap, and targets that share an id agree on their size. */
  method ValidateRemap(remap: map<string, seq<Window>>) returns (r: Outcome<RemapError>)
    ensures r.Pass? <==> Admissible(remap)
  {
    var todo, sizes: map<string, int> := remap.Keys, map[];
    while todo != {}
      invariant todo <= remap.Keys && SizesSeen(sizes, WindowsBut(remap, todo))
      invariant forall lid :: lid in remap && lid !in todo ==> WindowsOk(remap[lid]) && NoOverlap(remap[lid])
      decreases |todo|
    {
      var lid :| lid in todo;
      OneObjectLess(remap, todo, lid);
      r, sizes := CheckObject(lid, remap[lid], sizes, WindowsBut(remap, todo));
      if r.Refuse? {
        if Admissible(remap) {
          MoreSizes(WindowsBut(remap, todo - {lid}), AllWindows(remap));
        }
        return;
      }
      todo := todo - {lid};
    }
    assert WindowsBut(remap, {}) == AllWindows(remap);
    SeenIsOneSize(sizes, AllWindows(remap));
    r := Pass;
  }

  // ---------------------------------------------------------------- which plans are admitted

  /** The window of a resolved plan sends bytes to their own places, inside the object. */
  ghost predicate Home(lid: string, total: int, w: Window) {
    && Wellformed(w) && w.id == lid && w.bytes == total && w.local == w.logical
    && 0 <= w.logical.lo && w.logical.hi <= total
  }

  lemma SourceInside(total: int, entries: seq<Entry>, c: int, s: int)
    requires InBounds(total, entries) && SourceOf(entries, c, s)
    ensures 0 <= c < total
  {
  }

  lemma PlanWindow(record: Record, ids: seq<string>, steps: seq<PlanStep>, i: nat, lid: string, k: nat)
    requires PlanExact(record, ids, steps) && i < |steps| && lid in steps[i].remap && k < |steps[i].remap[lid]|
    requires forall lid :: lid in record.logical ==> InBounds(record.logical[lid].bytes, EntriesOf(record, lid))
    ensures lid in record.logical && Home(lid, record.logical[lid].bytes, steps[i].remap[lid][k])
    ensures SourceOf(EntriesOf(record, lid), steps[i].remap[lid][k].logical.lo, steps[i].snapshot)
  {
    var w, s := steps[i].remap[lid][k], steps[i].snapshot;
    assert WindowsExact(record, ids, lid, s, steps[i].remap[lid]) && Wellformed(w);
    forall c | Covers(w.logical, c)
      ensures lid in record.logical && w.local.lo + (c - w.logical.lo) == c && w.id == lid
      ensures w.bytes == record.logical[lid].bytes && SourceOf(EntriesOf(record, lid), c, s) && 0 <= c < w.bytes
    {
      var x := w.local.lo + (c - w.logical.lo);
      assert Sends(w, c, x, w.id, w.bytes) && SendsAny(steps[i].remap[lid], c, x, w.id, w.bytes);
      assert PlanSends(steps, s, lid, c, x, w.id, w.bytes);
      SourceInside(record.logical[lid].bytes, EntriesOf(record, lid), c, s);
    }
    assert Covers(w.logical, w.logical.lo) && Covers(w.logical, w.logical.hi - 1);
  }

  lemma PlanOneSize(record: Record, ids: seq<string>, steps: seq<PlanStep>, i: nat)
    requires PlanExact(record, ids, steps) && i < |steps|
    requires forall lid :: lid in record.logical ==> InBounds(record.logical[lid].bytes, EntriesOf(record, lid))
    ensures OneSize(AllWindows(steps[i].remap))
    ensures forall lid :: lid in steps[i].remap ==> WindowsOk(steps[i].remap[lid])
  {
    var remap := steps[i].remap;
    forall lid, k | lid in remap && 0 <= k < |remap[lid]|
      ensures lid in record.logical && Home(lid, record.logical[lid].bytes, remap[lid][k])
    {
      PlanWindow(record, ids, steps, i, lid, k);
    }
    forall w | w in AllWindows(remap) ensures w.id in record.logical && w.bytes == record.logical[w.id].bytes {
      var lid, k :| lid in remap && 0 <= k < |remap[lid]| && remap[lid][k] == w;
    }
  }

  lemma RequestedTwiceOverlaps(entries: seq<Entry>, s: int, windows: seq<Window>, times: nat)
    requires SentOften(entries, s, windows, times) && AllWellformed(windows) && windows != []
    requires SourceOf(entries, windows[0].logical.lo, s)
    ensures NoOverlap(windows) <==> times <= 1
  {
    OverlapCount(windows);
    assert Count(windows, windows[0].logical.lo) == times;
    if times <= 1 {
      forall c ensures Count(windows, c) <= 1 {
        assert Count(windows, c) == if SourceOf(entries, c, s) then times else 0;
      }
    }
  }

  /** A step of a resolved plan is admitted exactly when it moves no object that was asked for twice. */
  lemma StepAdmittedExactly(record: Record, ids: seq<string>, steps: seq<PlanStep>, i: nat)
    requires PlanExact(record, ids, steps) && i < |steps|
    requires forall lid :: lid in record.logical ==> InBounds(record.logical[lid].bytes, EntriesOf(record, lid))
    ensures Admissible(steps[i].remap) <==> forall lid :: lid in steps[i].remap ==> multiset(ids)[lid] <= 1
  {
    var remap, s := steps[i].remap, steps[i].snapshot;
    PlanOneSize(record, ids, steps, i);
    forall lid | lid in remap ensures NoOverlap(remap[lid]) <==> multiset(ids)[lid] <= 1 {
      assert WindowsExact(record, ids, lid, s, remap[lid]);
      PlanWindow(record, ids, steps, i, lid, 0);
      RequestedTwiceOverlaps(EntriesOf(record, lid), s, remap[lid], multiset(ids)[lid]);
    }
  }

  /** A non-empty object is requested at most once. */
  ghost predicate OnceEach(record: Record, ids: seq<string>) {
    forall lid :: lid in ids && lid in record.logical && record.logical[lid].bytes > 0 ==> multiset(ids)[lid] == 1
  }

  lemma MovedIsRequested(record: Record, ids: seq<string>, steps: seq<PlanStep>, i: nat, lid: string)
    requires PlanExact(record, ids, steps) && i < |steps| && lid in steps[i].remap
    requires forall lid :: lid in record.logical ==> InBounds(record.logical[lid].bytes, EntriesOf(record, lid))
    ensures lid in ids && lid in record.logical && record.logical[lid].bytes > 0
  {
    assert WindowsExact(record, ids, lid, steps[i].snapshot, steps[i].remap[lid]);
    PlanWindow(record, ids, steps, i, lid, 0);
    var w := steps[i].remap[lid][0];
    assert Sends(w, w.logical.lo, w.logical.lo, lid, w.bytes);
    assert SendsAny(steps[i].remap[lid], w.logical.lo, w.logical.lo, lid, w.bytes);
    assert PlanSends(steps, steps[i].snapshot, lid, w.logical.lo, w.logical.lo, lid, w.bytes);
  }

  lemma RequestedIsMoved(record: Record, ids: seq<string>, steps: seq<PlanStep>, lid: string) returns (i: nat)
    requires PlanExact(record, ids, steps) && lid in ids && lid in record.logical && record.logical[lid].bytes > 0
    requires Complete(record.logical[lid].bytes, EntriesOf(record, lid))
    ensures i < |steps| && lid in steps[i].remap
  {
    var entries, total := EntriesOf(record, lid), record.logical[lid].bytes;
    assert CoveredBy(Spans(entries), 0);
    var e := SourceExists(entries, 0);
    assert PlanSends(steps, entries[e].snapshot, lid, 0, 0, lid, total);
    i :| 0 <= i < |steps| && lid in steps[i].remap;
  }

  /** The engine admits every step of a resolved plan exactly when no non-empty object was requested
      twice: a repeated target gives windows that overlap themselves. */
  lemma AdmittedExactly(record: Record, ids: seq<string>, steps: seq<PlanStep>, digest: seq<Field> -> Digest)
    requires RecordValid(record, map[], digest) && PlanExact(record, ids, steps)
    ensures AllAdmissible(steps) <==> OnceEach(record, ids)
  {
    forall lid | lid in record.logical
      ensures InBounds(record.logical[lid].bytes, EntriesOf(record, lid))
      ensures Complete(record.logical[lid].bytes, EntriesOf(record, lid))
    {
      assert LogicalValid(record, lid, map[], digest);
    }
    forall i | 0 <= i < |steps| ensures
      Admissible(steps[i].remap) <==> forall lid :: lid in steps[i].remap ==> multiset(ids)[lid] <= 1
    {
      StepAdmittedExactly(record, ids, steps, i);
    }
    if OnceEach(record, ids) {
      forall i, lid | 0 <= i < |steps| && lid in steps[i].remap ensures multiset(ids)[lid] <= 1 {
        MovedIsRequested(record, ids, steps, i, lid);
      }
    }
    if AllAdmissible(steps) {
      forall lid | lid in ids && lid in record.logical && record.logical[lid].bytes > 0
        ensures multiset(ids)[lid] == 1
      {
        var i := RequestedIsMoved(record, ids, steps, lid);
        assert Admissible(steps[i].remap) && lid in multiset(ids);
      }
    }
  }

  // ---------------------------------------------------------------- the restored bytes

  /** A step the engine admits sends byte `c` of the object from snapshot `s`. */
  ghost predicate StepSends(steps: seq<PlanStep>, s: int, lid: string, c: int, x: int, id: string, n: int) {
    exists i :: 0 <= i < |steps| && steps[i].snapshot == s && lid in steps[i].remap &&
      Admissible(steps[i].remap) && SendsAny(steps[i].remap[lid], c, x, id, n)
  }

  /** The engine's restore of a plan: each step it admits lays the bytes of every slice of the logical
      object that its snapshot holds, listed in the record or not, wherever the step's windows send
      them; a step it refuses writes nothing. */
  ghost predicate Writes(steps: seq<PlanStep>, lid: string, held: seq<seq<Slice>>, id: string, x: int, v: byte) {
    exists s, k, c, n | 0 <= s < |held| && 0 <= k < |held[s]| && Places(held[s][k], lid, c, v) ::
      StepSends(steps, s, lid, c, x, id, n)
  }

  lemma AdmittedSends(steps: seq<PlanStep>, s: int, lid: string, c: int, x: int, id: string, n: int)
    ensures StepSends(steps, s, lid, c, x, id, n) ==> PlanSends(steps, s, lid, c, x, id, n)
    ensures AllAdmissible(steps) && PlanSends(steps, s, lid, c, x, id, n) ==> StepSends(steps, s, lid, c, x, id, n)
  {
  }

  /** A slice holds byte `v` for place `c` of the logical object. */
  predicate Places(slice: Slice, lid: string, c: int, v: byte) {
    slice.lid == lid && Covers(slice.dst, c) && c - slice.dst.lo < |slice.bytes| && v == slice.bytes[c - slice.dst.lo]
  }

  /** Of an object that was requested twice, nothing is written. */
  lemma RepeatedTargetWritesNothing(
    record: Record, ids: seq<string>, steps: seq<PlanStep>, lid: string, held: seq<seq<Slice>>, id: string, x: int,
    v: byte)
    requires PlanExact(record, ids, steps) && multiset(ids)[lid] > 1
    requires forall lid :: lid in record.logical ==> InBounds(record.logical[lid].bytes, EntriesOf(record, lid))
    ensures !Writes(steps, lid, held, id, x, v)
  {
    forall i | 0 <= i < |steps| && lid in steps[i].remap ensures !Admissible(steps[i].remap) {
      StepAdmittedExactly(record, ids, steps, i);
    }
  }

  lemma SourceExists(entries: seq<Entry>, b: int) returns (i: nat)
    requires CoveredBy(Spans(entries), b)
    ensures i < |entries| && Covers(entries[i].dst, b) && SourceOf(entries, b, entries[i].snapshot)
  {
    var first :| 0 <= first < |entries| && Covers(Spans(entries)[first], b);
    i := first;
    for k := 0 to |entries|
      invariant 0 <= i < |entries| && Covers(entries[i].dst, b)
      invariant forall j :: 0 <= j < k && Covers(entries[j].dst, b) ==> entries[i].snapshot <= entries[j].snapshot
    {
      if Covers(entries[k].dst, b) && entries[k].snapshot < entries[i].snapshot {
        i := k;
      }
    }
  }

  /** The segment an entry names. */
  function Named(lid: string, e: Entry, store: Payloads): Slice
    requires KeyOf(lid, e) in store
  {
    Slice(Bare(lid), e.src, lid, e.dst, store[KeyOf(lid, e)])
  }

  /** The snapshots hold the payload of every listed slice. */
  ghost predicate Holds(lid: string, entries: seq<Entry>, store: Payloads, held: seq<seq<Slice>>)
    requires Stored(lid, entries, store)
  {
    forall i :: 0 <= i < |entries| ==>
      0 <= entries[i].snapshot < |held| && Named(lid, entries[i], store) in held[entries[i].snapshot]
  }

  /** The setting of the restore theorems: an accepted, certified object, its payloads in the
      snapshots, and a plan for it that the engine admits. */
  ghost predicate Restorable(
    record: Record, ids: seq<string>, steps: seq<PlanStep>, lid: string, store: Payloads, held: seq<seq<Slice>>,
    pick: seq<nat>)
  {
    && PlanExact(record, ids, steps) && AllAdmissible(steps) && lid in ids && lid in record.logical
    && var entries := EntriesOf(record, lid);
      && ObjectValid(lid, record.logical[lid].bytes, entries, record.snapshots) && Certified(entries)
      && Stored(lid, entries, store) && HashesIdentify(lid, entries, store) && Holds(lid, entries, store, held)
      && Picks(entries, Tiling(entries), pick)
  }

  /** The bytes of the object, as a reader's pick rebuilds them. */
  ghost function Rebuilt(record: Record, lid: string, store: Payloads, pick: seq<nat>): seq<byte>
    requires var entries := EntriesOf(record, lid);
      Stored(lid, entries, store) && Picks(entries, Tiling(entries), pick)
  {
    Reassemble(lid, EntriesOf(record, lid), Tiling(EntriesOf(record, lid)), pick, store)
  }

  /** Every byte of the object is written, with the byte that the reader's pick rebuilds. */
  lemma RestoreWritesAll(
    record: Record, ids: seq<string>, steps: seq<PlanStep>, lid: string, store: Payloads, held: seq<seq<Slice>>,
    pick: seq<nat>, x: int)
    requires Restorable(record, ids, steps, lid, store, held, pick)
    requires 0 <= x < record.logical[lid].bytes
    ensures var whole := Rebuilt(record, lid, store, pick);
      |whole| == record.logical[lid].bytes && Writes(steps, lid, held, lid, x, whole[x])
  {
    var entries, total := EntriesOf(record, lid), record.logical[lid].bytes;
    AnyReplicaRebuilds(lid, total, entries, record.snapshots, store, pick, pick);
    assert CoveredBy(Spans(entries), x);
    var i := SourceExists(entries, x);
    AnySliceHolds(lid, total, entries, record.snapshots, store, pick, i, x);
    var s := entries[i].snapshot;
    assert PlanSends(steps, s, lid, x, x, lid, total);
    AdmittedSends(steps, s, lid, x, x, lid, total);
    SliceIsWritten(steps, lid, held, s, Named(lid, entries[i], store), x, Rebuilt(record, lid, store, pick)[x], total);
  }

  lemma SliceIsWritten(
    steps: seq<PlanStep>, lid: string, held: seq<seq<Slice>>, s: int, slice: Slice, x: int, v: byte, total: int)
    requires 0 <= s < |held| && slice in held[s] && Places(slice, lid, x, v)
    requires StepSends(steps, s, lid, x, x, lid, total)
    ensures Writes(steps, lid, held, lid, x, v)
  {
    var k :| 0 <= k < |held[s]| && held[s][k] == slice;
    assert Places(held[s][k], lid, x, v);
  }

  /** Restoring writes the rebuilt bytes and nothing else. */
  ghost predicate WritesOnly(steps: seq<PlanStep>, lid: string, held: seq<seq<Slice>>, whole: seq<byte>) {
    forall id, x, v :: Writes(steps, lid, held, id, x, v) ==> id == lid && 0 <= x < |whole| && v == whole[x]
  }

  /** Wherever a snapshot is the source of a byte, every slice it holds of that byte has its value. */
  ghost predicate SourcesAgree(entries: seq<Entry>, lid: string, held: seq<seq<Slice>>, whole: seq<byte>) {
    forall s, k, c, v {:trigger Places(held[s][k], lid, c, v), SourceOf(entries, c, s)} |
      0 <= s < |held| && 0 <= k < |held[s]| && Places(held[s][k], lid, c, v) && SourceOf(entries, c, s) ::
        0 <= c < |whole| && v == whole[c]
  }

  /** A plan that the engine admits restores an object exactly, with no conflicting or stray write, if
      and only if no snapshot holds another slice that differs on a byte it is the source of: the engine
      places slices that the record does not list. */
  lemma RestoreWritesOnlyExactly(
    record: Record, ids: seq<string>, steps: seq<PlanStep>, lid: string, held: seq<seq<Slice>>, whole: seq<byte>)
    requires PlanExact(record, ids, steps) && AllAdmissible(steps) && lid in ids && lid in record.logical
    ensures WritesOnly(steps, lid, held, whole) <==> SourcesAgree(EntriesOf(record, lid), lid, held, whole)
  {
    var entries, total := EntriesOf(record, lid), record.logical[lid].bytes;
    if SourcesAgree(entries, lid, held, whole) {
      forall id, x, v | Writes(steps, lid, held, id, x, v) ensures id == lid && 0 <= x < |whole| && v == whole[x] {
        var s, k, c, n :| 0 <= s < |held| && 0 <= k < |held[s]| && Places(held[s][k], lid, c, v) &&
          StepSends(steps, s, lid, c, x, id, n);
        AdmittedSends(steps, s, lid, c, x, id, n);
        assert SourceOf(entries, c, s);
      }
    }
    if WritesOnly(steps, lid, held, whole) {
      forall s, k, c, v | 0 <= s < |held| && 0 <= k < |held[s]| && Places(held[s][k], lid, c, v) &&
        SourceOf(entries, c, s)
        ensures 0 <= c < |whole| && v == whole[c]
      {
        assert PlanSends(steps, s, lid, c, c, lid, total);
        AdmittedSends(steps, s, lid, c, c, lid, total);
        assert Writes(steps, lid, held, lid, c, v);
      }
    }
  }

  ghost predicate Listed(lid: string, entries: seq<Entry>, store: Payloads, s: int, slice: Slice)
    requires Stored(lid, entries, store)
  {
    exists i :: 0 <= i < |entries| && entries[i].snapshot == s && slice == Named(lid, entries[i], store)
  }

  /** Every slice of the object in a snapshot that the record uses for it is listed in the record. */
  ghost predicate AllListed(lid: string, entries: seq<Entry>, store: Payloads, held: seq<seq<Slice>>)
    requires Stored(lid, entries, store)
  {
    forall j, k {:trigger Listed(lid, entries, store, entries[j].snapshot, held[entries[j].snapshot][k])} |
      0 <= j < |entries| && 0 <= entries[j].snapshot < |held| && 0 <= k < |held[entries[j].snapshot]| &&
      held[entries[j].snapshot][k].lid == lid ::
        Listed(lid, entries, store, entries[j].snapshot, held[entries[j].snapshot][k])
  }

  /** Any slice covering a byte holds the byte that every pick rebuilds. */
  lemma AnySliceHolds(
    lid: string, total: int, entries: seq<Entry>, snapshots: seq<Snapshot>, store: Payloads, pick: seq<nat>, i: nat,
    b: int)
    requires ObjectValid(lid, total, entries, snapshots) && Certified(entries)
    requires Stored(lid, entries, store) && HashesIdentify(lid, entries, store)
    requires Picks(entries, Tiling(entries), pick)
    requires i < |entries| && Covers(entries[i].dst, b)
    ensures var whole := Reassemble(lid, entries, Tiling(entries), pick, store);
      && 0 <= b < |whole| && whole[b] == store[KeyOf(lid, entries[i])][b - entries[i].dst.lo]
  {
    var tiling := Tiling(entries);
    AcceptedObjectTiles(lid, total, entries, snapshots);
    TilingFacts(entries);
    var other := PickWith(entries, tiling, i);
    var k := TileOf(entries, i);
    AnyReplicaRebuilds(lid, total, entries, snapshots, store, pick, other);
    ReassembledByte(lid, entries, tiling, 0, Extent(total), other, store, k, b);
  }

  /** Listed slices hold what every pick rebuilds. */
  lemma ListedSlicesAgree(
    lid: string, total: int, entries: seq<Entry>, snapshots: seq<Snapshot>, store: Payloads, held: seq<seq<Slice>>,
    pick: seq<nat>, whole: seq<byte>)
    requires ObjectValid(lid, total, entries, snapshots) && Certified(entries)
    requires Stored(lid, entries, store) && HashesIdentify(lid, entries, store) && AllListed(lid, entries, store, held)
    requires Picks(entries, Tiling(entries), pick) && whole == Reassemble(lid, entries, Tiling(entries), pick, store)
    ensures SourcesAgree(entries, lid, held, whole)
  {
    forall s, k, c, v | 0 <= s < |held| && 0 <= k < |held[s]| && Places(held[s][k], lid, c, v) &&
      SourceOf(entries, c, s)
      ensures 0 <= c < |whole| && v == whole[c]
    {
      var j :| 0 <= j < |entries| && Covers(entries[j].dst, c) && entries[j].snapshot == s;
      assert Listed(lid, entries, store, entries[j].snapshot, held[entries[j].snapshot][k]);
      ListedSliceAgrees(lid, total, entries, snapshots, store, pick, whole, s, held[s][k], c, v);
    }
  }

  lemma ListedSliceAgrees(
    lid: string, total: int, entries: seq<Entry>, snapshots: seq<Snapshot>, store: Payloads, pick: seq<nat>,
    whole: seq<byte>, s: int, slice: Slice, c: int, v: byte)
    requires ObjectValid(lid, total, entries, snapshots) && Certified(entries)
    requires Stored(lid, entries, store) && HashesIdentify(lid, entries, store)
    requires Picks(entries, Tiling(entries), pick) && whole == Reassemble(lid, entries, Tiling(entries), pick, store)
    requires Listed(lid, entries, store, s, slice) && Places(slice, lid, c, v)
    ensures 0 <= c < |whole| && v == whole[c]
  {
    var i :| 0 <= i < |entries| && entries[i].snapshot == s && slice == Named(lid, entries[i], store);
    AnySliceHolds(lid, total, entries, snapshots, store, pick, i, c);
  }

  /** Where the record lists all slices, as the source policies make it, nothing else is written. */
  lemma RestoreWritesOnly(
    record: Record, ids: seq<string>, steps: seq<PlanStep>, lid: string, store: Payloads, held: seq<seq<Slice>>,
    pick: seq<nat>)
    requires Restorable(record, ids, steps, lid, store, held, pick)
    requires AllListed(lid, EntriesOf(record, lid), store, held)
    ensures WritesOnly(steps, lid, held, Rebuilt(record, lid, store, pick))
  {
    var whole := Rebuilt(record, lid, store, pick);
    ListedSlicesAgree(
      lid, record.logical[lid].bytes, EntriesOf(record, lid), record.snapshots, store, held, pick, whole);
    RestoreWritesOnlyExactly(record, ids, steps, lid, held, whole);
  }
}
