/** Target resolution of src/dataflow/checkpoint/targets.py: a record and a set of logical ids
    become per-snapshot remap plans that source every requested byte exactly once. */
module CheckpointRestore {
  import opened Wrappers
  import opened CheckpointRecord
  import Sorting

  /** Bytes `logical` of a logical object land at `local` of local object `id`, `bytes` long. */
  datatype Window = Window(logical: Span, id: string, local: Span, bytes: int)

  datatype Piece = Piece(snapshot: int, lid: string, window: Window)

  datatype PlanStep = PlanStep(snapshot: int, path: string, remap: map<string, seq<Window>>)

  // ---------------------------------------------------------------- one source per byte

  datatype Choice = Choice(at: Span, entry: Entry)

  /** `min(covering, key=snapshot_index)`: the first entry of least snapshot index. */
  function Lowest(covering: seq<Entry>): (e: Entry)
    requires covering != []
    ensures e in covering && forall f :: f in covering ==> e.snapshot <= f.snapshot
  {
    if |covering| == 1 then covering[0]
    else
      assert covering == [covering[0]] + covering[1..];
      var rest := Lowest(covering[1..]);
      if covering[0].snapshot <= rest.snapshot then covering[0] else rest
  }

  ghost predicate GoodChoice(entries: seq<Entry>, c: Choice) {
    && c.at.lo < c.at.hi && c.entry in entries && Spanning(c.entry, c.at)
    && forall e :: e in entries && Spanning(e, c.at) ==> c.entry.snapshot <= e.snapshot
  }

  /** The chosen intervals follow one another, and each is spanned by its lowest-index coverer. */
  ghost predicate GoodChoices(entries: seq<Entry>, chosen: seq<Choice>) {
    && (forall k :: 0 <= k < |chosen| ==> GoodChoice(entries, chosen[k]))
    && (forall j, k :: 0 <= j < k < |chosen| ==> chosen[j].at.hi <= chosen[k].at.lo)
  }

  ghost predicate ChosenAt(chosen: seq<Choice>, b: int) {
    exists k :: 0 <= k < |chosen| && Covers(chosen[k].at, b)
  }

  /** The choice for one elementary interval; an interval nobody covers has none. */
  function ChoiceAt(entries: seq<Entry>, at: Span): Option<Choice> {
    var covering := Covering(entries, at);
    if covering == [] then None else Some(Choice(at, Lowest(covering)))
  }

  lemma ChoiceAtFacts(entries: seq<Entry>, at: Span)
    requires at.lo < at.hi
    ensures var c := ChoiceAt(entries, at);
      && (c.Some? ==> GoodChoice(entries, c.value) && c.value.at == at)
      && (c.None? ==> forall e :: e in entries ==> !Spanning(e, at))
  {
    CoveringMembers(entries, at);
  }

  function Compact(options: seq<Option<Choice>>): seq<Choice> {
    if options == [] then []
    else
      var last := options[|options| - 1];
      Compact(options[..|options| - 1]) + if last.None? then [] else [last.value]
  }

  lemma {:induction false} CompactMembers(options: seq<Option<Choice>>)
    ensures forall c :: c in Compact(options) <==> Some(c) in options
  {
    if options != [] {
      CompactMembers(options[..|options| - 1]);
      assert options == options[..|options| - 1] + [options[|options| - 1]];
    }
  }

  ghost predicate InOrder(options: seq<Option<Choice>>) {
    forall j, k :: 0 <= j < k < |options| && options[j].Some? && options[k].Some? ==>
      options[j].value.at.hi <= options[k].value.at.lo
  }

  lemma {:induction false} CompactOrdered(options: seq<Option<Choice>>)
    requires InOrder(options)
    ensures forall j, k :: 0 <= j < k < |Compact(options)| ==> Compact(options)[j].at.hi <= Compact(options)[k].at.lo
  {
    if options != [] {
      var rest := options[..|options| - 1];
      CompactOrdered(rest);
      CompactMembers(rest);
      forall j | 0 <= j < |Compact(rest)| && options[|options| - 1].Some?
        ensures Compact(rest)[j].at.hi <= options[|options| - 1].value.at.lo
      {
        assert Compact(rest)[j] in Compact(rest);
        var m :| 0 <= m < |rest| && rest[m] == Some(Compact(rest)[j]);
        assert options[m] == rest[m];
      }
    }
  }

  function Intervals(bounds: seq<int>): nat {
    if bounds == [] then 0 else |bounds| - 1
  }

  /** The choice of every elementary interval, in order. */
  ghost function Choices(entries: seq<Entry>, bounds: seq<int>): (options: seq<Option<Choice>>)
    ensures |options| == Intervals(bounds)
    ensures forall k :: 0 <= k < |options| ==> options[k] == ChoiceAt(entries, Elementary(bounds, k))
  {
    seq(Intervals(bounds), k requires 0 <= k < Intervals(bounds) => ChoiceAt(entries, Elementary(bounds, k)))
  }

  lemma ChoicesFacts(entries: seq<Entry>, bounds: seq<int>)
    requires Increasing(bounds)
    ensures InOrder(Choices(entries, bounds))
    ensures forall c :: Some(c) in Choices(entries, bounds) ==> GoodChoice(entries, c)
  {
    var options := Choices(entries, bounds);
    forall k | 0 <= k < |options| && options[k].Some?
      ensures GoodChoice(entries, options[k].value) && options[k].value.at == Elementary(bounds, k)
    {
      ChoiceAtFacts(entries, Elementary(bounds, k));
    }
    forall j, k | 0 <= j < k < |options| && options[j].Some? && options[k].Some?
      ensures options[j].value.at.hi <= options[k].value.at.lo
    {
      assert bounds[j + 1] <= bounds[k];
    }
  }

  lemma ChoicesGood(entries: seq<Entry>, bounds: seq<int>)
    requires Increasing(bounds)
    ensures GoodChoices(entries, Compact(Choices(entries, bounds)))
  {
    var options := Choices(entries, bounds);
    ChoicesFacts(entries, bounds);
    CompactOrdered(options);
    CompactMembers(options);
    forall k | 0 <= k < |Compact(options)| ensures GoodChoice(entries, Compact(options)[k]) {
      assert Compact(options)[k] in Compact(options);
    }
  }

  lemma ChosenWhereCovered(entries: seq<Entry>, i: nat, b: int)
    requires i < |entries| && Covers(entries[i].dst, b)
    ensures ChosenAt(Compact(Choices(entries, Bounds(entries))), b)
  {
    var bounds := Bounds(entries);
    var options := Choices(entries, bounds);
    var m := CoveredElementary(entries, i, b);
    MeetsSpans(entries, i, m, b);
    ChoiceAtFacts(entries, Elementary(bounds, m));
    assert options[m] == ChoiceAt(entries, Elementary(bounds, m));
    CompactMembers(options);
    assert options[m].value in Compact(options);
    var c :| 0 <= c < |Compact(options)| && Compact(options)[c] == options[m].value;
  }

  lemma CoveredWhereChosen(entries: seq<Entry>, chosen: seq<Choice>, b: int)
    requires GoodChoices(entries, chosen) && ChosenAt(chosen, b)
    ensures CoveredBy(Spans(entries), b)
  {
    var c :| 0 <= c < |chosen| && Covers(chosen[c].at, b);
    assert GoodChoice(entries, chosen[c]);
    var i :| 0 <= i < |entries| && entries[i] == chosen[c].entry;
    assert Covers(Spans(entries)[i], b);
  }

  lemma ChoicesCover(entries: seq<Entry>)
    ensures var chosen := Compact(Choices(entries, Bounds(entries)));
      GoodChoices(entries, chosen) && forall b :: ChosenAt(chosen, b) <==> CoveredBy(Spans(entries), b)
  {
    var chosen := Compact(Choices(entries, Bounds(entries)));
    BoundsFacts(entries);
    ChoicesGood(entries, Bounds(entries));
    forall b | ChosenAt(chosen, b) ensures CoveredBy(Spans(entries), b) {
      CoveredWhereChosen(entries, chosen, b);
    }
    forall b | CoveredBy(Spans(entries), b) ensures ChosenAt(chosen, b) {
      var i :| 0 <= i < |entries| && Covers(Spans(entries)[i], b);
      ChosenWhereCovered(entries, i, b);
    }
  }

  method ChooseAmong(entries: seq<Entry>, bounds: seq<int>) returns (chosen: seq<Choice>)
    ensures chosen == Compact(Choices(entries, bounds))
  {
    ghost var options := Choices(entries, bounds);
    chosen := [];
    var k := 0;
    while k + 1 < |bounds|
      invariant 0 <= k <= |options| && chosen == Compact(options[..k])
    {
      var at := Elementary(bounds, k);
      var covering := Covering(entries, at);
      assert options[..k + 1][..k] == options[..k] && options[k] == ChoiceAt(entries, at);
      if covering != [] {
        chosen := chosen + [Choice(at, Lowest(covering))];
      }
      k := k + 1;
    }
    assert options[..k] == options;
  }

  ghost function ChosenOf(entries: seq<Entry>): seq<Choice> {
    Compact(Choices(entries, Bounds(entries)))
  }

  /** Every covered byte gets exactly one interval, hence exactly one source. */
  method ChooseSources(entries: seq<Entry>) returns (chosen: seq<Choice>)
    ensures chosen == ChosenOf(entries) && GoodChoices(entries, chosen)
    ensures forall b :: ChosenAt(chosen, b) <==> CoveredBy(Spans(entries), b)
  {
    chosen := ChooseAmong(entries, Bounds(entries));
    ChoicesCover(entries);
  }

  // ---------------------------------------------------------------- coalescing

  predicate Wellformed(w: Window) {
    w.logical.lo < w.logical.hi && w.local.hi - w.local.lo == w.logical.hi - w.logical.lo
  }

  /** A window sends logical byte `c` to byte `x` of the local object `id` of `bytes` bytes. */
  predicate Sends(w: Window, c: int, x: int, id: string, bytes: int) {
    Covers(w.logical, c) && x - w.local.lo == c - w.logical.lo && id == w.id && bytes == w.bytes
  }

  ghost predicate SendsAny(windows: seq<Window>, c: int, x: int, id: string, bytes: int) {
    exists k :: 0 <= k < |windows| && Sends(windows[k], c, x, id, bytes)
  }

  ghost predicate AllWellformed(windows: seq<Window>) {
    forall k :: 0 <= k < |windows| ==> Wellformed(windows[k])
  }

  /** Windows in order, none overlapping: what the engine's remap check demands. */
  ghost predicate Ordered(windows: seq<Window>) {
    forall j, k :: 0 <= j < k < |windows| ==> windows[j].logical.hi <= windows[k].logical.lo
  }

  predicate Abuts(a: Window, b: Window) {
    b.logical.lo == a.logical.hi && b.local.lo == a.local.hi && b.bytes == a.bytes && b.id == a.id
  }

  function Joined(a: Window, b: Window): Window {
    a.(logical := Span(a.logical.lo, b.logical.hi), local := Span(a.local.lo, b.local.hi))
  }

  ghost predicate SameEffect(a: seq<Window>, b: seq<Window>) {
    forall c, x, id, n :: SendsAny(a, c, x, id, n) <==> SendsAny(b, c, x, id, n)
  }

  lemma AppendSends(windows: seq<Window>, w: Window)
    ensures forall c, x, id, n :: SendsAny(windows + [w], c, x, id, n) <==>
      SendsAny(windows, c, x, id, n) || Sends(w, c, x, id, n)
  {
    var more := windows + [w];
    forall c, x, id, n
      ensures SendsAny(more, c, x, id, n) <==> SendsAny(windows, c, x, id, n) || Sends(w, c, x, id, n)
    {
      if Sends(w, c, x, id, n) {
        assert more[|windows|] == w;
      }
      if SendsAny(windows, c, x, id, n) {
        var k :| 0 <= k < |windows| && Sends(windows[k], c, x, id, n);
        assert more[k] == windows[k];
      }
    }
  }

  lemma JoinSends(rest: seq<Window>, a: Window, b: Window)
    requires Wellformed(a) && Wellformed(b) && Abuts(a, b)
    ensures Wellformed(Joined(a, b)) && SameEffect(rest + [Joined(a, b)], rest + [a] + [b])
  {
    AppendSends(rest, Joined(a, b));
    AppendSends(rest, a);
    AppendSends(rest + [a], b);
  }

  lemma ExtendEffect(a: seq<Window>, b: seq<Window>, w: Window)
    requires SameEffect(a, b)
    ensures SameEffect(a + [w], b + [w])
  {
    AppendSends(a, w);
    AppendSends(b, w);
  }

  /** How many windows send byte `c`. */
  function Count(windows: seq<Window>, c: int): nat {
    if windows == [] then 0
    else
      var last := windows[|windows| - 1];
      Count(windows[..|windows| - 1], c) + if Covers(last.logical, c) then 1 else 0
  }

  lemma CountAppend(windows: seq<Window>, w: Window, c: int)
    ensures Count(windows + [w], c) == Count(windows, c) + if Covers(w.logical, c) then 1 else 0
  {
    assert (windows + [w])[..|windows|] == windows;
  }

  lemma {:induction false} CountConcat(a: seq<Window>, b: seq<Window>, c: int)
    ensures Count(a + b, c) == Count(a, c) + Count(b, c)
  {
    if b == [] {
      assert a + b == a;
    } else {
      var rest, last := b[..|b| - 1], b[|b| - 1];
      CountConcat(a, rest, c);
      CountAppend(a + rest, last, c);
      assert a + b == (a + rest) + [last];
    }
  }

  lemma {:induction false} InsertCount(w: Window, windows: seq<Window>, c: int)
    ensures Count(Sorting.Insert(w, windows, WindowLe), c) == Count([w] + windows, c)
  {
    if windows != [] && !WindowLe(w, windows[0]) {
      var head, rest := [windows[0]], windows[1..];
      InsertCount(w, rest, c);
      CountConcat(head, Sorting.Insert(w, rest, WindowLe), c);
      CountConcat([w], rest, c);
      CountConcat([w], windows, c);
      CountConcat(head, rest, c);
      assert windows == head + rest;
    }
  }

  /** Sorting keeps how often each byte is sent. */
  lemma {:induction false} SortCount(windows: seq<Window>, c: int)
    ensures Count(Sorting.Sort(windows, WindowLe), c) == Count(windows, c)
  {
    if windows != [] {
      var head, rest := windows[0], windows[1..];
      SortCount(rest, c);
      InsertCount(head, Sorting.Sort(rest, WindowLe), c);
      CountConcat([head], Sorting.Sort(rest, WindowLe), c);
      CountConcat([head], rest, c);
      assert windows == [head] + rest;
    }
  }

  ghost predicate SameCount(a: seq<Window>, b: seq<Window>) {
    forall c :: Count(a, c) == Count(b, c)
  }

  /** Joining two windows that abut keeps how often each byte is sent. */
  lemma JoinCount(windows: seq<Window>, rest: seq<Window>, a: Window, b: Window)
    requires SameCount(rest + [a], windows) && Wellformed(a) && Wellformed(b) && Abuts(a, b)
    ensures SameCount(rest + [Joined(a, b)], windows + [b])
  {
    forall c ensures Count(rest + [Joined(a, b)], c) == Count(windows + [b], c) {
      CountAppend(rest, Joined(a, b), c);
      CountAppend(rest, a, c);
      CountAppend(windows, b, c);
    }
  }

  lemma ExtendCount(a: seq<Window>, b: seq<Window>, w: Window)
    requires SameCount(a, b)
    ensures SameCount(a + [w], b + [w])
  {
    forall c ensures Count(a + [w], c) == Count(b + [w], c) {
      CountAppend(a, w, c);
      CountAppend(b, w, c);
    }
  }

  /** Windows in order send each byte at most once. */
  lemma {:induction false} OrderedCount(windows: seq<Window>, c: int)
    requires Ordered(windows) && AllWellformed(windows)
    ensures Count(windows, c) == if exists k :: 0 <= k < |windows| && Covers(windows[k].logical, c) then 1 else 0
  {
    if windows != [] {
      var n := |windows| - 1;
      var rest := windows[..n];
      OrderedCount(rest, c);
      assert Wellformed(windows[n]);
      if k :| 0 <= k < |rest| && Covers(rest[k].logical, c) {
        assert windows[k] == rest[k] && windows[k].logical.hi <= windows[n].logical.lo;
      }
      if k :| 0 <= k < |windows| && Covers(windows[k].logical, c) {
        assert k < n ==> rest[k] == windows[k];
      }
    }
  }

  /** Neighbours that abut have been merged. */
  ghost predicate Merged(out: seq<Window>) {
    forall k :: 0 <= k && k + 1 < |out| ==> !Abuts(out[k], out[k + 1])
  }

  /** The merged form of the windows so far. */
  ghost predicate Coalesced(windows: seq<Window>, out: seq<Window>) {
    && windows != [] && out != [] && AllWellformed(out) && SameEffect(out, windows) && Merged(out)
    && SameCount(out, windows)
    && out[|out| - 1].logical.hi == windows[|windows| - 1].logical.hi && (Ordered(windows) ==> Ordered(out))
  }

  lemma OrderedPrefix(windows: seq<Window>, w: Window)
    requires windows != [] && Ordered(windows + [w])
    ensures Ordered(windows) && windows[|windows| - 1].logical.hi <= w.logical.lo
  {
    var more := windows + [w];
    forall j, k | 0 <= j < k < |windows| ensures windows[j].logical.hi <= windows[k].logical.lo {
      assert more[j].logical.hi <= more[k].logical.lo;
    }
    assert more[|windows| - 1].logical.hi <= more[|windows|].logical.lo;
  }

  lemma JoinLast(windows: seq<Window>, rest: seq<Window>, last: Window, w: Window)
    requires Coalesced(windows, rest + [last]) && Wellformed(w) && Abuts(last, w)
    ensures Coalesced(windows + [w], rest + [Joined(last, w)])
  {
    var out, joined := rest + [last], rest + [Joined(last, w)];
    assert out[|rest|] == last && joined[|rest|] == Joined(last, w);
    ExtendEffect(out, windows, w);
    JoinSends(rest, last, w);
    assert Wellformed(out[|rest|]);
    JoinCount(windows, rest, last, w);
    forall k | 0 <= k < |rest| ensures Wellformed(joined[k]) {
      assert Wellformed(out[k]);
    }
    forall k | 0 <= k && k + 1 < |joined| ensures !Abuts(joined[k], joined[k + 1]) {
      assert !Abuts(out[k], out[k + 1]);
    }
    if Ordered(windows + [w]) {
      OrderedPrefix(windows, w);
      forall j, k | 0 <= j < k < |joined| ensures joined[j].logical.hi <= joined[k].logical.lo {
        assert out[j].logical.hi <= out[k].logical.lo;
      }
    }
  }

  lemma AppendLast(windows: seq<Window>, out: seq<Window>, w: Window)
    requires Coalesced(windows, out) && Wellformed(w) && !Abuts(out[|out| - 1], w)
    ensures Coalesced(windows + [w], out + [w])
  {
    ExtendEffect(out, windows, w);
    ExtendCount(out, windows, w);
    if Ordered(windows + [w]) {
      OrderedPrefix(windows, w);
      var more := out + [w];
      forall j, k | 0 <= j < k < |more| ensures more[j].logical.hi <= more[k].logical.lo {
        assert k < |out| ==> out[j].logical.hi <= out[k].logical.lo;
        assert j < |out| - 1 ==> out[j].logical.hi <= out[|out| - 1].logical.lo;
        assert Wellformed(out[|out| - 1]);
      }
    }
  }

  /** Merging windows that abut in both spaces changes no byte's destination, and keeps order. */
  method CoalesceWindows(windows: seq<Window>) returns (out: seq<Window>)
    requires windows != [] && AllWellformed(windows)
    ensures AllWellformed(out) && SameEffect(out, windows) && SameCount(out, windows)
    ensures Ordered(windows) ==> Ordered(out)
    ensures out != [] && Merged(out)
  {
    out := [windows[0]];
    assert windows[..1] == out;
    for i := 1 to |windows|
      invariant Coalesced(windows[..i], out)
    {
      var w, last := windows[i], out[|out| - 1];
      ghost var rest := out[..|out| - 1];
      assert out == rest + [last] && windows[..i + 1] == windows[..i] + [w];
      if Abuts(last, w) {
        JoinLast(windows[..i], rest, last, w);
        out := out[|out| - 1 := Joined(last, w)];
        assert out == rest + [Joined(last, w)];
      } else {
        AppendLast(windows[..i], out, w);
        out := out + [w];
      }
    }
    assert windows[..|windows|] == windows;
  }

  // ---------------------------------------------------------------- grouping by snapshot

  predicate WindowLe(a: Window, b: Window) {
    SpanLe(a.logical, b.logical)
  }

  /** The windows of the pieces for one snapshot and logical object, in piece order. */
  function WindowsOf(pieces: seq<Piece>, snapshot: int, lid: string): seq<Window> {
    if pieces == [] then []
    else
      var p := pieces[|pieces| - 1];
      WindowsOf(pieces[..|pieces| - 1], snapshot, lid) +
      if p.snapshot == snapshot && p.lid == lid then [p.window] else []
  }

  lemma {:induction false} WindowsOfConcat(p: seq<Piece>, q: seq<Piece>, snapshot: int, lid: string)
    ensures WindowsOf(p + q, snapshot, lid) == WindowsOf(p, snapshot, lid) + WindowsOf(q, snapshot, lid)
  {
    if q == [] {
      assert p + q == p;
    } else {
      var rest, last := q[..|q| - 1], q[|q| - 1];
      var tail := if last.snapshot == snapshot && last.lid == lid then [last.window] else [];
      WindowsOfConcat(p, rest, snapshot, lid);
      assert (p + q)[..|p + q| - 1] == p + rest;
      assert WindowsOf(p + q, snapshot, lid) == WindowsOf(p + rest, snapshot, lid) + tail;
    }
  }

  type Grouping = map<int, map<string, seq<Window>>>

  /** `by_snapshot` holds exactly the pieces seen, grouped in order. */
  ghost predicate GroupsPieces(pieces: seq<Piece>, groups: Grouping) {
    && (forall s :: s in groups ==> groups[s] != map[])
    && (forall s, lid :: WindowsOf(pieces, s, lid) != [] <==> s in groups && lid in groups[s])
    && (forall s, lid :: s in groups && lid in groups[s] ==> groups[s][lid] == WindowsOf(pieces, s, lid))
  }

  function AddPiece(groups: Grouping, p: Piece): Grouping {
    var mine := if p.snapshot in groups then groups[p.snapshot] else map[];
    var windows := if p.lid in mine then mine[p.lid] else [];
    groups[p.snapshot := mine[p.lid := windows + [p.window]]]
  }

  lemma GroupOneMore(pieces: seq<Piece>, groups: Grouping, p: Piece)
    requires GroupsPieces(pieces, groups)
    ensures GroupsPieces(pieces + [p], AddPiece(groups, p))
  {
    var more, groups' := pieces + [p], AddPiece(groups, p);
    assert more[..|more| - 1] == pieces;
    forall s, lid
      ensures WindowsOf(more, s, lid) != [] <==> s in groups' && lid in groups'[s]
      ensures s in groups' && lid in groups'[s] ==> groups'[s][lid] == WindowsOf(more, s, lid)
    {
      if s == p.snapshot && lid == p.lid {
        assert WindowsOf(more, s, lid) == WindowsOf(pieces, s, lid) + [p.window];
      } else {
        assert WindowsOf(more, s, lid) == WindowsOf(pieces, s, lid);
      }
    }
    assert p.lid in groups'[p.snapshot];
  }

  method GroupPieces(pieces: seq<Piece>) returns (groups: Grouping)
    ensures GroupsPieces(pieces, groups)
  {
    groups := map[];
    for i := 0 to |pieces|
      invariant GroupsPieces(pieces[..i], groups)
    {
      GroupOneMore(pieces[..i], groups, pieces[i]);
      assert pieces[..i + 1] == pieces[..i] + [pieces[i]];
      groups := AddPiece(groups, pieces[i]);
    }
    assert pieces[..|pieces|] == pieces;
  }

  /** One snapshot's remap sends what its pieces send, in windows the engine accepts. */
  ghost predicate RemapOk(pieces: seq<Piece>, snapshot: int, remap: map<string, seq<Window>>) {
    forall lid ::
      && (lid in remap <==> WindowsOf(pieces, snapshot, lid) != [])
      && (lid in remap ==> Merges(WindowsOf(pieces, snapshot, lid), remap[lid]))
  }

  lemma SortedWindows(windows: seq<Window>)
    requires AllWellformed(windows)
    ensures AllWellformed(Sorting.Sort(windows, WindowLe))
    ensures SameEffect(Sorting.Sort(windows, WindowLe), windows)
    ensures SameCount(Sorting.Sort(windows, WindowLe), windows)
    ensures Ordered(windows) ==> Sorting.Sort(windows, WindowLe) == windows
    ensures |Sorting.Sort(windows, WindowLe)| == |windows|
  {
    var sorted := Sorting.Sort(windows, WindowLe);
    Sorting.SortMembers(windows, WindowLe);
    Sorting.SortMultiset(windows, WindowLe);
    forall k | 0 <= k < |sorted| ensures Wellformed(sorted[k]) {
      assert sorted[k] in windows;
    }
    forall c, x, id, n ensures SendsAny(sorted, c, x, id, n) <==> SendsAny(windows, c, x, id, n) {
      if SendsAny(sorted, c, x, id, n) {
        var k :| 0 <= k < |sorted| && Sends(sorted[k], c, x, id, n);
        assert sorted[k] in windows;
      }
      if SendsAny(windows, c, x, id, n) {
        var k :| 0 <= k < |windows| && Sends(windows[k], c, x, id, n);
        assert windows[k] in sorted;
      }
    }
    if Ordered(windows) {
      Sorting.SortIdentity(windows, WindowLe);
    }
    forall c ensures Count(sorted, c) == Count(windows, c) {
      SortCount(windows, c);
    }
  }

  ghost predicate PiecesWellformed(pieces: seq<Piece>) {
    forall s, lid :: AllWellformed(WindowsOf(pieces, s, lid))
  }

  ghost predicate Merges(windows: seq<Window>, out: seq<Window>) {
    && out != [] && SameEffect(out, windows) && SameCount(out, windows) && AllWellformed(out)
    && (Ordered(windows) ==> Ordered(out))
  }

  method MergeWindows(windows: seq<Window>) returns (out: seq<Window>)
    requires windows != [] && AllWellformed(windows)
    ensures Merges(windows, out)
  {
    SortedWindows(windows);
    out := CoalesceWindows(Sorting.Sort(windows, WindowLe));
  }

  method MergeRemap(ghost pieces: seq<Piece>, ghost snapshot: int, mine: map<string, seq<Window>>)
    returns (remap: map<string, seq<Window>>)
    requires PiecesWellformed(pieces)
    requires forall lid :: lid in mine <==> WindowsOf(pieces, snapshot, lid) != []
    requires forall lid :: lid in mine ==> mine[lid] == WindowsOf(pieces, snapshot, lid)
    ensures RemapOk(pieces, snapshot, remap)
  {
    remap := map[];
    var todo := mine.Keys;
    while todo != {}
      invariant todo <= mine.Keys && remap.Keys == mine.Keys - todo
      invariant forall lid :: lid in remap ==> Merges(mine[lid], remap[lid])
      decreases |todo|
    {
      var lid :| lid in todo;
      assert AllWellformed(WindowsOf(pieces, snapshot, lid));
      var merged := MergeWindows(mine[lid]);
      remap := remap[lid := merged];
      todo := todo - {lid};
    }
  }

  function SnapshotsOf(pieces: seq<Piece>): seq<int> {
    Sorting.Distinct(Sorting.Sort(seq(|pieces|, i requires 0 <= i < |pieces| => pieces[i].snapshot), IntLe))
  }

  lemma SnapshotsOfFacts(pieces: seq<Piece>)
    ensures Increasing(SnapshotsOf(pieces))
    ensures forall s :: s in SnapshotsOf(pieces) <==> exists k :: 0 <= k < |pieces| && pieces[k].snapshot == s
  {
    var all := seq(|pieces|, i requires 0 <= i < |pieces| => pieces[i].snapshot);
    Sorting.SortSorted(all, IntLe);
    Sorting.SortMembers(all, IntLe);
    Sorting.DistinctFacts(Sorting.Sort(all, IntLe), IntLe);
    forall s ensures s in SnapshotsOf(pieces) <==> exists k :: 0 <= k < |pieces| && pieces[k].snapshot == s {
      assert s in SnapshotsOf(pieces) <==> s in all;
      if k :| 0 <= k < |pieces| && pieces[k].snapshot == s {
        assert all[k] == s;
      }
    }
  }

  lemma {:induction false} PieceHasWindow(pieces: seq<Piece>, k: nat)
    requires k < |pieces|
    ensures WindowsOf(pieces, pieces[k].snapshot, pieces[k].lid) != []
  {
    if k < |pieces| - 1 {
      PieceHasWindow(pieces[..|pieces| - 1], k);
    }
  }

  lemma {:induction false} WindowHasPiece(pieces: seq<Piece>, snapshot: int, lid: string) returns (k: nat)
    requires WindowsOf(pieces, snapshot, lid) != []
    ensures k < |pieces| && pieces[k].snapshot == snapshot && pieces[k].lid == lid
  {
    k := |pieces| - 1;
    if !(pieces[k].snapshot == snapshot && pieces[k].lid == lid) {
      k := WindowHasPiece(pieces[..k], snapshot, lid);
    }
  }

  /** One step per snapshot in use, in increasing snapshot order, each with a correct remap. */
  ghost predicate StepsOk(pieces: seq<Piece>, steps: seq<PlanStep>) {
    && (forall i, j :: 0 <= i < j < |steps| ==> steps[i].snapshot < steps[j].snapshot)
    && (forall i :: 0 <= i < |steps| ==>
          RemapOk(pieces, steps[i].snapshot, steps[i].remap) && steps[i].remap != map[])
    && (forall s, lid :: WindowsOf(pieces, s, lid) != [] ==> exists i :: 0 <= i < |steps| && steps[i].snapshot == s)
  }

  /** The step of one snapshot in use. */
  method MergeStep(snapshots: seq<Snapshot>, pieces: seq<Piece>, groups: Grouping, s: int, ghost k: nat)
    returns (step: PlanStep)
    requires PiecesWellformed(pieces) && GroupsPieces(pieces, groups)
    requires k < |pieces| && pieces[k].snapshot == s && 0 <= s < |snapshots|
    ensures step.snapshot == s && step.path == snapshots[s].path && RemapOk(pieces, s, step.remap)
    ensures step.remap != map[]
  {
    PieceHasWindow(pieces, k);
    var remap := MergeRemap(pieces, s, groups[s]);
    assert pieces[k].lid in remap;
    step := PlanStep(s, snapshots[s].path, remap);
  }

  /** One step for each snapshot of the order. */
  ghost predicate Steps(snapshots: seq<Snapshot>, pieces: seq<Piece>, order: seq<int>, steps: seq<PlanStep>) {
    |steps| <= |order| && forall j :: 0 <= j < |steps| ==>
      && steps[j].snapshot == order[j] && RemapOk(pieces, order[j], steps[j].remap) && steps[j].remap != map[]
      && 0 <= order[j] < |snapshots| && steps[j].path == snapshots[order[j]].path
  }

  lemma OneMoreStep(snapshots: seq<Snapshot>, pieces: seq<Piece>, order: seq<int>, steps: seq<PlanStep>, step: PlanStep)
    requires Steps(snapshots, pieces, order, steps) && |steps| < |order| && step.snapshot == order[|steps|]
    requires 0 <= step.snapshot < |snapshots| && step.path == snapshots[step.snapshot].path
    requires RemapOk(pieces, step.snapshot, step.remap) && step.remap != map[]
    ensures Steps(snapshots, pieces, order, steps + [step])
  {
  }

  lemma StepsCover(snapshots: seq<Snapshot>, pieces: seq<Piece>, order: seq<int>, steps: seq<PlanStep>)
    requires Steps(snapshots, pieces, order, steps) && |steps| == |order| && Increasing(order)
    requires forall s :: s in order <==> exists k :: 0 <= k < |pieces| && pieces[k].snapshot == s
    ensures StepsOk(pieces, steps)
  {
    forall s, lid | WindowsOf(pieces, s, lid) != [] ensures exists i :: 0 <= i < |steps| && steps[i].snapshot == s {
      var k := WindowHasPiece(pieces, s, lid);
      assert s in order;
      var i :| 0 <= i < |order| && order[i] == s;
      assert steps[i].snapshot == s;
    }
  }

  method MergeSteps(snapshots: seq<Snapshot>, pieces: seq<Piece>) returns (steps: seq<PlanStep>)
    requires PiecesWellformed(pieces)
    requires forall k :: 0 <= k < |pieces| ==> 0 <= pieces[k].snapshot < |snapshots|
    ensures StepsOk(pieces, steps)
    ensures forall i :: 0 <= i < |steps| ==>
      0 <= steps[i].snapshot < |snapshots| && steps[i].path == snapshots[steps[i].snapshot].path
  {
    var groups := GroupPieces(pieces);
    var order := SnapshotsOf(pieces);
    SnapshotsOfFacts(pieces);
    steps := [];
    for i := 0 to |order|
      invariant |steps| == i && Steps(snapshots, pieces, order, steps)
    {
      assert order[i] in order;
      ghost var k :| 0 <= k < |pieces| && pieces[k].snapshot == order[i];
      var step := MergeStep(snapshots, pieces, groups, order[i], k);
      OneMoreStep(snapshots, pieces, order, steps, step);
      steps := steps + [step];
    }
    StepsCover(snapshots, pieces, order, steps);
  }

  // ---------------------------------------------------------------- the logical plan

  /** The reader rule: the lowest-index snapshot that covers the byte. */
  ghost predicate SourceOf(entries: seq<Entry>, b: int, snapshot: int) {
    && (exists i :: 0 <= i < |entries| && Covers(entries[i].dst, b) && entries[i].snapshot == snapshot)
    && (forall i :: 0 <= i < |entries| && Covers(entries[i].dst, b) ==> snapshot <= entries[i].snapshot)
  }

  /** Byte `c` travels from snapshot `s` exactly to its own place, exactly when `s` is its source. */
  ghost predicate SentHome(lid: string, total: int, entries: seq<Entry>, s: int, windows: seq<Window>) {
    forall c, x, id, n :: SendsAny(windows, c, x, id, n) <==>
      x == c && id == lid && n == total && SourceOf(entries, c, s)
  }

  /** Each request for the object sends byte `c` once, from its source. */
  ghost predicate SentOften(entries: seq<Entry>, s: int, windows: seq<Window>, times: nat) {
    forall c :: Count(windows, c) == if SourceOf(entries, c, s) then times else 0
  }

  ghost predicate LidPlanned(record: Record, pieces: seq<Piece>, lid: string) {
    lid in record.logical && forall s ::
      && AllWellformed(WindowsOf(pieces, s, lid))
      && SentHome(lid, record.logical[lid].bytes, EntriesOf(record, lid), s, WindowsOf(pieces, s, lid))
  }

  function PieceOf(lid: string, total: int, c: Choice): Piece {
    Piece(c.entry.snapshot, lid, Window(c.at, lid, c.at, total))
  }

  function PiecesOf(lid: string, total: int, chosen: seq<Choice>): (pieces: seq<Piece>)
    ensures |pieces| == |chosen|
    ensures forall i :: 0 <= i < |chosen| ==> pieces[i] == PieceOf(lid, total, chosen[i])
  {
    seq(|chosen|, i requires 0 <= i < |chosen| => PieceOf(lid, total, chosen[i]))
  }

  ghost predicate ChosenFrom(chosen: seq<Choice>, s: int, c: int) {
    exists k :: 0 <= k < |chosen| && chosen[k].entry.snapshot == s && Covers(chosen[k].at, c)
  }

  lemma LastChosenFrom(chosen: seq<Choice>, s: int, c: int)
    requires chosen != []
    ensures var last := chosen[|chosen| - 1];
      ChosenFrom(chosen, s, c) <==>
      ChosenFrom(chosen[..|chosen| - 1], s, c) || (last.entry.snapshot == s && Covers(last.at, c))
  {
    var rest := chosen[..|chosen| - 1];
    if k :| 0 <= k < |rest| && rest[k].entry.snapshot == s && Covers(rest[k].at, c) {
      assert chosen[k] == rest[k];
    }
    if k :| 0 <= k < |chosen| && chosen[k].entry.snapshot == s && Covers(chosen[k].at, c) {
      assert k < |rest| ==> rest[k] == chosen[k];
    }
  }

  /** The windows of one snapshot are the intervals chosen from it, in order. */
  lemma {:induction false} ChosenWindows(lid: string, total: int, entries: seq<Entry>, chosen: seq<Choice>, s: int)
    requires GoodChoices(entries, chosen)
    ensures var windows := WindowsOf(PiecesOf(lid, total, chosen), s, lid);
      && Ordered(windows) && AllWellformed(windows)
      && (forall k :: 0 <= k < |windows| ==> chosen != [] && windows[k].logical.hi <= chosen[|chosen| - 1].at.hi)
      && forall c, x, id, n ::
           SendsAny(windows, c, x, id, n) <==> x == c && id == lid && n == total && ChosenFrom(chosen, s, c)
  {
    if chosen != [] {
      var rest, last := chosen[..|chosen| - 1], chosen[|chosen| - 1];
      var pieces := PiecesOf(lid, total, chosen);
      assert pieces[..|pieces| - 1] == PiecesOf(lid, total, rest);
      ChosenWindows(lid, total, entries, rest, s);
      assert GoodChoice(entries, last);
      var before := WindowsOf(PiecesOf(lid, total, rest), s, lid);
      var w := Window(last.at, lid, last.at, total);
      AppendSends(before, w);
      assert WindowsOf(pieces, s, lid) == before + if last.entry.snapshot == s then [w] else [];
      assert before + [] == before;
      forall c ensures ChosenFrom(chosen, s, c) <==>
        ChosenFrom(rest, s, c) || (last.entry.snapshot == s && Covers(last.at, c))
      {
        LastChosenFrom(chosen, s, c);
      }
    }
  }

  lemma {:induction false} OtherWindows(lid: string, total: int, chosen: seq<Choice>, s: int, other: string)
    requires other != lid
    ensures WindowsOf(PiecesOf(lid, total, chosen), s, other) == []
  {
    if chosen != [] {
      var pieces := PiecesOf(lid, total, chosen);
      assert pieces[..|pieces| - 1] == PiecesOf(lid, total, chosen[..|chosen| - 1]);
      OtherWindows(lid, total, chosen[..|chosen| - 1], s, other);
    }
  }

  /** With exact replicas, the snapshot chosen for an interval is the source of each of its bytes. */
  lemma ChosenIsSource(entries: seq<Entry>, chosen: seq<Choice>, c: int, s: int)
    requires GoodChoices(entries, chosen) && ExactReplicas(entries)
    requires forall b :: ChosenAt(chosen, b) <==> CoveredBy(Spans(entries), b)
    ensures SourceOf(entries, c, s) <==> ChosenFrom(chosen, s, c)
  {
    if k :| 0 <= k < |chosen| && Covers(chosen[k].at, c) {
      var e := chosen[k].entry;
      assert GoodChoice(entries, chosen[k]);
      var m :| 0 <= m < |entries| && entries[m] == e;
      assert Covers(entries[m].dst, c);
      forall i | 0 <= i < |entries| && Covers(entries[i].dst, c) ensures e.snapshot <= entries[i].snapshot {
        assert entries[i].dst == entries[m].dst;
        assert entries[i] in entries && Spanning(entries[i], chosen[k].at);
      }
      assert SourceOf(entries, c, e.snapshot);
      forall j | 0 <= j < |chosen| && Covers(chosen[j].at, c) ensures j == k {}
    } else {
      assert !ChosenAt(chosen, c);
      forall i | 0 <= i < |entries| ensures !Covers(entries[i].dst, c) {
        assert Spans(entries)[i] == entries[i].dst;
      }
    }
  }

  lemma ConcatSends(a: seq<Window>, b: seq<Window>)
    ensures forall c, x, id, n :: SendsAny(a + b, c, x, id, n) <==>
      SendsAny(a, c, x, id, n) || SendsAny(b, c, x, id, n)
  {
    forall c, x, id, n
      ensures SendsAny(a + b, c, x, id, n) <==> SendsAny(a, c, x, id, n) || SendsAny(b, c, x, id, n)
    {
      if k :| 0 <= k < |a| && Sends(a[k], c, x, id, n) {
        assert (a + b)[k] == a[k];
      }
      if k :| 0 <= k < |b| && Sends(b[k], c, x, id, n) {
        assert (a + b)[|a| + k] == b[k];
      }
    }
  }

  /** Planning an object again adds windows but moves no byte elsewhere. */
  lemma LidIsPlanned(record: Record, before: seq<Piece>, lid: string, chosen: seq<Choice>)
    requires lid in record.logical && ExactReplicas(EntriesOf(record, lid))
    requires GoodChoices(EntriesOf(record, lid), chosen)
    requires forall b :: ChosenAt(chosen, b) <==> CoveredBy(Spans(EntriesOf(record, lid)), b)
    requires LidPlanned(record, before, lid) || forall s :: WindowsOf(before, s, lid) == []
    ensures LidPlanned(record, before + PiecesOf(lid, record.logical[lid].bytes, chosen), lid)
    ensures (forall s :: WindowsOf(before, s, lid) == []) ==>
      forall s :: Ordered(WindowsOf(before + PiecesOf(lid, record.logical[lid].bytes, chosen), s, lid))
  {
    var entries, total := EntriesOf(record, lid), record.logical[lid].bytes;
    var pieces := PiecesOf(lid, total, chosen);
    forall s ensures
      && AllWellformed(WindowsOf(before + pieces, s, lid))
      && SentHome(lid, total, entries, s, WindowsOf(before + pieces, s, lid))
      && (WindowsOf(before, s, lid) == [] ==> Ordered(WindowsOf(before + pieces, s, lid)))
    {
      WindowsOfConcat(before, pieces, s, lid);
      ConcatSends(WindowsOf(before, s, lid), WindowsOf(pieces, s, lid));
      ChosenWindows(lid, total, entries, chosen, s);
      forall c ensures SourceOf(entries, c, s) <==> ChosenFrom(chosen, s, c) {
        ChosenIsSource(entries, chosen, c, s);
      }
    }
  }

  datatype TargetError = Invalid(reason: Refusal) | UnknownTarget(lid: string)

  /** What the plan sends: byte `c` of `lid` from snapshot `s` to byte `x` of local `id`. */
  ghost predicate PlanSends(steps: seq<PlanStep>, s: int, lid: string, c: int, x: int, id: string, n: int) {
    exists i :: 0 <= i < |steps| && steps[i].snapshot == s && lid in steps[i].remap &&
      SendsAny(steps[i].remap[lid], c, x, id, n)
  }

  ghost predicate WindowsExact(record: Record, ids: seq<string>, lid: string, s: int, windows: seq<Window>) {
    && windows != [] && AllWellformed(windows) && (Sorting.NoRepeats(ids) ==> Ordered(windows))
    && SentOften(EntriesOf(record, lid), s, windows, multiset(ids)[lid])
  }

  /** Exactly the requested bytes move, each from its source to its own place, as often as it was
      requested, out of the directories the record names; unless an id is requested twice, the windows
      of a step are in order. */
  ghost predicate PlanExact(record: Record, ids: seq<string>, steps: seq<PlanStep>) {
    && (forall s, lid, c, x, id, n :: PlanSends(steps, s, lid, c, x, id, n) <==>
          && lid in ids && lid in record.logical && x == c && id == lid && n == record.logical[lid].bytes
          && SourceOf(EntriesOf(record, lid), c, s))
    && (forall i, j :: 0 <= i < j < |steps| ==> steps[i].snapshot < steps[j].snapshot)
    && (forall i, lid {:trigger WindowsExact(record, ids, lid, steps[i].snapshot, steps[i].remap[lid])} ::
          0 <= i < |steps| && lid in steps[i].remap ==>
            WindowsExact(record, ids, lid, steps[i].snapshot, steps[i].remap[lid]))
    && (forall i :: 0 <= i < |steps| ==> steps[i].remap != map[]) && NamesDirectories(record, steps)
  }

  /** Every step reads the directory the record gives its snapshot. */
  ghost predicate NamesDirectories(record: Record, steps: seq<PlanStep>) {
    forall i :: 0 <= i < |steps| ==>
      0 <= steps[i].snapshot < |record.snapshots| && steps[i].path == record.snapshots[steps[i].snapshot].path
  }

  ghost predicate PiecesCounted(record: Record, ids: seq<string>, pieces: seq<Piece>) {
    forall lid, s {:trigger WindowsOf(pieces, s, lid)} ::
      SentOften(EntriesOf(record, lid), s, WindowsOf(pieces, s, lid), multiset(ids)[lid])
  }

  ghost predicate PiecesPlanned(record: Record, ids: seq<string>, pieces: seq<Piece>) {
    && PiecesCounted(record, ids, pieces)
    && (Sorting.NoRepeats(ids) ==> forall lid, s :: Ordered(WindowsOf(pieces, s, lid)))
    && (forall lid {:trigger LidPlanned(record, pieces, lid)} ::
          lid in ids ==> LidPlanned(record, pieces, lid))
    && (forall lid, s :: lid !in ids ==> WindowsOf(pieces, s, lid) == [])
    && (forall k :: 0 <= k < |pieces| ==> 0 <= pieces[k].snapshot < |record.snapshots|)
  }

  lemma PlanIsExact(record: Record, ids: seq<string>, pieces: seq<Piece>, steps: seq<PlanStep>)
    requires PiecesPlanned(record, ids, pieces) && StepsOk(pieces, steps) && NamesDirectories(record, steps)
    ensures PlanExact(record, ids, steps)
  {
    forall s, lid, c, x, id, n
      ensures PlanSends(steps, s, lid, c, x, id, n) <==> SendsAny(WindowsOf(pieces, s, lid), c, x, id, n)
    {
      if SendsAny(WindowsOf(pieces, s, lid), c, x, id, n) {
        var i :| 0 <= i < |steps| && steps[i].snapshot == s;
        assert RemapOk(pieces, s, steps[i].remap);
      }
    }
    forall s, lid, c, x, id, n ensures SendsAny(WindowsOf(pieces, s, lid), c, x, id, n) <==>
      && lid in ids && lid in record.logical && x == c && id == lid && n == record.logical[lid].bytes
      && SourceOf(EntriesOf(record, lid), c, s)
    {
      if lid in ids {
        assert LidPlanned(record, pieces, lid);
        assert SentHome(lid, record.logical[lid].bytes, EntriesOf(record, lid), s, WindowsOf(pieces, s, lid));
      }
    }
    forall i, lid | 0 <= i < |steps| && lid in steps[i].remap
      ensures WindowsExact(record, ids, lid, steps[i].snapshot, steps[i].remap[lid])
    {
      assert RemapOk(pieces, steps[i].snapshot, steps[i].remap);
      assert Merges(WindowsOf(pieces, steps[i].snapshot, lid), steps[i].remap[lid]);
    }
  }

  method ChooseCovered(lid: string, total: int, entries: seq<Entry>, snapshots: seq<Snapshot>)
    returns (chosen: seq<Choice>)
    requires ObjectValid(lid, total, entries, snapshots)
    ensures chosen == ChosenOf(entries)
  {
    var gaps := CoverageGaps(total, entries);
    NothingUncovered(total, entries, gaps);
    chosen := ChooseSources(entries);
  }

  /** The pieces of one target. */
  ghost function TargetPieces(record: Record, lid: string): seq<Piece> {
    PiecesOf(lid, if lid in record.logical then record.logical[lid].bytes else 0, ChosenOf(EntriesOf(record, lid)))
  }

  /** The pieces of all targets, in order. */
  ghost function AllPieces(record: Record, ids: seq<string>): seq<Piece> {
    if ids == [] then []
    else AllPieces(record, ids[..|ids| - 1]) + TargetPieces(record, ids[|ids| - 1])
  }

  lemma NothingPlanned(record: Record)
    ensures PiecesPlanned(record, [], [])
  {
  }

  /** Planned like this, exactly the requested bytes move, as often as they are requested. */
  lemma {:induction false} AllPiecesPlanned(record: Record, ids: seq<string>, digest: seq<Field> -> Digest)
    requires RecordValid(record, map[], digest) && forall lid :: lid in ids ==> lid in record.logical
    ensures PiecesPlanned(record, ids, AllPieces(record, ids))
  {
    if ids == [] {
      NothingPlanned(record);
    } else {
      var n := |ids| - 1;
      AllPiecesPlanned(record, ids[..n], digest);
      var entries := EntriesOf(record, ids[n]);
      assert LogicalValid(record, ids[n], map[], digest);
      ChoicesCover(entries);
      PlanOneMore(record, ids, n, AllPieces(record, ids[..n]), ChosenOf(entries));
      assert ids[..n + 1] == ids;
    }
  }

  method PlanTarget(record: Record, lid: string, ghost digest: seq<Field> -> Digest) returns (pieces: seq<Piece>)
    requires RecordValid(record, map[], digest) && lid in record.logical
    ensures pieces == TargetPieces(record, lid)
  {
    assert LogicalValid(record, lid, map[], digest);
    var chosen := ChooseCovered(lid, record.logical[lid].bytes, EntriesOf(record, lid), record.snapshots);
    pieces := PiecesOf(lid, record.logical[lid].bytes, chosen);
  }

  method LogicalPieces(record: Record, ids: seq<string>, ghost digest: seq<Field> -> Digest)
    returns (r: Result<seq<Piece>, TargetError>)
    requires RecordValid(record, map[], digest)
    ensures r.Ok? ==> r.value == AllPieces(record, ids) && forall lid :: lid in ids ==> lid in record.logical
    ensures r.Err? ==> r.error.UnknownTarget? && r.error.lid in ids && r.error.lid !in record.logical
  {
    var pieces, i := [], 0;
    while i < |ids|
      invariant 0 <= i <= |ids|
      invariant pieces == AllPieces(record, ids[..i]) && forall k :: 0 <= k < i ==> ids[k] in record.logical
    {
      var lid := ids[i];
      if lid !in record.logical {
        return Err(UnknownTarget(lid));
      }
      var more := PlanTarget(record, lid, digest);
      pieces := pieces + more;
      assert ids[..i + 1][..i] == ids[..i];
      i := i + 1;
    }
    assert ids[..i] == ids;
    r := Ok(pieces);
  }

  /** The refusal of `logical_plan` for uncovered bytes cannot fire on a validated record. */
  lemma NothingUncovered(total: int, entries: seq<Entry>, gaps: seq<Span>)
    requires Complete(total, entries) && SeparatedGaps(gaps)
    requires forall b :: CoveredBy(gaps, b) <==> 0 <= b < total && !CoveredBy(Spans(entries), b)
    ensures gaps == []
  {
    if gaps != [] {
      assert Covers(gaps[0], gaps[0].lo);
      assert CoveredBy(gaps, gaps[0].lo);
    }
  }

  lemma OthersUnchanged(pieces: seq<Piece>, lid: string, total: int, chosen: seq<Choice>)
    ensures forall other, s :: other != lid ==>
      WindowsOf(pieces + PiecesOf(lid, total, chosen), s, other) == WindowsOf(pieces, s, other)
  {
    forall other, s | other != lid
      ensures WindowsOf(pieces + PiecesOf(lid, total, chosen), s, other) == WindowsOf(pieces, s, other)
    {
      WindowsOfConcat(pieces, PiecesOf(lid, total, chosen), s, other);
      OtherWindows(lid, total, chosen, s, other);
    }
  }

  lemma SamePlan(record: Record, pieces: seq<Piece>, more: seq<Piece>, lid: string)
    requires LidPlanned(record, pieces, lid)
    requires forall s :: WindowsOf(more, s, lid) == WindowsOf(pieces, s, lid)
    ensures LidPlanned(record, more, lid)
  {
  }

  lemma ChosenInRange(lid: string, total: int, entries: seq<Entry>, snapshots: seq<Snapshot>, chosen: seq<Choice>)
    requires ShapesOk(lid, total, entries, snapshots) && GoodChoices(entries, chosen)
    ensures forall k :: 0 <= k < |chosen| ==> 0 <= PiecesOf(lid, total, chosen)[k].snapshot < |snapshots|
  {
    forall k | 0 <= k < |chosen| ensures 0 <= PiecesOf(lid, total, chosen)[k].snapshot < |snapshots| {
      assert GoodChoice(entries, chosen[k]);
    }
  }

  lemma PlanOneMore(record: Record, ids: seq<string>, i: nat, pieces: seq<Piece>, chosen: seq<Choice>)
    requires i < |ids| && ids[i] in record.logical
    requires PiecesPlanned(record, ids[..i], pieces)
    requires var entries := EntriesOf(record, ids[i]);
      && ShapesOk(ids[i], record.logical[ids[i]].bytes, entries, record.snapshots) && ExactReplicas(entries)
      && GoodChoices(entries, chosen) && forall b :: ChosenAt(chosen, b) <==> CoveredBy(Spans(entries), b)
    ensures PiecesPlanned(record, ids[..i + 1], pieces + PiecesOf(ids[i], record.logical[ids[i]].bytes, chosen))
  {
    assert ids[..i + 1] == ids[..i] + [ids[i]];
    PlanAnother(record, ids[..i], ids[i], pieces, chosen);
  }

  lemma PlanAnother(record: Record, ids: seq<string>, lid: string, pieces: seq<Piece>, chosen: seq<Choice>)
    requires lid in record.logical && PiecesPlanned(record, ids, pieces)
    requires var entries := EntriesOf(record, lid);
      && ShapesOk(lid, record.logical[lid].bytes, entries, record.snapshots) && ExactReplicas(entries)
      && GoodChoices(entries, chosen) && forall b :: ChosenAt(chosen, b) <==> CoveredBy(Spans(entries), b)
    ensures PiecesPlanned(record, ids + [lid], pieces + PiecesOf(lid, record.logical[lid].bytes, chosen))
  {
    var total := record.logical[lid].bytes;
    LidIsPlanned(record, pieces, lid, chosen);
    OthersUnchanged(pieces, lid, total, chosen);
    ChosenInRange(lid, total, EntriesOf(record, lid), record.snapshots, chosen);
    CountOneMore(record, ids, lid, pieces, chosen);
    ExtendPlan(record, ids, lid, pieces, PiecesOf(lid, total, chosen));
  }

  /** The windows of one request send each byte once, from its source. */
  lemma ChosenCount(lid: string, total: int, entries: seq<Entry>, chosen: seq<Choice>, s: int)
    requires GoodChoices(entries, chosen) && ExactReplicas(entries)
    requires forall b :: ChosenAt(chosen, b) <==> CoveredBy(Spans(entries), b)
    ensures SentOften(entries, s, WindowsOf(PiecesOf(lid, total, chosen), s, lid), 1)
  {
    var windows := WindowsOf(PiecesOf(lid, total, chosen), s, lid);
    ChosenWindows(lid, total, entries, chosen, s);
    forall c ensures Count(windows, c) == if SourceOf(entries, c, s) then 1 else 0 {
      OrderedCount(windows, c);
      ChosenIsSource(entries, chosen, c, s);
      if SendsAny(windows, c, c, lid, total) {
        var k :| 0 <= k < |windows| && Sends(windows[k], c, c, lid, total);
        assert Covers(windows[k].logical, c);
      }
      if k :| 0 <= k < |windows| && Covers(windows[k].logical, c) {
        var w := windows[k];
        assert Sends(w, c, w.local.lo + (c - w.logical.lo), w.id, w.bytes);
        assert SendsAny(windows, c, w.local.lo + (c - w.logical.lo), w.id, w.bytes);
      }
    }
  }

  lemma CountOneMore(record: Record, ids: seq<string>, lid: string, pieces: seq<Piece>, chosen: seq<Choice>)
    requires PiecesCounted(record, ids, pieces) && lid in record.logical && ExactReplicas(EntriesOf(record, lid))
    requires GoodChoices(EntriesOf(record, lid), chosen)
    requires forall b :: ChosenAt(chosen, b) <==> CoveredBy(Spans(EntriesOf(record, lid)), b)
    ensures PiecesCounted(record, ids + [lid], pieces + PiecesOf(lid, record.logical[lid].bytes, chosen))
  {
    var block := PiecesOf(lid, record.logical[lid].bytes, chosen);
    forall other, s
      ensures SentOften(EntriesOf(record, other), s, WindowsOf(pieces + block, s, other), multiset(ids + [lid])[other])
    {
      WindowsOfConcat(pieces, block, s, other);
      var before, own := WindowsOf(pieces, s, other), WindowsOf(block, s, other);
      assert SentOften(EntriesOf(record, other), s, before, multiset(ids)[other]);
      if other == lid {
        ChosenCount(lid, record.logical[lid].bytes, EntriesOf(record, lid), chosen, s);
        SentOnceMore(EntriesOf(record, lid), s, before, own, multiset(ids)[lid]);
      } else {
        OtherWindows(lid, record.logical[lid].bytes, chosen, s, other);
        assert before + own == before;
      }
    }
  }

  lemma SentOnceMore(entries: seq<Entry>, s: int, a: seq<Window>, b: seq<Window>, times: nat)
    requires SentOften(entries, s, a, times) && SentOften(entries, s, b, 1)
    ensures SentOften(entries, s, a + b, times + 1)
  {
    forall c ensures Count(a + b, c) == if SourceOf(entries, c, s) then times + 1 else 0 {
      CountConcat(a, b, c);
    }
  }

  lemma ExtendPlan(record: Record, ids: seq<string>, lid: string, pieces: seq<Piece>, block: seq<Piece>)
    requires PiecesPlanned(record, ids, pieces)
    requires LidPlanned(record, pieces + block, lid)
    requires lid !in ids ==> forall s :: Ordered(WindowsOf(pieces + block, s, lid))
    requires forall other, s :: other != lid ==> WindowsOf(pieces + block, s, other) == WindowsOf(pieces, s, other)
    requires forall k :: 0 <= k < |block| ==> 0 <= block[k].snapshot < |record.snapshots|
    requires PiecesCounted(record, ids + [lid], pieces + block)
    ensures PiecesPlanned(record, ids + [lid], pieces + block)
  {
    forall other | other in ids && other != lid ensures LidPlanned(record, pieces + block, other) {
      SamePlan(record, pieces, pieces + block, other);
    }
    if Sorting.NoRepeats(ids + [lid]) {
      NoRepeatsPrefix(ids, lid);
      forall other, s ensures Ordered(WindowsOf(pieces + block, s, other)) {
        assert other != lid ==> WindowsOf(pieces + block, s, other) == WindowsOf(pieces, s, other);
      }
    }
  }

  lemma NoRepeatsPrefix(ids: seq<string>, lid: string)
    requires Sorting.NoRepeats(ids + [lid])
    ensures Sorting.NoRepeats(ids) && lid !in ids
  {
    var all := ids + [lid];
    forall i | 0 <= i < |ids| ensures ids[i] != lid {
      assert all[i] != all[|ids|];
    }
    forall i, j | 0 <= i < j < |ids| ensures ids[i] != ids[j] {
      assert all[i] != all[j];
    }
  }

  lemma PlannedIsWellformed(record: Record, ids: seq<string>, pieces: seq<Piece>)
    requires PiecesPlanned(record, ids, pieces)
    ensures PiecesWellformed(pieces)
  {
    forall s, lid ensures AllWellformed(WindowsOf(pieces, s, lid)) {
      if lid in ids {
        assert LidPlanned(record, pieces, lid);
      }
    }
  }

  /** `resolve_targets` for logical-view targets: validate, choose sources, merge per snapshot. */
  method ResolveLogical(record: Record, ids: seq<string>, digest: seq<Field> -> Digest)
    returns (r: Result<seq<PlanStep>, TargetError>)
    ensures r.Ok? <==> RecordValid(record, map[], digest) && forall lid :: lid in ids ==> lid in record.logical
    ensures r.Ok? ==> PlanExact(record, ids, r.value)
  {
    var v := ValidateRecord(record, map[], digest);
    if v.Refuse? {
      return Err(Invalid(v.reason));
    }
    var pieces := LogicalPieces(record, ids, digest);
    if pieces.Err? {
      return Err(pieces.error);
    }
    AllPiecesPlanned(record, ids, digest);
    PlannedIsWellformed(record, ids, pieces.value);
    var steps := MergeSteps(record.snapshots, pieces.value);
    PlanIsExact(record, ids, pieces.value, steps);
    r := Ok(steps);
  }
}
