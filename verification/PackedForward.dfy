/** Packed (varlen) execution of the qwen3.5 reference model: several sequences in one row of tokens,
    with restarted rope positions, a block-causal mask for the attention layers and per-segment
    resets for the gated DeltaNet layers. Vectors are exact reals; projections, norms, rope and the
    attention kernel are arbitrary per-token functions. */
module PackedForward {
  import opened Wrappers

  type Vec = seq<real>
  type Matrix = seq<seq<real>>
  type Positive = n: nat | n > 0 witness 1

  /** The coordinate, zero beyond the vector. */
  function Coord(v: Vec, i: nat): (x: real)
    ensures i < |v| ==> x == v[i]
  {
    if i < |v| then v[i] else 0.0
  }

  function Entry(s: Matrix, i: nat, j: nat): (x: real)
    ensures i < |s| && j < |s[i]| ==> x == s[i][j]
  {
    if i < |s| then Coord(s[i], j) else 0.0
  }

  function Add(a: Vec, b: Vec): Vec {
    seq(|a|, i requires 0 <= i < |a| => a[i] + Coord(b, i))
  }

  function Zeros(rows: nat, cols: nat): Matrix {
    seq(rows, _ => seq(cols, _ => 0.0))
  }

  // ---------------------------------------------------------------- the gated delta rule

  /** One token as one head of the recurrence sees it. */
  datatype Step = Step(q: Vec, k: Vec, v: Vec, beta: real, decay: real)

  /** Column `j` of `a . s`, over the first `n` rows. */
  function Dot(a: Vec, s: Matrix, j: nat, n: nat): real {
    if n == 0 then 0.0 else Dot(a, s, j, n - 1) + Coord(a, n - 1) * Entry(s, n - 1, j)
  }

  /** The inner product over the first `n` components. */
  function Inner(a: Vec, b: Vec, n: nat): real {
    if n == 0 then 0.0 else Inner(a, b, n - 1) + Coord(a, n - 1) * Coord(b, n - 1)
  }

  function Decayed(s: Matrix, decay: real, rows: nat, cols: nat): Matrix {
    seq(rows, i requires 0 <= i < rows => seq(cols, j requires 0 <= j < cols => Entry(s, i, j) * decay))
  }

  /** `beta * (v - k . s)`, the correction the token writes along its key. */
  function Update(step: Step, s: Matrix, rows: nat, cols: nat): Vec {
    seq(cols, j requires 0 <= j < cols => step.beta * (Coord(step.v, j) - Dot(step.k, s, j, rows)))
  }

  function Written(s: Matrix, k: Vec, u: Vec, rows: nat, cols: nat): Matrix {
    seq(rows, i requires 0 <= i < rows =>
      seq(cols, j requires 0 <= j < cols => Entry(s, i, j) + Coord(k, i) * Coord(u, j)))
  }

  function Advance(step: Step, s: Matrix, rows: nat, cols: nat): Matrix {
    var d := Decayed(s, step.decay, rows, cols);
    Written(d, step.k, Update(step, d, rows, cols), rows, cols)
  }

  function Recalled(a: Vec, scale: real, s: Matrix, rows: nat, cols: nat): Vec {
    seq(cols, j requires 0 <= j < cols => scale * Dot(a, s, j, rows))
  }

  /** Row `i` of `w` is that of `s` with `u` written along the key. */
  ghost predicate RowWritten(k: Vec, s: Matrix, w: Matrix, u: real, i: nat, j: nat) {
    Entry(w, i, j) == Entry(s, i, j) + Coord(k, i) * u
  }

  /** `after` is `before` plus `norm` times `u`. */
  predicate Moves(before: real, after: real, norm: real, u: real) {
    after == before + norm * u
  }

  lemma {:induction false} DotWritten(a: Vec, k: Vec, s: Matrix, w: Matrix, u: real, j: nat, n: nat)
    requires forall i :: 0 <= i < n ==> RowWritten(k, s, w, u, i, j)
    ensures Moves(Dot(a, s, j, n), Dot(a, w, j, n), Inner(a, k, n), u)
  {
    if n > 0 {
      DotWritten(a, k, s, w, u, j, n - 1);
      assert RowWritten(k, s, w, u, n - 1, j);
      OneMoreRow(a, k, s, w, u, j, n);
    }
  }

  lemma OneMoreRow(a: Vec, k: Vec, s: Matrix, w: Matrix, u: real, j: nat, n: nat)
    requires n > 0 && Moves(Dot(a, s, j, n - 1), Dot(a, w, j, n - 1), Inner(a, k, n - 1), u)
    requires RowWritten(k, s, w, u, n - 1, j)
    ensures Moves(Dot(a, s, j, n), Dot(a, w, j, n), Inner(a, k, n), u)
  {
    Expand(Dot(a, s, j, n - 1), Dot(a, w, j, n - 1), Inner(a, k, n - 1), u, Coord(a, n - 1), Entry(s, n - 1, j),
           Entry(w, n - 1, j), Coord(k, n - 1));
  }

  lemma Expand(before: real, after: real, inner: real, u: real, x: real, y: real, entry: real, z: real)
    requires Moves(before, after, inner, u) && entry == y + z * u
    ensures Moves(before + x * y, after + x * entry, inner + x * z, u)
  {
  }

  lemma RowsWritten(s: Matrix, k: Vec, u: Vec, rows: nat, cols: nat, j: nat)
    requires j < cols
    ensures forall i :: 0 <= i < rows ==> RowWritten(k, s, Written(s, k, u, rows, cols), Coord(u, j), i, j)
  {
  }

  lemma WrittenDot(a: Vec, s: Matrix, k: Vec, u: Vec, rows: nat, cols: nat, j: nat)
    requires j < cols
    ensures Moves(Dot(a, s, j, rows), Dot(a, Written(s, k, u, rows, cols), j, rows), Inner(a, k, rows), Coord(u, j))
  {
    var w := Written(s, k, u, rows, cols);
    assert forall i :: 0 <= i < rows ==> RowWritten(k, s, w, Coord(u, j), i, j) by {
      RowsWritten(s, k, u, rows, cols, j);
    }
    DotWritten(a, k, s, w, Coord(u, j), j, rows);
  }

  /** The delta rule: recalling a token's own key after it is written, instead of before, moves each
      component by `|k|^2` times the correction the token asked for. */
  lemma DeltaRuleStores(step: Step, s: Matrix, rows: nat, cols: nat, j: nat)
    requires j < cols
    ensures var d := Decayed(s, step.decay, rows, cols);
      Moves(Dot(step.k, d, j, rows), Dot(step.k, Advance(step, s, rows, cols), j, rows),
            Inner(step.k, step.k, rows), Coord(Update(step, d, rows, cols), j))
  {
    var d := Decayed(s, step.decay, rows, cols);
    WrittenDot(step.k, d, step.k, Update(step, d, rows, cols), rows, cols, j);
  }

  /** The error of recalling `v` shrinks from `v - before` to `v - after` by the factor `1 - beta * norm`. */
  predicate Contracts(v: real, before: real, after: real, beta: real, norm: real) {
    v - after == (1.0 - beta * norm) * (v - before)
  }

  predicate Corrects(v: real, before: real, u: real, beta: real) {
    u == beta * (v - before)
  }

  lemma Contract(v: real, before: real, after: real, beta: real, norm: real, u: real)
    requires Corrects(v, before, u, beta) && Moves(before, after, norm, u)
    ensures Contracts(v, before, after, beta, norm)
  {
    assert norm * u == (beta * norm) * (v - before);
  }

  /** What recalling a token's own key brings back. */
  function Recall(step: Step, s: Matrix, rows: nat, j: nat): real {
    Dot(step.k, s, j, rows)
  }

  lemma StepCorrects(step: Step, d: Matrix, rows: nat, cols: nat, j: nat)
    requires j < cols
    ensures Corrects(Coord(step.v, j), Recall(step, d, rows, j), Coord(Update(step, d, rows, cols), j), step.beta)
  {
  }

  lemma StepMoves(step: Step, s: Matrix, rows: nat, cols: nat, j: nat)
    requires j < cols
    ensures var d := Decayed(s, step.decay, rows, cols);
      Moves(Recall(step, d, rows, j), Recall(step, Advance(step, s, rows, cols), rows, j), Inner(step.k, step.k, rows),
            Coord(Update(step, d, rows, cols), j))
  {
    DeltaRuleStores(step, s, rows, cols, j);
  }

  /** Writing a token multiplies the error of recalling it by `1 - beta * |k|^2`. */
  lemma RecallContracts(step: Step, s: Matrix, rows: nat, cols: nat, j: nat)
    requires j < cols
    ensures Contracts(Coord(step.v, j), Recall(step, Decayed(s, step.decay, rows, cols), rows, j),
                      Recall(step, Advance(step, s, rows, cols), rows, j), step.beta, Inner(step.k, step.k, rows))
  {
    var d := Decayed(s, step.decay, rows, cols);
    StepCorrects(step, d, rows, cols, j);
    StepMoves(step, s, rows, cols, j);
    Contract(Coord(step.v, j), Recall(step, d, rows, j), Recall(step, Advance(step, s, rows, cols), rows, j),
             step.beta, Inner(step.k, step.k, rows), Coord(Update(step, d, rows, cols), j));
  }

  // ---------------------------------------------------------------- layers

  /** The linear mixer: what it projects per token, its causal convolution over a window of
      `width` inputs, and the head layout of the recurrence. */
  datatype LinMixer = LinMixer(
    convIn: Vec -> Vec, width: Positive, conv: seq<Vec> -> Vec, blank: Vec,
    heads: nat, rep: Positive, rows: nat, cols: nat, scale: real,
    q: (Vec, nat) -> Vec, k: (Vec, nat) -> Vec, v: (Vec, nat) -> Vec,
    beta: (Vec, nat) -> real, decay: (Vec, nat) -> real,
    out: (seq<Vec>, Vec) -> Vec)

  /** The full mixer: attention sees a query and the ordered list of live keys and values. */
  datatype FullMixer = FullMixer(
    q: (Vec, Vec) -> Vec, k: (Vec, Vec) -> Vec, v: Vec -> Vec,
    attend: (Vec, seq<(Vec, Vec)>) -> Vec, out: (Vec, Vec) -> Vec)

  datatype Mixer = Lin(lin: LinMixer) | Full(full: FullMixer)

  datatype Layer = Layer(norm: Vec -> Vec, mixer: Mixer, mlp: Vec -> Vec)

  datatype Model = Model(embed: nat -> Vec, rope: nat -> Vec, layers: seq<Layer>, head: Vec -> Vec)

  /** The convolution window ending at `t`, padded on the left. */
  function Window(xs: seq<Vec>, t: nat, width: Positive, blank: Vec): seq<Vec>
    requires t < |xs|
  {
    seq(width, j requires 0 <= j < width => if t + 1 + j < width then blank else xs[t + 1 + j - width])
  }

  function Convolved(m: LinMixer, h: seq<Vec>): (posts: seq<Vec>)
    ensures |posts| == |h|
  {
    var xs := seq(|h|, t requires 0 <= t < |h| => m.convIn(h[t]));
    seq(|h|, t requires 0 <= t < |h| => m.conv(Window(xs, t, m.width, m.blank)))
  }

  /** Value head `i` shares the key head `i / rep`. */
  function StepOf(m: LinMixer, post: Vec, h: Vec, i: nat): Step {
    Step(m.q(post, i / m.rep), m.k(post, i / m.rep), m.v(post, i), m.beta(h, i), m.decay(h, i))
  }

  /** The state of head `i` after the first `t` tokens. */
  function StateAfter(m: LinMixer, posts: seq<Vec>, h: seq<Vec>, i: nat, t: nat): Matrix
    requires |posts| == |h| && t <= |h|
  {
    if t == 0 then Zeros(m.rows, m.cols)
    else Advance(StepOf(m, posts[t - 1], h[t - 1], i), StateAfter(m, posts, h, i, t - 1), m.rows, m.cols)
  }

  function HeadOutput(m: LinMixer, posts: seq<Vec>, h: seq<Vec>, i: nat, t: nat): Vec
    requires |posts| == |h| && t < |h|
  {
    Recalled(m.q(posts[t], i / m.rep), m.scale, StateAfter(m, posts, h, i, t + 1), m.rows, m.cols)
  }

  function HeadOutputs(m: LinMixer, posts: seq<Vec>, h: seq<Vec>, t: nat): seq<Vec>
    requires |posts| == |h| && t < |h|
  {
    seq(m.heads, i requires 0 <= i < m.heads => HeadOutput(m, posts, h, i, t))
  }

  /** The linear mixer on a single sequence. */
  function LinRows(m: LinMixer, h: seq<Vec>): (rows: seq<Vec>)
    ensures |rows| == |h|
  {
    var posts := Convolved(m, h);
    seq(|h|, t requires 0 <= t < |h| => m.out(HeadOutputs(m, posts, h, t), h[t]))
  }

  /** The loop over tokens: all heads advance together from a zero state. */
  method DeltaRule(m: LinMixer, posts: seq<Vec>, h: seq<Vec>) returns (outs: seq<seq<Vec>>)
    requires |posts| == |h|
    ensures |outs| == |h| && forall t :: 0 <= t < |h| ==> outs[t] == HeadOutputs(m, posts, h, t)
  {
    var state := seq(m.heads, _ => Zeros(m.rows, m.cols));
    outs := [];
    for t := 0 to |h|
      invariant |state| == m.heads && |outs| == t
      invariant forall i :: 0 <= i < m.heads ==> state[i] == StateAfter(m, posts, h, i, t)
      invariant forall u :: 0 <= u < t ==> outs[u] == HeadOutputs(m, posts, h, u)
    {
      state := seq(m.heads, i requires 0 <= i < m.heads =>
        Advance(StepOf(m, posts[t], h[t], i), state[i], m.rows, m.cols));
      var row := seq(m.heads, i requires 0 <= i < m.heads =>
        Recalled(m.q(posts[t], i / m.rep), m.scale, state[i], m.rows, m.cols));
      assert row == HeadOutputs(m, posts, h, t);
      outs := outs + [row];
    }
  }

  // ---------------------------------------------------------------- the layout of a packed round

  function Total(lens: seq<nat>): nat {
    if lens == [] then 0 else Total(lens[..|lens| - 1]) + lens[|lens| - 1]
  }

  /** Where sequence `s` starts. */
  function Start(lens: seq<nat>, s: nat): nat
    requires s <= |lens|
  {
    Total(lens[..s])
  }

  /** Which sequence a token belongs to, and where in it: the reference for masks and positions. */
  function SeqOf(lens: seq<nat>, t: nat): nat
    requires t < Total(lens)
  {
    var rest := lens[..|lens| - 1];
    if t < Total(rest) then SeqOf(rest, t) else |rest|
  }

  function PosOf(lens: seq<nat>, t: nat): nat
    requires t < Total(lens)
  {
    var rest := lens[..|lens| - 1];
    if t < Total(rest) then PosOf(rest, t) else t - Total(rest)
  }

  lemma StartStep(lens: seq<nat>, s: nat)
    requires s < |lens|
    ensures Start(lens, s + 1) == Start(lens, s) + lens[s]
  {
    assert lens[..s + 1][..s] == lens[..s];
  }

  lemma {:induction false} StartGrows(lens: seq<nat>, s: nat, r: nat)
    requires s <= r <= |lens|
    ensures Start(lens, s) <= Start(lens, r) <= Total(lens)
    decreases |lens| - s
  {
    if s < r {
      StartStep(lens, s);
      StartGrows(lens, s + 1, r);
    } else if r < |lens| {
      StartStep(lens, r);
      StartGrows(lens, r + 1, |lens|);
    } else {
      assert lens[..r] == lens;
    }
  }

  /** The token `p` of sequence `s` sits at `Start(s) + p`, and nowhere else. */
  lemma {:induction false} TokenAt(lens: seq<nat>, s: nat, p: nat)
    requires s < |lens| && p < lens[s]
    ensures Start(lens, s) + p < Total(lens)
    ensures SeqOf(lens, Start(lens, s) + p) == s && PosOf(lens, Start(lens, s) + p) == p
    decreases |lens|
  {
    var rest := lens[..|lens| - 1];
    StartStep(lens, s);
    StartGrows(lens, s + 1, |lens|);
    if s < |rest| {
      TokenAt(rest, s, p);
      assert rest[..s] == lens[..s];
    }
  }

  lemma {:induction false} TokenOf(lens: seq<nat>, t: nat)
    requires t < Total(lens)
    ensures SeqOf(lens, t) < |lens| && PosOf(lens, t) < lens[SeqOf(lens, t)]
    ensures Start(lens, SeqOf(lens, t)) + PosOf(lens, t) == t
  {
    var rest := lens[..|lens| - 1];
    if t < Total(rest) {
      TokenOf(rest, t);
      assert rest[..SeqOf(rest, t)] == lens[..SeqOf(rest, t)];
    }
  }

  /** A token is in sequence `s` exactly when it lies between that sequence's bounds. */
  lemma InSequence(lens: seq<nat>, s: nat, t: nat)
    requires s < |lens| && t < Total(lens)
    ensures SeqOf(lens, t) == s <==> Start(lens, s) <= t < Start(lens, s + 1)
  {
    TokenOf(lens, t);
    StartStep(lens, SeqOf(lens, t));
    if Start(lens, s) <= t < Start(lens, s + 1) {
      StartStep(lens, s);
      TokenAt(lens, s, t - Start(lens, s));
    }
  }

  /** `packed_positions`: every sequence restarts at zero. */
  function PackedPositions(lens: seq<nat>): (pos: seq<nat>)
    ensures |pos| == Total(lens)
  {
    if lens == [] then []
    else PackedPositions(lens[..|lens| - 1]) + seq(lens[|lens| - 1], p requires 0 <= p < lens[|lens| - 1] => p)
  }

  lemma {:induction false} PositionsRestart(lens: seq<nat>, t: nat)
    requires t < Total(lens)
    ensures PackedPositions(lens)[t] == PosOf(lens, t)
  {
    if t < Total(lens[..|lens| - 1]) {
      PositionsRestart(lens[..|lens| - 1], t);
    }
  }

  method SequenceBounds(lens: seq<nat>) returns (bounds: seq<(nat, nat)>)
    ensures |bounds| == |lens|
    ensures forall s :: 0 <= s < |lens| ==> bounds[s] == (Start(lens, s), Start(lens, s + 1))
  {
    bounds := [];
    var lo := 0;
    for s := 0 to |lens|
      invariant |bounds| == s && lo == Start(lens, s)
      invariant forall r :: 0 <= r < s ==> bounds[r] == (Start(lens, r), Start(lens, r + 1))
    {
      StartStep(lens, s);
      bounds := bounds + [(lo, lo + lens[s])];
      lo := lo + lens[s];
    }
  }

  /** Whether query `i` sees key `j`: same sequence, not later. */
  predicate Visible(lens: seq<nat>, i: nat, j: nat)
    requires i < Total(lens) && j < Total(lens)
  {
    SeqOf(lens, i) == SeqOf(lens, j) && j <= i
  }

  ghost predicate IsMask(lens: seq<nat>, mask: seq<seq<bool>>) {
    && |mask| == Total(lens)
    && (forall i {:trigger IsMaskRow(lens, mask[i], i)} :: 0 <= i < |mask| ==> IsMaskRow(lens, mask[i], i))
  }

  ghost predicate IsMaskRow(lens: seq<nat>, row: seq<bool>, i: nat)
    requires i < Total(lens)
  {
    |row| == Total(lens) && forall j :: 0 <= j < |row| ==> (row[j] <==> !Visible(lens, i, j))
  }

  /** Row `i` of the block of `n` tokens at `lo`: blocked strictly above the diagonal. */
  function BlockRow(row: seq<bool>, lo: nat, n: nat, i: nat): (r: seq<bool>)
    requires lo + n <= |row|
    ensures |r| == |row|
    ensures forall j :: 0 <= j < |row| ==> r[j] == if lo <= j < lo + n then j > i else row[j]
  {
    row[..lo] + seq(n, j requires 0 <= j < n => lo + j > i) + row[lo + n..]
  }

  /** Everything blocked, then one causal block per sequence written in place. */
  method BlockCausalMask(lens: seq<nat>) returns (mask: seq<seq<bool>>)
    ensures IsMask(lens, mask)
  {
    var t := Total(lens);
    var m := new seq<bool>[t](_ => seq(t, _ => true));
    var lo := 0;
    for s := 0 to |lens|
      invariant lo == Start(lens, s) <= t && fresh(m)
      invariant forall i :: 0 <= i < t ==> |m[i]| == t
      invariant forall i, j :: 0 <= i < t && 0 <= j < t ==>
        (m[i][j] <==> !(SeqOf(lens, i) < s && Visible(lens, i, j)))
    {
      var n := lens[s];
      StartStep(lens, s);
      StartGrows(lens, s + 1, |lens|);
      ghost var was := m[..];
      forall i | lo <= i < lo + n {
        m[i] := BlockRow(m[i], lo, n, i);
      }
      forall i, j | 0 <= i < t && 0 <= j < t
        ensures m[i][j] <==> !(SeqOf(lens, i) < s + 1 && Visible(lens, i, j))
      {
        InSequence(lens, s, i);
        InSequence(lens, s, j);
        assert was[i][j] <==> !(SeqOf(lens, i) < s && Visible(lens, i, j));
      }
      lo := lo + n;
    }
    mask := m[..];
    forall i | 0 <= i < t ensures IsMaskRow(lens, mask[i], i) {
      TokenOf(lens, i);
    }
  }

  // ---------------------------------------------------------------- attention over live keys

  /** The unblocked keys below `n`, in order. */
  function Live(blocked: seq<bool>, n: nat): seq<nat>
    requires n <= |blocked|
  {
    if n == 0 then [] else Live(blocked, n - 1) + if blocked[n - 1] then [] else [n - 1]
  }

  function Range(lo: nat, n: nat): (r: seq<nat>)
    ensures |r| == n && forall i :: 0 <= i < n ==> r[i] == lo + i
  {
    seq(n, i requires 0 <= i < n => lo + i)
  }

  lemma {:induction false} LiveIsRange(blocked: seq<bool>, lo: nat, hi: nat, n: nat)
    requires n <= |blocked| && lo <= hi
    requires forall j :: 0 <= j < n ==> (blocked[j] <==> !(lo <= j < hi))
    ensures Live(blocked, n) == Range(lo, if n <= lo then 0 else if n <= hi then n - lo else hi - lo)
  {
    if n > 0 {
      LiveIsRange(blocked, lo, hi, n - 1);
    }
  }

  function RowAt(h: seq<Vec>, t: nat): Vec {
    if t < |h| then h[t] else []
  }

  function KeyAt(m: FullMixer, h: seq<Vec>, ropes: seq<Vec>, j: nat): (Vec, Vec) {
    (m.k(RowAt(h, j), RowAt(ropes, j)), m.v(RowAt(h, j)))
  }

  function KeysAt(m: FullMixer, h: seq<Vec>, ropes: seq<Vec>, live: seq<nat>): (keys: seq<(Vec, Vec)>)
    ensures |keys| == |live| && forall i :: 0 <= i < |live| ==> keys[i] == KeyAt(m, h, ropes, live[i])
  {
    seq(|live|, i requires 0 <= i < |live| => KeyAt(m, h, ropes, live[i]))
  }

  function Attended(m: FullMixer, h: seq<Vec>, ropes: seq<Vec>, t: nat, live: seq<nat>): Vec {
    m.out(m.attend(m.q(RowAt(h, t), RowAt(ropes, t)), KeysAt(m, h, ropes, live)), RowAt(h, t))
  }

  /** The plain causal path. */
  function CausalRows(m: FullMixer, h: seq<Vec>, ropes: seq<Vec>): (rows: seq<Vec>)
    ensures |rows| == |h|
    ensures forall t :: 0 <= t < |h| ==> rows[t] == Attended(m, h, ropes, t, Range(0, t + 1))
  {
    seq(|h|, t requires 0 <= t < |h| => Attended(m, h, ropes, t, Range(0, t + 1)))
  }

  function MaskedRows(m: FullMixer, h: seq<Vec>, ropes: seq<Vec>, mask: seq<seq<bool>>): (rows: seq<Vec>)
    requires |mask| == |h|
    ensures |rows| == |h|
    ensures forall t :: 0 <= t < |h| ==> rows[t] == Attended(m, h, ropes, t, Live(mask[t], |mask[t]|))
  {
    seq(|h|, t requires 0 <= t < |h| => Attended(m, h, ropes, t, Live(mask[t], |mask[t]|)))
  }

  lemma SegmentFits(lens: seq<nat>, s: nat)
    requires s < |lens|
    ensures Start(lens, s) + lens[s] <= Total(lens)
  {
    StartStep(lens, s);
    StartGrows(lens, s + 1, |lens|);
  }

  function Slice<T>(xs: seq<T>, lo: nat, n: nat): (r: seq<T>)
    requires lo + n <= |xs|
    ensures |r| == n
  {
    xs[lo..lo + n]
  }

  /** Sequence `s` of packed rows. */
  function Segment<T>(xs: seq<T>, lens: seq<nat>, s: nat): (r: seq<T>)
    requires |xs| == Total(lens) && s < |lens|
    ensures |r| == lens[s]
  {
    SegmentFits(lens, s);
    Slice(xs, Start(lens, s), lens[s])
  }

  /** The live keys of a packed token are its own sequence's causal prefix. */
  lemma LiveIsOwnPrefix(lens: seq<nat>, mask: seq<seq<bool>>, s: nat, p: nat)
    requires IsMask(lens, mask) && s < |lens| && p < lens[s]
    ensures Start(lens, s) + p < Total(lens)
    ensures |mask[Start(lens, s) + p]| == Total(lens)
    ensures Live(mask[Start(lens, s) + p], Total(lens)) == Range(Start(lens, s), p + 1)
  {
    var lo, t := Start(lens, s), Start(lens, s) + p;
    TokenAt(lens, s, p);
    assert IsMaskRow(lens, mask[t], t);
    forall j | 0 <= j < Total(lens) ensures mask[t][j] <==> !(lo <= j < t + 1) {
      StartStep(lens, s);
      InSequence(lens, s, j);
    }
    LiveIsRange(mask[t], lo, t + 1, Total(lens));
  }

  lemma SameAttention(m: FullMixer, h: seq<Vec>, ropes: seq<Vec>, h': seq<Vec>, ropes': seq<Vec>, lo: nat, p: nat)
    requires |ropes| == |h| && |ropes'| == |h'| && lo + |h'| <= |h| && p < |h'|
    requires h' == h[lo..lo + |h'|] && ropes' == ropes[lo..lo + |h'|]
    ensures Attended(m, h, ropes, lo + p, Range(lo, p + 1)) == Attended(m, h', ropes', p, Range(0, p + 1))
  {
    var keys, keys' := KeysAt(m, h, ropes, Range(lo, p + 1)), KeysAt(m, h', ropes', Range(0, p + 1));
    forall i | 0 <= i < p + 1 ensures keys[i] == keys'[i] {
      assert h[lo + i] == h'[i] && ropes[lo + i] == ropes'[i];
    }
    assert keys == keys' && h[lo + p] == h'[p] && ropes[lo + p] == ropes'[p];
  }

  /** Row `lo + p` attends exactly to the keys from `lo` up to itself. */
  ghost predicate AttendsFrom(m: FullMixer, h: seq<Vec>, ropes: seq<Vec>, rows: seq<Vec>, lo: nat, p: nat) {
    lo + p < |rows| && rows[lo + p] == Attended(m, h, ropes, lo + p, Range(lo, p + 1))
  }

  lemma MaskedToken(m: FullMixer, h: seq<Vec>, ropes: seq<Vec>, mask: seq<seq<bool>>, lens: seq<nat>, s: nat, p: nat)
    requires |h| == Total(lens) && IsMask(lens, mask) && s < |lens| && p < lens[s]
    ensures AttendsFrom(m, h, ropes, MaskedRows(m, h, ropes, mask), Start(lens, s), p)
  {
    LiveIsOwnPrefix(lens, mask, s, p);
  }

  lemma MatchRows(m: FullMixer, h: seq<Vec>, ropes: seq<Vec>, rows: seq<Vec>, lo: nat, n: nat)
    requires lo + n <= |h| == |ropes| == |rows|
    requires forall p :: 0 <= p < n ==> AttendsFrom(m, h, ropes, rows, lo, p)
    ensures Slice(rows, lo, n) == CausalRows(m, Slice(h, lo, n), Slice(ropes, lo, n))
  {
    var rows', alone := Slice(rows, lo, n), CausalRows(m, Slice(h, lo, n), Slice(ropes, lo, n));
    forall p | 0 <= p < n ensures rows'[p] == alone[p] {
      assert AttendsFrom(m, h, ropes, rows, lo, p);
      SameAttention(m, h, ropes, Slice(h, lo, n), Slice(ropes, lo, n), lo, p);
    }
  }

  lemma AllAttendFrom(m: FullMixer, h: seq<Vec>, ropes: seq<Vec>, mask: seq<seq<bool>>, lens: seq<nat>, s: nat)
    requires |h| == Total(lens) && IsMask(lens, mask) && s < |lens|
    ensures forall p :: 0 <= p < lens[s] ==> AttendsFrom(m, h, ropes, MaskedRows(m, h, ropes, mask), Start(lens, s), p)
  {
    forall p | 0 <= p < lens[s] ensures AttendsFrom(m, h, ropes, MaskedRows(m, h, ropes, mask), Start(lens, s), p) {
      MaskedToken(m, h, ropes, mask, lens, s, p);
    }
  }

  lemma MatchSegment(m: FullMixer, h: seq<Vec>, ropes: seq<Vec>, rows: seq<Vec>, lens: seq<nat>, s: nat)
    requires |h| == |ropes| == |rows| == Total(lens) && s < |lens|
    requires forall p :: 0 <= p < lens[s] ==> AttendsFrom(m, h, ropes, rows, Start(lens, s), p)
    ensures Segment(rows, lens, s) == CausalRows(m, Segment(h, lens, s), Segment(ropes, lens, s))
  {
    SegmentFits(lens, s);
    MatchRows(m, h, ropes, rows, Start(lens, s), lens[s]);
  }

  lemma AttentionStaysInside(m: FullMixer, h: seq<Vec>, ropes: seq<Vec>, mask: seq<seq<bool>>, lens: seq<nat>, s: nat)
    requires |h| == |ropes| == Total(lens) && IsMask(lens, mask) && s < |lens|
    ensures Segment(MaskedRows(m, h, ropes, mask), lens, s) ==
      CausalRows(m, Segment(h, lens, s), Segment(ropes, lens, s))
  {
    AllAttendFrom(m, h, ropes, mask, lens, s);
    MatchSegment(m, h, ropes, MaskedRows(m, h, ropes, mask), lens, s);
  }

  // ---------------------------------------------------------------- the recurrence, segment by segment

  ghost predicate AreBounds(lens: seq<nat>, bounds: seq<(nat, nat)>) {
    && |bounds| == |lens|
    && (forall s :: 0 <= s < |lens| ==> bounds[s] == (Start(lens, s), Start(lens, s + 1)))
  }

  /** The linear mixer over the first `n` sequences of a packed round: the single-sequence path on
      each, concatenated. */
  function JoinedLin(m: LinMixer, h: seq<Vec>, lens: seq<nat>, n: nat): (rows: seq<Vec>)
    requires |h| == Total(lens) && n <= |lens|
    ensures |rows| == Start(lens, n)
  {
    if n == 0 then []
    else
      StartStep(lens, n - 1);
      JoinedLin(m, h, lens, n - 1) + LinRows(m, Segment(h, lens, n - 1))
  }

  function PackedLin(m: LinMixer, h: seq<Vec>, lens: seq<nat>): (rows: seq<Vec>)
    requires |h| == Total(lens)
    ensures |rows| == |h|
  {
    assert lens[..|lens|] == lens;
    JoinedLin(m, h, lens, |lens|)
  }

  lemma {:induction false} JoinedSegment(m: LinMixer, h: seq<Vec>, lens: seq<nat>, n: nat, s: nat)
    requires |h| == Total(lens) && s < n <= |lens|
    ensures Start(lens, s) + lens[s] <= Start(lens, n)
    ensures JoinedLin(m, h, lens, n)[Start(lens, s)..Start(lens, s) + lens[s]] == LinRows(m, Segment(h, lens, s))
  {
    StartStep(lens, n - 1);
    if s < n - 1 {
      JoinedSegment(m, h, lens, n - 1, s);
    }
  }

  lemma RecurrenceStaysInside(m: LinMixer, h: seq<Vec>, lens: seq<nat>, s: nat)
    requires |h| == Total(lens) && s < |lens|
    ensures Segment(PackedLin(m, h, lens), lens, s) == LinRows(m, Segment(h, lens, s))
  {
    JoinedSegment(m, h, lens, |lens|, s);
  }

  // ---------------------------------------------------------------- blocks and stacks

  function Mapped<A, B>(f: A -> B, xs: seq<A>): (ys: seq<B>)
    ensures |ys| == |xs| && forall t :: 0 <= t < |xs| ==> ys[t] == f(xs[t])
  {
    seq(|xs|, t requires 0 <= t < |xs| => f(xs[t]))
  }

  function Added(a: seq<Vec>, b: seq<Vec>): (c: seq<Vec>)
    requires |a| == |b|
    ensures |c| == |a| && forall t :: 0 <= t < |a| ==> c[t] == Add(a[t], b[t])
  {
    seq(|a|, t requires 0 <= t < |a| => Add(a[t], b[t]))
  }

  /** Residual, then the feed-forward half: the part of a block that treats tokens one by one. */
  function Finished(layer: Layer, x: seq<Vec>, mix: seq<Vec>): (r: seq<Vec>)
    requires |x| == |mix|
    ensures |r| == |x|
  {
    var xo := Added(x, mix);
    Added(xo, Mapped(layer.mlp, xo))
  }

  /** A block on one sequence. */
  function Block(layer: Layer, x: seq<Vec>, ropes: seq<Vec>): (r: seq<Vec>)
    requires |x| == |ropes|
    ensures |r| == |x|
  {
    var h := Mapped(layer.norm, x);
    Finished(layer, x, match layer.mixer
                       case Lin(m) => LinRows(m, h)
                       case Full(m) => CausalRows(m, h, ropes))
  }

  /** A block on a packed round. */
  function PackedBlock(layer: Layer, x: seq<Vec>, ropes: seq<Vec>, lens: seq<nat>, mask: seq<seq<bool>>): (r: seq<Vec>)
    requires |x| == |ropes| == Total(lens) && IsMask(lens, mask)
    ensures |r| == |x|
  {
    var h := Mapped(layer.norm, x);
    Finished(layer, x, match layer.mixer
                       case Lin(m) => PackedLin(m, h, lens)
                       case Full(m) => MaskedRows(m, h, ropes, mask))
  }

  lemma MappedSegment<A, B>(f: A -> B, xs: seq<A>, lens: seq<nat>, s: nat)
    requires |xs| == Total(lens) && s < |lens|
    ensures Segment(Mapped(f, xs), lens, s) == Mapped(f, Segment(xs, lens, s))
  {
    SegmentFits(lens, s);
  }

  lemma AddedSlice(a: seq<Vec>, b: seq<Vec>, lo: nat, n: nat)
    requires |a| == |b| && lo + n <= |a|
    ensures Slice(Added(a, b), lo, n) == Added(Slice(a, lo, n), Slice(b, lo, n))
  {
    forall t | 0 <= t < n ensures Slice(Added(a, b), lo, n)[t] == Added(Slice(a, lo, n), Slice(b, lo, n))[t] {
      assert Slice(a, lo, n)[t] == a[lo + t] && Slice(b, lo, n)[t] == b[lo + t];
    }
  }

  lemma AddedSegment(a: seq<Vec>, b: seq<Vec>, lens: seq<nat>, s: nat)
    requires |a| == |b| == Total(lens) && s < |lens|
    ensures Segment(Added(a, b), lens, s) == Added(Segment(a, lens, s), Segment(b, lens, s))
  {
    SegmentFits(lens, s);
    AddedSlice(a, b, Start(lens, s), lens[s]);
  }

  lemma FinishedSegment(layer: Layer, x: seq<Vec>, mix: seq<Vec>, lens: seq<nat>, s: nat)
    requires |x| == |mix| == Total(lens) && s < |lens|
    ensures Segment(Finished(layer, x, mix), lens, s) == Finished(layer, Segment(x, lens, s), Segment(mix, lens, s))
  {
    var xo := Added(x, mix);
    AddedSegment(x, mix, lens, s);
    MappedSegment(layer.mlp, xo, lens, s);
    AddedSegment(xo, Mapped(layer.mlp, xo), lens, s);
  }

  /** One packed block, restricted to one sequence, is the block on that sequence alone. */
  lemma BlockStaysInside(layer: Layer, x: seq<Vec>, ropes: seq<Vec>, lens: seq<nat>, mask: seq<seq<bool>>, s: nat)
    requires |x| == |ropes| == Total(lens) && IsMask(lens, mask) && s < |lens|
    ensures Segment(PackedBlock(layer, x, ropes, lens, mask), lens, s) ==
      Block(layer, Segment(x, lens, s), Segment(ropes, lens, s))
  {
    var h := Mapped(layer.norm, x);
    MappedSegment(layer.norm, x, lens, s);
    match layer.mixer {
      case Lin(m) =>
        RecurrenceStaysInside(m, h, lens, s);
        FinishedSegment(layer, x, PackedLin(m, h, lens), lens, s);
      case Full(m) =>
        AttentionStaysInside(m, h, ropes, mask, lens, s);
        FinishedSegment(layer, x, MaskedRows(m, h, ropes, mask), lens, s);
    }
  }

  function Stack(layers: seq<Layer>, x: seq<Vec>, ropes: seq<Vec>): (r: seq<Vec>)
    requires |x| == |ropes|
    ensures |r| == |x|
  {
    if layers == [] then x else Block(layers[|layers| - 1], Stack(layers[..|layers| - 1], x, ropes), ropes)
  }

  function PackedStack(layers: seq<Layer>, x: seq<Vec>, ropes: seq<Vec>, lens: seq<nat>, mask: seq<seq<bool>>)
    : (r: seq<Vec>)
    requires |x| == |ropes| == Total(lens) && IsMask(lens, mask)
    ensures |r| == |x|
  {
    if layers == [] then x
    else PackedBlock(layers[|layers| - 1], PackedStack(layers[..|layers| - 1], x, ropes, lens, mask), ropes, lens, mask)
  }

  lemma {:induction false} StackStaysInside(layers: seq<Layer>, x: seq<Vec>, ropes: seq<Vec>, lens: seq<nat>,
                                           mask: seq<seq<bool>>, s: nat)
    requires |x| == |ropes| == Total(lens) && IsMask(lens, mask) && s < |lens|
    ensures Segment(PackedStack(layers, x, ropes, lens, mask), lens, s) ==
      Stack(layers, Segment(x, lens, s), Segment(ropes, lens, s))
  {
    if layers != [] {
      var rest := layers[..|layers| - 1];
      StackStaysInside(rest, x, ropes, lens, mask, s);
      BlockStaysInside(layers[|layers| - 1], PackedStack(rest, x, ropes, lens, mask), ropes, lens, mask, s);
    }
  }

  // ---------------------------------------------------------------- the whole forward

  datatype ForwardError = NotPacked | NoSequences | EmptySegment

  predicate HasLin(layers: seq<Layer>) {
    exists i :: 0 <= i < |layers| && layers[i].mixer.Lin?
  }

  predicate SomeEmpty(lens: seq<nat>) {
    exists s :: 0 <= s < |lens| && lens[s] == 0
  }

  function RopeTable(model: Model, n: nat): (table: seq<Vec>)
    ensures |table| == n && forall p :: 0 <= p < n ==> table[p] == model.rope(p)
  {
    seq(n, p requires 0 <= p < n => model.rope(p))
  }

  /** The forward of one sequence on its own: the meaning a packed round must reproduce. */
  function Alone(model: Model, tokens: seq<nat>): (rows: seq<Vec>)
    ensures |rows| == |tokens|
  {
    Mapped(model.head, Stack(model.layers, Mapped(model.embed, tokens), RopeTable(model, |tokens|)))
  }

  /** The convolution has no window over an empty segment. */
  method LinForward(m: LinMixer, h: seq<Vec>) returns (r: Result<seq<Vec>, ForwardError>)
    ensures r == if h == [] then Err(EmptySegment) else Ok(LinRows(m, h))
  {
    if h == [] {
      return Err(EmptySegment);
    }
    var posts := Convolved(m, h);
    var outs := DeltaRule(m, posts, h);
    var rows := seq(|h|, t requires 0 <= t < |h| => m.out(outs[t], h[t]));
    assert rows == LinRows(m, h);
    return Ok(rows);
  }

  method LinForwardPacked(m: LinMixer, h: seq<Vec>, bounds: seq<(nat, nat)>, ghost lens: seq<nat>)
    returns (r: Result<seq<Vec>, ForwardError>)
    requires |h| == Total(lens) && AreBounds(lens, bounds)
    ensures r == if SomeEmpty(lens) then Err(EmptySegment) else Ok(PackedLin(m, h, lens))
  {
    var rows := [];
    for s := 0 to |bounds|
      invariant rows == JoinedLin(m, h, lens, s) && forall i :: 0 <= i < s ==> lens[i] > 0
    {
      StartStep(lens, s);
      SegmentFits(lens, s);
      var segment := h[bounds[s].0..bounds[s].1];
      assert segment == Segment(h, lens, s);
      var part := LinForward(m, segment);
      if part.Err? {
        return part;
      }
      rows := rows + part.value;
    }
    return Ok(rows);
  }

  method BlockForward(layer: Layer, x: seq<Vec>, ropes: seq<Vec>) returns (r: Result<seq<Vec>, ForwardError>)
    requires |x| == |ropes|
    ensures r == if layer.mixer.Lin? && x == [] then Err(EmptySegment) else Ok(Block(layer, x, ropes))
  {
    var h := Mapped(layer.norm, x);
    match layer.mixer {
      case Lin(m) =>
        var mix := LinForward(m, h);
        if mix.Err? {
          return mix;
        }
        return Ok(Finished(layer, x, mix.value));
      case Full(m) =>
        return Ok(Finished(layer, x, CausalRows(m, h, ropes)));
    }
  }

  method PackedBlockForward(layer: Layer, x: seq<Vec>, ropes: seq<Vec>, mask: seq<seq<bool>>, bounds: seq<(nat, nat)>,
                            ghost lens: seq<nat>)
    returns (r: Result<seq<Vec>, ForwardError>)
    requires |x| == |ropes| == Total(lens) && IsMask(lens, mask) && AreBounds(lens, bounds)
    ensures r == if layer.mixer.Lin? && SomeEmpty(lens) then Err(EmptySegment)
                 else Ok(PackedBlock(layer, x, ropes, lens, mask))
  {
    var h := Mapped(layer.norm, x);
    match layer.mixer {
      case Lin(m) =>
        var mix := LinForwardPacked(m, h, bounds, lens);
        if mix.Err? {
          return mix;
        }
        return Ok(Finished(layer, x, mix.value));
      case Full(m) =>
        return Ok(Finished(layer, x, MaskedRows(m, h, ropes, mask)));
    }
  }

  lemma HasLinStep(layers: seq<Layer>, i: nat)
    requires i < |layers|
    ensures HasLin(layers[..i + 1]) <==> HasLin(layers[..i]) || layers[i].mixer.Lin?
    ensures layers[i].mixer.Lin? ==> HasLin(layers)
  {
    var before, after := layers[..i], layers[..i + 1];
    if j :| 0 <= j < |before| && before[j].mixer.Lin? {
      assert after[j].mixer.Lin?;
    }
    if layers[i].mixer.Lin? {
      assert after[i].mixer.Lin?;
    }
    if j :| 0 <= j < |after| && after[j].mixer.Lin? {
      assert j < i ==> before[j].mixer.Lin?;
    }
  }

  lemma StackStep(layers: seq<Layer>, x: seq<Vec>, ropes: seq<Vec>, i: nat)
    requires |x| == |ropes| && i < |layers|
    ensures Stack(layers[..i + 1], x, ropes) == Block(layers[i], Stack(layers[..i], x, ropes), ropes)
  {
    assert layers[..i + 1][..i] == layers[..i];
  }

  /** The loop over blocks for one sequence. */
  method ForwardAlone(model: Model, tokens: seq<nat>) returns (r: Result<seq<Vec>, ForwardError>)
    ensures r == if HasLin(model.layers) && tokens == [] then Err(EmptySegment) else Ok(Alone(model, tokens))
  {
    var x, ropes := Mapped(model.embed, tokens), RopeTable(model, |tokens|);
    var start := x;
    for i := 0 to |model.layers|
      invariant |x| == |tokens| && x == Stack(model.layers[..i], start, ropes)
      invariant tokens == [] ==> !HasLin(model.layers[..i])
    {
      HasLinStep(model.layers, i);
      StackStep(model.layers, start, ropes, i);
      var next := BlockForward(model.layers[i], x, ropes);
      if next.Err? {
        return next;
      }
      x := next.value;
    }
    assert model.layers[..|model.layers|] == model.layers;
    return Ok(Mapped(model.head, x));
  }

  function Max(lens: seq<nat>): (max: nat)
    requires lens != []
    ensures forall s :: 0 <= s < |lens| ==> lens[s] <= max
  {
    var last := lens[|lens| - 1];
    if |lens| == 1 then last
    else
      var rest := Max(lens[..|lens| - 1]);
      if last > rest then last else rest
  }

  ghost predicate RopeAt(model: Model, ropes: seq<Vec>, lo: nat, p: nat) {
    lo + p < |ropes| && ropes[lo + p] == model.rope(p)
  }

  lemma TableFrom(model: Model, ropes: seq<Vec>, lo: nat, n: nat)
    requires lo + n <= |ropes| && forall p :: 0 <= p < n ==> RopeAt(model, ropes, lo, p)
    ensures Slice(ropes, lo, n) == RopeTable(model, n)
  {
    forall p | 0 <= p < n ensures Slice(ropes, lo, n)[p] == model.rope(p) {
      assert RopeAt(model, ropes, lo, p);
    }
  }

  /** Rope rows gathered by restarted position: each sequence sees the table it would see alone. */
  lemma RopesRestart(model: Model, lens: seq<nat>, ropes: seq<Vec>, s: nat)
    requires |ropes| == Total(lens) && s < |lens|
    requires forall t :: 0 <= t < |ropes| ==> ropes[t] == model.rope(PosOf(lens, t))
    ensures Segment(ropes, lens, s) == RopeTable(model, lens[s])
  {
    SegmentFits(lens, s);
    forall p | 0 <= p < lens[s] ensures RopeAt(model, ropes, Start(lens, s), p) {
      TokenAt(lens, s, p);
    }
    TableFrom(model, ropes, Start(lens, s), lens[s]);
  }

  // ---------------------------------------------------------------- causality

  lemma {:induction false} StatePrefix(m: LinMixer, posts: seq<Vec>, h: seq<Vec>, n: nat, i: nat, t: nat)
    requires |posts| == |h| && t <= n <= |h|
    ensures StateAfter(m, posts[..n], h[..n], i, t) == StateAfter(m, posts, h, i, t)
  {
    if t > 0 {
      StatePrefix(m, posts, h, n, i, t - 1);
    }
  }

  lemma WindowPrefix(xs: seq<Vec>, n: nat, t: nat, width: Positive, blank: Vec)
    requires t < n <= |xs|
    ensures Window(xs[..n], t, width, blank) == Window(xs, t, width, blank)
  {
  }

  lemma ConvolvedPrefix(m: LinMixer, h: seq<Vec>, n: nat)
    requires n <= |h|
    ensures Convolved(m, h[..n]) == Convolved(m, h)[..n]
  {
    var xs := seq(|h|, t requires 0 <= t < |h| => m.convIn(h[t]));
    assert seq(n, t requires 0 <= t < n => m.convIn(h[..n][t])) == xs[..n];
    forall t | 0 <= t < n ensures Convolved(m, h[..n])[t] == Convolved(m, h)[t] {
      WindowPrefix(xs, n, t, m.width, m.blank);
    }
  }

  lemma LinIsCausal(m: LinMixer, h: seq<Vec>, n: nat)
    requires n <= |h|
    ensures LinRows(m, h[..n]) == LinRows(m, h)[..n]
  {
    var posts := Convolved(m, h);
    ConvolvedPrefix(m, h, n);
    forall t | 0 <= t < n ensures LinRows(m, h[..n])[t] == LinRows(m, h)[t] {
      OutputsPrefix(m, posts, h, n, t);
    }
  }

  lemma OutputsPrefix(m: LinMixer, posts: seq<Vec>, h: seq<Vec>, n: nat, t: nat)
    requires |posts| == |h| && t < n <= |h|
    ensures HeadOutputs(m, posts[..n], h[..n], t) == HeadOutputs(m, posts, h, t)
  {
    forall i | 0 <= i < m.heads ensures HeadOutput(m, posts[..n], h[..n], i, t) == HeadOutput(m, posts, h, i, t) {
      StatePrefix(m, posts, h, n, i, t + 1);
    }
  }

  lemma AttentionIsCausal(m: FullMixer, h: seq<Vec>, ropes: seq<Vec>, n: nat)
    requires n <= |h| == |ropes|
    ensures CausalRows(m, h[..n], ropes[..n]) == CausalRows(m, h, ropes)[..n]
  {
    forall t | 0 <= t < n ensures CausalRows(m, h[..n], ropes[..n])[t] == CausalRows(m, h, ropes)[t] {
      SameAttention(m, h, ropes, h[..n], ropes[..n], 0, t);
    }
  }

  lemma BlockIsCausal(layer: Layer, x: seq<Vec>, ropes: seq<Vec>, n: nat)
    requires n <= |x| == |ropes|
    ensures Block(layer, x[..n], ropes[..n]) == Block(layer, x, ropes)[..n]
  {
    var h := Mapped(layer.norm, x);
    assert Mapped(layer.norm, x[..n]) == h[..n];
    match layer.mixer {
      case Lin(m) =>
        LinIsCausal(m, h, n);
        FinishedPrefix(layer, x, LinRows(m, h), n);
      case Full(m) =>
        AttentionIsCausal(m, h, ropes, n);
        FinishedPrefix(layer, x, CausalRows(m, h, ropes), n);
    }
  }

  lemma FinishedPrefix(layer: Layer, x: seq<Vec>, mix: seq<Vec>, n: nat)
    requires n <= |x| == |mix|
    ensures Finished(layer, x[..n], mix[..n]) == Finished(layer, x, mix)[..n]
  {
    var xo := Added(x, mix);
    assert Added(x[..n], mix[..n]) == xo[..n];
    assert Mapped(layer.mlp, xo[..n]) == Mapped(layer.mlp, xo)[..n];
    assert Added(xo[..n], Mapped(layer.mlp, xo)[..n]) == Added(xo, Mapped(layer.mlp, xo))[..n];
  }

  lemma {:induction false} StackIsCausal(layers: seq<Layer>, x: seq<Vec>, ropes: seq<Vec>, n: nat)
    requires n <= |x| == |ropes|
    ensures Stack(layers, x[..n], ropes[..n]) == Stack(layers, x, ropes)[..n]
  {
    if layers != [] {
      var rest := layers[..|layers| - 1];
      StackIsCausal(rest, x, ropes, n);
      BlockIsCausal(layers[|layers| - 1], Stack(rest, x, ropes), ropes, n);
    }
  }

  /** No token sees a later one, through convolution, recurrence or attention of any layer: the rows of
      a prefix are the prefix of the rows. */
  lemma ForwardIsCausal(model: Model, tokens: seq<nat>, n: nat)
    requires n <= |tokens|
    ensures Alone(model, tokens[..n]) == Alone(model, tokens)[..n]
  {
    var x, ropes := Mapped(model.embed, tokens), RopeTable(model, |tokens|);
    assert Mapped(model.embed, tokens[..n]) == x[..n] && RopeTable(model, n) == ropes[..n];
    StackIsCausal(model.layers, x, ropes, n);
    var rows := Stack(model.layers, x, ropes);
    assert Mapped(model.head, rows[..n]) == Mapped(model.head, rows)[..n];
  }

  method GatherRopes(model: Model, lens: seq<nat>) returns (ropes: seq<Vec>)
    requires lens != []
    ensures |ropes| == Total(lens) && forall t :: 0 <= t < |ropes| ==> ropes[t] == model.rope(PosOf(lens, t))
  {
    var table, pos := RopeTable(model, Max(lens)), PackedPositions(lens);
    forall t | 0 <= t < |pos| ensures pos[t] == PosOf(lens, t) < |table| {
      PositionsRestart(lens, t);
      TokenOf(lens, t);
    }
    ropes := seq(|pos|, t requires 0 <= t < |pos| => table[pos[t]]);
  }

  /** What a packed round returns: every sequence's rows are those of its own forward. */
  ghost predicate Reproduces(model: Model, tokens: seq<nat>, lens: seq<nat>, rows: seq<Vec>) {
    && |tokens| == |rows| == Total(lens)
    && (forall s {:trigger Segment(rows, lens, s)} :: 0 <= s < |lens| ==>
          Segment(rows, lens, s) == Alone(model, Segment(tokens, lens, s)))
  }

  lemma PackedReproduces(model: Model, tokens: seq<nat>, lens: seq<nat>, ropes: seq<Vec>, mask: seq<seq<bool>>, s: nat)
    requires |tokens| == |ropes| == Total(lens) && IsMask(lens, mask) && s < |lens|
    requires forall t :: 0 <= t < |ropes| ==> ropes[t] == model.rope(PosOf(lens, t))
    ensures var rows := PackedStack(model.layers, Mapped(model.embed, tokens), ropes, lens, mask);
      Segment(Mapped(model.head, rows), lens, s) == Alone(model, Segment(tokens, lens, s))
  {
    var x := Mapped(model.embed, tokens);
    MappedSegment(model.embed, tokens, lens, s);
    RopesRestart(model, lens, ropes, s);
    StackStaysInside(model.layers, x, ropes, lens, mask, s);
    MappedSegment(model.head, PackedStack(model.layers, x, ropes, lens, mask), lens, s);
  }

  lemma PackedStackStep(layers: seq<Layer>, x: seq<Vec>, ropes: seq<Vec>, lens: seq<nat>, mask: seq<seq<bool>>, i: nat)
    requires |x| == |ropes| == Total(lens) && IsMask(lens, mask) && i < |layers|
    ensures PackedStack(layers[..i + 1], x, ropes, lens, mask) ==
      PackedBlock(layers[i], PackedStack(layers[..i], x, ropes, lens, mask), ropes, lens, mask)
  {
    assert layers[..i + 1][..i] == layers[..i];
  }

  /** The loop over blocks for a packed round. */
  method PackedLayers(
    layers: seq<Layer>, start: seq<Vec>, ropes: seq<Vec>, mask: seq<seq<bool>>, bounds: seq<(nat, nat)>,
    ghost lens: seq<nat>)
    returns (r: Result<seq<Vec>, ForwardError>)
    requires |start| == |ropes| == Total(lens) && IsMask(lens, mask) && AreBounds(lens, bounds)
    ensures r == if HasLin(layers) && SomeEmpty(lens) then Err(EmptySegment)
                 else Ok(PackedStack(layers, start, ropes, lens, mask))
  {
    var x := start;
    for i := 0 to |layers|
      invariant |x| == |start| && x == PackedStack(layers[..i], start, ropes, lens, mask)
      invariant SomeEmpty(lens) ==> !HasLin(layers[..i])
    {
      HasLinStep(layers, i);
      PackedStackStep(layers, start, ropes, lens, mask, i);
      var next := PackedBlockForward(layers[i], x, ropes, mask, bounds, lens);
      if next.Err? {
        return next;
      }
      x := next.value;
    }
    assert layers[..|layers|] == layers;
    return Ok(x);
  }

  /** The packed forward of one row of tokens: it refuses lengths that do not add up, and otherwise
      gives every sequence exactly what it would get on its own. */
  method ForwardPacked(model: Model, tokens: seq<nat>, lens: seq<nat>) returns (r: Result<seq<Vec>, ForwardError>)
    ensures r.Err? <==> |tokens| != Total(lens) || lens == [] || (HasLin(model.layers) && SomeEmpty(lens))
    ensures r.Ok? ==> Reproduces(model, tokens, lens, r.value)
  {
    if |tokens| != Total(lens) {
      return Err(NotPacked);
    }
    if lens == [] {
      return Err(NoSequences);
    }
    var ropes := GatherRopes(model, lens);
    var mask := BlockCausalMask(lens);
    var bounds := SequenceBounds(lens);
    var stack := PackedLayers(model.layers, Mapped(model.embed, tokens), ropes, mask, bounds, lens);
    if stack.Err? {
      return stack;
    }
    var rows := Mapped(model.head, stack.value);
    forall s | 0 <= s < |lens| ensures Segment(rows, lens, s) == Alone(model, Segment(tokens, lens, s)) {
      PackedReproduces(model, tokens, lens, ropes, mask, s);
    }
    return Ok(rows);
  }

  ghost predicate IsAlone(model: Model, tokens: seq<nat>, rows: seq<Vec>) {
    rows == Alone(model, tokens)
  }

  ghost predicate EachAlone(model: Model, batch: seq<seq<nat>>, out: seq<seq<Vec>>) {
    |out| == |batch| && AllAlone(model, batch, out)
  }

  ghost predicate AllAlone(model: Model, batch: seq<seq<nat>>, out: seq<seq<Vec>>)
    requires |out| <= |batch|
  {
    forall i {:trigger IsAlone(model, batch[i], out[i])} :: 0 <= i < |out| ==> IsAlone(model, batch[i], out[i])
  }

  ghost predicate SomeBlank(batch: seq<seq<nat>>) {
    exists i :: 0 <= i < |batch| && batch[i] == []
  }

  lemma OneMoreAlone(model: Model, batch: seq<seq<nat>>, out: seq<seq<Vec>>, row: seq<Vec>)
    requires |out| < |batch| && AllAlone(model, batch, out) && IsAlone(model, batch[|out|], row)
    ensures AllAlone(model, batch, out + [row])
  {
    forall i | 0 <= i < |out + [row]| ensures IsAlone(model, batch[i], (out + [row])[i]) {
      assert i < |out| ==> IsAlone(model, batch[i], out[i]);
    }
  }

  method ForwardBatch(model: Model, batch: seq<seq<nat>>) returns (r: Result<seq<seq<Vec>>, ForwardError>)
    ensures r.Ok? <==> !(HasLin(model.layers) && SomeBlank(batch))
    ensures r.Ok? ==> EachAlone(model, batch, r.value)
  {
    var out := [];
    for i := 0 to |batch|
      invariant |out| == i && AllAlone(model, batch, out)
      invariant HasLin(model.layers) ==> forall j :: 0 <= j < i ==> batch[j] != []
    {
      var row := ForwardAlone(model, batch[i]);
      if row.Err? {
        return Err(row.error);
      }
      OneMoreAlone(model, batch, out, row.value);
      out := out + [row.value];
    }
    return Ok(out);
  }

  /** The model's forward: rows of a batch on their own, or one row packed with several sequences. */
  method Forward(model: Model, batch: seq<seq<nat>>, packing: Option<seq<nat>>)
    returns (r: Result<seq<seq<Vec>>, ForwardError>)
    ensures packing.None? ==> (r.Ok? <==> !(HasLin(model.layers) && SomeBlank(batch)))
    ensures packing.None? && r.Ok? ==> EachAlone(model, batch, r.value)
    ensures packing.Some? ==> (r.Ok? <==> |batch| == 1 && |batch[0]| == Total(packing.value) && packing.value != [] &&
                                          !(HasLin(model.layers) && SomeEmpty(packing.value)))
    ensures packing.Some? && r.Ok? ==> |r.value| == 1 && Reproduces(model, batch[0], packing.value, r.value[0])
  {
    if packing.None? {
      r := ForwardBatch(model, batch);
    } else if |batch| != 1 {
      r := Err(NotPacked);
    } else {
      var rows := ForwardPacked(model, batch[0], packing.value);
      r := match rows
        case Ok(value) => Ok([value])
        case Err(error) => Err(error);
    }
  }
}
