/** The model token by token: what every row of a forward is, written out without states, masks, padding
    arithmetic or intermediate batches. Recurrent layers are attention over corrections, full layers
    attend to every key up to the token, and a block adds both residuals coordinate by coordinate. */
module PackedReference {
  import opened PackedForward
  import D = DeltaAttention

  // ---------------------------------------------------------------- the linear mixer

  /** The convolution's input, with `width - 1` blanks on the left. */
  function Padded(m: LinMixer, h: seq<Vec>): (xs: seq<Vec>)
    ensures |xs| == m.width - 1 + |h|
  {
    seq(m.width - 1, _ => m.blank) + seq(|h|, t requires 0 <= t < |h| => m.convIn(h[t]))
  }

  /** The convolution over the `width` inputs that end at token `t`. */
  function PostAt(m: LinMixer, h: seq<Vec>, t: nat): Vec
    requires t < |h|
  {
    m.conv(Padded(m, h)[t..t + m.width])
  }

  /** Every window ends with its own token's input. */
  lemma WindowEndsAt(m: LinMixer, h: seq<Vec>, t: nat)
    requires t < |h|
    ensures Padded(m, h)[t..t + m.width][m.width - 1] == m.convIn(h[t])
  {
  }

  lemma PostIs(m: LinMixer, h: seq<Vec>, t: nat)
    requires t < |h|
    ensures Convolved(m, h)[t] == PostAt(m, h, t)
  {
    var xs := seq(|h|, t requires 0 <= t < |h| => m.convIn(h[t]));
    assert Window(xs, t, m.width, m.blank) == Padded(m, h)[t..t + m.width];
  }

  /** The key head of a value head when every key head is repeated `rep` times in place. */
  function KeyHead(i: nat, rep: Positive): nat {
    if i < rep then 0 else KeyHead(i - rep, rep) + 1
  }

  /** Value heads `g * rep` up to the next multiple share key head `g`. */
  lemma {:induction false} KeyHeadShared(i: nat, rep: Positive)
    ensures KeyHead(i, rep) * rep <= i < KeyHead(i, rep) * rep + rep
  {
    if i >= rep {
      KeyHeadShared(i - rep, rep);
      var g := KeyHead(i - rep, rep);
      assert (g + 1) * rep == g * rep + rep;
    }
  }

  lemma OneQuotient(q: nat, g: nat, i: nat, rep: Positive)
    requires q * rep <= i < q * rep + rep && g * rep <= i < g * rep + rep
    ensures q == g
  {
    if q < g {
      NextMultiple(q, g, rep);
    } else if g < q {
      NextMultiple(g, q, rep);
    }
  }

  lemma NextMultiple(a: nat, b: nat, rep: nat)
    requires a < b
    ensures a * rep + rep <= b * rep
  {
    var more := b - a - 1;
    assert b * rep == (a + 1 + more) * rep == a * rep + rep + more * rep;
  }

  lemma Divides(i: nat, rep: Positive)
    ensures (i / rep) * rep <= i < (i / rep) * rep + rep
  {
  }

  lemma KeyHeadIs(i: nat, rep: Positive)
    ensures KeyHead(i, rep) == i / rep
  {
    KeyHeadShared(i, rep);
    Divides(i, rep);
    OneQuotient(KeyHead(i, rep), i / rep, i, rep);
  }

  /** The tokens as value head `i` sees them. */
  function HeadSteps(m: LinMixer, h: seq<Vec>, i: nat): (steps: seq<Step>)
    ensures |steps| == |h|
  {
    var g := KeyHead(i, m.rep);
    seq(|h|, t requires 0 <= t < |h| =>
      var post := PostAt(m, h, t);
      Step(m.q(post, g), m.k(post, g), m.v(post, i), m.beta(h[t], i), m.decay(h[t], i)))
  }

  /** The scaled attention of one query over the corrections of the first `t` tokens. */
  function AttendedRow(steps: seq<Step>, q: Vec, scale: real, rows: nat, cols: nat, t: nat): (row: Vec)
    requires t <= |steps|
    ensures |row| == cols
  {
    seq(cols, j requires 0 <= j < cols => scale * D.Attended(steps, q, t, t, rows, j))
  }

  /** What head `i` gives token `t`: attention of its query over the corrections so far. */
  function HeadToken(m: LinMixer, h: seq<Vec>, i: nat, t: nat): Vec
    requires t < |h|
  {
    var steps := HeadSteps(m, h, i);
    AttendedRow(steps, steps[t].q, m.scale, m.rows, m.cols, t + 1)
  }

  function LinToken(m: LinMixer, h: seq<Vec>, t: nat): Vec
    requires t < |h|
  {
    m.out(seq(m.heads, i requires 0 <= i < m.heads => HeadToken(m, h, i, t)), h[t])
  }

  lemma StepIs(m: LinMixer, h: seq<Vec>, i: nat, t: nat)
    requires t < |h|
    ensures HeadSteps(m, h, i)[t] == StepOf(m, Convolved(m, h)[t], h[t], i)
  {
    PostIs(m, h, t);
    KeyHeadIs(i, m.rep);
  }

  lemma {:induction false} StateIs(m: LinMixer, h: seq<Vec>, i: nat, t: nat)
    requires t <= |h|
    ensures D.StateOf(HeadSteps(m, h, i), m.rows, m.cols, t) == StateAfter(m, Convolved(m, h), h, i, t)
  {
    if t > 0 {
      StateIs(m, h, i, t - 1);
      StepIs(m, h, i, t - 1);
    }
  }

  lemma HeadOutputIs(m: LinMixer, h: seq<Vec>, i: nat, t: nat)
    requires t < |h|
    ensures HeadOutput(m, Convolved(m, h), h, i, t) == HeadToken(m, h, i, t)
  {
    var steps := HeadSteps(m, h, i);
    var q, state := steps[t].q, D.StateOf(steps, m.rows, m.cols, t + 1);
    StepIs(m, h, i, t);
    StateIs(m, h, i, t + 1);
    RecalledIs(steps, q, m.scale, m.rows, m.cols, t + 1);
  }

  lemma RecalledEntry(q: Vec, scale: real, state: Matrix, rows: nat, cols: nat, j: nat, x: real)
    requires j < cols && Dot(q, state, j, rows) == x
    ensures D.Scaled(x, Recalled(q, scale, state, rows, cols)[j], scale)
  {
  }

  lemma AttendedEntry(steps: seq<Step>, q: Vec, scale: real, rows: nat, cols: nat, t: nat, j: nat, x: real)
    requires t <= |steps| && j < cols && D.Attended(steps, q, t, t, rows, j) == x
    ensures D.Scaled(x, AttendedRow(steps, q, scale, rows, cols, t)[j], scale)
  {
  }

  lemma SameScaled(x: real, a: real, b: real, scale: real)
    requires D.Scaled(x, a, scale) && D.Scaled(x, b, scale)
    ensures a == b
  {
  }

  lemma RecalledAt(steps: seq<Step>, q: Vec, scale: real, rows: nat, cols: nat, t: nat, j: nat)
    requires t <= |steps| && j < cols
    ensures Recalled(q, scale, D.StateOf(steps, rows, cols, t), rows, cols)[j] ==
      AttendedRow(steps, q, scale, rows, cols, t)[j]
  {
    var state, x := D.StateOf(steps, rows, cols, t), D.Attended(steps, q, t, t, rows, j);
    D.StateIsAttention(steps, q, t, rows, cols, j);
    RecalledEntry(q, scale, state, rows, cols, j, x);
    AttendedEntry(steps, q, scale, rows, cols, t, j, x);
    SameScaled(x, Recalled(q, scale, state, rows, cols)[j], AttendedRow(steps, q, scale, rows, cols, t)[j], scale);
  }

  lemma RecalledIs(steps: seq<Step>, q: Vec, scale: real, rows: nat, cols: nat, t: nat)
    requires t <= |steps|
    ensures Recalled(q, scale, D.StateOf(steps, rows, cols, t), rows, cols) ==
      AttendedRow(steps, q, scale, rows, cols, t)
  {
    forall j | 0 <= j < cols
      ensures Recalled(q, scale, D.StateOf(steps, rows, cols, t), rows, cols)[j] ==
        AttendedRow(steps, q, scale, rows, cols, t)[j]
    {
      RecalledAt(steps, q, scale, rows, cols, t, j);
    }
  }

  /** The recurrent layer gives every token attention over the corrections of its predecessors. */
  lemma LinIsReference(m: LinMixer, h: seq<Vec>, t: nat)
    requires t < |h|
    ensures LinRows(m, h)[t] == LinToken(m, h, t)
  {
    var outs := HeadOutputs(m, Convolved(m, h), h, t);
    forall i | 0 <= i < m.heads ensures outs[i] == HeadToken(m, h, i, t) {
      HeadOutputIs(m, h, i, t);
    }
    assert outs == seq(m.heads, i requires 0 <= i < m.heads => HeadToken(m, h, i, t));
  }

  // ---------------------------------------------------------------- attention and blocks

  function FullToken(m: FullMixer, h: seq<Vec>, ropes: seq<Vec>, t: nat): Vec
    requires t < |h| == |ropes|
  {
    var keys := seq(t + 1, j requires 0 <= j < t + 1 => (m.k(h[j], ropes[j]), m.v(h[j])));
    m.out(m.attend(m.q(h[t], ropes[t]), keys), h[t])
  }

  lemma FullIsReference(m: FullMixer, h: seq<Vec>, ropes: seq<Vec>, t: nat)
    requires t < |h| == |ropes|
    ensures CausalRows(m, h, ropes)[t] == FullToken(m, h, ropes, t)
  {
    var keys := seq(t + 1, j requires 0 <= j < t + 1 => (m.k(h[j], ropes[j]), m.v(h[j])));
    assert KeysAt(m, h, ropes, Range(0, t + 1)) == keys;
  }

  function MixToken(layer: Layer, h: seq<Vec>, ropes: seq<Vec>, t: nat): Vec
    requires t < |h| == |ropes|
  {
    match layer.mixer
    case Lin(m) => LinToken(m, h, t)
    case Full(m) => FullToken(m, h, ropes, t)
  }

  /** A token leaves a block as itself plus what the mixer and the feed-forward half add. */
  function BlockToken(layer: Layer, x: seq<Vec>, ropes: seq<Vec>, t: nat): Vec
    requires t < |x| == |ropes|
  {
    var h := seq(|x|, s requires 0 <= s < |x| => layer.norm(x[s]));
    var mix := MixToken(layer, h, ropes, t);
    var up := layer.mlp(seq(|x[t]|, d requires 0 <= d < |x[t]| => x[t][d] + Coord(mix, d)));
    seq(|x[t]|, d requires 0 <= d < |x[t]| => x[t][d] + Coord(mix, d) + Coord(up, d))
  }

  lemma FinishedIs(layer: Layer, x: seq<Vec>, mix: seq<Vec>, t: nat)
    requires t < |x| == |mix|
    ensures var up := layer.mlp(seq(|x[t]|, d requires 0 <= d < |x[t]| => x[t][d] + Coord(mix[t], d)));
      Finished(layer, x, mix)[t] ==
      seq(|x[t]|, d requires 0 <= d < |x[t]| => x[t][d] + Coord(mix[t], d) + Coord(up, d))
  {
    assert Add(x[t], mix[t]) == seq(|x[t]|, d requires 0 <= d < |x[t]| => x[t][d] + Coord(mix[t], d));
  }

  lemma BlockIsReference(layer: Layer, x: seq<Vec>, ropes: seq<Vec>, t: nat)
    requires t < |x| == |ropes|
    ensures Block(layer, x, ropes)[t] == BlockToken(layer, x, ropes, t)
  {
    var h := Mapped(layer.norm, x);
    assert h == seq(|x|, s requires 0 <= s < |x| => layer.norm(x[s]));
    match layer.mixer {
      case Lin(m) =>
        LinIsReference(m, h, t);
        FinishedIs(layer, x, LinRows(m, h), t);
      case Full(m) =>
        FullIsReference(m, h, ropes, t);
        FinishedIs(layer, x, CausalRows(m, h, ropes), t);
    }
  }

  // ---------------------------------------------------------------- the model

  /** The layers in order, each on the rows the one before left. */
  function Through(layers: seq<Layer>, x: seq<Vec>, ropes: seq<Vec>): (r: seq<Vec>)
    requires |x| == |ropes|
    ensures |r| == |x|
  {
    if layers == [] then x
    else
      var first := seq(|x|, t requires 0 <= t < |x| => BlockToken(layers[0], x, ropes, t));
      Through(layers[1..], first, ropes)
  }

  lemma {:induction false} FirstLayer(layers: seq<Layer>, x: seq<Vec>, ropes: seq<Vec>)
    requires |x| == |ropes| && layers != []
    ensures Stack(layers, x, ropes) == Stack(layers[1..], Block(layers[0], x, ropes), ropes)
    decreases |layers|
  {
    if |layers| == 1 {
      assert layers[..0] == [] && layers[1..] == [];
    } else {
      var init, last, tail, x' := layers[..|layers| - 1], layers[|layers| - 1], layers[1..], Block(layers[0], x, ropes);
      FirstLayer(init, x, ropes);
      assert tail[..|tail| - 1] == init[1..] && tail[|tail| - 1] == last && init[0] == layers[0];
      assert Stack(tail, x', ropes) == Block(last, Stack(init[1..], x', ropes), ropes);
    }
  }

  lemma {:induction false} StackIsReference(layers: seq<Layer>, x: seq<Vec>, ropes: seq<Vec>)
    requires |x| == |ropes|
    ensures Stack(layers, x, ropes) == Through(layers, x, ropes)
    decreases |layers|
  {
    if layers != [] {
      var first := seq(|x|, t requires 0 <= t < |x| => BlockToken(layers[0], x, ropes, t));
      forall t | 0 <= t < |x| ensures Block(layers[0], x, ropes)[t] == first[t] {
        BlockIsReference(layers[0], x, ropes, t);
      }
      assert Block(layers[0], x, ropes) == first;
      FirstLayer(layers, x, ropes);
      StackIsReference(layers[1..], first, ropes);
    }
  }

  /** The model on one sequence: token `t` enters as its embedding, with the rope row of its position. */
  function Reference(model: Model, tokens: seq<nat>): (rows: seq<Vec>)
    ensures |rows| == |tokens|
  {
    var x := seq(|tokens|, t requires 0 <= t < |tokens| => model.embed(tokens[t]));
    var ropes := seq(|tokens|, t requires 0 <= t < |tokens| => model.rope(t));
    var last := Through(model.layers, x, ropes);
    seq(|tokens|, t requires 0 <= t < |tokens| => model.head(last[t]))
  }

  /** A forward of one sequence computes the reference. */
  lemma AloneIsReference(model: Model, tokens: seq<nat>)
    ensures Alone(model, tokens) == Reference(model, tokens)
  {
    var x := seq(|tokens|, t requires 0 <= t < |tokens| => model.embed(tokens[t]));
    var ropes := seq(|tokens|, t requires 0 <= t < |tokens| => model.rope(t));
    assert Mapped(model.embed, tokens) == x && RopeTable(model, |tokens|) == ropes;
    StackIsReference(model.layers, x, ropes);
  }

  /** So does a packed forward, for each of its sequences. */
  lemma PackedIsReference(model: Model, tokens: seq<nat>, lens: seq<nat>, rows: seq<Vec>, s: nat)
    requires Reproduces(model, tokens, lens, rows) && s < |lens|
    ensures Segment(rows, lens, s) == Reference(model, Segment(tokens, lens, s))
  {
    AloneIsReference(model, Segment(tokens, lens, s));
  }
}
