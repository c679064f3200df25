/** What the gated delta rule computes, without its state: the output of a token is attention over the
    corrections of all tokens so far, each weighted by the decays since and by how its key meets the
    query; and a token's correction is its gated error against what the same attention recalls for its
    key. */
module DeltaAttention {
  import opened PackedForward

  // ---------------------------------------------------------------- one token

  /** Row `i` of `d` is that of `s` times `decay`. */
  ghost predicate RowDecayed(s: Matrix, d: Matrix, decay: real, i: nat, j: nat) {
    Entry(d, i, j) == Entry(s, i, j) * decay
  }

  predicate Scaled(before: real, after: real, decay: real) {
    after == decay * before
  }

  lemma {:induction false} DotDecayed(a: Vec, s: Matrix, d: Matrix, decay: real, j: nat, n: nat)
    requires forall i :: 0 <= i < n ==> RowDecayed(s, d, decay, i, j)
    ensures Scaled(Dot(a, s, j, n), Dot(a, d, j, n), decay)
  {
    if n > 0 {
      DotDecayed(a, s, d, decay, j, n - 1);
      assert RowDecayed(s, d, decay, n - 1, j);
      Factor(decay, Dot(a, s, j, n - 1), Dot(a, d, j, n - 1), Coord(a, n - 1), Entry(s, n - 1, j), Entry(d, n - 1, j));
    }
  }

  lemma Factor(decay: real, before: real, after: real, x: real, y: real, entry: real)
    requires Scaled(before, after, decay) && entry == y * decay
    ensures Scaled(before + x * y, after + x * entry, decay)
  {
  }

  lemma DecayedDot(a: Vec, s: Matrix, decay: real, rows: nat, cols: nat, j: nat)
    requires j < cols
    ensures Scaled(Dot(a, s, j, rows), Dot(a, Decayed(s, decay, rows, cols), j, rows), decay)
  {
    DotDecayed(a, s, Decayed(s, decay, rows, cols), decay, j, rows);
  }

  /** What a recall gives after a token, in terms of what it gave before: the old recall decays, and the
      token's gated error against the decayed recall of its own key comes in as far as the two keys meet. */
  predicate Recurs(inner: real, decay: real, beta: real, v: real, before: real, own: real, after: real) {
    after == decay * before + inner * (beta * (v - decay * own))
  }

  lemma Combine(inner: real, decay: real, beta: real, v: real, before: real, own: real, after: real, less: real,
                mine: real, u: real)
    requires Scaled(before, less, decay) && Scaled(own, mine, decay) && Corrects(v, mine, u, beta)
    requires Moves(less, after, inner, u)
    ensures Recurs(inner, decay, beta, v, before, own, after)
  {
  }

  /** One step of the recurrence, seen by any recall. */
  lemma AdvanceRecurs(a: Vec, step: Step, s: Matrix, rows: nat, cols: nat, j: nat)
    requires j < cols
    ensures Recurs(Inner(a, step.k, rows), step.decay, step.beta, Coord(step.v, j), Dot(a, s, j, rows),
                   Recall(step, s, rows, j), Dot(a, Advance(step, s, rows, cols), j, rows))
  {
    var d := Decayed(s, step.decay, rows, cols);
    var u := Update(step, d, rows, cols);
    DecayedDot(a, s, step.decay, rows, cols, j);
    DecayedDot(step.k, s, step.decay, rows, cols, j);
    StepCorrects(step, d, rows, cols, j);
    WrittenDot(a, d, step.k, u, rows, cols, j);
    Combine(Inner(a, step.k, rows), step.decay, step.beta, Coord(step.v, j), Dot(a, s, j, rows),
            Recall(step, s, rows, j), Dot(a, Advance(step, s, rows, cols), j, rows), Dot(a, d, j, rows),
            Recall(step, d, rows, j), Coord(u, j));
  }

  // ---------------------------------------------------------------- without a state

  /** The product of the decays of the tokens after `s` and before `t`. */
  function KeptShare(steps: seq<Step>, s: nat, t: nat): real
    requires s < t <= |steps|
  {
    if t == s + 1 then 1.0 else KeptShare(steps, s, t - 1) * steps[t - 1].decay
  }

  /** Attention of `a` over the corrections of the first `n` tokens, as of time `t`. */
  function Attended(steps: seq<Step>, a: Vec, n: nat, t: nat, rows: nat, j: nat): real
    requires n <= t <= |steps|
    decreases n, 0
  {
    if n == 0 then 0.0
    else
      Attended(steps, a, n - 1, t, rows, j) +
      KeptShare(steps, n - 1, t) * Inner(a, steps[n - 1].k, rows) * Correction(steps, n - 1, rows, j)
  }

  /** The gated error of token `t` against what attention recalls for its key. */
  function Correction(steps: seq<Step>, t: nat, rows: nat, j: nat): real
    requires t < |steps|
    decreases t, 1
  {
    steps[t].beta * (Coord(steps[t].v, j) - Attended(steps, steps[t].k, t, t + 1, rows, j))
  }

  lemma {:induction false} AttendedDecays(steps: seq<Step>, a: Vec, n: nat, t: nat, rows: nat, j: nat)
    requires n <= t < |steps|
    ensures Scaled(Attended(steps, a, n, t, rows, j), Attended(steps, a, n, t + 1, rows, j), steps[t].decay)
    decreases n
  {
    if n > 0 {
      AttendedDecays(steps, a, n - 1, t, rows, j);
      Decay(Attended(steps, a, n - 1, t, rows, j), Attended(steps, a, n - 1, t + 1, rows, j),
            KeptShare(steps, n - 1, t), Inner(a, steps[n - 1].k, rows), Correction(steps, n - 1, rows, j),
            steps[t].decay);
    }
  }

  lemma Decay(before: real, after: real, share: real, inner: real, u: real, decay: real)
    requires Scaled(before, after, decay)
    ensures Scaled(before + share * inner * u, after + share * decay * inner * u, decay)
  {
    assert share * decay * inner * u == decay * (share * inner * u);
  }

  /** The state the recurrence keeps, after `t` of the steps. */
  function StateOf(steps: seq<Step>, rows: nat, cols: nat, t: nat): Matrix
    requires t <= |steps|
  {
    if t == 0 then Zeros(rows, cols) else Advance(steps[t - 1], StateOf(steps, rows, cols, t - 1), rows, cols)
  }

  lemma {:induction false} NothingKept(a: Vec, rows: nat, cols: nat, j: nat, n: nat)
    ensures Dot(a, Zeros(rows, cols), j, n) == 0.0
  {
    if n > 0 {
      NothingKept(a, rows, cols, j, n - 1);
    }
  }

  lemma OneMoreToken(
    inner: real, decay: real, beta: real, v: real, before: real, own: real, after: real, rest: real, mine: real,
    u: real, more: real)
    requires Recurs(inner, decay, beta, v, before, own, after)
    requires Scaled(before, rest, decay) && Scaled(own, mine, decay)
    requires Corrects(v, mine, u, beta) && Moves(rest, more, inner, u)
    ensures after == more
  {
  }

  lemma AttendedLast(steps: seq<Step>, a: Vec, t: nat, rows: nat, j: nat)
    requires t < |steps|
    ensures Moves(Attended(steps, a, t, t + 1, rows, j), Attended(steps, a, t + 1, t + 1, rows, j),
                  Inner(a, steps[t].k, rows), Correction(steps, t, rows, j))
  {
  }

  lemma CorrectionIs(steps: seq<Step>, t: nat, rows: nat, j: nat)
    requires t < |steps|
    ensures Corrects(Coord(steps[t].v, j), Attended(steps, steps[t].k, t, t + 1, rows, j),
                     Correction(steps, t, rows, j), steps[t].beta)
  {
  }

  lemma AttendedNext(steps: seq<Step>, a: Vec, t: nat, rows: nat, j: nat, before: real, own: real, after: real)
    requires t < |steps| && before == Attended(steps, a, t, t, rows, j)
    requires own == Attended(steps, steps[t].k, t, t, rows, j)
    requires Recurs(Inner(a, steps[t].k, rows), steps[t].decay, steps[t].beta, Coord(steps[t].v, j), before, own, after)
    ensures after == Attended(steps, a, t + 1, t + 1, rows, j)
  {
    var step := steps[t];
    AttendedDecays(steps, a, t, t, rows, j);
    AttendedDecays(steps, step.k, t, t, rows, j);
    AttendedLast(steps, a, t, rows, j);
    CorrectionIs(steps, t, rows, j);
    OneMoreToken(Inner(a, step.k, rows), step.decay, step.beta, Coord(step.v, j), before, own, after,
                 Attended(steps, a, t, t + 1, rows, j), Attended(steps, step.k, t, t + 1, rows, j),
                 Correction(steps, t, rows, j), Attended(steps, a, t + 1, t + 1, rows, j));
  }

  lemma AttentionStep(steps: seq<Step>, a: Vec, t: nat, rows: nat, cols: nat, j: nat, s: Matrix)
    requires t < |steps| && j < cols && Dot(a, s, j, rows) == Attended(steps, a, t, t, rows, j)
    requires Recall(steps[t], s, rows, j) == Attended(steps, steps[t].k, t, t, rows, j)
    ensures Dot(a, Advance(steps[t], s, rows, cols), j, rows) == Attended(steps, a, t + 1, t + 1, rows, j)
  {
    AdvanceRecurs(a, steps[t], s, rows, cols, j);
    AttendedNext(steps, a, t, rows, j, Dot(a, s, j, rows), Recall(steps[t], s, rows, j),
                 Dot(a, Advance(steps[t], s, rows, cols), j, rows));
  }

  /** The state after any number of tokens recalls exactly what attention over the corrections does. */
  lemma {:induction false} StateIsAttention(steps: seq<Step>, a: Vec, t: nat, rows: nat, cols: nat, j: nat)
    requires t <= |steps| && j < cols
    ensures Dot(a, StateOf(steps, rows, cols, t), j, rows) == Attended(steps, a, t, t, rows, j)
    decreases t
  {
    if t == 0 {
      NothingKept(a, rows, cols, j, rows);
    } else {
      StateIsAttention(steps, a, t - 1, rows, cols, j);
      StateIsAttention(steps, steps[t - 1].k, t - 1, rows, cols, j);
      AttentionStep(steps, a, t - 1, rows, cols, j, StateOf(steps, rows, cols, t - 1));
    }
  }

  // ---------------------------------------------------------------- orthogonal keys

  ghost predicate Orthogonal(steps: seq<Step>, rows: nat) {
    forall s, r :: 0 <= s < |steps| && 0 <= r < |steps| && s != r ==> Inner(steps[s].k, steps[r].k, rows) == 0.0
  }

  predicate IsProduct(x: real, share: real, norm: real, u: real) {
    x == share * norm * u
  }

  /** With orthogonal keys, attention by a key sees only the token of that key. */
  lemma {:induction false} OnlyOwn(steps: seq<Step>, r: nat, n: nat, t: nat, rows: nat, j: nat)
    requires Orthogonal(steps, rows) && r < |steps| && n <= t <= |steps|
    ensures n <= r ==> Attended(steps, steps[r].k, n, t, rows, j) == 0.0
    ensures r < n ==> IsProduct(Attended(steps, steps[r].k, n, t, rows, j), KeptShare(steps, r, t),
                                Inner(steps[r].k, steps[r].k, rows), Correction(steps, r, rows, j))
    decreases n
  {
    if n > 0 {
      OnlyOwn(steps, r, n - 1, t, rows, j);
      if r != n - 1 {
        Vanishes(KeptShare(steps, n - 1, t), Inner(steps[r].k, steps[n - 1].k, rows),
                 Correction(steps, n - 1, rows, j));
      }
    }
  }

  lemma Vanishes(share: real, inner: real, u: real)
    requires inner == 0.0
    ensures share * inner * u == 0.0
  {
  }

  lemma OwnCorrection(steps: seq<Step>, r: nat, rows: nat, j: nat)
    requires Orthogonal(steps, rows) && r < |steps|
    ensures Correction(steps, r, rows, j) == steps[r].beta * Coord(steps[r].v, j)
  {
    OnlyOwn(steps, r, r, r + 1, rows, j);
  }

  /** With orthogonal keys nothing interferes: recalling the key of token `r` at a later time gives its own
      value, gated, times its squared norm and the decays since. */
  lemma OrthogonalRecall(steps: seq<Step>, r: nat, t: nat, rows: nat, cols: nat, j: nat)
    requires Orthogonal(steps, rows) && r < t <= |steps| && j < cols
    ensures IsProduct(Dot(steps[r].k, StateOf(steps, rows, cols, t), j, rows), KeptShare(steps, r, t),
                      Inner(steps[r].k, steps[r].k, rows), steps[r].beta * Coord(steps[r].v, j))
  {
    StateIsAttention(steps, steps[r].k, t, rows, cols, j);
    OnlyOwn(steps, r, t, t, rows, j);
    OwnCorrection(steps, r, rows, j);
  }
}
