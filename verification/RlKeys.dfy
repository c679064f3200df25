/** The compute key of a recompute: the forward's key with every `_fwd` replaced by `_recompute`. */
module RlKeys {

  /** `key.replace("_fwd", "_recompute")`. */
  function RecomputeKey(key: string): string {
    if key == [] then []
    else if "_fwd" <= key then "_recompute" + RecomputeKey(key[4..])
    else [key[0]] + RecomputeKey(key[1..])
  }

  // ---------------------------------------------------------------- replacement on text

  predicate ForwardAt(text: string, p: int) {
    0 <= p <= |text| - 4 && text[p..p + 4] == "_fwd"
  }

  ghost predicate Plain(text: string) {
    forall p :: !ForwardAt(text, p)
  }

  /** The parts in order, with `mark` between neighbours. */
  function Joined(parts: seq<string>, mark: string): string {
    if parts == [] then ""
    else if |parts| == 1 then parts[0]
    else parts[0] + mark + Joined(parts[1..], mark)
  }

  /** `key` cut at every `_fwd` leaves `parts`, and `renamed` is them joined by `_recompute`. */
  ghost predicate Cuts(parts: seq<string>, key: string, renamed: string) {
    && parts != [] && (forall i :: 0 <= i < |parts| ==> Plain(parts[i]))
    && key == Joined(parts, "_fwd") && renamed == Joined(parts, "_recompute")
  }

  ghost predicate Renamed(key: string, renamed: string) {
    exists parts :: Cuts(parts, key, renamed)
  }

  /** An occurrence in a part of a text is one in the text. */
  lemma Inside(text: string, lo: nat, hi: nat, p: int)
    requires lo <= hi <= |text|
    ensures ForwardAt(text[lo..hi], p) <==> 0 <= p <= hi - lo - 4 && ForwardAt(text, lo + p)
  {
    if 0 <= p <= hi - lo - 4 {
      var part, whole := text[lo..hi][p..p + 4], text[lo + p..lo + p + 4];
      assert |part| == |whole| && forall i :: 0 <= i < 4 ==> part[i] == whole[i];
    }
  }

  lemma Begins(text: string)
    ensures "_fwd" <= text <==> ForwardAt(text, 0)
  {
  }

  lemma PlainTail(text: string)
    requires Plain(text) && text != []
    ensures Plain(text[1..]) && !("_fwd" <= text)
  {
    Begins(text);
    forall p ensures !ForwardAt(text[1..], p) {
      Inside(text, 1, |text|, p);
    }
  }

  /** A key without `_fwd` stays as it is. */
  lemma {:induction false} PlainKey(key: string)
    requires Plain(key)
    ensures RecomputeKey(key) == key
  {
    if key != [] {
      PlainTail(key);
      PlainKey(key[1..]);
    }
  }

  /** The first `_fwd` of `a + "_fwd"` is at the end of `a`. */
  ghost predicate FirstAfter(a: string) {
    forall p :: 0 <= p < |a| ==> !ForwardAt(a + "_fwd", p)
  }

  lemma FirstAfterTail(a: string)
    requires FirstAfter(a) && a != []
    ensures FirstAfter(a[1..])
  {
    var text, tail := a + "_fwd", a[1..] + "_fwd";
    assert text[1..] == tail;
    forall p | 0 <= p < |a[1..]| ensures !ForwardAt(tail, p) {
      Inside(text, 1, |text|, p);
    }
  }

  lemma NotYet(a: string, b: string)
    requires FirstAfter(a) && a != []
    ensures !("_fwd" <= a + "_fwd" + b)
  {
    var text := a + "_fwd";
    assert (text + b)[0..|text|] == text;
    Inside(text + b, 0, |text|, 0);
    Begins(text + b);
  }

  /** Replacement goes from the left: the text up to the first `_fwd` stays, and the rest is replaced on
      its own. */
  lemma {:induction false} FirstForward(a: string, b: string)
    requires FirstAfter(a)
    ensures RecomputeKey(a + "_fwd" + b) == a + "_recompute" + RecomputeKey(b)
  {
    var key := a + "_fwd" + b;
    if a == [] {
      assert key == "_fwd" + b && key[4..] == b;
    } else {
      NotYet(a, b);
      FirstAfterTail(a);
      FirstForward(a[1..], b);
      assert key[1..] == a[1..] + "_fwd" + b;
      assert a == [a[0]] + a[1..];
      Associate([a[0]], a[1..], "_recompute", RecomputeKey(b));
    }
  }

  lemma Associate(x: string, a: string, m: string, b: string)
    ensures x + (a + m + b) == (x + a) + m + b
  {
  }

  /** No occurrence of `_fwd` can begin inside a text without one and end behind it. */
  lemma PlainIsFirst(a: string)
    requires Plain(a)
    ensures FirstAfter(a)
  {
    var text := a + "_fwd";
    forall p | 0 <= p < |a| ensures !ForwardAt(text, p) {
      if p + 4 <= |a| {
        assert text[0..|a|] == a;
        Inside(text, 0, |a|, p);
      } else {
        assert text[p..p + 4][|a| - p] == text[|a|] == '_';
      }
    }
  }

  /** A kind's forward key becomes its recompute key. */
  lemma KindKey(kind: string)
    requires Plain(kind)
    ensures RecomputeKey(kind + "_fwd") == kind + "_recompute"
  {
    PlainIsFirst(kind);
    FirstForward(kind, []);
    assert kind + "_fwd" + [] == kind + "_fwd" && kind + "_recompute" + [] == kind + "_recompute";
  }

  lemma {:induction false} CutsGive(parts: seq<string>, key: string, renamed: string)
    requires Cuts(parts, key, renamed)
    ensures renamed == RecomputeKey(key)
  {
    if |parts| == 1 {
      PlainKey(parts[0]);
    } else {
      var rest := parts[1..];
      assert Cuts(rest, Joined(rest, "_fwd"), Joined(rest, "_recompute"));
      CutsGive(rest, Joined(rest, "_fwd"), Joined(rest, "_recompute"));
      PlainIsFirst(parts[0]);
      FirstForward(parts[0], Joined(rest, "_fwd"));
    }
  }

  /** The first occurrence, if there is one. */
  lemma FindFirst(key: string) returns (a: string, b: string)
    requires !Plain(key)
    ensures key == a + "_fwd" + b && Plain(a) && |b| < |key|
  {
    var p := 0;
    var q :| ForwardAt(key, q);
    while !ForwardAt(key, p)
      invariant 0 <= p <= q && forall m :: 0 <= m < p ==> !ForwardAt(key, m)
      decreases q - p
    {
      p := p + 1;
    }
    a, b := key[..p], key[p + 4..];
    forall m ensures !ForwardAt(a, m) {
      Inside(key, 0, p, m);
    }
  }

  lemma {:induction false} CutUp(key: string) returns (parts: seq<string>)
    ensures Cuts(parts, key, RecomputeKey(key))
    decreases |key|
  {
    if Plain(key) {
      parts := [key];
      PlainKey(key);
    } else {
      var a, b := FindFirst(key);
      var rest := CutUp(b);
      parts := [a] + rest;
      assert parts[1..] == rest;
      PlainIsFirst(a);
      FirstForward(a, b);
    }
  }

  /** Cutting at every `_fwd` and joining with `_recompute` is what the replacement computes. */
  lemma RenamedExactly(key: string, renamed: string)
    ensures Renamed(key, renamed) <==> renamed == RecomputeKey(key)
  {
    if renamed == RecomputeKey(key) {
      var parts := CutUp(key);
    }
    if parts :| Cuts(parts, key, renamed) {
      CutsGive(parts, key, renamed);
    }
  }
}
