/** Stable insertion sort by a total preorder, and what the callers need of it.
    Python's `sorted` and torch's `sort(stable=True)` are both modelled by `Sort`. */
module Sorting {

  ghost predicate TotalPreorder<T(!new)>(le: (T, T) -> bool) {
    && (forall x, y :: le(x, y) || le(y, x))
    && (forall x, y, z :: le(x, y) && le(y, z) ==> le(x, z))
  }

  ghost predicate SortedBy<T>(s: seq<T>, le: (T, T) -> bool) {
    forall i, j :: 0 <= i < j < |s| ==> le(s[i], s[j])
  }

  function Insert<T>(x: T, s: seq<T>, le: (T, T) -> bool): seq<T> {
    if s == [] || le(x, s[0]) then [x] + s else [s[0]] + Insert(x, s[1..], le)
  }

  function Sort<T>(s: seq<T>, le: (T, T) -> bool): seq<T> {
    if s == [] then [] else Insert(s[0], Sort(s[1..], le), le)
  }

  lemma {:induction false} InsertMultiset<T>(x: T, s: seq<T>, le: (T, T) -> bool)
    ensures multiset(Insert(x, s, le)) == multiset(s) + multiset{x}
  {
    if s == [] || le(x, s[0]) {
    } else {
      InsertMultiset(x, s[1..], le);
      assert s == [s[0]] + s[1..];
    }
  }

  lemma {:induction false} SortMultiset<T>(s: seq<T>, le: (T, T) -> bool)
    ensures multiset(Sort(s, le)) == multiset(s)
    ensures |Sort(s, le)| == |s|
  {
    if s == [] {
    } else {
      SortMultiset(s[1..], le);
      InsertMultiset(s[0], Sort(s[1..], le), le);
      assert s == [s[0]] + s[1..];
    }
    assert |multiset(Sort(s, le))| == |Sort(s, le)|;
  }

  lemma SortMembers<T>(s: seq<T>, le: (T, T) -> bool)
    ensures forall x :: x in Sort(s, le) <==> x in s
  {
    SortMultiset(s, le);
    forall x ensures x in Sort(s, le) <==> x in s {
      assert x in Sort(s, le) <==> x in multiset(Sort(s, le));
      assert x in s <==> x in multiset(s);
    }
  }

  lemma {:induction false} InsertSorted<T(!new)>(x: T, s: seq<T>, le: (T, T) -> bool)
    requires TotalPreorder(le) && SortedBy(s, le)
    ensures SortedBy(Insert(x, s, le), le)
  {
    if s == [] || le(x, s[0]) {
    } else {
      InsertSorted(x, s[1..], le);
      var rest := Insert(x, s[1..], le);
      InsertMultiset(x, s[1..], le);
      forall j | 0 <= j < |rest| ensures le(s[0], rest[j]) {
        assert rest[j] in multiset(rest);
        assert rest[j] == x || rest[j] in s[1..];
      }
    }
  }

  lemma {:induction false} SortSorted<T(!new)>(s: seq<T>, le: (T, T) -> bool)
    requires TotalPreorder(le)
    ensures SortedBy(Sort(s, le), le)
  {
    if s == [] {
    } else {
      SortSorted(s[1..], le);
      InsertSorted(s[0], Sort(s[1..], le), le);
    }
  }

  lemma {:induction false} SortIdentity<T>(s: seq<T>, le: (T, T) -> bool)
    requires SortedBy(s, le)
    ensures Sort(s, le) == s
  {
    if s != [] {
      SortIdentity(s[1..], le);
      assert s == [s[0]] + s[1..];
    }
  }

  /** Drops the repeats of a sorted sequence. */
  function Distinct<T(==)>(s: seq<T>): seq<T> {
    if |s| <= 1 then s else if s[0] == s[1] then Distinct(s[1..]) else [s[0]] + Distinct(s[1..])
  }

  ghost predicate Antisymmetric<T(!new)>(le: (T, T) -> bool) {
    forall x, y :: le(x, y) && le(y, x) ==> x == y
  }

  lemma {:induction false} DistinctFacts<T(!new)>(s: seq<T>, le: (T, T) -> bool)
    requires TotalPreorder(le) && Antisymmetric(le) && SortedBy(s, le)
    ensures SortedBy(Distinct(s), le)
    ensures forall i, j :: 0 <= i < j < |Distinct(s)| ==> Distinct(s)[i] != Distinct(s)[j]
    ensures forall x :: x in Distinct(s) <==> x in s
  {
    if |s| > 1 {
      DistinctFacts(s[1..], le);
      assert s == [s[0]] + s[1..];
      var rest := Distinct(s[1..]);
      if s[0] != s[1] {
        forall j | 0 <= j < |rest| ensures le(s[0], rest[j]) && s[0] != rest[j] {
          assert rest[j] in s[1..];
          var m :| 0 <= m < |s[1..]| && s[1..][m] == rest[j];
          assert m > 0 ==> le(s[1], s[m + 1]);
        }
      }
    }
  }

  // ---------------------------------------------------------------- stable argsort

  function Indices(n: nat): (r: seq<nat>)
    ensures |r| == n && forall i :: 0 <= i < n ==> r[i] == i
  {
    seq(n, i requires 0 <= i < n => i)
  }

  /** The positions `0 .. n` in the order a stable sort by `le` leaves them. */
  function Argsort(n: nat, le: (nat, nat) -> bool): seq<nat> {
    Sort(Indices(n), le)
  }

  /** `i` ranks no later than `j`: by the preorder, and by position where that is indifferent. */
  predicate Ranked(le: (nat, nat) -> bool, i: nat, j: nat) {
    le(i, j) && (le(j, i) ==> i <= j)
  }

  ghost predicate RankedAll(s: seq<nat>, le: (nat, nat) -> bool) {
    forall i, j {:trigger Ranked(le, s[i], s[j])} :: 0 <= i < j < |s| ==> Ranked(le, s[i], s[j])
  }

  ghost predicate NoRepeats<T(!new)>(s: seq<T>) {
    forall i, j :: 0 <= i < j < |s| ==> s[i] != s[j]
  }

  lemma {:induction false} InsertStable(x: nat, s: seq<nat>, le: (nat, nat) -> bool)
    requires TotalPreorder(le) && RankedAll(s, le) && forall y :: y in s ==> x < y
    ensures RankedAll(Insert(x, s, le), le)
  {
    var r := Insert(x, s, le);
    if s == [] || le(x, s[0]) {
      forall i, j | 0 <= i < j < |r| ensures Ranked(le, r[i], r[j]) {
        if i > 0 {
          assert Ranked(le, s[i - 1], s[j - 1]);
        } else {
          assert s[j - 1] in s && (j > 1 ==> Ranked(le, s[0], s[j - 1]));
        }
      }
    } else {
      var rest := s[1..];
      forall i, j | 0 <= i < j < |rest| ensures Ranked(le, rest[i], rest[j]) {
        assert Ranked(le, s[i + 1], s[j + 1]);
      }
      forall y | y in rest ensures x < y {
        assert y in s;
      }
      InsertStable(x, rest, le);
      InsertMultiset(x, rest, le);
      var tail := Insert(x, rest, le);
      forall j | 0 <= j < |tail| ensures Ranked(le, s[0], tail[j]) {
        assert tail[j] in multiset(tail);
        if tail[j] != x {
          var m :| 0 <= m < |rest| && rest[m] == tail[j];
          assert Ranked(le, s[0], s[m + 1]);
        }
      }
      forall i, j | 0 <= i < j < |r| ensures Ranked(le, r[i], r[j]) {
        assert i > 0 ==> Ranked(le, tail[i - 1], tail[j - 1]);
      }
    }
  }

  lemma {:induction false} SortStable(s: seq<nat>, le: (nat, nat) -> bool)
    requires TotalPreorder(le) && forall i, j :: 0 <= i < j < |s| ==> s[i] < s[j]
    ensures RankedAll(Sort(s, le), le)
  {
    if s != [] {
      SortStable(s[1..], le);
      SortMembers(s[1..], le);
      InsertStable(s[0], Sort(s[1..], le), le);
    }
  }

  lemma {:induction false} RepeatsShow<T>(s: seq<T>, i: nat, j: nat)
    requires i < j < |s| && s[i] == s[j]
    ensures multiset(s)[s[i]] >= 2
  {
    assert s == s[..j] + [s[j]] + s[j + 1..];
    assert s[..j][i] in s[..j];
  }

  lemma PermutationNoRepeats<T(!new)>(s: seq<T>, t: seq<T>)
    requires multiset(s) == multiset(t) && NoRepeats(t)
    ensures NoRepeats(s)
  {
    forall i, j | 0 <= i < j < |s| ensures s[i] != s[j] {
      if s[i] == s[j] {
        RepeatsShow(s, i, j);
        NoRepeatsOnce(t, s[i]);
      }
    }
  }

  lemma {:induction false} NoRepeatsOnce<T(!new)>(t: seq<T>, x: T)
    requires NoRepeats(t)
    ensures multiset(t)[x] <= 1
  {
    if t != [] {
      var rest, last := t[..|t| - 1], t[|t| - 1];
      NoRepeatsOnce(rest, x);
      assert t == rest + [last];
      assert last !in rest;
    }
  }

  /** A stable argsort lists every position once, in rank order. */
  lemma ArgsortFacts(n: nat, le: (nat, nat) -> bool)
    requires TotalPreorder(le)
    ensures |Argsort(n, le)| == n && NoRepeats(Argsort(n, le)) && RankedAll(Argsort(n, le), le)
    ensures forall i: nat :: i in Argsort(n, le) <==> i < n
  {
    var s := Indices(n);
    SortStable(s, le);
    SortMultiset(s, le);
    SortMembers(s, le);
    PermutationNoRepeats(Sort(s, le), s);
    forall i: nat ensures i in s <==> i < n {
      assert i < n ==> s[i] == i;
    }
  }
}
