/** Sequences of sequences. */
module Sequences {

  function Concat<T>(parts: seq<seq<T>>): seq<T> {
    if parts == [] then [] else Concat(parts[..|parts| - 1]) + parts[|parts| - 1]
  }

  lemma {:induction false} ConcatSplit<T>(a: seq<seq<T>>, b: seq<seq<T>>)
    ensures Concat(a + b) == Concat(a) + Concat(b)
  {
    if b == [] {
      assert a + b == a;
    } else {
      var front := b[..|b| - 1];
      assert (a + b)[..|a + b| - 1] == a + front;
      ConcatSplit(a, front);
      assert (Concat(a) + Concat(front)) + b[|b| - 1] == Concat(a) + (Concat(front) + b[|b| - 1]);
    }
  }

  lemma ConcatSnoc<T>(parts: seq<seq<T>>, last: seq<T>)
    ensures Concat(parts + [last]) == Concat(parts) + last
  {
    assert (parts + [last])[..|parts|] == parts;
  }

  lemma ConcatCons<T>(first: seq<T>, parts: seq<seq<T>>)
    ensures Concat([first] + parts) == first + Concat(parts)
  {
    ConcatSplit([first], parts);
    ConcatSnoc<T>([], first);
    assert [] + [first] == [first];
  }

  lemma SliceOfSlice<T>(s: seq<T>, a: nat, b: nat, i: nat, j: nat)
    requires i <= j && a + j <= b <= |s|
    ensures s[a..b][i..j] == s[a + i..a + j]
  {
    var t := s[a..b];
    var x, y := t[i..j], s[a + i..a + j];
    forall k | 0 <= k < j - i ensures x[k] == y[k] {
      assert x[k] == t[i + k] == s[a + (i + k)];
    }
    assert x == y;
  }

  /** The place of the first x, or -1. */
  function Find<T(==)>(s: seq<T>, x: T): (r: int)
    ensures -1 <= r < |s|
    ensures 0 <= r ==> s[r] == x && forall i :: 0 <= i < r ==> s[i] != x
    ensures r == -1 <==> x !in s
  {
    if s == [] then -1
    else if s[0] == x then 0
    else
      var r := Find(s[1..], x);
      if r == -1 then -1 else r + 1
  }

  lemma FindAt<T>(before: seq<T>, x: T, behind: seq<T>)
    requires x !in before
    ensures Find(before + [x] + behind, x) == |before|
  {
    var s := before + [x] + behind;
    var r := Find(s, x);
    assert s[|before|] == x;
    assert forall k :: 0 <= k < |before| ==> s[k] == before[k];
  }
}
