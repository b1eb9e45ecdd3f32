/** A binary heap in an array whose slot 0 is not used, ordered by a key of its entries. */
module Heap {

  datatype Entry<T> = Entry(key: int, value: T)

  // ----- The heap as a sequence of slots -----

  /** The entries in the slots 1 to n. */
  ghost function Items<T>(s: seq<Entry<T>>, n: nat): multiset<Entry<T>>
    requires n < |s|
  {
    multiset(s[1..n + 1])
  }

  lemma ItemsUpdate<T>(s: seq<Entry<T>>, n: nat, i: nat, e: Entry<T>)
    requires 1 <= i <= n < |s|
    ensures Items(s[i := e], n) == Items(s, n) - multiset{s[i]} + multiset{e}
    ensures s[i] in Items(s, n)
  {
    assert s[i := e][1..n + 1] == s[1..n + 1][i - 1 := e];
    assert s[1..n + 1][i - 1] == s[i];
  }

  lemma ItemsLast<T>(s: seq<Entry<T>>, n: nat)
    requires 1 <= n < |s|
    ensures Items(s, n) == Items(s, n - 1) + multiset{s[n]}
  {
    assert s[1..n + 1] == s[1..n] + [s[n]];
  }

  lemma ItemsSame<T>(s: seq<Entry<T>>, t: seq<Entry<T>>, n: nat)
    requires n < |s| && n < |t| && s[1..n + 1] == t[1..n + 1]
    ensures Items(s, n) == Items(t, n)
  {
  }

  /** A hole that moves from one slot to another, taking the entry of the other slot's place. */
  lemma ItemsMove<T>(s: seq<Entry<T>>, n: nat, from: nat, to: nat, e: Entry<T>)
    requires 1 <= from <= n < |s| && 1 <= to <= n && from != to
    ensures Items(s[from := s[to]][to := e], n) == Items(s[from := e], n)
  {
    var t := s[from := s[to]];
    ItemsUpdate(s, n, from, s[to]);
    ItemsUpdate(t, n, to, e);
    ItemsUpdate(s, n, from, e);
    assert t[to] == s[to];
  }

  /** Every entry is at least its parent, but for the child in slot up and the children of slot
      down. */
  predicate OrderedBut<T>(s: seq<Entry<T>>, n: nat, up: nat, down: nat)
    requires n < |s|
  {
    forall k :: 2 <= k <= n && k != up && k / 2 != down ==> s[k / 2].key <= s[k].key
  }

  predicate Ordered<T>(s: seq<Entry<T>>, n: nat)
    requires n < |s|
  {
    OrderedBut(s, n, 0, 0)
  }

  /** The children of slot i are at least its parent. */
  predicate Bridged<T>(s: seq<Entry<T>>, n: nat, i: nat)
    requires n < |s| && i < |s|
  {
    forall k :: 2 <= k <= n && 1 < i && k / 2 == i ==> s[i / 2].key <= s[k].key
  }

  /** The root is a minimum. */
  lemma {:induction false} RootLeast<T>(s: seq<Entry<T>>, n: nat, k: nat)
    requires 1 <= k <= n < |s| && Ordered(s, n)
    ensures s[1].key <= s[k].key
    decreases k
  {
    if k != 1 {
      RootLeast(s, n, k / 2);
    }
  }

  ghost predicate Least<T>(e: Entry<T>, bag: multiset<Entry<T>>) {
    e in bag && forall x :: x in bag ==> e.key <= x.key
  }

  lemma RootIsLeast<T>(s: seq<Entry<T>>, n: nat)
    requires 1 <= n < |s| && Ordered(s, n)
    ensures Least(s[1], Items(s, n))
  {
    var t := s[1..n + 1];
    assert t[0] == s[1];
    forall x | x in Items(s, n) ensures s[1].key <= x.key {
      var i :| 0 <= i < |t| && t[i] == x;
      RootLeast(s, n, i + 1);
    }
  }

  /** The hole opens behind the heap, for the entry to be added. */
  lemma UpStart<T>(s: seq<Entry<T>>, n: nat, e: Entry<T>)
    requires 1 < n < |s| && Ordered(s, n - 1)
    ensures OrderedBut(s[n := e], n, n, 0) && Bridged(s[n := e], n, n)
    ensures Items(s[n := e], n) == Items(s, n - 1) + multiset{e}
  {
    ItemsUpdate(s, n, n, e);
    ItemsLast(s, n);
    hide Items;
  }

  /** The hole closes where the parent is not greater. */
  lemma UpEnd<T>(s: seq<Entry<T>>, n: nat, i: nat, e: Entry<T>)
    requires 1 <= i <= n < |s| && OrderedBut(s[i := e], n, i, 0)
    requires 1 < i ==> s[i / 2].key <= e.key
    ensures Ordered(s[i := e], n)
  {
  }

  /** One step of the hole towards the root. */
  lemma UpStep<T>(s: seq<Entry<T>>, n: nat, i: nat, e: Entry<T>)
    requires 1 < i <= n < |s| && e.key < s[i / 2].key
    requires OrderedBut(s[i := e], n, i, 0) && Bridged(s[i := e], n, i)
    ensures var t := s[i := s[i / 2]][i / 2 := e];
      && OrderedBut(t, n, i / 2, 0) && Bridged(t, n, i / 2)
      && Items(t, n) == Items(s[i := e], n)
  {
    ItemsMove(s, n, i, i / 2, e);
  }

  /** One step of the hole towards the leaves. */
  lemma DownStep<T>(s: seq<Entry<T>>, n: nat, i: nat, c: nat, e: Entry<T>)
    requires 1 <= i && n < |s| && LeastChild(s, n, i, c) && s[c].key < e.key
    requires OrderedBut(s[i := e], n, 0, i) && Bridged(s[i := e], n, i)
    ensures var t := s[i := s[c]][c := e];
      && OrderedBut(t, n, 0, c) && Bridged(t, n, c)
      && Items(t, n) == Items(s[i := e], n)
  {
    ItemsMove(s, n, i, c, e);
    var h, t := s[i := e], s[i := s[c]][c := e];
    forall k | 2 <= k <= n && k / 2 != c ensures t[k / 2].key <= t[k].key {
      if k / 2 == i {
        assert t[k / 2] == s[c];
      } else if k == i {
        assert h[i / 2].key <= h[c].key;
      } else {
        assert h[k / 2].key <= h[k].key;
      }
    }
    forall k | 2 <= k <= n && k / 2 == c ensures t[c / 2].key <= t[k].key {
      assert h[k / 2].key <= h[k].key;
    }
  }

  /** Slot c is a child of slot i, and none is less. */
  predicate LeastChild<T>(s: seq<Entry<T>>, n: nat, i: nat, c: nat)
    requires n < |s|
  {
    2 <= c <= n && c / 2 == i && NoLess(s, n, i, s[c])
  }

  /** No child of slot i is less than the entry. */
  predicate NoLess<T>(s: seq<Entry<T>>, n: nat, i: nat, e: Entry<T>)
    requires n < |s|
  {
    forall k :: 2 <= k <= n && k / 2 == i ==> e.key <= s[k].key
  }

  lemma ChildBounds<T>(s: seq<Entry<T>>, n: nat, i: nat, c: nat)
    requires n < |s| && LeastChild(s, n, i, c)
    ensures 2 <= c <= n && i < c
  {
  }

  lemma NoLessLeast<T>(s: seq<Entry<T>>, n: nat, i: nat, c: nat, e: Entry<T>)
    requires n < |s| && LeastChild(s, n, i, c) && e.key <= s[c].key
    ensures NoLess(s, n, i, e)
  {
  }

  /** The hole opens at the root, for the entry behind the heap. */
  lemma DownStart<T>(s: seq<Entry<T>>, n: nat)
    requires n + 1 < |s| && Ordered(s, n + 1)
    ensures OrderedBut(s[1 := s[n + 1]], n, 0, 1) && Bridged(s[1 := s[n + 1]], n, 1)
    ensures Items(s[1 := s[n + 1]], n) == Items(s, n + 1) - multiset{s[1]}
  {
    DownStartItems(s, n);
    var h := s[1 := s[n + 1]];
    forall k | 2 <= k <= n && k / 2 != 1 ensures h[k / 2].key <= h[k].key {
      assert s[k / 2].key <= s[k].key;
    }
  }

  lemma DownStartItems<T>(s: seq<Entry<T>>, n: nat)
    requires n + 1 < |s|
    ensures Items(s[1 := s[n + 1]], n) == Items(s, n + 1) - multiset{s[1]}
  {
    ItemsLast(s, n + 1);
    if n > 0 {
      ItemsUpdate(s, n, 1, s[n + 1]);
    } else {
      assert s[1 := s[1]] == s;
    }
  }

  lemma NoChildren<T>(s: seq<Entry<T>>, n: nat, i: nat, e: Entry<T>)
    requires n < |s| && i * 2 > n
    ensures NoLess(s, n, i, e)
  {
  }

  /** The hole closes where no child is less. */
  lemma DownEnd<T>(s: seq<Entry<T>>, n: nat, i: nat, e: Entry<T>)
    requires 1 <= i < |s| && n < |s| && OrderedBut(s[i := e], n, 0, i)
    requires NoLess(s, n, i, e)
    ensures Ordered(s[i := e], n)
  {
    var h := s[i := e];
    forall k | 2 <= k <= n ensures h[k / 2].key <= h[k].key {
      if k / 2 == i {
        assert h[k] == s[k];
      }
    }
  }

  // ----- Runs -----

  /** What a call did. */
  datatype Op<T> = Inserted(e: Entry<T>) | Refused(e: Entry<T>) | Popped(e: Entry<T>) | FoundEmpty

  ghost predicate Does<T>(op: Op<T>, before: multiset<Entry<T>>, after: multiset<Entry<T>>) {
    match op
    case Inserted(e) => after == before + multiset{e}
    case Refused(_) => after == before
    case Popped(e) => Least(e, before) && after == before - multiset{e}
    case FoundEmpty => before == after == multiset{}
  }

  /** Calls that take a new heap through the given contents. */
  ghost predicate IsRun<T>(bags: seq<multiset<Entry<T>>>, ops: seq<Op<T>>) {
    && |bags| == |ops| + 1
    && bags[0] == multiset{}
    && forall i :: 0 <= i < |ops| ==> Does(ops[i], bags[i], bags[i + 1])
  }

  ghost predicate AtLeast<T>(bag: multiset<Entry<T>>, key: int) {
    forall x :: x in bag ==> key <= x.key
  }

  /** Between a pop and a later call nothing less is inserted. */
  predicate NoLessBetween<T>(ops: seq<Op<T>>, i: nat, j: nat)
    requires i < j < |ops| && ops[i].Popped?
  {
    forall k :: i < k < j && ops[k].Inserted? ==> ops[i].e.key <= ops[k].e.key
  }

  /** On every run, pops come out in the order of their keys as long as nothing less is inserted
      in between. */
  lemma PopsInOrder<T>(bags: seq<multiset<Entry<T>>>, ops: seq<Op<T>>, i: nat, j: nat)
    requires IsRun(bags, ops) && i < j < |ops|
    requires ops[i].Popped? && ops[j].Popped?
    requires NoLessBetween(ops, i, j)
    ensures ops[i].e.key <= ops[j].e.key
  {
    StaysAbove(bags, ops, i, j);
    assert Does(ops[j], bags[j], bags[j + 1]);
  }

  lemma {:induction false} StaysAbove<T>(bags: seq<multiset<Entry<T>>>, ops: seq<Op<T>>, i: nat, j: nat)
    requires IsRun(bags, ops) && i < j < |ops| && ops[i].Popped?
    requires forall k :: i < k < j && ops[k].Inserted? ==> ops[i].e.key <= ops[k].e.key
    ensures AtLeast(bags[j], ops[i].e.key)
  {
    assert Does(ops[j - 1], bags[j - 1], bags[j]);
    if j != i + 1 {
      StaysAbove(bags, ops, i, j - 1);
    }
  }

  ghost function Ins<T>(ops: seq<Op<T>>): multiset<Entry<T>> {
    if ops == [] then multiset{}
    else
      var last := ops[|ops| - 1];
      Ins(ops[..|ops| - 1]) + if last.Inserted? then multiset{last.e} else multiset{}
  }

  ghost function Outs<T>(ops: seq<Op<T>>): multiset<Entry<T>> {
    if ops == [] then multiset{}
    else
      var last := ops[|ops| - 1];
      Outs(ops[..|ops| - 1]) + if last.Popped? then multiset{last.e} else multiset{}
  }

  /** On every run, what was inserted is what was popped and what is still held. */
  lemma {:induction false} Conserved<T>(bags: seq<multiset<Entry<T>>>, ops: seq<Op<T>>)
    requires IsRun(bags, ops)
    ensures Ins(ops) == Outs(ops) + bags[|ops|]
    decreases |ops|
  {
    if ops != [] {
      var n := |ops| - 1;
      Conserved(bags[..n + 1], ops[..n]);
      assert Does(ops[n], bags[n], bags[n + 1]);
    }
  }

  // ----- The heap -----

  class Heap<T(0)> {
    var size: nat
    var n: nat
    var top: array?<Entry<T>>

    ghost predicate Valid()
      reads this, top
    {
      && n <= size
      && (top == null ==> size == 0)
      && (top != null ==> size <= top.Length && n < top.Length && Ordered(top[..], n))
    }

    /** The entries held. */
    ghost function Bag(): multiset<Entry<T>>
      reads this, top
      requires Valid()
    {
      if top == null then multiset{} else Items(top[..], n)
    }

    constructor ()
      ensures Valid() && Bag() == multiset{} && top == null
    {
      size, n, top := 0, 0, null;
    }

    /** Moves the slots to new memory with room for n entries. */
    method Grow()
      requires n >= 1 && n - 1 <= size <= n
      requires top == null ==> n == 1 && size == 0
      requires top != null ==> size <= top.Length && n <= top.Length && Ordered(top[..], n - 1)
      modifies this`top, this`size
      ensures top != null && fresh(top) && top.Length == n + 1 && size == old(size) + 1
      ensures Ordered(top[..], n - 1)
      ensures Items(top[..], n - 1) == if old(top) == null then multiset{} else old(Items(top[..], n - 1))
    {
      var newTop := new Entry<T>[n + 1];
      if top != null {
        var i := 0;
        while i < n
          invariant 0 <= i <= n && fresh(newTop) && newTop.Length == n + 1
          invariant newTop[..i] == top[..i]
          invariant top[..] == old(top[..])
          modifies newTop
        {
          newTop[i] := top[i];
          i := i + 1;
        }
        ghost var s, t := newTop[..], top[..];
        assert s[1..n] == t[1..n] by {
          assert s[..n] == t[..n];
        }
        assert Ordered(s, n - 1) by {
          assert forall k :: 0 <= k < n ==> s[k] == t[k];
        }
        ItemsSame(s, t, n - 1);
      }
      top := newTop;
      size := size + 1;
    }

    /** Adds an entry. It fails, and changes nothing, exactly when the slots are used up and
        there is no memory for more. */
    method Insert(el: Entry<T>, memory: bool) returns (r: int)
      requires Valid()
      modifies this, top
      ensures Valid()
      ensures r == (if old(n) + 1 >= old(size) && !memory then -1 else 0)
      ensures Does(if r == 0 then Inserted(el) else Refused(el), old(Bag()), Bag())
      ensures top != old(top) ==> fresh(top)
      ensures r == 0 ==> n == old(n) + 1
      ensures r == -1 ==> n == old(n) && size == old(size) && top == old(top)
      ensures r == -1 && top != null ==> top[..] == old(top[..])
    {
      hide OrderedBut, Items;
      n := n + 1;
      if n >= size {
        if !memory {
          n := n - 1;
          return -1;
        }
        Grow();
      }
      Place(el);
      return 0;
    }

    /** Puts an entry into the heap, whose last slot is free. */
    method Place(el: Entry<T>)
      requires 1 <= n <= size && top != null && size <= top.Length && n < top.Length && Ordered(top[..], n - 1)
      modifies top
      ensures Ordered(top[..], n) && Items(top[..], n) == old(Items(top[..], n - 1)) + multiset{el}
    {
      if n == 1 {
        ghost var s := top[..];
        top[1] := el;
        assert top[..] == s[1 := el];
        ItemsUpdate(s, n, 1, el);
        ItemsLast(s, 1);
        return;
      }
      SiftUp(el);
    }

    method SiftUp(el: Entry<T>)
      requires 1 < n <= size && top != null && size <= top.Length && n < top.Length && Ordered(top[..], n - 1)
      modifies top
      ensures Ordered(top[..], n) && Items(top[..], n) == old(Items(top[..], n - 1)) + multiset{el}
    {
      hide *;
      var i := n;
      ghost var s0 := top[..];
      UpStart(s0, n, el);
      while i > 1 && top[i / 2].key > el.key
        invariant 1 <= i <= n
        invariant OrderedBut(top[..][i := el], n, i, 0) && Bridged(top[..][i := el], n, i)
        invariant Items(top[..][i := el], n) == Items(s0, n - 1) + multiset{el}
      {
        ghost var s := top[..];
        UpStep(s, n, i, el);
        top[i] := top[i / 2];
        assert top[..] == s[i := s[i / 2]];
        i := i / 2;
      }
      ghost var s := top[..];
      UpEnd(s, n, i, el);
      top[i] := el;
      assert top[..] == s[i := el];
    }

    /** The smaller child of slot i. */
    method Child(i: nat) returns (child: nat)
      requires top != null && n < top.Length && 1 <= i && i * 2 <= n
      ensures LeastChild(top[..], n, i, child)
    {
      child := 2 * i;
      if child != n && top[child + 1].key < top[child].key {
        child := child + 1;
      }
    }

    /** Takes out an entry with the least key; it fails exactly when there is none. */
    method Peek() returns (r: int, first: Entry<T>)
      requires Valid()
      modifies this`n, top
      ensures Valid()
      ensures r == if old(n) == 0 then -1 else 0
      ensures Does(if r == 0 then Popped(first) else FoundEmpty, old(Bag()), Bag())
      ensures r == 0 ==> n == old(n) - 1
    {
      if n == 0 {
        r, first := -1, *;
        assert top != null ==> top[..][1..1] == [];
        return;
      }
      first := top[1];
      RootIsLeast(top[..], n);
      ItemsLast(top[..], n);
      var last := n;
      n := n - 1;
      SiftDown(last, first);
      return 0, first;
    }

    /** Fills slot 1 with the entry of the slot behind the heap. */
    method SiftDown(last: nat, ghost first: Entry<T>)
      requires top != null && last == n + 1 < top.Length
      requires first == top[1] && Ordered(top[..], last)
      modifies top
      ensures Ordered(top[..], n) && Items(top[..], n) == old(Items(top[..], last)) - multiset{first}
    {
      hide *;
      ghost var e, s0 := top[last], top[..];
      DownStart(s0, n);
      var i := 1;
      while i * 2 <= n
        invariant 1 <= i <= last && (i <= n || n == 0)
        invariant top[last] == e
        invariant OrderedBut(top[..][i := e], n, 0, i) && Bridged(top[..][i := e], n, i)
        invariant Items(top[..][i := e], n) == Items(s0, last) - multiset{first}
        decreases last - i
      {
        var child := Child(i);
        ghost var s := top[..];
        ChildBounds(s, n, i, child);
        if top[last].key > top[child].key {
          DownStep(s, n, i, child, e);
          top[i] := top[child];
          assert top[..] == s[i := s[child]];
        } else {
          NoLessLeast(s, n, i, child, e);
          break;
        }
        i := child;
      }
      ghost var s := top[..];
      if i * 2 > n {
        NoChildren(s, n, i, e);
      }
      DownEnd(s, n, i, e);
      top[i] := top[last];
      assert top[..] == s[i := e];
    }

    /** The entry that the next Peek takes out. */
    method First() returns (found: bool, first: Entry<T>)
      requires Valid()
      ensures found <==> Bag() != multiset{}
      ensures found ==> Least(first, Bag())
    {
      if n == 0 {
        assert top != null ==> top[..][1..1] == [];
        found, first := false, *;
      } else {
        RootIsLeast(top[..], n);
        found, first := true, top[1];
      }
    }
  }
  // ----- Runs of a heap -----

  /** A call: an entry to be added, with or without memory for more slots, or one to be taken out. */
  datatype Call<T> = Add(e: Entry<T>, memory: bool) | Take

  ghost predicate Answers<T>(c: Call<T>, op: Op<T>) {
    match c
    case Add(e, memory) => op == Inserted(e) || (op == Refused(e) && !memory)
    case Take => op.Popped? || op.FoundEmpty?
  }

  /** What was done so far, and the contents that it went through. */
  ghost predicate Driven<T(0)>(h: Heap<T>, calls: seq<Call<T>>, ops: seq<Op<T>>, bags: seq<multiset<Entry<T>>>)
    reads h, h.top
  {
    && h.Valid() && IsRun(bags, ops) && bags[|ops|] == h.Bag()
    && |ops| <= |calls| && forall i :: 0 <= i < |ops| ==> Answers(calls[i], ops[i])
  }

  lemma RunOn<T>(bags: seq<multiset<Entry<T>>>, ops: seq<Op<T>>, op: Op<T>, after: multiset<Entry<T>>)
    requires IsRun(bags, ops) && Does(op, bags[|ops|], after)
    ensures IsRun(bags + [after], ops + [op]) && (bags + [after])[|ops| + 1] == after
  {
    hide Does;
    var bs, os := bags + [after], ops + [op];
    forall i | 0 <= i < |os|
      ensures Does(os[i], bs[i], bs[i + 1])
    {
      assert i < |ops| ==> Does(ops[i], bags[i], bags[i + 1]);
    }
  }

  method DoNext<T(0)>(h: Heap<T>, c: Call<T>) returns (op: Op<T>)
    requires h.Valid()
    modifies h, h.top
    ensures h.Valid() && (h.top == old(h.top) || fresh(h.top))
    ensures Answers(c, op) && Does(op, old(h.Bag()), h.Bag())
  {
    match c {
      case Add(e, memory) =>
        var r := h.Insert(e, memory);
        op := if r == 0 then Inserted(e) else Refused(e);
      case Take =>
        var r, first := h.Peek();
        op := if r == 0 then Popped(first) else FoundEmpty;
    }
  }

  /** Any calls on a new heap, failures included: what was inserted is what was popped and what is
      held, and pops come out in the order of their keys as long as nothing less is inserted in
      between. */
  method Drive<T(0)>(calls: seq<Call<T>>) returns (h: Heap<T>, ops: seq<Op<T>>)
    ensures fresh(h) && h.Valid() && |ops| == |calls|
    ensures forall i :: 0 <= i < |ops| ==> Answers(calls[i], ops[i])
    ensures Ins(ops) == Outs(ops) + h.Bag()
    ensures forall i, j :: 0 <= i < j < |ops| && ops[i].Popped? && ops[j].Popped? && NoLessBetween(ops, i, j) ==>
      ops[i].e.key <= ops[j].e.key
  {
    h := new Heap<T>();
    ops := [];
    ghost var bags := [h.Bag()];
    assert Driven(h, calls, ops, bags);
    hide Heap.Valid, Heap.Bag, Does, Answers, Ins, Outs, NoLessBetween;
    while |ops| < |calls|
      invariant fresh(h) && (h.top == null || fresh(h.top))
      invariant Driven(h, calls, ops, bags)
    {
      var op := DoNext(h, calls[|ops|]);
      RunOn(bags, ops, op, h.Bag());
      ops, bags := ops + [op], bags + [h.Bag()];
    }
    Conserved(bags, ops);
    forall i, j | 0 <= i < j < |ops| && ops[i].Popped? && ops[j].Popped? && NoLessBetween(ops, i, j)
      ensures ops[i].e.key <= ops[j].e.key
    {
      PopsInOrder(bags, ops, i, j);
    }
  }
}
