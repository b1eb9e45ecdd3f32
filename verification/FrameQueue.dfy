/** A queue of frames, linked through the frames themselves, with limits on their number and on
    the sum of their sizes. */
module FrameQueue {

  import opened Octets

  function Wrap(x: int): Word32 {
    x % 0x1_0000_0000
  }

  function Signed(x: Word32): int {
    if x < 0x8000_0000 then x else x - 0x1_0000_0000
  }

  /** A size is returned as the number of 32 bits and sign that differs from it by a multiple
      of 2^32. */
  lemma SignedIs(x: Word32, r: int)
    ensures r == Signed(x) <==> -0x8000_0000 <= r < 0x8000_0000 && (r - x) % 0x1_0000_0000 == 0
  {
  }

  class Frame {
    var next: Frame?
    const bufferLen: Word32

    constructor (bufferLen: Word32)
      ensures this.bufferLen == bufferLen && next == null
    {
      this.bufferLen, next := bufferLen, null;
    }
  }

  // ----- The queue as a value -----

  datatype Limits = Limits(maxFrames: Word32, maxSize: Word32, overhead: Word16)

  /** The frames in order, the size that is accounted for them, and how many frames were taken
      out since the last was put into an empty queue. */
  datatype State = State(nodes: seq<Frame>, size: Word32, taken: nat)

  predicate Refuses(l: Limits, s: State, p: Frame) {
    (l.maxFrames != 0 && l.maxFrames <= |s.nodes|) || TooLarge(l, s, p)
  }

  predicate TooLarge(l: Limits, s: State, p: Frame) {
    l.maxSize != 0 && l.maxSize < Wrap(p.bufferLen + s.size)
  }

  function Put(l: Limits, s: State, p: Frame): State {
    if s.nodes == [] then State([p], Wrap(p.bufferLen + l.overhead), 0)
    else State(s.nodes + [p], Wrap(s.size + p.bufferLen + l.overhead), s.taken)
  }

  function Taken(l: Limits, s: State): State
    requires s.nodes != []
  {
    State(s.nodes[1..], Wrap(s.size - (s.nodes[0].bufferLen - l.overhead)), s.taken + 1)
  }

  // ----- The linked queue -----

  class Queue {
    var frames: Word32
    var size: Word32
    const limits: Limits
    var head: Frame?
    var tail: Frame?
    ghost var nodes: seq<Frame>
    ghost var taken: nat

    ghost function Now(): State
      reads this
    {
      State(nodes, size, taken)
    }

    ghost predicate Linked()
      reads this, nodes
    {
      && (forall i, j :: 0 <= i < j < |nodes| ==> nodes[i] != nodes[j])
      && (forall i :: 0 <= i < |nodes| - 1 ==> nodes[i].next == nodes[i + 1])
      && (nodes != [] ==> nodes[|nodes| - 1].next == null)
    }

    ghost predicate Valid()
      reads this, nodes
    {
      && Linked()
      && frames == |nodes|
      && (if nodes == [] then head == tail == null else head == nodes[0] && tail == nodes[|nodes| - 1])
    }

    constructor (limits: Limits)
      ensures Valid() && this.limits == limits && Now() == State([], 0, 0)
    {
      this.limits := limits;
      frames, size, head, tail := 0, 0, null, null;
      nodes, taken := [], 0;
    }

    /** Puts a frame at the end, unless a limit is reached. */
    method Enqueue(p: Frame) returns (r: int)
      requires Valid() && p !in nodes && |nodes| + 1 < 0x1_0000_0000
      modifies this, p`next, nodes
      ensures Valid()
      ensures Now() == if Refuses(limits, old(Now()), p) then old(Now()) else Put(limits, old(Now()), p)
      ensures r == if Refuses(limits, old(Now()), p) then -1 else Signed(size)
    {
      if limits.maxFrames != 0 && limits.maxFrames <= frames {
        return -1;
      }
      if limits.maxSize != 0 && limits.maxSize < Wrap(p.bufferLen + size) {
        return -1;
      }
      p.next := null;
      if head == null {
        head := p;
        tail := p;
        size := 0;
        frames := 0;
        taken := 0;
      } else {
        tail.next := p;
        tail := p;
      }
      nodes := nodes + [p];
      size := Wrap(size + p.bufferLen + limits.overhead);
      frames := frames + 1;
      return Signed(size);
    }

    /** Takes the first frame out. */
    method Dequeue() returns (p: Frame?)
      requires Valid()
      modifies this, nodes
      ensures Valid()
      ensures p == if old(nodes) == [] then null else old(nodes)[0]
      ensures p != null ==> p.next == null
      ensures Now() == if old(nodes) == [] then old(Now()) else Taken(limits, old(Now()))
      ensures nodes == if old(nodes) == [] then [] else old(nodes)[1..]
    {
      p := head;
      if p == null {
        return;
      }
      if frames < 1 {
        return null;
      }
      head := p.next;
      frames := frames - 1;
      size := Wrap(size - (p.bufferLen - limits.overhead));
      if head == null {
        tail := null;
      }
      p.next := null;
      nodes, taken := nodes[1..], taken + 1;
    }

    method Peek() returns (p: Frame?)
      requires Valid()
      ensures p == if nodes == [] then null else nodes[0]
    {
      p := head;
      if frames < 1 {
        return null;
      }
    }

    /** Takes all the frames out, first to last. */
    method Empty() returns (discarded: seq<Frame>)
      requires Valid()
      modifies this, nodes
      ensures Valid() && nodes == [] && discarded == old(nodes)
    {
      hide Valid, Linked, Now, Taken;
      ghost var was := nodes;
      ghost var k := 0;
      discarded := [];
      var p := Dequeue();
      while p != null
        invariant Valid() && 0 <= k <= |was| && discarded == was[..k]
        invariant p != null ==> k < |was| && p == was[k] && nodes == was[k + 1..]
        invariant p == null ==> k == |was| && nodes == []
        decreases |nodes|, p != null
      {
        discarded := discarded + [p];
        k := k + 1;
        p := Dequeue();
      }
    }
  }

  // ----- The size that is accounted -----

  function Total(nodes: seq<Frame>, overhead: Word16): nat {
    if nodes == [] then 0 else nodes[0].bufferLen + overhead + Total(nodes[1..], overhead)
  }

  lemma {:induction false} TotalSnoc(nodes: seq<Frame>, p: Frame, overhead: Word16)
    ensures Total(nodes + [p], overhead) == Total(nodes, overhead) + p.bufferLen + overhead
  {
    if nodes == [] {
      assert [] + [p] == [p];
    } else {
      assert (nodes + [p])[1..] == nodes[1..] + [p];
      TotalSnoc(nodes[1..], p, overhead);
    }
  }

  /** What is accounted without being there: twice the overhead for every frame taken out since
      one was put into an empty queue. */
  function Excess(l: Limits, s: State): nat {
    2 * l.overhead * s.taken
  }

  /** The size is what the frames take, and the excess. */
  predicate Accounted(l: Limits, s: State) {
    s.size == Wrap(Total(s.nodes, l.overhead) + Excess(l, s))
  }

  lemma PutAccounted(l: Limits, s: State, p: Frame)
    requires Accounted(l, s)
    ensures Accounted(l, Put(l, s, p))
  {
    TotalSnoc(s.nodes, p, l.overhead);
    assert Total([], l.overhead) == 0;
    hide Total;
    if s.nodes != [] {
      var drift := 2 * l.overhead * s.taken;
      WrapAdd(Total(s.nodes, l.overhead) + drift, p.bufferLen + l.overhead);
    } else {
      assert s.nodes + [p] == [p];
    }
  }

  lemma WrapAdd(a: int, b: int)
    ensures Wrap(Wrap(a) + b) == Wrap(a + b)
  {
  }

  lemma TakenAccounted(l: Limits, s: State)
    requires Accounted(l, s) && s.nodes != []
    ensures Accounted(l, Taken(l, s))
  {
    var p := s.nodes[0];
    var total := Total(s.nodes, l.overhead);
    assert total == p.bufferLen + l.overhead + Total(s.nodes[1..], l.overhead);
    var drift := 2 * l.overhead * s.taken;
    assert 2 * l.overhead * (s.taken + 1) == drift + 2 * l.overhead;
    WrapAdd(total + drift, l.overhead - p.bufferLen);
  }

  // ----- Runs -----

  /** A call: a frame to put in, or the first to be taken out. */
  datatype Call = PutIn(p: Frame) | TakeOut

  function Step(l: Limits, s: State, c: Call): State {
    match c
    case PutIn(p) => if Refuses(l, s, p) then s else Put(l, s, p)
    case TakeOut => if s.nodes == [] then s else Taken(l, s)
  }

  function Run(l: Limits, cs: seq<Call>): State {
    if cs == [] then State([], 0, 0) else Step(l, Run(l, cs[..|cs| - 1]), cs[|cs| - 1])
  }

  /** The frames that were let in, and those that came out. */
  function Ins(l: Limits, cs: seq<Call>): seq<Frame> {
    if cs == [] then []
    else
      var front, last := cs[..|cs| - 1], cs[|cs| - 1];
      Ins(l, front) + if last.PutIn? && !Refuses(l, Run(l, front), last.p) then [last.p] else []
  }

  function Outs(l: Limits, cs: seq<Call>): seq<Frame> {
    if cs == [] then []
    else
      var front, last := cs[..|cs| - 1], cs[|cs| - 1];
      Outs(l, front) + if last.TakeOut? && Run(l, front).nodes != [] then [Run(l, front).nodes[0]] else []
  }

  /** On every run the frames come out in the order in which they were let in. */
  lemma {:induction false} FirstInFirstOut(l: Limits, cs: seq<Call>)
    ensures Outs(l, cs) + Run(l, cs).nodes == Ins(l, cs)
  {
    if cs != [] {
      FirstInFirstOut(l, cs[..|cs| - 1]);
    }
  }

  lemma {:induction false} RunAccounted(l: Limits, cs: seq<Call>)
    ensures Accounted(l, Run(l, cs))
  {
    if cs != [] {
      var front, last := cs[..|cs| - 1], cs[|cs| - 1];
      RunAccounted(l, front);
      hide Accounted, Put, Taken, Refuses;
      var s := Run(l, front);
      if last.PutIn? {
        PutAccounted(l, s, last.p);
      } else if s.nodes != [] {
        TakenAccounted(l, s);
      }
    }
  }

  /** On every run the size is what the frames take exactly when the excess is lost in 32 bits;
      so it always is without overhead. */
  lemma SizeIsExactIff(l: Limits, cs: seq<Call>)
    ensures var s := Run(l, cs);
      s.size == Wrap(Total(s.nodes, l.overhead)) <==> Wrap(Excess(l, s)) == 0
    ensures l.overhead == 0 ==> Run(l, cs).size == Wrap(Total(Run(l, cs).nodes, 0))
  {
    RunAccounted(l, cs);
    var s := Run(l, cs);
    hide Run, Total;
    WrapSame(Total(s.nodes, l.overhead), Excess(l, s));
  }

  lemma WrapSame(a: int, b: int)
    ensures Wrap(a + b) == Wrap(a) <==> Wrap(b) == 0
  {
  }

  // ----- What the excess does to the limit -----

  /** On every run a frame is refused for its size exactly when it, the frames and the excess
      together exceed the limit in 32 bits. */
  lemma TooLargeIff(l: Limits, cs: seq<Call>, p: Frame)
    ensures var s := Run(l, cs);
      TooLarge(l, s, p) <==>
        l.maxSize != 0 && l.maxSize < Wrap(p.bufferLen + Total(s.nodes, l.overhead) + Excess(l, s))
  {
    RunAccounted(l, cs);
    var s := Run(l, cs);
    hide Run, Total, Excess;
    WrapAdd(Total(s.nodes, l.overhead) + Excess(l, s), p.bufferLen);
  }

  /** The sum with the excess lies on the other side of the limit than the sum without it. */
  predicate Crosses(limit: Word32, sum: nat, excess: nat) {
    sum <= limit < Wrap(sum + excess) || Wrap(sum + excess) <= limit < sum
  }

  /** On every run the size limit, if there is one, judges a frame by what the frames take with
      it exactly when the excess does not cross the limit. Short of 32 bits it is crossed exactly
      when the frame fits by less than the excess. */
  lemma JudgedRightIff(l: Limits, cs: seq<Call>, p: Frame)
    requires l.maxSize != 0
    ensures var s := Run(l, cs);
      var sum := p.bufferLen + Total(s.nodes, l.overhead);
      && ((TooLarge(l, s, p) <==> l.maxSize < sum) <==> !Crosses(l.maxSize, sum, Excess(l, s)))
      && (sum + Excess(l, s) < 0x1_0000_0000 ==>
            (Crosses(l.maxSize, sum, Excess(l, s)) <==> 0 <= l.maxSize - sum < Excess(l, s)))
  {
    TooLargeIff(l, cs, p);
    hide Run, Total, Excess;
  }

  // ----- What the limits let in -----

  /** The frames that were let in and did not come out are fewer than the limit on their number,
      if there is one. */
  predicate HasPlace(l: Limits, cs: seq<Call>) {
    l.maxFrames == 0 || |Ins(l, cs)| - |Outs(l, cs)| < l.maxFrames
  }

  /** On every run a frame is let in exactly when there is a place for it, and it, the frames in
      the queue and the excess do not exceed the limit on the size, if there is one. */
  lemma LetInIff(l: Limits, cs: seq<Call>, p: Frame)
    ensures var s := Run(l, cs);
      var sum := p.bufferLen + Total(s.nodes, l.overhead) + Excess(l, s);
      Ins(l, cs + [PutIn(p)]) ==
        Ins(l, cs) + if HasPlace(l, cs) && (l.maxSize == 0 || Wrap(sum) <= l.maxSize) then [p] else []
  {
    FirstInFirstOut(l, cs);
    TooLargeIff(l, cs, p);
    assert (cs + [PutIn(p)])[..|cs|] == cs;
    hide Run, Total, Excess, TooLarge, Outs;
  }

  /** On every run a queue with a limit on their number holds no more frames than that. */
  lemma {:induction false} RunWithinFrames(l: Limits, cs: seq<Call>)
    requires l.maxFrames != 0
    ensures |Run(l, cs).nodes| <= l.maxFrames
  {
    if cs != [] {
      RunWithinFrames(l, cs[..|cs| - 1]);
      hide TooLarge;
    }
  }

  function PutAll(ps: seq<Frame>): seq<Call> {
    seq(|ps|, i requires 0 <= i < |ps| => PutIn(ps[i]))
  }

  /** Without a limit on the size the first frames go in up to that number, and no more. */
  lemma {:induction false} FilledUp(l: Limits, ps: seq<Frame>)
    requires l.maxSize == 0
    ensures Run(l, PutAll(ps)).nodes == if l.maxFrames == 0 || |ps| <= l.maxFrames then ps else ps[..l.maxFrames]
  {
    if ps == [] {
    } else {
      var front, last := ps[..|ps| - 1], ps[|ps| - 1];
      FilledUp(l, front);
      assert PutAll(ps)[..|ps| - 1] == PutAll(front);
      assert ps == front + [last];
    }
  }

  // ----- A drained queue -----

  function Steps(l: Limits, s: State, cs: seq<Call>): State
    decreases |cs|
  {
    if cs == [] then s else Steps(l, Step(l, s, cs[0]), cs[1..])
  }

  /** None of the frames is let in. */
  predicate NoneIn(l: Limits, s: State, cs: seq<Call>)
    decreases |cs|
  {
    cs == [] || ((cs[0].PutIn? ==> Refuses(l, s, cs[0].p)) && NoneIn(l, Step(l, s, cs[0]), cs[1..]))
  }

  lemma EmptyRefusesIff(l: Limits, cs: seq<Call>, p: Frame)
    requires Run(l, cs).nodes == []
    ensures Refuses(l, Run(l, cs), p) <==> l.maxSize != 0 && l.maxSize < Wrap(p.bufferLen + Excess(l, Run(l, cs)))
  {
    TooLargeIff(l, cs, p);
    assert Total([], l.overhead) == 0;
    hide Run, Excess, Wrap;
  }

  /** An empty queue lets none of any further frames in, ever, exactly when each of them and the
      excess together exceed the limit; and then it stays as it is. */
  lemma LockedOutIff(l: Limits, cs: seq<Call>, more: seq<Call>)
    requires Run(l, cs).nodes == []
    ensures var s := Run(l, cs);
      NoneIn(l, s, more) <==> forall i :: 0 <= i < |more| && more[i].PutIn? ==>
        l.maxSize != 0 && l.maxSize < Wrap(more[i].p.bufferLen + Excess(l, s))
    ensures NoneIn(l, Run(l, cs), more) ==> Steps(l, Run(l, cs), more) == Run(l, cs)
  {
    var s := Run(l, cs);
    hide Run, Excess, Wrap, Refuses, NoneIn, Steps;
    forall i | 0 <= i < |more| && more[i].PutIn?
      ensures Refuses(l, s, more[i].p) <==> l.maxSize != 0 && l.maxSize < Wrap(more[i].p.bufferLen + Excess(l, s))
    {
      EmptyRefusesIff(l, cs, more[i].p);
    }
    StuckIff(l, s, more);
  }

  /** An empty queue that refuses a frame is not changed by the attempt. */
  lemma {:induction false} StuckIff(l: Limits, s: State, cs: seq<Call>)
    requires s.nodes == []
    ensures NoneIn(l, s, cs) <==> forall i :: 0 <= i < |cs| && cs[i].PutIn? ==> Refuses(l, s, cs[i].p)
    ensures NoneIn(l, s, cs) ==> Steps(l, s, cs) == s
    decreases |cs|
  {
    hide Refuses, Put;
    if cs != [] && (cs[0].PutIn? ==> Refuses(l, s, cs[0].p)) {
      assert Step(l, s, cs[0]) == s;
      StuckIff(l, s, cs[1..]);
      assert forall i :: 0 < i < |cs| ==> cs[i] == cs[1..][i - 1];
    }
  }

  /** So it can be after a single frame: a frame of 70 octets is refused for good by an empty
      queue with room for 100. */
  lemma DrainedRefuses(a: Frame, d: Frame, more: seq<Call>)
    requires a.bufferLen == 10 && d.bufferLen == 70
    requires forall i :: 0 <= i < |more| && more[i].PutIn? ==> more[i].p == d
    ensures var l := Limits(0, 100, 20);
      Run(l, [PutIn(a), TakeOut]).nodes == [] && NoneIn(l, Run(l, [PutIn(a), TakeOut]), more)
  {
    var l := Limits(0, 100, 20);
    var cs := [PutIn(a), TakeOut];
    assert cs[..1] == [PutIn(a)] && cs[..1][..0] == [];
    assert Run(l, cs[..1]) == State([a], 30, 0);
    assert Run(l, cs) == State([], 40, 1);
    LockedOutIff(l, cs, more);
  }

  /** A queue that still holds a frame refuses another though it would fit. */
  lemma RefusedThoughItFits(a: Frame, b: Frame, c: Frame, d: Frame)
    requires a.bufferLen == b.bufferLen == c.bufferLen == d.bufferLen == 10
    ensures var l := Limits(0, 100, 20);
      var s := Run(l, [PutIn(a), PutIn(b), TakeOut, PutIn(c), TakeOut]);
      s.nodes == [c] && Total(s.nodes + [d], 20) == 60 && Refuses(l, s, d)
  {
    var l := Limits(0, 100, 20);
    var cs := [PutIn(a), PutIn(b), TakeOut, PutIn(c), TakeOut];
    assert cs[..4] == [PutIn(a), PutIn(b), TakeOut, PutIn(c)];
    assert cs[..3] == [PutIn(a), PutIn(b), TakeOut];
    assert cs[..2] == [PutIn(a), PutIn(b)];
    assert cs[..1] == [PutIn(a)];
    assert cs[..0] == [];
    assert cs[..4][..3] == cs[..3] && cs[..3][..2] == cs[..2] && cs[..2][..1] == cs[..1] && cs[..1][..0] == [];
    assert Run(l, cs[..1]) == State([a], 30, 0);
    assert Run(l, cs[..2]) == State([a, b], 60, 0);
    assert Run(l, cs[..3]) == State([b], 70, 1);
    assert Run(l, cs[..4]) == State([b, c], 100, 1);
    assert Run(l, cs) == State([c], 110, 2);
    TotalSnoc([c], d, 20);
    assert Total([c], 20) == 30;
  }
}
