/** Framing on the serial line of the PPP device: octet stuffing on the way out, and the
    octet-at-a-time receiver whose state survives from one poll to the next. */
module PppFraming {
  import opened PppFcs

  const FLAG: bv8 := 0x7E
  const ESC: bv8 := 0x7D
  const ADDR: bv8 := 0xFF
  const CTRL: bv8 := 0x03
  const MAXPKT: nat := 2048

  datatype Option<+T> = None | Some(value: T)

  // ----- Octet stuffing -----

  /** The test of the sender, carried out in a type wider than an octet. */
  predicate NeedsEscape(c: bv8) {
    (c as bv16 + 1) >> 1 == 0x3F
  }

  lemma NeedsEscapeIsFlagOrEscape(c: bv8)
    ensures NeedsEscape(c) <==> c == FLAG || c == ESC
  {
  }

  function EscapeOctet(c: bv8): seq<bv8> {
    if c == FLAG || c == ESC then [ESC, c ^ 0x20] else [c]
  }

  /** Only the octets 7d and 7e are escaped, by 7d and the octet with its sixth bit changed. */
  lemma EscapedAs(c: bv8)
    ensures EscapeOctet(c) == if c == 0x7E then [0x7D, 0x5E] else if c == 0x7D then [0x7D, 0x5D] else [c]
  {
  }

  function Stuffed(s: seq<bv8>): (r: seq<bv8>)
    ensures |s| <= |r|
  {
    if s == [] then [] else Stuffed(s[..|s| - 1]) + EscapeOctet(s[|s| - 1])
  }

  /** What travels for a frame: its first and last octet as they are, the rest stuffed. */
  function OnWire(frame: seq<bv8>): seq<bv8> {
    if |frame| < 2 then frame
    else [frame[0]] + Stuffed(frame[1..|frame| - 1]) + [frame[|frame| - 1]]
  }

  /** Stuffing s[..i] takes no more room than stuffing s. */
  lemma {:induction false} StuffedPrefix(s: seq<bv8>, i: nat)
    requires i <= |s|
    ensures |Stuffed(s[..i])| <= |Stuffed(s)|
  {
    if i < |s| {
      assert s[..|s| - 1][..i] == s[..i];
      StuffedPrefix(s[..|s| - 1], i);
    } else {
      assert s[..i] == s;
    }
  }

  /** Without flags and escapes a frame travels as it is. */
  lemma {:induction false} StuffedPlain(s: seq<bv8>)
    requires |Stuffed(s)| == |s|
    ensures Stuffed(s) == s
  {
    if s != [] {
      StuffedPlain(s[..|s| - 1]);
      assert s == s[..|s| - 1] + [s[|s| - 1]];
    }
  }

  lemma StuffedNext(s: seq<bv8>, i: nat)
    requires i < |s|
    ensures Stuffed(s[..i + 1]) == Stuffed(s[..i]) + EscapeOctet(s[i])
    ensures |Stuffed(s[..i + 1])| <= |Stuffed(s)|
  {
    assert s[..i + 1][..i] == s[..i];
    StuffedPrefix(s, i + 1);
  }

  method CountEscapes(s: seq<bv8>) returns (count: nat)
    ensures count == |Stuffed(s)| - |s|
  {
    assert Stuffed(s[..0]) == [];
    hide Stuffed;
    count := 0;
    var i := 0;
    while i < |s|
      invariant 0 <= i <= |s|
      invariant count == |Stuffed(s[..i])| - i
    {
      NeedsEscapeIsFlagOrEscape(s[i]);
      StuffedNext(s, i);
      if NeedsEscape(s[i]) {
        count := count + 1;
      }
      i := i + 1;
    }
    assert s[..i] == s;
  }

  method PutEscaped(out: array<bv8>, at: nat, c: bv8) returns (next: nat)
    requires 1 <= at && at + |EscapeOctet(c)| <= out.Length
    modifies out
    ensures next == at + |EscapeOctet(c)|
    ensures out[0] == old(out[0])
    ensures out[1..next] == old(out[1..at]) + EscapeOctet(c)
  {
    NeedsEscapeIsFlagOrEscape(c);
    next := at;
    if NeedsEscape(c) {
      out[next] := ESC;
      next := next + 1;
      out[next] := c ^ 0x20;
      next := next + 1;
    } else {
      out[next] := c;
      next := next + 1;
    }
  }

  /** Copies octets into `out` behind its first, escaping as it goes. */
  method CopyEscaped(s: seq<bv8>, out: array<bv8>)
    requires out.Length == 2 + |Stuffed(s)|
    modifies out
    ensures out[0] == old(out[0])
    ensures out[1..out.Length - 1] == Stuffed(s)
  {
    assert Stuffed(s[..0]) == [];
    hide EscapeOctet, Stuffed;
    var i, j := 0, 1;
    while i < |s|
      invariant 0 <= i <= |s|
      invariant j == 1 + |Stuffed(s[..i])| <= out.Length - 1
      invariant out[0] == old(out[0])
      invariant out[1..j] == Stuffed(s[..i])
    {
      StuffedNext(s, i);
      j := PutEscaped(out, j, s[i]);
      i := i + 1;
    }
    assert s[..i] == s;
  }

  method FillEscaped(frame: seq<bv8>, out: array<bv8>)
    requires 2 <= |frame| && out.Length == |OnWire(frame)|
    modifies out
    ensures out[..] == OnWire(frame)
  {
    hide Stuffed;
    out[0] := frame[0];
    CopyEscaped(frame[1..|frame| - 1], out);
    out[out.Length - 1] := frame[|frame| - 1];
    assert out[..] == [out[0]] + out[1..out.Length - 1] + [out[out.Length - 1]];
  }

  /** Sends a frame. `memory` says whether a larger buffer can be had, `accept` how many
      octets the serial driver takes of those it is given. */
  method SerialSendEscape(frame: seq<bv8>, memory: bool, accept: int -> int)
    returns (sent: Option<seq<bv8>>, ret: int)
    ensures sent == if memory || |OnWire(frame)| == |frame| then Some(OnWire(frame)) else None
    ensures ret == if sent.None? then -1
                   else if accept(|OnWire(frame)|) == |OnWire(frame)| then |frame|
                   else accept(|OnWire(frame)|)
  {
    var escapes := 0;
    if 2 <= |frame| {
      escapes := CountEscapes(frame[1..|frame| - 1]);
    }
    hide Stuffed;
    if escapes == 0 {
      PlainOnWire(frame);
      return Some(frame), accept(|frame|);
    }
    if !memory {
      return None, -1;
    }
    var out := new bv8[|frame| + escapes];
    FillEscaped(frame, out);
    ret := accept(|frame| + escapes);
    if ret == |frame| + escapes {
      ret := |frame|;
    }
    sent := Some(out[..]);
  }

  lemma PlainOnWire(frame: seq<bv8>)
    requires |OnWire(frame)| == |frame|
    ensures OnWire(frame) == frame
  {
    hide Stuffed;
    if 2 <= |frame| {
      StuffedPlain(frame[1..|frame| - 1]);
      assert [frame[0]] + frame[1..|frame| - 1] + [frame[|frame| - 1]] == frame;
    }
  }

  // ----- The receiver -----

  /** What is collected of the current frame, whether an escape is pending, and the frames
      handed over so far. */
  datatype Rx = Rx(acc: seq<bv8>, escape: bool, frames: seq<seq<bv8>>)

  const IDLE: Rx := Rx([], false, [])

  function RxStep(st: Rx, c: bv8): Rx {
    if c == FLAG then
      if st.escape then Rx([], false, st.frames)
      else if |st.acc| > 1 then Rx([], false, st.frames + [st.acc])
      else st
    else if st.escape then Rx(st.acc + [c ^ 0x20], false, st.frames)
    else if c == ESC then st.(escape := true)
    else st.(acc := st.acc + [c])
  }

  function RxRun(st: Rx, s: seq<bv8>): Rx {
    if s == [] then st else RxStep(RxRun(st, s[..|s| - 1]), s[|s| - 1])
  }

  /** One poll: octets are taken until none is left, the buffer is full or the score is used up. */
  function Polled(st: Rx, pending: seq<bv8>, score: int): (Rx, seq<bv8>, int)
    decreases |pending|
  {
    if pending == [] then (st, [], score) else
      var st' := RxStep(st, pending[0]);
      var score' := score - (|st'.frames| - |st.frames|);
      if |st'.acc| < MAXPKT && score' > 0 then Polled(st', pending[1..], score')
      else (st', pending[1..], score')
  }

  class Receiver {
    const buf: array<bv8>
    var len: nat
    var controlEscape: bool
    var pending: seq<bv8>
    var frames: seq<seq<bv8>>

    predicate Valid()
      reads this
    {
      buf.Length == MAXPKT && len <= MAXPKT
    }

    function State(): Rx
      reads this, buf
      requires Valid()
    {
      Rx(buf[..len], controlEscape, frames)
    }

    constructor ()
      ensures Valid() && fresh(buf)
      ensures State() == IDLE && pending == []
    {
      buf := new bv8[MAXPKT];
      len := 0;
      controlEscape := false;
      pending := [];
      frames := [];
    }

    /** Takes one octet from the line; `handed` when it completes a frame. */
    method TakeOctet() returns (handed: bool)
      requires Valid() && len < MAXPKT && pending != []
      modifies this, buf
      ensures Valid()
      ensures State() == RxStep(old(State()), old(pending)[0])
      ensures pending == old(pending)[1..]
      ensures handed <==> |frames| != |old(frames)|
    {
      ghost var kept := buf[..len];
      buf[len] := pending[0];
      pending := pending[1..];
      handed := false;
      assert buf[..len] == kept;
      if buf[len] == FLAG {
        if controlEscape {
          controlEscape := false;
          len := 0;
        }
        if len > 1 {
          frames := frames + [buf[..len]];
          handed := true;
          len := 0;
        }
      } else if controlEscape {
        buf[len] := buf[len] ^ 0x20;
        controlEscape := false;
        len := len + 1;
      } else if buf[len] == ESC {
        controlEscape := true;
      } else {
        len := len + 1;
      }
    }

    /** Polls the serial line while the modem is connected. With a full buffer the next octet is
        written behind it: that is all that is said of an overrun. */
    method Poll(loopScore: int) returns (overrun: bool, score: int)
      requires Valid()
      modifies this, buf
      ensures Valid()
      ensures overrun <==> old(len) == MAXPKT && old(pending) != []
      ensures !overrun ==> (State(), pending, score) == Polled(old(State()), old(pending), loopScore)
    {
      overrun, score := len == MAXPKT && pending != [], loopScore;
      if overrun || pending == [] {
        return;
      }
      var going := true;
      while going
        invariant Valid()
        invariant going ==> len < MAXPKT
        invariant (if going then Polled(State(), pending, score) else (State(), pending, score))
               == Polled(old(State()), old(pending), loopScore)
        decreases going, |pending|
      {
        if pending == [] {
          break;
        }
        var handed := TakeOctet();
        if handed {
          score := score - 1;
        }
        going := len < MAXPKT && score > 0;
      }
    }
  }

  // ----- What the receiver makes of a sequence of stuffed frames -----

  lemma {:induction false} RunConcat(st: Rx, a: seq<bv8>, b: seq<bv8>)
    ensures RxRun(st, a + b) == RxRun(RxRun(st, a), b)
  {
    if b == [] {
      assert a + b == a;
    } else {
      assert (a + b)[..|a + b| - 1] == a + b[..|b| - 1];
      RunConcat(st, a, b[..|b| - 1]);
    }
  }

  lemma RunOne(st: Rx, c: bv8)
    ensures RxRun(st, [c]) == RxStep(st, c)
  {
    assert RxRun(st, [c][..0]) == st;
  }

  lemma EscapedIsPlain(c: bv8)
    requires c == FLAG || c == ESC
    ensures c ^ 0x20 != FLAG && (c ^ 0x20) ^ 0x20 == c
  {
  }

  lemma RunEscaped(st: Rx, c: bv8)
    requires !st.escape
    ensures RxRun(st, EscapeOctet(c)) == st.(acc := st.acc + [c])
  {
    if c == FLAG || c == ESC {
      EscapedIsPlain(c);
      RunConcat(st, [ESC], [c ^ 0x20]);
      RunOne(st, ESC);
      RunOne(RxStep(st, ESC), c ^ 0x20);
      assert [ESC, c ^ 0x20] == [ESC] + [c ^ 0x20];
    } else {
      RunOne(st, c);
    }
  }

  /** Unstuffing inverts stuffing. */
  lemma {:induction false} RunStuffed(st: Rx, s: seq<bv8>)
    requires !st.escape
    ensures RxRun(st, Stuffed(s)) == st.(acc := st.acc + s)
  {
    hide EscapeOctet, RxStep;
    if s == [] {
      assert st.acc + s == st.acc;
    } else {
      var front, c := s[..|s| - 1], s[|s| - 1];
      RunStuffed(st, front);
      RunConcat(st, Stuffed(front), EscapeOctet(c));
      RunEscaped(st.(acc := st.acc + front), c);
      assert st.acc + s == st.acc + front + [c];
    }
  }

  /** What any octets other than flags stand for: behind 7d the octet with its sixth bit changed,
      else the octet itself. */
  function Unstuffed(s: seq<bv8>): seq<bv8>
    decreases |s|
  {
    if s == [] then []
    else if s[0] != 0x7D then [s[0]] + Unstuffed(s[1..])
    else if |s| == 1 then []
    else [s[1] ^ 0x20] + Unstuffed(s[2..])
  }

  /** Whether a 7d is left over at the end. */
  predicate LeftOver(s: seq<bv8>)
    decreases |s|
  {
    if s == [] then false
    else if s[0] != 0x7D then LeftOver(s[1..])
    else |s| == 1 || LeftOver(s[2..])
  }

  lemma RunPair(st: Rx, c: bv8)
    requires !st.escape && c != FLAG
    ensures RxRun(st, [0x7D, c]) == st.(acc := st.acc + [c ^ 0x20])
  {
    RunConcat(st, [ESC], [c]);
    RunOne(st, ESC);
    RunOne(st.(escape := true), c);
    assert [ESC] + [c] == [0x7D, c];
  }

  lemma RunSingle(st: Rx, c: bv8)
    requires !st.escape && c != FLAG
    ensures RxRun(st, [c]) == if c == 0x7D then st.(escape := true) else st.(acc := st.acc + [c])
    ensures RxRun(st, []) == st
  {
    RunOne(st, c);
  }

  /** The receiver takes in what the octets stand for. */
  predicate TakesIn(st: Rx, s: seq<bv8>) {
    RxRun(st, s) == Rx(st.acc + Unstuffed(s), LeftOver(s), st.frames)
  }

  lemma TakesInShort(st: Rx, s: seq<bv8>)
    requires !st.escape && (s == [] || s == [0x7D])
    ensures TakesIn(st, s)
  {
    RunSingle(st, 0x7D);
    hide RxRun, RxStep;
    assert st.acc + [] == st.acc;
  }

  lemma TakesInPlain(st: Rx, s: seq<bv8>)
    requires !st.escape && s != [] && s[0] != 0x7D && s[0] != FLAG && TakesIn(st.(acc := st.acc + [s[0]]), s[1..])
    ensures TakesIn(st, s)
  {
    hide RxRun, RxStep;
    RunSingle(st, s[0]);
    RunConcat(st, [s[0]], s[1..]);
    assert [s[0]] + s[1..] == s;
    assert st.acc + [s[0]] + Unstuffed(s[1..]) == st.acc + ([s[0]] + Unstuffed(s[1..]));
  }

  lemma TakesInPair(st: Rx, s: seq<bv8>)
    requires !st.escape && 2 <= |s| && s[0] == 0x7D && s[1] != FLAG
    requires TakesIn(st.(acc := st.acc + [s[1] ^ 0x20]), s[2..])
    ensures TakesIn(st, s)
  {
    hide RxRun, RxStep;
    RunPair(st, s[1]);
    RunConcat(st, [0x7D, s[1]], s[2..]);
    assert [0x7D, s[1]] + s[2..] == s;
    assert st.acc + [s[1] ^ 0x20] + Unstuffed(s[2..]) == st.acc + ([s[1] ^ 0x20] + Unstuffed(s[2..]));
  }

  lemma {:induction false} RunUnstuffed(st: Rx, s: seq<bv8>)
    requires !st.escape && FLAG !in s
    ensures TakesIn(st, s)
    decreases |s|
  {
    hide TakesIn, RxRun, RxStep;
    if s == [] || s == [0x7D] {
      TakesInShort(st, s);
    } else if s[0] != 0x7D {
      RunUnstuffed(st.(acc := st.acc + [s[0]]), s[1..]);
      TakesInPlain(st, s);
    } else {
      RunUnstuffed(st.(acc := st.acc + [s[1] ^ 0x20]), s[2..]);
      TakesInPair(st, s);
    }
  }

  /** What the receiver makes of any octets up to a flag, whoever sent them: with a 7d left over
      all that is collected is discarded; two octets or more are handed over as a frame; a single
      one is kept for the next frame. */
  lemma RunToFlag(st: Rx, s: seq<bv8>)
    requires !st.escape && FLAG !in s
    ensures var all := st.acc + Unstuffed(s);
      RxRun(st, s + [0x7E]) ==
        if LeftOver(s) then Rx([], false, st.frames)
        else if 2 <= |all| then Rx([], false, st.frames + [all])
        else Rx(all, false, st.frames)
  {
    hide RxRun, Unstuffed, LeftOver;
    RunUnstuffed(st, s);
    RunConcat(st, s, [FLAG]);
    RunOne(RxRun(st, s), FLAG);
  }

  /** A frame as the senders build it: its interior between two flags. */
  function Framed(interior: seq<bv8>): seq<bv8> {
    [FLAG] + interior + [FLAG]
  }

  function Wire(interiors: seq<seq<bv8>>): seq<bv8> {
    if interiors == [] then []
    else Wire(interiors[..|interiors| - 1]) + OnWire(Framed(interiors[|interiors| - 1]))
  }

  lemma RunFrame(st: Rx, interior: seq<bv8>)
    requires st.acc == [] && !st.escape && 2 <= |interior|
    ensures RxRun(st, OnWire(Framed(interior))) == st.(frames := st.frames + [interior])
  {
    OnWireFramed(interior);
    hide Stuffed;
    RunConcat(st, [FLAG], Stuffed(interior) + [FLAG]);
    RunOne(st, FLAG);
    RunConcat(st, Stuffed(interior), [FLAG]);
    RunStuffed(st, interior);
    RunOne(st.(acc := interior), FLAG);
    assert st.acc + interior == interior;
  }

  lemma OnWireFramed(interior: seq<bv8>)
    ensures OnWire(Framed(interior)) == [FLAG] + (Stuffed(interior) + [FLAG])
  {
    assert Framed(interior)[1..|Framed(interior)| - 1] == interior;
  }

  /** A frame that is sent in full, or given up: its octets, stuffed, are followed by an escape
      and the flag. */
  datatype Sending = Whole(octets: seq<bv8>) | GivenUp(octets: seq<bv8>)

  function OnLine(x: Sending): seq<bv8> {
    match x
    case Whole(octets) => OnWire(Framed(octets))
    case GivenUp(octets) => [FLAG] + (Stuffed(octets) + [ESC, FLAG])
  }

  function Line(xs: seq<Sending>): seq<bv8> {
    if xs == [] then [] else Line(xs[..|xs| - 1]) + OnLine(xs[|xs| - 1])
  }

  /** The frames that are sent in full, in order. */
  function WholeOnes(xs: seq<Sending>): seq<seq<bv8>> {
    if xs == [] then []
    else WholeOnes(xs[..|xs| - 1]) + if xs[|xs| - 1].Whole? then [xs[|xs| - 1].octets] else []
  }

  /** An escape before the flag discards whatever was collected. */
  lemma RunDiscarded(st: Rx)
    requires !st.escape
    ensures RxRun(st, [ESC, FLAG]) == Rx([], false, st.frames)
  {
    RunConcat(st, [ESC], [FLAG]);
    RunOne(st, ESC);
    RunOne(st.(escape := true), FLAG);
    assert [ESC, FLAG] == [ESC] + [FLAG];
  }

  /** A frame that is given up leaves nothing behind. */
  lemma RunGivenUp(st: Rx, octets: seq<bv8>)
    requires st.acc == [] && !st.escape
    ensures RxRun(st, [FLAG] + (Stuffed(octets) + [ESC, FLAG])) == st
  {
    hide Stuffed;
    RunConcat(st, [FLAG], Stuffed(octets) + [ESC, FLAG]);
    RunOne(st, FLAG);
    RunConcat(st, Stuffed(octets), [ESC, FLAG]);
    RunStuffed(st, octets);
    RunDiscarded(st.(acc := st.acc + octets));
  }

  /** Of any mixture of frames those sent in full come out of the receiver, unchanged, in order
      and once each. */
  lemma {:induction false} RunLine(st: Rx, xs: seq<Sending>)
    requires st.acc == [] && !st.escape
    requires forall i :: 0 <= i < |xs| && xs[i].Whole? ==> 2 <= |xs[i].octets|
    ensures RxRun(st, Line(xs)) == st.(frames := st.frames + WholeOnes(xs))
  {
    hide RxStep, OnWire, Framed, Stuffed;
    if xs == [] {
      assert st.frames + WholeOnes(xs) == st.frames;
    } else {
      var front, last := xs[..|xs| - 1], xs[|xs| - 1];
      RunLine(st, front);
      RunConcat(st, Line(front), OnLine(last));
      var st1 := st.(frames := st.frames + WholeOnes(front));
      match last {
        case Whole(octets) =>
          RunFrame(st1, octets);
          assert st.frames + WholeOnes(xs) == st.frames + WholeOnes(front) + [octets];
        case GivenUp(octets) =>
          RunGivenUp(st1, octets);
          assert WholeOnes(xs) == WholeOnes(front);
      }
    }
  }

  function Wholes(interiors: seq<seq<bv8>>): seq<Sending> {
    seq(|interiors|, i requires 0 <= i < |interiors| => Whole(interiors[i]))
  }

  lemma {:induction false} LineOfWholes(interiors: seq<seq<bv8>>)
    ensures Line(Wholes(interiors)) == Wire(interiors) && WholeOnes(Wholes(interiors)) == interiors
  {
    hide OnWire, Framed, Stuffed;
    if interiors != [] {
      LineOfWholes(interiors[..|interiors| - 1]);
      assert Wholes(interiors)[..|interiors| - 1] == Wholes(interiors[..|interiors| - 1]);
    }
  }

  /** Stuffed frames come out of the receiver unchanged, in order and once each. */
  lemma RunWire(st: Rx, interiors: seq<seq<bv8>>)
    requires st.acc == [] && !st.escape
    requires forall i :: 0 <= i < |interiors| ==> 2 <= |interiors[i]|
    ensures RxRun(st, Wire(interiors)) == st.(frames := st.frames + interiors)
  {
    hide RxRun, Line, WholeOnes, Wire;
    RunLine(st, Wholes(interiors));
    LineOfWholes(interiors);
  }

  // ----- Room in the receive buffer -----

  /** The collected octets leave room for one more before every octet of s and after the last. */
  predicate Roomy(st: Rx, s: seq<bv8>) {
    |RxRun(st, s).acc| < MAXPKT && (s == [] || Roomy(st, s[..|s| - 1]))
  }

  lemma {:induction false} RoomyConcat(st: Rx, a: seq<bv8>, b: seq<bv8>)
    requires Roomy(st, a) && Roomy(RxRun(st, a), b)
    ensures Roomy(st, a + b)
  {
    if b == [] {
      assert a + b == a;
    } else {
      assert (a + b)[..|a + b| - 1] == a + b[..|b| - 1];
      RoomyConcat(st, a, b[..|b| - 1]);
      RunConcat(st, a, b);
    }
  }

  lemma {:induction false} RoomyPrefix(st: Rx, s: seq<bv8>, k: nat)
    requires Roomy(st, s) && k <= |s|
    ensures Roomy(st, s[..k])
  {
    if k == |s| {
      assert s[..k] == s;
    } else {
      RoomyPrefix(st, s[..|s| - 1], k);
      assert s[..|s| - 1][..k] == s[..k];
    }
  }

  lemma RoomyOne(st: Rx, c: bv8)
    requires |st.acc| < MAXPKT && |RxStep(st, c).acc| < MAXPKT
    ensures Roomy(st, [c])
  {
    RunOne(st, c);
    assert [c][..0] == [];
  }

  lemma {:induction false} RoomyStuffed(st: Rx, s: seq<bv8>)
    requires !st.escape && |st.acc| + |s| < MAXPKT
    ensures Roomy(st, Stuffed(s))
  {
    if s != [] {
      var front, c := s[..|s| - 1], s[|s| - 1];
      RoomyStuffed(st, front);
      RunStuffed(st, front);
      RoomyEscaped(st.(acc := st.acc + front), c);
      RoomyConcat(st, Stuffed(front), EscapeOctet(c));
    }
  }

  lemma RoomyEscaped(st: Rx, c: bv8)
    requires !st.escape && |st.acc| + 1 < MAXPKT
    ensures Roomy(st, EscapeOctet(c))
  {
    if c == FLAG || c == ESC {
      EscapedIsPlain(c);
      RoomyOne(st, ESC);
      RunOne(st, ESC);
      RoomyOne(RxStep(st, ESC), c ^ 0x20);
      RoomyConcat(st, [ESC], [c ^ 0x20]);
      assert [ESC, c ^ 0x20] == [ESC] + [c ^ 0x20];
    } else {
      RoomyOne(st, c);
    }
  }

  lemma RoomyFrame(st: Rx, interior: seq<bv8>)
    requires st.acc == [] && !st.escape && 2 <= |interior| < MAXPKT
    ensures Roomy(st, OnWire(Framed(interior)))
  {
    OnWireFramed(interior);
    hide Stuffed, Roomy;
    RoomyOne(st, FLAG);
    RunOne(st, FLAG);
    RoomyStuffed(st, interior);
    RunStuffed(st, interior);
    assert st.acc + interior == interior;
    RoomyOne(st.(acc := interior), FLAG);
    RoomyConcat(st, Stuffed(interior), [FLAG]);
    RoomyConcat(st, [FLAG], Stuffed(interior) + [FLAG]);
  }

  lemma RoomyGivenUp(st: Rx, octets: seq<bv8>)
    requires st.acc == [] && !st.escape && |octets| < MAXPKT
    ensures Roomy(st, [FLAG] + (Stuffed(octets) + [ESC, FLAG]))
  {
    hide Stuffed, Roomy;
    RoomyOne(st, FLAG);
    RunOne(st, FLAG);
    RoomyStuffed(st, octets);
    RunStuffed(st, octets);
    assert st.acc + octets == octets;
    var st1 := st.(acc := octets);
    RoomyOne(st1, ESC);
    RunOne(st1, ESC);
    RoomyOne(st1.(escape := true), FLAG);
    RoomyConcat(st1, [ESC], [FLAG]);
    assert [ESC] + [FLAG] == [ESC, FLAG];
    RoomyConcat(st, Stuffed(octets), [ESC, FLAG]);
    RoomyConcat(st, [FLAG], Stuffed(octets) + [ESC, FLAG]);
  }

  lemma {:induction false} RoomyLine(st: Rx, xs: seq<Sending>)
    requires st.acc == [] && !st.escape
    requires forall i :: 0 <= i < |xs| ==> |xs[i].octets| < MAXPKT && (xs[i].Whole? ==> 2 <= |xs[i].octets|)
    ensures Roomy(st, Line(xs))
  {
    hide RxStep, OnWire, Framed, Stuffed;
    if xs != [] {
      var front, last := xs[..|xs| - 1], xs[|xs| - 1];
      RoomyLine(st, front);
      RunLine(st, front);
      var st1 := st.(frames := st.frames + WholeOnes(front));
      match last {
        case Whole(octets) => RoomyFrame(st1, octets);
        case GivenUp(octets) => RoomyGivenUp(st1, octets);
      }
      RoomyConcat(st, Line(front), OnLine(last));
    }
  }

  // ----- Any division of the octets over polls -----

  /** A poll: the octets that arrived since the last one, and the score it is given. */
  datatype PollCall = PollCall(arrived: seq<bv8>, score: int)

  function Arrived(calls: seq<PollCall>): seq<bv8> {
    if calls == [] then [] else Arrived(calls[..|calls| - 1]) + calls[|calls| - 1].arrived
  }

  /** The receiver and the octets still waiting on the line after a sequence of polls. */
  function Session(calls: seq<PollCall>): (Rx, seq<bv8>) {
    if calls == [] then (IDLE, []) else
      var (st, pending) := Session(calls[..|calls| - 1]);
      var (st', pending', score) := Polled(st, pending + calls[|calls| - 1].arrived, calls[|calls| - 1].score);
      (st', pending')
  }

  /** A poll consumes a prefix of what is pending; the score pays for the frames handed over. */
  lemma {:induction false} PolledPrefix(st: Rx, pending: seq<bv8>, score: int) returns (taken: seq<bv8>)
    ensures var (st', rest, score') := Polled(st, pending, score);
      && pending == taken + rest
      && st' == RxRun(st, taken)
      && score - score' == |st'.frames| - |st.frames|
      && (rest == [] || |st'.acc| >= MAXPKT || score' <= 0)
      && (pending != [] ==> taken != [])
    decreases |pending|
  {
    taken := [];
    if pending != [] {
      var st1 := RxStep(st, pending[0]);
      var score1 := score - (|st1.frames| - |st.frames|);
      RunOne(st, pending[0]);
      hide RxStep, RxRun;
      if |st1.acc| < MAXPKT && score1 > 0 {
        taken := PolledPrefix(st1, pending[1..], score1);
        RunConcat(st, [pending[0]], taken);
      }
      taken := [pending[0]] + taken;
    }
  }

  /** A poll goes on only while there is room and score left: before its last octet neither is
      used up. */
  lemma {:induction false} PolledStops(st: Rx, pending: seq<bv8>, score: int, k: nat)
    requires var (st', rest, score') := Polled(st, pending, score); 0 < k < |pending| - |rest|
    ensures |RxRun(st, pending[..k]).acc| < 2048
    ensures |RxRun(st, pending[..k]).frames| - |st.frames| < score
    decreases |pending|
  {
    var st1 := RxStep(st, pending[0]);
    var score1 := score - (|st1.frames| - |st.frames|);
    RunOne(st, pending[0]);
    hide RxStep;
    if k == 1 {
      assert pending[..1] == [pending[0]];
    } else {
      PolledStops(st1, pending[1..], score1, k - 1);
      RunConcat(st, [pending[0]], pending[1..][..k - 1]);
      assert pending[..k] == [pending[0]] + pending[1..][..k - 1];
    }
  }

  lemma Reassociate(a: seq<bv8>, b: seq<bv8>, c: seq<bv8>, d: seq<bv8>, e: seq<bv8>)
    requires b + c == d + e
    ensures (a + b) + c == (a + d) + e
  {
    assert (a + b) + c == a + (b + c);
    assert (a + d) + e == a + (d + e);
  }

  lemma {:induction false} SessionPrefix(calls: seq<PollCall>) returns (taken: seq<bv8>)
    ensures var (st, rest) := Session(calls);
      Arrived(calls) == taken + rest && st == RxRun(IDLE, taken)
  {
    taken := [];
    if calls != [] {
      var front, last := calls[..|calls| - 1], calls[|calls| - 1];
      taken := SessionPrefix(front);
      var (st, pending) := Session(front);
      var more := PolledPrefix(st, pending + last.arrived, last.score);
      hide RxRun, RxStep, Polled;
      RunConcat(IDLE, taken, more);
      var (st', rest, score) := Polled(st, pending + last.arrived, last.score);
      Reassociate(taken, pending, last.arrived, more, rest);
      taken := taken + more;
    }
  }

  /** However the octets of frames sent in full and frames given up are divided over polls, and
      whatever score each poll is given: the receive buffer never fills up, the frames handed
      over so far are the first ones sent in full, in order, and once no octet is waiting all of
      these have been. */
  lemma MixedDelivers(xs: seq<Sending>, calls: seq<PollCall>)
    requires forall i :: 0 <= i < |xs| ==> |xs[i].octets| < 2048 && (xs[i].Whole? ==> 2 <= |xs[i].octets|)
    requires Arrived(calls) == Line(xs)
    ensures var (st, rest) := Session(calls);
      && |st.acc| < 2048
      && st.frames <= WholeOnes(xs)
      && (rest == [] ==> st == Rx([], false, WholeOnes(xs)))
  {
    var taken := SessionPrefix(calls);
    var (st, rest) := Session(calls);
    var line := Line(xs);
    RunLine(IDLE, xs);
    RoomyLine(IDLE, xs);
    hide Line, WholeOnes;
    RoomyPrefix(IDLE, line, |taken|);
    assert line[..|taken|] == taken;
    RunConcat(IDLE, taken, rest);
    FramesGrow(st, rest);
    assert IDLE.frames + WholeOnes(xs) == WholeOnes(xs);
    if rest == [] {
      assert taken + rest == taken;
    }
  }

  lemma AnyDivisionDelivers(interiors: seq<seq<bv8>>, calls: seq<PollCall>)
    requires forall i :: 0 <= i < |interiors| ==> 2 <= |interiors[i]| < 2048
    requires Arrived(calls) == Wire(interiors)
    ensures var (st, rest) := Session(calls);
      && |st.acc| < 2048
      && st.frames <= interiors
      && (rest == [] ==> st == Rx([], false, interiors))
  {
    hide Session, Line, WholeOnes, Wire, Arrived;
    LineOfWholes(interiors);
    MixedDelivers(Wholes(interiors), calls);
  }

  lemma {:induction false} FramesGrow(st: Rx, s: seq<bv8>)
    ensures st.frames <= RxRun(st, s).frames
  {
    if s != [] {
      FramesGrow(st, s[..|s| - 1]);
    }
  }
}
