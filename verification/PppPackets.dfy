/** Building, checking and dispatching PPP packets: what one end sends, the other takes in. */
module PppPackets {
  import opened PppFcs
  import opened PppFraming

  // The protocol numbers as a little-endian machine holds them in network order.
  const LCP: bv16 := 0x21C0
  const PAP: bv16 := 0x23C0
  const CHAP: bv16 := 0x23C2
  const IPCP: bv16 := 0x2180

  const MTU: nat := 1500
  const DATA_BUFFER: nat := 3 + 2 + MTU + 2 + 1

  function Sealed(body: seq<bv8>): seq<bv8> {
    body + FcsOctets(body)
  }

  // ----- Control packets -----

  function CtlBody(code: bv16, payload: seq<bv8>): seq<bv8> {
    [ADDR, CTRL, LowOctet(code), HighOctet(code)] + payload
  }

  /** Completes, in place, a packet whose payload lies behind the room for the header, and
      sends it. The result tells nothing of what was sent. */
  method CtlSend(pkt: array<bv8>, code: bv16, len: nat, attached: bool, memory: bool, accept: int -> int)
    returns (sent: Option<seq<bv8>>, ret: nat)
    requires 8 <= len <= pkt.Length
    modifies pkt
    ensures ret == len
    ensures !attached ==> sent.None? && pkt[..] == old(pkt[..])
    ensures attached ==>
      var frame := Framed(Sealed(CtlBody(code, old(pkt[5..len - 3]))));
      && pkt[..len] == frame
      && pkt[len..] == old(pkt[len..])
      && (sent.Some? ==> sent.value == OnWire(frame))
      && (memory ==> sent.Some?)
  {
    ret := len;
    if !attached {
      return None, ret;
    }
    hide LowOctet, HighOctet, FcsOctets, OnWire;
    FillHeader(pkt, code, len);
    ghost var body := pkt[1..len - 3];
    Seal(pkt, 1, len - 3);
    assert pkt[..len] == pkt[..len - 3][..1] + pkt[..len - 3][1..] + pkt[len - 3..len];
    assert pkt[..len] == [FLAG] + body + (FcsOctets(body) + [FLAG]);
    assert pkt[..len] == Framed(Sealed(body));
    var r;
    sent, r := SerialSendEscape(pkt[..len], memory, accept);
  }

  /** Appends the check octets of buf[start..end] and the closing flag. */
  method Seal(buf: array<bv8>, start: nat, end: nat)
    requires start <= end && end + 3 <= buf.Length
    modifies buf
    ensures buf[..end] == old(buf[..end])
    ensures buf[end..end + 3] == FcsOctets(old(buf[start..end])) + [FLAG]
    ensures buf[end + 3..] == old(buf[end + 3..])
  {
    hide LowOctet, HighOctet, Crc;
    var fcs := FcsStart(buf, start, end - start);
    fcs := FcsFinish(fcs);
    buf[end] := LowOctet(fcs);
    buf[end + 1] := HighOctet(fcs);
    buf[end + 2] := FLAG;
  }

  method FillHeader(pkt: array<bv8>, code: bv16, len: nat)
    requires 8 <= len <= pkt.Length
    modifies pkt
    ensures pkt[0] == FLAG
    ensures pkt[1..len - 3] == CtlBody(code, old(pkt[5..len - 3]))
    ensures pkt[len..] == old(pkt[len..])
  {
    hide LowOctet, HighOctet;
    pkt[0] := FLAG;
    pkt[1] := ADDR;
    pkt[2] := CTRL;
    pkt[3] := LowOctet(code);
    pkt[4] := HighOctet(code);
  }

  // ----- Data packets -----

  function DataBody(ip: seq<bv8>, protoComp: bool): seq<bv8> {
    (if protoComp then [] else [0x00]) + [0x21] + ip
  }

  /** The check octets of a data packet do not cover the address and control octets. */
  function DataInterior(ip: seq<bv8>, addrComp: bool, protoComp: bool): seq<bv8> {
    (if addrComp then [] else [ADDR, CTRL]) + Sealed(DataBody(ip, protoComp))
  }

  /** Sends an IP packet. `addrComp` and `protoComp` are the compressions the peer asked for. A packet
      with which the frame does not fit into the buffer is written behind it all the same: that is
      all that is said of an overrun. */
  method DataSend(buffer: array<bv8>, ip: seq<bv8>, up: bool, attached: bool,
                  addrComp: bool, protoComp: bool, memory: bool, accept: int -> int)
    returns (overrun: bool, sent: Option<seq<bv8>>, ret: nat)
    requires buffer.Length == 1508
    modifies buffer
    ensures overrun <==> up && attached && 1508 < |Framed(DataInterior(ip, addrComp, protoComp))|
    ensures ret == |ip|
    ensures !(up && attached) ==> sent.None?
    ensures sent.Some? ==> sent.value == OnWire(Framed(DataInterior(ip, addrComp, protoComp)))
    ensures up && attached && memory && !overrun ==> sent.Some?
  {
    hide LowOctet, HighOctet, FcsOctets, OnWire, DataBody, DataInterior, Framed, Sealed;
    ret := |ip|;
    if !up || !attached {
      return false, None, ret;
    }
    FramedLength(ip, addrComp, protoComp);
    overrun := DATA_BUFFER < |ip| + (if addrComp then 5 else 7) + if protoComp then 0 else 1;
    if overrun {
      return overrun, None, ret;
    }
    var fcsStart := StartData(buffer, addrComp);
    ghost var head := buffer[..fcsStart];
    var i := CopyBody(buffer, fcsStart, ip, protoComp);
    Seal(buffer, fcsStart, i);
    ghost var whole := buffer[..i + 3];
    assert whole[..i] == buffer[..i] && whole[i..] == buffer[i..i + 3];
    assert whole[..i][..fcsStart] == head && whole[fcsStart..i] == buffer[..i][fcsStart..i];
    JoinData(whole, fcsStart, i, ip, addrComp, protoComp);
    var r;
    sent, r := SerialSendEscape(buffer[..i + 3], memory, accept);
  }

  lemma FramedLength(ip: seq<bv8>, addrComp: bool, protoComp: bool)
    ensures |Framed(DataInterior(ip, addrComp, protoComp))|
         == |ip| + (if addrComp then 5 else 7) + if protoComp then 0 else 1
    ensures |DataBody(ip, protoComp)| == |ip| + if protoComp then 1 else 2
  {
    hide LowOctet, HighOctet, FcsFinish;
  }

  lemma JoinData(whole: seq<bv8>, fcsStart: nat, i: nat, ip: seq<bv8>, addrComp: bool, protoComp: bool)
    requires fcsStart <= i && |whole| == i + 3
    requires whole[..i][..fcsStart] == [FLAG] + if addrComp then [] else [ADDR, CTRL]
    requires whole[fcsStart..i] == DataBody(ip, protoComp)
    requires whole[i..] == FcsOctets(DataBody(ip, protoComp)) + [FLAG]
    ensures whole == Framed(DataInterior(ip, addrComp, protoComp))
  {
    hide FcsOctets, DataBody;
    assert whole == whole[..i][..fcsStart] + whole[fcsStart..i] + whole[i..];
  }

  method StartData(buffer: array<bv8>, addrComp: bool) returns (fcsStart: nat)
    requires 3 <= buffer.Length
    modifies buffer
    ensures fcsStart == if addrComp then 1 else 3
    ensures buffer[..fcsStart] == [FLAG] + if addrComp then [] else [ADDR, CTRL]
  {
    buffer[0] := FLAG;
    fcsStart := 1;
    if !addrComp {
      buffer[fcsStart] := ADDR;
      buffer[fcsStart + 1] := CTRL;
      fcsStart := fcsStart + 2;
    }
  }

  method CopyBody(buffer: array<bv8>, at: nat, ip: seq<bv8>, protoComp: bool) returns (end: nat)
    requires at + |DataBody(ip, protoComp)| <= buffer.Length
    modifies buffer
    ensures end == at + |DataBody(ip, protoComp)|
    ensures buffer[..at] == old(buffer[..at])
    ensures buffer[at..end] == DataBody(ip, protoComp)
  {
    end := at;
    if !protoComp {
      buffer[end] := 0x00;
      end := end + 1;
    }
    buffer[end] := 0x21;
    end := end + 1;
    forall k | 0 <= k < |ip| {
      buffer[end + k] := ip[k];
    }
    end := end + |ip|;
  }

  // ----- Receiving a packet -----

  datatype Protocol = ToLcp | ToPap | ToChap | ToIpcp | ToIpcp6 | ToStack

  /** Where a received frame goes: the part of it that is handed up, as offset and length. */
  datatype Delivery = Dropped | Unrecognized | Up(proto: Protocol, offset: nat, length: nat)

  /** Subtraction of 32-bit lengths. */
  function Minus(a: nat, b: nat): nat {
    (a - b) % 0x1_0000_0000
  }

  /** Dispatch on the protocol octets at offset p; n is the length that remains. */
  function Dispatch(frame: seq<bv8>, p: nat, n: nat): Delivery
    requires p + 2 <= |frame|
  {
    if frame[p] == 0xC0 then
      if frame[p + 1] == 0x21 then Up(ToLcp, p + 2, Minus(n, 2))
      else if frame[p + 1] == 0x23 then Up(ToPap, p + 2, Minus(n, 2))
      else Unrecognized
    else if frame[p] == 0xC2 && frame[p + 1] == 0x23 then Up(ToChap, p + 2, Minus(n, 2))
    else if frame[p] == 0x80 then
      if frame[p + 1] == 0x21 then Up(ToIpcp, p + 2, Minus(n, 2))
      else if frame[p + 1] == 0x57 then Up(ToIpcp6, p + 2, Minus(n, 2))
      else Unrecognized
    else
      var (q, m) := if frame[p] == 0x00 then (p + 1, Minus(n, 1)) else (p, n);
      if frame[q] == 0x21 || frame[q] == 0x57 then Up(ToStack, q + 1, Minus(m, 1))
      else Unrecognized
  }

  ghost function Process(frame: seq<bv8>): Delivery
    requires 2 <= |frame|
  {
    if !Accepted(frame) then Dropped
    else if frame[0] == ADDR && frame[1] == CTRL && 4 <= |frame| then Dispatch(frame, 2, |frame| - 4)
    else Dispatch(frame, 0, |frame| - 2)
  }

  lemma CrcOfOne(r: bv16, o: bv8)
    ensures Crc(r, [o]) == FcsChar(r, o)
  {
    assert Crc(FcsChar(r, o), [o][1..]) == FcsChar(r, o);
  }

  /** Two octets cannot be taken from an accepted frame that is too short for them. */
  lemma ShortIsNotAddressed(frame: seq<bv8>)
    requires 2 <= |frame| < 4 && Accepted(frame)
    ensures !(frame[0] == ADDR && frame[1] == CTRL)
  {
    if |frame| == 2 {
      assert frame == [] + [frame[0], frame[1]];
      AcceptedTail([], frame[0], frame[1]);
    } else {
      assert frame == [frame[0]] + [frame[1], frame[2]];
      AcceptedTail([frame[0]], frame[1], frame[2]);
      CrcOfOne(INIT, 0xFF);
    }
  }

  method ProcessPacket(buf: array<bv8>, length: nat) returns (d: Delivery)
    requires 2 <= length <= buf.Length
    ensures d == Process(buf[..length])
  {
    var ok := FcsVerify(buf, 0, length);
    assert buf[0..length] == buf[..length];
    if !ok {
      return Dropped;
    }
    if length < 4 {
      ShortIsNotAddressed(buf[..length]);
    }
    var pkt, len := 0, length - 2;
    if buf[0] == ADDR && buf[1] == CTRL {
      pkt := pkt + 2;
      len := len - 2;
    }
    if buf[pkt] == 0xC0 {
      if buf[pkt + 1] == 0x21 {
        return Up(ToLcp, pkt + 2, Minus(len, 2));
      }
      if buf[pkt + 1] == 0x23 {
        return Up(ToPap, pkt + 2, Minus(len, 2));
      }
      return Unrecognized;
    }
    if buf[pkt] == 0xC2 && buf[pkt + 1] == 0x23 {
      return Up(ToChap, pkt + 2, Minus(len, 2));
    }
    if buf[pkt] == 0x80 {
      if buf[pkt + 1] == 0x21 {
        return Up(ToIpcp, pkt + 2, Minus(len, 2));
      }
      if buf[pkt + 1] == 0x57 {
        return Up(ToIpcp6, pkt + 2, Minus(len, 2));
      }
      return Unrecognized;
    }
    if buf[pkt] == 0x00 {
      pkt := pkt + 1;
      len := Minus(len, 1);
    }
    if buf[pkt] == 0x21 || buf[pkt] == 0x57 {
      return Up(ToStack, pkt + 1, Minus(len, 1));
    }
    return Unrecognized;
  }

  // ----- What one end sends the other takes in -----

  /** A frame whose payload is handed up to a protocol, and nothing else of it. */
  ghost predicate Delivers(frame: seq<bv8>, proto: Protocol, payload: seq<bv8>) {
    && 2 <= |frame|
    && var d := Process(frame);
      && d.Up? && d.proto == proto
      && d.offset + d.length <= |frame|
      && frame[d.offset..d.offset + d.length] == payload
  }

  datatype Control = Control(proto: Protocol, payload: seq<bv8>)

  function CodeOf(proto: Protocol): bv16 {
    match proto
    case ToPap => PAP
    case ToChap => CHAP
    case ToIpcp => IPCP
    case _ => LCP
  }

  /** The packets that the device builds: LCP, PAP, CHAP and IPCP, short enough to be received. */
  predicate Sendable(c: Control) {
    c.proto in {ToLcp, ToPap, ToChap, ToIpcp} && |c.payload| + 6 < MAXPKT
  }

  function Interior(c: Control): seq<bv8> {
    Sealed(CtlBody(CodeOf(c.proto), c.payload))
  }

  lemma ControlDelivered(c: Control)
    requires Sendable(c)
    ensures |Interior(c)| == |c.payload| + 6
    ensures Delivers(Interior(c), c.proto, c.payload)
  {
    var body := CtlBody(CodeOf(c.proto), c.payload);
    SealedIsAccepted(body);
    HeaderOctets(c);
    hide FcsOctets, LowOctet, HighOctet, Accepted;
    var frame := Interior(c);
    assert frame[4..4 + |c.payload|] == c.payload;
  }

  lemma HeaderOctets(c: Control)
    requires Sendable(c)
    ensures LowOctet(CodeOf(c.proto)) == match c.proto case ToChap => 0xC2 case ToIpcp => 0x80 case _ => 0xC0
    ensures HighOctet(CodeOf(c.proto)) == match c.proto case ToPap => 0x23 case ToChap => 0x23 case _ => 0x21
  {
  }

  function Interiors(cs: seq<Control>): seq<seq<bv8>> {
    seq(|cs|, i requires 0 <= i < |cs| => Interior(cs[i]))
  }

  /** Control packets sent one after the other arrive as they were sent, in order and once
      each, however their octets are divided over polls of whatever score. */
  lemma ControlRoundTrip(cs: seq<Control>, calls: seq<PollCall>)
    requires forall i :: 0 <= i < |cs| ==> Sendable(cs[i])
    requires Arrived(calls) == Wire(Interiors(cs))
    ensures var (st, rest) := Session(calls);
      && |st.acc| < MAXPKT
      && |st.frames| <= |cs|
      && (rest == [] ==> |st.frames| == |cs| && st.acc == [] && !st.escape)
      && forall i :: 0 <= i < |st.frames| ==> Delivers(st.frames[i], cs[i].proto, cs[i].payload)
  {
    forall i | 0 <= i < |cs|
      ensures |Interiors(cs)[i]| == |cs[i].payload| + 6 && Delivers(Interiors(cs)[i], cs[i].proto, cs[i].payload)
    {
      ControlDelivered(cs[i]);
    }
    hide Delivers, Interior;
    AnyDivisionDelivers(Interiors(cs), calls);
  }

  /** The two octets in front of a body change the register for good: no body makes up for them. */
  lemma UncoveredHeader(body: seq<bv8>)
    ensures !Accepted([ADDR, CTRL] + Sealed(body))
  {
    var header := [ADDR, CTRL];
    assert header + Sealed(body) == (header + body) + FcsOctets(body);
    AcceptedTail(header + body, FcsOctets(body)[0], FcsOctets(body)[1]);
    HeaderMoves();
    if FcsOctets(header + body) == FcsOctets(body) {
      CrcConcat(INIT, header, body);
      FinishInjective(Crc(INIT, header + body), Crc(INIT, body));
      CrcInjective(Crc(INIT, header), INIT, body);
    }
  }

  lemma HeaderMoves()
    ensures Crc(INIT, [ADDR, CTRL]) != INIT
  {
    assert [ADDR, CTRL][1..] == [CTRL];
    CrcOfOne(FcsChar(INIT, ADDR), CTRL);
  }

  lemma FinishInjective(a: bv16, b: bv16)
    requires LowOctet(FcsFinish(a)) == LowOctet(FcsFinish(b)) && HighOctet(FcsFinish(a)) == HighOctet(FcsFinish(b))
    ensures a == b
  {
  }

  /** A data packet is handed up unchanged exactly when the peer asked for compression of the
      address and control octets; otherwise it is always dropped. */
  lemma DataDelivered(ip: seq<bv8>, addrComp: bool, protoComp: bool)
    requires |ip| <= DATA_BUFFER
    ensures addrComp ==> Delivers(DataInterior(ip, addrComp, protoComp), ToStack, ip)
    ensures !addrComp ==> Process(DataInterior(ip, addrComp, protoComp)) == Dropped
  {
    if addrComp {
      SealedIsAccepted(DataBody(ip, protoComp));
      assert DataInterior(ip, addrComp, protoComp) == Sealed(DataBody(ip, protoComp));
      hide DataBody, Accepted;
      DataDispatched(ip, protoComp, FcsOctets(DataBody(ip, protoComp)));
    } else {
      UncoveredHeader(DataBody(ip, protoComp));
    }
  }

  lemma DataDispatched(ip: seq<bv8>, protoComp: bool, fcs: seq<bv8>)
    requires |ip| <= DATA_BUFFER && |fcs| == 2
    ensures var frame := DataBody(ip, protoComp) + fcs;
      var d := Dispatch(frame, 0, |frame| - 2);
      d == Up(ToStack, |DataBody(ip, protoComp)| - |ip|, |ip|) && frame[d.offset..d.offset + d.length] == ip
  {
  }

  /** The control packets of the device as octets. */
  lemma ControlOctets(c: Control)
    requires Sendable(c)
    ensures Interior(c)[..|c.payload| + 4] == [0xFF, 0x03] + (match c.proto
      case ToPap => [0xC0, 0x23]
      case ToChap => [0xC2, 0x23]
      case ToIpcp => [0x80, 0x21]
      case _ => [0xC0, 0x21]) + c.payload
  {
    HeaderOctets(c);
    hide FcsOctets, LowOctet, HighOctet;
  }

  /** The data packets as octets: address and control octets unless they are compressed, the
      protocol 0021 or, compressed, 21, and the IP packet. */
  lemma DataOctets(ip: seq<bv8>, addrComp: bool, protoComp: bool)
    ensures var frame := DataInterior(ip, addrComp, protoComp);
      frame[..|frame| - 2] ==
        (if addrComp then [] else [0xFF, 0x03]) + (if protoComp then [0x21] else [0x00, 0x21]) + ip
  {
    hide FcsFinish, LowOctet, HighOctet;
    var frame := DataInterior(ip, addrComp, protoComp);
    assert frame[..|frame| - 2] == (if addrComp then [] else [ADDR, CTRL]) + DataBody(ip, protoComp);
  }

  // ----- Lengths -----

  lemma CrcOfThree(a: bv8, b: bv8, c: bv8)
    ensures Crc(INIT, [a, b, c]) == FcsChar(FcsChar(FcsChar(INIT, a), b), c)
  {
    assert [a, b, c] == [a, b] + [c];
    CrcConcat(INIT, [a, b], [c]);
    CrcOfTwo(INIT, a, b);
    CrcOfOne(FcsChar(FcsChar(INIT, a), b), c);
  }

  /** First check octet of the bodies without room for two protocol octets. */
  lemma CheckOctetsAddressed(x: bv8)
    requires x in {0xC0, 0xC2, 0x80, 0x00}
    ensures FcsOctets([ADDR, CTRL, x])[0]
         == match x case 0xC0 => 0x5B case 0xC2 => 0x49 case 0x80 => 0x5F case _ => 0x57
    ensures x == 0x00 ==> FcsOctets([ADDR, CTRL, x])[1] == 0x2A
  {
    CrcOfThree(ADDR, CTRL, x);
  }

  lemma CheckOctetsPlain(x: bv8)
    requires x in {0xC0, 0xC2, 0x80, 0x00}
    ensures FcsOctets([x])[0] == match x case 0xC0 => 0x74 case 0xC2 => 0x66 case 0x80 => 0x70 case _ => 0x78
  {
    CrcOfOne(INIT, x);
  }

  lemma CheckOctetsEmpty()
    ensures FcsOctets([]) == [0x00, 0x00]
    ensures FcsOctets([ADDR, CTRL]) == [0x1C, 0xC2]
  {
    CrcOfTwo(INIT, ADDR, CTRL);
  }

  /** What is handed up ends where the check octets begin, with one exception: the frame
      whose only payload octet is a zero, for which the length passes below zero. */
  lemma DeliveredLength(frame: seq<bv8>)
    requires 2 <= |frame| < 0x1_0000_0000
    ensures var d := Process(frame);
      d.Up? ==> (d.offset + d.length == |frame| - 2 <==> frame != [ADDR, CTRL, 0x00, 0x57, 0x2A])
  {
    if Accepted(frame) {
      var body := CheckedBody(frame);
      var addressed := frame[0] == ADDR && frame[1] == CTRL && 4 <= |frame|;
      hide Accepted, FcsOctets;
      if addressed && |body| < 4 {
        ShortAddressed(frame, body);
      } else if !addressed && |body| < 2 {
        ShortPlain(frame, body);
      } else {
        var p := if addressed then 2 else 0;
        DispatchLength(frame, p, |body| - p);
      }
    }
  }

  lemma DispatchLength(frame: seq<bv8>, p: nat, n: nat)
    requires p + 2 <= |frame| && 2 <= n < 0x1_0000_0000
    ensures var d := Dispatch(frame, p, n);
      d.Up? ==> d.offset + d.length == p + n
  {
  }

  lemma ShortPlain(frame: seq<bv8>, body: seq<bv8>)
    requires |body| < 2 && |FcsOctets(body)| == 2 && frame == body + FcsOctets(body)
    ensures var d := Dispatch(frame, 0, |body|);
      d.Up? ==> d.offset + d.length == |body|
  {
    hide FcsOctets;
    if body == [] {
      CheckOctetsEmpty();
    } else {
      assert body == [body[0]];
      if body[0] in {0xC0, 0xC2, 0x80, 0x00} {
        CheckOctetsPlain(body[0]);
      }
    }
  }

  lemma ShortAddressed(frame: seq<bv8>, body: seq<bv8>)
    requires 2 <= |body| < 4 && body[0] == ADDR && body[1] == CTRL
    requires |FcsOctets(body)| == 2 && frame == body + FcsOctets(body)
    ensures var d := Dispatch(frame, 2, |body| - 2);
      d.Up? ==> (d.offset + d.length == |body| <==> frame != [ADDR, CTRL, 0x00, 0x57, 0x2A])
  {
    hide FcsOctets;
    if |body| == 2 {
      CheckOctetsEmpty();
      assert body == [ADDR, CTRL];
    } else {
      assert body == [ADDR, CTRL, body[2]];
      if body[2] in {0xC0, 0xC2, 0x80, 0x00} {
        CheckOctetsAddressed(body[2]);
      }
    }
  }

  lemma CheckedBody(frame: seq<bv8>) returns (body: seq<bv8>)
    requires 2 <= |frame| && Accepted(frame)
    ensures frame == body + FcsOctets(body) && |FcsOctets(body)| == 2
  {
    var n := |frame| - 2;
    body := frame[..n];
    assert frame == body + [frame[n], frame[n + 1]];
    AcceptedTail(body, frame[n], frame[n + 1]);
  }

  // ----- Who gets a packet -----

  /** The protocol octets of the packets that are handed up, one or two of them for IP. */
  predicate Names(octets: seq<bv8>, proto: Protocol) {
    match proto
    case ToLcp => octets == [0xC0, 0x21]
    case ToPap => octets == [0xC0, 0x23]
    case ToChap => octets == [0xC2, 0x23]
    case ToIpcp => octets == [0x80, 0x21]
    case ToIpcp6 => octets == [0x80, 0x57]
    case ToStack => octets == [0x21] || octets == [0x57] || octets == [0x00, 0x21] || octets == [0x00, 0x57]
  }

  /** The frame is made of the octets ff 03 or nothing, protocol octets, the payload and two more. */
  predicate MadeOf(frame: seq<bv8>, head: seq<bv8>, name: seq<bv8>, proto: Protocol, payload: seq<bv8>) {
    && (head == [0xFF, 0x03] || head == [])
    && Names(name, proto)
    && 2 <= |frame|
    && frame[..|frame| - 2] == head + name + payload
  }

  lemma DispatchNames(frame: seq<bv8>, p: nat, n: nat)
    requires p + 2 <= |frame|
    ensures var d := Dispatch(frame, p, n);
      && d != Dropped
      && (d.Up? ==> p < d.offset <= p + 2 <= |frame| && Names(frame[p..d.offset], d.proto))
  {
    hide Minus;
    assert frame[p..p + 1] == [frame[p]] && frame[p..p + 2] == [frame[p], frame[p + 1]];
  }

  lemma NamedDispatch(frame: seq<bv8>, p: nat, n: nat, name: seq<bv8>, proto: Protocol)
    requires p + 2 <= |frame| && p + |name| <= |frame| && frame[p..p + |name|] == name && Names(name, proto)
    ensures var d := Dispatch(frame, p, n); d.Up? && d.proto == proto && d.offset == p + |name|
  {
    hide Minus;
    assert frame[p] == name[0];
    assert |name| == 2 ==> frame[p + 1] == name[1];
  }

  /** Where the protocol octets begin. */
  function NameAt(frame: seq<bv8>): nat {
    if 4 <= |frame| && frame[0] == 0xFF && frame[1] == 0x03 then 2 else 0
  }

  lemma ProcessIs(frame: seq<bv8>)
    requires 2 <= |frame| && Accepted(frame)
    ensures NameAt(frame) + 2 <= |frame|
    ensures Process(frame) == Dispatch(frame, NameAt(frame), |frame| - 2 - NameAt(frame))
  {
    hide Accepted, Dispatch;
  }

  /** A protocol is handed a payload exactly of those accepted frames that are made of it. */
  lemma DeliversIff(frame: seq<bv8>, proto: Protocol, payload: seq<bv8>)
    requires |frame| < 0x1_0000_0000
    ensures Delivers(frame, proto, payload) <==>
      2 <= |frame| && Accepted(frame) && exists head, name :: MadeOf(frame, head, name, proto, payload)
  {
    hide Accepted, Process, Dispatch, Names;
    if Delivers(frame, proto, payload) {
      DeliveredMade(frame, proto, payload);
    }
    if 2 <= |frame| && Accepted(frame) && exists head, name :: MadeOf(frame, head, name, proto, payload) {
      var head, name :| MadeOf(frame, head, name, proto, payload);
      MadeDelivered(frame, head, name, proto, payload);
    }
  }

  lemma DeliveredMade(frame: seq<bv8>, proto: Protocol, payload: seq<bv8>)
    requires |frame| < 0x1_0000_0000 && Delivers(frame, proto, payload)
    ensures Accepted(frame)
    ensures exists head, name :: MadeOf(frame, head, name, proto, payload)
  {
    NotAcceptedDropped(frame);
    ProcessIs(frame);
    var d, p := Process(frame), NameAt(frame);
    DispatchNames(frame, p, |frame| - 2 - p);
    DeliveredLength(frame);
    hide Accepted, Process, Dispatch, Names;
    if frame == [ADDR, CTRL, 0x00, 0x57, 0x2A] {
      WrappedLength(frame);
    }
    var n := |frame| - 2;
    assert frame[..n] == frame[..p] + frame[p..d.offset] + frame[d.offset..n];
    assert p == 2 ==> frame[..2] == [0xFF, 0x03];
    assert MadeOf(frame, frame[..p], frame[p..d.offset], proto, payload);
  }

  lemma NotAcceptedDropped(frame: seq<bv8>)
    requires 2 <= |frame|
    ensures Process(frame) == Dropped <==> !Accepted(frame)
  {
    hide Accepted;
    DispatchNames(frame, 0, |frame| - 2);
    if 4 <= |frame| {
      DispatchNames(frame, 2, |frame| - 4);
    }
    hide Dispatch;
  }

  lemma WrappedLength(frame: seq<bv8>)
    requires frame == [ADDR, CTRL, 0x00, 0x57, 0x2A]
    ensures var d := Dispatch(frame, 2, 1); d.Up? && d.length == 0xFFFF_FFFF
  {
  }

  lemma MadeDelivered(frame: seq<bv8>, head: seq<bv8>, name: seq<bv8>, proto: Protocol, payload: seq<bv8>)
    requires |frame| < 0x1_0000_0000 && Accepted(frame) && MadeOf(frame, head, name, proto, payload)
    ensures Delivers(frame, proto, payload)
  {
    var p, n := |head|, |frame| - 2;
    NameLengths(name, proto);
    HeadAt(frame, head, name, payload);
    ProcessIs(frame);
    assert frame[p..p + |name|] == frame[..n][p..p + |name|] == name;
    NamedDispatch(frame, p, n - p, name, proto);
    DeliveredLength(frame);
    hide Accepted, Process, Dispatch, Names;
    assert |name| == 1 ==> frame[p] != 0x00;
    assert p == 2 && |frame| == 5 ==> |name| == 1;
    assert frame[p + |name|..n] == frame[..n][p + |name|..] == payload;
  }

  lemma NameLengths(name: seq<bv8>, proto: Protocol)
    requires Names(name, proto)
    ensures 1 <= |name| <= 2 && name[0] != 0xFF && (|name| == 1 ==> name[0] != 0x00)
  {
  }

  lemma HeadAt(frame: seq<bv8>, head: seq<bv8>, name: seq<bv8>, payload: seq<bv8>)
    requires 2 <= |frame| && (head == [0xFF, 0x03] || head == []) && name != [] && name[0] != 0xFF
    requires frame[..|frame| - 2] == head + name + payload
    ensures NameAt(frame) == |head|
  {
    var body := frame[..|frame| - 2];
    if head == [] {
      assert body[0] == name[0];
    } else {
      assert body[0] == 0xFF && body[1] == 0x03;
    }
  }
}
