/** Two devices on one line: what LCP of the one builds, the frames and polls in between, and what LCP
    of the other makes of it. */
module PppExchange {
  import opened Octets
  import opened PppAutomata
  import opened PppConfReject
  import opened PppLayers
  import opened PppRuns
  import Framing = PppFraming
  import Packets = PppPackets
  import Standard = PppStandard

  // ----- From one LCP to the other -----

  // The framing has octets as bit vectors, LCP has them as numbers; between them are their bits.

  datatype Octad = Octad(b7: bool, b6: bool, b5: bool, b4: bool, b3: bool, b2: bool, b1: bool, b0: bool)
  {
    function Joined(): bv8 {
      Masked(b7, 0x80) | Masked(b6, 0x40) | Masked(b5, 0x20) | Masked(b4, 0x10)
      | Masked(b3, 0x08) | Masked(b2, 0x04) | Masked(b1, 0x02) | Masked(b0, 0x01)
    }

    function Sum(): Octet {
      (if b7 then 128 else 0) + (if b6 then 64 else 0) + (if b5 then 32 else 0) + (if b4 then 16 else 0)
      + (if b3 then 8 else 0) + (if b2 then 4 else 0) + (if b1 then 2 else 0) + (if b0 then 1 else 0)
    }
  }

  function Masked(on: bool, mask: bv8): bv8 {
    if on then mask else 0
  }

  function BitsOf(b: bv8): Octad {
    Octad(b & 0x80 != 0, b & 0x40 != 0, b & 0x20 != 0, b & 0x10 != 0,
          b & 0x08 != 0, b & 0x04 != 0, b & 0x02 != 0, b & 0x01 != 0)
  }

  function Rest(x: nat, weight: nat): nat {
    if x >= weight then x - weight else x
  }

  function DigitsOf(o: Octet): Octad {
    var r7 := Rest(o, 128);
    var r6 := Rest(r7, 64);
    var r5 := Rest(r6, 32);
    var r4 := Rest(r5, 16);
    var r3 := Rest(r4, 8);
    var r2 := Rest(r3, 4);
    var r1 := Rest(r2, 2);
    Octad(o >= 128, r7 >= 64, r6 >= 32, r5 >= 16, r4 >= 8, r3 >= 4, r2 >= 2, r1 >= 1)
  }

  lemma BitsBack(x: Octad)
    ensures BitsOf(x.Joined()) == x
  {
  }

  lemma DigitsBack(o: Octet)
    ensures DigitsOf(o).Sum() == o
  {
    var r4 := Rest(Rest(Rest(Rest(o, 128), 64), 32), 16);
    assert r4 < 16;
  }

  function BitVector(o: Octet): bv8 {
    DigitsOf(o).Joined()
  }

  function Number(b: bv8): Octet {
    BitsOf(b).Sum()
  }

  function Bits(s: seq<Octet>): seq<bv8> {
    seq(|s|, i requires 0 <= i < |s| => BitVector(s[i]))
  }

  function Numbers(s: seq<bv8>): seq<Octet> {
    seq(|s|, i requires 0 <= i < |s| => Number(s[i]))
  }

  lemma NumbersBack(s: seq<Octet>)
    ensures Numbers(Bits(s)) == s
  {
    hide DigitsOf, BitsOf, Octad.Joined, Octad.Sum;
    forall i | 0 <= i < |s|
      ensures Numbers(Bits(s))[i] == s[i]
    {
      BitsBack(DigitsOf(s[i]));
      DigitsBack(s[i]);
    }
  }

  /** What LCP reads when a packet was sent: the packet, with room for three octets behind it. */
  predicate Heard(packet: seq<Octet>, pkt: seq<Octet>) {
    packet <= pkt && |packet| + 3 <= |pkt|
  }

  function AsControl(packet: seq<Octet>): Packets.Control {
    Packets.Control(Packets.ToLcp, Bits(packet))
  }

  /** A packet of LCP that is put into a frame and sent is what LCP reads at the other end, once, however
      its octets are divided over polls; buf is the buffer in which the frame was received. */
  lemma PacketIsHeard(packet: seq<Octet>, calls: seq<Framing.PollCall>, buf: seq<bv8>)
    requires |packet| + 6 < Framing.MAXPKT == |buf|
    requires Framing.Arrived(calls) == Framing.Wire([Packets.Interior(AsControl(packet))])
    ensures var (st, rest) := Framing.Session(calls);
      rest == [] ==>
        && |st.frames| == 1 && 2 <= |st.frames[0]|
        && Packets.Process(st.frames[0]) == Packets.Up(Packets.ToLcp, 4, |packet|)
        && (st.frames[0] <= buf ==> Heard(packet, Numbers(buf[4..])))
  {
    var frame := Packets.Interior(AsControl(packet));
    HeaderOfFour(packet);
    hide Packets.Interior, Packets.Process, BitVector, Number;
    Framing.AnyDivisionDelivers([frame], calls);
    if frame <= buf {
      assert buf[4..][..|packet|] == buf[..|frame|][4..4 + |packet|] == Bits(packet);
      NumbersBack(packet);
      assert Numbers(buf[4..])[..|packet|] == Numbers(Bits(packet));
    }
  }

  lemma HeaderOfFour(packet: seq<Octet>)
    requires |packet| + 6 < Framing.MAXPKT
    ensures var frame := Packets.Interior(AsControl(packet));
      && |frame| == |packet| + 6 && frame[4..4 + |packet|] == Bits(packet)
      && Packets.Process(frame) == Packets.Up(Packets.ToLcp, 4, |packet|)
  {
    var c := AsControl(packet);
    var frame := Packets.Interior(c);
    Packets.ControlDelivered(c);
    Packets.HeaderOctets(c);
    assert frame[4..4 + |packet|] == c.payload;
  }

  /** Builds a Configure-Request and sends it, if there is memory for it; the wire then carries just the
      frame of that packet. */
  method SendConfigureRequest(lcp: Lcp, id: Octet, room: bool, attached: bool, memory: bool, accept: int -> int)
    returns (sent: Framing.Option<seq<bv8>>)
    modifies lcp`mru
    ensures room && attached && memory ==> sent.Some?
    ensures sent.Some? ==>
      && AllFit(Wanted(lcp.local, lcp.mru)) && |Encode(Wanted(lcp.local, lcp.mru))| <= REQUEST_ROOM
      && sent.value == Framing.Wire([Packets.Interior(AsControl(RequestPacket(id, Wanted(lcp.local, lcp.mru))))])
  {
    if !room {
      return Framing.None;
    }
    var packet := lcp.ConfigureRequest(id);
    hide Wanted, Encode, RequestPacket, Packets.CtlBody, Packets.Sealed, Framing.Framed, Framing.OnWire;
    var bits := Bits(packet);
    var pkt := new bv8[|bits| + 8];
    forall i | 0 <= i < |bits| {
      pkt[5 + i] := bits[i];
    }
    assert pkt[5..5 + |bits|] == bits;
    var ret;
    sent, ret := Packets.CtlSend(pkt, Packets.LCP, |bits| + 8, attached, memory, accept);
    InteriorIs(packet);
    WireOfOne(Packets.Interior(AsControl(packet)));
  }

  lemma InteriorIs(packet: seq<Octet>)
    ensures Packets.Interior(AsControl(packet)) == Packets.Sealed(Packets.CtlBody(Packets.LCP, Bits(packet)))
  {
    hide Packets.Sealed, Packets.CtlBody;
  }

  lemma WireOfOne(interior: seq<bv8>)
    ensures Framing.Wire([interior]) == Framing.OnWire(Framing.Framed(interior))
  {
    hide Framing.OnWire, Framing.Framed;
    assert [interior][..0] == [] && Framing.Wire([]) == [];
  }

  // ----- The negotiation of options -----

  /** What a device can ask for. */
  const ASKED: set<nat> := {1, 7, 8}

  /** The Configure-Request of a device. */
  function Request(o: Options, id: Octet): (r: seq<Octet>)
    ensures HEADER <= |r| <= HEADER + REQUEST_ROOM
  {
    WantedOctets(o.local, o.mru);
    RequestPacket(id, Wanted(o.local, o.mru))
  }

  /** The Configure-Reject of a device to a packet that it has taken. */
  function Reject(to: Options, pkt: seq<Octet>, len: nat): seq<Octet>
    requires Readable(pkt, len) && Rejectable(to, pkt, len)
  {
    RejectPacket(pkt[1], CopiedFrom(pkt, HEADER, len, Taken(to, pkt, len).0.rej))
  }

  predicate Rejectable(to: Options, pkt: seq<Octet>, len: nat)
    requires Readable(pkt, len)
  {
    var rej := Taken(to, pkt, len).0.rej;
    Copyable(pkt, HEADER, len, rej) && |CopiedFrom(pkt, HEADER, len, rej)| <= REJECT_ROOM
  }

  /** The Configure-Ack to a Configure-Request. */
  function Ack(request: seq<Octet>): seq<Octet>
    requires request != []
  {
    [CONF_ACK] + request[1..]
  }

  lemma AskedFlags(kind: Octet, data: seq<Octet>, local: set<nat>)
    requires kind < 16
    ensures Flags(Asked(kind, data, local)) == if kind in local then {kind as nat} else {}
  {
    var opts := Asked(kind, data, local);
    if opts != [] {
      assert opts[..0] == [] && Flags(opts[..0]) == {};
    }
  }

  lemma {:induction false} FlagsConcat(a: seq<Opt>, b: seq<Opt>)
    ensures Flags(a + b) == Flags(a) + Flags(b)
  {
    if b == [] {
      assert a + b == a;
    } else {
      assert (a + b)[..|a + b| - 1] == a + b[..|b| - 1];
      FlagsConcat(a, b[..|b| - 1]);
    }
  }

  /** A request has the flags of what the device asks for. */
  lemma WantedFlags(local: set<nat>, mru: Word16)
    ensures Flags(Wanted(local, mru)) == local * ASKED
  {
    hide Asked, Flags;
    var a, b := Asked(OPT_PROTO_COMP, [], local), Asked(OPT_MRU, [mru / 256, mru % 256], local);
    AskedFlags(OPT_PROTO_COMP, [], local);
    AskedFlags(OPT_MRU, [mru / 256, mru % 256], local);
    AskedFlags(OPT_ADDRCTL_COMP, [], local);
    FlagsConcat(a, b);
    FlagsConcat(a + b, Asked(OPT_ADDRCTL_COMP, [], local));
  }

  lemma RequestHolds(id: Octet, opts: seq<Opt>, pkt: seq<Octet>)
    requires AllFit(opts) && |Encode(opts)| <= REQUEST_ROOM && Heard(RequestPacket(id, opts), pkt)
    ensures var len := |RequestPacket(id, opts)|;
      Holds(pkt, len, opts) && Readable(pkt, len) && pkt[0] == CONF_REQ && pkt[1] == id
  {
    hide Encode;
    var packet := RequestPacket(id, opts);
    assert pkt[..|packet|] == packet;
    assert packet[HEADER..] == Encode(opts);
    assert pkt[HEADER..|packet|] == packet[HEADER..];
  }

  lemma RejectHolds(id: Octet, opts: seq<Opt>, pkt: seq<Octet>)
    requires AllFit(opts) && |Encode(opts)| <= REJECT_ROOM && Heard(RejectPacket(id, Encode(opts)), pkt)
    ensures var len := |RejectPacket(id, Encode(opts))|;
      Holds(pkt, len, opts) && Readable(pkt, len) && pkt[0] == CONF_REJ
  {
    hide Encode;
    var packet := RejectPacket(id, Encode(opts));
    assert pkt[..|packet|] == packet;
    assert packet[HEADER..] == Encode(opts);
    assert pkt[HEADER..|packet|] == packet[HEADER..];
  }

  lemma SubsetIff(a: set<nat>, b: set<nat>)
    ensures a - b == {} <==> a <= b
  {
    assert a <= b ==> forall x :: x in a - b ==> false;
    assert a - b == {} ==> forall x :: x in a && x !in b ==> x in a - b;
  }

  /** What one device asks for is accepted by the other exactly when the other supports all of it; the
      answer to anything else repeats what the other does not support. */
  lemma RequestHeard(from: Options, to: Options, id: Octet, pkt: seq<Octet>)
    requires to.local <= LOCAL_OPTIONS && Heard(Request(from, id), pkt)
    ensures var len := |Request(from, id)|;
      var (to', events) := Taken(to, pkt, len);
      && to'.local == to.local
      && (if from.local * ASKED <= to.local then events == [LRcrPos] && to'.peer == from.local * ASKED
          else events == [LRcrNeg])
    ensures var len := |Request(from, id)|;
      var unsupported := Select(Wanted(from.local, from.mru), to.local);
      && AllFit(unsupported) && |Encode(unsupported)| <= REJECT_ROOM
      && Rejectable(to, pkt, len) && Reject(to, pkt, len) == RejectPacket(id, Encode(unsupported))
  {
    hide Wanted, Encode, Flags, Taken, Select, Rejectable, Reject, RequestPacket, RejectPacket;
    var opts, len := Wanted(from.local, from.mru), |Request(from, id)|;
    WantedOctets(from.local, from.mru);
    RequestHolds(id, opts, pkt);
    WantedFlags(from.local, from.mru);
    SubsetIff(from.local * ASKED, to.local);
    RequestIsTaken(to, pkt, len, opts);
    RequestRejected(to, pkt, len, opts, id);
  }

  lemma RequestRejected(to: Options, pkt: seq<Octet>, len: nat, opts: seq<Opt>, id: Octet)
    requires Holds(pkt, len, opts) && Readable(pkt, len) && pkt[0] == CONF_REQ && pkt[1] == id
    requires to.local <= LOCAL_OPTIONS && |Encode(opts)| <= REQUEST_ROOM
    ensures var unsupported := Select(opts, to.local);
      && AllFit(unsupported) && |Encode(unsupported)| <= REJECT_ROOM
      && Rejectable(to, pkt, len) && Reject(to, pkt, len) == RejectPacket(id, Encode(unsupported))
  {
    hide Encode, Taken, Select, Copyable, CopiedFrom;
    RequestAnswered(to, pkt, len, opts);
    SelectShorter(opts, to.local);
  }

  /** The size of packets that it asks for is adopted. */
  lemma MruHeard(from: Options, to: Options, id: Octet, pkt: seq<Octet>)
    requires Heard(Request(from, id), pkt)
    ensures Taken(to, pkt, |Request(from, id)|).0.mru == if OPT_MRU in from.local then from.mru else to.mru
  {
    hide Wanted, Encode, Taken, LastSetting, RequestPacket;
    var opts, len := Wanted(from.local, from.mru), |Request(from, id)|;
    WantedOctets(from.local, from.mru);
    RequestHolds(id, opts, pkt);
    SettingsAreTaken(to, pkt, len, opts);
    LastWanted(from.local, from.mru, pkt, len, to.mru);
  }

  lemma LastWanted(local: set<nat>, mru: Word16, pkt: seq<Octet>, len: nat, before: Word16)
    requires var opts := Wanted(local, mru); Holds(pkt, len, opts) && Readable(pkt, len)
    ensures var opts := Wanted(local, mru);
      LastSetting(pkt, len, opts, |opts|, OPT_MRU, before) == if OPT_MRU in local then mru else before
  {
    hide Encode, EncodeOne;
    var opts := Wanted(local, mru);
    var k := if OPT_PROTO_COMP in local then 1 else 0;
    LastOther(pkt, len, opts, k, before);
    if OPT_MRU in local {
      assert opts[k] == Opt(OPT_MRU, [mru / 256, mru % 256]);
      SettingIsCarried(pkt, len, opts, k);
      LastHere(pkt, len, opts, k, before);
      LastBehind(pkt, len, opts, k + 1, before);
    } else {
      LastBehind(pkt, len, opts, k, before);
    }
  }

  /** Options of other types do not count. */
  lemma {:induction false} LastOther(pkt: seq<Octet>, len: nat, opts: seq<Opt>, k: nat, before: Word16)
    requires Holds(pkt, len, opts) && Readable(pkt, len) && k <= |opts|
    requires forall i :: 0 <= i < k ==> opts[i].kind != OPT_MRU
    ensures LastSetting(pkt, len, opts, k, OPT_MRU, before) == before
    decreases k
  {
    hide Holds, Encode;
    if k > 0 {
      LastOther(pkt, len, opts, k - 1, before);
    }
  }

  lemma LastHere(pkt: seq<Octet>, len: nat, opts: seq<Opt>, k: nat, before: Word16)
    requires Holds(pkt, len, opts) && Readable(pkt, len) && k < |opts| && opts[k].kind == OPT_MRU
    ensures Begins(opts, k) + 3 < |pkt|
    ensures LastSetting(pkt, len, opts, k + 1, OPT_MRU, before) == SettingAt(pkt, Begins(opts, k))
  {
    hide Encode;
    OptionAt(pkt, len, opts, k);
  }

  lemma {:induction false} LastBehind(pkt: seq<Octet>, len: nat, opts: seq<Opt>, k: nat, before: Word16)
    requires Holds(pkt, len, opts) && Readable(pkt, len) && k <= |opts|
    requires forall i :: k <= i < |opts| ==> opts[i].kind != OPT_MRU
    ensures LastSetting(pkt, len, opts, |opts|, OPT_MRU, before) == LastSetting(pkt, len, opts, k, OPT_MRU, before)
    decreases |opts| - k
  {
    hide Holds, Encode;
    if k < |opts| {
      LastBehind(pkt, len, opts, k + 1, before);
    }
  }

  lemma FlagsLast(front: seq<Opt>, last: Opt)
    ensures Flags(front + [last]) == Flags(front) + Flag(last.kind)
  {
    assert (front + [last])[..|front|] == front;
  }

  lemma SelectLast(front: seq<Opt>, last: Opt, local: set<nat>)
    ensures Select(front + [last], local)
         == if last.kind in local then Select(front, local) else Select(front, local) + [last]
  {
    assert (front + [last])[..|front|] == front;
  }

  lemma {:induction false} SelectFlags(opts: seq<Opt>, local: set<nat>)
    ensures Flags(Select(opts, local)) == Flags(opts) - local
  {
    if opts == [] {
      assert Select(opts, local) == [];
    } else {
      hide Select, Flags;
      var front, last := opts[..|opts| - 1], opts[|opts| - 1];
      assert opts == front + [last];
      SelectFlags(front, local);
      FlagsLast(front, last);
      SelectLast(front, last, local);
      FlagsLast(Select(front, local), last);
      FlagOutside(last.kind, local);
    }
  }

  lemma FlagOutside(kind: Octet, local: set<nat>)
    ensures Flag(kind) - local == if kind in local then {} else Flag(kind)
  {
  }

  lemma {:induction false} SelectShorter(opts: seq<Opt>, local: set<nat>)
    requires AllFit(opts)
    ensures |Encode(Select(opts, local))| <= |Encode(opts)|
  {
    if opts == [] {
      assert Select(opts, local) == [];
    } else {
      hide Select, Encode;
      var front, last := opts[..|opts| - 1], opts[|opts| - 1];
      assert opts == front + [last];
      SelectShorter(front, local);
      SelectLast(front, last, local);
      EncodeLast(Select(front, local), last);
      EncodeLast(front, last);
    }
  }

  /** The device that hears the rejection gives up precisely what the other does not support. */
  lemma RejectionHeard(from: Options, local: set<nat>, id: Octet, pkt: seq<Octet>)
    requires AllFit(Wanted(from.local, from.mru))
    requires |Encode(Select(Wanted(from.local, from.mru), local))| <= REJECT_ROOM
    requires Heard(RejectPacket(id, Encode(Select(Wanted(from.local, from.mru), local))), pkt)
    ensures var len := |RejectPacket(id, Encode(Select(Wanted(from.local, from.mru), local)))|;
      var (from', events) := Taken(from, pkt, len);
      && events == [LRcn] && from'.mru == from.mru
      && from'.local == from.local - (from.local * ASKED - local)
  {
    hide Wanted, Encode, Flags, FlagsFrom, Select, RejectPacket;
    var opts := Select(Wanted(from.local, from.mru), local);
    var len := |RejectPacket(id, Encode(opts))|;
    RejectHolds(id, opts, pkt);
    WantedFlags(from.local, from.mru);
    SelectFlags(Wanted(from.local, from.mru), local);
    FlagsOfOptions(pkt, len, opts, 0);
    NothingBefore(opts);
    assert {} + FlagsFrom(pkt, HEADER, len) == FlagsFrom(pkt, HEADER, len);
  }

  /** One rejection is enough: the device that hears it asks again, for what the other supports of what
      it asked for before, and that is accepted. */
  lemma OneRejectionIsEnough(from: Options, from': Options, to: Options, to': Options, id: Octet, id': Octet,
                             pkt1: seq<Octet>, pkt2: seq<Octet>, pkt3: seq<Octet>)
    requires to.local <= LOCAL_OPTIONS && !(from.local * ASKED <= to.local)
    requires Heard(Request(from, id), pkt1) && Rejectable(to, pkt1, |Request(from, id)|)
    requires to' == Taken(to, pkt1, |Request(from, id)|).0
    requires Heard(Reject(to, pkt1, |Request(from, id)|), pkt2)
    requires from' == Taken(from, pkt2, |Reject(to, pkt1, |Request(from, id)|)|).0
    requires Heard(Request(from', id'), pkt3)
    ensures Taken(to, pkt1, |Request(from, id)|).1 == [LRcrNeg]
    ensures Taken(from, pkt2, |Reject(to, pkt1, |Request(from, id)|)|).1 == [LRcn]
    ensures var (to'', events) := Taken(to', pkt3, |Request(from', id')|);
      events == [LRcrPos] && to''.peer == from.local * ASKED * to.local
  {
    hide Wanted, Encode, Taken, Select, Request, Reject, Rejectable, RejectPacket;
    RequestHeard(from, to, id, pkt1);
    WantedOctets(from.local, from.mru);
    SelectShorter(Wanted(from.local, from.mru), to.local);
    RejectionHeard(from, to.local, id, pkt2);
    RequestHeard(from', to', id', pkt3);
    assert from'.local * ASKED == from.local * ASKED * to.local;
  }

  /** A request as octets: the options that the device supports, of the two compressions and the
      size of packets. */
  lemma RequestOctets(o: Options, id: Octet)
    ensures var opts := (if 7 in o.local then [7, 2] else [])
        + (if 1 in o.local then [1, 4, o.mru / 256, o.mru % 256] else [])
        + (if 8 in o.local then [8, 2] else []);
      Request(o, id) == [1, id, 0, 4 + |opts|] + opts
  {
    hide Encode, Wanted;
    WantedOctets(o.local, o.mru);
  }

  /** The first request of a new device asks for packets of 1514 octets and both compressions. */
  lemma FirstRequest(id: Octet)
    ensures Request(Options({1, 3, 7, 8}, {}, {}, 1514, 0), id) == [1, id, 0, 12, 7, 2, 1, 4, 0x05, 0xEA, 8, 2]
  {
    hide Request;
    RequestOctets(Options({1, 3, 7, 8}, {}, {}, 1514, 0), id);
  }

  /** A Configure-Nak that proposes another size of packets. */
  function Nak(id: Octet, mru: Word16): seq<Octet> {
    [3, id, 0, 8, 1, 4, mru / 256, mru % 256]
  }

  /** A device that hears it takes over the size and nothing else; whatever it was waiting for, it does
      not take its request for acknowledged, but asks again at once, for that size. */
  lemma NakAsksAgain(s: Ppp, o: Options, id: Octet, id': Octet, mru: Word16, nak: seq<Octet>)
    requires s.lcp in {LReqSent, LAckRcvd, LAckSent} && 1 in o.local && Heard(Nak(id, mru), nak)
    ensures Taken(o, nak, 8) == (o.(mru := mru), [LRcn])
    ensures var t := EvalLcp(s, LRcn);
      && t.lcp !in {LAckRcvd, LOpened}
      && var done := Standard.ReadAll(t.trace).done;
         done != [] && done[|done| - 1].move == LcpMove(s.lcp, LRcn, t.lcp) && done[|done| - 1].acts == [SendConfReq]
    ensures var again := Request(Taken(o, nak, 8).0, id');
      var k := if 7 in o.local then 6 else 4;
      k + 4 <= |again| && again[k..k + 4] == [1, 4, mru / 256, mru % 256]
  {
    hide Taken, Request, EvalLcp, LcpCell, Standard.ReadAll, Nak;
    NakHeard(o, id, mru, nak);
    RefusedAsksAgain(s);
    AsksForSize(o.(mru := mru), id');
  }

  lemma RefusedAsksAgain(s: Ppp)
    requires s.lcp in {LReqSent, LAckRcvd, LAckSent}
    ensures var t := EvalLcp(s, LRcn); var done := Standard.ReadAll(t.trace).done;
      && t.lcp !in {LAckRcvd, LOpened}
      && done != [] && done[|done| - 1].move == LcpMove(s.lcp, LRcn, t.lcp) && done[|done| - 1].acts == [SendConfReq]
  {
    hide EvalLcp, LcpCell, Standard.ReadAll;
    RefusedCells(s.lcp);
    Moves(s, LRcn);
    Standard.LcpReads(s, LRcn);
  }

  /** A request says the size, if the device supports the option. */
  lemma AsksForSize(o: Options, id: Octet)
    requires 1 in o.local
    ensures var r := Request(o, id);
      var k := if 7 in o.local then 6 else 4;
      k + 4 <= |r| && r[k..k + 4] == [1, 4, o.mru / 256, o.mru % 256]
  {
    hide Request;
    RequestOctets(o, id);
  }

  lemma NakHeard(o: Options, id: Octet, mru: Word16, nak: seq<Octet>)
    requires Heard(Nak(id, mru), nak)
    ensures Taken(o, nak, 8) == (o.(mru := mru), [LRcn])
  {
    assert nak[..8] == Nak(id, mru);
    var w := Walk({}, o.mru, o.auth);
    assert WalkFrom(See(w, nak, 4, true), nak, 8, 8, true) == See(w, nak, 4, true);
    assert mru / 256 * 256 + mru % 256 == mru;
  }

  lemma RefusedCells(st: LcpState)
    requires st in {LReqSent, LAckRcvd, LAckSent}
    ensures LcpCell(st, LRcn).handlers == One(SendConfReq) && LcpCell(st, LRcn).next !in {LAckRcvd, LOpened}
  {
  }

  /** A device that has sent its request opens when it hears an acceptable request of the other and the
      acknowledgement of its own, whichever comes first. */
  lemma Opens(s: Ppp, o: Options, other: Options, id: Octet, id': Octet, request: seq<Octet>, ack: seq<Octet>)
    requires s.lcp == LReqSent && o.local <= LOCAL_OPTIONS && other.local * ASKED <= o.local
    requires Heard(Request(other, id), request) && Heard(Ack(Request(o, id')), ack)
    ensures var len, len' := |Request(other, id)|, |Request(o, id')|;
      var (o1, r1) := Taken(o, request, len);
      var (o2, a2) := Taken(o1, ack, len');
      var (p1, a1) := Taken(o, ack, len');
      var (p2, r2) := Taken(p1, request, len);
      && r1 == r2 == [LRcrPos] && a1 == a2 == [LRca] && o2 == p2 && o2.peer == other.local * ASKED
      && EvalLcp(EvalLcp(s, LRcrPos), LRca).lcp == LOpened
      && EvalLcp(EvalLcp(s, LRca), LRcrPos).lcp == LOpened
  {
    hide Request, EvalLcp, LcpCell, AfterLcp;
    RequestHeard(other, o, id, request);
    AckHeard(o, Request(o, id'), ack);
    AckHeard(Taken(o, request, |Request(other, id)|).0, Request(o, id'), ack);
    OpeningCells();
    Moves(s, LRcrPos);
    Moves(EvalLcp(s, LRcrPos), LRca);
    Moves(s, LRca);
    Moves(EvalLcp(s, LRca), LRcrPos);
  }

  lemma AckHeard(o: Options, request: seq<Octet>, pkt: seq<Octet>)
    requires request != [] && Heard(Ack(request), pkt)
    ensures |Ack(request)| == |request| && Taken(o, pkt, |request|) == (o, [LRca])
  {
    hide WalkFrom, FlagsFrom;
    assert pkt[0] == Ack(request)[0];
  }

  lemma OpeningCells()
    ensures LcpCell(LReqSent, LRcrPos) == Cell(LAckSent, One(SendConfAck))
    ensures LcpCell(LAckSent, LRca) == Cell(LOpened, One(LayerUp))
    ensures LcpCell(LReqSent, LRca) == Cell(LAckRcvd, One(InitRestart))
    ensures LcpCell(LAckRcvd, LRcrPos) == Cell(LOpened, Two(SendConfAck, LayerUp))
  {
  }

  lemma Moves(s: Ppp, e: LcpEvent)
    ensures LcpCell(s.lcp, e).handlers != One(LayerFinished) ==> EvalLcp(s, e).lcp == LcpCell(s.lcp, e).next
  {
    hide EvalLcp, LcpCell, AfterLcp, ObserveLcp, RestartLcp, Near, Watched;
    LcpEffect(s, e);
    FinalLcp(ShapeOf(s), e, s.proto);
  }
}
