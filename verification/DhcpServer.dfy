/** The DHCP server on one configured link: addresses, negotiations, and replies. */
module DhcpServer {
  import opened Octets
  import opened DhcpOptions
  import opened DhcpMessages

  type Mac = seq<Octet>

  datatype Phase = Discover | Offer | Bound

  /** What is kept for a transaction. */
  datatype Negotiation = Negotiation(phase: Phase, ciaddr: Word32, hwaddr: Mac, bcast: bool)

  const OPENDNS: Word32 := 0xd043dede

  datatype Config = Config(server: Word32, netmask: Word32, leaseTime: Word32, poolStart: Word32, poolEnd: Word32) {
    predicate InPool(a: Word32) {
      poolStart <= a <= poolEnd
    }

    /** What the replies say. */
    function Offers(): Terms {
      Terms(server, leaseTime, netmask, Broadcast(server, netmask), OPENDNS)
    }
  }

  function Bits(a: Word32): bv32 {
    a as bv32
  }

  function Number(b: bv32): Word32 {
    b as Word32
  }

  function Broadcast(server: Word32, netmask: Word32): Word32 {
    Number(Bits(server) | !Bits(netmask))
  }

  /** The header fields of a reply that do not depend on the transaction; those not named are zero. */
  datatype Header = Header(op: Octet, htype: Octet, hlen: Octet, cookie: Word32)

  const REPLY_HEADER: Header := Header(2, 1, 6, 0x63825363)
  const CLIENT_PORT: Word16 := 68

  datatype Reply = Reply(header: Header, msgtype: Octet, xid: Word32, yiaddr: Word32, siaddr: Word32, hwaddr: Mac,
                         destination: Word32, port: Word16, bcast: bool, options: seq<Octet>)

  /** A message of a client: the header fields that matter, and the memory from the options on,
      of which length octets are the message. */
  datatype Packet = Packet(xid: Word32, hwaddr: Mac, ciaddr: Word32, bcast: bool, mem: seq<Octet>, length: int) {
    predicate InMemory() {
      2 * length <= |mem| && (EndOf(mem).End? ==> Readable(mem))
    }
  }

  datatype Found = Found(a: Word32) | NotFound

  /** The state of the server, with the link's table of hardware addresses. */
  datatype State = State(poolNext: Word32, arp: map<Word32, Mac>, negotiations: map<Word32, Negotiation>,
                         sent: seq<Reply>)

  // ----- What a message does -----

  /** A search of the table for a hardware address; the table's order is not modelled. */
  predicate LookedUp(arp: map<Word32, Mac>, hw: Mac, found: Found) {
    match found
    case Found(a) => a in arp && arp[a] == hw
    case NotFound => forall a :: a in arp ==> arp[a] != hw
  }

  function Next(a: Word32): Word32 {
    (a + 1) % 0x1_0000_0000
  }

  function NewEntry(arp: map<Word32, Mac>, a: Word32, hw: Mac): map<Word32, Mac> {
    if a in arp then arp else arp[a := hw]
  }

  /** The address that a search of the table settles on. */
  function Chosen(s: State, found: Found): Word32 {
    if found.Found? then found.a else s.poolNext
  }

  /** For what there is memory: an entry in the table, and a reply. */
  datatype Memory = Memory(entry: bool, reply: bool)

  function New(s: State, p: Packet, found: Found): Negotiation {
    Negotiation(Discover, Chosen(s, found), p.hwaddr, p.bcast)
  }

  function Added(s: State, p: Packet, found: Found, entry: bool): State {
    var t := s.(negotiations := s.negotiations[p.xid := New(s, p, found)]);
    if found.Found? then t
    else t.(arp := if entry then NewEntry(s.arp, s.poolNext, p.hwaddr) else s.arp, poolNext := Next(s.poolNext))
  }

  /** With a transaction for the message. */
  function Opened(s: State, p: Packet, found: Found, entry: bool): State {
    if p.xid in s.negotiations then s else Added(s, p, found, entry)
  }

  function ReplyTo(c: Config, xid: Word32, n: Negotiation, msgtype: Octet): Reply {
    Reply(REPLY_HEADER, msgtype, xid, n.ciaddr, c.server, n.hwaddr,
          if n.bcast then c.Offers().broadcast else n.ciaddr, CLIENT_PORT, n.bcast,
          Layout(ReplyItems(msgtype, c.Offers())) + [OPT_END])
  }

  /** Without memory for it a reply is not sent. */
  function Replied(c: Config, s: State, xid: Word32, msgtype: Octet, memory: bool): State
    requires xid in s.negotiations
  {
    if memory then s.(sent := s.sent + [ReplyTo(c, xid, s.negotiations[xid], msgtype)]) else s
  }

  function InPhase(s: State, xid: Word32, phase: Phase): State
    requires xid in s.negotiations
  {
    s.(negotiations := s.negotiations[xid := s.negotiations[xid].(phase := phase)])
  }

  function Requested(c: Config, s: State, xid: Word32, boundValid: bool, memory: bool): State
    requires xid in s.negotiations
  {
    match s.negotiations[xid].phase
    case Discover => s
    case Bound => if boundValid then Replied(c, s, xid, MSG_ACK, memory) else s
    case Offer => Replied(c, InPhase(s, xid, Bound), xid, MSG_ACK, memory)
  }

  function Answered(c: Config, s: State, xid: Word32, msgtype: Octet, boundValid: bool, memory: bool): State
    requires xid in s.negotiations
  {
    if msgtype == MSG_DISCOVER then InPhase(Replied(c, s, xid, MSG_OFFER, memory), xid, Offer)
    else if msgtype == MSG_REQUEST then Requested(c, s, xid, boundValid, memory)
    else s
  }

  function RequestIn(mem: seq<Octet>): Request
    requires Readable(mem)
  {
    NoteAll(Request(0, 0, 0), SeenOf(mem))
  }

  /** Whether the message makes the server search the table. */
  predicate Looks(s: State, p: Packet) {
    Accepted(p.mem, p.length) && p.xid !in s.negotiations
  }

  /** Whether a request of a bound client names its address and nothing else. */
  predicate BoundValid(r: Request, p: Packet, n: Negotiation) {
    r.reqip == 0 && r.serverId == 0 && p.ciaddr == n.ciaddr
  }

  function Received(c: Config, s: State, p: Packet, found: Found, memory: Memory): State
    requires p.InMemory()
  {
    if !Accepted(p.mem, p.length) then s
    else
      var s1 := Opened(s, p, found, memory.entry);
      var n := s1.negotiations[p.xid];
      if !c.InPool(n.ciaddr) then s1
      else
        var r := RequestIn(p.mem);
        Answered(c, s1, p.xid, r.msgtype, BoundValid(r, p, n), memory.reply)
  }

  // ----- The server -----

  class Server {
    const config: Config
    var poolNext: Word32
    var arp: map<Word32, Mac>
    var negotiations: map<Word32, Negotiation>
    var sent: seq<Reply>

    ghost function Now(): State
      reads this
    {
      State(poolNext, arp, negotiations, sent)
    }

    constructor (config: Config, arp: map<Word32, Mac>)
      ensures this.config == config && Now() == Start(config, arp)
    {
      this.config := config;
      poolNext := config.poolStart;
      this.arp := arp;
      negotiations, sent := map[], [];
    }

    method ReverseLookup(hw: Mac) returns (found: Found)
      ensures LookedUp(arp, hw, found)
    {
      var rest := arp.Keys;
      while rest != {}
        invariant rest <= arp.Keys
        invariant forall a :: a in arp.Keys - rest ==> arp[a] != hw
        decreases |rest|
      {
        var a :| a in rest;
        if arp[a] == hw {
          return Found(a);
        }
        rest := rest - {a};
      }
      return NotFound;
    }

    /** A new transaction; there is none for a known one, without room for it, or on a link for
        which the server is not configured. Without memory the table does not get its entry. */
    method AddNegotiation(p: Packet, configured: bool, room: bool, entry: bool) returns (ok: bool, found: Found)
      modifies this
      ensures ok <==> p.xid !in old(negotiations) && room && configured
      ensures !ok ==> Now() == old(Now())
      ensures ok ==> LookedUp(old(arp), p.hwaddr, found) && Now() == Added(old(Now()), p, found, entry)
    {
      found := NotFound;
      if p.xid in negotiations {
        return false, found;
      }
      if !room {
        return false, found;
      }
      if !configured {
        return false, found;
      }
      var ciaddr;
      found := ReverseLookup(p.hwaddr);
      match found {
        case NotFound =>
          ciaddr := poolNext;
          poolNext := Next(poolNext);
          if entry && ciaddr !in arp {
            arp := arp[ciaddr := p.hwaddr];
          }
        case Found(a) => ciaddr := a;
      }
      negotiations := negotiations[p.xid := Negotiation(Discover, ciaddr, p.hwaddr, p.bcast)];
      return true, found;
    }

    method MakeReply(xid: Word32, msgtype: Octet, memory: bool)
      requires xid in negotiations
      modifies this`sent
      ensures Now() == Replied(config, old(Now()), xid, msgtype, memory)
    {
      var n := negotiations[xid];
      if !memory {
        return;
      }
      var terms := config.Offers();
      var options := ReplyOptions(msgtype, terms);
      var destination := if !n.bcast then n.ciaddr else terms.broadcast;
      sent := sent + [Reply(Header(2, 1, 6, 0x63825363), msgtype, xid, n.ciaddr, config.server, n.hwaddr,
                            destination, 68, n.bcast, options)];
    }

    method SetPhase(xid: Word32, phase: Phase)
      requires xid in negotiations
      modifies this`negotiations
      ensures Now() == InPhase(old(Now()), xid, phase)
    {
      negotiations := negotiations[xid := negotiations[xid].(phase := phase)];
    }

    method ReplyToRequest(xid: Word32, boundValid: bool, memory: bool)
      requires xid in negotiations
      modifies this`sent, this`negotiations
      ensures Now() == Requested(config, old(Now()), xid, boundValid, memory)
    {
      if negotiations[xid].phase == Bound && boundValid {
        MakeReply(xid, MSG_ACK, memory);
      }
      if negotiations[xid].phase == Offer {
        SetPhase(xid, Bound);
        MakeReply(xid, MSG_ACK, memory);
      }
    }

    method ReplyToDiscoverOrRequest(xid: Word32, msgtype: Octet, boundValid: bool, memory: bool)
      requires xid in negotiations
      modifies this`sent, this`negotiations
      ensures Now() == Answered(config, old(Now()), xid, msgtype, boundValid, memory)
    {
      if msgtype == MSG_DISCOVER {
        MakeReply(xid, MSG_OFFER, memory);
        SetPhase(xid, Offer);
      } else if msgtype == MSG_REQUEST {
        ReplyToRequest(xid, boundValid, memory);
      }
    }

    /** A message, on a link that is configured or not, with room for a new transaction or not, and
        with the memory there is. When there is no transaction the code goes on with a
        null pointer: that is all that is said then. */
    method Recv(p: Packet, configured: bool, room: bool, memory: Memory) returns (missing: bool, ghost found: Found)
      requires p.InMemory()
      modifies this
      ensures missing <==> Looks(old(Now()), p) && !(room && configured)
      ensures missing ==> Now() == old(Now())
      ensures !missing && Looks(old(Now()), p) ==> LookedUp(old(arp), p.hwaddr, found)
      ensures !missing ==> Now() == Received(config, old(Now()), p, found, memory)
    {
      missing, found := false, NotFound;
      var valid := AreOptionsValid(p.mem, p.length);
      if !valid {
        return;
      }
      if p.xid !in negotiations {
        var ok, a := AddNegotiation(p, configured, room, memory.entry);
        found := a;
        if !ok {
          return true, found;
        }
      }
      var n := negotiations[p.xid];
      if !config.InPool(n.ciaddr) {
        return;
      }
      var r := ParseRequest(p.mem);
      ReplyToDiscoverOrRequest(p.xid, r.msgtype, BoundValid(r, p, n), memory.reply);
    }
  }

  // ----- Runs -----

  function Start(c: Config, arp: map<Word32, Mac>): State {
    State(c.poolStart, arp, map[], [])
  }

  /** What may happen: a message of a client, with the memory there is, or that the link learns a
      hardware address. */
  datatype Input = FromClient(p: Packet, found: Found, memory: Memory) | Learned(a: Word32, hw: Mac)

  function Step(c: Config, s: State, x: Input): State
    requires x.FromClient? ==> x.p.InMemory()
  {
    match x
    case FromClient(p, found, memory) => Received(c, s, p, found, memory)
    case Learned(a, hw) => s.(arp := s.arp[a := hw])
  }

  predicate Possible(s: State, x: Input) {
    x.FromClient? ==> x.p.InMemory() && (Looks(s, x.p) ==> LookedUp(s.arp, x.p.hwaddr, x.found))
  }

  /** A run of a server, whatever its table holds and learns. */
  ghost predicate IsRun(c: Config, states: seq<State>, xs: seq<Input>) {
    && |states| == |xs| + 1
    && (exists arp: map<Word32, Mac> :: states[0] == Start(c, arp))
    && forall i :: 0 <= i < |xs| ==> Possible(states[i], xs[i]) && states[i + 1] == Step(c, states[i], xs[i])
  }

  lemma RunNext(c: Config, states: seq<State>, xs: seq<Input>, k: nat)
    requires IsRun(c, states, xs) && k < |xs|
    ensures Possible(states[k], xs[k]) && states[k + 1] == Step(c, states[k], xs[k])
  {
    hide Possible, Step;
  }

  // ----- What every run keeps -----

  /** Among the first n replies there is such an offer. */
  predicate OfferedBefore(sent: seq<Reply>, n: nat, xid: Word32, a: Word32) {
    exists i :: 0 <= i < n && i < |sent| && sent[i].msgtype == MSG_OFFER && sent[i].xid == xid && sent[i].yiaddr == a
  }

  /** Every acknowledgement follows an offer of the same address in the same transaction. */
  predicate AcksFollow(sent: seq<Reply>) {
    forall j :: 0 <= j < |sent| && sent[j].msgtype == MSG_ACK ==> OfferedBefore(sent, j, sent[j].xid, sent[j].yiaddr)
  }

  lemma OfferedLonger(sent: seq<Reply>, more: seq<Reply>, n: nat, m: nat, xid: Word32, a: Word32)
    requires OfferedBefore(sent, n, xid, a) && n <= |sent| && n <= m
    ensures OfferedBefore(sent + more, m, xid, a)
  {
    var i :| 0 <= i < n && i < |sent| && sent[i].msgtype == MSG_OFFER && sent[i].xid == xid && sent[i].yiaddr == a;
    assert (sent + more)[i] == sent[i];
  }

  /** No transaction was taken away or got another address, client or flag. */
  predicate SameLeases(s: State, t: State) {
    && t.negotiations.Keys == s.negotiations.Keys
    && forall x :: x in s.negotiations ==>
         t.negotiations[x] == s.negotiations[x].(phase := t.negotiations[x].phase)
  }

  lemma AnsweredEffect(c: Config, s: State, xid: Word32, msgtype: Octet, boundValid: bool, memory: bool)
    requires xid in s.negotiations
    ensures var t := Answered(c, s, xid, msgtype, boundValid, memory);
      && t.arp == s.arp && t.poolNext == s.poolNext && SameLeases(s, t)
      && t.sent == s.sent + Said(c, s, xid, msgtype, boundValid, memory)
  {
    hide ReplyTo;
    PhaseUnseen(c, xid, s.negotiations[xid], Bound, MSG_ACK);
    assert s.sent + [] == s.sent;
  }

  lemma PhaseUnseen(c: Config, xid: Word32, n: Negotiation, phase: Phase, msgtype: Octet)
    ensures ReplyTo(c, xid, n.(phase := phase), msgtype) == ReplyTo(c, xid, n, msgtype)
  {
    hide Config.Offers;
  }

  /** What is answered in a transaction. */
  function Said(c: Config, s: State, xid: Word32, msgtype: Octet, boundValid: bool, memory: bool): seq<Reply>
    requires xid in s.negotiations
  {
    var n := s.negotiations[xid];
    if !memory then []
    else if msgtype == MSG_DISCOVER then [ReplyTo(c, xid, n, MSG_OFFER)]
    else if msgtype == MSG_REQUEST && (n.phase == Offer || (n.phase == Bound && boundValid)) then
      [ReplyTo(c, xid, n, MSG_ACK)]
    else []
  }

  /** What a message is answered with. */
  function Output(c: Config, s: State, x: Input): seq<Reply>
    requires x.FromClient? ==> x.p.InMemory()
  {
    if x.Learned? || !Accepted(x.p.mem, x.p.length) then []
    else
      var s1 := Opened(s, x.p, x.found, x.memory.entry);
      var n, r := s1.negotiations[x.p.xid], RequestIn(x.p.mem);
      if !c.InPool(n.ciaddr) then [] else Said(c, s1, x.p.xid, r.msgtype, BoundValid(r, x.p, n), x.memory.reply)
  }

  /** The state before the answer. */
  function Entered(s: State, x: Input): State {
    match x
    case FromClient(p, found, memory) => if Accepted(p.mem, p.length) then Opened(s, p, found, memory.entry) else s
    case Learned(a, hw) => s.(arp := s.arp[a := hw])
  }

  lemma StepEffect(c: Config, s: State, x: Input)
    requires x.FromClient? ==> x.p.InMemory()
    ensures var s1, t := Entered(s, x), Step(c, s, x);
      && t.arp == s1.arp && t.poolNext == s1.poolNext && SameLeases(s1, t) && t.sent == s.sent + Output(c, s, x)
  {
    hide Answered, Said, Added, RequestIn, SameLeases;
    if x.FromClient? && Accepted(x.p.mem, x.p.length) {
      OpenedEffect(s, x.p, x.found, x.memory.entry);
      var s1 := Opened(s, x.p, x.found, x.memory.entry);
      var n, r := s1.negotiations[x.p.xid], RequestIn(x.p.mem);
      AnsweredEffect(c, s1, x.p.xid, r.msgtype, BoundValid(r, x.p, n), x.memory.reply);
      SameSelf(s1);
    } else {
      SameSelf(Entered(s, x));
    }
  }

  lemma SameSelf(s: State)
    ensures SameLeases(s, s)
  {
  }

  lemma OpenedEffect(s: State, p: Packet, found: Found, entry: bool)
    ensures var t := Opened(s, p, found, entry);
      && t.sent == s.sent && p.xid in t.negotiations
      && forall x :: x in s.negotiations ==> x in t.negotiations && t.negotiations[x] == s.negotiations[x]
  {
  }

  // Replies and transactions.

  /** A reply gives an address of the pool, the one of its transaction, to the client of it, with the
      flag of it. */
  predicate Records(c: Config, s: State, r: Reply) {
    && c.InPool(r.yiaddr) && r.xid in s.negotiations
    && s.negotiations[r.xid].ciaddr == r.yiaddr && s.negotiations[r.xid].hwaddr == r.hwaddr
    && s.negotiations[r.xid].bcast == r.bcast
  }

  predicate Recorded(c: Config, s: State) {
    forall i :: 0 <= i < |s.sent| ==> Records(c, s, s.sent[i])
  }

  lemma StepRecorded(c: Config, s: State, x: Input)
    requires Recorded(c, s) && Possible(s, x)
    ensures Recorded(c, Step(c, s, x))
  {
    var s1, t, out := Entered(s, x), Step(c, s, x), Output(c, s, x);
    StepEffect(c, s, x);
    OutputRecorded(c, s, x);
    hide Step, Output, Config.InPool, Looks, LookedUp, Accepted;
    if x.FromClient? {
      OpenedEffect(s, x.p, x.found, x.memory.entry);
    }
    hide Opened;
    forall i | 0 <= i < |t.sent|
      ensures Records(c, t, t.sent[i])
    {
      if i < |s.sent| {
        assert Records(c, s, s.sent[i]);
      } else {
        assert t.sent[i] == out[i - |s.sent|];
      }
    }
  }

  lemma OutputRecorded(c: Config, s: State, x: Input)
    requires x.FromClient? ==> x.p.InMemory()
    ensures forall i :: 0 <= i < |Output(c, s, x)| ==> Records(c, Entered(s, x), Output(c, s, x)[i])
  {
    hide RequestIn, Opened, Config.InPool, Config.Offers;
    if x.FromClient? {
      OpenedEffect(s, x.p, x.found, x.memory.entry);
    }
  }

  lemma {:induction false} RunRecorded(c: Config, states: seq<State>, xs: seq<Input>, n: nat)
    requires IsRun(c, states, xs) && n <= |xs|
    ensures Recorded(c, states[n])
  {
    hide Step, Possible;
    if n == 0 {
    } else {
      RunRecorded(c, states, xs, n - 1);
      RunNext(c, states, xs, n - 1);
      StepRecorded(c, states[n - 1], xs[n - 1]);
    }
  }

  // Where replies go, and what is in them.

  /** A reply is a DHCP reply over Ethernet, names the server, and goes to the port of clients: with
      the broadcast flag to the broadcast address of the server's network, without it to the
      address that it gives. */
  predicate Addressed(c: Config, r: Reply) {
    && r.header.op == 2 && r.header.htype == 1 && r.header.hlen == 6 && r.header.cookie == 0x63825363
    && r.siaddr == c.server && r.port == 68
    && (r.msgtype == 2 || r.msgtype == 5)
    && (if r.bcast then IsBroadcast(c, r.destination) else r.destination == r.yiaddr)
  }

  /** An address that agrees with another one under a mask and has all ones elsewhere. */
  predicate AllOnesBehind(a: bv32, server: bv32, netmask: bv32) {
    a & netmask == server & netmask && a | netmask == 0xFFFF_FFFF
  }

  predicate IsBroadcast(c: Config, a: Word32) {
    AllOnesBehind(Bits(a), Bits(c.server), Bits(c.netmask))
  }

  /** Its options, octet for octet: type, server, lease time, netmask, router, broadcast address, and
      the name server 208.67.222.222. */
  predicate Tells(c: Config, r: Reply) {
    exists broadcast: Word32 :: IsBroadcast(c, broadcast) && r.options ==
      [53, 1, r.msgtype] + ([54, 4] + WordOctets(c.server)) + ([51, 4] + WordOctets(c.leaseTime))
      + ([1, 4] + WordOctets(c.netmask)) + ([3, 4] + WordOctets(c.server))
      + ([28, 4] + WordOctets(broadcast)) + ([6, 4] + [208, 67, 222, 222]) + [255]
  }

  lemma BitsOfNumber(b: bv32)
    ensures Bits(Number(b)) == b
  {
  }

  lemma BitsOfBroadcast(server: Word32, netmask: Word32)
    ensures Bits(Broadcast(server, netmask)) == Bits(server) | !Bits(netmask)
  {
    hide Bits, Number;
    BitsOfNumber(Bits(server) | !Bits(netmask));
  }

  lemma MaskedBroadcast(a: bv32, server: bv32, netmask: bv32)
    requires a == server | !netmask
    ensures AllOnesBehind(a, server, netmask)
  {
  }

  lemma BroadcastIs(c: Config)
    ensures IsBroadcast(c, Broadcast(c.server, c.netmask))
  {
    hide Bits, Broadcast, AllOnesBehind;
    BitsOfBroadcast(c.server, c.netmask);
    MaskedBroadcast(Bits(Broadcast(c.server, c.netmask)), Bits(c.server), Bits(c.netmask));
  }

  lemma ReplyAddressed(c: Config, xid: Word32, n: Negotiation, msgtype: Octet)
    requires msgtype == 2 || msgtype == 5
    ensures Addressed(c, ReplyTo(c, xid, n, msgtype)) && Tells(c, ReplyTo(c, xid, n, msgtype))
  {
    BroadcastIs(c);
    ReplyOctets(msgtype, c.Offers());
    NameServerOctets();
    hide IsBroadcast, Broadcast, WordOctets, ReplyItems, Layout;
  }

  lemma NameServerOctets()
    ensures WordOctets(OPENDNS) == [208, 67, 222, 222]
  {
  }

  /** All replies that were sent are so. */
  predicate AllAddressed(c: Config, s: State) {
    forall i :: 0 <= i < |s.sent| ==> Addressed(c, s.sent[i]) && Tells(c, s.sent[i])
  }

  lemma OutputAddressed(c: Config, s: State, x: Input)
    requires x.FromClient? ==> x.p.InMemory()
    ensures forall i :: 0 <= i < |Output(c, s, x)| ==> Addressed(c, Output(c, s, x)[i]) && Tells(c, Output(c, s, x)[i])
  {
    hide RequestIn, Opened, Config.InPool, ReplyTo, Addressed, Tells;
    if Output(c, s, x) != [] {
      var s1 := Opened(s, x.p, x.found, x.memory.entry);
      OpenedEffect(s, x.p, x.found, x.memory.entry);
      ReplyAddressed(c, x.p.xid, s1.negotiations[x.p.xid], 2);
      ReplyAddressed(c, x.p.xid, s1.negotiations[x.p.xid], 5);
    }
  }

  lemma StepAddressed(c: Config, s: State, x: Input)
    requires AllAddressed(c, s) && (x.FromClient? ==> x.p.InMemory())
    ensures AllAddressed(c, Step(c, s, x))
  {
    StepEffect(c, s, x);
    OutputAddressed(c, s, x);
    hide Step, Output, Addressed, Tells, SameLeases, Entered;
    var t, out := Step(c, s, x), Output(c, s, x);
    forall i | 0 <= i < |t.sent|
      ensures Addressed(c, t.sent[i]) && Tells(c, t.sent[i])
    {
      if i < |s.sent| {
        assert t.sent[i] == s.sent[i];
      } else {
        assert t.sent[i] == out[i - |s.sent|];
      }
    }
  }

  /** The k-th input is a message for which there was no transaction, from this client, with this flag. */
  predicate OpenedAt(states: seq<State>, xs: seq<Input>, k: nat, xid: Word32, hw: Mac, bcast: bool)
    requires k < |xs| && k < |states|
  {
    && xs[k].FromClient? && xs[k].p.xid == xid && xid !in states[k].negotiations
    && xs[k].p.hwaddr == hw && xs[k].p.bcast == bcast
  }

  /** Every transaction was opened by such a message. */
  predicate AllOpened(states: seq<State>, xs: seq<Input>, n: nat)
    requires n <= |xs| && |states| == |xs| + 1
  {
    forall x :: x in states[n].negotiations ==> OpenedBefore(states, xs, n, x, states[n].negotiations[x])
  }

  predicate OpenedBefore(states: seq<State>, xs: seq<Input>, n: nat, xid: Word32, neg: Negotiation)
    requires n <= |xs| && |states| == |xs| + 1
  {
    exists k :: 0 <= k < n && OpenedAt(states, xs, k, xid, neg.hwaddr, neg.bcast)
  }

  lemma EnteredOpens(s: State, x: Input, xid: Word32)
    requires xid in Entered(s, x).negotiations
    ensures var n := Entered(s, x).negotiations[xid];
      if xid in s.negotiations then n == s.negotiations[xid]
      else x.FromClient? && x.p.xid == xid && n.hwaddr == x.p.hwaddr && n.bcast == x.p.bcast
  {
    hide Accepted, NewEntry, Chosen;
  }

  lemma StepOpens(c: Config, s: State, x: Input, xid: Word32)
    requires x.FromClient? ==> x.p.InMemory()
    requires xid in Step(c, s, x).negotiations
    ensures var n := Step(c, s, x).negotiations[xid];
      if xid in s.negotiations then n.hwaddr == s.negotiations[xid].hwaddr && n.bcast == s.negotiations[xid].bcast
      else x.FromClient? && x.p.xid == xid && n.hwaddr == x.p.hwaddr && n.bcast == x.p.bcast
  {
    hide Step, Output, Entered;
    StepEffect(c, s, x);
    EnteredOpens(s, x, xid);
  }

  lemma {:induction false} RunOpened(c: Config, states: seq<State>, xs: seq<Input>, n: nat)
    requires IsRun(c, states, xs) && n <= |xs|
    ensures AllOpened(states, xs, n)
  {
    hide Step, Possible, OpenedAt;
    if n > 0 {
      var m := n - 1;
      RunOpened(c, states, xs, m);
      RunNext(c, states, xs, m);
      forall x | x in states[n].negotiations
        ensures OpenedBefore(states, xs, n, x, states[n].negotiations[x])
      {
        PossibleInMemory(states[m], xs[m]);
        StepOpens(c, states[m], xs[m], x);
        if x in states[m].negotiations {
          assert OpenedBefore(states, xs, m, x, states[m].negotiations[x]);
        } else {
          OpensHere(states, xs, m, x);
        }
      }
    }
  }

  lemma PossibleInMemory(s: State, x: Input)
    requires Possible(s, x)
    ensures x.FromClient? ==> x.p.InMemory()
  {
    hide Looks, LookedUp;
  }

  lemma OpensHere(states: seq<State>, xs: seq<Input>, k: nat, xid: Word32)
    requires k < |xs| && k < |states| && xs[k].FromClient? && xs[k].p.xid == xid && xid !in states[k].negotiations
    ensures OpenedAt(states, xs, k, xid, xs[k].p.hwaddr, xs[k].p.bcast)
  {
  }

  lemma {:induction false} RunAllAddressed(c: Config, states: seq<State>, xs: seq<Input>, n: nat)
    requires IsRun(c, states, xs) && n <= |xs|
    ensures AllAddressed(c, states[n])
  {
    hide Step, Possible, Addressed, Tells;
    if n > 0 {
      RunAllAddressed(c, states, xs, n - 1);
      RunNext(c, states, xs, n - 1);
      PossibleInMemory(states[n - 1], xs[n - 1]);
      StepAddressed(c, states[n - 1], xs[n - 1]);
    }
  }

  /** On every run, whatever the table holds and learns, every reply goes to the client and carries the
      broadcast flag of the message that opened its transaction, goes to the broadcast address of
      the network if the flag is set and else to the address that it gives, names the server, and
      says octet for octet what the server is configured with. */
  lemma RepliesAddressed(c: Config, states: seq<State>, xs: seq<Input>, n: nat, i: nat)
    requires IsRun(c, states, xs) && n <= |xs| && i < |states[n].sent|
    ensures var r := states[n].sent[i];
      && Addressed(c, r) && Tells(c, r)
      && exists k :: 0 <= k < n && OpenedAt(states, xs, k, r.xid, r.hwaddr, r.bcast)
  {
    hide Addressed, Tells, OpenedAt, Config.InPool, Step, Possible;
    RunAllAddressed(c, states, xs, n);
    RunRecorded(c, states, xs, n);
    RunOpened(c, states, xs, n);
    assert Records(c, states[n], states[n].sent[i]);
  }

  // Offers and acknowledgements.

  /** The transactions that went on were offered their address, and acknowledgements follow. */
  predicate Ordered(s: State) {
    && (forall x :: x in s.negotiations && s.negotiations[x].phase != Discover ==>
          OfferedBefore(s.sent, |s.sent|, x, s.negotiations[x].ciaddr))
    && AcksFollow(s.sent)
  }

  lemma OpenedOrdered(s: State, p: Packet, found: Found, entry: bool)
    requires Ordered(s)
    ensures Ordered(Opened(s, p, found, entry))
  {
    var t := Opened(s, p, found, entry);
    forall x | x in t.negotiations && t.negotiations[x].phase != Discover
      ensures OfferedBefore(t.sent, |t.sent|, x, t.negotiations[x].ciaddr)
    {
      assert x in s.negotiations && s.negotiations[x] == t.negotiations[x];
    }
  }

  lemma RepliedOrdered(c: Config, s: State, xid: Word32, msgtype: Octet, memory: bool)
    requires Ordered(s) && xid in s.negotiations
    requires msgtype == MSG_ACK ==> s.negotiations[xid].phase != Discover
    ensures Ordered(Replied(c, s, xid, msgtype, memory))
  {
    var t := Replied(c, s, xid, msgtype, memory);
    var n := |s.sent|;
    var more := if memory then [ReplyTo(c, xid, s.negotiations[xid], msgtype)] else [];
    assert t.sent == s.sent + more;
    hide Replied;
    forall x | x in s.negotiations && s.negotiations[x].phase != Discover
      ensures OfferedBefore(t.sent, |t.sent|, x, s.negotiations[x].ciaddr)
    {
      OfferedLonger(s.sent, more, n, |t.sent|, x, s.negotiations[x].ciaddr);
    }
    forall j | 0 <= j < |t.sent| && t.sent[j].msgtype == MSG_ACK
      ensures OfferedBefore(t.sent, j, t.sent[j].xid, t.sent[j].yiaddr)
    {
      if j < n {
        assert t.sent[j] == s.sent[j];
      }
      OfferedLonger(s.sent, more, j, j, t.sent[j].xid, t.sent[j].yiaddr);
    }
  }

  lemma PhaseOrdered(s: State, xid: Word32, phase: Phase)
    requires Ordered(s) && xid in s.negotiations
    requires OfferedBefore(s.sent, |s.sent|, xid, s.negotiations[xid].ciaddr)
    ensures Ordered(InPhase(s, xid, phase))
  {
    hide OfferedBefore;
  }

  lemma AnsweredOrdered(c: Config, s: State, xid: Word32, msgtype: Octet, boundValid: bool, memory: bool)
    requires Ordered(s) && xid in s.negotiations && (msgtype == MSG_DISCOVER ==> memory)
    ensures Ordered(Answered(c, s, xid, msgtype, boundValid, memory))
  {
    var n := s.negotiations[xid];
    if msgtype == MSG_DISCOVER {
      RepliedOrdered(c, s, xid, MSG_OFFER, memory);
      var t := Replied(c, s, xid, MSG_OFFER, memory);
      assert t.sent[|s.sent|] == ReplyTo(c, xid, n, MSG_OFFER);
      PhaseOrdered(t, xid, Offer);
    } else if msgtype == MSG_REQUEST {
      if n.phase == Bound && boundValid {
        RepliedOrdered(c, s, xid, MSG_ACK, memory);
      } else if n.phase == Offer {
        PhaseOrdered(s, xid, Bound);
        RepliedOrdered(c, InPhase(s, xid, Bound), xid, MSG_ACK, memory);
      }
    }
  }

  /** A discovery comes when there is no memory for the offer. */
  predicate LosesOffer(x: Input) {
    && x.FromClient? && x.p.InMemory() && Accepted(x.p.mem, x.p.length)
    && RequestIn(x.p.mem).msgtype == MSG_DISCOVER && !x.memory.reply
  }

  lemma StepOrdered(c: Config, s: State, x: Input)
    requires Ordered(s) && Possible(s, x) && !LosesOffer(x)
    ensures Ordered(Step(c, s, x))
  {
    hide Ordered, Opened, Answered, RequestIn, Looks, LookedUp;
    match x
    case Learned(a, hw) => LearnedOrdered(s, a, hw);
    case FromClient(p, found, memory) =>
      if Accepted(p.mem, p.length) {
        OpenedOrdered(s, p, found, memory.entry);
        OpenedEffect(s, p, found, memory.entry);
        var s1 := Opened(s, p, found, memory.entry);
        var r := RequestIn(p.mem);
        AnsweredOrdered(c, s1, p.xid, r.msgtype, BoundValid(r, p, s1.negotiations[p.xid]), memory.reply);
      }
  }

  lemma LearnedOrdered(s: State, a: Word32, hw: Mac)
    requires Ordered(s)
    ensures Ordered(s.(arp := s.arp[a := hw]))
  {
  }

  lemma {:induction false} RunOrdered(c: Config, states: seq<State>, xs: seq<Input>, n: nat)
    requires IsRun(c, states, xs) && n <= |xs|
    requires forall k :: 0 <= k < n ==> !LosesOffer(xs[k])
    ensures Ordered(states[n])
  {
    hide Step, LosesOffer;
    if n > 0 {
      RunOrdered(c, states, xs, n - 1);
      RunNext(c, states, xs, n - 1);
      StepOrdered(c, states[n - 1], xs[n - 1]);
    }
  }

  /** A request that is acknowledged: in a transaction of the pool that was offered its address, or
      of a bound client that names it, with memory for the reply. */
  predicate Confirms(c: Config, s: State, x: Input) {
    && x.FromClient? && x.p.InMemory() && Accepted(x.p.mem, x.p.length) && x.memory.reply
    && x.p.xid in s.negotiations
    && var n, r := s.negotiations[x.p.xid], RequestIn(x.p.mem);
      && c.InPool(n.ciaddr) && r.msgtype == MSG_REQUEST
      && (n.phase == Offer || (n.phase == Bound && BoundValid(r, x.p, n)))
  }

  /** A discovery of a transaction, with memory for the offer. */
  predicate Discovers(x: Input, xid: Word32) {
    && x.FromClient? && x.p.InMemory() && Accepted(x.p.mem, x.p.length) && x.memory.reply
    && x.p.xid == xid && RequestIn(x.p.mem).msgtype == MSG_DISCOVER
  }

  predicate OfferedBy(xs: seq<Input>, k: nat, xid: Word32)
    requires k <= |xs|
  {
    exists j :: 0 <= j < k && Discovers(xs[j], xid)
  }

  /** Some offer was sent in the transaction. */
  predicate OfferSent(sent: seq<Reply>, xid: Word32) {
    exists i :: 0 <= i < |sent| && sent[i].msgtype == MSG_OFFER && sent[i].xid == xid
  }

  /** What comes out is an acknowledgement exactly when the message is such a request. */
  lemma ConfirmsOutput(c: Config, s: State, x: Input)
    requires x.FromClient? ==> x.p.InMemory()
    ensures var out := Output(c, s, x);
      && |out| <= 1
      && (Confirms(c, s, x) <==> out != [] && out[0].msgtype == MSG_ACK)
      && (Confirms(c, s, x) ==> out[0].xid == x.p.xid && out[0].yiaddr == s.negotiations[x.p.xid].ciaddr)
  {
    hide RequestIn, Config.InPool, BoundValid, Config.Offers, NewEntry;
  }

  /** What comes out is an offer in a transaction of the pool exactly when the message is such a
      discovery of it. */
  lemma DiscoversOutput(c: Config, s: State, x: Input, xid: Word32)
    requires x.FromClient? ==> x.p.InMemory()
    requires xid in Entered(s, x).negotiations && c.InPool(Entered(s, x).negotiations[xid].ciaddr)
    ensures OfferSent(Output(c, s, x), xid) <==> Discovers(x, xid)
  {
    hide RequestIn, Config.InPool, BoundValid, Config.Offers, Opened;
    var out := Output(c, s, x);
    OutputShort(c, s, x);
    if x.FromClient? {
      OpenedEffect(s, x.p, x.found, x.memory.entry);
    }
    assert OfferSent(out, xid) <==> out != [] && out[0].msgtype == MSG_OFFER && out[0].xid == xid;
  }

  /** A transaction that is not known was not asked for. */
  lemma {:induction false} UnknownUnasked(c: Config, states: seq<State>, xs: seq<Input>, k: nat, xid: Word32)
    requires IsRun(c, states, xs) && k <= |xs| && xid !in states[k].negotiations
    ensures !OfferedBy(xs, k, xid)
  {
    hide Step, RequestIn, Output;
    if k > 0 {
      var s, x := states[k - 1], xs[k - 1];
      RunNext(c, states, xs, k - 1);
      StepEffect(c, s, x);
      if x.FromClient? {
        OpenedEffect(s, x.p, x.found, x.memory.entry);
      }
      hide Opened;
      UnknownUnasked(c, states, xs, k - 1, xid);
    }
  }

  lemma OfferSentMore(sent: seq<Reply>, out: seq<Reply>, xid: Word32)
    ensures OfferSent(sent + out, xid) <==> OfferSent(sent, xid) || OfferSent(out, xid)
  {
    var all := sent + out;
    if i :| 0 <= i < |sent| && sent[i].msgtype == MSG_OFFER && sent[i].xid == xid {
      assert all[i] == sent[i];
    }
    if i :| 0 <= i < |out| && out[i].msgtype == MSG_OFFER && out[i].xid == xid {
      assert all[|sent| + i] == out[i];
    }
  }

  lemma OfferedByNext(xs: seq<Input>, k: nat, xid: Word32)
    requires k < |xs|
    ensures OfferedBy(xs, k + 1, xid) <==> OfferedBy(xs, k, xid) || Discovers(xs[k], xid)
  {
    hide Discovers;
  }

  /** Replies are sent only in transactions that are known. */
  lemma UnknownUnsent(c: Config, s: State, xid: Word32)
    requires Recorded(c, s) && xid !in s.negotiations
    ensures !OfferSent(s.sent, xid)
  {
    forall i | 0 <= i < |s.sent|
      ensures s.sent[i].xid != xid
    {
      assert Records(c, s, s.sent[i]);
    }
  }

  /** An offer was sent in a transaction of the pool exactly when there was such a discovery of it. */
  lemma {:induction false} OfferSentIff(c: Config, states: seq<State>, xs: seq<Input>, k: nat, xid: Word32)
    requires IsRun(c, states, xs) && k <= |xs|
    requires xid in states[k].negotiations && c.InPool(states[k].negotiations[xid].ciaddr)
    ensures OfferSent(states[k].sent, xid) <==> OfferedBy(xs, k, xid)
  {
    hide Step, Output, OfferSent, OfferedBy, Discovers, Recorded, Config.InPool;
    if k > 0 {
      var s, x := states[k - 1], xs[k - 1];
      RunNext(c, states, xs, k - 1);
      StepEffect(c, s, x);
      DiscoversOutput(c, s, x, xid);
      OfferSentMore(s.sent, Output(c, s, x), xid);
      OfferedByNext(xs, k - 1, xid);
      EnteredKeeps(s, x);
      hide Entered;
      if xid in s.negotiations {
        OfferSentIff(c, states, xs, k - 1, xid);
      } else {
        RunRecorded(c, states, xs, k - 1);
        UnknownUnsent(c, s, xid);
        UnknownUnasked(c, states, xs, k - 1, xid);
      }
    }
  }

  lemma EnteredKeeps(s: State, x: Input)
    ensures forall y :: y in s.negotiations ==>
      y in Entered(s, x).negotiations && Entered(s, x).negotiations[y] == s.negotiations[y]
  {
    if x.FromClient? {
      OpenedEffect(s, x.p, x.found, x.memory.entry);
    }
    hide Opened, Accepted;
  }

  /** ... and it was one of the address of the transaction. */
  lemma OfferedIff(c: Config, states: seq<State>, xs: seq<Input>, k: nat, xid: Word32)
    requires IsRun(c, states, xs) && k <= |xs|
    requires xid in states[k].negotiations && c.InPool(states[k].negotiations[xid].ciaddr)
    ensures OfferedBefore(states[k].sent, |states[k].sent|, xid, states[k].negotiations[xid].ciaddr)
       <==> OfferedBy(xs, k, xid)
  {
    hide Step, Possible, OfferedBy, Config.InPool;
    OfferSentIff(c, states, xs, k, xid);
    RunRecorded(c, states, xs, k);
    var s := states[k];
    if i :| 0 <= i < |s.sent| && s.sent[i].msgtype == MSG_OFFER && s.sent[i].xid == xid {
      assert Records(c, s, s.sent[i]);
    }
  }

  lemma OutputShort(c: Config, s: State, x: Input)
    requires x.FromClient? ==> x.p.InMemory()
    ensures |Output(c, s, x)| <= 1
  {
    hide Accepted, RequestIn, Added, ReplyTo, Config.InPool;
  }

  lemma AcksFollowIff(sent: seq<Reply>, out: seq<Reply>)
    requires AcksFollow(sent) && |out| <= 1
    ensures AcksFollow(sent + out) <==>
      (out != [] && out[0].msgtype == MSG_ACK ==> OfferedBefore(sent, |sent|, out[0].xid, out[0].yiaddr))
  {
    var all, n := sent + out, |sent|;
    forall j | 0 <= j < |all| && all[j].msgtype == MSG_ACK
      ensures OfferedBefore(all, j, all[j].xid, all[j].yiaddr) <==> OfferedBefore(sent, j, all[j].xid, all[j].yiaddr)
    {
      OfferedPrefix(sent, out, j, all[j].xid, all[j].yiaddr);
    }
    hide OfferedBefore;
    assert forall j :: 0 <= j < n ==> all[j] == sent[j];
    assert out != [] ==> all[n] == out[0];
  }

  lemma OfferedPrefix(sent: seq<Reply>, more: seq<Reply>, n: nat, xid: Word32, a: Word32)
    requires n <= |sent|
    ensures OfferedBefore(sent + more, n, xid, a) <==> OfferedBefore(sent, n, xid, a)
  {
    var all := sent + more;
    assert forall i :: 0 <= i < n ==> all[i] == sent[i];
  }

  // Addresses and clients.

  /** A transaction that has an address of the pool. */
  predicate Pooled(c: Config, s: State, x: Word32) {
    x in s.negotiations && c.InPool(s.negotiations[x].ciaddr)
  }

  /** The address was given to the client in a transaction. */
  predicate Given(s: State, a: Word32, hw: Mac) {
    exists x :: x in s.negotiations && s.negotiations[x].ciaddr == a && s.negotiations[x].hwaddr == hw
  }

  /** The addresses of the pool in the table are below the next one, and were given to the clients
      that it names. */
  predicate Listed(c: Config, s: State) {
    forall a :: a in s.arp && c.InPool(a) ==> a < s.poolNext && Given(s, a, s.arp[a])
  }

  /** Those of transactions are below the next one, and each was given to one client only. */
  predicate Issued(c: Config, s: State) {
    && c.poolStart <= s.poolNext
    && (forall x :: Pooled(c, s, x) ==> s.negotiations[x].ciaddr < s.poolNext)
    && (forall x, y :: Pooled(c, s, x) && Pooled(c, s, y) && s.negotiations[x].ciaddr == s.negotiations[y].ciaddr ==>
          s.negotiations[x].hwaddr == s.negotiations[y].hwaddr)
  }

  predicate Kept(c: Config, s: State) {
    Listed(c, s) && Issued(c, s)
  }

  /** The table learns addresses of the pool only of those to whom they were given. */
  predicate Orderly(c: Config, s: State, x: Input) {
    x.Learned? && c.InPool(x.a) ==> Given(s, x.a, x.hw)
  }

  predicate Outside(c: Config, arp: map<Word32, Mac>) {
    forall a :: a in arp ==> !c.InPool(a)
  }

  /** For n steps, on a link whose table starts without addresses of the pool and learns them only of
      those to whom they were given, the next address does not pass the last one of 32 bits. */
  predicate Undisturbed(c: Config, states: seq<State>, xs: seq<Input>, n: nat) {
    && n <= |xs| && |states| == |xs| + 1
    && Outside(c, states[0].arp)
    && forall k :: 0 <= k < n ==> Orderly(c, states[k], xs[k]) && states[k].poolNext + 1 < 0x1_0000_0000
  }

  /** A new transaction gets an address that no client has had, or one that this client was given. */
  lemma ChosenAddress(c: Config, s: State, p: Packet, found: Found)
    requires Kept(c, s) && LookedUp(s.arp, p.hwaddr, found) && c.InPool(Chosen(s, found))
    ensures found.Found? ==> Chosen(s, found) < s.poolNext && Given(s, Chosen(s, found), p.hwaddr)
    ensures forall x :: Pooled(c, s, x) && s.negotiations[x].ciaddr == Chosen(s, found) ==>
      found.Found? && s.negotiations[x].hwaddr == p.hwaddr
  {
    hide Config.InPool;
    if found.Found? {
      var y :| y in s.negotiations && s.negotiations[y].ciaddr == found.a && s.negotiations[y].hwaddr == p.hwaddr;
      assert Pooled(c, s, y);
    }
  }

  lemma AddedIssued(c: Config, s: State, p: Packet, found: Found, entry: bool)
    requires Kept(c, s) && LookedUp(s.arp, p.hwaddr, found) && s.poolNext + 1 < 0x1_0000_0000
    ensures Issued(c, Added(s, p, found, entry))
  {
    hide Config.InPool, NewEntry, Given, Listed, LookedUp;
    var t, a := Added(s, p, found, entry), Chosen(s, found);
    assert t.negotiations == s.negotiations[p.xid := New(s, p, found)] && s.poolNext <= t.poolNext;
    assert a < t.poolNext || found.Found?;
    if c.InPool(a) {
      ChosenAddress(c, s, p, found);
    }
    hide Added;
    forall x | Pooled(c, t, x)
      ensures t.negotiations[x].ciaddr < t.poolNext
    {
      assert x != p.xid ==> Pooled(c, s, x);
    }
    forall x, y | Pooled(c, t, x) && Pooled(c, t, y) && t.negotiations[x].ciaddr == t.negotiations[y].ciaddr
      ensures t.negotiations[x].hwaddr == t.negotiations[y].hwaddr
    {
      assert x != p.xid ==> Pooled(c, s, x);
      assert y != p.xid ==> Pooled(c, s, y);
    }
  }

  lemma GivenStays(s: State, t: State, a: Word32, hw: Mac)
    requires Given(s, a, hw)
    requires forall x :: x in s.negotiations ==>
      && x in t.negotiations
      && t.negotiations[x].ciaddr == s.negotiations[x].ciaddr && t.negotiations[x].hwaddr == s.negotiations[x].hwaddr
    ensures Given(t, a, hw)
  {
    var x :| x in s.negotiations && s.negotiations[x].ciaddr == a && s.negotiations[x].hwaddr == hw;
    assert x in t.negotiations;
  }

  lemma AddedListed(c: Config, s: State, p: Packet, found: Found, entry: bool)
    requires Listed(c, s) && p.xid !in s.negotiations && s.poolNext + 1 < 0x1_0000_0000
    ensures Listed(c, Added(s, p, found, entry))
  {
    var t := Added(s, p, found, entry);
    assert t.negotiations[p.xid] == New(s, p, found);
    forall a | a in t.arp && c.InPool(a)
      ensures a < t.poolNext && Given(t, a, t.arp[a])
    {
      if a in s.arp {
        GivenStays(s, t, a, s.arp[a]);
      } else {
        assert a == s.poolNext && t.arp[a] == p.hwaddr;
        assert Given(t, a, p.hwaddr);
      }
    }
  }

  lemma LearnedKept(c: Config, s: State, a: Word32, hw: Mac)
    requires Kept(c, s) && (c.InPool(a) ==> Given(s, a, hw))
    ensures Kept(c, s.(arp := s.arp[a := hw]))
  {
    hide Config.InPool;
    var t := s.(arp := s.arp[a := hw]);
    forall x | Pooled(c, t, x)
      ensures t.negotiations[x].ciaddr < t.poolNext
    {
      assert Pooled(c, s, x);
    }
    forall x, y | Pooled(c, t, x) && Pooled(c, t, y) && t.negotiations[x].ciaddr == t.negotiations[y].ciaddr
      ensures t.negotiations[x].hwaddr == t.negotiations[y].hwaddr
    {
      assert Pooled(c, s, x) && Pooled(c, s, y);
    }
    forall b | b in t.arp && c.InPool(b)
      ensures b < t.poolNext && Given(t, b, t.arp[b])
    {
      GivenStays(s, t, b, t.arp[b]);
      if b == a {
        var x :| x in s.negotiations && s.negotiations[x].ciaddr == a && s.negotiations[x].hwaddr == hw;
        assert Pooled(c, s, x);
      }
    }
  }

  lemma LeasesKept(c: Config, s: State, t: State)
    requires Kept(c, s) && SameLeases(s, t) && t.arp == s.arp && t.poolNext == s.poolNext
    ensures Kept(c, t)
  {
    hide Config.InPool;
    assert forall x :: x in t.negotiations <==> x in s.negotiations;
    assert forall x :: Pooled(c, t, x) <==> Pooled(c, s, x);
    forall a | a in t.arp && c.InPool(a)
      ensures Given(t, a, t.arp[a])
    {
      GivenStays(s, t, a, s.arp[a]);
    }
  }

  lemma EnteredKept(c: Config, s: State, x: Input)
    requires Kept(c, s) && Possible(s, x) && Orderly(c, s, x) && s.poolNext + 1 < 0x1_0000_0000
    ensures Kept(c, Entered(s, x))
  {
    hide Listed, Issued, Added, LookedUp, Accepted, Given, Config.InPool;
    match x
    case Learned(a, hw) => LearnedKept(c, s, a, hw);
    case FromClient(p, found, memory) =>
      if Looks(s, p) {
        AddedIssued(c, s, p, found, memory.entry);
        AddedListed(c, s, p, found, memory.entry);
      }
  }

  lemma StepKept(c: Config, s: State, x: Input)
    requires Kept(c, s) && Possible(s, x) && Orderly(c, s, x) && s.poolNext + 1 < 0x1_0000_0000
    ensures Kept(c, Step(c, s, x))
  {
    hide Kept, Step, Possible, Orderly, SameLeases, Output, Entered;
    EnteredKept(c, s, x);
    StepInMemory(s, x);
    StepEffect(c, s, x);
    LeasesKept(c, Entered(s, x), Step(c, s, x));
  }

  lemma StepInMemory(s: State, x: Input)
    requires Possible(s, x)
    ensures x.FromClient? ==> x.p.InMemory()
  {
    hide Looks, LookedUp;
  }

  /** The allocation on every undisturbed run. */
  lemma {:induction false} RunKept(c: Config, states: seq<State>, xs: seq<Input>, n: nat)
    requires IsRun(c, states, xs) && Undisturbed(c, states, xs, n)
    ensures Kept(c, states[n])
  {
    hide Step, Orderly, Possible;
    if n == 0 {
      StartKept(c, states);
    } else {
      RunKept(c, states, xs, n - 1);
      hide Kept;
      RunNext(c, states, xs, n - 1);
      StepKept(c, states[n - 1], xs[n - 1]);
    }
  }

  lemma StartKept(c: Config, states: seq<State>)
    requires states != [] && (exists arp :: states[0] == Start(c, arp)) && Outside(c, states[0].arp)
    ensures Kept(c, states[0])
  {
  }

  // Clients with two addresses.

  /** Two transactions with addresses of the pool have the same address exactly when they have the
      same client. */
  predicate Paired(c: Config, s: State) {
    forall x, y :: Pooled(c, s, x) && Pooled(c, s, y) ==>
      (s.negotiations[x].ciaddr == s.negotiations[y].ciaddr <==> s.negotiations[x].hwaddr == s.negotiations[y].hwaddr)
  }

  /** A message for which the server takes a new address out of the pool for the client. */
  predicate Allocates(c: Config, s: State, x: Input, hw: Mac) {
    && x.FromClient? && x.p.hwaddr == hw
    && Looks(s, x.p) && x.found.NotFound? && c.InPool(s.poolNext)
  }

  /** The client has an address of the pool. */
  predicate Served(c: Config, s: State, hw: Mac) {
    exists x :: Pooled(c, s, x) && s.negotiations[x].hwaddr == hw
  }

  lemma LeasesPaired(c: Config, s: State, t: State)
    requires SameLeases(s, t)
    ensures Paired(c, t) <==> Paired(c, s)
    ensures forall hw :: Served(c, t, hw) <==> Served(c, s, hw)
  {
    hide Config.InPool;
    assert forall x :: x in t.negotiations <==> x in s.negotiations;
    assert forall x :: Pooled(c, t, x) <==> Pooled(c, s, x);
  }

  /** A new transaction unpairs exactly when the client is served and gets a new address. */
  lemma AddedPairedIff(c: Config, s: State, p: Packet, found: Found, entry: bool)
    requires Kept(c, s) && Paired(c, s) && LookedUp(s.arp, p.hwaddr, found) && p.xid !in s.negotiations
    ensures Paired(c, Added(s, p, found, entry)) <==>
      !(found.NotFound? && c.InPool(s.poolNext) && Served(c, s, p.hwaddr))
  {
    hide Config.InPool, NewEntry, Listed, LookedUp, Given, Served;
    var t, a := Added(s, p, found, entry), Chosen(s, found);
    assert t.negotiations == s.negotiations[p.xid := New(s, p, found)];
    assert t.negotiations[p.xid].ciaddr == a && t.negotiations[p.xid].hwaddr == p.hwaddr;
    hide Added, New;
    assert forall x :: Pooled(c, s, x) ==> Pooled(c, t, x) && t.negotiations[x] == s.negotiations[x];
    assert forall x :: Pooled(c, t, x) && x != p.xid ==> Pooled(c, s, x);
    if !c.InPool(a) {
    } else if found.NotFound? {
      ChosenAddress(c, s, p, found);
      ServedMeans(c, s, p.hwaddr);
      if Served(c, s, p.hwaddr) {
        var x :| Pooled(c, s, x) && s.negotiations[x].hwaddr == p.hwaddr;
        assert Pooled(c, t, x) && Pooled(c, t, p.xid);
      }
    } else {
      ChosenAddress(c, s, p, found);
      GivenPooled(c, s, a, p.hwaddr);
    }
  }

  lemma ServedMeans(c: Config, s: State, hw: Mac)
    ensures Served(c, s, hw) <==> exists x :: Pooled(c, s, x) && s.negotiations[x].hwaddr == hw
  {
  }

  lemma GivenPooled(c: Config, s: State, a: Word32, hw: Mac)
    requires Given(s, a, hw) && c.InPool(a)
    ensures exists x :: Pooled(c, s, x) && s.negotiations[x].ciaddr == a && s.negotiations[x].hwaddr == hw
  {
    var x :| x in s.negotiations && s.negotiations[x].ciaddr == a && s.negotiations[x].hwaddr == hw;
    assert Pooled(c, s, x);
  }

  lemma StepPairedIff(c: Config, s: State, x: Input)
    requires Kept(c, s) && Paired(c, s) && Possible(s, x)
    ensures Paired(c, Step(c, s, x)) <==> !(x.FromClient? && Allocates(c, s, x, x.p.hwaddr) && Served(c, s, x.p.hwaddr))
  {
    hide Step, Paired, Served, Output, Kept, Config.InPool, Accepted, LookedUp, Added;
    StepEffect(c, s, x);
    LeasesPaired(c, Entered(s, x), Step(c, s, x));
    if x.FromClient? && Looks(s, x.p) {
      AddedPairedIff(c, s, x.p, x.found, x.memory.entry);
    } else if x.Learned? {
      TablePaired(c, s, x.a, x.hw);
    }
  }

  lemma TablePaired(c: Config, s: State, a: Word32, hw: Mac)
    ensures Paired(c, s.(arp := s.arp[a := hw])) <==> Paired(c, s)
  {
    hide Config.InPool;
    assert forall x :: Pooled(c, s.(arp := s.arp[a := hw]), x) <==> Pooled(c, s, x);
  }

  /** Addresses of the pool do not leave the table. */
  lemma StepEntry(c: Config, s: State, x: Input, a: Word32)
    requires Kept(c, s) && Possible(s, x) && Orderly(c, s, x) && a in s.arp && c.InPool(a)
    ensures a in Step(c, s, x).arp && Step(c, s, x).arp[a] == s.arp[a]
  {
    hide Config.InPool, Step, Output, SameLeases, Accepted, LookedUp;
    StepEffect(c, s, x);
    if x.Learned? && x.a == a {
      var y :| y in s.negotiations && s.negotiations[y].ciaddr == a && s.negotiations[y].hwaddr == x.hw;
      var z :| z in s.negotiations && s.negotiations[z].ciaddr == a && s.negotiations[z].hwaddr == s.arp[a];
      assert Pooled(c, s, y) && Pooled(c, s, z);
    }
  }

  lemma {:induction false} RunEntry(c: Config, states: seq<State>, xs: seq<Input>, j: nat, k: nat, a: Word32)
    requires IsRun(c, states, xs) && Undisturbed(c, states, xs, k) && j <= k
    requires a in states[j].arp && c.InPool(a)
    ensures a in states[k].arp && states[k].arp[a] == states[j].arp[a]
    decreases k
  {
    hide Step, Possible, Orderly, Kept, Config.InPool;
    if j < k {
      RunEntry(c, states, xs, j, k - 1, a);
      RunKept(c, states, xs, k - 1);
      RunNext(c, states, xs, k - 1);
      StepEntry(c, states[k - 1], xs[k - 1], a);
    }
  }

  /** Who is served after a step: who was, and the client for whom an address was taken. */
  lemma StepServedIff(c: Config, s: State, x: Input, hw: Mac)
    requires Kept(c, s) && Possible(s, x)
    ensures Served(c, Step(c, s, x), hw) <==> Served(c, s, hw) || Allocates(c, s, x, hw)
  {
    hide Step, Served, Output, Kept, Config.InPool, Accepted, LookedUp, Added;
    StepEffect(c, s, x);
    LeasesPaired(c, Entered(s, x), Step(c, s, x));
    if x.FromClient? && Looks(s, x.p) {
      AddedServedIff(c, s, x.p, x.found, x.memory.entry, hw);
    } else if x.Learned? {
      TableServed(c, s, x.a, x.hw, hw);
    }
  }

  lemma TableServed(c: Config, s: State, a: Word32, hw: Mac, other: Mac)
    ensures Served(c, s.(arp := s.arp[a := hw]), other) <==> Served(c, s, other)
  {
    hide Config.InPool;
    assert forall x :: Pooled(c, s.(arp := s.arp[a := hw]), x) <==> Pooled(c, s, x);
  }

  lemma AddedServedIff(c: Config, s: State, p: Packet, found: Found, entry: bool, hw: Mac)
    requires Kept(c, s) && LookedUp(s.arp, p.hwaddr, found) && p.xid !in s.negotiations
    ensures Served(c, Added(s, p, found, entry), hw) <==>
      Served(c, s, hw) || (found.NotFound? && c.InPool(s.poolNext) && p.hwaddr == hw)
  {
    hide Config.InPool, NewEntry, Listed, LookedUp, Given, Issued;
    var t, a := Added(s, p, found, entry), Chosen(s, found);
    assert t.negotiations == s.negotiations[p.xid := New(s, p, found)];
    assert t.negotiations[p.xid].ciaddr == a && t.negotiations[p.xid].hwaddr == p.hwaddr;
    hide Added, New;
    assert forall x :: Pooled(c, s, x) ==> Pooled(c, t, x) && t.negotiations[x] == s.negotiations[x];
    assert forall x :: Pooled(c, t, x) && x != p.xid ==> Pooled(c, s, x);
    if c.InPool(a) {
      assert Pooled(c, t, p.xid);
      ChosenAddress(c, s, p, found);
      if found.Found? {
        GivenPooled(c, s, a, p.hwaddr);
      }
    } else {
      assert !Pooled(c, t, p.xid);
    }
  }

  /** A client is served exactly when an address was taken out of the pool for it. */
  lemma {:induction false} ServedIff(c: Config, states: seq<State>, xs: seq<Input>, k: nat, hw: Mac)
    requires IsRun(c, states, xs) && Undisturbed(c, states, xs, k)
    ensures Served(c, states[k], hw) <==> exists j :: 0 <= j < k && Allocates(c, states[j], xs[j], hw)
  {
    hide Step, Possible, Orderly, Kept, Served, Allocates;
    if k == 0 {
      StartServed(c, states, hw);
    } else {
      ServedIff(c, states, xs, k - 1, hw);
      RunKept(c, states, xs, k - 1);
      RunNext(c, states, xs, k - 1);
      StepServedIff(c, states[k - 1], xs[k - 1], hw);
    }
  }

  lemma StartServed(c: Config, states: seq<State>, hw: Mac)
    requires states != [] && exists arp :: states[0] == Start(c, arp)
    ensures !Served(c, states[0], hw)
  {
  }

  // ----- Main results -----

  /** On every run, whatever the table holds and learns, every reply gives an address of the pool,
      the one of its transaction. */
  lemma RepliesInPool(c: Config, states: seq<State>, xs: seq<Input>, n: nat, i: nat)
    requires IsRun(c, states, xs) && n <= |xs| && i < |states[n].sent|
    ensures var r := states[n].sent[i];
      && c.poolStart <= r.yiaddr <= c.poolEnd
      && r.xid in states[n].negotiations && states[n].negotiations[r.xid].ciaddr == r.yiaddr
  {
    hide Step, Possible;
    RunRecorded(c, states, xs, n);
  }

  /** The k-th message is one of a client that has no transaction and is not in the table. */
  predicate TakesAddress(states: seq<State>, xs: seq<Input>, k: nat)
    requires k < |xs| && k < |states|
  {
    && xs[k].FromClient? && Accepted(xs[k].p.mem, xs[k].p.length)
    && xs[k].p.xid !in states[k].negotiations
    && forall a :: a in states[k].arp ==> states[k].arp[a] != xs[k].p.hwaddr
  }

  /** How often an address was taken out of the pool by the first n inputs. */
  function Takings(states: seq<State>, xs: seq<Input>, n: nat): nat
    requires n <= |xs| && n <= |states|
  {
    if n == 0 then 0 else Takings(states, xs, n - 1) + if TakesAddress(states, xs, n - 1) then 1 else 0
  }

  lemma StepTakes(c: Config, states: seq<State>, xs: seq<Input>, k: nat)
    requires k < |xs| && k < |states| && Possible(states[k], xs[k])
    ensures var s, t := states[k], Step(c, states[k], xs[k]);
      if TakesAddress(states, xs, k)
      then t.poolNext == Next(s.poolNext)
        && xs[k].p.xid in t.negotiations && t.negotiations[xs[k].p.xid].ciaddr == s.poolNext
      else t.poolNext == s.poolNext
  {
    hide Step, Output, Accepted, NewEntry, Next;
    StepEffect(c, states[k], xs[k]);
  }

  /** On every run the addresses of the pool are taken one after the other, from its start and modulo
      2^32: the n-th is its start plus n, and the next one is its start plus their number. */
  lemma {:induction false} TakenInOrder(c: Config, states: seq<State>, xs: seq<Input>, n: nat)
    requires IsRun(c, states, xs) && n <= |xs|
    ensures states[n].poolNext == (c.poolStart + Takings(states, xs, n)) % 0x1_0000_0000
    ensures 0 < n && TakesAddress(states, xs, n - 1) ==>
      var xid := xs[n - 1].p.xid;
      && xid in states[n].negotiations
      && states[n].negotiations[xid].ciaddr == (c.poolStart + Takings(states, xs, n - 1)) % 0x1_0000_0000
  {
    hide Step, Possible, TakesAddress;
    if n > 0 {
      TakenInOrder(c, states, xs, n - 1);
      RunNext(c, states, xs, n - 1);
      StepTakes(c, states, xs, n - 1);
    }
  }

  /** What an acceptable message is answered with, and the phase of its transaction then: an offer for
      a discovery, an acknowledgement for a request that follows an offer, or that a bound client
      makes in which it names its address and neither a requested one nor a server; nothing else,
      and nothing for an address outside the pool. */
  lemma AnswersIff(c: Config, s: State, x: Input)
    requires x.FromClient? && x.p.InMemory() && Accepted(x.p.mem, x.p.length)
    ensures var s1, t, r := Entered(s, x), Step(c, s, x), RequestIn(x.p.mem);
      x.p.xid in s1.negotiations && (
      var n := s1.negotiations[x.p.xid];
      var inPool := c.poolStart <= n.ciaddr <= c.poolEnd;
      var offers := inPool && r.msgtype == 1;
      var goesOn := n.phase == Bound && r.reqip == 0 && r.serverId == 0 && x.p.ciaddr == n.ciaddr;
      var confirms := inPool && r.msgtype == 3 && (n.phase == Offer || goesOn);
      && t.negotiations ==
           s1.negotiations[x.p.xid := n.(phase := if offers then Offer else if confirms then Bound else n.phase)]
      && (if x.memory.reply && (offers || confirms)
          then |t.sent| == |s.sent| + 1 && t.sent[..|s.sent|] == s.sent
            && t.sent[|s.sent|].msgtype == (if offers then 2 else 5)
            && t.sent[|s.sent|].xid == x.p.xid && t.sent[|s.sent|].yiaddr == n.ciaddr
          else t.sent == s.sent))
  {
    hide RequestIn, Accepted, Added, Config.Offers;
    OpenedEffect(s, x.p, x.found, x.memory.entry);
  }

  /** On every run, whatever the table holds and learns, every acknowledgement follows an offer of the
      same address in the same transaction, if no offer was lost for want of memory. */
  lemma AckFollowsOffer(c: Config, states: seq<State>, xs: seq<Input>, n: nat, j: nat)
    requires IsRun(c, states, xs) && n <= |xs|
    requires forall k :: 0 <= k < n ==> !LosesOffer(xs[k])
    requires j < |states[n].sent| && states[n].sent[j].msgtype == MSG_ACK
    ensures var sent := states[n].sent; OfferedBefore(sent, j, sent[j].xid, sent[j].yiaddr)
  {
    hide Step, Possible, LosesOffer, OfferedBefore;
    RunOrdered(c, states, xs, n);
  }

  /** In general it does throughout a run exactly when every request that is acknowledged comes after
      a discovery of the same transaction for whose offer there was memory. */
  lemma {:induction false} AckFollowsOfferIff(c: Config, states: seq<State>, xs: seq<Input>, n: nat)
    requires IsRun(c, states, xs) && n <= |xs|
    ensures (forall m :: 0 <= m <= n ==> AcksFollow(states[m].sent))
       <==> (forall k :: 0 <= k < n && Confirms(c, states[k], xs[k]) ==> OfferedBy(xs, k, xs[k].p.xid))
  {
    hide Step, Possible, Confirms, OfferedBy, AcksFollow;
    if n == 0 {
      StartAcks(c, states);
    } else {
      AckFollowsOfferIff(c, states, xs, n - 1);
      RunNext(c, states, xs, n - 1);
      if AcksFollow(states[n - 1].sent) {
        RunAcksIff(c, states, xs, n - 1);
      }
    }
  }

  lemma RunAcksIff(c: Config, states: seq<State>, xs: seq<Input>, k: nat)
    requires IsRun(c, states, xs) && k < |xs| && AcksFollow(states[k].sent)
    ensures AcksFollow(states[k + 1].sent) <==>
      (Confirms(c, states[k], xs[k]) ==> OfferedBy(xs, k, xs[k].p.xid))
  {
    hide Step, OfferedBy, Output, AcksFollow, OfferedBefore;
    var s, x := states[k], xs[k];
    RunNext(c, states, xs, k);
    StepEffect(c, s, x);
    ConfirmsOutput(c, s, x);
    AcksFollowIff(s.sent, Output(c, s, x));
    if Confirms(c, s, x) {
      OfferedIff(c, states, xs, k, x.p.xid);
    }
  }

  lemma StartAcks(c: Config, states: seq<State>)
    requires states != [] && exists arp :: states[0] == Start(c, arp)
    ensures AcksFollow(states[0].sent) && Paired(c, states[0])
  {
  }

  /** On every undisturbed run, whatever the memory, replies that give the same address go to the same
      client. */
  lemma OneClientEach(c: Config, states: seq<State>, xs: seq<Input>, n: nat, i: nat, j: nat)
    requires IsRun(c, states, xs) && Undisturbed(c, states, xs, n)
    requires i < |states[n].sent| && j < |states[n].sent|
    ensures var sent := states[n].sent; sent[i].yiaddr == sent[j].yiaddr ==> sent[i].hwaddr == sent[j].hwaddr
  {
    hide Step, Possible, Config.InPool, Orderly, Listed;
    RunKept(c, states, xs, n);
    RunRecorded(c, states, xs, n);
    var s := states[n];
    assert Records(c, s, s.sent[i]) && Records(c, s, s.sent[j]);
    assert Pooled(c, s, s.sent[i].xid) && Pooled(c, s, s.sent[j].xid);
  }

  /** On every undisturbed run, whatever the memory, addresses of the pool and clients are paired
      throughout exactly when the server never takes an address out of the pool for a client for
      which it did so before. */
  lemma {:induction false} OneAddressEachIff(c: Config, states: seq<State>, xs: seq<Input>, n: nat)
    requires IsRun(c, states, xs) && Undisturbed(c, states, xs, n)
    ensures (forall m :: 0 <= m <= n ==> Paired(c, states[m]))
       <==> (forall j, k, hw :: 0 <= j < k < n && Allocates(c, states[j], xs[j], hw) ==>
               !Allocates(c, states[k], xs[k], hw))
  {
    hide Step, Possible, Allocates, Paired, Kept, Orderly, Served;
    if n == 0 {
      StartAcks(c, states);
    } else {
      OneAddressEachIff(c, states, xs, n - 1);
      var s, x := states[n - 1], xs[n - 1];
      RunKept(c, states, xs, n - 1);
      RunNext(c, states, xs, n - 1);
      if Paired(c, s) {
        StepPairedIff(c, s, x);
      }
      forall hw | Allocates(c, s, x, hw)
        ensures x.FromClient? && x.p.hwaddr == hw
      {
        AllocatesFromClient(c, s, x, hw);
      }
      if x.FromClient? {
        ServedIff(c, states, xs, n - 1, x.p.hwaddr);
      }
    }
  }

  lemma AllocatesFromClient(c: Config, s: State, x: Input, hw: Mac)
    requires Allocates(c, s, x, hw)
    ensures x.FromClient? && x.p.hwaddr == hw
  {
    hide Looks, Config.InPool;
  }

  /** It does so a second time only for a client whose entry in the table was lost for want of memory. */
  lemma EntryLost(c: Config, states: seq<State>, xs: seq<Input>, j: nat, k: nat, hw: Mac)
    requires IsRun(c, states, xs) && Undisturbed(c, states, xs, k + 1) && j < k < |xs|
    requires Allocates(c, states[j], xs[j], hw) && Allocates(c, states[k], xs[k], hw)
    ensures !xs[j].memory.entry
  {
    hide Step, Output, Orderly, Config.InPool, SameLeases, Accepted;
    var s, x := states[j], xs[j];
    RunNext(c, states, xs, j);
    RunNext(c, states, xs, k);
    RunKept(c, states, xs, j);
    StepEffect(c, s, x);
    if x.memory.entry {
      var a := s.poolNext;
      assert a in states[j + 1].arp && states[j + 1].arp[a] == x.p.hwaddr;
      RunEntry(c, states, xs, j + 1, k, a);
    }
  }

  /** Then replies give the same address exactly when they go to the same client. */
  lemma PairedReplies(c: Config, states: seq<State>, xs: seq<Input>, n: nat, i: nat, j: nat)
    requires IsRun(c, states, xs) && n <= |xs| && Paired(c, states[n])
    requires i < |states[n].sent| && j < |states[n].sent|
    ensures var sent := states[n].sent; sent[i].yiaddr == sent[j].yiaddr <==> sent[i].hwaddr == sent[j].hwaddr
  {
    hide Step, Possible, Config.InPool;
    RunRecorded(c, states, xs, n);
    var s := states[n];
    assert Records(c, s, s.sent[i]) && Records(c, s, s.sent[j]);
    assert Pooled(c, s, s.sent[i].xid) && Pooled(c, s, s.sent[j].xid);
  }

  /** So it is on every undisturbed run on which the table gets the entries of new clients. */
  lemma OneAddressEach(c: Config, states: seq<State>, xs: seq<Input>, n: nat, i: nat, j: nat)
    requires IsRun(c, states, xs) && Undisturbed(c, states, xs, n)
    requires forall k, hw :: 0 <= k < n && Allocates(c, states[k], xs[k], hw) ==> xs[k].memory.entry
    requires i < |states[n].sent| && j < |states[n].sent|
    ensures var sent := states[n].sent; sent[i].yiaddr == sent[j].yiaddr <==> sent[i].hwaddr == sent[j].hwaddr
  {
    hide Step, Possible, Allocates, Paired, Orderly;
    forall j, k, hw | 0 <= j < k < n && Allocates(c, states[j], xs[j], hw)
      ensures !Allocates(c, states[k], xs[k], hw)
    {
      if Allocates(c, states[k], xs[k], hw) {
        EntryLost(c, states, xs, j, k, hw);
      }
    }
    OneAddressEachIff(c, states, xs, n);
    PairedReplies(c, states, xs, n, i, j);
  }

  // ----- Exchanges with a client -----

  /** A message with the options that a client writes. */
  predicate Carries(p: Packet, options: seq<Octet>, msgtype: Octet, requesting: bool, address: Word32, server: Word32,
                    size: Word16)
  {
    && (msgtype == MSG_DISCOVER || msgtype == MSG_REQUEST)
    && Filled(options, Layout(ClientItems(msgtype, requesting, address, server, size)) + [OPT_END],
              ClientLength(msgtype))
    && p.length == |options| && options <= p.mem && |options| + 3 <= |p.mem|
  }

  lemma CarriesRead(p: Packet, options: seq<Octet>, msgtype: Octet, requesting: bool, address: Word32, server: Word32,
                    size: Word16)
    requires Carries(p, options, msgtype, requesting, address, server, size)
    ensures Accepted(p.mem, p.length) && Readable(p.mem)
    ensures RequestIn(p.mem) == Asked(msgtype, requesting, address, server)
  {
    var behind := p.mem[|options|..];
    assert p.mem == options + behind;
    hide Layout, Filled, Asked;
    RequestUnderstood(msgtype, requesting, address, server, size, options, behind);
  }

  /** A reply, if there was memory for it. */
  function If(memory: bool, r: Reply): seq<Reply> {
    if memory then [r] else []
  }

  /** From any state, a discovery is answered by an offer, if the address is one of the pool. */
  lemma Discovery(c: Config, s: State, p: Packet, found: Found, memory: Memory, o: seq<Octet>,
                  address: Word32, server: Word32, size: Word16)
    requires p.InMemory() && Carries(p, o, MSG_DISCOVER, false, address, server, size)
    ensures var t := Received(c, s, p, found, memory);
      p.xid in t.negotiations && (
      var n := t.negotiations[p.xid];
      && (p.xid !in s.negotiations ==> n.ciaddr == Chosen(s, found) && n.hwaddr == p.hwaddr)
      && (if c.InPool(n.ciaddr)
          then t.sent == s.sent + If(memory.reply, ReplyTo(c, p.xid, n, MSG_OFFER)) && n.phase == Offer
          else t.sent == s.sent))
  {
    hide Carries, Accepted, RequestIn, Config.InPool, Config.Offers, BoundValid, NewEntry;
    CarriesRead(p, o, MSG_DISCOVER, false, address, server, size);
  }

  /** The request that answers the offer is acknowledged, whoever it names. */
  lemma Confirmation(c: Config, s: State, p: Packet, found: Found, memory: Memory, o: seq<Octet>,
                     address: Word32, server: Word32, size: Word16)
    requires p.InMemory() && Carries(p, o, MSG_REQUEST, true, address, server, size) && p.xid in s.negotiations
    requires c.InPool(s.negotiations[p.xid].ciaddr) ==> s.negotiations[p.xid].phase == Offer
    ensures var t := Received(c, s, p, found, memory);
      var n := s.negotiations[p.xid];
      if c.InPool(n.ciaddr)
      then t.sent == s.sent + If(memory.reply, ReplyTo(c, p.xid, n, MSG_ACK))
        && t.negotiations == s.negotiations[p.xid := n.(phase := Bound)]
      else t == s
  {
    CarriesRead(p, o, MSG_REQUEST, true, address, server, size);
    hide Carries, Accepted, RequestIn, Config.InPool;
  }

  /** From any state, a discovery and the request that answers its offer are answered by one offer
      and one acknowledgement of the same address, as far as there is memory for them, if that is
      an address of the pool. */
  lemma Exchange(c: Config, s: State, s1: State, s2: State, p1: Packet, p2: Packet, found1: Found, found2: Found,
                 memory1: Memory, memory2: Memory, o1: seq<Octet>, o2: seq<Octet>,
                 address: Word32, server: Word32, size: Word16)
    requires p1.InMemory() && p2.InMemory() && p1.xid == p2.xid
    requires Carries(p1, o1, MSG_DISCOVER, false, address, server, size)
    requires Carries(p2, o2, MSG_REQUEST, true, address, server, size)
    requires s1 == Received(c, s, p1, found1, memory1) && s2 == Received(c, s1, p2, found2, memory2)
    ensures p1.xid in s1.negotiations && p1.xid in s2.negotiations && (
      var n := s1.negotiations[p1.xid];
      if c.InPool(n.ciaddr)
      then
        && s2.sent == s.sent + If(memory1.reply, ReplyTo(c, p1.xid, n, MSG_OFFER))
                             + If(memory2.reply, ReplyTo(c, p1.xid, n, MSG_ACK))
        && s2.negotiations[p1.xid] == n.(phase := Bound)
      else s2.sent == s.sent)
  {
    hide *;
    Discovery(c, s, p1, found1, memory1, o1, address, server, size);
    Confirmation(c, s1, p2, found2, memory2, o2, address, server, size);
  }

  /** A bound client that asks to go on is acknowledged exactly when it names its address. */
  lemma Renewal(c: Config, s: State, p: Packet, found: Found, memory: Memory, o: seq<Octet>,
                address: Word32, server: Word32, size: Word16)
    requires p.InMemory() && p.xid in s.negotiations && s.negotiations[p.xid].phase == Bound
    requires c.InPool(s.negotiations[p.xid].ciaddr)
    requires Carries(p, o, MSG_REQUEST, false, address, server, size)
    ensures var n := s.negotiations[p.xid];
      Received(c, s, p, found, memory)
      == if p.ciaddr == n.ciaddr then Replied(c, s, p.xid, MSG_ACK, memory.reply) else s
  {
    CarriesRead(p, o, MSG_REQUEST, false, address, server, size);
    hide Carries, Accepted, RequestIn, Replied;
  }

  /** What the client learns from a reply of the server. */
  lemma ReplyTeaches(c: Config, xid: Word32, n: Negotiation, msgtype: Octet, known: Params, behind: seq<Octet>)
    requires 3 <= |behind|
    ensures var options := ReplyTo(c, xid, n, msgtype).options;
      && Accepted(options + behind, |options|)
      && Readable(options + behind)
      && LearnAll(known, SeenOf(options + behind)) == Told(known, msgtype, c.Offers())
  {
    hide Layout, Told, Config.Offers;
    ReplyUnderstood(known, msgtype, c.Offers(), ReplyTo(c, xid, n, msgtype).options, behind);
  }

  // ----- Inputs that show the limits -----

  /** An offer that is lost for want of memory, and the acknowledgement that comes all the same. */
  lemma AckWithoutOffer(c: Config, p1: Packet, p2: Packet, o1: seq<Octet>, o2: seq<Octet>,
                        address: Word32, server: Word32, size: Word16)
    requires p1.InMemory() && p2.InMemory() && p1.xid == p2.xid && c.InPool(c.poolStart)
    requires Carries(p1, o1, MSG_DISCOVER, false, address, server, size)
    requires Carries(p2, o2, MSG_REQUEST, true, address, server, size)
    ensures var s1 := Received(c, Start(c, map[]), p1, NotFound, Memory(true, false));
      var sent := Received(c, s1, p2, NotFound, Memory(true, true)).sent;
      |sent| == 1 && sent[0].msgtype == MSG_ACK
  {
    hide Carries, Received;
    var s0 := Start(c, map[]);
    var s1 := Received(c, s0, p1, NotFound, Memory(true, false));
    var s2 := Received(c, s1, p2, NotFound, Memory(true, true));
    Discovery(c, s0, p1, NotFound, Memory(true, false), o1, address, server, size);
    Exchange(c, s0, s1, s2, p1, p2, NotFound, NotFound, Memory(true, false), Memory(true, true), o1, o2,
             address, server, size);
  }

  /** A host that has the first address of the pool without having got it from the server: the
      address is given to the first client, and to that host as well. */
  lemma SharedAddress(c: Config, s0: State, s1: State, s2: State, p1: Packet, p2: Packet,
                      o1: seq<Octet>, o2: seq<Octet>, address: Word32, server: Word32, size: Word16)
    requires p1.InMemory() && p2.InMemory() && p1.xid != p2.xid && p1.hwaddr != p2.hwaddr && c.InPool(c.poolStart)
    requires Carries(p1, o1, MSG_DISCOVER, false, address, server, size)
    requires Carries(p2, o2, MSG_DISCOVER, false, address, server, size)
    requires s0 == Start(c, map[c.poolStart := p2.hwaddr])
    requires s1 == Received(c, s0, p1, NotFound, Memory(true, true))
    requires s2 == Received(c, s1, p2, Found(c.poolStart), Memory(true, true))
    ensures LookedUp(s0.arp, p1.hwaddr, NotFound) && LookedUp(s1.arp, p2.hwaddr, Found(c.poolStart))
    ensures |s2.sent| == 2 && s2.sent[0].yiaddr == s2.sent[1].yiaddr && s2.sent[0].hwaddr != s2.sent[1].hwaddr
  {
    hide Carries, Received, Output, Accepted, Config.Offers, SameLeases;
    Discovery(c, s0, p1, NotFound, Memory(true, true), o1, address, server, size);
    TableAfter(c, s0, p1);
    Discovery(c, s1, p2, Found(c.poolStart), Memory(true, true), o2, address, server, size);
    OnlyTransaction(c, s0, p1, Memory(true, true));
  }

  /** The address that the server gives out stays with the host that has it. */
  lemma TableAfter(c: Config, s: State, p: Packet)
    requires p.InMemory() && s.poolNext in s.arp
    ensures Received(c, s, p, NotFound, Memory(true, true)).arp == s.arp
  {
    hide Received, Output, Accepted;
    StepEffect(c, s, FromClient(p, NotFound, Memory(true, true)));
    ReceivedIsStep(c, s, p, Memory(true, true));
  }

  lemma OnlyTransaction(c: Config, s: State, p: Packet, memory: Memory)
    requires p.InMemory()
    ensures Received(c, s, p, NotFound, memory).negotiations.Keys <= s.negotiations.Keys + {p.xid}
  {
    hide Received, Output, Accepted;
    StepEffect(c, s, FromClient(p, NotFound, memory));
    ReceivedIsStep(c, s, p, memory);
  }

  lemma ReceivedIsStep(c: Config, s: State, p: Packet, memory: Memory)
    requires p.InMemory()
    ensures Step(c, s, FromClient(p, NotFound, memory)) == Received(c, s, p, NotFound, memory)
  {
    hide Received;
  }

  /** A client whose entry in the table is lost for want of memory gets another address the next time. */
  lemma TwoAddresses(c: Config, s0: State, s1: State, s2: State, p1: Packet, p2: Packet,
                     o1: seq<Octet>, o2: seq<Octet>, address: Word32, server: Word32, size: Word16)
    requires p1.InMemory() && p2.InMemory() && p1.xid != p2.xid && p1.hwaddr == p2.hwaddr
    requires c.poolStart < c.poolEnd
    requires Carries(p1, o1, MSG_DISCOVER, false, address, server, size)
    requires Carries(p2, o2, MSG_DISCOVER, false, address, server, size)
    requires s0 == Start(c, map[])
    requires s1 == Received(c, s0, p1, NotFound, Memory(false, true))
    requires s2 == Received(c, s1, p2, NotFound, Memory(false, true))
    ensures LookedUp(s0.arp, p1.hwaddr, NotFound) && LookedUp(s1.arp, p2.hwaddr, NotFound)
    ensures |s2.sent| == 2 && s2.sent[0].yiaddr != s2.sent[1].yiaddr && s2.sent[0].hwaddr == s2.sent[1].hwaddr
  {
    hide Carries, Received, Output, Accepted, Config.Offers, SameLeases;
    var memory := Memory(false, true);
    Discovery(c, s0, p1, NotFound, memory, o1, address, server, size);
    ReceivedIsStep(c, s0, p1, memory);
    StepEffect(c, s0, FromClient(p1, NotFound, memory));
    CarriesRead(p1, o1, MSG_DISCOVER, false, address, server, size);
    OnlyTransaction(c, s0, p1, memory);
    Discovery(c, s1, p2, NotFound, memory, o2, address, server, size);
  }
}
