/** What DHCP client and server write into their options, and what they read out of them. */
module DhcpMessages {
  import opened Octets
  import opened DhcpOptions

  const MSG_DISCOVER: Octet := 1
  const MSG_OFFER: Octet := 2
  const MSG_REQUEST: Octet := 3
  const MSG_ACK: Octet := 5

  // ----- Reading options -----

  /** The options of which the first four octets are read as a word. */
  const WORDS: set<Octet> := {
    OPT_NETMASK, OPT_ROUTER, OPT_DNS, OPT_REQIP, OPT_LEASETIME, OPT_SERVERID, OPT_RENEWALTIME, OPT_REBINDINGTIME
  }

  const NAMES: set<Octet> := {OPT_HOSTNAME, OPT_DOMAINNAME}

  /** The room for a name. */
  const NAME_ROOM: nat := 64

  /** As much of a name as there is room for. */
  function NameLength(len: nat): nat {
    if len < NAME_ROOM then len else NAME_ROOM
  }

  /** What there is to read at an option. */
  datatype Seen =
    | Nothing
    | Type(t: Octet)
    | Field(code: Octet, len: Octet, w: Word32)
    | Name(kind: Octet, text: seq<Octet>)

  predicate Readable(mem: seq<Octet>) {
    EndOf(mem).End? && EndOf(mem).at + 4 <= |mem|
  }

  function View(mem: seq<Octet>): Seen
    requires Readable(mem)
  {
    if mem[0] == OPT_MSGTYPE then Type(mem[2])
    else if mem[0] in WORDS then Field(mem[0], mem[1], Word(mem[2..6]))
    else if mem[0] in NAMES then Name(mem[0], mem[2..2 + NameLength(mem[1])])
    else Nothing
  }

  /** What a walk over the options sees. */
  function SeenOf(mem: seq<Octet>): seq<Seen>
    requires Readable(mem)
    decreases |mem|
  {
    if mem[0] == OPT_END then [] else [View(mem)] + SeenOf(mem[Span(mem)..])
  }

  /** An option with at least the data that is read. */
  predicate Proper(item: Item) {
    item.Fits() && (item.Tlv? ==>
      (item.code == OPT_MSGTYPE ==> 1 <= |item.data|) && (item.code in WORDS ==> 4 <= |item.data|))
  }

  predicate AllProper(items: seq<Item>) {
    forall i :: 0 <= i < |items| ==> Proper(items[i])
  }

  function ViewItem(item: Item): Seen
    requires Proper(item)
  {
    match item
    case Pad => Nothing
    case Tlv(c, d) =>
      if c == OPT_MSGTYPE then Type(d[0])
      else if c in WORDS then Field(c, |d|, Word(d[..4]))
      else if c in NAMES then Name(c, d[..NameLength(|d|)])
      else Nothing
  }

  function Views(items: seq<Item>): seq<Seen>
    requires AllProper(items)
  {
    if items == [] then [] else [ViewItem(items[0])] + Views(items[1..])
  }

  lemma ViewFront(mem: seq<Octet>, item: Item)
    requires Proper(item) && item.Octets() <= mem && Readable(mem)
    ensures View(mem) == ViewItem(item)
  {
    var o := item.Octets();
    assert mem[0] == o[0];
    if item.Tlv? {
      assert mem[1] == o[1];
      if item.code == OPT_MSGTYPE {
        assert mem[2] == o[2];
      } else if item.code in WORDS {
        assert mem[2] == o[2] && mem[3] == o[3] && mem[4] == o[4] && mem[5] == o[5];
        assert mem[2..6] == item.data[..4];
      } else if item.code in NAMES {
        var n := NameLength(|item.data|);
        assert mem[..|o|] == o && mem[2..2 + n] == o[2..2 + n] == item.data[..n];
      }
    }
  }

  /** A walk over a list of proper options sees exactly those options. */
  lemma {:induction false} SeenOfLayout(mem: seq<Octet>, items: seq<Item>)
    requires Holds(mem, items) && AllProper(items) && |Layout(items)| + 4 <= |mem|
    ensures Readable(mem) && SeenOf(mem) == Views(items)
    decreases |items|
  {
    EndOfLayout(mem, items);
    if items == [] {
      assert mem[0] == (Layout([]) + [OPT_END])[0];
    } else {
      HoldsRest(mem, items);
      FrontOption(mem, items[0]);
      ViewFront(mem, items[0]);
      assert |Layout(items)| == |items[0].Octets()| + |Layout(items[1..])|;
      hide Item.Octets, Holds, View, ViewItem;
      SeenOfLayout(mem[Span(mem)..], items[1..]);
    }
  }

  // ----- The client's reading -----

  datatype Params = Params(
    event: Octet, leaseTime: Word32, t1: Word32, t2: Word32,
    gateway: Word32, nameserver0: Word32, nameserver1: Word32, netmask: Word32, serverId: Word32,
    hostName: seq<Octet>, domainName: seq<Octet>)

  /** A text up to its first zero, and zeros from there on. */
  function Text(src: seq<Octet>): (r: seq<Octet>)
    ensures |r| == |src|
  {
    if src == [] then []
    else if src[0] == 0 then seq(|src|, i => 0)
    else [src[0]] + Text(src[1..])
  }

  /** A buffer into which a text was copied; what lies behind the text stays. */
  function Over(text: seq<Octet>, buffer: seq<Octet>): seq<Octet> {
    Text(text) + if |text| <= |buffer| then buffer[|text|..] else []
  }

  function Zeros(n: nat): seq<Octet> {
    seq(n, i => 0)
  }

  lemma {:induction false} TextIs(src: seq<Octet>, n: nat)
    requires n <= |src| && 0 !in src[..n] && (n < |src| ==> src[n] == 0)
    ensures Text(src) == src[..n] + Zeros(|src| - n)
    decreases n
  {
    if n > 0 {
      assert src[..n][0] == src[0] && src[1..][..n - 1] == src[..n][1..];
      TextIs(src[1..], n - 1);
    }
  }

  function Learn(c: Params, s: Seen): Params {
    match s
    case Nothing => c
    case Type(t) => c.(event := t)
    case Field(code, len, w) =>
      if code == OPT_LEASETIME then c.(leaseTime := w)
      else if code == OPT_RENEWALTIME then c.(t1 := w)
      else if code == OPT_REBINDINGTIME then c.(t2 := w)
      else if code == OPT_ROUTER then c.(gateway := w)
      else if code == OPT_DNS then c.(nameserver0 := w, nameserver1 := if len >= 8 then w else c.nameserver1)
      else if code == OPT_NETMASK then c.(netmask := w)
      else if code == OPT_SERVERID then c.(serverId := w)
      else c
    case Name(kind, text) =>
      if kind == OPT_HOSTNAME then c.(hostName := Over(text, c.hostName))
      else c.(domainName := Over(text, c.domainName))
  }

  function LearnAll(c: Params, seen: seq<Seen>): Params
    decreases |seen|
  {
    if seen == [] then c else LearnAll(Learn(c, seen[0]), seen[1..])
  }

  /** The timers that the server did not set; the product is taken in 32 bits. */
  function WithDefaults(c: Params): Params {
    c.(t1 := if c.t1 == 0 then c.leaseTime / 2 else c.t1,
       t2 := if c.t2 == 0 then c.leaseTime * 875 % 0x1_0000_0000 / 1000 else c.t2)
  }

  /** The first n octets of a text are over the buffer, and none of them is zero. */
  predicate Fronted(text: seq<Octet>, before: seq<Octet>, n: nat, now: seq<Octet>) {
    n <= |text| <= |before| && 0 !in text[..n] && now == text[..n] + before[n..]
  }

  lemma FrontStep(text: seq<Octet>, before: seq<Octet>, n: nat, now: seq<Octet>)
    requires Fronted(text, before, n, now) && n < |text| && text[n] != 0
    ensures n < |now| && Fronted(text, before, n + 1, now[n := text[n]])
  {
    assert text[..n + 1] == text[..n] + [text[n]];
    assert before[n..] == [before[n]] + before[n + 1..];
  }

  /** Copies a text up to its first zero. */
  method CopyFront(buffer: array<Octet>, text: seq<Octet>) returns (n: nat)
    requires |text| <= buffer.Length
    modifies buffer
    ensures n <= |text| && Fronted(text, old(buffer[..]), n, buffer[..]) && (n < |text| ==> text[n] == 0)
  {
    ghost var before := buffer[..];
    n := 0;
    assert Fronted(text, before, n, buffer[..]);
    hide *;
    while n < |text| && text[n] != 0
      invariant n <= |text| && Fronted(text, before, n, buffer[..])
    {
      ghost var now := buffer[..];
      FrontStep(text, before, n, now);
      buffer[n] := text[n];
      assert buffer[..] == now[n := text[n]];
      n := n + 1;
    }
  }

  predicate Zeroed(before: seq<Octet>, n: nat, i: nat, now: seq<Octet>) {
    n <= i <= |before| && now == before[..n] + Zeros(i - n) + before[i..]
  }

  lemma ZeroStep(before: seq<Octet>, n: nat, i: nat, now: seq<Octet>)
    requires Zeroed(before, n, i, now) && i < |before|
    ensures i < |now| && Zeroed(before, n, i + 1, now[i := 0])
  {
    assert before[i..] == [before[i]] + before[i + 1..];
    assert Zeros(i + 1 - n) == Zeros(i - n) + [0];
  }

  method ZeroRest(buffer: array<Octet>, n: nat, m: nat)
    requires n <= m <= buffer.Length
    modifies buffer
    ensures Zeroed(old(buffer[..]), n, m, buffer[..])
  {
    ghost var before := buffer[..];
    assert Zeroed(before, n, n, before);
    hide *;
    var i := n;
    while i < m
      invariant n <= i <= m && Zeroed(before, n, i, buffer[..])
    {
      ghost var now := buffer[..];
      ZeroStep(before, n, i, now);
      buffer[i] := 0;
      assert buffer[..] == now[i := 0];
      i := i + 1;
    }
  }

  lemma OverIs(text: seq<Octet>, before: seq<Octet>, n: nat, front: seq<Octet>, now: seq<Octet>)
    requires Fronted(text, before, n, front) && (n < |text| ==> text[n] == 0) && Zeroed(front, n, |text|, now)
    ensures now == Over(text, before)
  {
    TextIs(text, n);
    hide Zeros, Text;
    assert front[..n] == text[..n] && front[|text|..] == before[|text|..];
  }

  /** Copies a text into a buffer, as far as the text reaches, with zeros behind its first zero. */
  method CopyText(buffer: array<Octet>, text: seq<Octet>)
    requires |text| <= buffer.Length
    modifies buffer
    ensures buffer[..] == Over(text, old(buffer[..]))
  {
    hide *;
    ghost var before := buffer[..];
    var n := CopyFront(buffer, text);
    ghost var front := buffer[..];
    ZeroRest(buffer, n, |text|);
    OverIs(text, before, n, front, buffer[..]);
  }

  /** What there is to read at a position of the memory. */
  lemma ViewAt(mem: seq<Octet>, p: nat)
    requires p <= |mem| && Readable(mem[p..])
    ensures p < |mem|
    ensures var code := mem[p];
      if code == OPT_MSGTYPE then p + 2 < |mem| && View(mem[p..]) == Type(mem[p + 2])
      else if code in WORDS then
        p + 6 <= |mem| && View(mem[p..]) == Field(code, mem[p + 1], Word(mem[p + 2..p + 6]))
      else if code in NAMES then
        p + 1 < |mem| && p + 2 + NameLength(mem[p + 1]) <= |mem|
        && View(mem[p..]) == Name(code, mem[p + 2..p + 2 + NameLength(mem[p + 1])])
      else View(mem[p..]) == Nothing
  {
    var here := mem[p..];
    if here[0] in WORDS {
      assert here[2..6] == mem[p + 2..p + 6];
    } else if here[0] in NAMES {
      var n := NameLength(here[1]);
      assert here[2..2 + n] == mem[p + 2..p + 2 + n];
    }
  }

  class Cookie {
    var event: Octet
    var leaseTime: Word32
    var t1: Word32
    var t2: Word32
    var gateway: Word32
    var nameserver0: Word32
    var nameserver1: Word32
    var netmask: Word32
    var serverId: Word32
    const hostName: array<Octet>
    const domainName: array<Octet>

    predicate Valid() {
      hostName.Length == domainName.Length == NAME_ROOM && hostName != domainName
    }

    function State(): Params
      reads this, hostName, domainName
    {
      Params(event, leaseTime, t1, t2, gateway, nameserver0, nameserver1, netmask, serverId,
             hostName[..], domainName[..])
    }

    /** A new cookie; the room for the names is the same for all. */
    constructor (hostName: array<Octet>, domainName: array<Octet>)
      requires hostName.Length == domainName.Length == NAME_ROOM && hostName != domainName
      ensures Valid() && this.hostName == hostName && this.domainName == domainName
      ensures State() == Params(0, 0, 0, 0, 0, 0, 0, 0, 0, hostName[..], domainName[..])
    {
      event, leaseTime, t1, t2 := 0, 0, 0, 0;
      gateway, nameserver0, nameserver1, netmask, serverId := 0, 0, 0, 0, 0;
      this.hostName, this.domainName := hostName, domainName;
    }

    method ReadOption(mem: seq<Octet>, p: nat)
      requires Valid() && p <= |mem| && Readable(mem[p..])
      modifies this, hostName, domainName
      ensures State() == if mem[p] == OPT_END then old(State()) else Learn(old(State()), View(mem[p..]))
    {
      hide View, Over, Word, Readable;
      ViewAt(mem, p);
      var code := mem[p];
      if code == OPT_PAD || code == OPT_END {
      } else if code == OPT_MSGTYPE {
        event := mem[p + 2];
      } else if code in WORDS {
        var w := Word(mem[p + 2..p + 6]);
        if code == OPT_LEASETIME {
          leaseTime := w;
        } else if code == OPT_RENEWALTIME {
          t1 := w;
        } else if code == OPT_REBINDINGTIME {
          t2 := w;
        } else if code == OPT_ROUTER {
          gateway := w;
        } else if code == OPT_DNS {
          nameserver0 := w;
          if mem[p + 1] >= 8 {
            nameserver1 := w;
          }
        } else if code == OPT_NETMASK {
          netmask := w;
        } else if code == OPT_SERVERID {
          serverId := w;
        }
      } else if code in NAMES {
        var n := NameLength(mem[p + 1]);
        CopyText(if code == OPT_HOSTNAME then hostName else domainName, mem[p + 2..p + 2 + n]);
      }
    }

    /** Takes the parameters out of options that were checked before. */
    method RecvParams(mem: seq<Octet>)
      requires Valid() && Readable(mem)
      modifies this, hostName, domainName
      ensures State() == WithDefaults(LearnAll(old(State()), SeenOf(mem)))
    {
      var p, more := 0, true;
      assert mem[0..] == mem;
      while more
        invariant p <= |mem| && Readable(mem[p..])
        invariant LearnAll(State(), SeenOf(mem[p..])) == LearnAll(old(State()), SeenOf(mem))
        invariant !more ==> mem[p] == OPT_END
        decreases |mem| - p, more
      {
        hide Learn, View;
        ReadOption(mem, p);
        ghost var here := mem[p..];
        more, p := NextOption(mem, p);
        assert more ==> mem[p..] == here[Span(here)..];
      }
      if t1 == 0 {
        t1 := leaseTime / 2;
      }
      if t2 == 0 {
        t2 := leaseTime * 875 % 0x1_0000_0000 / 1000;
      }
    }
  }

  /** The message type found first in a message, or -1. */
  function TypeOf(seen: seq<Seen>): int {
    if seen == [] then -1 else if seen[0].Type? then seen[0].t else TypeOf(seen[1..])
  }

  method MessageType(magic: bool, mem: seq<Octet>, length: int) returns (r: int)
    requires 2 * length <= |mem| && (EndOf(mem).End? ==> Readable(mem))
    ensures r == if magic && Accepted(mem, length) then TypeOf(SeenOf(mem)) else -1
  {
    if !magic {
      return -1;
    }
    var valid := AreOptionsValid(mem, length);
    if !valid {
      return -1;
    }
    var p, more := 0, true;
    assert mem[0..] == mem;
    while more
      invariant p <= |mem| && Readable(mem[p..])
      invariant (if more then TypeOf(SeenOf(mem[p..])) else -1) == TypeOf(SeenOf(mem))
      decreases |mem| - p, more
    {
      hide Accepted;
      ghost var here := mem[p..];
      if mem[p] == OPT_MSGTYPE {
        return mem[p + 2];
      }
      more, p := NextOption(mem, p);
      assert more ==> mem[p..] == here[Span(here)..];
    }
    return -1;
  }

  // ----- The server's reading -----

  datatype Request = Request(msgtype: Octet, reqip: Word32, serverId: Word32)

  function Note(r: Request, s: Seen): Request {
    match s
    case Nothing => r
    case Type(t) => r.(msgtype := t)
    case Field(code, _, w) =>
      if code == OPT_REQIP then r.(reqip := w)
      else if code == OPT_SERVERID then r.(serverId := w)
      else r
    case Name(_, _) => r
  }

  function NoteAll(r: Request, seen: seq<Seen>): Request
    decreases |seen|
  {
    if seen == [] then r else NoteAll(Note(r, seen[0]), seen[1..])
  }

  method NoteOption(mem: seq<Octet>, p: nat, r0: Request) returns (r: Request)
    requires p <= |mem| && Readable(mem[p..])
    ensures r == if mem[p] == OPT_END then r0 else Note(r0, View(mem[p..]))
  {
    r := r0;
    if mem[p] == OPT_MSGTYPE {
      r := r.(msgtype := mem[p + 2]);
    }
    if mem[p] == OPT_REQIP {
      assert mem[p..][2..6] == mem[p + 2..p + 6];
      r := r.(reqip := Word(mem[p + 2..p + 6]));
    }
    if mem[p] == OPT_SERVERID {
      assert mem[p..][2..6] == mem[p + 2..p + 6];
      r := r.(serverId := Word(mem[p + 2..p + 6]));
    }
  }

  method ParseRequest(mem: seq<Octet>) returns (r: Request)
    requires Readable(mem)
    ensures r == NoteAll(Request(0, 0, 0), SeenOf(mem))
  {
    r := Request(0, 0, 0);
    var p, more := 0, true;
    assert mem[0..] == mem;
    while more
      invariant p <= |mem| && Readable(mem[p..])
      invariant NoteAll(r, SeenOf(mem[p..])) == NoteAll(Request(0, 0, 0), SeenOf(mem))
      invariant !more ==> mem[p] == OPT_END
      decreases |mem| - p, more
    {
      hide Note, View;
      r := NoteOption(mem, p, r);
      ghost var here := mem[p..];
      more, p := NextOption(mem, p);
      assert more ==> mem[p..] == here[Span(here)..];
    }
  }

  // ----- Writing options -----

  lemma {:induction false} LayoutSnoc(items: seq<Item>, last: Item)
    requires AllFit(items) && last.Fits()
    ensures AllFit(items + [last]) && Layout(items + [last]) == Layout(items) + last.Octets()
    decreases |items|
  {
    hide Item.Octets;
    if items == [] {
      assert [] + [last] == [last] && [last][1..] == [];
    } else {
      assert (items + [last])[1..] == items[1..] + [last];
      LayoutSnoc(items[1..], last);
    }
  }

  /** A buffer after octets were written at some place. */
  predicate Written(s: seq<Octet>, was: seq<Octet>, at: nat, octets: seq<Octet>) {
    && at + |octets| <= |was|
    && s == was[..at] + octets + was[at + |octets|..]
  }

  lemma WriteOn(s: seq<Octet>, was: seq<Octet>, at: nat, octets: seq<Octet>, n: nat)
    requires n < |octets| && at + n < |was| && Written(s, was, at, octets[..n])
    ensures |s| == |was| && Written(s[at + n := octets[n]], was, at, octets[..n + 1])
  {
  }

  method Put(buf: array<Octet>, at: nat, octets: seq<Octet>)
    requires at + |octets| <= buf.Length
    modifies buf
    ensures Written(buf[..], old(buf[..]), at, octets)
  {
    var n := 0;
    assert octets[..0] == [];
    assert Written(buf[..], buf[..], at, octets[..0]);
    hide *;
    while n < |octets|
      invariant 0 <= n <= |octets|
      invariant Written(buf[..], old(buf[..]), at, octets[..n])
    {
      ghost var s := buf[..];
      WriteOn(s, old(buf[..]), at, octets, n);
      buf[at + n] := octets[n];
      assert buf[..] == s[at + n := octets[n]];
      n := n + 1;
    }
    assert octets[..n] == octets;
  }

  /** What every builder of an option writes: its code, its length, and its value. */
  method PutOption(buf: array<Octet>, at: nat, code: Octet, data: seq<Octet>) returns (n: nat)
    requires Tlv(code, data).Fits() && at + 2 + |data| <= buf.Length
    modifies buf
    ensures n == 2 + |data| && Written(buf[..], old(buf[..]), at, Tlv(code, data).Octets())
  {
    hide Written;
    Put(buf, at, [code, |data|] + data);
    return 2 + |data|;
  }

  method PutEnd(buf: array<Octet>, at: nat) returns (n: nat)
    requires at < buf.Length
    modifies buf
    ensures n == 1 && Written(buf[..], old(buf[..]), at, [OPT_END])
  {
    hide Written;
    Put(buf, at, [OPT_END]);
    return 1;
  }

  /** A buffer filled up to some place, and zero from there on. */
  predicate Filled(s: seq<Octet>, octets: seq<Octet>, size: nat) {
    |octets| <= size && s == octets + seq(size - |octets|, _ => 0)
  }

  lemma FillOn(s: seq<Octet>, t: seq<Octet>, octets: seq<Octet>, more: seq<Octet>, size: nat)
    requires Filled(s, octets, size) && Written(t, s, |octets|, more)
    ensures Filled(t, octets + more, size)
  {
  }

  /** The options under construction in a buffer of zeros. */
  predicate Building(s: seq<Octet>, at: nat, items: seq<Item>, size: nat) {
    AllFit(items) && at == |Layout(items)| && Filled(s, Layout(items), size)
  }

  lemma BuildOn(s: seq<Octet>, t: seq<Octet>, at: nat, items: seq<Item>, item: Item, size: nat)
    requires Building(s, at, items, size) && item.Fits() && Written(t, s, at, item.Octets())
    ensures Building(t, at + |item.Octets()|, items + [item], size)
  {
    LayoutSnoc(items, item);
    hide Layout, Item.Octets;
    FillOn(s, t, Layout(items), item.Octets(), size);
  }

  /** One more option behind those already built. */
  method Add(buf: array<Octet>, offset: nat, code: Octet, data: seq<Octet>, ghost items: seq<Item>) returns (next: nat)
    requires Building(buf[..], offset, items, buf.Length)
    requires Tlv(code, data).Fits() && offset + 2 + |data| <= buf.Length
    modifies buf
    ensures next == offset + 2 + |data|
    ensures Building(buf[..], next, items + [Tlv(code, data)], buf.Length)
  {
    hide Building, Written;
    ghost var s := buf[..];
    var n := PutOption(buf, offset, code, data);
    BuildOn(s, buf[..], offset, items, Tlv(code, data), buf.Length);
    return offset + n;
  }

  /** The end mark behind the options that were built. */
  method AddEnd(buf: array<Octet>, offset: nat, ghost items: seq<Item>)
    requires Building(buf[..], offset, items, buf.Length) && offset < buf.Length
    modifies buf
    ensures AllFit(items) && Filled(buf[..], Layout(items) + [OPT_END], buf.Length)
  {
    hide Written, Filled;
    ghost var s := buf[..];
    var n := PutEnd(buf, offset);
    FillOn(s, buf[..], Layout(items), [OPT_END], buf.Length);
  }

  // ----- The server's reply -----

  /** What a server tells its clients. */
  datatype Terms = Terms(server: Word32, leaseTime: Word32, netmask: Word32, broadcast: Word32, dns: Word32)

  function ReplyItems(msgtype: Octet, t: Terms): (items: seq<Item>)
    ensures AllFit(items)
  {
    [ Tlv(OPT_MSGTYPE, [msgtype]),
      Tlv(OPT_SERVERID, WordOctets(t.server)),
      Tlv(OPT_LEASETIME, WordOctets(t.leaseTime)),
      Tlv(OPT_NETMASK, WordOctets(t.netmask)),
      Tlv(OPT_ROUTER, WordOctets(t.server)),
      Tlv(OPT_BROADCAST, WordOctets(t.broadcast)),
      Tlv(OPT_DNS, WordOctets(t.dns)) ]
  }

  const REPLY_LENGTH: nat := 40

  method ReplyOptions(msgtype: Octet, t: Terms) returns (options: seq<Octet>)
    ensures |options| == REPLY_LENGTH
    ensures options == Layout(ReplyItems(msgtype, t)) + [OPT_END]
  {
    var buf := new Octet[REPLY_LENGTH](_ => 0);
    ghost var items: seq<Item> := [];
    assert Building(buf[..], 0, items, REPLY_LENGTH);
    ghost var all := ReplyItems(msgtype, t);
    assert all == items + [all[0]] + [all[1]] + [all[2]] + [all[3]] + [all[4]] + [all[5]] + [all[6]];
    hide Building, WordOctets, Layout, AllFit, Filled;
    var offset := Add(buf, 0, OPT_MSGTYPE, [msgtype], items);
    items := items + [all[0]];
    offset := Add(buf, offset, OPT_SERVERID, WordOctets(t.server), items);
    items := items + [all[1]];
    offset := Add(buf, offset, OPT_LEASETIME, WordOctets(t.leaseTime), items);
    items := items + [all[2]];
    offset := Add(buf, offset, OPT_NETMASK, WordOctets(t.netmask), items);
    items := items + [all[3]];
    offset := Add(buf, offset, OPT_ROUTER, WordOctets(t.server), items);
    items := items + [all[4]];
    offset := Add(buf, offset, OPT_BROADCAST, WordOctets(t.broadcast), items);
    items := items + [all[5]];
    offset := Add(buf, offset, OPT_DNS, WordOctets(t.dns), items);
    items := items + [all[6]];
    BuiltLength(buf[..], offset, items, REPLY_LENGTH);
    AddEnd(buf, offset, items);
    options := buf[..];
    FilledUp(options, Layout(items) + [OPT_END], REPLY_LENGTH);
  }

  lemma BuiltLength(s: seq<Octet>, at: nat, items: seq<Item>, size: nat)
    requires Building(s, at, items, size)
    ensures AllFit(items) && |Layout(items)| == at
  {
  }

  lemma FilledUp(s: seq<Octet>, octets: seq<Octet>, size: nat)
    requires Filled(s, octets, size)
    ensures |s| == size && octets <= s
    ensures |octets| == size ==> s == octets
  {
  }

  // ----- The client's messages -----

  /** The options that a client asks for. */
  const PARAMS: seq<Octet> := [
    OPT_NETMASK, OPT_TIME, OPT_ROUTER, OPT_HOSTNAME, OPT_RENEWALTIME, OPT_REBINDINGTIME, OPT_DNS
  ]

  /** A request for the address that was offered also says who offered it. */
  function ClientItems(msgtype: Octet, requesting: bool, address: Word32, server: Word32, size: Word16)
    : (items: seq<Item>)
    ensures AllFit(items)
  {
    [Tlv(OPT_MAXMSGSIZE, [size / 256, size % 256])]
    + (if msgtype == MSG_REQUEST && requesting
       then [Tlv(OPT_REQIP, WordOctets(address)), Tlv(OPT_SERVERID, WordOctets(server))] else [])
    + [Tlv(OPT_MSGTYPE, [msgtype]), Tlv(OPT_PARAMLIST, PARAMS)]
  }

  function ClientLength(msgtype: Octet): nat {
    if msgtype == MSG_DISCOVER then 17 else 29
  }

  /** The options of a client's message. A request has room for two options that only the one
      for an offered address uses. */
  method ClientOptions(msgtype: Octet, requesting: bool, address: Word32, server: Word32, size: Word16)
    returns (r: int, options: seq<Octet>)
    ensures r == (if msgtype == MSG_DISCOVER || msgtype == MSG_REQUEST then 0 else -1)
    ensures r == 0 ==>
      && |options| == (if msgtype == 1 then 17 else 29)
      && Filled(options, Layout(ClientItems(msgtype, requesting, address, server, size)) + [OPT_END],
                ClientLength(msgtype))
  {
    if msgtype != MSG_DISCOVER && msgtype != MSG_REQUEST {
      return -1, [];
    }
    var buf := new Octet[ClientLength(msgtype)](_ => 0);
    ghost var items: seq<Item> := [];
    assert Building(buf[..], 0, items, buf.Length);
    hide Building, WordOctets, Layout, AllFit, Filled;
    var offset := Add(buf, 0, OPT_MAXMSGSIZE, [size / 256, size % 256], items);
    items := items + [Tlv(OPT_MAXMSGSIZE, [size / 256, size % 256])];
    if msgtype == MSG_REQUEST && requesting {
      offset := Add(buf, offset, OPT_REQIP, WordOctets(address), items);
      items := items + [Tlv(OPT_REQIP, WordOctets(address))];
      offset := Add(buf, offset, OPT_SERVERID, WordOctets(server), items);
      items := items + [Tlv(OPT_SERVERID, WordOctets(server))];
    }
    offset := Add(buf, offset, OPT_MSGTYPE, [msgtype], items);
    items := items + [Tlv(OPT_MSGTYPE, [msgtype])];
    offset := Add(buf, offset, OPT_PARAMLIST, PARAMS, items);
    items := items + [Tlv(OPT_PARAMLIST, PARAMS)];
    assert items == ClientItems(msgtype, requesting, address, server, size);
    AddEnd(buf, offset, items);
    return 0, buf[..];
  }

  // ----- What is written is what is read -----

  lemma ViewsCons(first: Item, rest: seq<Item>)
    requires Proper(first) && AllProper(rest)
    ensures AllProper([first] + rest) && Views([first] + rest) == [ViewItem(first)] + Views(rest)
  {
    assert ([first] + rest)[1..] == rest;
  }

  lemma LearnCons(c: Params, first: Item, rest: seq<Item>)
    requires Proper(first) && AllProper(rest)
    ensures AllProper([first] + rest)
    ensures LearnAll(c, Views([first] + rest)) == LearnAll(Learn(c, ViewItem(first)), Views(rest))
  {
    ViewsCons(first, rest);
    assert ([ViewItem(first)] + Views(rest))[1..] == Views(rest);
  }

  lemma NoteCons(r: Request, first: Item, rest: seq<Item>)
    requires Proper(first) && AllProper(rest)
    ensures AllProper([first] + rest)
    ensures NoteAll(r, Views([first] + rest)) == NoteAll(Note(r, ViewItem(first)), Views(rest))
  {
    ViewsCons(first, rest);
    assert ([ViewItem(first)] + Views(rest))[1..] == Views(rest);
  }

  /** An option that carries a word. */
  lemma ViewWord(code: Octet, w: Word32)
    requires code in WORDS
    ensures Proper(Tlv(code, WordOctets(w))) && ViewItem(Tlv(code, WordOctets(w))) == Field(code, 4, w)
  {
    WordRoundTrip(w);
    hide Word;
    var o := WordOctets(w);
    assert o[..4] == o;
  }

  /** What a client has learned from a reply. */
  function Told(c: Params, msgtype: Octet, t: Terms): Params {
    c.(event := msgtype, serverId := t.server, leaseTime := t.leaseTime, netmask := t.netmask,
       gateway := t.server, nameserver0 := t.dns)
  }

  /** One option of a reply teaches the client what takes c to c'. */
  predicate Teaches(item: Item, c: Params, c': Params) {
    Proper(item) && Learn(c, ViewItem(item)) == c'
  }

  lemma WordTeaches(code: Octet, w: Word32, c: Params)
    requires code in WORDS
    ensures Teaches(Tlv(code, WordOctets(w)), c, Learn(c, Field(code, 4, w)))
  {
    ViewWord(code, w);
    hide WordOctets, Learn, ViewItem, Proper;
  }

  /** Options that teach the client one after the other. */
  lemma {:induction false} LearnSteps(items: seq<Item>, cs: seq<Params>)
    requires |cs| == |items| + 1
    requires forall k :: 0 <= k < |items| ==> Teaches(items[k], cs[k], cs[k + 1])
    ensures AllProper(items) && LearnAll(cs[0], Views(items)) == cs[|items|]
    decreases |items|
  {
    if items == [] {
      assert Views(items) == [];
    } else {
      LearnSteps(items[1..], cs[1..]);
      hide Views, LearnAll, Learn, ViewItem;
      assert Teaches(items[0], cs[0], cs[1]);
      LearnCons(cs[0], items[0], items[1..]);
      assert items == [items[0]] + items[1..];
    }
  }

  lemma ReplyLearned(c: Params, msgtype: Octet, t: Terms)
    ensures AllProper(ReplyItems(msgtype, t))
    ensures LearnAll(c, Views(ReplyItems(msgtype, t))) == Told(c, msgtype, t)
  {
    var items := ReplyItems(msgtype, t);
    var c1 := c.(event := msgtype);
    var c2 := c1.(serverId := t.server);
    var c3 := c2.(leaseTime := t.leaseTime);
    var c4 := c3.(netmask := t.netmask);
    var c5 := c4.(gateway := t.server);
    var c6 := c5.(nameserver0 := t.dns);
    assert Teaches(items[0], c, c1);
    assert Teaches(items[5], c5, c5);
    hide WordOctets, Views, LearnAll, Teaches;
    WordTeaches(OPT_SERVERID, t.server, c1);
    WordTeaches(OPT_LEASETIME, t.leaseTime, c2);
    WordTeaches(OPT_NETMASK, t.netmask, c3);
    WordTeaches(OPT_ROUTER, t.server, c4);
    WordTeaches(OPT_DNS, t.dns, c5);
    LearnSteps(items, [c, c1, c2, c3, c4, c5, c5, c6]);
  }

  lemma LengthFrom(all: seq<Item>, k: nat)
    requires AllFit(all) && k < |all|
    ensures |Layout(all[k..])| == |all[k].Octets()| + |Layout(all[k + 1..])|
  {
    assert all[k..][1..] == all[k + 1..];
  }

  lemma ReplyLength(msgtype: Octet, t: Terms)
    ensures |Layout(ReplyItems(msgtype, t))| == REPLY_LENGTH - 1
  {
    var all := ReplyItems(msgtype, t);
    assert |Layout(all[7..])| == 0 && all[0..] == all;
    hide Layout, WordOctets;
    LengthFrom(all, 0);
    LengthFrom(all, 1);
    LengthFrom(all, 2);
    LengthFrom(all, 3);
    LengthFrom(all, 4);
    LengthFrom(all, 5);
    LengthFrom(all, 6);
  }

  lemma HoldsFront(options: seq<Octet>, items: seq<Item>, behind: seq<Octet>)
    requires AllFit(items) && Layout(items) + [OPT_END] <= options
    ensures Holds(options + behind, items)
  {
    hide Layout;
  }

  /** A client that receives a reply accepts its options and learns exactly what the server put
      into them; the timers that it did not know it sets itself. */
  lemma ReplyUnderstood(c: Params, msgtype: Octet, t: Terms, options: seq<Octet>, behind: seq<Octet>)
    requires options == Layout(ReplyItems(msgtype, t)) + [OPT_END] && 3 <= |behind|
    ensures |options| == REPLY_LENGTH && Accepted(options + behind, |options|)
    ensures Readable(options + behind) && LearnAll(c, SeenOf(options + behind)) == Told(c, msgtype, t)
  {
    var items := ReplyItems(msgtype, t);
    ReplyLength(msgtype, t);
    ReplyLearned(c, msgtype, t);
    hide *;
    HoldsFront(options, items, behind);
    WellFormedAccepted(options + behind, |options|, items);
    SeenOfLayout(options + behind, items);
  }

  // The client's message, likewise.

  function Asked(msgtype: Octet, requesting: bool, address: Word32, server: Word32): Request {
    if msgtype == MSG_REQUEST && requesting then Request(msgtype, address, server) else Request(msgtype, 0, 0)
  }

  lemma NoteFrom(r: Request, all: seq<Item>, k: nat, r': Request)
    requires k < |all| && Proper(all[k]) && AllProper(all[k + 1..]) && Note(r, ViewItem(all[k])) == r'
    ensures AllProper(all[k..]) && NoteAll(r, Views(all[k..])) == NoteAll(r', Views(all[k + 1..]))
  {
    assert all[k..] == [all[k]] + all[k + 1..];
    NoteCons(r, all[k], all[k + 1..]);
  }

  lemma NothingNoted(r: Request, items: seq<Item>)
    requires items == []
    ensures AllProper(items) && NoteAll(r, Views(items)) == r
  {
  }

  lemma ClientNoted(msgtype: Octet, requesting: bool, address: Word32, server: Word32, size: Word16)
    ensures var all := ClientItems(msgtype, requesting, address, server, size);
      AllProper(all) && NoteAll(Request(0, 0, 0), Views(all)) == Asked(msgtype, requesting, address, server)
  {
    hide WordOctets, Views, NoteAll;
    var all := ClientItems(msgtype, requesting, address, server, size);
    var n := |all|;
    var r0, r := Request(0, 0, 0), Asked(msgtype, requesting, address, server);
    ViewWord(OPT_REQIP, address);
    ViewWord(OPT_SERVERID, server);
    NothingNoted(r, all[n..]);
    assert all[0..] == all;
    var r1 := r.(msgtype := 0);
    NoteFrom(r, all, n - 1, r);
    NoteFrom(r1, all, n - 2, r);
    if msgtype == MSG_REQUEST && requesting {
      NoteFrom(r0.(reqip := address), all, 2, r1);
      NoteFrom(r0, all, 1, r0.(reqip := address));
    }
    NoteFrom(r0, all, 0, r0);
  }

  lemma ClientFits(msgtype: Octet, requesting: bool, address: Word32, server: Word32, size: Word16)
    requires msgtype == MSG_DISCOVER || msgtype == MSG_REQUEST
    ensures |Layout(ClientItems(msgtype, requesting, address, server, size))|
         == if msgtype == MSG_REQUEST && requesting then 28 else 16
  {
    var all := ClientItems(msgtype, requesting, address, server, size);
    var n := |all|;
    assert |Layout(all[n..])| == 0 && all[0..] == all;
    hide Layout, WordOctets;
    LengthFrom(all, n - 1);
    LengthFrom(all, n - 2);
    if msgtype == MSG_REQUEST && requesting {
      LengthFrom(all, 2);
      LengthFrom(all, 1);
    }
    LengthFrom(all, 0);
  }

  /** A server that receives a client's message accepts its options and reads exactly what the
      client put into them. */
  lemma RequestUnderstood(msgtype: Octet, requesting: bool, address: Word32, server: Word32, size: Word16,
                          options: seq<Octet>, behind: seq<Octet>)
    requires msgtype == MSG_DISCOVER || msgtype == MSG_REQUEST
    requires Filled(options, Layout(ClientItems(msgtype, requesting, address, server, size)) + [OPT_END],
                    ClientLength(msgtype))
    requires 3 <= |behind|
    ensures |options| == ClientLength(msgtype) && Accepted(options + behind, |options|)
    ensures Readable(options + behind)
    ensures NoteAll(Request(0, 0, 0), SeenOf(options + behind)) == Asked(msgtype, requesting, address, server)
  {
    var items := ClientItems(msgtype, requesting, address, server, size);
    ClientNoted(msgtype, requesting, address, server, size);
    ClientFits(msgtype, requesting, address, server, size);
    FilledUp(options, Layout(items) + [OPT_END], ClientLength(msgtype));
    var n := ClientLength(msgtype);
    assert n == 17 || n == 29;
    hide *;
    HoldsFront(options, items, behind);
    WellFormedAccepted(options + behind, |options|, items);
    SeenOfLayout(options + behind, items);
  }

  /** Section 4.4.5 of RFC 2131 orders the timers. Those that the client sets are in order
      exactly when the product of which the second is made does not overflow. */
  lemma TimersOrderedIff(c: Params)
    requires c.t1 == 0 && c.t2 == 0
    ensures var d := WithDefaults(c); d.t1 <= d.t2 <= d.leaseTime <==> c.leaseTime <= 4908534
  {
    var p := c.leaseTime * 875;
    if c.leaseTime <= 4908534 {
      assert p % 0x1_0000_0000 == p;
    } else if c.leaseTime <= 9817068 {
      assert p % 0x1_0000_0000 == p - 0x1_0000_0000;
    } else {
      assert p % 0x1_0000_0000 < 0x1_0000_0000;
    }
  }

  /** Section 3.8 of RFC 2132 lists name servers one behind the other. Of an option with two of
      them the client takes the first one for both, so it learns both exactly if they are the same. */
  lemma SecondServerIff(c: Params, a: Word32, b: Word32)
    ensures var d := Learn(c, ViewItem(Tlv(OPT_DNS, WordOctets(a) + WordOctets(b))));
      d.nameserver0 == a && d.nameserver1 == a && (d.nameserver1 == b <==> a == b)
  {
    hide Word, WordOctets;
    WordRoundTrip(a);
    assert (WordOctets(a) + WordOctets(b))[..4] == WordOctets(a);
  }

  // ----- What any list of options says, with the numbers of RFC 2132 -----

  /** The word of the last option with this code, or the one before if there is none. */
  function LastWord(items: seq<Item>, code: Octet, before: Word32): Word32
    requires AllProper(items) && code in WORDS
  {
    if items == [] then before
    else
      var last := items[|items| - 1];
      if last.Tlv? && last.code == code then Word(last.data[..4]) else LastWord(items[..|items| - 1], code, before)
  }

  /** The word of the last option of name servers that has room for two. */
  function LastLong(items: seq<Item>, before: Word32): Word32
    requires AllProper(items)
  {
    if items == [] then before
    else
      var last := items[|items| - 1];
      if last.Tlv? && last.code == 6 && 8 <= |last.data| then Word(last.data[..4])
      else LastLong(items[..|items| - 1], before)
  }

  function LastType(items: seq<Item>, before: Octet): Octet
    requires AllProper(items)
  {
    if items == [] then before
    else
      var last := items[|items| - 1];
      if last.Tlv? && last.code == 53 then last.data[0] else LastType(items[..|items| - 1], before)
  }

  lemma {:induction false} ViewsSnoc(items: seq<Item>, last: Item)
    requires AllProper(items) && Proper(last)
    ensures AllProper(items + [last]) && Views(items + [last]) == Views(items) + [ViewItem(last)]
    decreases |items|
  {
    hide ViewItem, Proper;
    if items == [] {
      assert [] + [last] == [last] && [last][1..] == [];
    } else {
      assert (items + [last])[1..] == items[1..] + [last];
      ViewsSnoc(items[1..], last);
    }
  }

  lemma {:induction false} LearnSnoc(c: Params, seen: seq<Seen>, last: Seen)
    ensures LearnAll(c, seen + [last]) == Learn(LearnAll(c, seen), last)
    decreases |seen|
  {
    hide Learn;
    if seen == [] {
      assert [] + [last] == [last] && [last][1..] == [];
    } else {
      assert (seen + [last])[1..] == seen[1..] + [last];
      LearnSnoc(Learn(c, seen[0]), seen[1..], last);
    }
  }

  lemma {:induction false} NoteSnoc(r: Request, seen: seq<Seen>, last: Seen)
    ensures NoteAll(r, seen + [last]) == Note(NoteAll(r, seen), last)
    decreases |seen|
  {
    hide Note;
    if seen == [] {
      assert [] + [last] == [last] && [last][1..] == [];
    } else {
      assert (seen + [last])[1..] == seen[1..] + [last];
      NoteSnoc(Note(r, seen[0]), seen[1..], last);
    }
  }

  /** What is learned but for names. */
  predicate LearnedFrom(c: Params, items: seq<Item>, c': Params)
    requires AllProper(items)
  {
    && c'.event == LastType(items, c.event)
    && c'.leaseTime == LastWord(items, 51, c.leaseTime)
    && c'.t1 == LastWord(items, 58, c.t1)
    && c'.t2 == LastWord(items, 59, c.t2)
    && c'.gateway == LastWord(items, 3, c.gateway)
    && c'.nameserver0 == LastWord(items, 6, c.nameserver0)
    && c'.nameserver1 == LastLong(items, c.nameserver1)
    && c'.netmask == LastWord(items, 1, c.netmask)
    && c'.serverId == LastWord(items, 54, c.serverId)
  }

  lemma LearnedOne(c: Params, front: seq<Item>, last: Item, c': Params)
    requires AllProper(front + [last]) && AllProper(front) && Proper(last) && LearnedFrom(c, front, c')
    ensures LearnedFrom(c, front + [last], Learn(c', ViewItem(last)))
  {
    hide Word, Over;
    assert (front + [last])[..|front|] == front;
  }

  /** From any list of options the client takes the message type of the last option 53, the lease
      time of the last option 51, T1 and T2 of the last 58 and 59, the router of the last 3, the
      name servers of the last 6, the netmask of the last 1, and the server of the last 54. */
  lemma {:induction false} LearnedLast(c: Params, items: seq<Item>)
    requires AllProper(items)
    ensures LearnedFrom(c, items, LearnAll(c, Views(items)))
  {
    if items != [] {
      hide LearnedFrom, Learn, ViewItem, Proper, LearnAll, Views;
      var front, last := items[..|items| - 1], items[|items| - 1];
      assert items == front + [last];
      LearnedLast(c, front);
      ViewsSnoc(front, last);
      LearnSnoc(c, Views(front), ViewItem(last));
      LearnedOne(c, front, last, LearnAll(c, Views(front)));
    }
  }

  lemma NotedOne(r: Request, front: seq<Item>, last: Item, r': Request)
    requires AllProper(front + [last]) && AllProper(front) && Proper(last)
    requires r' == Request(LastType(front, r.msgtype), LastWord(front, 50, r.reqip), LastWord(front, 54, r.serverId))
    ensures Note(r', ViewItem(last)) == Request(LastType(front + [last], r.msgtype),
              LastWord(front + [last], 50, r.reqip), LastWord(front + [last], 54, r.serverId))
  {
    hide Word;
    assert (front + [last])[..|front|] == front;
  }

  /** And the server takes the type of the last option 53, the requested address of the last 50
      and the server of the last 54. */
  lemma {:induction false} NotedLast(r: Request, items: seq<Item>)
    requires AllProper(items)
    ensures NoteAll(r, Views(items))
         == Request(LastType(items, r.msgtype), LastWord(items, 50, r.reqip), LastWord(items, 54, r.serverId))
  {
    if items != [] {
      hide Note, ViewItem, Proper, NoteAll, Views, LastType, LastWord;
      var front, last := items[..|items| - 1], items[|items| - 1];
      assert items == front + [last];
      NotedLast(r, front);
      ViewsSnoc(front, last);
      NoteSnoc(r, Views(front), ViewItem(last));
      NotedOne(r, front, last, NoteAll(r, Views(front)));
    } else {
      NothingNoted(r, items);
    }
  }

  /** The type of a message is that of its first option 53; it has none exactly without one. */
  lemma {:induction false} FirstType(items: seq<Item>, k: nat)
    requires AllProper(items) && k <= |items|
    requires forall i :: 0 <= i < k ==> items[i].Tlv? ==> items[i].code != 53
    requires k < |items| ==> items[k].Tlv? && items[k].code == 53
    ensures TypeOf(Views(items)) == if k < |items| then items[k].data[0] as int else -1
    decreases k
  {
    if k > 0 {
      assert forall i :: 0 <= i < k - 1 ==> items[1..][i] == items[i + 1];
      FirstType(items[1..], k - 1);
      assert !ViewItem(items[0]).Type?;
      assert Views(items)[1..] == Views(items[1..]);
    }
  }

  /** A name goes into its buffer of 64 octets: octets up to the first zero, zeros behind that as far
      as the option reaches, and what was there before behind the option. */
  predicate Named(data: seq<Octet>, before: seq<Octet>, after: seq<Octet>) {
    && |after| == 64
    && forall i :: 0 <= i < 64 && i < |before| ==>
         after[i] == if |data| <= i then before[i] else if 0 in data[..i + 1] then 0 else data[i]
  }

  lemma {:induction false} TextAt(src: seq<Octet>, i: nat)
    requires i < |src|
    ensures Text(src)[i] == if 0 in src[..i + 1] then 0 else src[i]
    decreases i
  {
    if i > 0 && src[0] != 0 {
      TextAt(src[1..], i - 1);
      assert src[..i + 1] == [src[0]] + src[1..][..i];
    } else if src[0] == 0 {
      assert src[..i + 1][0] == 0;
    }
  }

  lemma NamedOver(data: seq<Octet>, before: seq<Octet>)
    requires |before| == 64
    ensures Named(data, before, Over(data[..NameLength(|data|)], before))
  {
    var text := data[..NameLength(|data|)];
    var after := Over(text, before);
    hide Text;
    forall i | 0 <= i < 64
      ensures after[i] == if |data| <= i then before[i] else if 0 in data[..i + 1] then 0 else data[i]
    {
      if i < |data| {
        TextAt(text, i);
        assert text[..i + 1] == data[..i + 1];
      }
    }
  }

  /** Option 12 is the name of the host, option 15 that of the domain. */
  lemma NamesLearned(c: Params, data: seq<Octet>)
    requires |c.hostName| == |c.domainName| == 64 && |data| <= 255
    ensures var d := Learn(c, ViewItem(Tlv(12, data)));
      d == c.(hostName := d.hostName) && Named(data, c.hostName, d.hostName)
    ensures var d := Learn(c, ViewItem(Tlv(15, data)));
      d == c.(domainName := d.domainName) && Named(data, c.domainName, d.domainName)
  {
    hide Over, NameLength, Named;
    NamedOver(data, c.hostName);
    NamedOver(data, c.domainName);
  }

  /** Timers that the server sets are kept. The others are half of the lease and, below the
      overflow, seven eighths of it. Section 3.3 of RFC 2131 has 0xffffffff for a lease without end:
      with it the second one comes out at less than 50 days. */
  lemma DefaultTimers(c: Params)
    ensures var d := WithDefaults(c);
      && d == c.(t1 := d.t1, t2 := d.t2)
      && d.t1 == (if c.t1 != 0 then c.t1 else c.leaseTime / 2)
      && (c.t2 != 0 ==> d.t2 == c.t2)
      && (c.t2 == 0 && c.leaseTime <= 4908534 ==> d.t2 == c.leaseTime * 7 / 8)
      && (c.t2 == 0 && c.leaseTime == 0xFFFF_FFFF ==> d.t2 == 4294966)
  {
  }

  // ----- The messages as octets -----

  /** A list of options is laid out as these octets and the options from the k-th on. */
  predicate LaidTo(all: seq<Item>, k: nat, octets: seq<Octet>)
    requires AllFit(all) && k <= |all|
  {
    Layout(all) == octets + Layout(all[k..])
  }

  lemma LaidNext(all: seq<Item>, k: nat, octets: seq<Octet>, next: seq<Octet>)
    requires AllFit(all) && k < |all| && LaidTo(all, k, octets) && all[k].Octets() == next
    ensures LaidTo(all, k + 1, octets + next)
  {
    hide Item.Octets;
    assert all[k..][1..] == all[k + 1..];
    assert octets + next + Layout(all[k + 1..]) == octets + (next + Layout(all[k + 1..]));
  }

  lemma LaidFirst(all: seq<Item>, first: seq<Octet>)
    requires AllFit(all) && all != [] && all[0].Octets() == first
    ensures LaidTo(all, 1, first)
  {
    hide Item.Octets;
  }

  lemma LaidAll(all: seq<Item>, octets: seq<Octet>)
    requires AllFit(all) && LaidTo(all, |all|, octets)
    ensures Layout(all) == octets
  {
    assert all[|all|..] == [] && octets + [] == octets;
  }

  /** The options of a reply as octets. */
  lemma ReplyOctets(msgtype: Octet, t: Terms)
    ensures Layout(ReplyItems(msgtype, t)) + [OPT_END] ==
      [53, 1, msgtype] + ([54, 4] + WordOctets(t.server)) + ([51, 4] + WordOctets(t.leaseTime))
      + ([1, 4] + WordOctets(t.netmask)) + ([3, 4] + WordOctets(t.server))
      + ([28, 4] + WordOctets(t.broadcast)) + ([6, 4] + WordOctets(t.dns)) + [255]
  {
    hide WordOctets, Layout, LaidTo;
    var all := ReplyItems(msgtype, t);
    var o := [53, 1, msgtype];
    LaidFirst(all, o);
    LaidNext(all, 1, o, [54, 4] + WordOctets(t.server));
    o := o + ([54, 4] + WordOctets(t.server));
    LaidNext(all, 2, o, [51, 4] + WordOctets(t.leaseTime));
    o := o + ([51, 4] + WordOctets(t.leaseTime));
    LaidNext(all, 3, o, [1, 4] + WordOctets(t.netmask));
    o := o + ([1, 4] + WordOctets(t.netmask));
    LaidNext(all, 4, o, [3, 4] + WordOctets(t.server));
    o := o + ([3, 4] + WordOctets(t.server));
    LaidNext(all, 5, o, [28, 4] + WordOctets(t.broadcast));
    o := o + ([28, 4] + WordOctets(t.broadcast));
    LaidNext(all, 6, o, [6, 4] + WordOctets(t.dns));
    o := o + ([6, 4] + WordOctets(t.dns));
    LaidAll(all, o);
  }

  /** The options of a client's message as octets. */
  lemma ClientOctets(msgtype: Octet, requesting: bool, address: Word32, server: Word32, size: Word16)
    ensures msgtype == 3 && requesting ==>
      Layout(ClientItems(msgtype, requesting, address, server, size)) + [OPT_END] ==
        [57, 2, size / 256, size % 256] + ([50, 4] + WordOctets(address)) + ([54, 4] + WordOctets(server))
        + [53, 1, msgtype] + [55, 7, 1, 2, 3, 12, 58, 59, 6] + [255]
    ensures !(msgtype == 3 && requesting) ==>
      Layout(ClientItems(msgtype, requesting, address, server, size)) + [OPT_END] ==
        [57, 2, size / 256, size % 256] + [53, 1, msgtype] + [55, 7, 1, 2, 3, 12, 58, 59, 6] + [255]
  {
    hide WordOctets, Layout, LaidTo;
    var all := ClientItems(msgtype, requesting, address, server, size);
    var o := [57, 2, size / 256, size % 256];
    var k := 1;
    LaidFirst(all, o);
    if msgtype == 3 && requesting {
      LaidNext(all, 1, o, [50, 4] + WordOctets(address));
      o := o + ([50, 4] + WordOctets(address));
      LaidNext(all, 2, o, [54, 4] + WordOctets(server));
      o := o + ([54, 4] + WordOctets(server));
      k := 3;
    }
    LaidNext(all, k, o, [53, 1, msgtype]);
    o := o + [53, 1, msgtype];
    LaidNext(all, k + 1, o, [55, 7, 1, 2, 3, 12, 58, 59, 6]);
    o := o + [55, 7, 1, 2, 3, 12, 58, 59, 6];
    LaidAll(all, o);
  }
}
