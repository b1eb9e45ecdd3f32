/** The options of a DHCP message: their check, the walk over them, and their builders. */
module DhcpOptions {
  import opened Octets

  const OPT_PAD: Octet := 0x00
  const OPT_NETMASK: Octet := 0x01
  const OPT_TIME: Octet := 0x02
  const OPT_ROUTER: Octet := 0x03
  const OPT_DNS: Octet := 0x06
  const OPT_HOSTNAME: Octet := 0x0c
  const OPT_DOMAINNAME: Octet := 0x0f
  const OPT_BROADCAST: Octet := 0x1c
  const OPT_REQIP: Octet := 0x32
  const OPT_LEASETIME: Octet := 0x33
  const OPT_MSGTYPE: Octet := 0x35
  const OPT_SERVERID: Octet := 0x36
  const OPT_PARAMLIST: Octet := 0x37
  const OPT_MAXMSGSIZE: Octet := 0x39
  const OPT_RENEWALTIME: Octet := 0x3a
  const OPT_REBINDINGTIME: Octet := 0x3b
  const OPT_END: Octet := 0xff

  // ----- Words in network order -----

  function Word(o: seq<Octet>): Word32
    requires |o| == 4
  {
    o[0] as int * 0x100_0000 + o[1] as int * 0x1_0000 + o[2] as int * 256 + o[3] as int
  }

  function WordOctets(w: Word32): (o: seq<Octet>)
    ensures |o| == 4
  {
    [w / 0x100_0000, w / 0x1_0000 % 256, w / 256 % 256, w % 256]
  }

  lemma WordRoundTrip(w: Word32)
    ensures Word(WordOctets(w)) == w
    ensures var o := WordOctets(w);
      w == o[0] as int * 16777216 + o[1] as int * 65536 + o[2] as int * 256 + o[3] as int
  {
    var a, b := w / 256, w / 0x1_0000;
    assert b == a / 256 && w / 0x100_0000 == b / 256;
  }

  // ----- Lists of options -----

  datatype Item = Pad | Tlv(code: Octet, data: seq<Octet>) {
    predicate Fits() {
      Tlv? ==> code != OPT_PAD && code != OPT_END && |data| <= 255
    }

    function Octets(): seq<Octet>
      requires Fits()
    {
      match this
      case Pad => [OPT_PAD]
      case Tlv(c, d) => [c, |d|] + d
    }
  }

  predicate AllFit(items: seq<Item>) {
    forall i :: 0 <= i < |items| ==> items[i].Fits()
  }

  function Layout(items: seq<Item>): seq<Octet>
    requires AllFit(items)
  {
    if items == [] then [] else items[0].Octets() + Layout(items[1..])
  }

  function Tlvs(items: seq<Item>): nat {
    if items == [] then 0 else (if items[0].Tlv? then 1 else 0) + Tlvs(items[1..])
  }

  /** The memory begins with the options, one behind the other, and the end mark. */
  predicate Holds(mem: seq<Octet>, items: seq<Item>) {
    AllFit(items) && Layout(items) + [OPT_END] <= mem
  }

  lemma PrefixParts(mem: seq<Octet>, first: seq<Octet>, rest: seq<Octet>)
    ensures first + rest <= mem <==> first <= mem && rest <= mem[|first|..]
  {
    var whole := first + rest;
    if first + rest <= mem {
      assert forall i :: 0 <= i < |first| ==> whole[i] == first[i];
      assert forall i :: 0 <= i < |rest| ==> rest[i] == whole[|first| + i];
    }
    if first <= mem && rest <= mem[|first|..] {
      assert mem == first + mem[|first|..];
      assert mem[|first|..] == rest + mem[|first|..][|rest|..];
    }
  }

  lemma HoldsRest(mem: seq<Octet>, items: seq<Item>)
    requires Holds(mem, items) && items != []
    ensures items[0].Fits() && items[0].Octets() <= mem
    ensures Holds(mem[|items[0].Octets()|..], items[1..])
  {
    var first, rest := items[0].Octets(), Layout(items[1..]);
    assert Layout(items) + [OPT_END] == first + (rest + [OPT_END]);
    PrefixParts(mem, first, rest + [OPT_END]);
  }

  lemma HoldsCons(mem: seq<Octet>, first: Item, rest: seq<Item>)
    requires first.Fits() && first.Octets() <= mem && Holds(mem[|first.Octets()|..], rest)
    ensures Holds(mem, [first] + rest)
  {
    assert ([first] + rest)[1..] == rest;
    assert Layout([first] + rest) + [OPT_END] == first.Octets() + (Layout(rest) + [OPT_END]);
    PrefixParts(mem, first.Octets(), Layout(rest) + [OPT_END]);
  }

  // ----- The walk -----

  /** How far the option at the front of the memory reaches. */
  function Span(mem: seq<Octet>): nat
    requires 1 < |mem|
  {
    if mem[0] == OPT_PAD then 1 else mem[1] as int + 2
  }

  /** Moves on to the next option, unless the end mark is reached. */
  method NextOption(mem: seq<Octet>, p: nat) returns (more: bool, next: nat)
    requires p + 1 < |mem|
    ensures more <==> mem[p] != OPT_END
    ensures next == p + if more then Span(mem[p..]) else 0
  {
    if mem[p] == OPT_END {
      return false, p;
    }
    if mem[p] == OPT_PAD {
      return true, p + 1;
    }
    return true, p + mem[p + 1] + 2;
  }

  /** Where a walk finds the end mark, and how many options other than pads it passes. */
  datatype End = End(at: nat, tlvs: nat) | NoEnd

  function Shift(e: End, n: nat, k: nat): End {
    if e.End? then End(n + e.at, k + e.tlvs) else e
  }

  function EndOf(mem: seq<Octet>): (e: End)
    ensures e.End? ==> 2 * e.tlvs <= e.at < |mem| && mem[e.at] == OPT_END
    decreases |mem|
  {
    if mem == [] then NoEnd
    else if mem[0] == OPT_END then End(0, 0)
    else if |mem| == 1 || |mem| < Span(mem) then NoEnd
    else Shift(EndOf(mem[Span(mem)..]), Span(mem), if mem[0] == OPT_PAD then 0 else 1)
  }

  lemma FrontOption(mem: seq<Octet>, item: Item)
    requires item.Fits() && item.Octets() <= mem && 1 < |mem|
    ensures mem[0] != OPT_END && Span(mem) == |item.Octets()| && (mem[0] == OPT_PAD <==> item.Pad?)
  {
    assert mem[0] == item.Octets()[0];
    assert item.Tlv? ==> mem[1] == item.Octets()[1];
  }

  /** A walk over a list of options passes all of them and ends at its end mark. */
  lemma {:induction false} EndOfLayout(mem: seq<Octet>, items: seq<Item>)
    requires Holds(mem, items)
    ensures EndOf(mem) == End(|Layout(items)|, Tlvs(items))
    decreases |items|
  {
    if items == [] {
      assert mem[0] == (Layout([]) + [OPT_END])[0];
    } else {
      HoldsRest(mem, items);
      FrontOption(mem, items[0]);
      assert |Layout(items)| == |items[0].Octets()| + |Layout(items[1..])|;
      hide Item.Octets, Holds;
      EndOfLayout(mem[Span(mem)..], items[1..]);
    }
  }

  function FirstItem(mem: seq<Octet>): (item: Item)
    requires 1 < |mem| && mem[0] != OPT_END && Span(mem) <= |mem|
    ensures item.Fits()
  {
    if mem[0] == OPT_PAD then Pad else Tlv(mem[0], mem[2..Span(mem)])
  }

  lemma FirstItemOctets(mem: seq<Octet>)
    requires 1 < |mem| && mem[0] != OPT_END && Span(mem) <= |mem|
    ensures FirstItem(mem).Octets() == mem[..Span(mem)]
  {
  }

  /** The options that a walk passes. */
  function ItemsOf(mem: seq<Octet>): (items: seq<Item>)
    requires EndOf(mem).End?
    ensures AllFit(items)
    decreases |mem|
  {
    if mem[0] == OPT_END then [] else [FirstItem(mem)] + ItemsOf(mem[Span(mem)..])
  }

  /** Wherever a walk ends, it has passed a list of options. */
  lemma {:induction false} LayoutOfItems(mem: seq<Octet>)
    requires EndOf(mem).End?
    ensures Holds(mem, ItemsOf(mem))
    decreases |mem|
  {
    if mem[0] == OPT_END {
      assert Layout([]) + [OPT_END] == [mem[0]];
    } else {
      LayoutOfItems(mem[Span(mem)..]);
      FirstItemOctets(mem);
      hide Holds, Item.Octets, FirstItem;
      HoldsCons(mem, FirstItem(mem), ItemsOf(mem[Span(mem)..]));
    }
  }

  // ----- The check -----

  /** What the check accepts: an end mark is found, with one octet of slack for every option
      passed. */
  predicate Accepted(mem: seq<Octet>, len: int) {
    var e := EndOf(mem);
    e.End? && e.at - e.tlvs < len
  }

  /** A walk that has come to p, passing k options. */
  predicate Walked(mem: seq<Octet>, p: nat, k: nat) {
    p <= |mem| && EndOf(mem) == Shift(EndOf(mem[p..]), p, k)
  }

  lemma EndOfNext(mem: seq<Octet>)
    requires 1 < |mem| && mem[0] != OPT_END && Span(mem) <= |mem|
    ensures EndOf(mem) == Shift(EndOf(mem[Span(mem)..]), Span(mem), if mem[0] == OPT_PAD then 0 else 1)
  {
  }

  lemma WalkOn(mem: seq<Octet>, p: nat, k: nat)
    requires Walked(mem, p, k) && p + 1 < |mem| && mem[p] != OPT_END
    ensures mem[p] == OPT_PAD ==> Walked(mem, p + 1, k)
    ensures var q := p + (mem[p + 1] as int + 2); mem[p] != OPT_PAD && q <= |mem| ==> Walked(mem, q, k + 1)
  {
    hide EndOf;
    var n := Span(mem[p..]);
    if p + n <= |mem| {
      EndOfNext(mem[p..]);
      assert mem[p..][n..] == mem[p + n..];
    }
  }

  /** An option that leaves no room behind it is not followed by an acceptable end mark. */
  lemma WalkOver(mem: seq<Octet>, p: nat, k: nat, length: int)
    requires Walked(mem, p, k) && p + 1 < |mem| && mem[p] != OPT_END && mem[p] != OPT_PAD
    requires length - (p - k) <= mem[p + 1] as int + 1
    ensures !Accepted(mem, length)
  {
  }

  /** The check after it has come to p, with len octets of the length left. */
  predicate Checking(mem: seq<Octet>, p: nat, len: int, length: int) {
    var k := p - (length - len);
    0 <= k && p <= 2 * (length - len) && Walked(mem, p, k)
  }

  lemma CheckStarts(mem: seq<Octet>, length: int)
    ensures Checking(mem, 0, length, length)
  {
    hide EndOf;
    assert mem[0..] == mem;
  }

  lemma CheckStep(mem: seq<Octet>, p: nat, len: int, length: int)
    requires Checking(mem, p, len, length) && 0 < len && 2 * length <= |mem|
    ensures p + 1 < |mem|
    ensures mem[p] == OPT_END ==> Accepted(mem, length)
    ensures mem[p] == OPT_PAD ==> Checking(mem, p + 1, len - 1, length)
    ensures mem[p] != OPT_END && mem[p] != OPT_PAD ==>
      var optlen: int := mem[p + 1];
      if len - 1 < optlen + 1 then !Accepted(mem, length) else Checking(mem, p + 2 + optlen, len - 1 - optlen, length)
  {
    var k := p - (length - len);
    if mem[p] != OPT_END {
      WalkOn(mem, p, k);
      hide Walked, Accepted;
      if mem[p] != OPT_PAD && len - 1 < mem[p + 1] as int + 1 {
        WalkOver(mem, p, k, length);
      }
    }
  }

  lemma CheckEnds(mem: seq<Octet>, p: nat, len: int, length: int)
    requires Checking(mem, p, len, length) && len <= 0
    ensures !Accepted(mem, length)
  {
  }

  /** Checks the options in len octets of memory. It may look at as many octets again. */
  method AreOptionsValid(mem: seq<Octet>, length: int) returns (valid: bool)
    requires 2 * length <= |mem|
    ensures valid == Accepted(mem, length)
  {
    hide *;
    var len, p := length, 0;
    CheckStarts(mem, length);
    while len > 0
      invariant 0 <= p && Checking(mem, p, len, length)
      decreases len
    {
      CheckStep(mem, p, len, length);
      if mem[p] == OPT_END {
        return true;
      } else if mem[p] == OPT_PAD {
        p, len := p + 1, len - 1;
      } else {
        p, len := p + 1, len - 1;
        var optlen: int := mem[p];
        if len <= 0 || len - (optlen + 1) < 0 {
          return false;
        }
        p := p + optlen + 1;
        len := len - optlen;
      }
    }
    CheckEnds(mem, p, len, length);
    return false;
  }

  /** Exactly when is a message accepted: it holds a list of options whose end mark lies within
      the length, or behind it by less than the number of options that are not pads. */
  lemma AcceptedIff(mem: seq<Octet>, len: int)
    ensures Accepted(mem, len) <==> exists items :: Holds(mem, items) && |Layout(items)| - Tlvs(items) < len
  {
    if Accepted(mem, len) {
      LayoutOfItems(mem);
      EndOfLayout(mem, ItemsOf(mem));
    }
    if exists items :: Holds(mem, items) && |Layout(items)| - Tlvs(items) < len {
      var items :| Holds(mem, items) && |Layout(items)| - Tlvs(items) < len;
      EndOfLayout(mem, items);
    }
  }

  /** Every list of options within the length is accepted. */
  lemma WellFormedAccepted(mem: seq<Octet>, len: int, items: seq<Item>)
    requires Holds(mem, items) && |Layout(items)| < len
    ensures Accepted(mem, len)
  {
    EndOfLayout(mem, items);
  }

  /** The slack is real: an end mark behind the length is accepted. */
  lemma SlackAccepted()
    ensures var mem := [OPT_MSGTYPE, 1, 0, OPT_END];
      Accepted(mem, 3) && mem[3] == OPT_END && OPT_END !in mem[..3]
  {
    var mem := [OPT_MSGTYPE, 1, 0, OPT_END];
    assert mem[3..] == [OPT_END];
  }
}
