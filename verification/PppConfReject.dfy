/** The Configure-Request of LCP, what LCP takes in, and how it answers a request: acceptance, or a
    rejection that repeats exactly the options that are not supported. */
module PppConfReject {
  import opened Octets
  import opened Sequences
  import PppAutomata

  const CONF_REQ: Octet := 1
  const CONF_ACK: Octet := 2
  const CONF_NAK: Octet := 3
  const CONF_REJ: Octet := 4
  const ECHO_REQ: Octet := 9
  const OPT_MRU: Octet := 1
  const OPT_AUTH: Octet := 3
  const OPT_PROTO_COMP: Octet := 7
  const OPT_ADDRCTL_COMP: Octet := 8

  /** The options that a new device supports: MRU, authentication, and the two compressions. */
  const LOCAL_OPTIONS: set<nat> := {1, 3, 7, 8}

  const PPP_MRU: Word16 := 1514

  const HEADER: nat := 4

  // ----- Options -----

  datatype Opt = Opt(kind: Octet, data: seq<Octet>) {
    predicate Fits() {
      |data| <= 253
    }
  }

  predicate AllFit(opts: seq<Opt>) {
    forall i :: 0 <= i < |opts| ==> opts[i].Fits()
  }

  function EncodeOne(o: Opt): seq<Octet>
    requires o.Fits()
  {
    [o.kind, 2 + |o.data|] + o.data
  }

  function Encode(opts: seq<Opt>): seq<Octet>
    requires AllFit(opts)
  {
    if opts == [] then [] else Encode(opts[..|opts| - 1]) + EncodeOne(opts[|opts| - 1])
  }

  lemma EncodeLast(front: seq<Opt>, last: Opt)
    requires AllFit(front) && last.Fits()
    ensures AllFit(front + [last]) && Encode(front + [last]) == Encode(front) + EncodeOne(last)
  {
    assert (front + [last])[..|front|] == front;
  }

  lemma {:induction false} EncodeConcat(a: seq<Opt>, b: seq<Opt>)
    requires AllFit(a) && AllFit(b)
    ensures AllFit(a + b) && Encode(a + b) == Encode(a) + Encode(b)
  {
    hide EncodeOne;
    if b == [] {
      assert a + b == a;
    } else {
      hide Encode;
      var front, last := b[..|b| - 1], b[|b| - 1];
      assert a + b == (a + front) + [last] && b == front + [last];
      EncodeConcat(a, front);
      EncodeLast(a + front, last);
      EncodeLast(front, last);
    }
  }

  /** The k-th option lies where the ones before it end. */
  lemma EncodeAt(opts: seq<Opt>, k: nat)
    requires AllFit(opts) && k < |opts|
    ensures var p, n := |Encode(opts[..k])|, 2 + |opts[k].data|;
      && p + n <= |Encode(opts)|
      && Encode(opts)[p..p + n] == EncodeOne(opts[k])
      && |Encode(opts[..k + 1])| == p + n
  {
    var front, rest := opts[..k], opts[k + 1..];
    assert opts == (front + [opts[k]]) + rest;
    EncodeConcat(front + [opts[k]], rest);
    assert (front + [opts[k]])[..k] == front;
    assert opts[..k + 1] == front + [opts[k]];
  }

  // ----- Option flags -----

  /** The bit that a type sets in a 16-bit word of flags, as a set of bit numbers. */
  function Flag(kind: Octet): set<nat> {
    if kind < 16 then {kind} else {}
  }

  function Flags(opts: seq<Opt>): set<nat> {
    if opts == [] then {} else Flags(opts[..|opts| - 1]) + Flag(opts[|opts| - 1].kind)
  }

  lemma {:induction false} FlagsMean(opts: seq<Opt>, b: nat)
    ensures b in Flags(opts) <==> b < 16 && exists i :: 0 <= i < |opts| && opts[i].kind == b
  {
    if opts != [] {
      var front := opts[..|opts| - 1];
      FlagsMean(front, b);
      if b < 16 && exists i :: 0 <= i < |opts| && opts[i].kind == b {
        var i :| 0 <= i < |opts| && opts[i].kind == b;
        assert i < |front| ==> front[i].kind == b;
      }
      if b in Flags(front) {
        var i :| 0 <= i < |front| && front[i].kind == b;
        assert opts[i].kind == b;
      }
    }
  }

  /** A packet whose options are the given ones. */
  predicate Holds(pkt: seq<Octet>, len: nat, opts: seq<Opt>) {
    && HEADER <= len <= |pkt|
    && AllFit(opts)
    && pkt[HEADER..len] == Encode(opts)
  }

  /** What LCP knows of options: those it supports and those the peer asked for, as flags; what
      is to be rejected; the size of packets; and the authentication protocol. */
  datatype Options = Options(local: set<nat>, peer: set<nat>, rej: set<nat>, mru: Word16, auth: Word16)

  /** A walk over options: the flags so far, and the settings to adopt. */
  datatype Walk = Walk(flags: set<nat>, mru: Word16, auth: Word16)

  predicate Readable(pkt: seq<Octet>, len: nat) {
    len + 3 <= |pkt|
  }

  function Setting(hi: Octet, lo: Octet): Word16 {
    hi as int * 256 + lo as int
  }

  function See(w: Walk, pkt: seq<Octet>, p: nat, adjust: bool): Walk
    requires p + 3 < |pkt|
  {
    var value := Setting(pkt[p + 2], pkt[p + 3]);
    Walk(Flag(pkt[p]) + w.flags,
         if adjust && pkt[p] == OPT_MRU then value else w.mru,
         if adjust && pkt[p] == OPT_AUTH then value else w.auth)
  }

  /** The walk over the options of any packet, well formed or not: it ends behind the packet
      or at an option of length zero. Three octets behind the packet can be read. */
  function WalkFrom(w: Walk, pkt: seq<Octet>, p: nat, len: nat, adjust: bool): Walk
    requires Readable(pkt, len)
    decreases len - p
  {
    if len <= p then w
    else
      var w1 := See(w, pkt, p, adjust);
      if pkt[p + 1] == 0 then w1 else WalkFrom(w1, pkt, p + pkt[p + 1], len, adjust)
  }

  /** The flags alone. */
  function FlagsFrom(pkt: seq<Octet>, p: nat, len: nat): set<nat>
    requires Readable(pkt, len)
    decreases len - p
  {
    if len <= p then {}
    else Flag(pkt[p]) + if pkt[p + 1] == 0 then {} else FlagsFrom(pkt, p + pkt[p + 1], len)
  }

  lemma {:induction false} WalkedFlags(w: Walk, pkt: seq<Octet>, p: nat, len: nat, adjust: bool)
    requires Readable(pkt, len)
    ensures WalkFrom(w, pkt, p, len, adjust).flags == w.flags + FlagsFrom(pkt, p, len)
    decreases len - p
  {
    if p < len && pkt[p + 1] != 0 {
      hide Flag;
      WalkedFlags(See(w, pkt, p, adjust), pkt, p + pkt[p + 1], len, adjust);
    }
  }

  /** The places at which a walk over any packet from p on finds a type: each lies behind the one
      before it by the length found there, the last has no length or is the last within the packet. */
  predicate Places(pkt: seq<Octet>, len: nat, p: nat, ps: seq<nat>)
    requires Readable(pkt, len)
  {
    && (ps == [] <==> len <= p)
    && (forall i :: 0 <= i < |ps| ==> ps[i] < len)
    && (ps != [] ==> ps[0] == p)
    && (forall i :: 0 <= i < |ps| - 1 ==> pkt[ps[i] + 1] != 0 && ps[i + 1] == ps[i] + pkt[ps[i] + 1])
    && (ps != [] ==> var last := ps[|ps| - 1]; pkt[last + 1] == 0 || len <= last + pkt[last + 1])
  }

  /** The i-th place is the last one with a type, and this is the value behind it. */
  predicate AdoptsAt(pkt: seq<Octet>, ps: seq<nat>, kind: Octet, i: int, value: Word16)
    requires forall i :: 0 <= i < |ps| ==> ps[i] + 3 < |pkt|
  {
    && 0 <= i < |ps| && pkt[ps[i]] == kind
    && value == pkt[ps[i] + 2] as int * 256 + pkt[ps[i] + 3] as int
    && forall j :: i < j < |ps| ==> pkt[ps[j]] != kind
  }

  /** The value behind the last of the places with a type, or the one before if there is none. */
  ghost predicate Adopts(pkt: seq<Octet>, ps: seq<nat>, kind: Octet, before: Word16, after: Word16)
    requires forall i :: 0 <= i < |ps| ==> ps[i] + 3 < |pkt|
  {
    || (after == before && forall i :: 0 <= i < |ps| ==> pkt[ps[i]] != kind)
    || exists i :: AdoptsAt(pkt, ps, kind, i, after)
  }

  /** There are such places for every packet. */
  lemma {:induction false} PlacesOf(pkt: seq<Octet>, len: nat, p: nat) returns (ps: seq<nat>)
    requires Readable(pkt, len)
    ensures Places(pkt, len, p, ps)
    decreases len - p
  {
    hide Places;
    if len <= p {
      ps := [];
      PlacesNone(pkt, len, p);
    } else if pkt[p + 1] == 0 {
      ps := [p];
      PlacesLast(pkt, len, p);
    } else {
      var rest := PlacesOf(pkt, len, p + pkt[p + 1]);
      ps := [p] + rest;
      PlacesFirst(pkt, len, p, rest);
    }
  }

  lemma PlacesNone(pkt: seq<Octet>, len: nat, p: nat)
    requires Readable(pkt, len) && len <= p
    ensures Places(pkt, len, p, [])
  {
  }

  lemma PlacesLast(pkt: seq<Octet>, len: nat, p: nat)
    requires Readable(pkt, len) && p < len && pkt[p + 1] == 0
    ensures Places(pkt, len, p, [p])
  {
  }

  lemma PlacesFirst(pkt: seq<Octet>, len: nat, p: nat, rest: seq<nat>)
    requires Readable(pkt, len) && p < len && pkt[p + 1] != 0 && Places(pkt, len, p + pkt[p + 1], rest)
    ensures Places(pkt, len, p, [p] + rest)
  {
    var ps := [p] + rest;
    assert forall i :: 0 < i < |ps| ==> ps[i] == rest[i - 1];
    forall i | 0 <= i < |ps| - 1
      ensures pkt[ps[i] + 1] != 0 && ps[i + 1] == ps[i] + pkt[ps[i] + 1]
    {
      if i > 0 {
        assert ps[i] == rest[i - 1] && ps[i + 1] == rest[(i - 1) + 1];
      }
    }
    assert ps[|ps| - 1] == if rest == [] then p else rest[|rest| - 1];
  }

  lemma PlacesRest(pkt: seq<Octet>, len: nat, p: nat, ps: seq<nat>)
    requires Readable(pkt, len) && Places(pkt, len, p, ps) && p < len
    ensures if pkt[p + 1] == 0 then ps == [p] else Places(pkt, len, p + pkt[p + 1], ps[1..])
  {
    if pkt[p + 1] == 0 {
      assert |ps| == 1;
    } else {
      var rest := ps[1..];
      assert forall i :: 0 <= i < |rest| ==> rest[i] == ps[i + 1];
      assert rest != [] ==> rest[0] == ps[0 + 1] && rest[|rest| - 1] == ps[|ps| - 1];
      assert rest == [] ==> ps[|ps| - 1] == ps[0];
      forall i | 0 <= i < |rest| - 1
        ensures pkt[rest[i] + 1] != 0 && rest[i + 1] == rest[i] + pkt[rest[i] + 1]
      {
        assert rest[i] == ps[i + 1] && rest[i + 1] == ps[(i + 1) + 1];
      }
    }
  }

  /** The walk over any packet, well formed or not, collects the types below 16 that it finds and
      adopts the last values of MRU and authentication. */
  ghost predicate Collects(pkt: seq<Octet>, ps: seq<nat>, w: Walk, w': Walk)
    requires forall i :: 0 <= i < |ps| ==> ps[i] + 3 < |pkt|
  {
    && (forall f :: f in w'.flags <==>
         f in w.flags || (f < 16 && exists i :: 0 <= i < |ps| && pkt[ps[i]] == f))
    && Adopts(pkt, ps, 1, w.mru, w'.mru)
    && Adopts(pkt, ps, 3, w.auth, w'.auth)
  }

  lemma AdoptsFirst(pkt: seq<Octet>, ps: seq<nat>, kind: Octet, before: Word16, after: Word16)
    requires ps != [] && forall i :: 0 <= i < |ps| ==> ps[i] + 3 < |pkt|
    requires Adopts(pkt, ps[1..], kind, if pkt[ps[0]] == kind then SettingAt(pkt, ps[0]) else before, after)
    ensures Adopts(pkt, ps, kind, before, after)
  {
    var rest := ps[1..];
    if i :| AdoptsAt(pkt, rest, kind, i, after) {
      assert forall j :: i + 1 < j < |ps| ==> ps[j] == rest[j - 1];
      assert AdoptsAt(pkt, ps, kind, i + 1, after);
    } else {
      assert forall j :: 0 < j < |ps| ==> ps[j] == rest[j - 1];
      assert pkt[ps[0]] == kind ==> AdoptsAt(pkt, ps, kind, 0, after);
    }
  }

  lemma CollectsFirst(pkt: seq<Octet>, ps: seq<nat>, w: Walk, w': Walk)
    requires ps != [] && forall i :: 0 <= i < |ps| ==> ps[i] + 3 < |pkt|
    requires Collects(pkt, ps[1..], See(w, pkt, ps[0], true), w')
    ensures Collects(pkt, ps, w, w')
  {
    hide Adopts;
    var rest := ps[1..];
    AdoptsFirst(pkt, ps, 1, w.mru, w'.mru);
    AdoptsFirst(pkt, ps, 3, w.auth, w'.auth);
    assert forall i :: 0 <= i < |rest| ==> rest[i] == ps[i + 1];
    assert forall i :: 0 < i < |ps| ==> ps[i] == rest[i - 1];
  }

  lemma {:induction false} WalkCollects(w: Walk, pkt: seq<Octet>, p: nat, len: nat, ps: seq<nat>)
    requires Readable(pkt, len) && Places(pkt, len, p, ps)
    ensures Collects(pkt, ps, w, WalkFrom(w, pkt, p, len, true))
    decreases len - p
  {
    if p < len {
      PlacesRest(pkt, len, p, ps);
      hide See, Collects, Places;
      var w1 := See(w, pkt, p, true);
      if pkt[p + 1] == 0 {
        CollectsNothing(pkt, w1);
      } else {
        WalkCollects(w1, pkt, p + pkt[p + 1], len, ps[1..]);
      }
      assert ps[1..] == if pkt[p + 1] == 0 then [] else ps[1..];
      CollectsFirst(pkt, ps, w, WalkFrom(w, pkt, p, len, true));
    }
  }

  lemma CollectsNothing(pkt: seq<Octet>, w: Walk)
    ensures Collects(pkt, [], w, w)
  {
  }

  /** Over well-formed options the walk collects the types of all of them. */
  lemma {:induction false} FlagsOfOptions(pkt: seq<Octet>, len: nat, opts: seq<Opt>, k: nat)
    requires Holds(pkt, len, opts) && Readable(pkt, len) && k <= |opts|
    ensures HEADER + |Encode(opts[..k])| <= len
    ensures Flags(opts[..k]) + FlagsFrom(pkt, HEADER + |Encode(opts[..k])|, len) == Flags(opts)
    decreases |opts| - k
  {
    var p := HEADER + |Encode(opts[..k])|;
    if k == |opts| {
      assert opts[..k] == opts;
    } else {
      OptionAt(pkt, len, opts, k);
      FlagsOfOptions(pkt, len, opts, k + 1);
      assert opts[..k + 1][..k] == opts[..k];
    }
  }

  lemma OptionAt(pkt: seq<Octet>, len: nat, opts: seq<Opt>, k: nat)
    requires Holds(pkt, len, opts) && k < |opts|
    ensures var p, n := HEADER + |Encode(opts[..k])|, 2 + |opts[k].data|;
      && p + n <= len
      && pkt[p..p + n] == EncodeOne(opts[k])
      && pkt[p] == opts[k].kind && pkt[p + 1] == n
      && HEADER + |Encode(opts[..k + 1])| == p + n
  {
    hide Encode;
    EncodeAt(opts, k);
    var q, n := |Encode(opts[..k])|, 2 + |opts[k].data|;
    SliceOfSlice(pkt, HEADER, len, q, q + n);
    EncodedHead(pkt, HEADER + q, opts[k]);
  }

  lemma EncodedHead(pkt: seq<Octet>, p: nat, o: Opt)
    requires o.Fits() && p + 2 + |o.data| <= |pkt| && pkt[p..p + 2 + |o.data|] == EncodeOne(o)
    ensures pkt[p] == o.kind && pkt[p + 1] == 2 + |o.data|
  {
    var piece := pkt[p..p + 2 + |o.data|];
    assert piece[0] == pkt[p] && piece[1] == pkt[p + 1];
  }

  /** Where the k-th option begins. */
  function Begins(opts: seq<Opt>, k: nat): nat
    requires AllFit(opts) && k <= |opts|
  {
    HEADER + |Encode(opts[..k])|
  }

  /** What the code takes for the value of an option: the two octets behind its head. */
  function SettingAt(pkt: seq<Octet>, p: nat): Word16
    requires p + 3 < |pkt|
  {
    Setting(pkt[p + 2], pkt[p + 3])
  }

  /** The value adopted from the last of the first k options of a type, if there is any. */
  function LastSetting(pkt: seq<Octet>, len: nat, opts: seq<Opt>, k: nat, kind: Octet, before: Word16): Word16
    requires Holds(pkt, len, opts) && Readable(pkt, len) && k <= |opts|
  {
    if k == 0 then before
    else
      OptionAt(pkt, len, opts, k - 1);
      if opts[k - 1].kind == kind then SettingAt(pkt, Begins(opts, k - 1))
      else LastSetting(pkt, len, opts, k - 1, kind, before)
  }

  /** The value of an option that carries one in full is the one it carries; otherwise it is made
      up of the octets that follow. */
  lemma SettingIsCarried(pkt: seq<Octet>, len: nat, opts: seq<Opt>, k: nat)
    requires Holds(pkt, len, opts) && k < |opts| && 2 <= |opts[k].data|
    ensures Begins(opts, k) + 3 < |pkt|
    ensures SettingAt(pkt, Begins(opts, k)) == Setting(opts[k].data[0], opts[k].data[1])
  {
    hide Encode;
    OptionAt(pkt, len, opts, k);
    var p, n := Begins(opts, k), 2 + |opts[k].data|;
    var piece := pkt[p..p + n];
    assert piece[2] == pkt[p + 2] && piece[3] == pkt[p + 3];
    assert piece[2] == EncodeOne(opts[k])[2] && piece[3] == EncodeOne(opts[k])[3];
  }

  /** The walk over the first k options. */
  function WalkedTo(w: Walk, pkt: seq<Octet>, len: nat, opts: seq<Opt>, k: nat): Walk
    requires Holds(pkt, len, opts) && Readable(pkt, len) && k <= |opts|
  {
    Walk(w.flags + Flags(opts[..k]), LastSetting(pkt, len, opts, k, OPT_MRU, w.mru),
         LastSetting(pkt, len, opts, k, OPT_AUTH, w.auth))
  }

  /** Over well-formed options the walk collects the types of all of them, and adopts the last
      setting of each type that has one. */
  lemma {:induction false} SettingsOfOptions(w: Walk, pkt: seq<Octet>, len: nat, opts: seq<Opt>, k: nat)
    requires Holds(pkt, len, opts) && Readable(pkt, len) && k <= |opts|
    ensures Begins(opts, k) <= len
    ensures WalkFrom(WalkedTo(w, pkt, len, opts, k), pkt, Begins(opts, k), len, true)
         == WalkedTo(w, pkt, len, opts, |opts|)
    decreases |opts| - k
  {
    hide Encode, EncodeOne, WalkedTo, See, Setting;
    if k == |opts| {
      assert opts[..k] == opts;
    } else {
      OptionAt(pkt, len, opts, k);
      SettingsOfOptions(w, pkt, len, opts, k + 1);
      SeeOption(w, pkt, len, opts, k);
    }
  }

  lemma SeeOption(w: Walk, pkt: seq<Octet>, len: nat, opts: seq<Opt>, k: nat)
    requires Holds(pkt, len, opts) && Readable(pkt, len) && k < |opts| && Begins(opts, k) < len
    ensures See(WalkedTo(w, pkt, len, opts, k), pkt, Begins(opts, k), true) == WalkedTo(w, pkt, len, opts, k + 1)
  {
    hide Encode, EncodeOne, Setting, Flag;
    OptionAt(pkt, len, opts, k);
    assert opts[..k + 1][..k] == opts[..k];
  }

  // ----- The rejection -----

  /** What the builder of the rejection copies: types with their flag set, and all above 8. */
  predicate Copied(kind: Octet, rej: set<nat>) {
    kind in rej || kind > 8
  }

  function Filter(opts: seq<Opt>, rej: set<nat>): (r: seq<Opt>)
    ensures AllFit(opts) ==> AllFit(r)
  {
    if opts == [] then []
    else
      var front, last := Filter(opts[..|opts| - 1], rej), opts[|opts| - 1];
      if Copied(last.kind, rej) then front + [last] else front
  }

  /** Kept are those with a type to be rejected, and those with a type above 8 whether it is or not. */
  lemma {:induction false} FilterMeans(opts: seq<Opt>, rej: set<nat>, o: Opt)
    ensures o in Filter(opts, rej) <==> o in opts && (o.kind as nat in rej || 9 <= o.kind)
  {
    if opts != [] {
      var front, last := opts[..|opts| - 1], opts[|opts| - 1];
      FilterMeans(front, rej, o);
      assert o in opts <==> o in front || o == last;
    }
  }

  lemma FilterAppend(front: seq<Opt>, last: Opt, rej: set<nat>)
    requires AllFit(front) && last.Fits()
    ensures AllFit(front + [last])
    ensures Encode(Filter(front + [last], rej))
         == Encode(Filter(front, rej)) + if Copied(last.kind, rej) then EncodeOne(last) else []
  {
    assert (front + [last])[..|front|] == front;
    var f := Filter(front, rej);
    assert (f + [last])[..|f|] == f;
  }

  const OPTIONS_AT: nat := 9
  const REJECT_ROOM: nat := 52

  /** An option that holds the copying loop up: one of length zero, which the loop does not get past,
      or a shorter one than its head that is copied, whose data it does not come to the end of. */
  predicate Stuck(kind: Octet, length: Octet, rej: set<nat>) {
    length == 0 || (length == 1 && Copied(kind, rej))
  }

  /** The options that the copying loop comes to from p on do not hold it up, and those that it
      copies lie in memory. */
  predicate Copyable(pkt: seq<Octet>, p: nat, len: nat, rej: set<nat>)
    decreases len - p
  {
    len <= p ||
    (&& p + 1 < |pkt|
     && !Stuck(pkt[p], pkt[p + 1], rej)
     && (Copied(pkt[p], rej) ==> p + pkt[p + 1] <= |pkt|)
     && Copyable(pkt, p + pkt[p + 1], len, rej))
  }

  /** What it copies of them. */
  function CopiedFrom(pkt: seq<Octet>, p: nat, len: nat, rej: set<nat>): seq<Octet>
    requires Copyable(pkt, p, len, rej)
    decreases len - p
  {
    if len <= p then []
    else
      (if Copied(pkt[p], rej) then pkt[p..p + pkt[p + 1]] else []) + CopiedFrom(pkt, p + pkt[p + 1], len, rej)
  }

  /** Copies one option behind those copied before. */
  method CopyOption(pkt: seq<Octet>, p: nat, dst: array<int>, at: nat) returns (next: nat)
    requires p + 2 <= |pkt| && 2 <= pkt[p + 1] && p + pkt[p + 1] <= |pkt|
    requires OPTIONS_AT <= at && at + pkt[p + 1] <= dst.Length
    modifies dst
    ensures next == at + pkt[p + 1]
    ensures dst[OPTIONS_AT..next] == old(dst[OPTIONS_AT..at]) + pkt[p..p + pkt[p + 1]]
  {
    next := at;
    dst[next] := pkt[p];
    next := next + 1;
    dst[next] := pkt[p + 1];
    next := next + 1;
    var i := 0;
    while i < pkt[p + 1] - 2
      invariant 0 <= i <= pkt[p + 1] - 2
      invariant next == at + 2 + i
      invariant dst[OPTIONS_AT..next] == old(dst[OPTIONS_AT..at]) + pkt[p..p + 2 + i]
    {
      ghost var done := dst[OPTIONS_AT..next];
      dst[next] := pkt[p + 2 + i];
      next := next + 1;
      i := i + 1;
      assert dst[OPTIONS_AT..next] == done + [pkt[p + 1 + i]];
      assert pkt[p..p + 2 + i] == pkt[p..p + 1 + i] + [pkt[p + 1 + i]];
    }
  }

  lemma CopyStep(pkt: seq<Octet>, p: nat, len: nat, rej: set<nat>)
    requires Copyable(pkt, p, len, rej) && p < len
    ensures p + 1 < |pkt| && 1 <= pkt[p + 1] && Copyable(pkt, p + pkt[p + 1], len, rej)
    ensures Copied(pkt[p], rej) ==> 2 <= pkt[p + 1] && p + pkt[p + 1] <= |pkt|
    ensures CopiedFrom(pkt, p, len, rej)
         == (if Copied(pkt[p], rej) then pkt[p..p + pkt[p + 1]] else []) + CopiedFrom(pkt, p + pkt[p + 1], len, rej)
  {
    hide Copied;
  }

  lemma CopyDone(pkt: seq<Octet>, p: nat, len: nat, rej: set<nat>)
    requires len <= p
    ensures Copyable(pkt, p, len, rej) && CopiedFrom(pkt, p, len, rej) == []
  {
  }

  lemma CopyOn(pkt: seq<Octet>, p: nat, len: nat, rej: set<nat>)
    requires p < len && p + 1 < |pkt| && !Stuck(pkt[p], pkt[p + 1], rej) && p + pkt[p + 1] <= |pkt|
    requires Copyable(pkt, p + pkt[p + 1], len, rej)
    ensures Copyable(pkt, p, len, rej)
    ensures CopiedFrom(pkt, p, len, rej)
         == (if Copied(pkt[p], rej) then pkt[p..p + pkt[p + 1]] else []) + CopiedFrom(pkt, p + pkt[p + 1], len, rej)
  {
    hide Copied, Stuck;
  }

  /** Copies the options to be rejected of any packet, well formed or not. */
  method CopyRejected(pkt: seq<Octet>, len: nat, rej: set<nat>, dst: array<int>) returns (at: nat)
    requires Copyable(pkt, HEADER, len, rej)
    requires OPTIONS_AT + |CopiedFrom(pkt, HEADER, len, rej)| <= dst.Length
    modifies dst
    ensures at == OPTIONS_AT + |CopiedFrom(pkt, HEADER, len, rej)|
    ensures dst[OPTIONS_AT..at] == CopiedFrom(pkt, HEADER, len, rej)
  {
    hide *;
    at := OPTIONS_AT;
    var p := HEADER;
    while p < len
      invariant OPTIONS_AT <= at <= dst.Length
      invariant Copyable(pkt, p, len, rej)
      invariant dst[OPTIONS_AT..at] + CopiedFrom(pkt, p, len, rej) == CopiedFrom(pkt, HEADER, len, rej)
      decreases len - p
    {
      CopyStep(pkt, p, len, rej);
      ghost var done, rest := dst[OPTIONS_AT..at], CopiedFrom(pkt, p + pkt[p + 1], len, rej);
      if Copied(pkt[p], rej) {
        assert done + (pkt[p..p + pkt[p + 1]] + rest) == (done + pkt[p..p + pkt[p + 1]]) + rest;
        at := CopyOption(pkt, p, dst, at);
      }
      p := p + pkt[p + 1];
    }
    CopyDone(pkt, p, len, rej);
  }

  // When the copying loop ends.

  /** The bound of the loop over the data of an option, which is taken in 32 bits. */
  function DataBound(length: Octet): Word32 {
    (length as int - 2) % 0x1_0000_0000
  }

  /** The counter of that loop has one octet; the loop ends when it reaches the bound. */
  ghost predicate DataEnds(length: Octet) {
    exists turns: nat :: DataBound(length) <= turns % 256
  }

  /** So it ends exactly if the option is not shorter than its head. */
  lemma DataEndsIff(length: Octet)
    ensures DataEnds(length) <==> 2 <= length
  {
    if 2 <= length {
      assert DataBound(length) <= (length - 2) % 256;
    }
  }

  /** Where the loop over the options is after so many turns: behind as many options, or at one that is
      copied and whose data it does not come to the end of. */
  ghost function After(pkt: seq<Octet>, p: nat, len: nat, rej: set<nat>, turns: nat): nat
    requires Readable(pkt, len)
    decreases turns
  {
    if turns == 0 || len <= p then p
    else if Copied(pkt[p], rej) && !DataEnds(pkt[p + 1]) then p
    else After(pkt, p + pkt[p + 1], len, rej, turns - 1)
  }

  /** The copying loop ends on a packet, well formed or not, exactly when no option that it comes to
      holds it up, given memory behind the packet for one longest option. */
  lemma CopyEndsIff(pkt: seq<Octet>, len: nat, rej: set<nat>)
    requires len + 254 <= |pkt|
    ensures (exists turns: nat :: len <= After(pkt, HEADER, len, rej, turns)) <==> Copyable(pkt, HEADER, len, rej)
  {
    if turns: nat :| len <= After(pkt, HEADER, len, rej, turns) {
      EndedCopyable(pkt, HEADER, len, rej, turns);
    }
    if Copyable(pkt, HEADER, len, rej) {
      var turns := CopyableEnds(pkt, HEADER, len, rej);
    }
  }

  lemma {:induction false} EndedCopyable(pkt: seq<Octet>, p: nat, len: nat, rej: set<nat>, turns: nat)
    requires len + 254 <= |pkt| && len <= After(pkt, p, len, rej, turns)
    ensures Copyable(pkt, p, len, rej)
    decreases turns
  {
    if p < len {
      EndedCopyable(pkt, p + pkt[p + 1], len, rej, turns - 1);
      if pkt[p + 1] != 0 {
        DataEndsIff(pkt[p + 1]);
      }
    }
  }

  lemma {:induction false} CopyableEnds(pkt: seq<Octet>, p: nat, len: nat, rej: set<nat>) returns (turns: nat)
    requires len + 254 <= |pkt| && Copyable(pkt, p, len, rej)
    ensures len <= After(pkt, p, len, rej, turns)
    decreases len - p
  {
    turns := 0;
    if p < len {
      DataEndsIff(pkt[p + 1]);
      turns := CopyableEnds(pkt, p + pkt[p + 1], len, rej);
      turns := turns + 1;
    }
  }

  // What is copied of well-formed options.

  lemma CopiedNext(pkt: seq<Octet>, len: nat, opts: seq<Opt>, rej: set<nat>, k: nat)
    requires Holds(pkt, len, opts) && k < |opts|
    ensures var p, n := Begins(opts, k), 2 + |opts[k].data|;
      && p + n <= len && pkt[p + 1] == n && !Stuck(pkt[p], pkt[p + 1], rej) && Begins(opts, k + 1) == p + n
      && Encode(Filter(opts[..k + 1], rej))
         == Encode(Filter(opts[..k], rej)) + (if Copied(pkt[p], rej) then pkt[p..p + n] else [])
  {
    hide Encode, EncodeOne, Filter, Copied;
    OptionAt(pkt, len, opts, k);
    assert opts[..k + 1] == opts[..k] + [opts[k]];
    FilterAppend(opts[..k], opts[k], rej);
  }

  /** Of well-formed options the loop copies precisely those to be rejected, in order. */
  lemma {:induction false} CopiedOfOptions(pkt: seq<Octet>, len: nat, opts: seq<Opt>, rej: set<nat>, k: nat)
    requires Holds(pkt, len, opts) && k <= |opts|
    ensures Begins(opts, k) <= len && Copyable(pkt, Begins(opts, k), len, rej)
    ensures Encode(Filter(opts[..k], rej)) + CopiedFrom(pkt, Begins(opts, k), len, rej) == Encode(Filter(opts, rej))
    decreases |opts| - k
  {
    hide Encode, EncodeOne, Filter, Copied, Copyable, CopiedFrom, Stuck;
    if k == |opts| {
      assert opts[..k] == opts;
      CopyDone(pkt, Begins(opts, k), len, rej);
    } else {
      CopiedNext(pkt, len, opts, rej, k);
      CopiedOfOptions(pkt, len, opts, rej, k + 1);
      CopyOn(pkt, Begins(opts, k), len, rej);
    }
  }

  /** What becomes of a Configure-Reject: it is built, or copying does not end, or what is copied does
      not fit into the buffer and is written behind it. */
  datatype Nack = Built(packet: seq<int>) | HeldUp | Overrun

  /** Builds a Configure-Reject for any packet; the result is the packet behind the frame header. */
  method SendConfigureNack(pkt: seq<Octet>, len: nat, rej: set<nat>) returns (nack: Nack)
    requires 1 < |pkt|
    ensures nack ==
      if !Copyable(pkt, HEADER, len, rej) then HeldUp
      else if 64 < 9 + |CopiedFrom(pkt, HEADER, len, rej)| + 3 then Overrun
      else Built(RejectPacket(pkt[1], CopiedFrom(pkt, HEADER, len, rej)))
  {
    hide Copyable, CopiedFrom;
    if !Copyable(pkt, HEADER, len, rej) {
      return HeldUp;
    }
    if REJECT_ROOM < |CopiedFrom(pkt, HEADER, len, rej)| {
      return Overrun;
    }
    var reject := new int[64];
    var at := CopyRejected(pkt, len, rej, reject);
    var total := at - OPTIONS_AT + HEADER;
    ghost var options := reject[9..at];
    reject[5] := CONF_REJ;
    reject[6] := pkt[1];
    reject[7] := total / 256;
    reject[8] := total % 256;
    assert reject[9..at] == options;
    assert reject[5..9] == [CONF_REJ, pkt[1], total / 256, total % 256];
    assert reject[5..at] == reject[5..9] + reject[9..at];
    return Built(reject[5..at]);
  }

  function RejectPacket(id: Octet, options: seq<Octet>): seq<Octet>
    requires |options| <= REJECT_ROOM
  {
    [CONF_REJ, id, (HEADER + |options|) / 256, (HEADER + |options|) % 256] + options
  }

  /** A reject as octets. */
  lemma RejectOctets(id: Octet, options: seq<Octet>)
    requires |options| <= 52
    ensures RejectPacket(id, options) == [4, id, 0, 4 + |options|] + options
  {
  }

  // ----- The request -----

  /** One option that a device asks for, if it supports it. */
  function Asked(kind: Octet, data: seq<Octet>, local: set<nat>): seq<Opt> {
    if kind in local then [Opt(kind, data)] else []
  }

  /** The options that a device asks for. */
  function Wanted(local: set<nat>, mru: Word16): seq<Opt> {
    Asked(OPT_PROTO_COMP, [], local) + Asked(OPT_MRU, [mru / 256, mru % 256], local)
    + Asked(OPT_ADDRCTL_COMP, [], local)
  }

  const REQUEST_ROOM: nat := 8

  function RequestPacket(id: Octet, opts: seq<Opt>): seq<Octet>
    requires AllFit(opts) && |Encode(opts)| <= REQUEST_ROOM
  {
    [CONF_REQ, id, (HEADER + |Encode(opts)|) / 256, (HEADER + |Encode(opts)|) % 256] + Encode(opts)
  }

  /** One option as it is written. */
  function AskedOctets(kind: Octet, data: seq<Octet>, local: set<nat>): seq<Octet>
    requires |data| <= 253
  {
    if kind in local then [kind, 2 + |data|] + data else []
  }

  lemma AskedIs(kind: Octet, data: seq<Octet>, local: set<nat>)
    requires |data| <= 253
    ensures AllFit(Asked(kind, data, local)) && Encode(Asked(kind, data, local)) == AskedOctets(kind, data, local)
  {
    var opts := Asked(kind, data, local);
    if opts != [] {
      assert opts[..0] == [] && Encode(opts[..0]) == [];
    }
  }

  /** The options as they are written, one behind the other. */
  lemma WantedOctets(local: set<nat>, mru: Word16)
    ensures AllFit(Wanted(local, mru))
    ensures Encode(Wanted(local, mru))
         == AskedOctets(OPT_PROTO_COMP, [], local) + AskedOctets(OPT_MRU, [mru / 256, mru % 256], local)
          + AskedOctets(OPT_ADDRCTL_COMP, [], local)
    ensures |Encode(Wanted(local, mru))| <= REQUEST_ROOM
  {
    hide Encode, Asked;
    AskedIs(OPT_PROTO_COMP, [], local);
    AskedIs(OPT_MRU, [mru / 256, mru % 256], local);
    AskedIs(OPT_ADDRCTL_COMP, [], local);
    var a, b := Asked(OPT_PROTO_COMP, [], local), Asked(OPT_MRU, [mru / 256, mru % 256], local);
    EncodeConcat(a, b);
    EncodeConcat(a + b, Asked(OPT_ADDRCTL_COMP, [], local));
  }

  // ----- Receiving packets -----

  /** The event that a packet raises, and the options after it; NAK and reject also adopt. */
  function Taken(o: Options, pkt: seq<Octet>, len: nat): (Options, seq<PppAutomata.LcpEvent>)
    requires Readable(pkt, len)
  {
    if pkt[0] == CONF_REQ then
      var w := WalkFrom(Walk({}, o.mru, o.auth), pkt, HEADER, len, true);
      var rejected := w.flags - o.local;
      var o1 := o.(mru := w.mru, auth := w.auth, rej := rejected);
      if rejected != {} then (o1, [PppAutomata.LRcrNeg]) else (o1.(peer := w.flags), [PppAutomata.LRcrPos])
    else if pkt[0] == CONF_ACK then (o, [PppAutomata.LRca])
    else if pkt[0] == CONF_NAK then
      var w := WalkFrom(Walk({}, o.mru, o.auth), pkt, HEADER, len, true);
      (o.(mru := w.mru, auth := w.auth), [PppAutomata.LRcn])
    else if pkt[0] == CONF_REJ then
      (o.(local := o.local - FlagsFrom(pkt, HEADER, len)), [PppAutomata.LRcn])
    else if pkt[0] == ECHO_REQ then (o, [PppAutomata.LRxr])
    else (o, [])
  }

  /** Writes one option that the device supports behind those written before. */
  method PutOption(buffer: array<Octet>, size: nat, kind: Octet, data: seq<Octet>, local: set<nat>)
    returns (next: nat)
    requires |data| <= 2 && HEADER <= size && size + 2 + |data| <= buffer.Length
    modifies buffer
    ensures buffer[..HEADER] == old(buffer[..HEADER])
    ensures next == size + |AskedOctets(kind, data, local)| <= buffer.Length
    ensures |AskedOctets(kind, data, local)| <= 2 + |data|
    ensures buffer[HEADER..next] == old(buffer[HEADER..size]) + AskedOctets(kind, data, local)
  {
    next := size;
    if kind in local {
      ghost var front := buffer[..size];
      buffer[next] := kind;
      buffer[next + 1] := 2 + |data|;
      forall i | 0 <= i < |data| {
        buffer[next + 2 + i] := data[i];
      }
      next := next + 2 + |data|;
      assert buffer[..size] == front && buffer[size + 2..next] == data;
      HeadAndData(buffer[size..next], kind, 2 + |data|, data);
      JoinAfter(buffer[..next], size, front, [kind, 2 + |data|] + data);
    }
  }

  lemma HeadAndData(s: seq<Octet>, kind: Octet, length: Octet, data: seq<Octet>)
    requires 2 <= |s| && s[0] == kind && s[1] == length && s[2..] == data
    ensures s == [kind, length] + data
  {
  }

  lemma JoinAfter(whole: seq<Octet>, size: nat, front: seq<Octet>, more: seq<Octet>)
    requires HEADER <= size <= |whole| && whole[..size] == front && whole[size..] == more
    ensures whole[..HEADER] == front[..HEADER] && whole[HEADER..] == front[HEADER..] + more
  {
    assert whole == front + more;
  }

  lemma WantedWithout(local: set<nat>, mru: Word16, other: Word16)
    requires OPT_MRU !in local
    ensures Wanted(local, mru) == Wanted(local, other)
  {
  }

  /** Writes the options that the device asks for. */
  method PutWanted(buffer: array<Octet>, local: set<nat>, mru: Word16) returns (size: nat)
    requires buffer.Length == HEADER + REQUEST_ROOM
    modifies buffer
    ensures buffer[..HEADER] == old(buffer[..HEADER])
    ensures AllFit(Wanted(local, mru)) && size == HEADER + |Encode(Wanted(local, mru))| <= buffer.Length
    ensures buffer[HEADER..size] == Encode(Wanted(local, mru))
  {
    hide Wanted, Encode, AskedOctets;
    WantedOctets(local, mru);
    size := PutOption(buffer, HEADER, OPT_PROTO_COMP, [], local);
    size := PutOption(buffer, size, OPT_MRU, [mru / 256, mru % 256], local);
    size := PutOption(buffer, size, OPT_ADDRCTL_COMP, [], local);
  }

  lemma RequestParts(packet: seq<Octet>, id: Octet, size: nat, opts: seq<Opt>)
    requires AllFit(opts) && |Encode(opts)| <= REQUEST_ROOM && size == HEADER + |Encode(opts)|
    requires |packet| == size && packet[HEADER..] == Encode(opts)
    requires packet[0] == CONF_REQ && packet[1] == id && packet[2] == size / 256 && packet[3] == size % 256
    ensures packet == RequestPacket(id, opts)
  {
    hide Encode;
    assert packet == packet[..HEADER] + packet[HEADER..];
  }

  class Lcp {
    var local: set<nat>
    var peer: set<nat>
    var rej: set<nat>
    var mru: Word16
    var auth: Word16

    ghost function Now(): Options
      reads this
    {
      Options(local, peer, rej, mru, auth)
    }

    constructor ()
      ensures Now() == Options({1, 3, 7, 8}, {}, {}, 1514, 0)
    {
      local, peer, rej, mru, auth := LOCAL_OPTIONS, {}, {}, PPP_MRU, 0;
    }

    /** Builds a Configure-Request; the result is the packet behind the frame header. */
    method ConfigureRequest(id: Octet) returns (packet: seq<Octet>)
      modifies this`mru
      ensures mru == if OPT_MRU in local then old(mru) else PPP_MRU
      ensures AllFit(Wanted(local, mru)) && |Encode(Wanted(local, mru))| <= REQUEST_ROOM
      ensures packet == RequestPacket(id, Wanted(local, mru))
    {
      hide Wanted, Encode;
      var buffer := new Octet[12](_ => 0);
      buffer[0] := CONF_REQ;
      buffer[1] := id;
      var size := PutWanted(buffer, local, mru);
      if OPT_MRU !in local {
        WantedWithout(local, mru, PPP_MRU);
        mru := PPP_MRU;
      }
      ghost var opts := buffer[HEADER..size];
      buffer[2] := size / 256;
      buffer[3] := size % 256;
      packet := buffer[..size];
      assert packet[HEADER..] == opts;
      assert packet[0] == CONF_REQ && packet[1] == id && packet[2] == size / 256 && packet[3] == size % 256;
      RequestParts(packet, id, size, Wanted(local, mru));
    }

    method OptFlags(pkt: seq<Octet>, len: nat, adjust: bool) returns (flags: set<nat>)
      requires Readable(pkt, len)
      modifies this`mru, this`auth
      ensures Walk(flags, mru, auth) == WalkFrom(Walk({}, old(mru), old(auth)), pkt, HEADER, len, adjust)
    {
      flags := {};
      var p := HEADER;
      while p < len
        invariant HEADER <= p
        invariant WalkFrom(Walk(flags, mru, auth), pkt, p, len, adjust)
               == WalkFrom(Walk({}, old(mru), old(auth)), pkt, HEADER, len, adjust)
        decreases len - p
      {
        flags := Flag(pkt[p]) + flags;
        if adjust {
          if pkt[p] == OPT_MRU {
            mru := Setting(pkt[p + 2], pkt[p + 3]);
          } else if pkt[p] == OPT_AUTH {
            auth := Setting(pkt[p + 2], pkt[p + 3]);
          }
        }
        var off := pkt[p + 1];
        if off == 0 {
          break;
        }
        p := p + off;
      }
    }

    method ProcessIn(pkt: seq<Octet>, len: nat) returns (events: seq<PppAutomata.LcpEvent>)
      requires Readable(pkt, len)
      modifies this
      ensures (Now(), events) == Taken(old(Now()), pkt, len)
    {
      if pkt[0] == CONF_REQ {
        var optflags := OptFlags(pkt, len, true);
        rej := optflags - local;
        if rej != {} {
          return [PppAutomata.LRcrNeg];
        }
        peer := optflags;
        return [PppAutomata.LRcrPos];
      }
      if pkt[0] == CONF_ACK {
        return [PppAutomata.LRca];
      }
      if pkt[0] == CONF_NAK {
        var optflags := OptFlags(pkt, len, true);
        return [PppAutomata.LRcn];
      }
      if pkt[0] == CONF_REJ {
        var optflags := OptFlags(pkt, len, false);
        WalkedFlags(Walk({}, old(mru), old(auth)), pkt, HEADER, len, false);
        UnadjustedWalk(Walk({}, old(mru), old(auth)), pkt, HEADER, len);
        assert optflags == FlagsFrom(pkt, HEADER, len);
        local := local - optflags;
        return [PppAutomata.LRcn];
      }
      if pkt[0] == ECHO_REQ {
        return [PppAutomata.LRxr];
      }
      return [];
    }
  }

  lemma {:induction false} UnadjustedWalk(w: Walk, pkt: seq<Octet>, p: nat, len: nat)
    requires Readable(pkt, len)
    ensures WalkFrom(w, pkt, p, len, false).mru == w.mru && WalkFrom(w, pkt, p, len, false).auth == w.auth
    decreases len - p
  {
    if p < len && pkt[p + 1] != 0 {
      UnadjustedWalk(See(w, pkt, p, false), pkt, p + pkt[p + 1], len);
    }
  }

  /** For every packet, well formed or not: an acknowledgement, and nothing else, counts as one; both
      kinds of refusal count as such; a request is accepted or rejected; an echo request is one;
      and any other packet raises nothing. */
  lemma EventOfCode(o: Options, pkt: seq<Octet>, len: nat)
    requires Readable(pkt, len)
    ensures var events := Taken(o, pkt, len).1;
      && (events == [PppAutomata.LRca] <==> pkt[0] == 2)
      && (events == [PppAutomata.LRcn] <==> pkt[0] == 3 || pkt[0] == 4)
      && (events == [PppAutomata.LRxr] <==> pkt[0] == 9)
      && (events == [PppAutomata.LRcrPos] || events == [PppAutomata.LRcrNeg] <==> pkt[0] == 1)
      && (events == [] <==> pkt[0] !in {1, 2, 3, 4, 9})
  {
    hide WalkFrom, FlagsFrom;
  }

  /** And what it changes: a Configure-Nak the settings, a Configure-Reject what the device supports,
      a request the settings and what is known of the peer, any other packet nothing. */
  lemma ChangeOfCode(o: Options, pkt: seq<Octet>, len: nat)
    requires Readable(pkt, len)
    ensures var o' := Taken(o, pkt, len).0;
      && (pkt[0] !in {1, 3, 4} ==> o' == o)
      && (pkt[0] == 3 ==> o' == o.(mru := o'.mru, auth := o'.auth))
      && (pkt[0] == 4 ==> o' == o.(local := o'.local) && o'.local <= o.local)
      && (pkt[0] == 1 ==> o'.local == o.local && (o'.rej != {} ==> o'.peer == o.peer))
  {
    hide WalkFrom, FlagsFrom;
  }

  predicate Rejects(opts: seq<Opt>, local: set<nat>) {
    Flags(opts) - local != {}
  }

  /** A well-formed Configure-Request is rejected, with the flags to reject, exactly when it has
      an unsupported flag; otherwise it is accepted with the flags of the peer. */
  lemma RequestIsTaken(o: Options, pkt: seq<Octet>, len: nat, opts: seq<Opt>)
    requires Holds(pkt, len, opts) && Readable(pkt, len) && pkt[0] == CONF_REQ
    ensures var (o', events) := Taken(o, pkt, len);
      && o'.local == o.local && o'.rej == Flags(opts) - o.local
      && (if Rejects(opts, o.local) then events == [PppAutomata.LRcrNeg] && o'.peer == o.peer
          else events == [PppAutomata.LRcrPos] && o'.peer == Flags(opts))
  {
    hide WalkFrom, FlagsFrom, Encode;
    FlagsOfOptions(pkt, len, opts, 0);
    WalkedFlags(Walk({}, o.mru, o.auth), pkt, HEADER, len, true);
    NothingBefore(opts);
    assert {} + FlagsFrom(pkt, HEADER, len) == FlagsFrom(pkt, HEADER, len);
  }

  lemma NothingBefore(opts: seq<Opt>)
    requires AllFit(opts)
    ensures opts[..0] == [] && opts[..|opts|] == opts && Encode(opts[..0]) == [] && Flags(opts[..0]) == {}
  {
  }

  /** Whether it is accepted or not, and likewise on a Configure-Nak, its settings are adopted. */
  lemma SettingsAreTaken(o: Options, pkt: seq<Octet>, len: nat, opts: seq<Opt>)
    requires Holds(pkt, len, opts) && Readable(pkt, len) && (pkt[0] == 1 || pkt[0] == 3)
    ensures var o' := Taken(o, pkt, len).0;
      && o'.mru == LastSetting(pkt, len, opts, |opts|, 1, o.mru)
      && o'.auth == LastSetting(pkt, len, opts, |opts|, 3, o.auth)
  {
    hide WalkFrom, Encode, Flags;
    var w := Walk({}, o.mru, o.auth);
    NothingBefore(opts);
    SettingsOfOptions(w, pkt, len, opts, 0);
    assert WalkedTo(w, pkt, len, opts, 0) == w;
  }

  predicate Unsupported(o: Opt, local: set<nat>) {
    o.kind !in local
  }

  function Select(opts: seq<Opt>, local: set<nat>): (r: seq<Opt>)
    ensures AllFit(opts) ==> AllFit(r)
  {
    if opts == [] then []
    else
      var front, last := Select(opts[..|opts| - 1], local), opts[|opts| - 1];
      if Unsupported(last, local) then front + [last] else front
  }

  /** A request is rejected exactly when it holds an unsupported option whose type has a flag. */
  lemma RejectedIff(opts: seq<Opt>, local: set<nat>)
    ensures Rejects(opts, local) <==> exists i :: 0 <= i < |opts| && opts[i].kind < 16 && Unsupported(opts[i], local)
  {
    var rejected := Flags(opts) - local;
    if exists i :: 0 <= i < |opts| && opts[i].kind < 16 && Unsupported(opts[i], local) {
      var i :| 0 <= i < |opts| && opts[i].kind < 16 && Unsupported(opts[i], local);
      FlagsMean(opts, opts[i].kind);
      assert opts[i].kind in rejected;
    }
    if rejected != {} {
      var b :| b in rejected;
      FlagsMean(opts, b);
      var i :| 0 <= i < |opts| && opts[i].kind == b;
      assert Unsupported(opts[i], local);
    }
  }

  /** Whatever leads to a rejection, the builder repeats precisely the unsupported options. */
  lemma {:induction false} RejectionIsExact(opts: seq<Opt>, all: seq<Opt>, local: set<nat>)
    requires AllFit(opts) && local <= {0, 1, 2, 3, 4, 5, 6, 7, 8}
    requires opts <= all
    ensures Filter(opts, Flags(all) - local) == Select(opts, local)
  {
    if opts != [] {
      RejectionIsExact(opts[..|opts| - 1], all, local);
      var last := opts[|opts| - 1];
      FlagsMean(all, last.kind);
      assert all[|opts| - 1] == last;
    }
  }

  /** A Configure-Request: it is rejected exactly when some unsupported option has a flag, and then
      the answer carries precisely the unsupported options, octet for octet and in order. So with
      types that all have a flag it is rejected exactly when some option is not supported. */
  lemma RejectFilter(opts: seq<Opt>, local: set<nat>)
    requires AllFit(opts) && local <= {0, 1, 2, 3, 4, 5, 6, 7, 8}
    ensures Rejects(opts, local) <==> exists i :: 0 <= i < |opts| && opts[i].kind < 16 && Unsupported(opts[i], local)
    ensures Filter(opts, Flags(opts) - local) == Select(opts, local)
    ensures (forall i :: 0 <= i < |opts| ==> opts[i].kind < 16) ==>
      (Rejects(opts, local) <==> Select(opts, local) != [])
  {
    RejectedIff(opts, local);
    RejectionIsExact(opts, opts, local);
    SelectNone(opts, local);
    if i :| 0 <= i < |opts| && Unsupported(opts[i], local) {
      assert opts[i].kind < 16 ==> Rejects(opts, local);
    }
  }

  /** A well-formed Configure-Request, from its receipt to the answer: it raises a rejection
      exactly when some unsupported option has a flag, and what is copied into the answer are
      precisely the unsupported options. */
  lemma {:induction false} RequestAnswered(o: Options, pkt: seq<Octet>, len: nat, opts: seq<Opt>)
    requires Holds(pkt, len, opts) && Readable(pkt, len) && pkt[0] == CONF_REQ && o.local <= LOCAL_OPTIONS
    ensures var (o', events) := Taken(o, pkt, len);
      && (events == [PppAutomata.LRcrNeg] <==>
           exists i :: 0 <= i < |opts| && opts[i].kind < 16 && Unsupported(opts[i], o.local))
      && Copyable(pkt, HEADER, len, o'.rej)
      && CopiedFrom(pkt, HEADER, len, o'.rej) == Encode(Select(opts, o.local))
  {
    hide Encode, Flags, Copied, Taken, Select, Filter, Rejects, Copyable, CopiedFrom;
    RequestIsTaken(o, pkt, len, opts);
    RejectFilter(opts, o.local);
    var rej := Flags(opts) - o.local;
    CopiedOfOptions(pkt, len, opts, rej, 0);
    NothingCopiedBefore(opts, rej);
  }

  lemma NothingCopiedBefore(opts: seq<Opt>, rej: set<nat>)
    requires AllFit(opts)
    ensures Begins(opts, 0) == HEADER && Encode(Filter(opts[..0], rej)) == []
  {
  }

  /** What a device supports starts as LOCAL_OPTIONS and only shrinks, by rejections of the peer;
      so all that is rejected is rejected exactly. */
  lemma LocalShrinks(o: Options, pkt: seq<Octet>, len: nat, opts: seq<Opt>)
    requires Readable(pkt, len) && o.local <= LOCAL_OPTIONS && AllFit(opts)
    ensures var local := Taken(o, pkt, len).0.local;
      local <= o.local && Filter(opts, Flags(opts) - local) == Select(opts, local)
  {
    RejectionIsExact(opts, opts, Taken(o, pkt, len).0.local);
  }

  lemma {:induction false} SelectNone(opts: seq<Opt>, local: set<nat>)
    ensures Select(opts, local) != [] <==> exists i :: 0 <= i < |opts| && Unsupported(opts[i], local)
  {
    if opts != [] {
      var front := opts[..|opts| - 1];
      SelectNone(front, local);
      if exists i :: 0 <= i < |opts| && Unsupported(opts[i], local) {
        var i :| 0 <= i < |opts| && Unsupported(opts[i], local);
        assert i < |front| ==> Unsupported(front[i], local);
      }
      if exists i :: 0 <= i < |front| && Unsupported(front[i], local) {
        var i :| 0 <= i < |front| && Unsupported(front[i], local);
        assert Unsupported(opts[i], local);
      }
    }
  }

  /** A type without a flag shows that the condition is needed: such an option is not
      supported, and yet the request that holds it is accepted. */
  lemma UnflaggedIsAccepted(local: set<nat>)
    requires local <= {0, 1, 2, 3, 4, 5, 6, 7, 8}
    ensures var opts := [Opt(16, [])];
      AllFit(opts) && Unsupported(opts[0], local) && !Rejects(opts, local)
  {
    RejectedIff([Opt(16, [])], local);
  }
}
