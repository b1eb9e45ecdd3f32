/** The LCP dispatches of every run against the state transition table of RFC 1661, section 4.1. */
module PppStandard {
  import opened PppAutomata

  // ----- The table of the standard, by events -----

  // The actions by the names of the standard. The one that is missing, irc, sets the restart
  // counter and is seen by nobody.
  const TLU := LayerUp
  const TLD := LayerDown
  const TLS := LayerStarted
  const TLF := LayerFinished
  const ZRC := ZeroRestart
  const SCR := SendConfReq
  const SCA := SendConfAck
  const SCN := SendConfNack
  const STR := SendTermReq
  const STA := SendTermAck
  const SCJ := SendCodeRej
  const SER := SendEchoReply

  /** An event that cannot occur in a state, or whether there is an irc, the other actions and
      the number of the next state. */
  datatype Entry = Never | To(irc: bool, actions: Handlers<LcpAction>, next: nat)

  function Plain(next: nat): Entry {
    To(false, Zero, next)
  }

  function Does(actions: Handlers<LcpAction>, next: nat): Entry {
    To(false, actions, next)
  }

  function Irc(actions: Handlers<LcpAction>, next: nat): Entry {
    To(true, actions, next)
  }

  /** The entries for the states 0 to 9. */
  datatype Line = Line(e0: Entry, e1: Entry, e2: Entry, e3: Entry, e4: Entry,
                       e5: Entry, e6: Entry, e7: Entry, e8: Entry, e9: Entry)
  {
    function At(st: LcpState): Entry {
      match st
      case LInitial => e0
      case LStarting => e1
      case LClosed => e2
      case LStopped => e3
      case LClosing => e4
      case LStopping => e5
      case LReqSent => e6
      case LAckRcvd => e7
      case LAckSent => e8
      case LOpened => e9
    }
  }

  function LineOf(e: LcpEvent): Line {
    match e
    case LUp => Line(Plain(2), Irc(One(SCR), 6), Never, Never, Never, Never, Never, Never, Never, Never)
    case LDown => Line(Never, Never, Plain(0), Does(One(TLS), 1), Plain(0), Plain(1), Plain(1), Plain(1), Plain(1),
              Does(One(TLD), 1))
    case LOpen => Line(Does(One(TLS), 1), Plain(1), Irc(One(SCR), 6), Plain(3), Plain(5), Plain(5), Plain(6),
              Plain(7), Plain(8), Plain(9))
    case LClose => Line(Plain(0), Does(One(TLF), 0), Plain(2), Plain(2), Plain(4), Plain(4), Irc(One(STR), 4),
              Irc(One(STR), 4), Irc(One(STR), 4), Irc(Two(TLD, STR), 4))
    case LToPos => Line(Never, Never, Never, Never, Does(One(STR), 4), Does(One(STR), 5), Does(One(SCR), 6),
              Does(One(SCR), 6), Does(One(SCR), 8), Never)
    case LToNeg => Line(Never, Never, Never, Never, Does(One(TLF), 2), Does(One(TLF), 3), Does(One(TLF), 3),
              Does(One(TLF), 3), Does(One(TLF), 3), Never)
    case LRcrPos => Line(Never, Never, Does(One(STA), 2), Irc(Two(SCR, SCA), 8), Plain(4), Plain(5),
              Does(One(SCA), 8), Does(Two(SCA, TLU), 9), Does(One(SCA), 8), Does(Three(TLD, SCR, SCA), 8))
    case LRcrNeg => Line(Never, Never, Does(One(STA), 2), Irc(Two(SCR, SCN), 6), Plain(4), Plain(5),
              Does(One(SCN), 6), Does(One(SCN), 7), Does(One(SCN), 6), Does(Three(TLD, SCR, SCN), 6))
    case LRca => Line(Never, Never, Does(One(STA), 2), Does(One(STA), 3), Plain(4), Plain(5), Irc(Zero, 7),
              Does(One(SCR), 6), Irc(One(TLU), 9), Does(Two(TLD, SCR), 6))
    case LRcn => Line(Never, Never, Does(One(STA), 2), Does(One(STA), 3), Plain(4), Plain(5), Irc(One(SCR), 6),
              Does(One(SCR), 6), Irc(One(SCR), 8), Does(Two(TLD, SCR), 6))
    case LRtr => Line(Never, Never, Does(One(STA), 2), Does(One(STA), 3), Does(One(STA), 4), Does(One(STA), 5),
              Does(One(STA), 6), Does(One(STA), 6), Does(One(STA), 6), Does(Three(TLD, ZRC, STA), 5))
    case LRta => Line(Never, Never, Plain(2), Plain(3), Does(One(TLF), 2), Does(One(TLF), 3), Plain(6), Plain(6),
              Plain(8), Does(Two(TLD, SCR), 6))
    case LRuc => Line(Never, Never, Does(One(SCJ), 2), Does(One(SCJ), 3), Does(One(SCJ), 4), Does(One(SCJ), 5),
              Does(One(SCJ), 6), Does(One(SCJ), 7), Does(One(SCJ), 8), Does(One(SCJ), 9))
    case LRxjPos => Line(Never, Never, Plain(2), Plain(3), Plain(4), Plain(5), Plain(6), Plain(6), Plain(8), Plain(9))
    case LRxjNeg => Line(Never, Never, Does(One(TLF), 2), Does(One(TLF), 3), Does(One(TLF), 2), Does(One(TLF), 3),
              Does(One(TLF), 3), Does(One(TLF), 3), Does(One(TLF), 3), Does(Two(TLD, STR), 5))
    case LRxr => Line(Never, Never, Plain(2), Plain(3), Plain(4), Plain(5), Plain(6), Plain(7), Plain(8),
              Does(One(SER), 9))
  }

  function Number(st: LcpState): nat {
    match st
    case LInitial => 0
    case LStarting => 1
    case LClosed => 2
    case LStopped => 3
    case LClosing => 4
    case LStopping => 5
    case LReqSent => 6
    case LAckRcvd => 7
    case LAckSent => 8
    case LOpened => 9
  }

  // ----- The dispatches of a history -----

  /** A dispatch, and the handlers of LCP that ran in it and not in one nested in it. */
  datatype Dispatch = Dispatch(move: Move, acts: seq<LcpAction>)

  /** The dispatches that are under way, innermost last; those that have ended, in order; and
      whether a handler ever ran outside of all. */
  datatype Reading = Reading(open: seq<Dispatch>, done: seq<Dispatch>, stray: bool)

  function Read(r: Reading, o: Obs): Reading {
    match o
    case Enter(m) => r.(open := r.open + [Dispatch(m, [])])
    case Did(a) =>
      if r.open == [] then r.(stray := true)
      else
        var last := r.open[|r.open| - 1];
        r.(open := r.open[..|r.open| - 1] + [last.(acts := last.acts + [a])])
    case Leave =>
      if r.open == [] then r.(stray := true)
      else r.(open := r.open[..|r.open| - 1], done := r.done + [r.open[|r.open| - 1]])
  }

  function ReadAll(t: Trace): Reading {
    match t
    case Start => Reading([], [], false)
    case Then(past, last) => Read(ReadAll(past), last)
  }

  // ----- Every dispatch runs the handlers of its cell, and no others -----

  function Listed(h: Handlers<LcpAction>): seq<LcpAction> {
    match h
    case Zero => []
    case One(a) => [a]
    case Two(a, b) => [a, b]
    case Three(a, b, c) => [a, b, c]
  }

  /** The move and the handlers are those of the cell. */
  predicate AsInTable(d: Dispatch) {
    match d.move
    case LcpMove(st, e, next) => next == LcpCell(st, e).next && d.acts == Listed(LcpCell(st, e).handlers)
    case IpcpMove(st, e, next) => next == IpcpCell(st, e).next && d.acts == []
    case AuthMove(st, e, next) => next == AuthCell(st, e).next && d.acts == []
    case ModemMove(st, e, next) => next == ModemCell(st, e).next && d.acts == []
  }

  /** From one reading to the next, dispatches have begun and ended, all as in the table. */
  predicate Extends(r: Reading, r': Reading) {
    && r'.open == r.open
    && r'.stray == r.stray
    && r.done <= r'.done
    && forall i :: |r.done| <= i < |r'.done| ==> AsInTable(r'.done[i])
  }

  lemma ExtendsSelf(r: Reading)
    ensures Extends(r, r)
  {
  }

  lemma ExtendsTrans(a: Reading, b: Reading, c: Reading)
    requires Extends(a, b) && Extends(b, c)
    ensures Extends(a, c)
  {
    hide AsInTable;
    forall i | |a.done| <= i < |c.done|
      ensures AsInTable(c.done[i])
    {
      if i < |b.done| {
        assert b.done[i] == c.done[i];
      }
    }
  }

  /** The innermost dispatch is m, and ran these handlers, on top of the reading r. */
  predicate Within(r: Reading, m: Move, acts: seq<LcpAction>, r': Reading) {
    Extends(r.(open := r.open + [Dispatch(m, acts)]), r')
  }

  lemma Entering(r: Reading, m: Move)
    ensures Within(r, m, [], Read(r, Enter(m)))
  {
  }

  lemma Inside(r: Reading, m: Move, acts: seq<LcpAction>, r1: Reading, r2: Reading)
    requires Within(r, m, acts, r1) && Extends(r1, r2)
    ensures Within(r, m, acts, r2)
  {
    ExtendsTrans(r.(open := r.open + [Dispatch(m, acts)]), r1, r2);
  }

  lemma Doing(r: Reading, m: Move, acts: seq<LcpAction>, r1: Reading, a: LcpAction)
    requires Within(r, m, acts, r1)
    ensures Within(r, m, acts + [a], Read(r1, Did(a)))
  {
    hide AsInTable;
    assert r1.open[..|r1.open| - 1] == r.open;
  }

  /** The dispatch that ended last. */
  predicate EndsWith(r: Reading, d: Dispatch) {
    r.done != [] && r.done[|r.done| - 1] == d
  }

  lemma Leaving(r: Reading, m: Move, acts: seq<LcpAction>, r1: Reading)
    requires Within(r, m, acts, r1) && AsInTable(Dispatch(m, acts))
    ensures Extends(r, Read(r1, Leave)) && EndsWith(Read(r1, Leave), Dispatch(m, acts))
  {
    hide AsInTable;
    assert r1.open[..|r1.open| - 1] == r.open;
  }

  lemma Read1(s: Ppp, o: Obs)
    ensures ReadAll(s.Note(o).trace) == Read(ReadAll(s.trace), o)
  {
    hide Read;
  }

  lemma IpcpReads(s: Ppp, e: IpcpEvent)
    ensures Extends(ReadAll(s.trace), ReadAll(EvalIpcp(s, e).trace))
  {
    hide IpcpCell, Read, Extends, Within;
    var c := IpcpCell(s.ipcp, e);
    var h := c.handlers;
    var m := IpcpMove(s.ipcp, e, c.next);
    var s0 := s.(ipcp := c.next).Note(Enter(m));
    var s1 := if h.Has(0) then IpcpDo(s0, h.At(0)) else s0;
    var s2 := if h.Has(1) then IpcpDo(s1, h.At(1)) else s1;
    var s3 := if h.Has(2) then IpcpDo(s2, h.At(2)) else s2;
    assert s3.trace == s0.trace;
    Entering(ReadAll(s.trace), m);
    Leaving(ReadAll(s.trace), m, [], ReadAll(s3.trace));
  }

  lemma AuthDoReads(s: Ppp, a: AuthAction)
    ensures Extends(ReadAll(s.trace), ReadAll(AuthDo(s, a).trace))
    decreases AuthActionRank(a)
  {
    hide EvalIpcp, EvalLcp, Extends, ReadAll;
    match a
    case Auth => IpcpReads(s, IUp);
    case Deauth => IpcpReads(s, IDown);
    case AuthAbort => LcpReads(s.(timer := s.timer.(onAuth := false)), LClose);
    case _ => ExtendsSelf(ReadAll(s.trace));
  }

  lemma AuthReads(s: Ppp, e: AuthEvent)
    ensures Extends(ReadAll(s.trace), ReadAll(EvalAuth(s, e).trace))
    decreases AuthRank(e)
  {
    hide AuthCell, AuthDo, Read, Extends, Within, ReadAll;
    AuthHandlersBelow(s.auth, e);
    var c := AuthCell(s.auth, e);
    var h := c.handlers;
    var m := AuthMove(s.auth, e, c.next);
    var r := ReadAll(s.trace);
    var s0 := s.(auth := c.next).Note(Enter(m));
    var s1 := if h.Has(0) then AuthDo(s0, h.At(0)) else s0;
    var s2 := if h.Has(1) then AuthDo(s1, h.At(1)) else s1;
    var s3 := if h.Has(2) then AuthDo(s2, h.At(2)) else s2;
    Read1(s.(auth := c.next), Enter(m));
    Read1(s3, Leave);
    Entering(r, m);
    if h.Has(0) { AuthDoReads(s0, h.At(0)); Inside(r, m, [], ReadAll(s0.trace), ReadAll(s1.trace)); }
    if h.Has(1) { AuthDoReads(s1, h.At(1)); Inside(r, m, [], ReadAll(s1.trace), ReadAll(s2.trace)); }
    if h.Has(2) { AuthDoReads(s2, h.At(2)); Inside(r, m, [], ReadAll(s2.trace), ReadAll(s3.trace)); }
    Leaving(r, m, [], ReadAll(s3.trace));
  }

  lemma ModemDoReads(s: Ppp, a: ModemAction)
    ensures Extends(ReadAll(s.trace), ReadAll(ModemDo(s, a).trace))
    decreases ModemActionRank(a)
  {
    hide EvalLcp, Extends, ReadAll;
    match a
    case ModemUp => LcpReads(s, LUp);
    case ModemDown => LcpReads(s, LDown);
    case _ => ExtendsSelf(ReadAll(s.trace));
  }

  lemma ModemReads(s: Ppp, e: ModemEvent)
    ensures Extends(ReadAll(s.trace), ReadAll(EvalModem(s, e).trace))
    decreases ModemRank(e)
  {
    hide ModemCell, ModemDo, Read, Extends, Within, ReadAll;
    ModemHandlersBelow(s.modem, e);
    var c := ModemCell(s.modem, e);
    var h := c.handlers;
    var m := ModemMove(s.modem, e, c.next);
    var r := ReadAll(s.trace);
    var s0 := s.(modem := c.next).Note(Enter(m));
    var s1 := if h.Has(0) then ModemDo(s0, h.At(0)) else s0;
    var s2 := if h.Has(1) then ModemDo(s1, h.At(1)) else s1;
    var s3 := if h.Has(2) then ModemDo(s2, h.At(2)) else s2;
    Read1(s.(modem := c.next), Enter(m));
    Read1(s3, Leave);
    Entering(r, m);
    if h.Has(0) { ModemDoReads(s0, h.At(0)); Inside(r, m, [], ReadAll(s0.trace), ReadAll(s1.trace)); }
    if h.Has(1) { ModemDoReads(s1, h.At(1)); Inside(r, m, [], ReadAll(s1.trace), ReadAll(s2.trace)); }
    if h.Has(2) { ModemDoReads(s2, h.At(2)); Inside(r, m, [], ReadAll(s2.trace), ReadAll(s3.trace)); }
    Leaving(r, m, [], ReadAll(s3.trace));
  }

  /** A handler of LCP notes itself, and dispatches. */
  lemma LcpDoReads(s: Ppp, a: LcpAction)
    ensures Extends(Read(ReadAll(s.trace), Did(a)), ReadAll(LcpDo(s, a).trace))
    decreases LcpActionRank(a), 0
  {
    hide EvalAuth, EvalModem, Extends, ReadAll, Read;
    var s0 := s.Note(Did(a));
    Read1(s, Did(a));
    match a
    case LayerUp =>
      match s.proto {
        case NoAuth => AuthReads(s0, AUpNone);
        case PapAuth => AuthReads(s0, AUpPap);
        case ChapAuth => AuthReads(s0, AUpChap);
        case OtherAuth => ExtendsSelf(ReadAll(s0.trace));
      }
    case LayerDown => AuthReads(s0, ADown);
    case LayerStarted => ModemReads(s0, MStart);
    case LayerFinished => ModemReads(s0, MStop);
    case _ => ExtendsSelf(ReadAll(s0.trace));
  }

  lemma NextHandler(r: Reading, m: Move, acts: seq<LcpAction>, s: Ppp, a: LcpAction)
    requires Within(r, m, acts, ReadAll(s.trace))
    ensures Within(r, m, acts + [a], ReadAll(LcpDo(s, a).trace))
    decreases LcpActionRank(a), 1
  {
    hide Within, Extends, Read, ReadAll, LcpDo;
    LcpDoReads(s, a);
    Doing(r, m, acts, ReadAll(s.trace), a);
    Inside(r, m, acts + [a], Read(ReadAll(s.trace), Did(a)), ReadAll(LcpDo(s, a).trace));
  }

  lemma HandlersRead(r: Reading, m: Move, s0: Ppp, h: Handlers<LcpAction>, n: nat)
    requires Within(r, m, [], ReadAll(s0.trace))
    requires forall i: nat :: h.Has(i) ==> LcpActionRank(h.At(i)) < n
    ensures var s1 := if h.Has(0) then LcpDo(s0, h.At(0)) else s0;
      var s2 := if h.Has(1) then LcpDo(s1, h.At(1)) else s1;
      var s3 := if h.Has(2) then LcpDo(s2, h.At(2)) else s2;
      Within(r, m, Listed(h), ReadAll(s3.trace))
    decreases n, 0
  {
    hide Within, ReadAll, LcpDo, LcpActionRank;
    assert h.Has(0) ==> LcpActionRank(h.At(0)) < n;
    assert h.Has(1) ==> LcpActionRank(h.At(1)) < n;
    assert h.Has(2) ==> LcpActionRank(h.At(2)) < n;
    match h
    case Zero =>
    case One(x) =>
      NextHandler(r, m, [], s0, x);
      assert [] + [x] == [x];
    case Two(x, y) =>
      NextHandler(r, m, [], s0, x);
      assert [] + [x] == [x];
      NextHandler(r, m, [x], LcpDo(s0, x), y);
      assert [x] + [y] == [x, y];
    case Three(x, y, z) =>
      NextHandler(r, m, [], s0, x);
      assert [] + [x] == [x];
      NextHandler(r, m, [x], LcpDo(s0, x), y);
      assert [x] + [y] == [x, y];
      NextHandler(r, m, [x, y], LcpDo(LcpDo(s0, x), y), z);
      assert [x, y] + [z] == [x, y, z];
  }

  lemma LcpEntered(s: Ppp, e: LcpEvent)
    ensures EnterLcp(s, e).trace == Then(s.trace, Enter(LcpMove(s.lcp, e, LcpCell(s.lcp, e).next)))
  {
    hide LcpCell, RunsTimer;
  }

  lemma LcpInTable(st: LcpState, e: LcpEvent)
    ensures AsInTable(Dispatch(LcpMove(st, e, LcpCell(st, e).next), Listed(LcpCell(st, e).handlers)))
  {
    hide LcpCell;
  }

  lemma LcpReads(s: Ppp, e: LcpEvent)
    ensures Extends(ReadAll(s.trace), ReadAll(EvalLcp(s, e).trace))
    ensures var c := LcpCell(s.lcp, e);
      EndsWith(ReadAll(EvalLcp(s, e).trace), Dispatch(LcpMove(s.lcp, e, c.next), Listed(c.handlers)))
    decreases LcpRank(e), 1
  {
    hide LcpCell, LcpDo, Read, Extends, Within, AsInTable, Listed, EnterLcp, EndsWith, LcpRank, LcpActionRank;
    LcpHandlersBelow(s.lcp, e);
    LcpEntered(s, e);
    LcpInTable(s.lcp, e);
    var c := LcpCell(s.lcp, e);
    var h := c.handlers;
    var m := LcpMove(s.lcp, e, c.next);
    var r := ReadAll(s.trace);
    var s0 := EnterLcp(s, e);
    var s1 := if h.Has(0) then LcpDo(s0, h.At(0)) else s0;
    var s2 := if h.Has(1) then LcpDo(s1, h.At(1)) else s1;
    var s3 := if h.Has(2) then LcpDo(s2, h.At(2)) else s2;
    Entering(r, m);
    HandlersRead(r, m, s0, h, LcpRank(e));
    Leaving(r, m, Listed(h), ReadAll(s3.trace));
  }

  // ----- The cells against the standard -----

  /** The dispatches in which LCP asks for termination where the standard asks for configuration. */
  predicate Terminates(st: LcpState, e: LcpEvent) {
    st == LOpened && e in {LRcrPos, LRca, LRcn, LRta}
  }

  /** The actions of the standard, with a Terminate-Request in place of a Configure-Request or as
      they are; irc only where there is no other action. */
  function Prescribed(entry: Entry, terminates: bool): Handlers<LcpAction>
    requires entry.To?
  {
    if entry.actions == Zero && entry.irc then One(InitRestart)
    else if terminates then WithStr(entry.actions)
    else entry.actions
  }

  function StrForScr(a: LcpAction): LcpAction {
    if a == SCR then STR else a
  }

  function WithStr(h: Handlers<LcpAction>): Handlers<LcpAction> {
    match h
    case Zero => Zero
    case One(a) => One(StrForScr(a))
    case Two(a, b) => Two(StrForScr(a), StrForScr(b))
    case Three(a, b, c) => Three(StrForScr(a), StrForScr(b), StrForScr(c))
  }

  /** The next state and the actions are those of the standard, or those but for the
      Terminate-Request. Where an event cannot occur nothing happens. */
  predicate Standard(st: LcpState, e: LcpEvent, next: LcpState, acts: seq<LcpAction>, terminates: bool) {
    var entry := LineOf(e).At(st);
    if entry.Never? then next == st && acts == []
    else Number(next) == entry.next && acts == Listed(Prescribed(entry, terminates))
  }

  function Count(acts: seq<LcpAction>, x: LcpAction): nat {
    if acts == [] then 0
    else Count(acts[..|acts| - 1], x) + if acts[|acts| - 1] == x then 1 else 0
  }

  /** What a dispatch sends to the peer. An acceptable request is acknowledged once and never
      refused, any other one refused once and never acknowledged, in the five states that look at
      requests and on no other event. A refusal is answered by a new request while LCP
      negotiates, and an echo request by its reply while LCP is open, and only then. */
  predicate Answers(st: LcpState, e: LcpEvent, acts: seq<LcpAction>) {
    var looks := st in {LStopped, LReqSent, LAckRcvd, LAckSent, LOpened};
    && Count(acts, SendConfAck) == (if looks && e == LRcrPos then 1 else 0)
    && Count(acts, SendConfNack) == (if looks && e == LRcrNeg then 1 else 0)
    && (Negotiating(st) && e == LRcn ==> acts == [SendConfReq])
    && Count(acts, SendEchoReply) == (if st == LOpened && e == LRxr then 1 else 0)
  }

  /** A cell is that of the standard. */
  predicate StandardCell(st: LcpState, c: Cell<LcpState, LcpAction>, entry: Entry, terminates: bool) {
    if entry.Never? then c == Cell(st, Zero)
    else Number(c.next) == entry.next && c.handlers == Prescribed(entry, terminates)
  }

  lemma OpenedCell(e: LcpEvent)
    ensures StandardCell(LOpened, LcpCell(LOpened, e), LineOf(e).At(LOpened), Terminates(LOpened, e))
    ensures Terminates(LOpened, e) ==> LineOf(e).At(LOpened).To? && LineOf(e).At(LOpened).actions.Contains(SCR)
  {
  }

  lemma LowerCell(st: LcpState, e: LcpEvent)
    requires Number(st) <= 3
    ensures StandardCell(st, LcpCell(st, e), LineOf(e).At(st), false)
  {
  }

  lemma MiddleCell(st: LcpState, e: LcpEvent)
    requires 3 < Number(st) <= 6
    ensures StandardCell(st, LcpCell(st, e), LineOf(e).At(st), false)
  {
  }

  lemma UpperCell(st: LcpState, e: LcpEvent)
    requires 6 < Number(st) < 9
    ensures StandardCell(st, LcpCell(st, e), LineOf(e).At(st), false)
  {
  }

  lemma CellIsStandard(st: LcpState, e: LcpEvent)
    ensures StandardCell(st, LcpCell(st, e), LineOf(e).At(st), Terminates(st, e))
    ensures Terminates(st, e) ==> LineOf(e).At(st).To? && LineOf(e).At(st).actions.Contains(SCR)
  {
    hide LcpCell, LineOf, StandardCell;
    if Number(st) <= 3 {
      LowerCell(st, e);
    } else if Number(st) <= 6 {
      MiddleCell(st, e);
    } else if Number(st) < 9 {
      UpperCell(st, e);
    } else {
      OpenedCell(e);
    }
  }

  /** What the standard says with a Configure-Request is not what it says without. */
  lemma ListedDiffers(h: Handlers<LcpAction>)
    requires h.Contains(SCR)
    ensures h != Zero && Listed(h) != Listed(WithStr(h))
  {
    match h
    case One(a) => assert Listed(h)[0] == a;
    case Two(a, b) => assert Listed(h)[0] == a && Listed(h)[1] == b;
    case Three(a, b, c) => assert Listed(h)[0] == a && Listed(h)[1] == b && Listed(h)[2] == c;
  }

  lemma StandardIff(st: LcpState, e: LcpEvent)
    ensures var c := LcpCell(st, e); var acts := Listed(c.handlers);
      && (Standard(st, e, c.next, acts, false) <==> !Terminates(st, e))
      && (Terminates(st, e) ==> Standard(st, e, c.next, acts, true))
  {
    CellIsStandard(st, e);
    hide LcpCell, LineOf, WithStr, Terminates, Number;
    if Terminates(st, e) {
      ListedDiffers(LineOf(e).At(st).actions);
    }
  }

  /** How often a handler is in a cell. */
  function Times(h: Handlers<LcpAction>, x: LcpAction): nat {
    match h
    case Zero => 0
    case One(a) => if a == x then 1 else 0
    case Two(a, b) => (if a == x then 1 else 0) + (if b == x then 1 else 0)
    case Three(a, b, c) => (if a == x then 1 else 0) + (if b == x then 1 else 0) + (if c == x then 1 else 0)
  }

  lemma CountSnoc(acts: seq<LcpAction>, a: LcpAction, x: LcpAction)
    ensures Count(acts + [a], x) == Count(acts, x) + if a == x then 1 else 0
  {
    assert (acts + [a])[..|acts|] == acts;
  }

  lemma ListedTimes(h: Handlers<LcpAction>, x: LcpAction)
    ensures Count(Listed(h), x) == Times(h, x)
  {
    hide Count;
    CountNone(x);
    match h
    case Zero =>
    case One(a) =>
      CountSnoc([], a, x);
      assert [] + [a] == Listed(h);
    case Two(a, b) =>
      CountSnoc([], a, x);
      CountSnoc([] + [a], b, x);
      assert [] + [a] + [b] == Listed(h);
    case Three(a, b, c) =>
      CountSnoc([], a, x);
      CountSnoc([] + [a], b, x);
      CountSnoc([] + [a] + [b], c, x);
      assert [] + [a] + [b] + [c] == Listed(h);
  }

  lemma CountNone(x: LcpAction)
    ensures Count([], x) == 0
  {
  }

  /** The cells, as far as answers are concerned. */
  lemma RequestCells(st: LcpState, e: LcpEvent)
    ensures var h := LcpCell(st, e).handlers;
      var looks := st in {LStopped, LReqSent, LAckRcvd, LAckSent, LOpened};
      && Times(h, SendConfAck) == (if looks && e == LRcrPos then 1 else 0)
      && Times(h, SendConfNack) == (if looks && e == LRcrNeg then 1 else 0)
  {
  }

  lemma OtherCells(st: LcpState, e: LcpEvent)
    ensures var h := LcpCell(st, e).handlers;
      && (Negotiating(st) && e == LRcn ==> h == One(SendConfReq))
      && Times(h, SendEchoReply) == (if st == LOpened && e == LRxr then 1 else 0)
  {
  }

  lemma CellAnswers(st: LcpState, e: LcpEvent)
    ensures Answers(st, e, Listed(LcpCell(st, e).handlers))
  {
    hide LcpCell, Times;
    var h := LcpCell(st, e).handlers;
    RequestCells(st, e);
    OtherCells(st, e);
    ListedTimes(h, SendConfAck);
    ListedTimes(h, SendConfNack);
    ListedTimes(h, SendEchoReply);
  }

  // ----- Runs -----

  lemma CheckModemReads(s: Ppp)
    ensures Extends(ReadAll(s.trace), ReadAll(CheckModem(s).trace))
  {
    hide Extends, EvalModem, ReadAll;
    ExtendsSelf(ReadAll(s.trace));
    ModemReads(s.(timer := s.timer.(onModem := false)), MTimeout);
  }

  lemma CheckLcpReads(s: Ppp)
    ensures Extends(ReadAll(s.trace), ReadAll(CheckLcp(s).trace))
  {
    hide Extends, EvalLcp, ReadAll;
    ExtendsSelf(ReadAll(s.trace));
    LcpReads(s, LToNeg);
    LcpReads(s, LToPos);
  }

  lemma CheckAuthReads(s: Ppp)
    ensures Extends(ReadAll(s.trace), ReadAll(CheckAuth(s).trace))
  {
    hide Extends, EvalAuth, ReadAll;
    ExtendsSelf(ReadAll(s.trace));
    AuthReads(s.(timer := s.timer.(onAuth := false)), ATo);
  }

  lemma CheckIpcpReads(s: Ppp)
    ensures Extends(ReadAll(s.trace), ReadAll(CheckIpcp(s).trace))
  {
    hide Extends, EvalIpcp, ReadAll;
    ExtendsSelf(ReadAll(s.trace));
    IpcpReads(s.(timer := s.timer.(onIpcp := false)), ITo);
  }

  lemma ReopenReads(s: Ppp)
    ensures Extends(ReadAll(s.trace), ReadAll(Reopen(s).trace))
  {
    hide Extends, EvalLcp, ReadAll;
    ExtendsSelf(ReadAll(s.trace));
    LcpReads(s, LOpen);
  }

  lemma TickReads(s: Ppp)
    ensures Extends(ReadAll(s.trace), ReadAll(Tick(s).trace))
  {
    hide Extends, CheckModem, CheckLcp, CheckAuth, CheckIpcp, Reopen, ReadAll;
    var r, s0 := ReadAll(s.trace), CountDown(s);
    var s1 := CheckModem(s0);
    var s2 := CheckLcp(s1);
    var s3 := CheckAuth(s2);
    var s4 := CheckIpcp(s3);
    CheckModemReads(s0);
    CheckLcpReads(s1);
    ExtendsTrans(r, ReadAll(s1.trace), ReadAll(s2.trace));
    CheckAuthReads(s2);
    ExtendsTrans(r, ReadAll(s2.trace), ReadAll(s3.trace));
    CheckIpcpReads(s3);
    ExtendsTrans(r, ReadAll(s3.trace), ReadAll(s4.trace));
    ReopenReads(s4);
    ExtendsTrans(r, ReadAll(s4.trace), ReadAll(Reopen(s4).trace));
  }

  lemma StepReads(s: Ppp, x: Input)
    ensures Extends(ReadAll(s.trace), ReadAll(Step(s, x).trace))
  {
    hide Tick, EvalModem, EvalLcp, EvalAuth, EvalIpcp, Extends, ReadAll;
    var s0 := s.(memory := x.memory, proto := x.proto);
    match x.event
    case Ticked => TickReads(s0);
    case Connect => ExtendsSelf(ReadAll(s.trace));
    case Disconnect => LcpReads(s0.(reconnect := false), LClose);
    case FromModem(e) => ModemReads(s0, e);
    case FromPeerLcp(e) => LcpReads(s0, e);
    case FromPeerAuth(e) => AuthReads(s0, e);
    case FromPeerIpcp(e) => IpcpReads(s0, e);
  }

  lemma {:induction false} RunReads(xs: seq<Input>)
    ensures Extends(Reading([], [], false), ReadAll(Run(xs).trace))
  {
    hide Step, Extends, Read;
    if xs == [] {
      ExtendsSelf(Reading([], [], false));
    } else {
      var front := xs[..|xs| - 1];
      RunReads(front);
      StepReads(Run(front), xs[|xs| - 1]);
      ExtendsTrans(Reading([], [], false), ReadAll(Run(front).trace), ReadAll(Run(xs).trace));
    }
  }

  /** An event given to LCP is dispatched in the state that LCP is in, and answered. */
  lemma LcpAnswers(s: Ppp, e: LcpEvent)
    ensures var done := ReadAll(EvalLcp(s, e).trace).done;
      && done != []
      && var d := done[|done| - 1];
         && d.move.LcpMove? && d.move.l0 == s.lcp && d.move.le == e
         && Answers(s.lcp, e, d.acts)
         && (Standard(s.lcp, e, d.move.l1, d.acts, false) <==> !Terminates(s.lcp, e))
  {
    hide EvalLcp, LcpCell, Answers, Standard, Terminates, Listed, ReadAll;
    LcpReads(s, e);
    CellAnswers(s.lcp, e);
    StandardIff(s.lcp, e);
  }

  /** The dispatches of a run, in the order in which they ended. */
  function Dispatches(xs: seq<Input>): seq<Dispatch> {
    ReadAll(Run(xs).trace).done
  }

  /** On every run, whatever the inputs, every dispatch of LCP moves on and does what the standard
      says exactly when it is not one of the four in OPENED in which the code asks for termination;
      there it does the same but for that. Handlers run in dispatches only, and all of these end. */
  lemma RunFollowsStandard(xs: seq<Input>)
    ensures forall i :: 0 <= i < |Dispatches(xs)| && Dispatches(xs)[i].move.LcpMove? ==>
      var d := Dispatches(xs)[i]; var m := d.move;
      && (Standard(m.l0, m.le, m.l1, d.acts, false) <==> !Terminates(m.l0, m.le))
      && (Terminates(m.l0, m.le) ==> Standard(m.l0, m.le, m.l1, d.acts, true))
    ensures ReadAll(Run(xs).trace).open == [] && !ReadAll(Run(xs).trace).stray
  {
    RunReads(xs);
    var done := ReadAll(Run(xs).trace).done;
    hide Run, ReadAll, LcpCell, Standard, Terminates, Listed;
    forall i | 0 <= i < |done| && done[i].move.LcpMove?
      ensures var d := done[i]; var m := d.move;
        && (Standard(m.l0, m.le, m.l1, d.acts, false) <==> !Terminates(m.l0, m.le))
        && (Terminates(m.l0, m.le) ==> Standard(m.l0, m.le, m.l1, d.acts, true))
    {
      StandardIff(done[i].move.l0, done[i].move.le);
      assert AsInTable(done[i]);
    }
  }

  /** On every run LCP acknowledges and refuses requests exactly as they deserve it. */
  lemma RunAnswers(xs: seq<Input>)
    ensures forall i :: 0 <= i < |Dispatches(xs)| && Dispatches(xs)[i].move.LcpMove? ==>
      Answers(Dispatches(xs)[i].move.l0, Dispatches(xs)[i].move.le, Dispatches(xs)[i].acts)
  {
    RunReads(xs);
    var done := ReadAll(Run(xs).trace).done;
    hide Run, ReadAll, LcpCell, Answers, Listed;
    forall i | 0 <= i < |done| && done[i].move.LcpMove?
      ensures Answers(done[i].move.l0, done[i].move.le, done[i].acts)
    {
      CellAnswers(done[i].move.l0, done[i].move.le);
      assert AsInTable(done[i]);
    }
  }
}
