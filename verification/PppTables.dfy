/** The tables of the modem, of authentication and of IPCP, and what their dispatches do besides. */
module PppTables {
  import opened PppAutomata
  import opened PppLayers
  import opened PppRuns
  import opened PppStandard
  import Silent = PppRestart

  // ----- The modem -----

  /** The commands in the order in which they are given, and the states in which their answers
      are awaited. */
  const SCRIPT: seq<(ModemState, ModemAction)> := [
    (MReset, SendReset), (MEcho, SendEcho), (MCreg, SendCreg), (MCgreg, SendCgreg),
    (MCgdcont, SendCgdcont), (MCgatt, SendCgatt), (MDial, SendDial)
  ]

  /** The modem is started with the first command; OK leads to the next one, CONNECT ends the last
      one, silence starts anew, and whatever the state it can be stopped. */
  lemma ModemFollowsScript(i: nat)
    requires i < 7
    ensures var st := SCRIPT[i].0;
      && ModemCell(st, MOk) == (if i < 6 then Cell(SCRIPT[i + 1].0, One(SCRIPT[i + 1].1)) else Cell(st, Zero))
      && ModemCell(st, MTimeout) == Cell(SCRIPT[0].0, One(SCRIPT[0].1))
      && ModemCell(st, MConnect) == (if i == 6 then Cell(MConnected, One(ModemUp)) else Cell(st, Zero))
      && ModemCell(st, MStop) == Cell(MInitial, Zero)
      && ModemCell(st, MStart) == Cell(st, Zero)
  {
  }

  lemma ModemEnds(e: ModemEvent)
    ensures ModemCell(MInitial, e) ==
      if e == MStart then Cell(MReset, One(SendReset))
      else Cell(MInitial, if e == MTimeout then One(SendReset) else Zero)
    ensures ModemCell(MConnected, e) == if e == MStop then Cell(MInitial, One(ModemDown)) else Cell(MConnected, Zero)
  {
  }

  /** A command winds the timer up for the modem: by 20 ticks while it dials, else by 3. */
  lemma ModemCommands(s: Ppp, e: ModemEvent)
    requires !(s.modem == MDial && e == MConnect) && !(s.modem == MConnected && e == MStop)
    ensures var c := ModemCell(s.modem, e);
      EvalModem(s, e) == s.(modem := c.next,
        timer := if c.handlers == Zero then s.timer
                 else s.timer.(onModem := true, val := if c.handlers == One(SendDial) then 20 else 3),
        trace := Then(Then(s.trace, Enter(ModemMove(s.modem, e, c.next))), Leave))
  {
  }

  /** So after n good answers to the first command the modem awaits the answer to the n-th one
      behind it. */
  function Answered(s: Ppp, n: nat): Ppp {
    if n == 0 then s else EvalModem(Answered(s, n - 1), MOk)
  }

  lemma {:induction false} ScriptRuns(s: Ppp, n: nat)
    requires s.modem == MReset && n <= 6
    ensures Answered(s, n).modem == SCRIPT[n].0
    ensures 0 < n ==> Answered(s, n).timer.onModem && Answered(s, n).timer.val == if n == 6 then 20 else 3
  {
    hide EvalModem, ModemCell;
    if n > 0 {
      ScriptRuns(s, n - 1);
      ModemFollowsScript(n - 1);
      ModemCommands(Answered(s, n - 1), MOk);
    }
  }

  // ----- Authentication -----

  /** IPCP is told that authentication succeeded exactly when it becomes so, and that it ended exactly
      when the layer below is lost after it began; a rejection aborts it until it succeeded. A
      challenge is answered wherever one is expected, and a request is sent for PAP. */
  lemma AuthSignals(st: AuthState, e: AuthEvent)
    ensures var c := AuthCell(st, e); var h := c.handlers;
      && (h == One(Auth) <==> c.next == AAuthenticated && st != AAuthenticated)
      && (h == One(Deauth) <==> e == ADown && st != AInitial)
      && (h == One(AuthAbort) <==> e == ARan && st != AAuthenticated)
      && (h.Contains(Auth) ==> h == One(Auth)) && (h.Contains(Deauth) ==> h == One(Deauth))
      && (h.Contains(AuthAbort) ==> h == One(AuthAbort))
      && (h.Contains(AuthRsp) <==> e == ARac && st in {AStarting, ARspSent, AAuthenticated})
      && (h.Contains(AuthReq) <==>
           (st == AInitial && e == AUpPap) || (st == AStarting && e == ATo) || (st == AReqSent && e == ATo))
      && (h.Contains(AuthTimer) <==>
           || (h.Contains(AuthRsp) && st != AAuthenticated) || h.Contains(AuthReq)
           || (st == AStarting && e == ARaa) || (st == ARspSent && e == ATo))
  {
  }

  /** Where it goes: to its beginning when the layer below is lost, to success on acceptance, and
      otherwise on by challenges and timeouts. */
  lemma AuthMoves(st: AuthState, e: AuthEvent)
    ensures var next := AuthCell(st, e).next;
      next ==
        match e
        case AUpNone => if st == AInitial then AAuthenticated else st
        case AUpPap => if st == AInitial then AReqSent else st
        case AUpChap => if st == AInitial then AStarting else st
        case ADown => AInitial
        case ARac => if st in {AStarting, ARspSent, AAuthenticated} then ARspSent else st
        case ARaa => if st in {ARspSent, AReqSent} then AAuthenticated else st
        case ARan => if st == ARspSent then AStarting else st
        case ATo => if st == AStarting then AInitial else if st == ARspSent then AStarting else st
  {
  }

  lemma AuthOthers(st: AuthState, e: AuthEvent)
    requires AuthCell(st, e).handlers !in {One(Auth), One(Deauth), One(AuthAbort)}
    ensures AuthCell(st, e).handlers in
      {Zero, One(AuthTimer), One(AuthRsp), Two(AuthReq, AuthTimer), Two(AuthRsp, AuthTimer)}
  {
  }

  /** A dispatch without a signal winds the timer up by 3 ticks if it has that handler, and does
      nothing else. */
  lemma AuthWaits(s: Ppp, e: AuthEvent)
    requires var h := AuthCell(s.auth, e).handlers; h !in {One(Auth), One(Deauth), One(AuthAbort)}
    ensures var c := AuthCell(s.auth, e);
      EvalAuth(s, e) == s.(auth := c.next,
        timer := if c.handlers.Contains(AuthTimer) then s.timer.(onAuth := true, val := 3) else s.timer,
        trace := Then(Then(s.trace, Enter(AuthMove(s.auth, e, c.next))), Leave))
  {
    hide AuthCell, EvalIpcp, EvalLcp;
    AuthOthers(s.auth, e);
  }

  // ----- IPCP -----

  function AsLcpState(st: IpcpState): LcpState {
    match st
    case IInitial => LInitial
    case IReqSent => LReqSent
    case IAckRcvd => LAckRcvd
    case IAckSent => LAckSent
    case IOpened => LOpened
  }

  function AsLcpEvent(e: IpcpEvent): LcpEvent {
    match e
    case IUp => LUp
    case IDown => LDown
    case IRcrPos => LRcrPos
    case IRcrNeg => LRcrNeg
    case IRca => LRca
    case IRcn => LRcn
    case ITo => LToPos
  }

  /** The handlers by the names of the standard, which knows no timer of their own. */
  function AsLcpAction(a: IpcpAction): LcpAction {
    match a
    case SendIpReq => SCR
    case SendIpAck => SCA
    case SendIpNack => SCN
    case BringUp => TLU
    case BringDown => TLD
    case IpTimer => InitRestart
  }

  function AsLcpActions(h: Handlers<IpcpAction>): Handlers<LcpAction> {
    match h
    case Zero => Zero
    case One(a) => One(AsLcpAction(a))
    case Two(a, b) => if b == IpTimer then One(AsLcpAction(a)) else Two(AsLcpAction(a), AsLcpAction(b))
    case Three(a, b, c) => Three(AsLcpAction(a), AsLcpAction(b), AsLcpAction(c))
  }

  /** IPCP goes on as section 4.1 of RFC 1661 says but that it stays in ACK_RCVD when its timer runs
      out there, and leaves OPENED on an acknowledgement or a refusal without saying so. */
  lemma IpcpFollowsStandard(st: IpcpState, e: IpcpEvent)
    requires st != IInitial && e != IUp && e != IDown
    ensures var c := IpcpCell(st, e); var entry := LineOf(AsLcpEvent(e)).At(AsLcpState(st));
      if entry.Never? then c == Cell(st, Zero)
      else
        && (Number(AsLcpState(c.next)) == entry.next <==> !(st == IAckRcvd && e == ITo))
        && (AsLcpActions(c.handlers) == entry.actions <==> !(st == IOpened && (e == IRca || e == IRcn)))
  {
  }

  /** In these three it stays, or only asks again. */
  lemma IpcpDiffers()
    ensures IpcpCell(IAckRcvd, ITo).next == IAckRcvd
    ensures IpcpCell(IOpened, IRca) == IpcpCell(IOpened, IRcn) == Cell(IReqSent, One(SendIpReq))
  {
  }

  /** It begins when authentication succeeds and ends when that is lost. */
  lemma IpcpBegins(st: IpcpState, e: IpcpEvent)
    ensures IpcpCell(st, IUp) == if st == IInitial then Cell(IReqSent, Two(SendIpReq, IpTimer)) else Cell(st, Zero)
    ensures IpcpCell(st, IDown) == Cell(IInitial, if st == IOpened then One(BringDown) else Zero)
    ensures e != IUp ==> IpcpCell(IInitial, e) == Cell(IInitial, Zero)
  {
  }

  /** It waits for the answer to a request, except for those that it sends on its way out of OPENED:
      when one of these is lost it is not sent again. */
  lemma IpcpWaits(st: IpcpState, e: IpcpEvent)
    ensures var h := IpcpCell(st, e).handlers;
      h.Contains(IpTimer) <==> h.Contains(SendIpReq) && st != IOpened
  {
  }

  lemma IpcpTimers(st: IpcpState, e: IpcpEvent)
    ensures var h := IpcpCell(st, e).handlers;
      h.Contains(IpTimer) <==> h == Two(SendIpReq, IpTimer)
  {
  }

  /** A dispatch winds the timer up by 15 ticks if it has that handler, and does nothing else. */
  lemma IpcpDispatched(s: Ppp, e: IpcpEvent)
    ensures var c := IpcpCell(s.ipcp, e);
      EvalIpcp(s, e) == s.(ipcp := c.next,
        timer := if c.handlers.Contains(IpTimer) then s.timer.(onIpcp := true, val := 15) else s.timer,
        trace := Then(Then(s.trace, Enter(IpcpMove(s.ipcp, e, c.next))), Leave))
  {
    hide IpcpCell;
    IpcpTimers(s.ipcp, e);
  }

  // ----- From LCP upward -----

  /** When LCP comes up the option that the peer sent last decides how it is to authenticate; without
      one IPCP begins at once. */
  lemma UpBy(s: Ppp)
    requires s.auth == AInitial
    ensures LcpDo(s, LayerUp).auth ==
      match s.proto
      case NoAuth => AAuthenticated
      case PapAuth => AReqSent
      case ChapAuth => AStarting
      case OtherAuth => AInitial
    ensures s.ipcp == IInitial ==> LcpDo(s, LayerUp).ipcp == if s.proto == NoAuth then IReqSent else IInitial
  {
    hide EvalAuth, EvalIpcp, EvalModem, AuthCell, IpcpCell;
    var s0 := s.Note(Did(LayerUp));
    UpCells();
    if s.proto == NoAuth {
      AuthOne(s0, AUpNone, Auth);
      var s1 := s0.(auth := AAuthenticated).Note(Enter(AuthMove(AInitial, AUpNone, AAuthenticated)));
      IpcpDispatched(s1, IUp);
      IpcpBegins(s.ipcp, IUp);
    } else if s.proto == PapAuth {
      AuthWaits(s0, AUpPap);
    } else if s.proto == ChapAuth {
      AuthWaits(s0, AUpChap);
    }
  }

  lemma UpCells()
    ensures AuthCell(AInitial, AUpNone) == Cell(AAuthenticated, One(Auth))
    ensures AuthCell(AInitial, AUpPap) == Cell(AReqSent, Two(AuthReq, AuthTimer))
    ensures AuthCell(AInitial, AUpChap) == Cell(AStarting, Zero)
  {
  }

  // ----- The timer of LCP -----

  function Wound(val: nat): nat {
    if val == 0 then 3 else val
  }

  /** What the handlers of LCP that do not signal do to the timer: a Configure-Request, if there is
      memory for it, is awaited for 3 ticks and begins a count of 10 when there is none; a
      Terminate-Request goes on with the ticks there are, and begins a count of 2. */
  lemma LcpTimers(s: Ppp, a: LcpAction)
    requires a !in {LayerUp, LayerDown, LayerStarted, LayerFinished}
    ensures var t := s.timer;
      var t' := LcpDo(s, a).timer;
      LcpDo(s, a) == s.(timer := t', trace := Then(s.trace, Did(a)))
      && match a
         case SendConfReq =>
           if s.memory then t' == t.(onReq := true, val := 3, count := if t.count == 0 then 10 else t.count)
           else t' == t
         case SendTermReq =>
           t' == t.(onTerm := true, val := Wound(t.val), count := if t.count == 0 then 2 else t.count)
         case InitRestart =>
           t' == t.(onReq := true, val := Wound(t.val), count := if t.count == 0 then 10 else t.count)
         case ZeroRestart => t' == t.(onReq := true, val := Wound(t.val), count := 0)
         case _ => t' == t
  {
  }

  /** From the connection of the modem on LCP asks a peer that stays silent ten times more, every 3 ticks,
      and gives up after 33. */
  lemma SilentFromStart(s: Ppp)
    requires Kept(s) && s.memory && s.modem == MDial && s.lcp == LStarting && s.timer.count == 0
    ensures var t := EvalModem(s, MConnect);
      && t.lcp == LReqSent && t.timer.val == 3 && t.timer.count == 10
      && (forall k :: 0 <= k < 33 ==> Silent.Waiting(Silent.Ticks(t, k)))
      && Silent.Counted(t, Silent.Ticks(t, 33), 10, 1)
      && Silent.Ticks(t, 33).lcp in {LInitial, LStarting}
  {
    var t := EvalModem(s, MConnect);
    ModemPreserves(s, MConnect);
    FirstAsked(s);
    hide EvalModem, Preserved, Kept, Silent.Ticks, Silent.Counted, Silent.Waiting;
    PreservedKept(s, t);
    PreservedSettings(s, t);
    Silent.SilentPeer(t);
  }

  lemma FirstAsked(s: Ppp)
    requires s.memory && s.modem == MDial && s.lcp == LStarting && s.timer.count == 0
    ensures var t := EvalModem(s, MConnect);
      && t.lcp == LReqSent && t.timer.val == 3 && t.timer.count == 10 && Silent.Waiting(t)
      && Silent.TicksLeft(t) == 33
  {
    hide EvalModem, EvalLcp;
    ModemOne(s, MConnect, ModemUp);
    var s0 := s.(modem := MConnected).Note(Enter(ModemMove(MDial, MConnect, MConnected)));
    assert EvalModem(s, MConnect) == EvalLcp(s0, LUp).Note(Leave);
    LcpOne(s0, LUp, SendConfReq);
    LcpTimers(EnterLcp(s0, LUp), SendConfReq);
  }

  // ----- The tick -----

  /** Nobody has waited long enough, or nobody waits: a tick only counts down. */
  lemma NobodyServed(s: Ppp)
    requires s.timer.val != 0
    ensures CheckModem(s) == CheckLcp(s) == CheckAuth(s) == CheckIpcp(s) == s
  {
    hide EvalModem, EvalLcp, EvalAuth, EvalIpcp;
  }

  /** The machines share the timer, and the modem comes first: while it waits for an answer that does
      not come it starts anew and winds the timer up, and nobody else is served. */
  lemma ModemServed(s: Ppp)
    requires s.timer.val <= 1 && s.timer.onModem && s.modem !in {MInitial, MConnected} && s.lcp != LInitial
    ensures var t := Tick(s);
      t == s.(modem := MReset, timer := s.timer.(val := 3), trace := t.trace)
  {
    hide EvalModem, EvalLcp, EvalAuth, EvalIpcp, ModemCell;
    var u := CountDown(s).(timer := CountDown(s).timer.(onModem := false));
    ScriptTimeout(s.modem);
    ModemCommands(u, MTimeout);
    NobodyServed(EvalModem(u, MTimeout));
  }

  lemma ScriptTimeout(st: ModemState)
    requires st !in {MInitial, MConnected}
    ensures ModemCell(st, MTimeout) == Cell(MReset, One(SendReset))
  {
  }

  /** Authentication comes before IPCP: while it waits it does what its table says for a timeout, winds
      the timer up by 3 ticks, and IPCP, if it waits too, is not served. */
  lemma AuthServed(s: Ppp)
    requires s.timer.val <= 1 && !s.timer.onModem && !s.timer.onReq && !s.timer.onTerm && s.timer.onAuth
    requires s.auth in {AStarting, ARspSent, AReqSent} && s.lcp != LInitial
    ensures var t := Tick(s);
      t == s.(auth := AuthCell(s.auth, ATo).next, timer := s.timer.(val := 3), trace := t.trace)
  {
    hide EvalModem, EvalLcp, EvalAuth, EvalIpcp, AuthCell;
    var u := CountDown(s).(timer := CountDown(s).timer.(onAuth := false));
    AuthTimeout(s.auth);
    AuthWaits(u, ATo);
    NobodyServed(EvalAuth(u, ATo));
  }

  lemma AuthTimeout(st: AuthState)
    requires st in {AStarting, ARspSent, AReqSent}
    ensures var h := AuthCell(st, ATo).handlers;
      h !in {One(Auth), One(Deauth), One(AuthAbort)} && h.Contains(AuthTimer)
  {
  }

  /** IPCP comes last: it sends its request again every 15 ticks. */
  lemma IpcpServed(s: Ppp)
    requires s.timer.val <= 1 && !s.timer.onModem && !s.timer.onReq && !s.timer.onTerm && !s.timer.onAuth
    requires s.timer.onIpcp && s.ipcp in {IReqSent, IAckRcvd, IAckSent} && s.lcp != LInitial
    ensures var t := Tick(s);
      t == s.(timer := s.timer.(val := 15), trace := t.trace)
  {
    hide EvalModem, EvalLcp, EvalAuth, EvalIpcp, IpcpCell;
    var u := CountDown(s).(timer := CountDown(s).timer.(onIpcp := false));
    IpcpTimeout(s.ipcp);
    IpcpDispatched(u, ITo);
  }

  lemma IpcpTimeout(st: IpcpState)
    requires st in {IReqSent, IAckRcvd, IAckSent}
    ensures IpcpCell(st, ITo) == Cell(st, Two(SendIpReq, IpTimer))
  {
  }

  /** A new device waits for nothing, and does nothing until it is told to connect. */
  lemma {:induction false} IdleUntilConnect(n: nat)
    ensures Silent.Ticks(CREATED, n) == CREATED
    ensures CREATED == Ppp(MInitial, LInitial, AInitial, IInitial,
                           Timer(false, false, false, false, false, 0, 0), NoAuth, false, true, Start)
  {
    if n > 0 {
      NewTick();
      IdleUntilConnect(n - 1);
    }
  }

  lemma NewTick()
    ensures Tick(CREATED) == CREATED
  {
    hide EvalModem, EvalLcp, EvalAuth, EvalIpcp;
  }

  /** A closed link is opened by the tick exactly when it is to be connected: the modem is started. */
  lemma TickOpens(s: Ppp)
    requires Kept(s) && s.lcp == LInitial && s.modem == MInitial
    ensures var t := Tick(s);
      && t.lcp == (if s.reconnect then LStarting else LInitial)
      && t.modem == (if s.reconnect then MReset else MInitial)
      && (s.reconnect ==> t.timer.onModem && t.timer.val == 3)
  {
    hide Kept, CheckModem, CheckLcp, CheckAuth, CheckIpcp, Reopen;
    var s0 := CountDown(s);
    NotWaiting(s);
    InitialModem(s0);
    var s1 := CheckModem(s0);
    NotServed(s1);
    UpperStages(s1);
    Opening(CheckIpcp(CheckAuth(s1)));
  }

  lemma NotWaiting(s: Ppp)
    requires Kept(s) && s.lcp == LInitial
    ensures !s.timer.onReq && !s.timer.onTerm && s.auth == AInitial
  {
    RunsTimerStates(s.lcp);
    hide RunsTimer, Agreed;
  }

  lemma InitialModem(s: Ppp)
    requires s.modem == MInitial
    ensures var t := CheckModem(s);
      t == s.(timer := t.timer, trace := t.trace) && RestartOf(t) == RestartOf(s)
  {
    hide EvalModem, ModemCell;
    ModemEnds(MTimeout);
    ModemCommands(s.(timer := s.timer.(onModem := false)), MTimeout);
  }

  lemma NotServed(s: Ppp)
    requires !s.timer.onReq && !s.timer.onTerm
    ensures CheckLcp(s) == s
  {
  }

  lemma InitialCells()
    ensures AuthCell(AInitial, ATo) == Cell(AInitial, Zero) && IpcpCell(IInitial, ITo) == Cell(IInitial, Zero)
  {
  }

  lemma Opening(s: Ppp)
    requires s.lcp == LInitial && s.modem == MInitial
    ensures var t := Reopen(s);
      && t.lcp == (if s.reconnect then LStarting else LInitial)
      && t.modem == (if s.reconnect then MReset else MInitial)
      && (s.reconnect ==> t.timer.onModem && t.timer.val == 3)
  {
    if s.reconnect {
      LcpOne(s, LOpen, LayerStarted);
    }
    hide EvalLcp;
  }

  /** When LCP gives up the modem is hung up. A link that was being closed is then closed, and opened
      anew on the same tick if it is to be connected; any other one is started anew in any case. */
  lemma GivesUp(s: Ppp)
    requires Kept(s) && (s.timer.onReq || s.timer.onTerm) && s.timer.val <= 1 && s.timer.count == 0
    ensures var t := Tick(s);
      if s.lcp == LClosing && !s.reconnect then t.lcp == LInitial && t.modem == MInitial
      else t.lcp == LStarting && t.modem == MReset
  {
    hide Kept, Preserved, CheckModem, CheckLcp, CheckAuth, CheckIpcp, Reopen;
    var s0 := CountDown(s);
    SamePreserves(s, s0);
    PreservedKept(s, s0);
    WaitsConnected(s0);
    ModemStays(s0);
    var s1 := CheckModem(s0);
    GivenUp(s1);
    var s2 := CheckLcp(s1);
    UpperStages(s2);
    Reopened(CheckIpcp(CheckAuth(s2)));
  }

  lemma WaitsConnected(s: Ppp)
    requires Kept(s) && (s.timer.onReq || s.timer.onTerm)
    ensures s.lcp in {LClosing, LStopping, LReqSent, LAckRcvd, LAckSent} && s.modem == MConnected && s.auth == AInitial
  {
    RunsTimerStates(s.lcp);
    hide RunsTimer, Agreed;
  }

  lemma ModemStays(s: Ppp)
    requires Kept(s) && s.modem == MConnected
    ensures var t := CheckModem(s);
      && Kept(t) && t.lcp == s.lcp && t.modem == s.modem && t.auth == s.auth && t.reconnect == s.reconnect
      && RestartOf(t) == RestartOf(s) && t.timer.val == s.timer.val
  {
    hide Kept, Preserved, EvalModem, ModemCell;
    CheckModemPreserves(s);
    PreservedKept(s, CheckModem(s));
    PreservedSettings(s, CheckModem(s));
    ModemEnds(MTimeout);
    ModemCommands(s.(timer := s.timer.(onModem := false)), MTimeout);
  }

  lemma PreservedSettings(s: Ppp, t: Ppp)
    requires Preserved(s, t)
    ensures t.proto == s.proto && t.reconnect == s.reconnect && t.memory == s.memory
  {
  }

  lemma GivenUp(s: Ppp)
    requires s.lcp in {LClosing, LStopping, LReqSent, LAckRcvd, LAckSent} && s.modem == MConnected && s.auth == AInitial
    requires (s.timer.onReq || s.timer.onTerm) && s.timer.val == 0 && s.timer.count == 0
    ensures var t := CheckLcp(s);
      && t.auth == AInitial && t.reconnect == s.reconnect
      && (if s.lcp == LClosing then t.lcp == LInitial && t.modem == MInitial
          else t.lcp == LStarting && t.modem == MReset)
  {
    hide EvalLcp, AfterLcp, RestartLcp, ObserveLcp, Near, Watched;
    LcpEffect(s, LToNeg);
    GivenUpShape(ShapeOf(s), s.proto);
  }

  lemma GivenUpShape(q: Shape, proto: AuthProto)
    requires q.lcp in {LClosing, LStopping, LReqSent, LAckRcvd, LAckSent} && q.modem == MConnected
    ensures var q' := AfterLcp(q, LToNeg, proto);
      && q'.auth == q.auth
      && (if q.lcp == LClosing then q'.lcp == LInitial && q'.modem == MInitial
          else q'.lcp == LStarting && q'.modem == MReset)
  {
  }

  lemma UpperStages(s: Ppp)
    requires s.auth == AInitial
    ensures var t := CheckIpcp(CheckAuth(s));
      t.lcp == s.lcp && t.modem == s.modem && t.reconnect == s.reconnect
  {
    hide EvalAuth, EvalIpcp, AuthCell, IpcpCell;
    InitialCells();
    AuthWaits(s.(timer := s.timer.(onAuth := false)), ATo);
    var s1 := CheckAuth(s);
    IpcpDispatched(s1.(timer := s1.timer.(onIpcp := false)), ITo);
  }

  lemma Reopened(s: Ppp)
    requires s.lcp == LStarting || (s.lcp == LInitial && s.modem == MInitial)
    ensures var t := Reopen(s);
      if s.lcp == LStarting then t == s
      else
        && t.lcp == (if s.reconnect then LStarting else LInitial)
        && t.modem == (if s.reconnect then MReset else MInitial)
  {
    hide EvalLcp;
    if s.lcp == LInitial {
      Opening(s);
    }
  }
}
