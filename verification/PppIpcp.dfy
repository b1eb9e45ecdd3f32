/** What holds of the acknowledgements of IPCP when it opens, on every run of the device. */
module PppIpcp {
  import opened PppAutomata

  /** The states in which IPCP negotiates. */
  predicate IpNegotiating(st: IpcpState) {
    st == IReqSent || st == IAckRcvd || st == IAckSent
  }

  /** A summary of a history.
    sent, rcvd: whether IPCP sent and received a Configure-Ack since it last entered the
      negotiating states from outside, the entering transition included.
    answered: whether the last Configure-Request of the peer was acknowledged.
    acked: whether a Configure-Ack came after the last Configure-Request of IPCP.
    late: whether the timer ran out in ACK_RCVD after the last Configure-Ack came.
    agreed: whether, whenever IPCP was brought up, the first three held, and the fourth exactly
      when the timer had not so run out. */
  datatype IpWatch = IpWatch(sent: bool, rcvd: bool, answered: bool, acked: bool, late: bool, agreed: bool)

  function Noted(w: IpWatch, st: IpcpState, e: IpcpEvent): IpWatch {
    var c := IpcpCell(st, e);
    var h, again := c.handlers, IpNegotiating(c.next) && !IpNegotiating(st);
    var w1 := w.(
      sent := (w.sent && !again) || h.Contains(SendIpAck),
      rcvd := (w.rcvd && !again) || e == IRca,
      answered := (w.answered && e != IRcrPos && e != IRcrNeg) || h.Contains(SendIpAck),
      acked := (w.acked || e == IRca) && !h.Contains(SendIpReq),
      late := (w.late || (e == ITo && st == IAckRcvd)) && e != IRca);
    w1.(agreed := w.agreed && (h.Contains(BringUp) ==>
          w1.sent && w1.rcvd && w1.answered && (w1.acked <==> !w1.late)))
  }

  function IpWatched(t: Trace): IpWatch {
    match t
    case Start => IpWatch(false, false, false, false, false, true)
    case Then(past, Enter(IpcpMove(st, e, _))) => Noted(IpWatched(past), st, e)
    case Then(past, _) => IpWatched(past)
  }

  predicate IpAgreed(w: IpWatch, st: IpcpState) {
    && w.agreed
    && (st == IAckRcvd ==> w.rcvd && (w.acked <==> !w.late))
    && (st == IAckSent ==> w.sent && w.answered)
    && (st == IOpened ==> w.sent && w.rcvd && w.answered && (w.acked <==> !w.late))
  }

  predicate IpKept(s: Ppp) {
    IpAgreed(IpWatched(s.trace), s.ipcp)
  }

  lemma IpTable(w: IpWatch, st: IpcpState, e: IpcpEvent)
    requires IpAgreed(w, st)
    ensures IpAgreed(Noted(w, st, e), IpcpCell(st, e).next)
  {
  }

  // ----- Every dispatch keeps it -----

  lemma IpcpDoSame(s: Ppp, a: IpcpAction)
    ensures IpcpDo(s, a).ipcp == s.ipcp && IpcpDo(s, a).trace == s.trace
  {
  }

  lemma IpcpMoves(s: Ppp, e: IpcpEvent)
    ensures EvalIpcp(s, e).ipcp == IpcpCell(s.ipcp, e).next
    ensures IpWatched(EvalIpcp(s, e).trace) == Noted(IpWatched(s.trace), s.ipcp, e)
  {
    hide IpcpCell, Noted, IpcpDo;
    var c := IpcpCell(s.ipcp, e);
    var h := c.handlers;
    var s0 := s.(ipcp := c.next).Note(Enter(IpcpMove(s.ipcp, e, c.next)));
    var s1 := if h.Has(0) then IpcpDo(s0, h.At(0)) else s0;
    var s2 := if h.Has(1) then IpcpDo(s1, h.At(1)) else s1;
    if h.Has(0) { IpcpDoSame(s0, h.At(0)); }
    if h.Has(1) { IpcpDoSame(s1, h.At(1)); }
    if h.Has(2) { IpcpDoSame(s2, h.At(2)); }
  }

  lemma EvalIpcpKeeps(s: Ppp, e: IpcpEvent)
    requires IpKept(s)
    ensures IpKept(EvalIpcp(s, e))
  {
    hide IpcpCell, IpAgreed, Noted, EvalIpcp, IpWatched;
    IpTable(IpWatched(s.trace), s.ipcp, e);
    IpcpMoves(s, e);
  }

  lemma AuthDoKeeps(s: Ppp, a: AuthAction)
    requires IpKept(s)
    ensures IpKept(AuthDo(s, a))
    decreases AuthActionRank(a)
  {
    hide IpKept, EvalIpcp, EvalLcp;
    match a
    case Auth => EvalIpcpKeeps(s, IUp);
    case Deauth => EvalIpcpKeeps(s, IDown);
    case AuthAbort =>
      TimerAside(s, s.timer.(onAuth := false));
      EvalLcpKeeps(s.(timer := s.timer.(onAuth := false)), LClose);
    case AuthTimer => TimerAside(s, s.timer.(onAuth := true, val := DEFAULT_TIMER));
    case _ =>
  }

  lemma TimerAside(s: Ppp, timer: Timer)
    requires IpKept(s)
    ensures IpKept(s.(timer := timer))
  {
  }

  lemma EvalAuthKeeps(s: Ppp, e: AuthEvent)
    requires IpKept(s)
    ensures IpKept(EvalAuth(s, e))
    decreases AuthRank(e)
  {
    hide IpKept, AuthCell, AuthDo, IpWatched;
    AuthHandlersBelow(s.auth, e);
    var c := AuthCell(s.auth, e);
    var h := c.handlers;
    var s0 := s.(auth := c.next).Note(Enter(AuthMove(s.auth, e, c.next)));
    var s1 := if h.Has(0) then AuthDo(s0, h.At(0)) else s0;
    var s2 := if h.Has(1) then AuthDo(s1, h.At(1)) else s1;
    var s3 := if h.Has(2) then AuthDo(s2, h.At(2)) else s2;
    AuthEntered(s, c.next, AuthMove(s.auth, e, c.next));
    if h.Has(0) { AuthDoKeeps(s0, h.At(0)); }
    if h.Has(1) { AuthDoKeeps(s1, h.At(1)); }
    if h.Has(2) { AuthDoKeeps(s2, h.At(2)); }
    NoteKept(s3, Leave);
  }

  lemma AuthEntered(s: Ppp, next: AuthState, m: Move)
    requires IpKept(s) && !m.IpcpMove?
    ensures IpKept(s.(auth := next).Note(Enter(m)))
  {
    hide Noted, IpAgreed;
  }

  lemma NoteKept(s: Ppp, o: Obs)
    requires IpKept(s) && !(o.Enter? && o.move.IpcpMove?)
    ensures IpKept(s.Note(o))
  {
    hide Noted, IpAgreed;
  }

  lemma ModemDoKeeps(s: Ppp, a: ModemAction)
    requires IpKept(s)
    ensures IpKept(ModemDo(s, a))
    decreases ModemActionRank(a)
  {
    hide IpKept, EvalLcp;
    match a
    case ModemUp => EvalLcpKeeps(s, LUp);
    case ModemDown => EvalLcpKeeps(s, LDown);
    case SendDial => TimerAside(s, s.timer.(onModem := true, val := MAX_DIALTIME));
    case _ => TimerAside(s, s.timer.(onModem := true, val := DEFAULT_TIMER));
  }

  lemma EvalModemKeeps(s: Ppp, e: ModemEvent)
    requires IpKept(s)
    ensures IpKept(EvalModem(s, e))
    decreases ModemRank(e)
  {
    hide IpKept, ModemCell, ModemDo, IpWatched;
    ModemHandlersBelow(s.modem, e);
    var c := ModemCell(s.modem, e);
    var h := c.handlers;
    var s0 := s.(modem := c.next).Note(Enter(ModemMove(s.modem, e, c.next)));
    var s1 := if h.Has(0) then ModemDo(s0, h.At(0)) else s0;
    var s2 := if h.Has(1) then ModemDo(s1, h.At(1)) else s1;
    var s3 := if h.Has(2) then ModemDo(s2, h.At(2)) else s2;
    ModemEntered(s, c.next, ModemMove(s.modem, e, c.next));
    if h.Has(0) { ModemDoKeeps(s0, h.At(0)); }
    if h.Has(1) { ModemDoKeeps(s1, h.At(1)); }
    if h.Has(2) { ModemDoKeeps(s2, h.At(2)); }
    NoteKept(s3, Leave);
  }

  lemma ModemEntered(s: Ppp, next: ModemState, m: Move)
    requires IpKept(s) && !m.IpcpMove?
    ensures IpKept(s.(modem := next).Note(Enter(m)))
  {
    hide Noted, IpAgreed;
  }

  lemma LcpDoKeeps(s: Ppp, a: LcpAction)
    requires IpKept(s)
    ensures IpKept(LcpDo(s, a))
    decreases LcpActionRank(a)
  {
    hide IpKept, EvalAuth, EvalModem, IpWatched;
    var s0 := s.Note(Did(a));
    NoteKept(s, Did(a));
    match a
    case LayerUp =>
      match s.proto {
        case NoAuth => EvalAuthKeeps(s0, AUpNone);
        case PapAuth => EvalAuthKeeps(s0, AUpPap);
        case ChapAuth => EvalAuthKeeps(s0, AUpChap);
        case OtherAuth =>
      }
    case LayerDown => EvalAuthKeeps(s0, ADown);
    case LayerStarted => EvalModemKeeps(s0, MStart);
    case LayerFinished => EvalModemKeeps(s0, MStop);
    case _ => TimerAside(s0, LcpDo(s, a).timer);
  }

  lemma EvalLcpKeeps(s: Ppp, e: LcpEvent)
    requires IpKept(s)
    ensures IpKept(EvalLcp(s, e))
    decreases LcpRank(e)
  {
    hide IpKept, LcpCell, LcpDo, IpWatched, RunsTimer, EnterLcp;
    LcpHandlersBelow(s.lcp, e);
    var h := LcpCell(s.lcp, e).handlers;
    var s0 := EnterLcp(s, e);
    var s1 := if h.Has(0) then LcpDo(s0, h.At(0)) else s0;
    var s2 := if h.Has(1) then LcpDo(s1, h.At(1)) else s1;
    var s3 := if h.Has(2) then LcpDo(s2, h.At(2)) else s2;
    LcpEntered(s, e);
    if h.Has(0) { LcpDoKeeps(s0, h.At(0)); }
    if h.Has(1) { LcpDoKeeps(s1, h.At(1)); }
    if h.Has(2) { LcpDoKeeps(s2, h.At(2)); }
    NoteKept(s3, Leave);
  }

  lemma LcpEntered(s: Ppp, e: LcpEvent)
    requires IpKept(s)
    ensures IpKept(EnterLcp(s, e))
  {
    hide Noted, IpAgreed, LcpCell, RunsTimer;
  }

  // ----- Every run keeps it -----

  lemma TickKeeps(s: Ppp)
    requires IpKept(s)
    ensures IpKept(Tick(s))
  {
    hide IpKept, CheckModem, CheckLcp, CheckAuth, CheckIpcp, Reopen;
    TimerAside(s, CountDown(s).timer);
    CheckModemKeeps(CountDown(s));
    CheckLcpKeeps(CheckModem(CountDown(s)));
    CheckAuthKeeps(CheckLcp(CheckModem(CountDown(s))));
    CheckIpcpKeeps(CheckAuth(CheckLcp(CheckModem(CountDown(s)))));
    ReopenKeeps(CheckIpcp(CheckAuth(CheckLcp(CheckModem(CountDown(s))))));
  }

  lemma CheckModemKeeps(s: Ppp)
    requires IpKept(s)
    ensures IpKept(CheckModem(s))
  {
    hide IpKept, EvalModem;
    TimerAside(s, s.timer.(onModem := false));
    EvalModemKeeps(s.(timer := s.timer.(onModem := false)), MTimeout);
  }

  lemma CheckLcpKeeps(s: Ppp)
    requires IpKept(s)
    ensures IpKept(CheckLcp(s))
  {
    hide IpKept, EvalLcp;
    EvalLcpKeeps(s, LToNeg);
    EvalLcpKeeps(s, LToPos);
    var t := EvalLcp(s, LToPos);
    TimerAside(t, t.timer.(count := (t.timer.count + 255) % 256));
  }

  lemma CheckAuthKeeps(s: Ppp)
    requires IpKept(s)
    ensures IpKept(CheckAuth(s))
  {
    hide IpKept, EvalAuth;
    TimerAside(s, s.timer.(onAuth := false));
    EvalAuthKeeps(s.(timer := s.timer.(onAuth := false)), ATo);
  }

  lemma CheckIpcpKeeps(s: Ppp)
    requires IpKept(s)
    ensures IpKept(CheckIpcp(s))
  {
    hide IpKept, EvalIpcp;
    TimerAside(s, s.timer.(onIpcp := false));
    EvalIpcpKeeps(s.(timer := s.timer.(onIpcp := false)), ITo);
  }

  lemma ReopenKeeps(s: Ppp)
    requires IpKept(s)
    ensures IpKept(Reopen(s))
  {
    hide IpKept, EvalLcp;
    EvalLcpKeeps(s, LOpen);
  }

  /** Any input whatever keeps it, also those that cannot come from outside. */
  lemma StepKeeps(s: Ppp, x: Input)
    requires IpKept(s)
    ensures IpKept(Step(s, x))
  {
    hide Tick, EvalModem, EvalLcp, EvalAuth, EvalIpcp, IpWatched, IpAgreed;
    var s0 := s.(memory := x.memory, proto := x.proto);
    assert IpKept(s0);
    match x.event
    case Ticked => TickKeeps(s0);
    case Connect =>
    case Disconnect =>
      assert IpKept(s0.(reconnect := false));
      EvalLcpKeeps(s0.(reconnect := false), LClose);
    case FromModem(e) => EvalModemKeeps(s0, e);
    case FromPeerLcp(e) => EvalLcpKeeps(s0, e);
    case FromPeerAuth(e) => EvalAuthKeeps(s0, e);
    case FromPeerIpcp(e) => EvalIpcpKeeps(s0, e);
  }

  lemma {:induction false} RunIpKept(xs: seq<Input>)
    ensures IpKept(Run(xs))
  {
    hide Step, IpKept;
    if xs == [] {
      CreatedIpKept();
    } else {
      RunIpKept(xs[..|xs| - 1]);
      StepKeeps(Run(xs[..|xs| - 1]), xs[|xs| - 1]);
    }
  }

  lemma CreatedIpKept()
    ensures IpKept(CREATED)
  {
  }

  /** On every run IPCP is brought up, and is open, only after a Configure-Ack was both sent and
      received since it last began to negotiate, and the last request of the peer was acknowledged;
      and the acknowledgement that it received was one of its own last request exactly when the
      timer has not run out in ACK_RCVD since. */
  lemma RunIpAgreement(xs: seq<Input>)
    ensures var w := IpWatched(Run(xs).trace);
      w.agreed && (Run(xs).ipcp == IOpened ==> w.sent && w.rcvd && w.answered && (w.acked <==> !w.late))
  {
    RunIpKept(xs);
    hide Run, IpWatched;
  }

  /** It can so run out: after a request of its own that is not acknowledged IPCP opens all the same. */
  lemma OpensUnacked(s: Ppp)
    requires s.ipcp == IReqSent
    ensures var t := EvalIpcp(EvalIpcp(EvalIpcp(s, IRca), ITo), IRcrPos);
      LinkUp(t) && !IpWatched(t.trace).acked
  {
    hide IpcpDo, IpWatched;
    var s1 := EvalIpcp(s, IRca);
    var s2 := EvalIpcp(s1, ITo);
    IpcpMoves(s, IRca);
    IpcpMoves(s1, ITo);
    IpcpMoves(s2, IRcrPos);
  }
}
