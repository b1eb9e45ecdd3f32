/** What every run of the PPP device keeps, whatever the modem and the peer do. */
module PppRuns {
  import opened PppAutomata
  import opened PppLayers

  // ----- The invariants -----

  /** The modem is connected exactly when LCP is past STARTING, and authentication has begun
      only while LCP is open. */
  predicate Stacked(q: Shape) {
    && (q.lcp != LInitial && q.lcp != LStarting <==> q.modem == MConnected)
    && (q.auth != AInitial ==> q.lcp == LOpened)
  }

  /** IPCP has begun only while authentication has. */
  predicate IpAboveAuth(q: Shape) {
    q.ipcp != IInitial ==> q.auth != AInitial
  }

  /** IPCP is open only while authentication has begun. */
  predicate UpAboveAuth(q: Shape) {
    q.ipcp == IOpened ==> q.auth != AInitial
  }

  /** A move keeps both. */
  predicate UpperKept(q: Shape, q': Shape) {
    && (IpAboveAuth(q) ==> IpAboveAuth(q'))
    && (UpAboveAuth(q) ==> UpAboveAuth(q'))
  }

  lemma UpperTrans(a: Shape, b: Shape, c: Shape)
    requires UpperKept(a, b) && UpperKept(b, c)
    ensures UpperKept(a, c)
  {
  }

  /** Configuration was agreed upon in both directions before LCP opened, every exit from
      OPENED was signalled at once, and dispatches never nested deeper than four. */
  predicate Agreed(w: Watch, st: LcpState) {
    && w.agreed && w.left && !w.owed && w.depth == 0 && w.deepest <= 4
    && (st == LAckRcvd ==> w.rcvd && w.acked)
    && (st == LAckSent ==> w.sent && w.answered)
    && (st == LOpened ==> w.sent && w.rcvd && w.acked && w.answered)
  }

  /** The restart timer is off where it does not run, and its counter is bounded. */
  predicate TimerKept(r: Restart, st: LcpState) {
    && (!RunsTimer(st) ==> !r.req && !r.term)
    && r.count <= MAX_CONFIGURE
  }

  /** With memory for every Configure-Request, the restart timer is on exactly where it runs. */
  predicate TimerExact(r: Restart, st: LcpState) {
    r.req || r.term <==> RunsTimer(st)
  }

  lemma RunsTimerStates(st: LcpState)
    ensures RunsTimer(st) <==> st in {LClosing, LStopping, LReqSent, LAckRcvd, LAckSent}
  {
  }

  predicate Kept(s: Ppp) {
    && Stacked(ShapeOf(s))
    && Agreed(Watched(s.trace), s.lcp)
    && TimerKept(RestartOf(s), s.lcp)
  }

  // ----- Preservation, by the flat functions -----

  /** LCP ends where the table says, unless the modem was lost on the way. */
  lemma FinalLcp(q: Shape, e: LcpEvent, proto: AuthProto)
    ensures var c, st := LcpCell(q.lcp, e), AfterLcp(q, e, proto).lcp;
      st == c.next || (c.handlers == One(LayerFinished) && st in {LInitial, LStarting})
  {
    LcpHandlers(q.lcp, e);
    FinalActions(q.(lcp := LcpCell(q.lcp, e).next), LcpCell(q.lcp, e).handlers, proto);
  }

  lemma FinalActions(q: Shape, h: Handlers<LcpAction>, proto: AuthProto)
    requires h == One(LayerFinished) || !h.Contains(LayerFinished)
    ensures var st := AfterActions(q, h, proto).lcp;
      st == q.lcp || (h == One(LayerFinished) && st in {LInitial, LStarting})
  {
    hide AfterAction;
    match h
    case Zero =>
    case One(x) => FinalAction(q, x, proto);
    case Two(x, y) =>
      FinalAction(q, x, proto);
      FinalAction(AfterAction(q, x, proto), y, proto);
    case Three(x, y, z) =>
      FinalAction(q, x, proto);
      FinalAction(AfterAction(q, x, proto), y, proto);
      FinalAction(AfterAction(AfterAction(q, x, proto), y, proto), z, proto);
  }

  lemma FinalAction(q: Shape, a: LcpAction, proto: AuthProto)
    ensures
      || AfterAction(q, a, proto).lcp == q.lcp
      || (a == LayerFinished && AfterAction(q, a, proto).lcp in {LInitial, LStarting})
  {
    hide AuthCell, IpcpCell, ModemCell;
  }

  predicate Local(a: LcpAction) {
    a !in {LayerUp, LayerDown, LayerStarted, LayerFinished}
  }

  /** Signals the layer above first and then only sends and waits. */
  predicate DownOnce(h: Handlers<LcpAction>) {
    match h
    case Zero => false
    case One(a) => a == LayerDown
    case Two(a, b) => a == LayerDown && Local(b)
    case Three(a, b, c) => a == LayerDown && Local(b) && Local(c)
  }

  /** The cells, as far as the stacking of the layers is concerned. */
  lemma StackTable(st: LcpState, e: LcpEvent)
    requires e != LUp && e != LDown
    ensures var c := LcpCell(st, e); var h := c.handlers;
      && (h == One(LayerFinished) ==> st != LOpened && c.next != LOpened && (st == LStarting <==> c.next == LInitial)
                                      && st != LInitial && c.next != LStarting)
      && (h != One(LayerFinished) ==> !h.Contains(LayerFinished))
      && (h != One(LayerFinished) ==> (c.next in {LInitial, LStarting} <==> st in {LInitial, LStarting}))
      && (h.Contains(LayerStarted) ==> h == One(LayerStarted) && st == LInitial)
      && (h.Contains(LayerDown) <==> st == LOpened && c.next != LOpened)
      && (h.Contains(LayerDown) ==> DownOnce(h))
      && (h.Contains(LayerUp) <==> st != LOpened && c.next == LOpened)
      && (h.Contains(LayerUp) ==> h == One(LayerUp) || h == Two(SendConfAck, LayerUp))
  {
  }

  lemma DownTable(st: LcpState)
    ensures LcpCell(st, LDown).next in {LInitial, LStarting}
  {
  }

  /** Only the state of LCP differs. */
  predicate ButLcp(q: Shape, q0: Shape) {
    q0 == q.(lcp := q0.lcp)
  }

  lemma LcpStacked(q: Shape, e: LcpEvent, proto: AuthProto)
    requires Stacked(q) && e != LUp && e != LDown
    ensures Stacked(AfterLcp(q, e, proto)) && UpperKept(q, AfterLcp(q, e, proto))
  {
    hide LcpCell, AfterAuth, AfterModem, UpperKept, Stacked, AfterActions, DownOnce;
    var c := LcpCell(q.lcp, e);
    var q0 := q.(lcp := c.next);
    StackTable(q.lcp, e);
    if c.handlers == One(LayerFinished) {
      ModemActions(q0, proto);
      FinishedStacked(q, q0);
    } else if c.handlers == One(LayerStarted) {
      ModemActions(q0, proto);
      StartedStacked(q, q0);
    } else if c.handlers.Contains(LayerDown) {
      DownActions(q0, c.handlers, proto);
      DownStacked(q, q0);
    } else if c.handlers.Contains(LayerUp) {
      UpActions(q0, c.handlers, proto);
      UpStacked(q, q0, proto);
    } else {
      LocalActions(q0, c.handlers, proto);
      LocalStacked(q, q0);
    }
  }

  lemma ModemActions(q: Shape, proto: AuthProto)
    ensures AfterActions(q, One(LayerFinished), proto) == AfterModem(q, MStop)
    ensures AfterActions(q, One(LayerStarted), proto) == AfterModem(q, MStart)
  {
    hide AfterModem;
  }

  lemma FinishedStacked(q: Shape, q0: Shape)
    requires Stacked(q) && ButLcp(q, q0) && q.lcp != LOpened && q0.lcp != LOpened
    requires q.lcp != LInitial && q0.lcp != LStarting && (q.lcp == LStarting <==> q0.lcp == LInitial)
    ensures Stacked(AfterModem(q0, MStop)) && UpperKept(q, AfterModem(q0, MStop))
  {
    DownTable(q0.lcp);
    hide LcpCell, AuthCell, IpcpCell;
  }

  lemma StartedStacked(q: Shape, q0: Shape)
    requires Stacked(q) && ButLcp(q, q0) && q.lcp == LInitial && q0.lcp in {LInitial, LStarting}
    ensures Stacked(AfterModem(q0, MStart)) && UpperKept(q, AfterModem(q0, MStart))
  {
    hide LcpCell, AuthCell, IpcpCell;
  }

  lemma DownStacked(q: Shape, q0: Shape)
    requires Stacked(q) && ButLcp(q, q0) && q.lcp == LOpened && q0.lcp !in {LInitial, LStarting}
    ensures Stacked(AfterAuth(q0, ADown)) && UpperKept(q, AfterAuth(q0, ADown))
  {
    hide LcpCell;
  }

  lemma UpStacked(q: Shape, q0: Shape, proto: AuthProto)
    requires Stacked(q) && ButLcp(q, q0) && q.lcp !in {LInitial, LStarting, LOpened} && q0.lcp == LOpened
    ensures var q' := if proto == OtherAuth then q0 else AfterAuth(q0, UpEvent(proto));
      Stacked(q') && UpperKept(q, q')
  {
    hide LcpCell, IpcpCell;
  }

  lemma LocalStacked(q: Shape, q0: Shape)
    requires Stacked(q) && ButLcp(q, q0) && (q.lcp == LOpened ==> q0.lcp == LOpened)
    requires q.lcp in {LInitial, LStarting} <==> q0.lcp in {LInitial, LStarting}
    ensures Stacked(q0) && UpperKept(q, q0)
  {
  }

  lemma LocalActions(q: Shape, h: Handlers<LcpAction>, proto: AuthProto)
    requires !h.Contains(LayerFinished) && !h.Contains(LayerStarted) && !h.Contains(LayerDown) && !h.Contains(LayerUp)
    ensures AfterActions(q, h, proto) == q
  {
    hide AfterAuth, AfterModem;
  }

  lemma DownActions(q: Shape, h: Handlers<LcpAction>, proto: AuthProto)
    requires DownOnce(h)
    ensures AfterActions(q, h, proto) == AfterAuth(q, ADown)
  {
    hide AfterAuth, AfterModem;
  }

  lemma UpActions(q: Shape, h: Handlers<LcpAction>, proto: AuthProto)
    requires h == One(LayerUp) || h == Two(SendConfAck, LayerUp)
    ensures AfterActions(q, h, proto) == if proto == OtherAuth then q else AfterAuth(q, UpEvent(proto))
  {
    hide AfterAuth, AfterModem;
  }

  lemma RestartTable(r: Restart, st: LcpState, e: LcpEvent, memory: bool)
    requires TimerKept(r, st)
    ensures var r', st' := RestartLcp(r, st, e, memory), LcpCell(st, e).next;
      TimerKept(r', st') && (memory && TimerExact(r, st) ==> TimerExact(r', st'))
  {
    if st == LOpened {
      RestartTableOpened(r, st, e, memory);
    } else if Negotiating(st) {
      RestartTableUpper(r, st, e, memory);
    } else {
      RestartTableLower(r, st, e, memory);
    }
  }

  lemma RestartTableUpper(r: Restart, st: LcpState, e: LcpEvent, memory: bool)
    requires TimerKept(r, st) && Negotiating(st)
    ensures var r', st' := RestartLcp(r, st, e, memory), LcpCell(st, e).next;
      TimerKept(r', st') && (memory && TimerExact(r, st) ==> TimerExact(r', st'))
  {
  }

  lemma RestartTableOpened(r: Restart, st: LcpState, e: LcpEvent, memory: bool)
    requires TimerKept(r, st) && st == LOpened
    ensures var r', st' := RestartLcp(r, st, e, memory), LcpCell(st, e).next;
      TimerKept(r', st') && (memory && TimerExact(r, st) ==> TimerExact(r', st'))
  {
  }

  lemma RestartTableLower(r: Restart, st: LcpState, e: LcpEvent, memory: bool)
    requires TimerKept(r, st) && st != LOpened && !Negotiating(st)
    ensures var r', st' := RestartLcp(r, st, e, memory), LcpCell(st, e).next;
      TimerKept(r', st') && (memory && TimerExact(r, st) ==> TimerExact(r', st'))
  {
  }

  lemma LcpRestart(r: Restart, q: Shape, e: LcpEvent, proto: AuthProto, memory: bool)
    requires TimerKept(r, q.lcp)
    ensures var r' := RestartLcp(r, q.lcp, e, memory);
      var st' := AfterLcp(q, e, proto).lcp;
      && TimerKept(r', st')
      && (memory && TimerExact(r, q.lcp) ==> TimerExact(r', st'))
  {
    RestartTable(r, q.lcp, e, memory);
    LcpHandlers(q.lcp, e);
    FinalLcp(q, e, proto);
    RunsTimerStates(AfterLcp(q, e, proto).lcp);
    RunsTimerStates(LcpCell(q.lcp, e).next);
    hide LcpCell, RestartLcp, AfterLcp, RunsTimer, RestartActions;
  }

  /** The cells, as far as the agreement is concerned. */
  lemma AgreementTable(st: LcpState, e: LcpEvent)
    ensures AgreementFacts(st, e, LcpCell(st, e))
  {
  }

  /** The observations of a dispatch keep the agreement, by the table alone. */
  lemma AgreedTable(w: Watch, st: LcpState, e: LcpEvent)
    requires Agreed(w.(depth := 0, deepest := 0), st)
    ensures var w' := ObserveLcp(w, st, e);
      && w'.depth == w.depth && w'.deepest == (if w.deepest < w.depth + 1 then w.depth + 1 else w.deepest)
      && Agreed(w'.(depth := 0, deepest := 0), LcpCell(st, e).next)
  {
    AgreementTable(st, e);
    hide LcpCell;
    match LcpCell(st, e).handlers
    case Three(_, _, _) => AgreedThree(w, st, e);
    case Two(_, _) => AgreedTwo(w, st, e);
    case _ =>
  }

  predicate AgreementFacts(st: LcpState, e: LcpEvent, c: Cell<LcpState, LcpAction>) {
    var h := c.handlers;
    && (c.next == LAckRcvd ==> (st == LReqSent && e == LRca && h == One(InitRestart)) || st == LAckRcvd)
    && (c.next == LAckSent ==> (st == LAckSent && e != LRcrPos && e != LRcrNeg) || h.Contains(SendConfAck))
    && (c.next == LOpened ==> (st == LOpened && e != LRcrPos && e != LRcrNeg)
                              || (st == LAckRcvd && h == Two(SendConfAck, LayerUp))
                              || (st == LAckSent && e == LRca && h == One(LayerUp)))
    && (c.next == LAckRcvd || c.next == LOpened ==> !h.Contains(SendConfReq))
    && (st == LOpened && c.next != LOpened ==> h != Zero && h.At(0) == LayerDown)
    && (h.Contains(LayerUp) ==> c.next == LOpened && st != LOpened)
  }

  lemma AgreedTwo(w: Watch, st: LcpState, e: LcpEvent)
    requires Agreed(w.(depth := 0, deepest := 0), st)
    requires AgreementFacts(st, e, LcpCell(st, e)) && LcpCell(st, e).handlers.Two?
    ensures var w' := ObserveLcp(w, st, e);
      && w'.depth == w.depth && w'.deepest == (if w.deepest < w.depth + 1 then w.depth + 1 else w.deepest)
      && Agreed(w'.(depth := 0, deepest := 0), LcpCell(st, e).next)
  {
    hide LcpCell;
  }

  lemma AgreedThree(w: Watch, st: LcpState, e: LcpEvent)
    requires Agreed(w.(depth := 0, deepest := 0), st)
    requires AgreementFacts(st, e, LcpCell(st, e)) && LcpCell(st, e).handlers.Three?
    ensures var w' := ObserveLcp(w, st, e);
      && w'.depth == w.depth && w'.deepest == (if w.deepest < w.depth + 1 then w.depth + 1 else w.deepest)
      && Agreed(w'.(depth := 0, deepest := 0), LcpCell(st, e).next)
  {
    hide LcpCell;
  }

  lemma LcpAgreed(w: Watch, q: Shape, e: LcpEvent, proto: AuthProto)
    requires Agreed(w.(depth := 0, deepest := 0), q.lcp)
    ensures var w' := ObserveLcp(w, q.lcp, e);
      && w'.depth == w.depth && w'.deepest == (if w.deepest < w.depth + 1 then w.depth + 1 else w.deepest)
      && Agreed(w'.(depth := 0, deepest := 0), AfterLcp(q, e, proto).lcp)
  {
    AgreedTable(w, q.lcp, e);
    FinalLcp(q, e, proto);
    hide LcpCell, AfterLcp, ObserveLcp;
  }

  // ----- Preservation by every outermost dispatch -----

  /** The invariants hold, and the restart timer stays exact given memory. */
  predicate Preserved(s: Ppp, t: Ppp) {
    && Kept(t)
    && t.proto == s.proto && t.reconnect == s.reconnect && t.memory == s.memory
    && (s.memory && TimerExact(RestartOf(s), s.lcp) ==> TimerExact(RestartOf(t), t.lcp))
  }

  lemma NearAgreed(w: Watch, w': Watch, d: int, st: LcpState)
    requires Near(w, w', d) && Agreed(w, st) && d <= 4
    ensures Agreed(w', st)
  {
  }

  /** A dispatch that leaves LCP where it is. */
  lemma EffectPreserves(s: Ppp, t: Ppp, n: nat)
    requires Kept(s) && Effect(s, t, n) && n <= 4 && t.lcp == s.lcp && Stacked(ShapeOf(t))
    ensures Preserved(s, t)
  {
    hide Watched, Near;
    NearAgreed(Watched(s.trace), Watched(t.trace), n, s.lcp);
  }

  lemma LcpPreserves(s: Ppp, e: LcpEvent)
    requires Kept(s) && e != LUp && e != LDown
    ensures Preserved(s, EvalLcp(s, e))
    ensures UpperKept(ShapeOf(s), ShapeOf(EvalLcp(s, e)))
  {
    LcpEffect(s, e);
    LcpStacked(ShapeOf(s), e, s.proto);
    LcpRestart(RestartOf(s), ShapeOf(s), e, s.proto, s.memory);
    var w := Watched(s.trace);
    ZeroAgreed(w, s.lcp);
    LcpAgreed(w, ShapeOf(s), e, s.proto);
    hide EvalLcp, AfterLcp, RestartLcp, ObserveLcp, Watched, Near, RunsTimer, Stacked;
    var t := EvalLcp(s, e);
    ZeroAgreedBack(ObserveLcp(w, s.lcp, e), t.lcp);
    NearAgreed(ObserveLcp(w, s.lcp, e), Watched(t.trace), 4, t.lcp);
  }

  lemma ZeroAgreed(w: Watch, st: LcpState)
    requires Agreed(w, st)
    ensures Agreed(w.(depth := 0, deepest := 0), st)
  {
  }

  lemma ZeroAgreedBack(w: Watch, st: LcpState)
    requires Agreed(w.(depth := 0, deepest := 0), st) && w.depth == 0 && w.deepest <= 4
    ensures Agreed(w, st)
  {
  }

  /** A machine other than LCP hands LCP an event. */
  lemma PassedPreserves(s: Ppp, q: Shape, s0: Ppp, t: Ppp, m: Move, e: LcpEvent, n: nat)
    requires Kept(s) && Passed(s, s0, t, m, e, n) && n <= 3 && !m.LcpMove?
    requires q == ShapeOf(s0) && q.lcp == s.lcp && Stacked(AfterLcp(q, e, s.proto))
    ensures Preserved(s, t)
  {
    var w := Watched(s.trace);
    var w1 := Observe(w, Enter(m));
    EnterAgreed(w, m, s.lcp);
    LcpRestart(RestartOf(s), q, e, s.proto, s.memory);
    LcpAgreed(w1, q, e, s.proto);
    LeaveAgreed(ObserveLcp(w1, s.lcp, e), t.lcp);
    hide AfterLcp, RestartLcp, ObserveLcp, Observe, Watched, Near, RunsTimer, Stacked;
    NearAgreed(Observe(ObserveLcp(w1, s.lcp, e), Leave), Watched(t.trace), 1 + n, t.lcp);
  }

  lemma EnterAgreed(w: Watch, m: Move, st: LcpState)
    requires Agreed(w, st) && !m.LcpMove?
    ensures var w1 := Observe(w, Enter(m));
      Agreed(w1.(depth := 0, deepest := 0), st) && w1.depth == 1 && w1.deepest <= 4
  {
  }

  lemma LeaveAgreed(w: Watch, st: LcpState)
    requires Agreed(w.(depth := 0, deepest := 0), st) && w.depth == 1 && w.deepest <= 4
    ensures Agreed(Observe(w, Leave), st)
  {
  }

  lemma ModemStacked(q: Shape, e: ModemEvent)
    requires Stacked(q) && e != MStart
    ensures q.modem == MDial && e == MConnect ==> Stacked(AfterLcp(q.(modem := MConnected), LUp, NoAuth))
    ensures !(q.modem == MDial && e == MConnect) ==> Stacked(AfterModem(q, e))
    ensures UpperKept(q, AfterModem(q, e))
  {
  }

  lemma UpShape(q: Shape, proto: AuthProto)
    ensures AfterLcp(q, LUp, proto) == q.(lcp := LcpCell(q.lcp, LUp).next)
  {
  }

  lemma ModemPreserves(s: Ppp, e: ModemEvent)
    requires Kept(s) && e != MStart
    ensures Preserved(s, EvalModem(s, e))
    ensures UpperKept(ShapeOf(s), ShapeOf(EvalModem(s, e)))
  {
    ModemStacked(ShapeOf(s), e);
    if s.modem == MDial && e == MConnect {
      ConnectEffect(s);
      UpShape(ShapeOf(s.(modem := MConnected)), s.proto);
      UpShape(ShapeOf(s.(modem := MConnected)), NoAuth);
      var s0 := s.(modem := MConnected);
      hide EvalModem, AfterLcp, Passed, Kept, Watched, LcpCell;
      PassedPreserves(s, ShapeOf(s0), s0, EvalModem(s, e), ModemMove(MDial, MConnect, MConnected), LUp, 1);
    } else if s.modem == MConnected && e == MStop {
      StopEffect(s);
      StopPreserves(s, EvalModem(s, e));
    } else {
      ModemAlone(s, e);
      hide EvalModem, Effect, Kept, Watched, ModemCell;
      EffectPreserves(s, EvalModem(s, e), 1);
    }
  }

  lemma StopPreserves(s: Ppp, t: Ppp)
    requires Kept(s) && s.modem == MConnected
    requires Lost(s, t, AfterModem(ShapeOf(s), MStop), 1 + DownDepth(s.lcp)) && Stacked(ShapeOf(t))
    ensures Preserved(s, t)
  {
    DownState(ShapeOf(s));
    RunsTimerStates(t.lcp);
    hide Watched, Near, AfterModem, RunsTimer;
    NearAgreed(Watched(s.trace), Watched(t.trace), 4, s.lcp);
  }

  lemma DownState(q: Shape)
    requires q.modem == MConnected
    ensures AfterModem(q, MStop).lcp in {LInitial, LStarting}
  {
  }

  lemma AuthStacked(q: Shape, e: AuthEvent)
    requires Stacked(q) && (e == ARac || e == ARaa || e == ATo)
    ensures Stacked(AfterAuth(q, e)) && AfterAuth(q, e).lcp == q.lcp
    ensures IpAboveAuth(q) ==>
      (IpAboveAuth(AfterAuth(q, e)) <==> !(e == ATo && q.auth == AStarting && q.ipcp != IInitial))
    ensures UpAboveAuth(q) ==>
      (UpAboveAuth(AfterAuth(q, e)) <==> !(e == ATo && q.auth == AStarting && q.ipcp == IOpened))
  {
  }

  lemma AuthPreserves(s: Ppp, e: AuthEvent)
    requires Kept(s) && (e == ARac || e == ARaa || e == ARan || e == ATo)
    ensures Preserved(s, EvalAuth(s, e))
    ensures IpAboveAuth(ShapeOf(s)) ==>
      (IpAboveAuth(ShapeOf(EvalAuth(s, e))) <==> !(e == ATo && s.auth == AStarting && s.ipcp != IInitial))
    ensures UpAboveAuth(ShapeOf(s)) ==>
      (UpAboveAuth(ShapeOf(EvalAuth(s, e))) <==> !(e == ATo && s.auth == AStarting && s.ipcp == IOpened))
  {
    if e != ARan {
      SignalPreserves(s, e);
    } else if s.auth == AAuthenticated {
      AuthOnlyQuiet(s, e);
      hide EvalAuth, Effect, Kept, Watched;
      EffectPreserves(s, EvalAuth(s, e), 1);
    } else {
      AbortPreserves(s);
    }
  }

  lemma SignalPreserves(s: Ppp, e: AuthEvent)
    requires Kept(s) && (e == ARac || e == ARaa || e == ATo)
    ensures Preserved(s, EvalAuth(s, e))
    ensures IpAboveAuth(ShapeOf(s)) ==>
      (IpAboveAuth(ShapeOf(EvalAuth(s, e))) <==> !(e == ATo && s.auth == AStarting && s.ipcp != IInitial))
    ensures UpAboveAuth(ShapeOf(s)) ==>
      (UpAboveAuth(ShapeOf(EvalAuth(s, e))) <==> !(e == ATo && s.auth == AStarting && s.ipcp == IOpened))
  {
    AuthEffect(s, e);
    AuthStacked(ShapeOf(s), e);
    hide EvalAuth, Effect, Kept, Watched, AfterAuth;
    EffectPreserves(s, EvalAuth(s, e), 2);
  }

  lemma AbortPreserves(s: Ppp)
    requires Kept(s) && s.auth != AAuthenticated
    ensures Preserved(s, EvalAuth(s, ARan)) && UpperKept(ShapeOf(s), ShapeOf(EvalAuth(s, ARan)))
  {
    hide EvalAuth, AuthCell, AfterLcp, Passed, Watched, UpperKept, Preserved;
    var next := AuthCell(s.auth, ARan).next;
    var s0 := s.(auth := next);
    RanShape(ShapeOf(s));
    AbortEffect(s);
    LcpStacked(ShapeOf(s0), LClose, s.proto);
    PassedPreserves(s, ShapeOf(s0), s0, EvalAuth(s, ARan), AuthMove(s.auth, ARan, next), LClose, 3);
    PassedShape(s, s0, EvalAuth(s, ARan), AuthMove(s.auth, ARan, next), LClose, 3);
    UpperTrans(ShapeOf(s), ShapeOf(s0), ShapeOf(EvalAuth(s, ARan)));
  }

  lemma RanShape(q: Shape)
    requires Stacked(q)
    ensures var q0 := q.(auth := AuthCell(q.auth, ARan).next); Stacked(q0) && UpperKept(q, q0)
  {
  }

  lemma PassedShape(s: Ppp, s0: Ppp, t: Ppp, m: Move, e: LcpEvent, n: nat)
    requires Passed(s, s0, t, m, e, n)
    ensures ShapeOf(t) == AfterLcp(ShapeOf(s0), e, s.proto)
  {
    hide AfterLcp, Near;
  }

  /** IPCP opens over authentication at its start. */
  predicate Opens(s: Ppp, e: IpcpEvent) {
    s.auth == AInitial && s.ipcp != IOpened && IpcpCell(s.ipcp, e).next == IOpened
  }

  lemma IpcpPreserves(s: Ppp, e: IpcpEvent)
    requires Kept(s) && e != IUp && e != IDown
    ensures Preserved(s, EvalIpcp(s, e))
    ensures IpAboveAuth(ShapeOf(s)) <==> IpAboveAuth(ShapeOf(EvalIpcp(s, e)))
    ensures UpAboveAuth(ShapeOf(s)) ==> (UpAboveAuth(ShapeOf(EvalIpcp(s, e))) <==> !Opens(s, e))
    ensures e == ITo ==> ShapeOf(EvalIpcp(s, e)) == ShapeOf(s)
  {
    IpcpEffect(s, e);
    IpcpStays(s.ipcp, e);
    hide EvalIpcp, Effect, Kept, Watched, IpcpCell;
    EffectPreserves(s, EvalIpcp(s, e), 1);
  }

  lemma IpcpStays(st: IpcpState, e: IpcpEvent)
    requires e != IUp && e != IDown
    ensures st == IInitial <==> IpcpCell(st, e).next == IInitial
    ensures e == ITo ==> IpcpCell(st, e).next == st
  {
  }

  // ----- The tick -----

  lemma PreservedTrans(a: Ppp, b: Ppp, c: Ppp)
    requires Preserved(a, b) && Preserved(b, c)
    ensures Preserved(a, c)
  {
  }

  /** What the invariants do not look at. */
  predicate SameButTimer(s: Ppp, t: Ppp) {
    t == s.(timer := t.timer) && RestartOf(t) == RestartOf(s)
  }

  lemma SamePreserves(s: Ppp, t: Ppp)
    requires Kept(s) && SameButTimer(s, t)
    ensures Preserved(s, t) && ShapeOf(t) == ShapeOf(s)
  {
  }

  /** A counter that is not zero survives a timeout, so its decrement does not wrap. */
  lemma ToPosCount(r: Restart, st: LcpState, memory: bool)
    requires r.count != 0
    ensures RestartLcp(r, st, LToPos, memory).count == r.count
  {
  }

  lemma CountedPreserves(s: Ppp, t: Ppp)
    requires Preserved(s, t) && 0 < t.timer.count
    ensures Preserved(s, t.(timer := t.timer.(count := (t.timer.count + 255) % 256)))
    ensures (t.timer.count + 255) % 256 == t.timer.count - 1
  {
  }

  lemma CheckModemPreserves(s: Ppp)
    requires Kept(s)
    ensures Preserved(s, CheckModem(s))
    ensures UpperKept(ShapeOf(s), ShapeOf(CheckModem(s)))
  {
    if s.timer.onModem && s.timer.val == 0 {
      var u := s.(timer := s.timer.(onModem := false));
      SamePreserves(s, u);
      ModemPreserves(u, MTimeout);
      hide EvalModem, Kept, TimerExact;
      PreservedTrans(s, u, EvalModem(u, MTimeout));
    } else {
      SamePreserves(s, s);
    }
  }

  lemma CheckLcpPreserves(s: Ppp)
    requires Kept(s)
    ensures Preserved(s, CheckLcp(s))
    ensures UpperKept(ShapeOf(s), ShapeOf(CheckLcp(s)))
  {
    if (s.timer.onReq || s.timer.onTerm) && s.timer.val == 0 {
      if s.timer.count == 0 {
        LcpPreserves(s, LToNeg);
      } else {
        LcpPreserves(s, LToPos);
        LcpEffect(s, LToPos);
        ToPosCount(RestartOf(s), s.lcp, s.memory);
        hide EvalLcp, Preserved, AfterLcp, ObserveLcp, Near, Watched, RestartLcp;
        CountedPreserves(s, EvalLcp(s, LToPos));
      }
    } else {
      SamePreserves(s, s);
    }
  }

  lemma CheckAuthPreserves(s: Ppp)
    requires Kept(s)
    ensures Preserved(s, CheckAuth(s))
    ensures IpAboveAuth(ShapeOf(s)) ==>
      (IpAboveAuth(ShapeOf(CheckAuth(s))) <==>
        !(s.timer.onAuth && s.timer.val == 0 && s.auth == AStarting && s.ipcp != IInitial))
    ensures UpAboveAuth(ShapeOf(s)) ==>
      (UpAboveAuth(ShapeOf(CheckAuth(s))) <==>
        !(s.timer.onAuth && s.timer.val == 0 && s.auth == AStarting && s.ipcp == IOpened))
  {
    if s.timer.onAuth && s.timer.val == 0 {
      var u := s.(timer := s.timer.(onAuth := false));
      SamePreserves(s, u);
      AuthPreserves(u, ATo);
      hide EvalAuth, Kept, TimerExact;
      PreservedTrans(s, u, EvalAuth(u, ATo));
    } else {
      SamePreserves(s, s);
    }
  }

  lemma CheckIpcpPreserves(s: Ppp)
    requires Kept(s)
    ensures Preserved(s, CheckIpcp(s))
    ensures ShapeOf(CheckIpcp(s)) == ShapeOf(s)
  {
    if s.timer.onIpcp && s.timer.val == 0 {
      var u := s.(timer := s.timer.(onIpcp := false));
      SamePreserves(s, u);
      IpcpPreserves(u, ITo);
      hide EvalIpcp, Kept, TimerExact;
      PreservedTrans(s, u, EvalIpcp(u, ITo));
    } else {
      SamePreserves(s, s);
    }
  }

  lemma ReopenPreserves(s: Ppp)
    requires Kept(s)
    ensures Preserved(s, Reopen(s))
    ensures UpperKept(ShapeOf(s), ShapeOf(Reopen(s)))
    ensures s.lcp != LInitial ==> Reopen(s) == s
  {
    if s.reconnect && s.lcp == LInitial {
      LcpPreserves(s, LOpen);
    } else {
      SamePreserves(s, s);
    }
  }

  /** The one way in which IPCP outlives authentication: a tick on which the authentication
      timer runs out in STARTING, after a second challenge sent the machine back there. */
  predicate Leaks(s: Ppp) {
    s.timer.onAuth && s.timer.val <= 1 && s.auth == AStarting && s.ipcp != IInitial
  }

  /** The modem and LCP timeouts leave the upper layers alone, and the timer to them. */
  lemma TimeoutsBelow(s: Ppp)
    requires Kept(s)
    ensures var t := CheckLcp(CheckModem(s));
      && t.auth == s.auth && t.ipcp == s.ipcp
      && (s.auth != AInitial ==> t.lcp == LOpened && t.timer.val == s.timer.val && t.timer.onAuth == s.timer.onAuth)
  {
    CheckModemPreserves(s);
    ModemTimeoutBelow(s);
    hide CheckModem, CheckLcp;
    LcpTimeoutBelow(CheckModem(s));
  }

  lemma ModemTimeoutBelow(s: Ppp)
    requires Kept(s)
    ensures var t := CheckModem(s);
      && t.auth == s.auth && t.ipcp == s.ipcp
      && (s.auth != AInitial ==> t.lcp == LOpened && t.timer.val == s.timer.val && t.timer.onAuth == s.timer.onAuth)
  {
    if s.timer.onModem && s.timer.val == 0 {
      var s0 := s.(timer := s.timer.(onModem := false));
      ModemAlone(s0, MTimeout);
      if s.auth != AInitial {
        ConnectedTimeout(s0);
      }
      hide EvalModem, Effect, Watched, ModemCell;
    }
  }

  lemma LcpTimeoutBelow(s: Ppp)
    requires Kept(s)
    ensures var t := CheckLcp(s);
      t.auth == s.auth && t.ipcp == s.ipcp && (s.lcp == LOpened ==> t == s)
  {
    RunsTimerStates(s.lcp);
    hide EvalLcp, AfterLcp, ObserveLcp, Near, Watched, RestartLcp, RunsTimer;
    if s.lcp != LOpened {
      LcpEffect(s, LToPos);
      LcpEffect(s, LToNeg);
      TimeoutUpper(ShapeOf(s), LToPos, s.proto);
      TimeoutUpper(ShapeOf(s), LToNeg, s.proto);
    }
  }

  lemma ConnectedTimeout(s: Ppp)
    requires s.modem == MConnected
    ensures EvalModem(s, MTimeout).timer == s.timer && EvalModem(s, MTimeout).lcp == s.lcp
  {
  }

  lemma TimeoutTable(st: LcpState, e: LcpEvent)
    requires st != LOpened && (e == LToPos || e == LToNeg)
    ensures var c := LcpCell(st, e);
      c.next != LOpened && c.handlers in {Zero, One(SendConfReq), One(SendTermReq), One(LayerFinished)}
  {
  }

  lemma FinishedUpper(q: Shape)
    requires q.lcp != LOpened
    ensures AfterModem(q, MStop).auth == q.auth && AfterModem(q, MStop).ipcp == q.ipcp
  {
    hide LcpCell, ModemCell;
  }

  lemma TimeoutUpper(q: Shape, e: LcpEvent, proto: AuthProto)
    requires q.lcp != LOpened && (e == LToPos || e == LToNeg)
    ensures AfterLcp(q, e, proto).auth == q.auth && AfterLcp(q, e, proto).ipcp == q.ipcp
  {
    hide LcpCell, AfterModem, AfterAuth;
    TimeoutTable(q.lcp, e);
    FinishedUpper(q.(lcp := LcpCell(q.lcp, e).next));
  }

  lemma TickPreserves(s: Ppp)
    requires Kept(s)
    ensures Preserved(s, Tick(s))
    ensures IpAboveAuth(ShapeOf(s)) ==> (IpAboveAuth(ShapeOf(Tick(s))) <==> !Leaks(s))
    ensures UpAboveAuth(ShapeOf(s)) ==> (UpAboveAuth(ShapeOf(Tick(s))) <==> !(Leaks(s) && s.ipcp == IOpened))
  {
    hide CheckModem, CheckLcp, CheckAuth, CheckIpcp, Reopen, Kept, Preserved;
    var s0 := CountDown(s);
    var s1 := CheckModem(s0);
    var s2 := CheckLcp(s1);
    var s3 := CheckAuth(s2);
    var s4 := CheckIpcp(s3);
    SamePreserves(s, s0);
    PreservedKept(s, s0);
    CheckModemPreserves(s0);
    PreservedTrans(s, s0, s1);
    PreservedKept(s, s1);
    CheckLcpPreserves(s1);
    PreservedTrans(s, s1, s2);
    PreservedKept(s, s2);
    CheckAuthPreserves(s2);
    PreservedTrans(s, s2, s3);
    PreservedKept(s, s3);
    CheckIpcpPreserves(s3);
    PreservedTrans(s, s3, s4);
    PreservedKept(s, s4);
    ReopenPreserves(s4);
    PreservedTrans(s, s4, Reopen(s4));
    TimeoutsBelow(s0);
    if Leaks(s) {
      LeakedStaysOpen(s2);
    }
  }

  lemma PreservedKept(s: Ppp, t: Ppp)
    requires Preserved(s, t)
    ensures Kept(t)
  {
  }

  lemma LeakedStaysOpen(s: Ppp)
    requires Kept(s) && s.auth != AInitial
    ensures CheckIpcp(CheckAuth(s)).lcp == LOpened
  {
    CheckAuthPreserves(s);
    CheckIpcpPreserves(CheckAuth(s));
    if s.timer.onAuth && s.timer.val == 0 {
      var u := s.(timer := s.timer.(onAuth := false));
      AuthEffect(u, ATo);
      AuthStacked(ShapeOf(u), ATo);
    }
    hide EvalAuth, CheckIpcp, Effect, AfterAuth;
  }

  // ----- Runs -----

  predicate LeakingStep(s: Ppp, x: Input) {
    x.event.Ticked? && Leaks(s)
  }

  /** The steps that leave the link up over authentication at its start: a tick that leaks
      while IPCP is open, and a packet on which IPCP opens when an earlier tick has leaked. */
  predicate SeparatingStep(s: Ppp, x: Input) {
    || (LeakingStep(s, x) && s.ipcp == IOpened)
    || (x.event.FromPeerIpcp? && Opens(s, x.event.i))
  }

  lemma StepPreserves(s: Ppp, x: Input)
    requires Kept(s) && x.event.Raised()
    ensures Kept(Step(s, x))
    ensures x.memory && TimerExact(RestartOf(s), s.lcp) ==> TimerExact(RestartOf(Step(s, x)), Step(s, x).lcp)
    ensures IpAboveAuth(ShapeOf(s)) ==> (IpAboveAuth(ShapeOf(Step(s, x))) <==> !LeakingStep(s, x))
    ensures UpAboveAuth(ShapeOf(s)) ==> (UpAboveAuth(ShapeOf(Step(s, x))) <==> !SeparatingStep(s, x))
  {
    var s0 := s.(memory := x.memory, proto := x.proto);
    assert Kept(s0) && ShapeOf(s0) == ShapeOf(s) && RestartOf(s0) == RestartOf(s);
    hide Tick, EvalModem, EvalLcp, EvalAuth, EvalIpcp, Watched, Stacked, Agreed, TimerKept, TimerExact;
    match x.event
    case Ticked => TickPreserves(s0);
    case Connect =>
    case Disconnect =>
      assert Kept(s0.(reconnect := false));
      LcpPreserves(s0.(reconnect := false), LClose);
    case FromModem(e) => ModemPreserves(s0, e);
    case FromPeerLcp(e) => LcpPreserves(s0, e);
    case FromPeerAuth(e) => AuthPreserves(s0, e);
    case FromPeerIpcp(e) => IpcpPreserves(s0, e);
  }

  lemma {:induction false} RunKept(xs: seq<Input>)
    requires AllRaised(xs)
    ensures Kept(Run(xs))
  {
    hide Step, Kept;
    if xs == [] {
      CreatedKept();
    } else {
      RunKept(xs[..|xs| - 1]);
      StepPreserves(Run(xs[..|xs| - 1]), xs[|xs| - 1]);
    }
  }

  lemma CreatedKept()
    ensures Kept(CREATED) && TimerExact(RestartOf(CREATED), CREATED.lcp) && IpAboveAuth(ShapeOf(CREATED))
    ensures UpAboveAuth(ShapeOf(CREATED))
  {
  }

  /** On every run the modem is connected exactly when LCP is past STARTING, and
      authentication is under way only while LCP is open. */
  lemma RunStacked(xs: seq<Input>)
    requires AllRaised(xs)
    ensures var s := Run(xs);
      && (s.lcp !in {LInitial, LStarting} <==> s.modem == MConnected)
      && (s.auth != AInitial ==> s.lcp == LOpened)
  {
    RunKept(xs);
    hide Run, Agreed, TimerKept;
  }

  /** On every run no dispatch is nested more than four deep, and none is left unfinished. */
  lemma RunNesting(xs: seq<Input>)
    requires AllRaised(xs)
    ensures Watched(Run(xs).trace).deepest <= 4 && Watched(Run(xs).trace).depth == 0
  {
    RunKept(xs);
    hide Run, Stacked, TimerKept, Watched;
  }

  /** On every run LCP tells the layer above that it is up, and is open, only after a
      Configure-Ack was both sent and received since it last began to negotiate, one of them for
      the last request of the peer and one after its own last request; and every transition out
      of OPENED tells the layer above at once. */
  lemma RunAgreement(xs: seq<Input>)
    requires AllRaised(xs)
    ensures var w := Watched(Run(xs).trace);
      && w.agreed && w.left && !w.owed
      && (Run(xs).lcp == LOpened ==> w.sent && w.rcvd && w.acked && w.answered)
  {
    RunKept(xs);
    hide Run, Stacked, TimerKept, Watched;
  }

  /** On every run with memory for its requests an LCP timer is on exactly in the states that
      wait for an answer, and the restart counter is at most ten. */
  lemma {:induction false} RunTimer(xs: seq<Input>)
    requires AllRaised(xs)
    ensures var s := Run(xs);
      && s.timer.count <= 10
      && (s.timer.onReq || s.timer.onTerm ==> s.lcp in {LClosing, LStopping, LReqSent, LAckRcvd, LAckSent})
    ensures (forall i :: 0 <= i < |xs| ==> xs[i].memory) ==>
      var s := Run(xs);
      (s.timer.onReq || s.timer.onTerm <==> s.lcp in {LClosing, LStopping, LReqSent, LAckRcvd, LAckSent})
  {
    RunKept(xs);
    RunsTimerStates(Run(xs).lcp);
    if forall i :: 0 <= i < |xs| ==> xs[i].memory {
      RunTimerExact(xs);
    }
    hide Run, Stacked, Agreed, Watched, RunsTimer;
  }

  lemma {:induction false} RunTimerExact(xs: seq<Input>)
    requires AllRaised(xs) && forall i :: 0 <= i < |xs| ==> xs[i].memory
    ensures TimerExact(RestartOf(Run(xs)), Run(xs).lcp)
  {
    hide Step, Kept, TimerExact;
    if xs == [] {
      CreatedKept();
    } else {
      RunTimerExact(xs[..|xs| - 1]);
      RunKept(xs[..|xs| - 1]);
      StepPreserves(Run(xs[..|xs| - 1]), xs[|xs| - 1]);
    }
  }

  /** IPCP stays above authentication throughout a run exactly when no tick of the run leaks. */
  lemma {:induction false} RunIpAboveAuth(xs: seq<Input>)
    requires AllRaised(xs)
    ensures (forall k :: 0 <= k <= |xs| ==> IpAboveAuth(ShapeOf(Run(xs[..k]))))
       <==> (forall k :: 0 <= k < |xs| ==> !LeakingStep(Run(xs[..k]), xs[k]))
  {
    hide Step, Kept, IpAboveAuth, LeakingStep;
    if forall k :: 0 <= k <= |xs| ==> IpAboveAuth(ShapeOf(Run(xs[..k]))) {
      forall k | 0 <= k < |xs|
        ensures !LeakingStep(Run(xs[..k]), xs[k])
      {
        assert xs[..k + 1][..k] == xs[..k];
        assert IpAboveAuth(ShapeOf(Run(xs[..k]))) && IpAboveAuth(ShapeOf(Run(xs[..k + 1])));
        RunKept(xs[..k]);
        StepPreserves(Run(xs[..k]), xs[k]);
      }
    }
    if forall k :: 0 <= k < |xs| ==> !LeakingStep(Run(xs[..k]), xs[k]) {
      NoLeakNoLoss(xs, |xs|);
    }
  }

  lemma {:induction false} NoLeakNoLoss(xs: seq<Input>, n: nat)
    requires AllRaised(xs) && n <= |xs|
    requires forall k :: 0 <= k < |xs| ==> !LeakingStep(Run(xs[..k]), xs[k])
    ensures forall k :: 0 <= k <= n ==> IpAboveAuth(ShapeOf(Run(xs[..k])))
  {
    hide Step, Kept, IpAboveAuth, Leaks;
    if n == 0 {
      CreatedKept();
    } else {
      NoLeakNoLoss(xs, n - 1);
      assert xs[..n][..n - 1] == xs[..n - 1];
      RunKept(xs[..n - 1]);
      StepPreserves(Run(xs[..n - 1]), xs[n - 1]);
    }
  }

  /** The layers below IPCP are up. */
  predicate BelowUp(s: Ppp) {
    s.auth != AInitial && s.lcp == LOpened && s.modem == MConnected
  }

  lemma UpMeansBelow(s: Ppp)
    requires Stacked(ShapeOf(s))
    ensures LinkUp(s) ==> BelowUp(s) <==> UpAboveAuth(ShapeOf(s))
  {
  }

  /** One step of a run keeps the link above authentication exactly when it does not separate. */
  lemma RunNext(xs: seq<Input>, k: nat)
    requires AllRaised(xs) && k < |xs|
    ensures UpAboveAuth(ShapeOf(Run(xs[..k]))) ==>
      (UpAboveAuth(ShapeOf(Run(xs[..k + 1]))) <==> !SeparatingStep(Run(xs[..k]), xs[k]))
  {
    hide Step, Kept, UpAboveAuth, SeparatingStep;
    assert xs[..k + 1][..k] == xs[..k];
    RunKept(xs[..k]);
    StepPreserves(Run(xs[..k]), xs[k]);
  }

  lemma {:induction false} NeverSeparated(xs: seq<Input>, n: nat)
    requires AllRaised(xs) && n <= |xs|
    requires forall k :: 0 <= k < |xs| ==> !SeparatingStep(Run(xs[..k]), xs[k])
    ensures forall k :: 0 <= k <= n ==> UpAboveAuth(ShapeOf(Run(xs[..k])))
  {
    hide Step, Kept, UpAboveAuth, SeparatingStep;
    if n == 0 {
      CreatedKept();
    } else {
      NeverSeparated(xs, n - 1);
      RunNext(xs, n - 1);
    }
  }

  /** The link is reported up only while every layer below IPCP is up, throughout a run, exactly
      when no step of the run separates it from authentication. */
  lemma {:induction false} LinkUpMeansStacked(xs: seq<Input>)
    requires AllRaised(xs)
    ensures (forall k :: 0 <= k <= |xs| ==> LinkUp(Run(xs[..k])) ==> BelowUp(Run(xs[..k])))
       <==> (forall k :: 0 <= k < |xs| ==> !SeparatingStep(Run(xs[..k]), xs[k]))
  {
    hide Run, Step, Kept, UpAboveAuth, SeparatingStep, LinkUp, BelowUp;
    forall k | 0 <= k <= |xs|
      ensures LinkUp(Run(xs[..k])) ==> BelowUp(Run(xs[..k])) <==> UpAboveAuth(ShapeOf(Run(xs[..k])))
    {
      RunStacked(xs[..k]);
      UpMeansBelow(Run(xs[..k]));
    }
    if forall k :: 0 <= k <= |xs| ==> UpAboveAuth(ShapeOf(Run(xs[..k]))) {
      forall k | 0 <= k < |xs|
        ensures !SeparatingStep(Run(xs[..k]), xs[k])
      {
        RunNext(xs, k);
        assert UpAboveAuth(ShapeOf(Run(xs[..k]))) && UpAboveAuth(ShapeOf(Run(xs[..k + 1])));
      }
    }
    if forall k :: 0 <= k < |xs| ==> !SeparatingStep(Run(xs[..k]), xs[k]) {
      NeverSeparated(xs, |xs|);
    }
  }
}
