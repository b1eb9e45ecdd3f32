/** The dispatchers of the four automata, flattened: what a dispatch does to the states, to
    the restart timer and to the history, without following the nested dispatches. */
module PppLayers {
  import opened PppAutomata

  // ----- The states alone -----

  datatype Shape = Shape(modem: ModemState, lcp: LcpState, auth: AuthState, ipcp: IpcpState)

  function ShapeOf(s: Ppp): Shape {
    Shape(s.modem, s.lcp, s.auth, s.ipcp)
  }

  function AfterIpcp(q: Shape, e: IpcpEvent): Shape {
    q.(ipcp := IpcpCell(q.ipcp, e).next)
  }

  /** Authentication, for events other than RAN. */
  function AfterAuth(q: Shape, e: AuthEvent): Shape {
    var c := AuthCell(q.auth, e);
    var q1 := q.(auth := c.next);
    if c.handlers == One(Auth) then AfterIpcp(q1, IUp)
    else if c.handlers == One(Deauth) then AfterIpcp(q1, IDown)
    else q1
  }

  /** LCP when the modem is lost. */
  function AfterDown(q: Shape): Shape {
    var q1 := q.(lcp := LcpCell(q.lcp, LDown).next);
    if q.lcp == LOpened then AfterAuth(q1, ADown)
    else if q.lcp == LStopped then q1.(modem := ModemCell(q.modem, MStart).next)
    else q1
  }

  function AfterModem(q: Shape, e: ModemEvent): Shape {
    var q1 := q.(modem := ModemCell(q.modem, e).next);
    if q.modem == MConnected && e == MStop then AfterDown(q1)
    else if q.modem == MDial && e == MConnect then q1.(lcp := LcpCell(q.lcp, LUp).next)
    else q1
  }

  function UpEvent(proto: AuthProto): AuthEvent {
    match proto
    case NoAuth => AUpNone
    case PapAuth => AUpPap
    case _ => AUpChap
  }

  function AfterAction(q: Shape, a: LcpAction, proto: AuthProto): Shape {
    match a
    case LayerUp => if proto == OtherAuth then q else AfterAuth(q, UpEvent(proto))
    case LayerDown => AfterAuth(q, ADown)
    case LayerStarted => AfterModem(q, MStart)
    case LayerFinished => AfterModem(q, MStop)
    case _ => q
  }

  function AfterActions(q: Shape, h: Handlers<LcpAction>, proto: AuthProto): Shape {
    match h
    case Zero => q
    case One(a) => AfterAction(q, a, proto)
    case Two(a, b) => AfterAction(AfterAction(q, a, proto), b, proto)
    case Three(a, b, c) => AfterAction(AfterAction(AfterAction(q, a, proto), b, proto), c, proto)
  }

  function AfterLcp(q: Shape, e: LcpEvent, proto: AuthProto): Shape {
    var c := LcpCell(q.lcp, e);
    AfterActions(q.(lcp := c.next), c.handlers, proto)
  }

  // ----- What LCP has of the timer -----

  datatype Restart = Restart(req: bool, term: bool, count: nat)

  function RestartOf(s: Ppp): Restart {
    Restart(s.timer.onReq, s.timer.onTerm, s.timer.count)
  }

  function RestartAction(r: Restart, a: LcpAction, memory: bool): Restart {
    match a
    case SendConfReq => if memory then r.(req := true, count := if r.count == 0 then MAX_CONFIGURE else r.count) else r
    case InitRestart => r.(req := true, count := if r.count == 0 then MAX_CONFIGURE else r.count)
    case ZeroRestart => r.(req := true, count := 0)
    case SendTermReq => r.(term := true, count := if r.count == 0 then MAX_TERMINATE else r.count)
    case _ => r
  }

  function RestartActions(r: Restart, h: Handlers<LcpAction>, memory: bool): Restart {
    match h
    case Zero => r
    case One(a) => RestartAction(r, a, memory)
    case Two(a, b) => RestartAction(RestartAction(r, a, memory), b, memory)
    case Three(a, b, c) => RestartAction(RestartAction(RestartAction(r, a, memory), b, memory), c, memory)
  }

  function RestartLcp(r: Restart, st: LcpState, e: LcpEvent, memory: bool): Restart {
    var c := LcpCell(st, e);
    RestartActions(if RunsTimer(c.next) then r else r.(req := false, term := false), c.handlers, memory)
  }

  // ----- The history -----

  /** The watched facts of one history, or of one with dispatches nested down to depth d besides. */
  predicate Near(w: Watch, w': Watch, d: int) {
    && w' == w.(deepest := w'.deepest)
    && w.deepest <= w'.deepest
    && (w'.deepest == w.deepest || w'.deepest <= d)
  }

  lemma NearDepth(w: Watch, w': Watch, d: int)
    requires Near(w, w', d)
    ensures w'.depth == w.depth
  {
  }

  lemma NearDeepen(w: Watch, w': Watch, d: int)
    requires Near(w, w', d)
    ensures Near(Deepen(w), Deepen(w'), d)
  {
  }

  lemma NearMove(w: Watch, w': Watch, st: LcpState, e: LcpEvent, next: LcpState, d: int)
    requires Near(w, w', d)
    ensures Near(MoveLcp(w, st, e, next), MoveLcp(w', st, e, next), d)
  {
  }

  lemma NearDid(w: Watch, w': Watch, a: LcpAction, d: int)
    requires Near(w, w', d)
    ensures Near(Observe(w, Did(a)), Observe(w', Did(a)), d)
  {
  }

  lemma NearLeave(w: Watch, w': Watch, d: int)
    requires Near(w, w', d)
    ensures Near(Observe(w, Leave), Observe(w', Leave), d)
  {
  }

  lemma EnterIs(w: Watch, m: Move)
    ensures Observe(w, Enter(m)) == if m.LcpMove? then MoveLcp(Deepen(w), m.l0, m.le, m.l1) else Deepen(w)
  {
    hide Deepen, MoveLcp;
  }

  lemma NearObserve(w: Watch, w': Watch, o: Obs, d: int)
    requires Near(w, w', d)
    ensures Near(Observe(w, o), Observe(w', o), d)
  {
    hide Near, Observe, Deepen, MoveLcp;
    match o
    case Enter(m) =>
      EnterIs(w, m);
      EnterIs(w', m);
      NearDeepen(w, w', d);
      if m.LcpMove? {
        NearMove(Deepen(w), Deepen(w'), m.l0, m.le, m.l1, d);
      }
    case Leave => NearLeave(w, w', d);
    case Did(a) => NearDid(w, w', a, d);
  }

  lemma NearTrans(a: Watch, b: Watch, c: Watch, d: int)
    requires Near(a, b, d) && Near(b, c, d)
    ensures Near(a, c, d)
  {
  }

  lemma NearMore(w: Watch, w': Watch, d: int, d': int)
    requires Near(w, w', d) && d <= d'
    ensures Near(w, w', d')
  {
  }

  function ObserveActions(w: Watch, h: Handlers<LcpAction>): Watch {
    match h
    case Zero => w
    case One(a) => Observe(w, Did(a))
    case Two(a, b) => Observe(Observe(w, Did(a)), Did(b))
    case Three(a, b, c) => Observe(Observe(Observe(w, Did(a)), Did(b)), Did(c))
  }

  /** The watched facts after an LCP dispatch if its handlers dispatched nothing. */
  function ObserveLcp(w: Watch, st: LcpState, e: LcpEvent): Watch {
    var c := LcpCell(st, e);
    Observe(ObserveActions(Observe(w, Enter(LcpMove(st, e, c.next))), c.handlers), Leave)
  }

  // ----- Effects -----

  /** Only states, timer and history changed, LCP's part of the timer not; dispatches were
      nested up to n. */
  predicate Effect(s: Ppp, t: Ppp, n: nat) {
    && t.proto == s.proto && t.reconnect == s.reconnect && t.memory == s.memory
    && RestartOf(t) == RestartOf(s)
    && Near(Watched(s.trace), Watched(t.trace), Watched(s.trace).depth + n)
  }

  /** A dispatch of a machine other than LCP: entered, acted upon, left. */
  lemma Bracket(s: Ppp, s0: Ppp, m: Move, s1: Ppp, n: nat)
    requires !Watched(s.trace).owed && !m.LcpMove?
    requires s0.trace == Then(s.trace, Enter(m)) && RestartOf(s0) == RestartOf(s)
    requires s0.proto == s.proto && s0.reconnect == s.reconnect && s0.memory == s.memory
    requires Effect(s0, s1, n)
    ensures Effect(s, s1.Note(Leave), n + 1) && ShapeOf(s1.Note(Leave)) == ShapeOf(s1)
  {
  }

  lemma Entered(s: Ppp, s0: Ppp, m: Move)
    requires !Watched(s.trace).owed && !m.LcpMove? && s0.trace == Then(s.trace, Enter(m))
    ensures !Watched(s0.trace).owed
  {
  }

  /** A handler that does no more than set a part of the timer that is not LCP's. */
  predicate Quiet(s: Ppp, t: Ppp) {
    t == s.(timer := t.timer) && RestartOf(t) == RestartOf(s)
  }

  lemma QuietEffect(a: Ppp, b: Ppp)
    requires Quiet(a, b)
    ensures Effect(a, b, 0) && ShapeOf(a) == ShapeOf(b)
  {
  }

  lemma QuietTrans(a: Ppp, b: Ppp, c: Ppp)
    requires Quiet(a, b) && Quiet(b, c)
    ensures Quiet(a, c)
  {
  }

  lemma QuietSelf(a: Ppp)
    ensures Quiet(a, a)
  {
  }

  lemma IpcpQuiet(s: Ppp, a: IpcpAction)
    ensures Quiet(s, IpcpDo(s, a))
  {
  }

  lemma IpcpEffect(s: Ppp, e: IpcpEvent)
    requires !Watched(s.trace).owed
    ensures Effect(s, EvalIpcp(s, e), 1) && ShapeOf(EvalIpcp(s, e)) == AfterIpcp(ShapeOf(s), e)
  {
    hide IpcpCell, IpcpDo, Watched, Observe, Near, Effect, Quiet;
    var c := IpcpCell(s.ipcp, e);
    var h := c.handlers;
    var m := IpcpMove(s.ipcp, e, c.next);
    var s0 := s.(ipcp := c.next).Note(Enter(m));
    var s1 := if h.Has(0) then IpcpDo(s0, h.At(0)) else s0;
    var s2 := if h.Has(1) then IpcpDo(s1, h.At(1)) else s1;
    var s3 := if h.Has(2) then IpcpDo(s2, h.At(2)) else s2;
    QuietSelf(s0);
    if h.Has(0) { IpcpQuiet(s0, h.At(0)); }
    if h.Has(1) { IpcpQuiet(s1, h.At(1)); QuietTrans(s0, s1, s2); }
    if h.Has(2) { IpcpQuiet(s2, h.At(2)); QuietTrans(s0, s2, s3); }
    QuietEffect(s0, s3);
    Bracket(s, s0, m, s3, 0);
  }

  /** Outside RAN a cell either signals the layer above or does nothing but send and wait. */
  lemma AuthHandlers(st: AuthState, e: AuthEvent)
    ensures var h := AuthCell(st, e).handlers;
      if e == ARan then h == One(AuthAbort) || h == Zero
      else
        || h == One(Auth) || h == One(Deauth)
        || forall i: nat :: h.Has(i) ==> h.At(i) in {AuthReq, AuthRsp, AuthTimer}
  {
  }

  lemma AuthQuiet(s: Ppp, a: AuthAction)
    requires a in {AuthReq, AuthRsp, AuthTimer}
    ensures Quiet(s, AuthDo(s, a))
  {
  }

  lemma AuthOnlyQuiet(s: Ppp, e: AuthEvent)
    requires !Watched(s.trace).owed
    requires var h := AuthCell(s.auth, e).handlers;
      forall i: nat :: h.Has(i) ==> h.At(i) in {AuthReq, AuthRsp, AuthTimer}
    ensures Effect(s, EvalAuth(s, e), 1)
    ensures ShapeOf(EvalAuth(s, e)) == ShapeOf(s).(auth := AuthCell(s.auth, e).next)
  {
    hide AuthCell, AuthDo, Watched, Observe, Near, Effect, Quiet;
    var c := AuthCell(s.auth, e);
    var h := c.handlers;
    var m := AuthMove(s.auth, e, c.next);
    var s0 := s.(auth := c.next).Note(Enter(m));
    var s1 := if h.Has(0) then AuthDo(s0, h.At(0)) else s0;
    var s2 := if h.Has(1) then AuthDo(s1, h.At(1)) else s1;
    var s3 := if h.Has(2) then AuthDo(s2, h.At(2)) else s2;
    QuietSelf(s0);
    if h.Has(0) { AuthQuiet(s0, h.At(0)); }
    if h.Has(1) { AuthQuiet(s1, h.At(1)); QuietTrans(s0, s1, s2); }
    if h.Has(2) { AuthQuiet(s2, h.At(2)); QuietTrans(s0, s2, s3); }
    QuietEffect(s0, s3);
    Bracket(s, s0, m, s3, 0);
  }

  /** A cell with one handler. */
  lemma AuthOne(s: Ppp, e: AuthEvent, a: AuthAction)
    requires AuthCell(s.auth, e).handlers == One(a)
    ensures var c := AuthCell(s.auth, e);
      EvalAuth(s, e) == AuthDo(s.(auth := c.next).Note(Enter(AuthMove(s.auth, e, c.next))), a).Note(Leave)
  {
    hide AuthCell, AuthDo;
  }

  lemma AuthEffect(s: Ppp, e: AuthEvent)
    requires e != ARan && !Watched(s.trace).owed
    ensures Effect(s, EvalAuth(s, e), 2) && ShapeOf(EvalAuth(s, e)) == AfterAuth(ShapeOf(s), e)
  {
    AuthHandlers(s.auth, e);
    hide AuthCell, EvalAuth, EvalIpcp, Watched, Observe, Near, Effect, AfterIpcp;
    var c := AuthCell(s.auth, e);
    var m := AuthMove(s.auth, e, c.next);
    var s0 := s.(auth := c.next).Note(Enter(m));
    Entered(s, s0, m);
    if c.handlers == One(Auth) {
      AuthOne(s, e, Auth);
      IpcpEffect(s0, IUp);
      Bracket(s, s0, m, EvalIpcp(s0, IUp), 1);
    } else if c.handlers == One(Deauth) {
      AuthOne(s, e, Deauth);
      IpcpEffect(s0, IDown);
      Bracket(s, s0, m, EvalIpcp(s0, IDown), 1);
    } else {
      AuthOnlyQuiet(s, e);
      EffectMore(s, EvalAuth(s, e), 1, 2);
    }
  }

  lemma EffectMore(s: Ppp, t: Ppp, n: nat, n': nat)
    requires Effect(s, t, n) && n <= n'
    ensures Effect(s, t, n')
  {
  }

  lemma ModemHandlers(st: ModemState, e: ModemEvent)
    ensures var h := ModemCell(st, e).handlers;
      && (st == MDial && e == MConnect ==> h == One(ModemUp))
      && (st == MConnected && e == MStop ==> h == One(ModemDown))
      && (!(st == MDial && e == MConnect) && !(st == MConnected && e == MStop) ==>
            h == Zero || (h.One? && h.a != ModemUp && h.a != ModemDown))
  {
  }

  lemma ModemQuiet(s: Ppp, a: ModemAction)
    requires a != ModemUp && a != ModemDown
    ensures Quiet(s, ModemDo(s, a))
  {
  }

  lemma ModemOne(s: Ppp, e: ModemEvent, a: ModemAction)
    requires ModemCell(s.modem, e).handlers == One(a)
    ensures var c := ModemCell(s.modem, e);
      EvalModem(s, e) == ModemDo(s.(modem := c.next).Note(Enter(ModemMove(s.modem, e, c.next))), a).Note(Leave)
  {
    hide ModemCell, ModemDo;
  }

  lemma LcpOne(s: Ppp, e: LcpEvent, a: LcpAction)
    requires LcpCell(s.lcp, e).handlers == One(a)
    ensures EvalLcp(s, e) == LcpDo(EnterLcp(s, e), a).Note(Leave)
  {
    hide LcpCell, LcpDo, EnterLcp;
  }

  /** A modem dispatch that leaves LCP alone. */
  lemma ModemAlone(s: Ppp, e: ModemEvent)
    requires !(s.modem == MDial && e == MConnect) && !(s.modem == MConnected && e == MStop)
    requires !Watched(s.trace).owed
    ensures Effect(s, EvalModem(s, e), 1) && ShapeOf(EvalModem(s, e)) == AfterModem(ShapeOf(s), e)
  {
    ModemHandlers(s.modem, e);
    hide ModemCell, ModemDo, Watched, Observe, Near, Effect, Quiet;
    var c := ModemCell(s.modem, e);
    var m := ModemMove(s.modem, e, c.next);
    var s0 := s.(modem := c.next).Note(Enter(m));
    if c.handlers == Zero {
      QuietSelf(s0);
      QuietEffect(s0, s0);
      Bracket(s, s0, m, s0, 0);
    } else {
      ModemOne(s, e, c.handlers.a);
      var s1 := ModemDo(s0, c.handlers.a);
      ModemQuiet(s0, c.handlers.a);
      QuietEffect(s0, s1);
      Bracket(s, s0, m, s1, 0);
    }
  }

  // ----- LCP -----

  function ActionDepth(a: LcpAction): nat {
    match a
    case LayerUp => 2
    case LayerDown => 2
    case LayerStarted => 1
    case LayerFinished => 3
    case _ => 0
  }

  /** One LCP handler: its effect on states and restart timer, and on the history apart from
      dispatches nested up to n. */
  predicate Acted(s: Ppp, t: Ppp, a: LcpAction, n: nat) {
    && t.proto == s.proto && t.reconnect == s.reconnect && t.memory == s.memory
    && RestartOf(t) == RestartAction(RestartOf(s), a, s.memory)
    && ShapeOf(t) == AfterAction(ShapeOf(s), a, s.proto)
    && Near(Observe(Watched(s.trace), Did(a)), Watched(t.trace), Watched(s.trace).depth + n)
  }

  lemma NearSelf(w: Watch, d: int)
    ensures Near(w, w, d)
  {
  }

  lemma LocalEffect(s: Ppp, a: LcpAction)
    requires a !in {LayerUp, LayerDown, LayerStarted, LayerFinished}
    ensures Acted(s, LcpDo(s, a), a, 0)
  {
    hide Observe;
  }

  /** A handler that dispatches, after its own entry in the history. */
  lemma ActedThrough(s: Ppp, a: LcpAction, t: Ppp, n: nat)
    requires Effect(s.Note(Did(a)), t, n)
    requires a in {LayerUp, LayerDown, LayerStarted, LayerFinished}
    requires ShapeOf(t) == AfterAction(ShapeOf(s), a, s.proto)
    ensures Acted(s, t, a, n)
  {
  }

  lemma DidNotOwed(t: Trace, a: LcpAction)
    ensures !Watched(Then(t, Did(a))).owed
  {
  }

  lemma ActionEffect(s: Ppp, a: LcpAction)
    requires a != LayerFinished
    ensures Acted(s, LcpDo(s, a), a, ActionDepth(a))
  {
    var s0 := s.Note(Did(a));
    DidNotOwed(s.trace, a);
    if a == LayerDown {
      AuthEffect(s0, ADown);
      hide EvalAuth, Effect, Acted, Watched, AfterAuth;
      ActedThrough(s, a, EvalAuth(s0, ADown), 2);
    } else if a == LayerStarted {
      ModemAlone(s0, MStart);
      hide EvalModem, Effect, Acted, Watched, AfterModem;
      ActedThrough(s, a, EvalModem(s0, MStart), 1);
    } else if a == LayerUp {
      UpEffect(s);
    } else {
      LocalEffect(s, a);
    }
  }

  lemma UpEffect(s: Ppp)
    ensures Acted(s, LcpDo(s, LayerUp), LayerUp, 2)
  {
    var s0 := s.Note(Did(LayerUp));
    DidNotOwed(s.trace, LayerUp);
    if s.proto == OtherAuth {
      NearSelf(Watched(s0.trace), Watched(s.trace).depth + 2);
    } else {
      AuthEffect(s0, UpEvent(s.proto));
      hide EvalAuth, Effect, Acted, Watched, AfterAuth;
      ActedThrough(s, LayerUp, EvalAuth(s0, UpEvent(s.proto)), 2);
    }
  }

  /** One LCP dispatch. */
  predicate Dispatched(s: Ppp, t: Ppp, e: LcpEvent, n: nat) {
    && t.proto == s.proto && t.reconnect == s.reconnect && t.memory == s.memory
    && RestartOf(t) == RestartLcp(RestartOf(s), s.lcp, e, s.memory)
    && ShapeOf(t) == AfterLcp(ShapeOf(s), e, s.proto)
    && Near(ObserveLcp(Watched(s.trace), s.lcp, e), Watched(t.trace), Watched(s.trace).depth + n)
  }

  /** Before its handlers run. */
  predicate EnteredLcp(s: Ppp, s0: Ppp, e: LcpEvent) {
    var c := LcpCell(s.lcp, e);
    var r := RestartOf(s);
    && s0.proto == s.proto && s0.reconnect == s.reconnect && s0.memory == s.memory
    && RestartOf(s0) == (if RunsTimer(c.next) then r else r.(req := false, term := false))
    && ShapeOf(s0) == ShapeOf(s).(lcp := c.next)
    && Watched(s0.trace) == Observe(Watched(s.trace), Enter(LcpMove(s.lcp, e, c.next)))
  }

  lemma EnterEffect(s: Ppp, e: LcpEvent)
    ensures EnteredLcp(s, EnterLcp(s, e), e)
    ensures Watched(EnterLcp(s, e).trace).depth == Watched(s.trace).depth + 1
  {
    hide LcpCell, RunsTimer;
  }

  /** A sequence of handlers. */
  predicate AllActed(s: Ppp, t: Ppp, h: Handlers<LcpAction>, n: nat) {
    && t.proto == s.proto && t.reconnect == s.reconnect && t.memory == s.memory
    && RestartOf(t) == RestartActions(RestartOf(s), h, s.memory)
    && ShapeOf(t) == AfterActions(ShapeOf(s), h, s.proto)
    && Near(ObserveActions(Watched(s.trace), h), Watched(t.trace), Watched(s.trace).depth + n)
  }

  lemma ActedOnce(s: Ppp, t: Ppp, a: LcpAction, n: nat)
    requires Acted(s, t, a, n)
    ensures AllActed(s, t, One(a), n)
  {
  }

  lemma ActedNext(s: Ppp, t: Ppp, u: Ppp, h: Handlers<LcpAction>, b: LcpAction, n: nat)
    requires h.One? || h.Two?
    requires AllActed(s, t, h, n) && Acted(t, u, b, n)
    ensures AllActed(s, u, if h.One? then Two(h.a, b) else Three(h.a, h.b, b), n)
  {
    hide RestartAction, AfterAction, Observe, Near, Watched;
    var w, w1 := ObserveActions(Watched(s.trace), h), Watched(t.trace);
    var d := Watched(s.trace).depth + n;
    DepthOfActions(Watched(s.trace), h);
    NearDepth(w, w1, d);
    NearObserve(w, w1, Did(b), d);
    NearTrans(Observe(w, Did(b)), Observe(w1, Did(b)), Watched(u.trace), d);
  }

  lemma DepthOfActions(w: Watch, h: Handlers<LcpAction>)
    ensures ObserveActions(w, h).depth == w.depth
  {
  }

  lemma ActedMore(s: Ppp, t: Ppp, a: LcpAction, n: nat, n': nat)
    requires Acted(s, t, a, n) && n <= n'
    ensures Acted(s, t, a, n')
  {
  }

  lemma LeaveEffect(s: Ppp, s0: Ppp, t: Ppp, e: LcpEvent, n: nat)
    requires EnteredLcp(s, s0, e)
    requires AllActed(s0, t, LcpCell(s.lcp, e).handlers, n)
    requires Watched(s0.trace).depth == Watched(s.trace).depth + 1
    ensures Dispatched(s, t.Note(Leave), e, n + 1)
  {
    var h := LcpCell(s.lcp, e).handlers;
    LeaveObserved(t);
    hide LcpCell, RestartActions, AfterActions, ObserveActions, Observe, RunsTimer, Near, Watched;
    NearObserve(ObserveActions(Watched(s0.trace), h), Watched(t.trace), Leave, Watched(s0.trace).depth + n);
  }

  /** How deep dispatches nest below one of LCP for which the layer below is not finished. */
  function HandlersDepth(h: Handlers<LcpAction>): nat {
    match h
    case Zero => 0
    case One(a) => ActionDepth(a)
    case Two(a, b) => if ActionDepth(a) < ActionDepth(b) then ActionDepth(b) else ActionDepth(a)
    case Three(a, _, _) => ActionDepth(a)
  }

  lemma LcpHandlers(st: LcpState, e: LcpEvent)
    ensures var h := LcpCell(st, e).handlers;
      && (forall i: nat :: h.Has(i) ==> ActionDepth(h.At(i)) <= HandlersDepth(h))
      && (h == One(LayerFinished) || !h.Contains(LayerFinished))
      && (h == One(LayerFinished) ==> LcpCell(st, e).next in {LInitial, LClosed, LStopped})
      && (h == One(LayerFinished) ==> !RunsTimer(LcpCell(st, e).next))
      && (h == One(LayerFinished) && e == LClose ==> LcpCell(st, e).next == LInitial)
      && (h != One(LayerFinished) ==> HandlersDepth(h) <= 2)
  {
  }

  /** A dispatch of LCP after which the layer below is not told to finish. */
  lemma LcpStays(s: Ppp, e: LcpEvent)
    requires LcpCell(s.lcp, e).handlers != One(LayerFinished)
    ensures Dispatched(s, EvalLcp(s, e), e, HandlersDepth(LcpCell(s.lcp, e).handlers) + 1)
  {
    var h := LcpCell(s.lcp, e).handlers;
    var n := HandlersDepth(h);
    var s0 := EnterLcp(s, e);
    LcpHandlers(s.lcp, e);
    EnterEffect(s, e);
    hide LcpCell, LcpDo, EnterLcp, HandlersDepth, Watched, Observe, Near, Acted, AllActed, Dispatched, EnteredLcp;
    hide ActionDepth;
    var s1 := if h.Has(0) then LcpDo(s0, h.At(0)) else s0;
    var s2 := if h.Has(1) then LcpDo(s1, h.At(1)) else s1;
    var s3 := if h.Has(2) then LcpDo(s2, h.At(2)) else s2;
    if h == Zero {
      NothingActed(s0, n);
    } else {
      ContainsAt(h, LayerFinished);
      ActionEffect(s0, h.At(0));
      ActedMore(s0, s1, h.At(0), ActionDepth(h.At(0)), n);
      ActedOnce(s0, s1, h.At(0), n);
      if h.Has(1) {
        ActionEffect(s1, h.At(1));
        ActedMore(s1, s2, h.At(1), ActionDepth(h.At(1)), n);
        ActedNext(s0, s1, s2, One(h.At(0)), h.At(1), n);
      }
      if h.Has(2) {
        ActionEffect(s2, h.At(2));
        ActedMore(s2, s3, h.At(2), ActionDepth(h.At(2)), n);
        ActedNext(s0, s2, s3, Two(h.At(0), h.At(1)), h.At(2), n);
      }
    }
    LeaveEffect(s, s0, s3, e, n);
  }

  lemma ContainsAt<A>(h: Handlers<A>, x: A)
    ensures h.Contains(x) <==> exists i: nat :: h.Has(i) && h.At(i) == x
  {
    assert h.Has(0) ==> h.Contains(h.At(0));
    if h.Contains(x) {
      var i := if h.At(0) == x then 0 else if h.At(1) == x then 1 else 2;
      assert h.Has(i) && h.At(i) == x;
    }
  }

  lemma NothingActed(s: Ppp, n: nat)
    ensures AllActed(s, s, Zero, n)
  {
  }

  // ----- Losing and gaining the modem -----

  function DownDepth(st: LcpState): nat {
    if st == LOpened then 3 else if st == LStopped then 2 else 1
  }

  lemma DownCell(q: Shape, proto: AuthProto)
    ensures LcpCell(q.lcp, LDown).handlers != One(LayerFinished)
    ensures HandlersDepth(LcpCell(q.lcp, LDown).handlers) + 1 == DownDepth(q.lcp)
    ensures AfterLcp(q, LDown, proto) == AfterDown(q)
  {
  }

  lemma DownRestart(r: Restart, st: LcpState, memory: bool)
    ensures RestartLcp(r, st, LDown, memory) == Restart(false, false, r.count)
  {
  }

  lemma DownObserved(w: Watch, st: LcpState)
    requires !w.owed
    ensures Near(w, ObserveLcp(w, st, LDown), w.depth + 1)
  {
    var w1 := Observe(w, Enter(LcpMove(st, LDown, LcpCell(st, LDown).next)));
    assert w1 == w.(depth := w.depth + 1, deepest := w1.deepest, owed := st == LOpened);
  }

  /** The modem was lost: the restart timer is off, and dispatches were nested up to n. */
  predicate Lost(s: Ppp, t: Ppp, q: Shape, n: nat) {
    && t.proto == s.proto && t.reconnect == s.reconnect && t.memory == s.memory
    && RestartOf(t) == Restart(false, false, s.timer.count)
    && ShapeOf(t) == q
    && Near(Watched(s.trace), Watched(t.trace), Watched(s.trace).depth + n)
  }

  lemma DownEffect(s: Ppp)
    requires !Watched(s.trace).owed
    ensures Lost(s, EvalLcp(s, LDown), AfterDown(ShapeOf(s)), DownDepth(s.lcp))
  {
    hide LcpCell, EvalLcp, AfterLcp, AfterDown, HandlersDepth, RestartLcp, ObserveLcp, Watched, Near;
    DownCell(ShapeOf(s), s.proto);
    LcpStays(s, LDown);
    DownRestart(RestartOf(s), s.lcp, s.memory);
    DownObserved(Watched(s.trace), s.lcp);
    var w, v := Watched(s.trace), ObserveLcp(Watched(s.trace), s.lcp, LDown);
    var d := w.depth + DownDepth(s.lcp);
    NearMore(w, v, w.depth + 1, d);
    NearTrans(w, v, Watched(EvalLcp(s, LDown).trace), d);
  }

  /** A dispatch of a machine other than LCP, seen from the history alone. */
  lemma BracketObserved(w: Watch, m: Move, w1: Watch, n: nat)
    requires !w.owed && !m.LcpMove?
    requires Near(Observe(w, Enter(m)), w1, w.depth + 1 + n)
    ensures Near(w, Observe(w1, Leave), w.depth + 1 + n)
  {
  }

  lemma BracketLost(s: Ppp, s0: Ppp, m: Move, t: Ppp, q: Shape, n: nat)
    requires !Watched(s.trace).owed && !m.LcpMove?
    requires s0.trace == Then(s.trace, Enter(m)) && s0.timer == s.timer
    requires s0.proto == s.proto && s0.reconnect == s.reconnect && s0.memory == s.memory
    requires Lost(s0, t, q, n)
    ensures Lost(s, t.Note(Leave), q, n + 1)
  {
    EnteredWatch(s, s0, m);
    LeaveObserved(t);
    hide Watched, Observe, Near;
    BracketObserved(Watched(s.trace), m, Watched(t.trace), n);
  }

  lemma StopEffect(s: Ppp)
    requires s.modem == MConnected && !Watched(s.trace).owed
    ensures Lost(s, EvalModem(s, MStop), AfterModem(ShapeOf(s), MStop), 1 + DownDepth(s.lcp))
  {
    hide EvalModem, EvalLcp, ModemCell, Watched, AfterDown, Lost, DownDepth;
    ModemHandlers(s.modem, MStop);
    ModemOne(s, MStop, ModemDown);
    var m := ModemMove(s.modem, MStop, ModemCell(s.modem, MStop).next);
    var s0 := s.(modem := ModemCell(s.modem, MStop).next).Note(Enter(m));
    assert EvalModem(s, MStop) == EvalLcp(s0, LDown).Note(Leave);
    Entered(s, s0, m);
    DownEffect(s0);
    BracketLost(s, s0, m, EvalLcp(s0, LDown), AfterDown(ShapeOf(s0)), DownDepth(s.lcp));
  }

  lemma EnteredWatch(s: Ppp, s0: Ppp, m: Move)
    requires s0.trace == Then(s.trace, Enter(m))
    ensures Watched(s0.trace) == Observe(Watched(s.trace), Enter(m))
    ensures Watched(s0.trace).depth == Watched(s.trace).depth + 1
  {
  }

  lemma LeaveObserved(s: Ppp)
    ensures Watched(s.Note(Leave).trace) == Observe(Watched(s.trace), Leave)
  {
  }

  /** The handler that tells the layer below to finish, run in a state without restart timer. */
  lemma FinishEffect(s: Ppp)
    requires !s.timer.onReq && !s.timer.onTerm
    ensures Acted(s, LcpDo(s, LayerFinished), LayerFinished, 1 + DownDepth(s.lcp))
  {
    var s0 := s.Note(Did(LayerFinished));
    DidNotOwed(s.trace, LayerFinished);
    hide EvalModem, AfterModem, Watched, Near, Observe, Acted;
    if s.modem == MConnected {
      StopEffect(s0);
    } else {
      ModemAlone(s0, MStop);
      EffectMore(s0, EvalModem(s0, MStop), 1, 1 + DownDepth(s.lcp));
    }
    ActedThrough(s, LayerFinished, EvalModem(s0, MStop), 1 + DownDepth(s.lcp));
  }

  lemma LcpFinishes(s: Ppp, e: LcpEvent)
    requires LcpCell(s.lcp, e).handlers == One(LayerFinished)
    ensures Dispatched(s, EvalLcp(s, e), e, 2 + DownDepth(LcpCell(s.lcp, e).next))
  {
    LcpHandlers(s.lcp, e);
    EnterEffect(s, e);
    var s0 := EnterLcp(s, e);
    hide LcpCell, RunsTimer, LcpDo, EnterLcp, Watched, Observe, Near, Acted, AllActed, Dispatched, DownDepth;
    FinishEffect(s0);
    var n := 1 + DownDepth(s0.lcp);
    ActedOnce(s0, LcpDo(s0, LayerFinished), LayerFinished, n);
    LeaveEffect(s, s0, LcpDo(s0, LayerFinished), e, n);
  }

  /** How deep the handlers of a cell dispatch. */
  lemma LcpDepth(st: LcpState, e: LcpEvent)
    ensures var c := LcpCell(st, e);
      var n := if c.handlers == One(LayerFinished) then 2 + DownDepth(c.next) else HandlersDepth(c.handlers) + 1;
      n <= 4 && (e == LClose ==> n <= 3)
  {
  }

  /** Every dispatch of LCP, whatever the state: the whole cascade follows the flat functions,
      and nests at most four deep. */
  lemma LcpEffect(s: Ppp, e: LcpEvent)
    ensures Dispatched(s, EvalLcp(s, e), e, 4)
    ensures e == LClose ==> Dispatched(s, EvalLcp(s, e), e, 3)
  {
    hide LcpCell, EvalLcp, AfterLcp, RestartLcp, ObserveLcp, Near, Watched, HandlersDepth, DownDepth;
    LcpHandlers(s.lcp, e);
    LcpDepth(s.lcp, e);
    var c := LcpCell(s.lcp, e);
    if c.handlers == One(LayerFinished) {
      LcpFinishes(s, e);
    } else {
      LcpStays(s, e);
    }
    var n := if c.handlers == One(LayerFinished) then 2 + DownDepth(c.next) else HandlersDepth(c.handlers) + 1;
    var w, v, d := ObserveLcp(Watched(s.trace), s.lcp, e), Watched(EvalLcp(s, e).trace), Watched(s.trace).depth;
    NearMore(w, v, d + n, d + 4);
    if e == LClose {
      NearMore(w, v, d + n, d + 3);
    }
  }

  // ----- Dispatches of other machines that move LCP -----

  /** A machine other than LCP dispatches one event to LCP. */
  predicate Passed(s: Ppp, s0: Ppp, t: Ppp, m: Move, e: LcpEvent, n: nat) {
    && t.proto == s.proto && t.reconnect == s.reconnect && t.memory == s.memory
    && RestartOf(t) == RestartLcp(RestartOf(s), s.lcp, e, s.memory)
    && ShapeOf(t) == AfterLcp(ShapeOf(s0), e, s.proto)
    && Near(Observe(ObserveLcp(Observe(Watched(s.trace), Enter(m)), s.lcp, e), Leave), Watched(t.trace),
            Watched(s.trace).depth + 1 + n)
  }

  lemma PassedOn(s: Ppp, s0: Ppp, t: Ppp, m: Move, e: LcpEvent, n: nat)
    requires s0.trace == Then(s.trace, Enter(m)) && RestartOf(s0) == RestartOf(s) && s0.lcp == s.lcp
    requires s0.proto == s.proto && s0.reconnect == s.reconnect && s0.memory == s.memory
    requires Dispatched(s0, t, e, n)
    ensures Passed(s, s0, t.Note(Leave), m, e, n)
  {
    hide RestartLcp, AfterLcp, ObserveLcp, Near, Observe, Watched;
    EnteredWatch(s, s0, m);
    LeaveObserved(t);
    NearObserve(ObserveLcp(Watched(s0.trace), s.lcp, e), Watched(t.trace), Leave, Watched(s0.trace).depth + n);
  }

  lemma UpCell(st: LcpState)
    ensures LcpCell(st, LUp).handlers != One(LayerFinished) && HandlersDepth(LcpCell(st, LUp).handlers) == 0
  {
  }

  lemma ConnectEffect(s: Ppp)
    requires s.modem == MDial
    ensures Passed(s, s.(modem := MConnected), EvalModem(s, MConnect), ModemMove(MDial, MConnect, MConnected), LUp, 1)
  {
    hide EvalModem, EvalLcp, LcpCell, HandlersDepth, Dispatched, Passed, Watched, Near;
    ModemOne(s, MConnect, ModemUp);
    var m := ModemMove(MDial, MConnect, MConnected);
    var s0 := s.(modem := MConnected).Note(Enter(m));
    assert EvalModem(s, MConnect) == EvalLcp(s0, LUp).Note(Leave);
    UpCell(s.lcp);
    LcpStays(s0, LUp);
    PassedOn(s, s0, EvalLcp(s0, LUp), m, LUp, 1);
    SameShapePassed(s, s0, s.(modem := MConnected), EvalModem(s, MConnect), m, LUp, 1);
  }

  lemma SameShapePassed(s: Ppp, s0: Ppp, s1: Ppp, t: Ppp, m: Move, e: LcpEvent, n: nat)
    requires Passed(s, s0, t, m, e, n) && ShapeOf(s0) == ShapeOf(s1)
    ensures Passed(s, s1, t, m, e, n)
  {
  }

  /** RAN: authentication failed and LCP is closed. */
  lemma AbortEffect(s: Ppp)
    requires s.auth != AAuthenticated
    ensures var next := AuthCell(s.auth, ARan).next;
      Passed(s, s.(auth := next), EvalAuth(s, ARan), AuthMove(s.auth, ARan, next), LClose, 3)
  {
    var next := AuthCell(s.auth, ARan).next;
    AuthOne(s, ARan, AuthAbort);
    var m := AuthMove(s.auth, ARan, next);
    var s0 := s.(auth := next).Note(Enter(m));
    var s1 := s0.(timer := s0.timer.(onAuth := false));
    assert EvalAuth(s, ARan) == EvalLcp(s1, LClose).Note(Leave);
    hide EvalAuth, EvalLcp, Dispatched, Passed, Watched, Near;
    LcpEffect(s1, LClose);
    PassedOn(s, s1, EvalLcp(s1, LClose), m, LClose, 3);
    SameShapePassed(s, s1, s.(auth := next), EvalAuth(s, ARan), m, LClose, 3);
  }
}
