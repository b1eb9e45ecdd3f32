/** How deep the dispatchers of the four machines nest: at most four, and four is reached. */
module PppNesting {
  import opened PppAutomata
  import opened PppLayers

  /** An event for one of the machines. */
  datatype Signal = OnModem(m: ModemEvent) | OnLcp(l: LcpEvent) | OnAuth(a: AuthEvent) | OnIpcp(i: IpcpEvent)

  function Dispatch(s: Ppp, d: Signal): Ppp {
    match d
    case OnModem(e) => EvalModem(s, e)
    case OnLcp(e) => EvalLcp(s, e)
    case OnAuth(e) => EvalAuth(s, e)
    case OnIpcp(e) => EvalIpcp(s, e)
  }

  /** What one outermost dispatch does to the nesting. */
  predicate Shallow(t: Ppp) {
    Watched(t.trace).depth == 0 && Watched(t.trace).deepest <= 4
  }

  lemma EffectShallow(s: Ppp, t: Ppp, n: nat)
    requires s.trace == Start && Effect(s, t, n) && n <= 4
    ensures Shallow(t)
  {
  }

  lemma LostShallow(s: Ppp, t: Ppp, q: Shape, n: nat)
    requires s.trace == Start && Lost(s, t, q, n) && n <= 4
    ensures Shallow(t)
  {
  }

  lemma DidKeepsDepth(w: Watch, a: LcpAction)
    ensures Observe(w, Did(a)).depth == w.depth && Observe(w, Did(a)).deepest == w.deepest
  {
  }

  lemma ActionsKeepDepth(w: Watch, h: Handlers<LcpAction>)
    ensures ObserveActions(w, h).depth == w.depth && ObserveActions(w, h).deepest == w.deepest
  {
    hide Observe;
    match h
    case Zero =>
    case One(a) => DidKeepsDepth(w, a);
    case Two(a, b) =>
      DidKeepsDepth(w, a);
      DidKeepsDepth(Observe(w, Did(a)), b);
    case Three(a, b, c) =>
      DidKeepsDepth(w, a);
      DidKeepsDepth(Observe(w, Did(a)), b);
      DidKeepsDepth(Observe(Observe(w, Did(a)), Did(b)), c);
  }

  lemma LcpObserved(w: Watch, st: LcpState, e: LcpEvent)
    requires w.depth <= w.deepest
    ensures var v := ObserveLcp(w, st, e); v.depth == w.depth && v.deepest <= w.deepest + 1
  {
    var c := LcpCell(st, e);
    hide LcpCell, ObserveActions;
    ActionsKeepDepth(Observe(w, Enter(LcpMove(st, e, c.next))), c.handlers);
  }

  lemma LcpNesting(s: Ppp, e: LcpEvent)
    requires s.trace == Start
    ensures Shallow(EvalLcp(s, e))
  {
    hide EvalLcp, ObserveLcp, AfterLcp, RestartLcp;
    LcpEffect(s, e);
    LcpObserved(Watched(s.trace), s.lcp, e);
  }

  lemma PassedShallow(s: Ppp, s0: Ppp, t: Ppp, m: Move, e: LcpEvent, n: nat)
    requires s.trace == Start && Passed(s, s0, t, m, e, n) && n <= 3 && !m.LcpMove?
    ensures Shallow(t)
  {
    hide ObserveLcp, AfterLcp, RestartLcp;
    LcpObserved(Observe(Watched(s.trace), Enter(m)), s.lcp, e);
  }

  /** From every combination of states, every event given to any of the machines ends, with
      dispatches nested at most four deep. */
  lemma DispatchNesting(s: Ppp, d: Signal)
    requires s.trace == Start
    ensures Shallow(Dispatch(s, d))
  {
    assert !Watched(s.trace).owed;
    hide EvalModem, EvalLcp, EvalAuth, EvalIpcp, Watched, Effect, Lost, Passed, Dispatched, Shallow;
    match d
    case OnModem(e) => ModemNesting(s, e);
    case OnLcp(e) => LcpNesting(s, e);
    case OnAuth(e) => AuthNesting(s, e);
    case OnIpcp(e) =>
      IpcpEffect(s, e);
      EffectShallow(s, EvalIpcp(s, e), 1);
  }

  lemma ModemNesting(s: Ppp, e: ModemEvent)
    requires s.trace == Start && !Watched(s.trace).owed
    ensures Shallow(EvalModem(s, e))
  {
    hide EvalModem, Watched, Effect, Lost, Passed, Shallow;
    if s.modem == MDial && e == MConnect {
      ConnectEffect(s);
      PassedShallow(s, s.(modem := MConnected), EvalModem(s, e), ModemMove(MDial, MConnect, MConnected), LUp, 1);
    } else if s.modem == MConnected && e == MStop {
      StopEffect(s);
      LostShallow(s, EvalModem(s, e), AfterModem(ShapeOf(s), MStop), 1 + DownDepth(s.lcp));
    } else {
      ModemAlone(s, e);
      EffectShallow(s, EvalModem(s, e), 1);
    }
  }

  lemma AuthNesting(s: Ppp, e: AuthEvent)
    requires s.trace == Start && !Watched(s.trace).owed
    ensures Shallow(EvalAuth(s, e))
  {
    hide EvalAuth, Watched, Effect, Passed, Shallow;
    if e != ARan {
      AuthEffect(s, e);
      EffectShallow(s, EvalAuth(s, e), 2);
    } else if s.auth != AAuthenticated {
      AbortEffect(s);
      var next := AuthCell(s.auth, ARan).next;
      PassedShallow(s, s.(auth := next), EvalAuth(s, e), AuthMove(s.auth, ARan, next), LClose, 3);
    } else {
      AuthOnlyQuiet(s, e);
      EffectShallow(s, EvalAuth(s, e), 1);
    }
  }

  lemma Deeper(s: Ppp, t: Ppp, m: Move)
    requires t.trace == Then(s.trace, Enter(m))
    ensures Watched(t.trace).depth == Watched(s.trace).depth + 1 <= Watched(t.trace).deepest
  {
    hide Watched, Observe;
    EnteredWatch(s, t, m);
    EnterDeepens(Watched(s.trace), m);
  }

  lemma EnterDeepens(w: Watch, m: Move)
    ensures Observe(w, Enter(m)).depth == w.depth + 1 <= Observe(w, Enter(m)).deepest
  {
    var w1 := Deepen(w);
    assert w1.depth == w.depth + 1 <= w1.deepest;
    hide Deepen;
    if m.LcpMove? {
      MoveKeepsDepth(w1, m.l0, m.le, m.l1);
    }
  }

  lemma MoveKeepsDepth(w: Watch, st: LcpState, e: LcpEvent, next: LcpState)
    ensures MoveLcp(w, st, e, next).depth == w.depth && MoveLcp(w, st, e, next).deepest == w.deepest
  {
  }

  lemma AsDeep(s: Ppp, o: Obs)
    requires !o.Enter?
    ensures Watched(s.Note(o).trace).deepest == Watched(s.trace).deepest
    ensures o.Did? ==> Watched(s.Note(o).trace).depth == Watched(s.trace).depth
  {
  }

  lemma Starts(s: Ppp)
    requires s.modem == MInitial
    ensures Watched(EvalModem(s, MStart).trace).deepest >= Watched(s.trace).depth + 1
  {
    ModemOne(s, MStart, SendReset);
    var m := ModemMove(s.modem, MStart, MReset);
    var s0 := s.(modem := MReset).Note(Enter(m));
    Deeper(s, s0, m);
    hide EvalModem, Watched;
    AsDeep(ModemDo(s0, SendReset), Leave);
  }

  lemma Loses(s: Ppp)
    requires s.lcp == LStopped && s.modem == MInitial
    ensures Watched(EvalLcp(s, LDown).trace).deepest >= Watched(s.trace).depth + 2
  {
    LcpOne(s, LDown, LayerStarted);
    var s0 := EnterLcp(s, LDown);
    Deeper(s, s0, LcpMove(s.lcp, LDown, LStarting));
    AsDeep(s0, Did(LayerStarted));
    Starts(s0.Note(Did(LayerStarted)));
    hide EvalLcp, EvalModem, Watched;
    AsDeep(LcpDo(s0, LayerStarted), Leave);
  }

  function HungUp(s: Ppp): Ppp {
    s.(modem := MInitial).Note(Enter(ModemMove(s.modem, MStop, MInitial)))
  }

  lemma HangUp(s: Ppp)
    requires s.modem == MConnected
    ensures EvalModem(s, MStop) == EvalLcp(HungUp(s), LDown).Note(Leave)
  {
    hide EvalLcp, EvalModem;
    ModemOne(s, MStop, ModemDown);
  }

  lemma HangsUp(s: Ppp)
    requires s.lcp == LStopped && s.modem == MConnected
    ensures Watched(EvalModem(s, MStop).trace).deepest >= Watched(s.trace).depth + 3
  {
    var s0 := HungUp(s);
    Deeper(s, s0, ModemMove(s.modem, MStop, MInitial));
    Loses(s0);
    HangUp(s);
    hide EvalLcp, EvalModem, Watched, HungUp;
    AsDeep(EvalLcp(s0, LDown), Leave);
  }

  /** Four dispatches do nest: LCP gives up negotiating (or stopping), the modem is hung up,
      LCP loses it and asks for it again. */
  lemma FourDeep(s: Ppp)
    requires LcpCell(s.lcp, LToNeg) == Cell(LStopped, One(LayerFinished)) && s.modem == MConnected
    ensures Watched(EvalLcp(s, LToNeg).trace).deepest >= Watched(s.trace).depth + 4
  {
    hide EvalLcp, EvalModem, LcpCell;
    LcpOne(s, LToNeg, LayerFinished);
    var s0 := EnterLcp(s, LToNeg);
    Deeper(s, s0, LcpMove(s.lcp, LToNeg, LStopped));
    AsDeep(s0, Did(LayerFinished));
    HangsUp(s0.Note(Did(LayerFinished)));
    hide Watched;
    AsDeep(LcpDo(s0, LayerFinished), Leave);
  }
}
