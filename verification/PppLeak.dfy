/** An input that shows a limit: the link can be reported up over layers that are down. */
module PppLeak {
  import opened PppAutomata
  import opened PppLayers
  import opened PppRuns
  import opened PppRestart

  /** What can reach the device in a state: the modem answers only until it is connected, the
      peer is heard only from then on. The code in front of the automata raises five events of
      LCP and three of IPCP, turns away packets of the protocol not agreed upon, and sets
      that protocol only while it reads the options of LCP. */
  predicate Receivable(s: Ppp, x: Input) {
    && (x.proto != s.proto ==> x.event.FromPeerLcp? && x.event.l in {LRcrPos, LRcrNeg, LRcn})
    && match x.event
       case FromModem(e) => s.modem != MConnected && e in {MOk, MStop, MConnect}
       case FromPeerLcp(e) => s.modem == MConnected && e in {LRcrPos, LRcrNeg, LRca, LRcn, LRxr}
       case FromPeerAuth(e) =>
         && s.modem == MConnected
         && ((s.proto == ChapAuth && e in {ARac, ARaa, ARan}) || (s.proto == PapAuth && e in {ARaa, ARan}))
       case FromPeerIpcp(e) => s.modem == MConnected && e in {IRcrPos, IRca, IRcn}
       case _ => true
  }

  predicate AllReceivable(xs: seq<Input>) {
    forall i :: 0 <= i < |xs| ==> Receivable(Run(xs[..i]), xs[i])
  }

  /** Some run of the device ends in s. */
  ghost predicate Reached(s: Ppp) {
    exists xs :: AllReceivable(xs) && Run(xs) == s
  }

  /** Only events that the device raises can reach it. */
  lemma ReceivableRaised(xs: seq<Input>)
    requires AllReceivable(xs)
    ensures AllRaised(xs)
  {
    hide Run;
    forall i | 0 <= i < |xs|
      ensures xs[i].event.Raised()
    {
      assert Receivable(Run(xs[..i]), xs[i]);
    }
  }

  lemma ReachedNext(s: Ppp, x: Input)
    requires Reached(s) && Receivable(s, x)
    ensures Reached(Step(s, x)) && Kept(s) && Kept(Step(s, x))
  {
    hide Step, Kept, Receivable;
    var xs :| AllReceivable(xs) && Run(xs) == s;
    var ys := xs + [x];
    assert ys[..|xs|] == xs;
    assert Run(ys) == Step(s, x);
    forall i | 0 <= i < |ys|
      ensures Receivable(Run(ys[..i]), ys[i])
    {
      if i < |xs| {
        assert ys[..i] == xs[..i];
      }
    }
    ReceivableRaised(xs);
    ReceivableRaised(ys);
    RunKept(xs);
    RunKept(ys);
  }

  lemma ReachedStart()
    ensures Reached(CREATED)
  {
    assert AllReceivable([]) && Run([]) == CREATED;
  }

  /** Inputs for which there is memory and that leave the authentication protocol alone. */
  function With(s: Ppp, e: Event): Input {
    Input(e, true, s.proto)
  }

  function Given(s: Ppp): Ppp {
    s.(memory := true)
  }

  lemma ModemStep(s: Ppp, e: ModemEvent) returns (t: Ppp)
    requires Reached(s) && s.modem != MConnected && (e == MOk || e == MConnect)
    ensures Reached(t) && t.proto == s.proto
    ensures ShapeOf(t) == if s.modem == MDial && e == MConnect
      then AfterLcp(ShapeOf(s).(modem := MConnected), LUp, s.proto) else AfterModem(ShapeOf(s), e)
  {
    hide Reached, Kept, EvalModem, AfterLcp, AfterModem, Watched, Near;
    t := Step(s, With(s, FromModem(e)));
    ReachedNext(s, With(s, FromModem(e)));
    NotOwedKept(s);
    if s.modem == MDial && e == MConnect {
      ConnectEffect(Given(s));
    } else {
      ModemAlone(Given(s), e);
    }
  }

  lemma LcpStep(s: Ppp, e: LcpEvent, proto: AuthProto) returns (t: Ppp)
    requires Reached(s) && Receivable(s, Input(FromPeerLcp(e), true, proto))
    ensures Reached(t) && t.proto == proto && ShapeOf(t) == AfterLcp(ShapeOf(s), e, proto)
  {
    hide Reached, Kept, Receivable, Step, EvalLcp, AfterLcp, RestartLcp, ObserveLcp, Watched, Near;
    var g := s.(memory := true, proto := proto);
    t := EvalLcp(g, e);
    LcpInput(s, e, proto);
    ReachedNext(s, Input(FromPeerLcp(e), true, proto));
    LcpEffect(g, e);
  }

  lemma LcpInput(s: Ppp, e: LcpEvent, proto: AuthProto)
    ensures Step(s, Input(FromPeerLcp(e), true, proto)) == EvalLcp(s.(memory := true, proto := proto), e)
  {
    hide Tick, EvalLcp, EvalAuth, EvalIpcp, EvalModem;
  }

  lemma IpcpKeepsBit(s: Ppp, e: IpcpEvent)
    ensures EvalIpcp(s, e).timer.onAuth == s.timer.onAuth
  {
    hide IpcpCell, IpcpDo;
    var c := IpcpCell(s.ipcp, e);
    var h := c.handlers;
    var s0 := s.(ipcp := c.next).Note(Enter(IpcpMove(s.ipcp, e, c.next)));
    var s1 := if h.Has(0) then IpcpDo(s0, h.At(0)) else s0;
    var s2 := if h.Has(1) then IpcpDo(s1, h.At(1)) else s1;
    if h.Has(0) { IpcpDoKeepsBit(s0, h.At(0)); }
    if h.Has(1) { IpcpDoKeepsBit(s1, h.At(1)); }
    if h.Has(2) { IpcpDoKeepsBit(s2, h.At(2)); }
  }

  lemma IpcpDoKeepsBit(s: Ppp, a: IpcpAction)
    ensures IpcpDo(s, a).timer.onAuth == s.timer.onAuth
  {
  }

  lemma IpcpStep(s: Ppp, e: IpcpEvent) returns (t: Ppp)
    requires Reached(s) && s.modem == MConnected && e in {IRcrPos, IRca, IRcn}
    ensures Reached(t) && t.proto == s.proto
    ensures ShapeOf(t) == AfterIpcp(ShapeOf(s), e) && t.timer.onAuth == s.timer.onAuth
  {
    hide Reached, Kept, AfterIpcp, Watched, Near, EvalIpcp;
    t := Step(s, With(s, FromPeerIpcp(e)));
    ReachedNext(s, With(s, FromPeerIpcp(e)));
    NotOwedKept(s);
    IpcpEffect(Given(s), e);
    IpcpKeepsBit(Given(s), e);
  }

  lemma AuthInput(s: Ppp, e: AuthEvent)
    ensures Step(s, With(s, FromPeerAuth(e))) == EvalAuth(Given(s), e)
  {
    hide EvalAuth, EvalModem, EvalLcp, EvalIpcp;
  }

  lemma AuthStep(s: Ppp, e: AuthEvent) returns (t: Ppp)
    requires Reached(s) && s.modem == MConnected && s.proto == ChapAuth && (e == ARac || e == ARaa)
    ensures Reached(t) && t.proto == ChapAuth && ShapeOf(t) == AfterAuth(ShapeOf(s), e)
    ensures t == EvalAuth(Given(s), e)
  {
    t := EvalAuth(Given(s), e);
    AuthInput(s, e);
    ReachedNext(s, With(s, FromPeerAuth(e)));
    NotOwedKept(s);
    hide Reached, Kept, AfterAuth, Watched, Near, EvalAuth, Step;
    AuthEffect(Given(s), e);
  }

  /** The first challenge starts the authentication timer. */
  lemma ChallengeStartsTimer(s: Ppp)
    requires s.auth == AStarting
    ensures EvalAuth(s, ARac).timer.onAuth
  {
    hide EvalLcp, EvalIpcp, LcpCell, IpcpCell;
  }

  /** Neither success nor a second challenge stops it. */
  lemma TimerStaysOn(s: Ppp)
    ensures s.auth == ARspSent ==> EvalAuth(s, ARaa).timer.onAuth == s.timer.onAuth
    ensures s.auth == AAuthenticated ==> EvalAuth(s, ARac).timer.onAuth == s.timer.onAuth
  {
    if s.auth == ARspSent {
      AuthOne(s, ARaa, Auth);
      IpcpKeepsBit(s.(auth := AAuthenticated).Note(Enter(AuthMove(s.auth, ARaa, AAuthenticated))), IUp);
      hide EvalIpcp, EvalAuth;
    } else if s.auth == AAuthenticated {
      AuthOne(s, ARac, AuthRsp);
    }
  }

  /** The user connects and the next tick opens LCP, which starts the modem. */
  lemma Opening() returns (s: Ppp)
    ensures Reached(s) && s.proto == NoAuth && ShapeOf(s) == Shape(MReset, LStarting, AInitial, IInitial)
  {
    var s0 := CREATED.(reconnect := true);
    ConnectInput(CREATED);
    ReachedStart();
    hide Reached, Tick, EvalLcp, Kept, Step;
    ReachedNext(CREATED, With(CREATED, Connect));
    TickInput(s0);
    s := Tick(s0);
    ReachedNext(s0, Input(Ticked, true, NoAuth));
    FirstTick(s0);
    OpenedShape(s0);
  }

  lemma ConnectInput(s: Ppp)
    requires s.memory
    ensures Step(s, With(s, Connect)) == s.(reconnect := true)
  {
    hide Tick, EvalLcp, EvalAuth, EvalIpcp, EvalModem;
  }

  lemma TickInput(s: Ppp)
    ensures Step(s, Input(Ticked, s.memory, s.proto)) == Tick(s)
  {
    hide Tick, EvalLcp, EvalAuth, EvalIpcp, EvalModem;
  }

  lemma OpenedShape(s: Ppp)
    requires ShapeOf(s) == Shape(MInitial, LInitial, AInitial, IInitial)
    ensures var t := EvalLcp(s, LOpen);
      t.proto == s.proto && ShapeOf(t) == Shape(MReset, LStarting, AInitial, IInitial)
  {
    hide EvalLcp, RestartLcp, ObserveLcp, Near, Watched;
    LcpEffect(s, LOpen);
  }

  lemma FirstTick(s: Ppp)
    requires s == CREATED.(reconnect := true)
    ensures Tick(s) == EvalLcp(s, LOpen)
  {
    hide EvalLcp, EvalAuth, EvalIpcp, EvalModem;
  }

  lemma OkStep(s: Ppp, from: ModemState, to: ModemState) returns (t: Ppp)
    requires Reached(s) && ShapeOf(s) == Shape(from, LStarting, AInitial, IInitial)
    requires ModemCell(from, MOk).next == to && from != MConnected
    ensures Reached(t) && t.proto == s.proto && ShapeOf(t) == Shape(to, LStarting, AInitial, IInitial)
  {
    hide Reached, ModemCell;
    t := ModemStep(s, MOk);
  }

  /** From creation to a dialled-in modem on which LCP negotiates. */
  lemma Negotiation() returns (s: Ppp)
    ensures Reached(s) && s.proto == NoAuth && ShapeOf(s) == Shape(MConnected, LReqSent, AInitial, IInitial)
  {
    s := Opening();
    hide Reached;
    s := OkStep(s, MReset, MEcho);
    s := OkStep(s, MEcho, MCreg);
    s := OkStep(s, MCreg, MCgreg);
    s := OkStep(s, MCgreg, MCgdcont);
    s := OkStep(s, MCgdcont, MCgatt);
    s := OkStep(s, MCgatt, MDial);
    s := ModemStep(s, MConnect);
  }

  /** ... to an open link whose peer, having asked for CHAP, sends a second challenge. */
  lemma SecondChallenge() returns (s: Ppp)
    ensures Reached(s) && ShapeOf(s) == Shape(MConnected, LOpened, ARspSent, IOpened) && s.timer.onAuth
  {
    hide Reached, EvalAuth, EvalLcp, EvalIpcp;
    s := Negotiation();
    s := LcpStep(s, LRca, NoAuth);
    s := LcpStep(s, LRcrPos, ChapAuth);
    assert ShapeOf(s) == Shape(MConnected, LOpened, AStarting, IInitial);
    ChallengeStartsTimer(Given(s));
    s := AuthStep(s, ARac);
    TimerStaysOn(Given(s));
    s := AuthStep(s, ARaa);
    s := IpcpStep(s, IRca);
    s := IpcpStep(s, IRcrPos);
    assert ShapeOf(s) == Shape(MConnected, LOpened, AAuthenticated, IOpened);
    TimerStaysOn(Given(s));
    s := AuthStep(s, ARac);
  }

  /** Ticks until the timer is about to run out. */
  lemma {:induction false} TicksDown(s: Ppp) returns (t: Ppp)
    requires Reached(s) && s.lcp != LInitial
    ensures Reached(t) && ShapeOf(t) == ShapeOf(s) && t.timer.onAuth == s.timer.onAuth && t.timer.val <= 1
    decreases s.timer.val
  {
    t := s;
    if 1 < s.timer.val {
      ReachedNext(s, With(s, Ticked));
      WaitTick(Given(s));
      hide Reached, Tick;
      t := TicksDown(Step(s, With(s, Ticked)));
    }
  }

  /** A tick on which the authentication timer of an open link runs out. */
  lemma AuthTimeout(s: Ppp) returns (t: Ppp)
    requires Reached(s) && s.timer.onAuth && s.timer.val <= 1 && s.ipcp == IOpened
    requires s.auth == ARspSent || s.auth == AStarting
    ensures Reached(t) && t.ipcp == IOpened
    ensures s.auth == ARspSent ==> t.auth == AStarting && t.timer.onAuth && t.lcp == LOpened
    ensures s.auth == AStarting ==> t.auth == AInitial && t.lcp == LOpened && t.modem == MConnected
  {
    t := Step(s, With(s, Ticked));
    ReachedNext(s, With(s, Ticked));
    var s1 := CountDown(Given(s));
    assert Kept(s1);
    TimeoutsBelow(s1);
    var s2 := CheckLcp(CheckModem(s1));
    CheckModemPreserves(s1);
    CheckLcpPreserves(CheckModem(s1));
    hide Reached, Kept, CheckModem, CheckLcp, EvalLcp, Reopen;
    assert s2.timer.onAuth && s2.timer.val == 0 && s2.auth == s.auth && s2.ipcp == IOpened && s2.lcp == LOpened;
    OpenTimeout(s2);
    OpenStays(CheckAuth(s2));
  }

  lemma OpenTimeout(s: Ppp)
    requires s.timer.onAuth && s.timer.val == 0 && s.ipcp == IOpened && (s.auth == ARspSent || s.auth == AStarting)
    ensures var t := CheckAuth(s);
      && t.timer.val == DEFAULT_TIMER && t.timer.onAuth && t.ipcp == IOpened && t.lcp == s.lcp && t.modem == s.modem
      && t.auth == (if s.auth == ARspSent then AStarting else AInitial)
  {
  }

  lemma OpenStays(s: Ppp)
    requires s.timer.val != 0 && s.lcp == LOpened
    ensures Reopen(CheckIpcp(s)) == s
  {
    hide EvalLcp, EvalIpcp;
  }

  /** Without the condition on leaking ticks the layers can come apart: a second challenge and
      a peer that is silent from then on leave the link up with authentication back at its
      start ... */
  lemma LinkUpWithoutAuth() returns (s: Ppp)
    ensures Reached(s) && LinkUp(s) && s.auth == AInitial && s.lcp == LOpened && s.modem == MConnected
  {
    s := SecondChallenge();
    s := TicksDown(s);
    s := AuthTimeout(s);
    s := TicksDown(s);
    s := AuthTimeout(s);
    hide Reached;
  }

  /** IPCP open over authentication at its start: no signal from below reaches it any more. */
  predicate Orphaned(s: Ppp) {
    s.ipcp == IOpened && s.auth == AInitial
  }

  lemma OrphanedTick(s: Ppp)
    requires Kept(s) && Orphaned(s)
    ensures Kept(Tick(s)) && Orphaned(Tick(s))
  {
    var s0 := CountDown(s);
    SamePreserves(s, s0);
    TickPreserves(s);
    hide Kept, CheckModem, CheckLcp, CheckAuth, CheckIpcp, Reopen;
    PreservedKept(s, s0);
    PreservedKept(s, Tick(s));
    hide Preserved;
    TimeoutsBelow(s0);
    var s2 := CheckLcp(CheckModem(s0));
    OrphanedTimeouts(s2);
    OrphanedReopens(CheckIpcp(CheckAuth(s2)));
  }

  lemma OrphanedTimeouts(s: Ppp)
    requires Orphaned(s)
    ensures Orphaned(CheckIpcp(CheckAuth(s)))
  {
  }

  lemma OrphanedReopens(s: Ppp)
    requires Orphaned(s)
    ensures Orphaned(Reopen(s))
  {
    hide EvalLcp, AfterLcp, ObserveLcp, Near, Watched, RestartLcp;
    if s.reconnect && s.lcp == LInitial {
      LcpEffect(s, LOpen);
      OrphanedOpen(ShapeOf(s), s.proto);
    }
  }

  lemma OrphanedOpen(q: Shape, proto: AuthProto)
    requires q.lcp == LInitial
    ensures var q' := AfterLcp(q, LOpen, proto); q'.auth == q.auth && q'.ipcp == q.ipcp
  {
  }

  lemma {:induction false} OrphanedTicks(s: Ppp, n: nat)
    requires Kept(s) && Orphaned(s)
    ensures Kept(Ticks(s, n)) && Orphaned(Ticks(s, n))
    decreases n
  {
    hide Kept, Orphaned, Tick;
    if n != 0 {
      OrphanedTick(s);
      OrphanedTicks(Tick(s), n - 1);
    }
  }

  lemma {:induction false} TicksReached(s: Ppp, n: nat)
    requires Reached(s)
    ensures Reached(Ticks(s, n))
    decreases n
  {
    hide Reached, Tick, Step, Kept;
    if n != 0 {
      TickInput(s);
      ReachedNext(s, Input(Ticked, s.memory, s.proto));
      TicksReached(Tick(s), n - 1);
    }
  }

  lemma ClosedOpen(s: Ppp)
    requires s.lcp == LOpened && Orphaned(s)
    ensures var t := EvalLcp(s, LClose); Orphaned(t) && t.lcp == LClosing && t.memory == s.memory && Waiting(t)
  {
    hide EvalLcp, ObserveLcp, Near, Watched;
    LcpEffect(s, LClose);
    hide AfterLcp, RestartLcp;
    ClosedShape(ShapeOf(s), s.proto);
    ClosedRestart(RestartOf(s), s.memory);
  }

  lemma ClosedShape(q: Shape, proto: AuthProto)
    requires q.lcp == LOpened && q.auth == AInitial
    ensures AfterLcp(q, LClose, proto) == q.(lcp := LClosing)
  {
  }

  lemma ClosedRestart(r: Restart, memory: bool)
    ensures RestartLcp(r, LOpened, LClose, memory).term
  {
  }

  lemma DisconnectInput(s: Ppp)
    ensures Step(s, With(s, Disconnect)) == EvalLcp(Given(s).(reconnect := false), LClose)
  {
    hide Tick, EvalLcp, EvalAuth, EvalIpcp, EvalModem;
  }

  /** The user disconnects: LCP asks to terminate, but authentication at its start does not
      pass the signal on to IPCP. */
  lemma Disconnecting(s: Ppp) returns (t: Ppp)
    requires Reached(s) && Orphaned(s) && s.lcp == LOpened
    ensures Reached(t) && Kept(t) && Orphaned(t) && t.lcp == LClosing && Waiting(t) && t.memory
  {
    t := Step(s, With(s, Disconnect));
    ReachedNext(s, With(s, Disconnect));
    DisconnectInput(s);
    hide Reached, Kept, EvalLcp, Step, Waiting;
    ClosedOpen(Given(s).(reconnect := false));
  }

  /** ... and when the user then disconnects and the peer stays silent, LCP gives up, the modem
      hangs up, and the link is still reported up, however many ticks follow. */
  lemma LinkUpWithoutModem() returns (s: Ppp)
    ensures Reached(s) && s.modem != MConnected && s.lcp in {LInitial, LStarting} && s.auth == AInitial
    ensures forall n :: LinkUp(Ticks(s, n))
  {
    var s0 := LinkUpWithoutAuth();
    s0 := Disconnecting(s0);
    hide Reached, Tick;
    var n := TicksLeft(s0);
    SilentPeer(s0);
    s := Ticks(s0, n);
    TicksReached(s0, n);
    OrphanedTicks(s0, n);
    hide Ticks, Watched;
    forall n
      ensures LinkUp(Ticks(s, n))
    {
      OrphanedTicks(s, n);
    }
  }
}
