/** The restart timer of LCP against a peer that stays silent. */
module PppRestart {
  import opened PppAutomata
  import opened PppLayers
  import opened PppRuns

  function Ticks(s: Ppp, n: nat): Ppp
    decreases n
  {
    if n == 0 then s else Ticks(Tick(s), n - 1)
  }

  predicate Waiting(s: Ppp) {
    s.timer.onReq || s.timer.onTerm
  }

  lemma WaitingStates(s: Ppp)
    requires Kept(s) && Waiting(s)
    ensures s.lcp in {LClosing, LStopping, LReqSent, LAckRcvd, LAckSent} && s.modem == MConnected
  {
    RunsTimerStates(s.lcp);
    hide RunsTimer, Agreed;
  }

  /** While the timer has not run out a tick only counts down. */
  lemma WaitTick(s: Ppp)
    requires 1 < s.timer.val && s.lcp != LInitial
    ensures Tick(s) == s.(timer := s.timer.(val := s.timer.val - 1))
  {
    hide EvalModem, EvalLcp, EvalAuth, EvalIpcp;
  }

  lemma ToPosTable(st: LcpState)
    requires RunsTimer(st)
    ensures var c := LcpCell(st, LToPos);
      && RunsTimer(c.next) && (c.handlers == One(SendConfReq) || c.handlers == One(SendTermReq))
  {
  }

  /** A timeout with restarts left sends again and winds the timer up. */
  lemma ToPosWinds(s: Ppp)
    requires RunsTimer(s.lcp) && s.memory && s.timer.val == 0
    ensures var t := EvalLcp(s, LToPos);
      t.timer.val == DEFAULT_TIMER && RunsTimer(t.lcp) && Waiting(t)
  {
    ToPosTable(s.lcp);
    var a := LcpCell(s.lcp, LToPos).handlers.a;
    LcpOne(s, LToPos, a);
    hide LcpCell, RunsTimer, EvalLcp, EnterLcp;
    Rewound(EnterLcp(s, LToPos), a);
    EnteredToPos(s);
  }

  lemma EnteredToPos(s: Ppp)
    requires RunsTimer(LcpCell(s.lcp, LToPos).next)
    ensures var t := EnterLcp(s, LToPos);
      t.timer == s.timer && t.memory == s.memory && RunsTimer(t.lcp)
  {
    hide LcpCell, RunsTimer;
  }

  lemma Rewound(s: Ppp, a: LcpAction)
    requires s.memory && s.timer.val == 0 && (a == SendConfReq || a == SendTermReq)
    ensures var t := LcpDo(s, a).Note(Leave);
      t.timer.val == DEFAULT_TIMER && Waiting(t) && t.lcp == s.lcp
  {
    hide EvalAuth, EvalModem;
  }

  lemma ObservedActions(w: Watch, h: Handlers<LcpAction>)
    ensures ObserveActions(w, h).toPos == w.toPos && ObserveActions(w, h).toNeg == w.toNeg
  {
  }

  lemma ObservedCounts(w: Watch, st: LcpState, e: LcpEvent)
    ensures var w' := ObserveLcp(w, st, e);
      && w'.toPos == w.toPos + (if e == LToPos then 1 else 0)
      && w'.toNeg == w.toNeg + (if e == LToNeg then 1 else 0)
  {
    ObservedActions(Observe(w, Enter(LcpMove(st, e, LcpCell(st, e).next))), LcpCell(st, e).handlers);
    hide LcpCell, ObserveActions;
  }

  predicate Counted(s: Ppp, t: Ppp, pos: nat, neg: nat) {
    Watched(t.trace).toPos == Watched(s.trace).toPos + pos && Watched(t.trace).toNeg == Watched(s.trace).toNeg + neg
  }

  lemma LcpCounted(s: Ppp, e: LcpEvent)
    ensures Counted(s, EvalLcp(s, e), if e == LToPos then 1 else 0, if e == LToNeg then 1 else 0)
  {
    LcpEffect(s, e);
    ObservedCounts(Watched(s.trace), s.lcp, e);
    hide EvalLcp, AfterLcp, RestartLcp, ObserveLcp, Watched;
  }

  lemma EffectCounted(s: Ppp, t: Ppp, n: nat)
    requires Effect(s, t, n)
    ensures Counted(s, t, 0, 0)
  {
    hide Watched;
  }

  /** The modem timeout of a connected modem. */
  lemma ConnectedModem(s: Ppp)
    requires s.modem == MConnected && Kept(s)
    ensures var t := CheckModem(s);
      && Kept(t) && ShapeOf(t) == ShapeOf(s) && t.memory == s.memory && t.reconnect == s.reconnect
      && Counted(s, t, 0, 0) && RestartOf(t) == RestartOf(s) && t.timer.val == s.timer.val
  {
    CheckModemPreserves(s);
    if s.timer.onModem && s.timer.val == 0 {
      var u := s.(timer := s.timer.(onModem := false));
      SamePreserves(s, u);
      ModemAlone(u, MTimeout);
      ConnectedTimeout(u);
      hide EvalModem, Kept;
      EffectCounted(u, EvalModem(u, MTimeout), 1);
    }
  }

  lemma CountedTrans(a: Ppp, b: Ppp, c: Ppp, p: nat, n: nat, p': nat, n': nat)
    requires Counted(a, b, p, n) && Counted(b, c, p', n')
    ensures Counted(a, c, p + p', n + n')
  {
    hide Watched;
  }

  lemma SameCounted(a: Ppp, b: Ppp)
    requires a.trace == b.trace
    ensures Counted(a, b, 0, 0)
  {
  }

  /** A timeout with restarts left leaves the counter alone. */
  lemma PosKeepsCount(s: Ppp)
    requires 0 < s.timer.count
    ensures var t := EvalLcp(s, LToPos); t.timer.count == s.timer.count && t.memory == s.memory
  {
    hide EvalLcp, AfterLcp, RestartLcp, ObserveLcp, Near, Watched;
    LcpEffect(s, LToPos);
    ToPosCount(RestartOf(s), s.lcp, s.memory);
  }

  /** LCP's part of a tick on which the timer runs out with restarts left. */
  lemma CheckLcpPos(s: Ppp)
    requires Kept(s) && Waiting(s) && s.memory && s.timer.val == 0 && 0 < s.timer.count
    ensures var t := CheckLcp(s);
      && t.timer.val == DEFAULT_TIMER && t.timer.count == s.timer.count - 1
      && Waiting(t) && t.lcp != LInitial && t.memory && Counted(s, t, 1, 0)
  {
    hide EvalLcp, Watched, RunsTimer, Kept, Counted, CheckLcp, Waiting;
    WaitingStates(s);
    CountBound(s);
    var t := EvalLcp(s, LToPos);
    RunsTimerStates(s.lcp);
    ToPosWinds(s);
    PosKeepsCount(s);
    LcpCounted(s, LToPos);
    RunsTimerStates(t.lcp);
    PosCountsDown(s);
    CountedTrans(s, t, CheckLcp(s), 1, 0, 0, 0);
  }

  lemma CountBound(s: Ppp)
    requires Kept(s)
    ensures s.timer.count <= 10
  {
    hide Stacked, Agreed, Watched, RunsTimer;
  }

  lemma PosCountsDown(s: Ppp)
    requires Waiting(s) && s.timer.val == 0 && 0 < s.timer.count
    requires EvalLcp(s, LToPos).timer.count == s.timer.count <= 10
    ensures var t, u := EvalLcp(s, LToPos), CheckLcp(s);
      && u.timer.val == t.timer.val && u.timer.count == s.timer.count - 1
      && u.lcp == t.lcp && u.memory == t.memory && (Waiting(u) <==> Waiting(t)) && Counted(t, u, 0, 0)
  {
    hide EvalLcp, Counted;
    SameCounted(EvalLcp(s, LToPos), CheckLcp(s));
  }

  /** Once wound up the timer is over for this tick. */
  lemma NothingElse(s: Ppp)
    requires s.timer.val != 0 && s.lcp != LInitial
    ensures Reopen(CheckIpcp(CheckAuth(s))) == s
  {
    hide EvalLcp, EvalAuth, EvalIpcp;
  }

  lemma PosTick(s: Ppp)
    requires Kept(s) && Waiting(s) && s.memory && s.timer.val <= 1 && 0 < s.timer.count
    ensures var t := Tick(s);
      && Kept(t) && Waiting(t) && t.memory
      && t.timer.val == DEFAULT_TIMER && t.timer.count == s.timer.count - 1
      && Counted(s, t, 1, 0)
  {
    hide Kept, Preserved, CheckModem, CheckLcp, CheckAuth, CheckIpcp, Reopen, Counted;
    TickPreserves(s);
    PreservedKept(s, Tick(s));
    var s0 := CountDown(s);
    var s1 := CheckModem(s0);
    assert s0.trace == s.trace && s0.timer.val == 0;
    SamePreserves(s, s0);
    PreservedKept(s, s0);
    WaitingStates(s);
    ConnectedModem(s0);
    CheckLcpPos(s1);
    NothingElse(CheckLcp(s1));
    SameCounted(s, s0);
    CountedTrans(s, s0, s1, 0, 0, 0, 0);
    CountedTrans(s, s1, CheckLcp(s1), 0, 0, 1, 0);
  }

  /** LCP's part of a tick on which the timer runs out with no restart left. */
  lemma CheckLcpNeg(s: Ppp)
    requires Kept(s) && Waiting(s) && s.timer.val == 0 && s.timer.count == 0
    ensures var t := CheckLcp(s);
      Kept(t) && t.lcp in {LInitial, LStarting} && Counted(s, t, 0, 1)
  {
    WaitingStates(s);
    CheckLcpPreserves(s);
    PreservedKept(s, CheckLcp(s));
    ToNegShape(ShapeOf(s), s.proto);
    LcpEffect(s, LToNeg);
    LcpCounted(s, LToNeg);
    hide EvalLcp, AfterLcp, RestartLcp, ObserveLcp, Near, Kept, Preserved, Watched;
  }

  lemma ToNegShape(q: Shape, proto: AuthProto)
    requires q.lcp in {LClosing, LStopping, LReqSent, LAckRcvd, LAckSent} && q.modem == MConnected
    ensures AfterLcp(q, LToNeg, proto).lcp in {LInitial, LStarting}
  {
  }

  lemma TimerOff(s: Ppp)
    requires Kept(s) && s.lcp in {LInitial, LStarting}
    ensures !Waiting(s)
  {
    RunsTimerStates(s.lcp);
    hide RunsTimer, Agreed;
  }

  lemma NotOwedKept(s: Ppp)
    requires Kept(s)
    ensures !Watched(s.trace).owed
  {
  }

  lemma AuthStage(s: Ppp)
    requires Kept(s)
    ensures var t := CheckAuth(s);
      Kept(t) && t.lcp == s.lcp && Counted(s, t, 0, 0)
  {
    hide EvalAuth, Kept, Preserved, Watched;
    CheckAuthPreserves(s);
    PreservedKept(s, CheckAuth(s));
    if s.timer.onAuth && s.timer.val == 0 {
      var u := s.(timer := s.timer.(onAuth := false));
      SameKept(s, u);
      AuthTimesOut(u);
      SameCounted(s, u);
      hide Counted;
      CountedTrans(s, u, EvalAuth(u, ATo), 0, 0, 0, 0);
    } else {
      SameCounted(s, s);
    }
  }

  lemma SameKept(s: Ppp, u: Ppp)
    requires Kept(s) && u == s.(timer := s.timer.(onAuth := false))
    ensures Kept(u)
  {
    SamePreserves(s, u);
    hide Stacked, Agreed, TimerKept, Watched;
  }

  lemma AuthTimesOut(s: Ppp)
    requires Kept(s)
    ensures var t := EvalAuth(s, ATo); t.lcp == s.lcp && Counted(s, t, 0, 0)
  {
    hide EvalAuth, AfterAuth, Kept, Watched, Effect;
    NotOwedKept(s);
    AuthEffect(s, ATo);
    AuthKeepsLcp(ShapeOf(s));
    EffectCounted(s, EvalAuth(s, ATo), 2);
  }

  lemma AuthKeepsLcp(q: Shape)
    ensures AfterAuth(q, ATo).lcp == q.lcp
  {
    hide AuthCell;
  }

  lemma IpcpStage(s: Ppp)
    requires Kept(s)
    ensures var t := CheckIpcp(s);
      Kept(t) && t.lcp == s.lcp && Counted(s, t, 0, 0)
  {
    CheckIpcpPreserves(s);
    PreservedKept(s, CheckIpcp(s));
    NotOwedKept(s);
    if s.timer.onIpcp && s.timer.val == 0 {
      var u := s.(timer := s.timer.(onIpcp := false));
      IpcpEffect(u, ITo);
      hide EvalIpcp, Kept, Preserved, Watched, Effect;
      EffectCounted(u, EvalIpcp(u, ITo), 1);
    }
  }

  lemma ReopenStage(s: Ppp)
    requires s.lcp in {LInitial, LStarting}
    ensures var t := Reopen(s);
      t.lcp in {LInitial, LStarting} && Counted(s, t, 0, 0)
  {
    if s.reconnect && s.lcp == LInitial {
      LcpEffect(s, LOpen);
      LcpCounted(s, LOpen);
      OpenShape(ShapeOf(s), s.proto);
    }
    hide EvalLcp, AfterLcp, RestartLcp, ObserveLcp, Near, Watched;
  }

  lemma OpenShape(q: Shape, proto: AuthProto)
    requires q.lcp == LInitial
    ensures AfterLcp(q, LOpen, proto).lcp == LStarting
  {
  }

  lemma NegTick(s: Ppp)
    requires Kept(s) && Waiting(s) && s.timer.val <= 1 && s.timer.count == 0
    ensures var t := Tick(s);
      Kept(t) && t.lcp in {LInitial, LStarting} && !Waiting(t) && Counted(s, t, 0, 1)
  {
    hide Kept, Preserved, CheckModem, CheckLcp, CheckAuth, CheckIpcp, Reopen, Counted;
    TickPreserves(s);
    PreservedKept(s, Tick(s));
    var s0 := CountDown(s);
    var s1 := CheckModem(s0);
    assert s0.trace == s.trace && s0.timer.val == 0;
    SamePreserves(s, s0);
    PreservedKept(s, s0);
    WaitingStates(s);
    ConnectedModem(s0);
    CheckLcpNeg(s1);
    var s2 := CheckLcp(s1);
    AuthStage(s2);
    var s3 := CheckAuth(s2);
    IpcpStage(s3);
    ReopenStage(CheckIpcp(s3));
    TimerOff(Tick(s));
    SameCounted(s, s0);
    CountedTrans(s, s0, s1, 0, 0, 0, 0);
    CountedTrans(s, s1, s2, 0, 0, 0, 1);
    CountedTrans(s, s2, s3, 0, 1, 0, 0);
    CountedTrans(s, s3, CheckIpcp(s3), 0, 1, 0, 0);
    CountedTrans(s, CheckIpcp(s3), Tick(s), 0, 1, 0, 0);
  }

  lemma WaitedTick(s: Ppp)
    requires Kept(s) && Waiting(s) && 1 < s.timer.val
    ensures var t := Tick(s);
      && Kept(t) && Waiting(t) && t.memory == s.memory
      && t.timer.val == s.timer.val - 1 && t.timer.count == s.timer.count && Counted(s, t, 0, 0)
  {
    WaitingStates(s);
    WaitTick(s);
    SamePreserves(s, Tick(s));
    PreservedKept(s, Tick(s));
    SameCounted(s, Tick(s));
    hide Tick, Kept, Preserved;
  }

  function TicksLeft(s: Ppp): nat {
    (if s.timer.val == 0 then 1 else s.timer.val) + DEFAULT_TIMER * s.timer.count
  }

  /** With a silent peer, ticks alone cause exactly as many timeouts with restarts left as the
      counter says, then one without, and the link is given up; and it takes exactly the
      ticks left on the timer and three more for each restart. */
  lemma {:induction false} SilentPeer(s: Ppp)
    requires Kept(s) && Waiting(s) && s.memory
    ensures var t := Ticks(s, TicksLeft(s));
      Counted(s, t, s.timer.count, 1) && t.lcp in {LInitial, LStarting} && !Waiting(t)
    ensures forall k :: 0 <= k < TicksLeft(s) ==>
      Waiting(Ticks(s, k)) && Watched(Ticks(s, k).trace).toNeg == Watched(s.trace).toNeg
    decreases s.timer.count, s.timer.val
  {
    var u := Tick(s);
    if s.timer.val <= 1 && s.timer.count == 0 {
      NegTick(s);
      assert Ticks(s, 1) == Ticks(u, 0);
    } else {
      if 1 < s.timer.val {
        WaitedTick(s);
      } else {
        PosTick(s);
      }
      assert u.timer.count == s.timer.count || u.timer.count == s.timer.count - 1;
      SilentPeer(u);
      StillWaiting(s, u);
      CountedTrans(s, u, Ticks(u, TicksLeft(u)), s.timer.count - u.timer.count, 0, u.timer.count, 1);
      hide Tick, Kept, Watched;
    }
  }

  lemma StillWaiting(s: Ppp, u: Ppp)
    requires u == Tick(s) && TicksLeft(s) == TicksLeft(u) + 1 && Waiting(s)
    requires Watched(u.trace).toNeg == Watched(s.trace).toNeg
    requires forall k :: 0 <= k < TicksLeft(u) ==>
      Waiting(Ticks(u, k)) && Watched(Ticks(u, k).trace).toNeg == Watched(u.trace).toNeg
    ensures forall k :: 0 <= k < TicksLeft(s) ==>
      Waiting(Ticks(s, k)) && Watched(Ticks(s, k).trace).toNeg == Watched(s.trace).toNeg
    ensures Ticks(s, TicksLeft(s)) == Ticks(u, TicksLeft(u))
  {
    hide Tick, Watched;
    forall k | 0 <= k < TicksLeft(s)
      ensures Waiting(Ticks(s, k)) && Watched(Ticks(s, k).trace).toNeg == Watched(s.trace).toNeg
    {
      if k != 0 {
        assert Ticks(s, k) == Ticks(u, k - 1);
      }
    }
  }
}
