/** The PPP device as an object: four state fields and one timer, updated by handlers that
    re-enter the dispatchers. Each method is tied to the function of the same purpose. */
module PppDevice {
  import opened PppAutomata

  class Device {
    var modemState: ModemState
    var lcpState: LcpState
    var authState: AuthState
    var ipcpState: IpcpState
    var onModem: bool
    var onReq: bool
    var onTerm: bool
    var onAuth: bool
    var onIpcp: bool
    var timerVal: nat
    var timerCount: nat
    var proto: AuthProto
    var reconnect: bool
    var memory: bool
    ghost var trace: Trace

    ghost function State(): Ppp
      reads this
    {
      Ppp(modemState, lcpState, authState, ipcpState,
          Timer(onModem, onReq, onTerm, onAuth, onIpcp, timerVal, timerCount), proto, reconnect, memory, trace)
    }

    constructor ()
      ensures State() == CREATED
    {
      modemState, lcpState, authState, ipcpState := MInitial, LInitial, AInitial, IInitial;
      onModem, onReq, onTerm, onAuth, onIpcp := false, false, false, false, false;
      timerVal, timerCount := 0, 0;
      proto, reconnect, memory := NoAuth, false, true;
      trace := Start;
    }

    ghost method Note(o: Obs)
      modifies this`trace
      ensures State() == old(State()).Note(o)
    {
      trace := Then(trace, o);
    }

    method StartLcpTimer(kind: TimerKind)
      modifies this
      ensures State() == old(State()).(timer := LcpTimerStart(old(State()).timer, kind))
    {
      var count := 0;
      if kind == Terminate {
        onTerm := true;
      } else if kind == Configure {
        onReq := true;
      }
      if timerVal == 0 {
        timerVal := DEFAULT_TIMER;
      }
      if kind == Terminate {
        count := MAX_TERMINATE;
      }
      if kind == Configure {
        count := MAX_CONFIGURE;
      }
      if kind == Nothing {
        onReq := true;
        timerCount := 0;
      }
      if timerCount == 0 {
        timerCount := count;
      }
    }

    // ----- IPCP -----

    method DoIpcp(a: IpcpAction)
      modifies this
      ensures State() == IpcpDo(old(State()), a)
    {
      if a == IpTimer {
        onIpcp := true;
        timerVal := DEFAULT_TIMER * MAX_FAILURE;
      }
    }

    method EvaluateIpcpState(e: IpcpEvent)
      modifies this
      ensures State() == EvalIpcp(old(State()), e)
    {
      hide IpcpCell, IpcpDo;
      var c := IpcpCell(ipcpState, e);
      Note(Enter(IpcpMove(ipcpState, e, c.next)));
      ipcpState := c.next;
      ghost var s0 := State();
      ghost var s1 := if c.handlers.Has(0) then IpcpDo(s0, c.handlers.At(0)) else s0;
      ghost var s2 := if c.handlers.Has(1) then IpcpDo(s1, c.handlers.At(1)) else s1;
      ghost var s3 := if c.handlers.Has(2) then IpcpDo(s2, c.handlers.At(2)) else s2;
      var i := 0;
      while i < 3
        invariant 0 <= i <= 3
        invariant State() == if i == 0 then s0 else if i == 1 then s1 else if i == 2 then s2 else s3
      {
        if c.handlers.Has(i) {
          DoIpcp(c.handlers.At(i));
        }
        i := i + 1;
      }
      Note(Leave);
    }

    // ----- Authentication -----

    method DoAuth(a: AuthAction)
      modifies this
      ensures State() == AuthDo(old(State()), a)
      decreases AuthActionRank(a)
    {
      match a
      case Auth => EvaluateIpcpState(IUp);
      case Deauth => EvaluateIpcpState(IDown);
      case AuthAbort =>
        onAuth := false;
        EvaluateLcpState(LClose);
      case AuthTimer =>
        onAuth := true;
        timerVal := DEFAULT_TIMER;
      case AuthReq =>
      case AuthRsp =>
    }

    method EvaluateAuthState(e: AuthEvent)
      modifies this
      ensures State() == EvalAuth(old(State()), e)
      decreases AuthRank(e)
    {
      var c := AuthCell(authState, e);
      AuthHandlersBelow(authState, e);
      hide AuthCell, AuthDo, AuthRank, AuthActionRank;
      Note(Enter(AuthMove(authState, e, c.next)));
      authState := c.next;
      ghost var s0 := State();
      ghost var s1 := if c.handlers.Has(0) then AuthDo(s0, c.handlers.At(0)) else s0;
      ghost var s2 := if c.handlers.Has(1) then AuthDo(s1, c.handlers.At(1)) else s1;
      ghost var s3 := if c.handlers.Has(2) then AuthDo(s2, c.handlers.At(2)) else s2;
      var i := 0;
      while i < 3
        invariant 0 <= i <= 3
        invariant State() == if i == 0 then s0 else if i == 1 then s1 else if i == 2 then s2 else s3
      {
        if c.handlers.Has(i) {
          DoAuth(c.handlers.At(i));
        }
        i := i + 1;
      }
      Note(Leave);
    }

    // ----- Modem -----

    method DoModem(a: ModemAction)
      modifies this
      ensures State() == ModemDo(old(State()), a)
      decreases ModemActionRank(a)
    {
      match a
      case ModemUp => EvaluateLcpState(LUp);
      case ModemDown => EvaluateLcpState(LDown);
      case SendDial =>
        onModem := true;
        timerVal := MAX_DIALTIME;
      case _ =>
        onModem := true;
        timerVal := DEFAULT_TIMER;
    }

    method EvaluateModemState(e: ModemEvent)
      modifies this
      ensures State() == EvalModem(old(State()), e)
      decreases ModemRank(e)
    {
      var c := ModemCell(modemState, e);
      ModemHandlersBelow(modemState, e);
      hide ModemCell, ModemDo, ModemRank, ModemActionRank;
      Note(Enter(ModemMove(modemState, e, c.next)));
      modemState := c.next;
      ghost var s0 := State();
      ghost var s1 := if c.handlers.Has(0) then ModemDo(s0, c.handlers.At(0)) else s0;
      ghost var s2 := if c.handlers.Has(1) then ModemDo(s1, c.handlers.At(1)) else s1;
      ghost var s3 := if c.handlers.Has(2) then ModemDo(s2, c.handlers.At(2)) else s2;
      var i := 0;
      while i < 3
        invariant 0 <= i <= 3
        invariant State() == if i == 0 then s0 else if i == 1 then s1 else if i == 2 then s2 else s3
      {
        if c.handlers.Has(i) {
          DoModem(c.handlers.At(i));
        }
        i := i + 1;
      }
      Note(Leave);
    }

    // ----- LCP -----

    method DoLcp(a: LcpAction)
      modifies this
      ensures State() == LcpDo(old(State()), a)
      decreases LcpActionRank(a)
    {
      Note(Did(a));
      match a
      case LayerUp =>
        if proto == NoAuth {
          EvaluateAuthState(AUpNone);
        } else if proto == PapAuth {
          EvaluateAuthState(AUpPap);
        } else if proto == ChapAuth {
          EvaluateAuthState(AUpChap);
        }
      case LayerDown => EvaluateAuthState(ADown);
      case LayerStarted => EvaluateModemState(MStart);
      case LayerFinished => EvaluateModemState(MStop);
      case InitRestart => StartLcpTimer(Configure);
      case ZeroRestart => StartLcpTimer(Nothing);
      case SendConfReq =>
        if memory {
          timerVal := DEFAULT_TIMER;
          StartLcpTimer(Configure);
        }
      case SendTermReq => StartLcpTimer(Terminate);
      case _ =>
    }

    method ChangeLcpState(ghost e: LcpEvent, next: LcpState)
      requires next == LcpCell(lcpState, e).next
      modifies this
      ensures State() == EnterLcp(old(State()), e)
    {
      hide LcpCell, RunsTimer;
      Note(Enter(LcpMove(lcpState, e, next)));
      lcpState := next;
      if !RunsTimer(lcpState) {
        onReq := false;
        onTerm := false;
      }
    }

    method EvaluateLcpState(e: LcpEvent)
      modifies this
      ensures State() == EvalLcp(old(State()), e)
      decreases LcpRank(e)
    {
      var c := LcpCell(lcpState, e);
      LcpHandlersBelow(lcpState, e);
      hide LcpCell, LcpDo, EnterLcp, LcpRank, LcpActionRank;
      ChangeLcpState(e, c.next);
      ghost var s0 := State();
      ghost var s1 := if c.handlers.Has(0) then LcpDo(s0, c.handlers.At(0)) else s0;
      ghost var s2 := if c.handlers.Has(1) then LcpDo(s1, c.handlers.At(1)) else s1;
      ghost var s3 := if c.handlers.Has(2) then LcpDo(s2, c.handlers.At(2)) else s2;
      var i := 0;
      while i < 3
        invariant 0 <= i <= 3
        invariant State() == if i == 0 then s0 else if i == 1 then s1 else if i == 2 then s2 else s3
      {
        if c.handlers.Has(i) {
          DoLcp(c.handlers.At(i));
        }
        i := i + 1;
      }
      Note(Leave);
    }

    // ----- The tick and the user's calls -----

    method CheckToModem()
      modifies this
      ensures State() == CheckModem(old(State()))
    {
      if onModem && timerVal == 0 {
        onModem := false;
        EvaluateModemState(MTimeout);
      }
    }

    method CheckToLcp()
      modifies this
      ensures State() == CheckLcp(old(State()))
    {
      if (onReq || onTerm) && timerVal == 0 {
        if timerCount == 0 {
          EvaluateLcpState(LToNeg);
        } else {
          EvaluateLcpState(LToPos);
          timerCount := (timerCount + 255) % 256;
        }
      }
    }

    method CheckToAuth()
      modifies this
      ensures State() == CheckAuth(old(State()))
    {
      if onAuth && timerVal == 0 {
        onAuth := false;
        EvaluateAuthState(ATo);
      }
    }

    method CheckToIpcp()
      modifies this
      ensures State() == CheckIpcp(old(State()))
    {
      if onIpcp && timerVal == 0 {
        onIpcp := false;
        EvaluateIpcpState(ITo);
      }
    }

    method Ticked()
      modifies this
      ensures State() == Tick(old(State()))
    {
      hide CheckModem, CheckLcp, CheckAuth, CheckIpcp, EvalLcp;
      if timerVal > 0 {
        timerVal := timerVal - 1;
      }
      CheckToModem();
      CheckToLcp();
      CheckToAuth();
      CheckToIpcp();
      if reconnect && lcpState == LInitial {
        EvaluateLcpState(LOpen);
      }
    }

    method Connect()
      modifies this
      ensures State() == old(State()).(reconnect := true)
    {
      reconnect := true;
    }

    method Disconnect()
      modifies this
      ensures State() == EvalLcp(old(State()).(reconnect := false), LClose)
    {
      reconnect := false;
      EvaluateLcpState(LClose);
    }
  }
}
