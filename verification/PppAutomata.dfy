/** The four automata of the PPP device - modem, LCP, authentication, IPCP - with their
    tables, and the dispatchers whose handlers re-enter one another. */
module PppAutomata {

  // ----- States, events and handlers -----

  datatype ModemState =
    MInitial | MReset | MEcho | MCreg | MCgreg | MCgdcont | MCgatt | MDial | MConnected

  datatype ModemEvent = MStart | MStop | MOk | MConnect | MTimeout

  datatype ModemAction =
    SendReset | SendEcho | SendCreg | SendCgreg | SendCgdcont | SendCgatt | SendDial | ModemUp | ModemDown

  datatype LcpState =
    LInitial | LStarting | LClosed | LStopped | LClosing | LStopping | LReqSent | LAckRcvd | LAckSent | LOpened

  datatype LcpEvent =
    LUp | LDown | LOpen | LClose | LToPos | LToNeg | LRcrPos | LRcrNeg | LRca | LRcn | LRtr | LRta
  | LRuc | LRxjPos | LRxjNeg | LRxr

  datatype LcpAction =
    LayerUp | LayerDown | LayerStarted | LayerFinished | InitRestart | ZeroRestart
  | SendConfReq | SendConfAck | SendConfNack | SendTermReq | SendTermAck | SendCodeRej | SendEchoReply

  datatype AuthState = AInitial | AStarting | ARspSent | AReqSent | AAuthenticated

  datatype AuthEvent = AUpNone | AUpPap | AUpChap | ADown | ARac | ARaa | ARan | ATo

  datatype AuthAction = Auth | Deauth | AuthAbort | AuthReq | AuthRsp | AuthTimer

  datatype IpcpState = IInitial | IReqSent | IAckRcvd | IAckSent | IOpened

  datatype IpcpEvent = IUp | IDown | IRcrPos | IRcrNeg | IRca | IRcn | ITo

  datatype IpcpAction = SendIpReq | IpTimer | SendIpAck | SendIpNack | BringUp | BringDown

  /** The up to three handlers of a table cell, in the order in which they run. */
  datatype Handlers<A(==)> = Zero | One(a: A) | Two(a: A, b: A) | Three(a: A, b: A, c: A) {
    predicate Has(i: nat) {
      match this
      case Zero => false
      case One(_) => i == 0
      case Two(_, _) => i <= 1
      case Three(_, _, _) => i <= 2
    }

    predicate Contains(x: A) {
      match this
      case Zero => false
      case One(p) => x == p
      case Two(p, q) => x == p || x == q
      case Three(p, q, r) => x == p || x == q || x == r
    }

    function At(i: nat): A
      requires Has(i)
    {
      match this
      case One(x) => x
      case Two(x, y) => if i == 0 then x else y
      case Three(x, y, z) => if i == 0 then x else if i == 1 then y else z
    }
  }

  datatype Cell<S, A(==)> = Cell(next: S, handlers: Handlers<A>)

  // ----- The tables -----

  function ModemCell(st: ModemState, e: ModemEvent): Cell<ModemState, ModemAction> {
    match st
    case MInitial => (
      match e
      case MStart => Cell(MReset, One(SendReset))
      case MTimeout => Cell(MInitial, One(SendReset))
      case _ => Cell(MInitial, Zero))
    case MConnected => (
      match e
      case MStop => Cell(MInitial, One(ModemDown))
      case _ => Cell(MConnected, Zero))
    case _ => (
      match e
      case MStop => Cell(MInitial, Zero)
      case MTimeout => Cell(MReset, One(SendReset))
      case MOk => ModemOk(st)
      case MConnect => if st == MDial then Cell(MConnected, One(ModemUp)) else Cell(st, Zero)
      case MStart => Cell(st, Zero))
  }

  /** The column of the answer OK, which walks the modem through its commands. */
  function ModemOk(st: ModemState): Cell<ModemState, ModemAction> {
    match st
    case MReset => Cell(MEcho, One(SendEcho))
    case MEcho => Cell(MCreg, One(SendCreg))
    case MCreg => Cell(MCgreg, One(SendCgreg))
    case MCgreg => Cell(MCgdcont, One(SendCgdcont))
    case MCgdcont => Cell(MCgatt, One(SendCgatt))
    case MCgatt => Cell(MDial, One(SendDial))
    case _ => Cell(st, Zero)
  }

  function LcpCell(st: LcpState, e: LcpEvent): Cell<LcpState, LcpAction> {
    match st
    case LInitial => (
      match e
      case LUp => Cell(LClosed, Zero)
      case LOpen => Cell(LStarting, One(LayerStarted))
      case _ => Cell(LInitial, Zero))
    case LStarting => (
      match e
      case LUp => Cell(LReqSent, One(SendConfReq))
      case LClose => Cell(LInitial, One(LayerFinished))
      case _ => Cell(LStarting, Zero))
    case LClosed => (
      match e
      case LDown => Cell(LInitial, Zero)
      case LOpen => Cell(LReqSent, One(SendConfReq))
      case LRcrPos => Cell(LClosed, One(SendTermAck))
      case LRcrNeg => Cell(LClosed, One(SendTermAck))
      case LRca => Cell(LClosed, One(SendTermAck))
      case LRcn => Cell(LClosed, One(SendTermAck))
      case LRtr => Cell(LClosed, One(SendTermAck))
      case LRuc => Cell(LClosed, One(SendCodeRej))
      case LRxjNeg => Cell(LClosed, One(LayerFinished))
      case _ => Cell(LClosed, Zero))
    case LStopped => (
      match e
      case LDown => Cell(LStarting, One(LayerStarted))
      case LClose => Cell(LClosed, Zero)
      case LRcrPos => Cell(LAckSent, Two(SendConfReq, SendConfAck))
      case LRcrNeg => Cell(LReqSent, Two(SendConfReq, SendConfNack))
      case LRca => Cell(LStopped, One(SendTermAck))
      case LRcn => Cell(LStopped, One(SendTermAck))
      case LRtr => Cell(LStopped, One(SendTermAck))
      case LRuc => Cell(LStopped, One(SendCodeRej))
      case LRxjNeg => Cell(LStopped, One(LayerFinished))
      case _ => Cell(LStopped, Zero))
    case LClosing => (
      match e
      case LDown => Cell(LInitial, Zero)
      case LOpen => Cell(LStopping, Zero)
      case LToPos => Cell(LClosing, One(SendTermReq))
      case LToNeg => Cell(LClosed, One(LayerFinished))
      case LRtr => Cell(LClosing, One(SendTermAck))
      case LRta => Cell(LClosed, One(LayerFinished))
      case LRuc => Cell(LClosing, One(SendCodeRej))
      case LRxjNeg => Cell(LClosed, One(LayerFinished))
      case _ => Cell(LClosing, Zero))
    case LStopping => (
      match e
      case LDown => Cell(LStarting, Zero)
      case LClose => Cell(LClosing, Zero)
      case LToPos => Cell(LStopping, One(SendTermReq))
      case LToNeg => Cell(LStopped, One(LayerFinished))
      case LRtr => Cell(LStopping, One(SendTermAck))
      case LRta => Cell(LStopped, One(LayerFinished))
      case LRuc => Cell(LStopping, One(SendCodeRej))
      case LRxjNeg => Cell(LStopped, One(LayerFinished))
      case _ => Cell(LStopping, Zero))
    case LReqSent => (
      match e
      case LDown => Cell(LStarting, Zero)
      case LClose => Cell(LClosing, One(SendTermReq))
      case LToPos => Cell(LReqSent, One(SendConfReq))
      case LToNeg => Cell(LStopped, One(LayerFinished))
      case LRcrPos => Cell(LAckSent, One(SendConfAck))
      case LRcrNeg => Cell(LReqSent, One(SendConfNack))
      case LRca => Cell(LAckRcvd, One(InitRestart))
      case LRcn => Cell(LReqSent, One(SendConfReq))
      case LRtr => Cell(LReqSent, One(SendTermAck))
      case LRuc => Cell(LReqSent, One(SendCodeRej))
      case LRxjNeg => Cell(LStopped, One(LayerFinished))
      case _ => Cell(LReqSent, Zero))
    case LAckRcvd => (
      match e
      case LDown => Cell(LStarting, Zero)
      case LClose => Cell(LClosing, One(SendTermReq))
      case LToPos => Cell(LReqSent, One(SendConfReq))
      case LToNeg => Cell(LStopped, One(LayerFinished))
      case LRcrPos => Cell(LOpened, Two(SendConfAck, LayerUp))
      case LRcrNeg => Cell(LAckRcvd, One(SendConfNack))
      case LRca => Cell(LReqSent, One(SendConfReq))
      case LRcn => Cell(LReqSent, One(SendConfReq))
      case LRtr => Cell(LReqSent, One(SendTermAck))
      case LRta => Cell(LReqSent, Zero)
      case LRuc => Cell(LAckRcvd, One(SendCodeRej))
      case LRxjPos => Cell(LReqSent, Zero)
      case LRxjNeg => Cell(LStopped, One(LayerFinished))
      case _ => Cell(LAckRcvd, Zero))
    case LAckSent => (
      match e
      case LDown => Cell(LStarting, Zero)
      case LClose => Cell(LClosing, One(SendTermReq))
      case LToPos => Cell(LAckSent, One(SendConfReq))
      case LToNeg => Cell(LStopped, One(LayerFinished))
      case LRcrPos => Cell(LAckSent, One(SendConfAck))
      case LRcrNeg => Cell(LReqSent, One(SendConfNack))
      case LRca => Cell(LOpened, One(LayerUp))
      case LRcn => Cell(LAckSent, One(SendConfReq))
      case LRtr => Cell(LReqSent, One(SendTermAck))
      case LRuc => Cell(LAckSent, One(SendCodeRej))
      case LRxjNeg => Cell(LStopped, One(LayerFinished))
      case _ => Cell(LAckSent, Zero))
    case LOpened => (
      match e
      case LDown => Cell(LStarting, One(LayerDown))
      case LClose => Cell(LClosing, Two(LayerDown, SendTermReq))
      case LRcrPos => Cell(LAckSent, Three(LayerDown, SendTermReq, SendConfAck))
      case LRcrNeg => Cell(LReqSent, Three(LayerDown, SendConfReq, SendConfNack))
      case LRca => Cell(LReqSent, Two(LayerDown, SendTermReq))
      case LRcn => Cell(LReqSent, Two(LayerDown, SendTermReq))
      case LRtr => Cell(LStopping, Three(LayerDown, ZeroRestart, SendTermAck))
      case LRta => Cell(LReqSent, Two(LayerDown, SendTermReq))
      case LRuc => Cell(LOpened, One(SendCodeRej))
      case LRxjNeg => Cell(LStopping, Two(LayerDown, SendTermReq))
      case LRxr => Cell(LOpened, One(SendEchoReply))
      case _ => Cell(LOpened, Zero))
  }

  function AuthCell(st: AuthState, e: AuthEvent): Cell<AuthState, AuthAction> {
    match st
    case AInitial => (
      match e
      case AUpNone => Cell(AAuthenticated, One(Auth))
      case AUpPap => Cell(AReqSent, Two(AuthReq, AuthTimer))
      case AUpChap => Cell(AStarting, Zero)
      case ARan => Cell(AInitial, One(AuthAbort))
      case _ => Cell(AInitial, Zero))
    case AStarting => (
      match e
      case ADown => Cell(AInitial, One(Deauth))
      case ARac => Cell(ARspSent, Two(AuthRsp, AuthTimer))
      case ARaa => Cell(AStarting, One(AuthTimer))
      case ARan => Cell(AStarting, One(AuthAbort))
      case ATo => Cell(AInitial, Two(AuthReq, AuthTimer))
      case _ => Cell(AStarting, Zero))
    case ARspSent => (
      match e
      case ADown => Cell(AInitial, One(Deauth))
      case ARac => Cell(ARspSent, Two(AuthRsp, AuthTimer))
      case ARaa => Cell(AAuthenticated, One(Auth))
      case ARan => Cell(AStarting, One(AuthAbort))
      case ATo => Cell(AStarting, One(AuthTimer))
      case _ => Cell(ARspSent, Zero))
    case AReqSent => (
      match e
      case ADown => Cell(AInitial, One(Deauth))
      case ARaa => Cell(AAuthenticated, One(Auth))
      case ARan => Cell(AReqSent, One(AuthAbort))
      case ATo => Cell(AReqSent, Two(AuthReq, AuthTimer))
      case _ => Cell(AReqSent, Zero))
    case AAuthenticated => (
      match e
      case ADown => Cell(AInitial, One(Deauth))
      case ARac => Cell(ARspSent, One(AuthRsp))
      case _ => Cell(AAuthenticated, Zero))
  }

  function IpcpCell(st: IpcpState, e: IpcpEvent): Cell<IpcpState, IpcpAction> {
    match st
    case IInitial => (
      match e
      case IUp => Cell(IReqSent, Two(SendIpReq, IpTimer))
      case _ => Cell(IInitial, Zero))
    case IReqSent => (
      match e
      case IUp => Cell(IReqSent, Zero)
      case IDown => Cell(IInitial, Zero)
      case IRcrPos => Cell(IAckSent, One(SendIpAck))
      case IRcrNeg => Cell(IReqSent, One(SendIpNack))
      case IRca => Cell(IAckRcvd, Zero)
      case IRcn => Cell(IReqSent, Two(SendIpReq, IpTimer))
      case ITo => Cell(IReqSent, Two(SendIpReq, IpTimer)))
    case IAckRcvd => (
      match e
      case IUp => Cell(IAckRcvd, Zero)
      case IDown => Cell(IInitial, Zero)
      case IRcrPos => Cell(IOpened, Two(SendIpAck, BringUp))
      case IRcrNeg => Cell(IAckRcvd, One(SendIpNack))
      case IRca => Cell(IReqSent, Two(SendIpReq, IpTimer))
      case IRcn => Cell(IReqSent, Two(SendIpReq, IpTimer))
      case ITo => Cell(IAckRcvd, Two(SendIpReq, IpTimer)))
    case IAckSent => (
      match e
      case IUp => Cell(IAckSent, Zero)
      case IDown => Cell(IInitial, Zero)
      case IRcrPos => Cell(IAckSent, One(SendIpAck))
      case IRcrNeg => Cell(IReqSent, One(SendIpNack))
      case IRca => Cell(IOpened, One(BringUp))
      case IRcn => Cell(IAckSent, Two(SendIpReq, IpTimer))
      case ITo => Cell(IAckSent, Two(SendIpReq, IpTimer)))
    case IOpened => (
      match e
      case IUp => Cell(IOpened, Zero)
      case IDown => Cell(IInitial, One(BringDown))
      case IRcrPos => Cell(IAckSent, Three(BringDown, SendIpReq, SendIpAck))
      case IRcrNeg => Cell(IReqSent, Three(BringDown, SendIpReq, SendIpNack))
      case IRca => Cell(IReqSent, One(SendIpReq))
      case IRcn => Cell(IReqSent, One(SendIpReq))
      case ITo => Cell(IOpened, Zero))
  }

  // ----- The shared timer -----

  const DEFAULT_TIMER: nat := 3
  const MAX_TERMINATE: nat := 2
  const MAX_CONFIGURE: nat := 10
  const MAX_FAILURE: nat := 5
  const MAX_DIALTIME: nat := 20

  /** Which machines wait for the timer, the ticks left, and the restarts left to LCP. */
  datatype Timer = Timer(onModem: bool, onReq: bool, onTerm: bool, onAuth: bool, onIpcp: bool, val: nat, count: nat)

  datatype TimerKind = Configure | Terminate | Nothing

  function LcpTimerStart(t: Timer, kind: TimerKind): Timer {
    var t1 := t.(onReq := t.onReq || kind != Terminate, onTerm := t.onTerm || kind == Terminate,
                 val := if t.val == 0 then DEFAULT_TIMER else t.val);
    var count := match kind case Terminate => MAX_TERMINATE case Configure => MAX_CONFIGURE case Nothing => 0;
    var t2 := if kind == Nothing then t1.(count := 0) else t1;
    if t2.count == 0 then t2.(count := count) else t2
  }

  /** The states in which the restart timer runs: those whose cell for TO+ has a handler. */
  predicate RunsTimer(st: LcpState) {
    LcpCell(st, LToPos).handlers != Zero
  }

  // ----- What an observer sees -----

  datatype Move =
    | ModemMove(m0: ModemState, me: ModemEvent, m1: ModemState)
    | LcpMove(l0: LcpState, le: LcpEvent, l1: LcpState)
    | AuthMove(a0: AuthState, ae: AuthEvent, a1: AuthState)
    | IpcpMove(i0: IpcpState, ie: IpcpEvent, i1: IpcpState)

  /** Dispatches as they begin and end, and the LCP handlers as they start. */
  datatype Obs = Enter(move: Move) | Leave | Did(action: LcpAction)

  /** A history, latest observation outermost. */
  datatype Trace = Start | Then(past: Trace, last: Obs)

  /** The states in which LCP negotiates. */
  predicate Negotiating(st: LcpState) {
    st == LReqSent || st == LAckRcvd || st == LAckSent
  }

  /** A summary of a history.
    depth, deepest: how far dispatches are nested now, and were at most.
    sent, rcvd: whether LCP sent and received a Configure-Ack since it last entered the
      negotiating states from outside, the entering transition included.
    acked: whether a Configure-Ack came after the last Configure-Request of LCP;
    answered: whether the last Configure-Request of the peer was acknowledged.
    agreed: whether all four held whenever LCP told the layer above that it is up.
    left: whether LCP told the layer above that it is down as the very first thing after
      every transition out of OPENED; owed: whether that is still to come.
    toPos, toNeg: how often the restart timer ran out with and without restarts left. */
  datatype Watch = Watch(depth: int, deepest: int, sent: bool, rcvd: bool, acked: bool, answered: bool,
                         agreed: bool, owed: bool, left: bool, toPos: nat, toNeg: nat)

  function Deepen(w: Watch): Watch {
    w.(depth := w.depth + 1, deepest := if w.deepest < w.depth + 1 then w.depth + 1 else w.deepest,
       left := w.left && !w.owed)
  }

  function MoveLcp(w: Watch, st: LcpState, e: LcpEvent, next: LcpState): Watch {
    var again := Negotiating(next) && !Negotiating(st);
    w.(sent := w.sent && !again,
       rcvd := (w.rcvd && !again) || e == LRca,
       acked := w.acked || e == LRca,
       answered := w.answered && e != LRcrPos && e != LRcrNeg,
       owed := st == LOpened && next != LOpened,
       toPos := if e == LToPos then w.toPos + 1 else w.toPos,
       toNeg := if e == LToNeg then w.toNeg + 1 else w.toNeg)
  }

  function Observe(w: Watch, o: Obs): Watch {
    match o
    case Enter(m) => if m.LcpMove? then MoveLcp(Deepen(w), m.l0, m.le, m.l1) else Deepen(w)
    case Leave => w.(depth := w.depth - 1, left := w.left && !w.owed)
    case Did(a) =>
      w.(sent := w.sent || a == SendConfAck,
         acked := w.acked && a != SendConfReq,
         answered := w.answered || a == SendConfAck,
         agreed := w.agreed && (a == LayerUp ==> w.sent && w.rcvd && w.acked && w.answered),
         left := w.left && (w.owed ==> a == LayerDown),
         owed := false)
  }

  function Watched(t: Trace): Watch {
    match t
    case Start => Watch(0, 0, false, false, false, false, true, false, true, 0, 0)
    case Then(past, last) => Observe(Watched(past), last)
  }

  // ----- The device as a value, and its dispatchers as functions -----

  datatype AuthProto = NoAuth | PapAuth | ChapAuth | OtherAuth

  /** `reconnect` asks for the link to be opened again and again; `memory` says whether
      allocations succeed. */
  datatype Ppp = Ppp(modem: ModemState, lcp: LcpState, auth: AuthState, ipcp: IpcpState,
                     timer: Timer, proto: AuthProto, reconnect: bool, memory: bool, trace: Trace)
  {
    function Note(o: Obs): Ppp {
      this.(trace := Then(trace, o))
    }
  }

  function AuthRank(e: AuthEvent): nat {
    if e == ARan then 13 else 3
  }

  function AuthActionRank(a: AuthAction): nat {
    if a == AuthAbort then 12 else 2
  }

  function ModemRank(e: ModemEvent): nat {
    if e == MStop || e == MConnect then 9 else 3
  }

  function ModemActionRank(a: ModemAction): nat {
    if a == ModemUp || a == ModemDown then 8 else 0
  }

  function LcpRank(e: LcpEvent): nat {
    if e == LUp || e == LDown then 6 else 11
  }

  function LcpActionRank(a: LcpAction): nat {
    if a == LayerFinished then 10 else 4
  }

  // The event ranking behind termination: no cell holds a handler of higher rank than its event.

  lemma ModemHandlersBelow(st: ModemState, e: ModemEvent)
    ensures forall i: nat :: ModemCell(st, e).handlers.Has(i) ==>
      ModemActionRank(ModemCell(st, e).handlers.At(i)) < ModemRank(e)
  {
  }

  lemma LcpHandlersBelow(st: LcpState, e: LcpEvent)
    ensures forall i: nat :: LcpCell(st, e).handlers.Has(i) ==>
      LcpActionRank(LcpCell(st, e).handlers.At(i)) < LcpRank(e)
  {
  }

  lemma AuthHandlersBelow(st: AuthState, e: AuthEvent)
    ensures forall i: nat :: AuthCell(st, e).handlers.Has(i) ==>
      AuthActionRank(AuthCell(st, e).handlers.At(i)) < AuthRank(e)
  {
  }

  function IpcpDo(s: Ppp, a: IpcpAction): Ppp {
    if a == IpTimer then s.(timer := s.timer.(onIpcp := true, val := DEFAULT_TIMER * MAX_FAILURE)) else s
  }

  function EvalIpcp(s: Ppp, e: IpcpEvent): Ppp {
    var c := IpcpCell(s.ipcp, e);
    var s0 := s.(ipcp := c.next).Note(Enter(IpcpMove(s.ipcp, e, c.next)));
    var s1 := if c.handlers.Has(0) then IpcpDo(s0, c.handlers.At(0)) else s0;
    var s2 := if c.handlers.Has(1) then IpcpDo(s1, c.handlers.At(1)) else s1;
    var s3 := if c.handlers.Has(2) then IpcpDo(s2, c.handlers.At(2)) else s2;
    s3.Note(Leave)
  }

  function AuthDo(s: Ppp, a: AuthAction): Ppp
    decreases AuthActionRank(a)
  {
    match a
    case Auth => EvalIpcp(s, IUp)
    case Deauth => EvalIpcp(s, IDown)
    case AuthAbort => EvalLcp(s.(timer := s.timer.(onAuth := false)), LClose)
    case AuthTimer => s.(timer := s.timer.(onAuth := true, val := DEFAULT_TIMER))
    case AuthReq => s
    case AuthRsp => s
  }

  function EvalAuth(s: Ppp, e: AuthEvent): Ppp
    decreases AuthRank(e)
  {
    AuthHandlersBelow(s.auth, e);
    var c := AuthCell(s.auth, e);
    var s0 := s.(auth := c.next).Note(Enter(AuthMove(s.auth, e, c.next)));
    var s1 := if c.handlers.Has(0) then AuthDo(s0, c.handlers.At(0)) else s0;
    var s2 := if c.handlers.Has(1) then AuthDo(s1, c.handlers.At(1)) else s1;
    var s3 := if c.handlers.Has(2) then AuthDo(s2, c.handlers.At(2)) else s2;
    s3.Note(Leave)
  }

  function ModemDo(s: Ppp, a: ModemAction): Ppp
    decreases ModemActionRank(a)
  {
    match a
    case ModemUp => EvalLcp(s, LUp)
    case ModemDown => EvalLcp(s, LDown)
    case SendDial => s.(timer := s.timer.(onModem := true, val := MAX_DIALTIME))
    case _ => s.(timer := s.timer.(onModem := true, val := DEFAULT_TIMER))
  }

  function EvalModem(s: Ppp, e: ModemEvent): Ppp
    decreases ModemRank(e)
  {
    ModemHandlersBelow(s.modem, e);
    var c := ModemCell(s.modem, e);
    var s0 := s.(modem := c.next).Note(Enter(ModemMove(s.modem, e, c.next)));
    var s1 := if c.handlers.Has(0) then ModemDo(s0, c.handlers.At(0)) else s0;
    var s2 := if c.handlers.Has(1) then ModemDo(s1, c.handlers.At(1)) else s1;
    var s3 := if c.handlers.Has(2) then ModemDo(s2, c.handlers.At(2)) else s2;
    s3.Note(Leave)
  }

  function LcpDo(s: Ppp, a: LcpAction): Ppp
    decreases LcpActionRank(a)
  {
    var s := s.Note(Did(a));
    match a
    case LayerUp => (
      match s.proto
      case NoAuth => EvalAuth(s, AUpNone)
      case PapAuth => EvalAuth(s, AUpPap)
      case ChapAuth => EvalAuth(s, AUpChap)
      case OtherAuth => s)
    case LayerDown => EvalAuth(s, ADown)
    case LayerStarted => EvalModem(s, MStart)
    case LayerFinished => EvalModem(s, MStop)
    case InitRestart => s.(timer := LcpTimerStart(s.timer, Configure))
    case ZeroRestart => s.(timer := LcpTimerStart(s.timer, Nothing))
    case SendConfReq =>
      if s.memory then s.(timer := LcpTimerStart(s.timer.(val := DEFAULT_TIMER), Configure)) else s
    case SendTermReq => s.(timer := LcpTimerStart(s.timer, Terminate))
    case _ => s
  }

  /** The restart timer stops on the way into a state in which it does not run. */
  function EnterLcp(s: Ppp, e: LcpEvent): Ppp {
    var next := LcpCell(s.lcp, e).next;
    var timer := if RunsTimer(next) then s.timer else s.timer.(onReq := false, onTerm := false);
    s.(lcp := next, timer := timer).Note(Enter(LcpMove(s.lcp, e, next)))
  }

  function EvalLcp(s: Ppp, e: LcpEvent): Ppp
    decreases LcpRank(e)
  {
    LcpHandlersBelow(s.lcp, e);
    var c := LcpCell(s.lcp, e);
    var s0 := EnterLcp(s, e);
    var s1 := if c.handlers.Has(0) then LcpDo(s0, c.handlers.At(0)) else s0;
    var s2 := if c.handlers.Has(1) then LcpDo(s1, c.handlers.At(1)) else s1;
    var s3 := if c.handlers.Has(2) then LcpDo(s2, c.handlers.At(2)) else s2;
    s3.Note(Leave)
  }

  // ----- The tick and the other inputs of the device -----

  function CheckModem(s: Ppp): Ppp {
    if s.timer.onModem && s.timer.val == 0 then EvalModem(s.(timer := s.timer.(onModem := false)), MTimeout) else s
  }

  /** The restart counter is a single octet; it is decremented after the dispatch. */
  function CheckLcp(s: Ppp): Ppp {
    if (s.timer.onReq || s.timer.onTerm) && s.timer.val == 0 then
      if s.timer.count == 0 then EvalLcp(s, LToNeg)
      else
        var t := EvalLcp(s, LToPos);
        t.(timer := t.timer.(count := (t.timer.count + 255) % 256))
    else s
  }

  function CheckAuth(s: Ppp): Ppp {
    if s.timer.onAuth && s.timer.val == 0 then EvalAuth(s.(timer := s.timer.(onAuth := false)), ATo) else s
  }

  function CheckIpcp(s: Ppp): Ppp {
    if s.timer.onIpcp && s.timer.val == 0 then EvalIpcp(s.(timer := s.timer.(onIpcp := false)), ITo) else s
  }

  function Reopen(s: Ppp): Ppp {
    if s.reconnect && s.lcp == LInitial then EvalLcp(s, LOpen) else s
  }

  function CountDown(s: Ppp): Ppp {
    s.(timer := s.timer.(val := if s.timer.val > 0 then s.timer.val - 1 else 0))
  }

  function Tick(s: Ppp): Ppp {
    Reopen(CheckIpcp(CheckAuth(CheckLcp(CheckModem(CountDown(s))))))
  }

  /** What may happen to the device from outside: the tick, the user's two calls, an answer
      of the modem, and packets of the peer. */
  datatype Event =
    | Ticked
    | Connect
    | Disconnect
    | FromModem(m: ModemEvent)
    | FromPeerLcp(l: LcpEvent)
    | FromPeerAuth(a: AuthEvent)
    | FromPeerIpcp(i: IpcpEvent)
  {
    /** What is not a signal between the layers nor a timeout, which comes out of the tick: more
        than the device raises in any one state. */
    predicate Raised() {
      match this
      case FromModem(e) => e == MOk || e == MStop || e == MConnect
      case FromPeerLcp(e) => e !in {LUp, LDown, LOpen, LClose, LToPos, LToNeg}
      case FromPeerAuth(e) => e == ARac || e == ARaa || e == ARan
      case FromPeerIpcp(e) => e !in {IUp, IDown, ITo}
      case _ => true
    }
  }

  /** An event together with what else the environment decides: whether memory can be had
      and which authentication the options received last ask for. */
  datatype Input = Input(event: Event, memory: bool, proto: AuthProto)

  function Step(s: Ppp, x: Input): Ppp {
    var s := s.(memory := x.memory, proto := x.proto);
    match x.event
    case Ticked => Tick(s)
    case Connect => s.(reconnect := true)
    case Disconnect => EvalLcp(s.(reconnect := false), LClose)
    case FromModem(e) => EvalModem(s, e)
    case FromPeerLcp(e) => EvalLcp(s, e)
    case FromPeerAuth(e) => EvalAuth(s, e)
    case FromPeerIpcp(e) => EvalIpcp(s, e)
  }

  const CREATED: Ppp :=
    Ppp(MInitial, LInitial, AInitial, IInitial, Timer(false, false, false, false, false, 0, 0),
        NoAuth, false, true, Start)

  /** The device after a sequence of inputs. */
  function Run(xs: seq<Input>): Ppp {
    if xs == [] then CREATED else Step(Run(xs[..|xs| - 1]), xs[|xs| - 1])
  }

  predicate AllRaised(xs: seq<Input>) {
    forall i :: 0 <= i < |xs| ==> xs[i].event.Raised()
  }

  /** What the stack is told about the link. */
  predicate LinkUp(s: Ppp) {
    s.ipcp == IOpened
  }
}
