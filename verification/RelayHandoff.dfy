/**
  The relay client's two threads before `shutdown`, one shared read or write or one WinHTTP call per
  step. The background thread connects and reconnects; the hook thread sends. They share the four
  handle fields and the flag `connected`, and no lock: the flag alone says who may touch the handles.
 */
module RelayHandoff {
  import opened Wrappers
  import opened CloseLog

  datatype Slot = WebSocket | Request | Connect | Session

  datatype Handles = Handles(websocket: Option<nat>, request: Option<nat>, connect: Option<nat>, session: Option<nat>) {
    function At(slot: Slot): Option<nat> {
      match slot
      case WebSocket => websocket
      case Request => request
      case Connect => connect
      case Session => session
    }

    function Cleared(slot: Slot): Handles {
      match slot
      case WebSocket => this.(websocket := None)
      case Request => this.(request := None)
      case Connect => this.(connect := None)
      case Session => this.(session := None)
    }
  }

  /** What follows a run of `close_handles`. */
  datatype Then =
    | OpenNext   // the connection attempt
    | GiveUp     // `do_connect` returns false
    | TryLater   // the attempt is over

  datatype Background =
    | LoadConnected
    | Closing(slot: Slot, next: Then)   // tests the field and closes the handle
    | Clearing(slot: Slot, next: Then)  // writes null over the closed handle
    | OpeningSession
    | Connecting
    | OpeningRequest
    | SettingUpgrade
    | SendingRequest
    | ReceivingResponse
    | CompletingUpgrade
    | ClosingRequest
    | ClearingRequest
    | Joining
    | StoringConnected
    | Resting

  datatype HookThread =
    | Idle
    | Asking             // `is_connected` in the mouse hook
    | LoadingFlag        // the load at the head of `send_packet`
    | TestingSocket
    | TakingSocket       // evaluating the argument of the send
    | Sending(socket: Option<nat>)
    | ClearingFlag

  /** A message on a WebSocket: a join whose send succeeded, or a packet handed over, sent or not. */
  datatype Message = Join(ws: nat) | Binary(ws: nat)

  datatype Relay = Relay(
    handles: Handles, connected: bool, background: Background, hook: HookThread,
    issued: nat, closed: seq<nat>, trace: seq<Message>)

  /** Which thread moves, and whether the call it makes, if any, succeeds. */
  datatype Turn = BackgroundTurn(ok: bool) | HookTurn(ok: bool)

  const NO_HANDLES := Handles(None, None, None, None)
  const INITIAL := Relay(NO_HANDLES, false, LoadConnected, Idle, 0, [], [])

  // ---------------------------------------------------------------- steps

  function AfterSlot(slot: Slot, next: Then): Background {
    match slot
    case WebSocket => Closing(Request, next)
    case Request => Closing(Connect, next)
    case Connect => Closing(Session, next)
    case Session =>
      match next
      case OpenNext => OpeningSession
      case GiveUp => Closing(WebSocket, TryLater)
      case TryLater => Resting
  }

  function Fails(r: Relay): Relay { r.(background := Closing(WebSocket, GiveUp)) }

  /** A call returned the next handle, which went into its field. */
  function Opened(r: Relay, handles: Handles, next: Background): Relay {
    r.(handles := handles, issued := r.issued + 1, background := next)
  }

  function BackgroundStep(r: Relay, ok: bool): Relay {
    match r.background
    case LoadConnected => r.(background := if r.connected then Resting else Closing(WebSocket, OpenNext))
    case Closing(slot, next) =>
      if r.handles.At(slot).Some? then
        r.(closed := r.closed + [r.handles.At(slot).value], background := Clearing(slot, next))
      else r.(background := AfterSlot(slot, next))
    case Clearing(slot, next) => r.(handles := r.handles.Cleared(slot), background := AfterSlot(slot, next))
    case OpeningSession =>
      if ok then Opened(r, r.handles.(session := Some(r.issued)), Connecting)
      else r.(background := Closing(WebSocket, TryLater))
    case Connecting =>
      if ok then Opened(r, r.handles.(connect := Some(r.issued)), OpeningRequest)
      else Fails(r)
    case OpeningRequest =>
      if ok then Opened(r, r.handles.(request := Some(r.issued)), SettingUpgrade)
      else Fails(r)
    case SettingUpgrade => if ok then r.(background := SendingRequest) else Fails(r)
    case SendingRequest => if ok then r.(background := ReceivingResponse) else Fails(r)
    case ReceivingResponse => if ok then r.(background := CompletingUpgrade) else Fails(r)
    case CompletingUpgrade =>
      if ok then Opened(r, r.handles.(websocket := Some(r.issued)), ClosingRequest)
      else Fails(r)
    case ClosingRequest => r.(closed := Close(r.closed, r.handles.request), background := ClearingRequest)
    case ClearingRequest => r.(handles := r.handles.(request := None), background := Joining)
    case Joining =>
      if ok && r.handles.websocket.Some? then
        r.(trace := r.trace + [Join(r.handles.websocket.value)], background := StoringConnected)
      else r.(background := Closing(WebSocket, TryLater))
    case StoringConnected => r.(connected := true, background := Resting)
    case Resting => r.(background := LoadConnected)
  }

  function HookStep(r: Relay, ok: bool): Relay {
    match r.hook
    case Idle => r.(hook := Asking)
    case Asking => r.(hook := if r.connected then LoadingFlag else Idle)
    case LoadingFlag => r.(hook := if r.connected then TestingSocket else Idle)
    case TestingSocket => r.(hook := if r.handles.websocket.Some? then TakingSocket else Idle)
    case TakingSocket => r.(hook := Sending(r.handles.websocket))
    case Sending(socket) =>
      var sent := if socket.Some? then r.(trace := r.trace + [Binary(socket.value)]) else r;
      sent.(hook := if ok then Idle else ClearingFlag)
    case ClearingFlag => r.(connected := false, hook := Idle)
  }

  function Step(r: Relay, turn: Turn): Relay {
    match turn
    case BackgroundTurn(ok) => BackgroundStep(r, ok)
    case HookTurn(ok) => HookStep(r, ok)
  }

  function Exec(turns: seq<Turn>): Relay {
    if |turns| == 0 then INITIAL else Step(Exec(turns[..|turns| - 1]), turns[|turns| - 1])
  }

  // ---------------------------------------------------------------- who owns the handles

  /** From seeing the flag false to setting it the background thread may touch the handles. */
  predicate BackgroundOwns(b: Background) { !b.LoadConnected? && !b.Resting? }

  /** Having seen the flag true, the hook thread relies on the handles until it is done or clears the flag. */
  predicate HookOwns(h: HookThread) { !h.Idle? && !h.Asking? }

  predicate HoldsNone(h: Handles) { h == NO_HANDLES }

  /** Exactly session, connection and WebSocket. */
  predicate HoldsConnection(h: Handles) { h.websocket.Some? && h.request.None? && h.connect.Some? && h.session.Some? }

  /** The flag hands the handles over; a handle in hand is the one in the field. */
  ghost predicate Exclusive(r: Relay) {
    && (BackgroundOwns(r.background) ==> !r.connected)
    && (HookOwns(r.hook) ==> r.connected)
    && (r.hook.Sending? ==> r.hook.socket.Some? && r.hook.socket == r.handles.websocket)
    && (r.hook.TakingSocket? ==> r.handles.websocket.Some?)
    && (r.connected ==> HoldsConnection(r.handles))
  }

  /** Which fields are set at each point of the background thread. */
  ghost predicate Shape(r: Relay) {
    var h := r.handles;
    match r.background
    case LoadConnected | Resting => HoldsNone(h) || HoldsConnection(h)
    case Closing(slot, next) => BeforeIsClear(h, slot)
    case Clearing(slot, next) => BeforeIsClear(h, slot) && h.At(slot).Some?
    case OpeningSession => HoldsNone(h)
    case Connecting => h.websocket.None? && h.request.None? && h.connect.None? && h.session.Some?
    case OpeningRequest => h.websocket.None? && h.request.None? && h.connect.Some? && h.session.Some?
    case SettingUpgrade | SendingRequest | ReceivingResponse | CompletingUpgrade =>
      h.websocket.None? && h.request.Some? && h.connect.Some? && h.session.Some?
    case ClosingRequest | ClearingRequest =>
      h.websocket.Some? && h.request.Some? && h.connect.Some? && h.session.Some?
    case Joining | StoringConnected => HoldsConnection(h)
  }

  /** Handles are closed WebSocket first, session last. */
  predicate BeforeIsClear(h: Handles, slot: Slot) {
    && (!slot.WebSocket? ==> h.websocket.None?)
    && (slot.Connect? || slot.Session? ==> h.request.None?)
    && (slot.Session? ==> h.connect.None?)
  }

  lemma StepKeepsOwnership(r: Relay, turn: Turn)
    requires Exclusive(r) && Shape(r)
    ensures Exclusive(Step(r, turn)) && Shape(Step(r, turn))
  {
    if turn.BackgroundTurn? && (r.background.Closing? || r.background.Clearing?) {
      match r.background.slot
      case WebSocket =>
      case Request =>
      case Connect =>
      case Session =>
    }
  }

  lemma {:induction false} Ownership(turns: seq<Turn>)
    ensures Exclusive(Exec(turns)) && Shape(Exec(turns))
  {
    if |turns| > 0 {
      Ownership(turns[..|turns| - 1]);
      StepKeepsOwnership(Exec(turns[..|turns| - 1]), turns[|turns| - 1]);
    }
  }

  // ---------------------------------------------------------------- accounts

  function One(o: Option<nat>, handle: nat): nat { if o == Some(handle) then 1 else 0 }

  /** The fields holding `handle` as an open handle; a field about to be overwritten with null no longer does. */
  function TimesHeld(r: Relay, handle: nat): nat {
    var h := r.handles;
    (if r.background.Clearing? && r.background.slot.WebSocket? then 0 else One(h.websocket, handle))
    + (if r.background.ClearingRequest? || (r.background.Clearing? && r.background.slot.Request?) then 0
       else One(h.request, handle))
    + (if r.background.Clearing? && r.background.slot.Connect? then 0 else One(h.connect, handle))
    + (if r.background.Clearing? && r.background.slot.Session? then 0 else One(h.session, handle))
  }

  /** Every handle ever opened is held once or was closed once, and no other is held or closed. */
  ghost predicate Accounted(r: Relay) {
    forall handle: nat ::
      TimesClosed(r.closed, handle) + TimesHeld(r, handle) == if handle < r.issued then 1 else 0
  }

  /** The step neither opens nor closes: the same handles count as held. */
  lemma ClearingKeepsAccount(r: Relay, ok: bool)
    requires (r.background.Clearing? || r.background.ClearingRequest?) && Accounted(r)
    ensures Accounted(BackgroundStep(r, ok))
  {
    forall handle: nat ensures TimesHeld(BackgroundStep(r, ok), handle) == TimesHeld(r, handle) {
    }
  }

  lemma ClosingKeepsAccount(r: Relay, ok: bool)
    requires r.background.Closing? && Accounted(r)
    ensures Accounted(BackgroundStep(r, ok))
  {
    var s := BackgroundStep(r, ok);
    var target := r.handles.At(r.background.slot);
    forall handle: nat
      ensures TimesClosed(s.closed, handle) == TimesClosed(r.closed, handle) + One(target, handle)
      ensures TimesHeld(s, handle) == TimesHeld(r, handle) - One(target, handle)
    {
      TimesClosedAppend(r.closed, target, handle);
    }
  }

  lemma ClosingRequestKeepsAccount(r: Relay, ok: bool)
    requires r.background.ClosingRequest? && Accounted(r)
    ensures Accounted(BackgroundStep(r, ok))
  {
    var s := BackgroundStep(r, ok);
    forall handle: nat
      ensures TimesClosed(s.closed, handle) == TimesClosed(r.closed, handle) + One(r.handles.request, handle)
      ensures TimesHeld(s, handle) == TimesHeld(r, handle) - One(r.handles.request, handle)
    {
      TimesClosedAppend(r.closed, r.handles.request, handle);
    }
  }

  lemma OpeningKeepsAccount(r: Relay, ok: bool)
    requires Shape(r) && Accounted(r)
    requires r.background.OpeningSession? || r.background.Connecting? || r.background.OpeningRequest?
             || r.background.CompletingUpgrade?
    ensures Accounted(BackgroundStep(r, ok))
  {
    var s := BackgroundStep(r, ok);
    assert TimesHeld(r, r.issued) == 0;
    forall handle: nat
      ensures TimesHeld(s, handle) == TimesHeld(r, handle) + if ok && handle == r.issued then 1 else 0
    {
    }
  }

  lemma StepKeepsAccount(r: Relay, turn: Turn)
    requires Shape(r) && Accounted(r)
    ensures Accounted(Step(r, turn))
  {
    if turn.BackgroundTurn? {
      match r.background
      case Clearing(_, _) => ClearingKeepsAccount(r, turn.ok);
      case ClearingRequest => ClearingKeepsAccount(r, turn.ok);
      case Closing(_, _) => ClosingKeepsAccount(r, turn.ok);
      case ClosingRequest => ClosingRequestKeepsAccount(r, turn.ok);
      case OpeningSession => OpeningKeepsAccount(r, turn.ok);
      case Connecting => OpeningKeepsAccount(r, turn.ok);
      case OpeningRequest => OpeningKeepsAccount(r, turn.ok);
      case CompletingUpgrade => OpeningKeepsAccount(r, turn.ok);
      case _ => SameHandlesKeepAccount(r, Step(r, turn));
    } else {
      SameHandlesKeepAccount(r, Step(r, turn));
    }
  }

  lemma SameHandlesKeepAccount(r: Relay, s: Relay)
    requires Accounted(r) && s.handles == r.handles && s.closed == r.closed && s.issued == r.issued
    requires s.background == r.background
             || !(r.background.Clearing? || r.background.ClearingRequest?
                  || s.background.Clearing? || s.background.ClearingRequest?)
    ensures Accounted(s)
  {
    forall handle: nat ensures TimesHeld(s, handle) == TimesHeld(r, handle) {
    }
  }

  /** Over every interleaving and every failure: handles opened = handles closed once + handles held once. */
  lemma {:induction false} HandleAccounting(turns: seq<Turn>)
    ensures Accounted(Exec(turns))
  {
    if |turns| > 0 {
      HandleAccounting(turns[..|turns| - 1]);
      Ownership(turns[..|turns| - 1]);
      StepKeepsAccount(Exec(turns[..|turns| - 1]), turns[|turns| - 1]);
    }
  }

  /**
    The handoff: over every interleaving, while the hook thread is in its WebSocket send the flag is
    set, the WebSocket it uses is the one in the field and is open, and the background thread is at a
    point where it touches no handle.
   */
  lemma SendIsExclusive(turns: seq<Turn>)
    requires Exec(turns).hook.Sending?
    ensures var r := Exec(turns);
            && r.connected && !BackgroundOwns(r.background)
            && r.hook.socket.Some? && r.hook.socket == r.handles.websocket
            && TimesClosed(r.closed, r.hook.socket.value) == 0
  {
    Ownership(turns);
    HandleAccounting(turns);
    var r := Exec(turns);
    assert TimesHeld(r, r.hook.socket.value) >= 1;
    assert TimesClosed(r.closed, r.hook.socket.value) + TimesHeld(r, r.hook.socket.value) <= 1;
  }

  /** A failed `do_connect` holds no handle, a successful one exactly session, connection and WebSocket. */
  lemma ConnectOutcome(turns: seq<Turn>, ok: bool)
    requires BackgroundOwns(Exec(turns).background) && !Exec(turns).background.Joining?
    ensures var after := BackgroundStep(Exec(turns), ok);
            && (after.background == Closing(WebSocket, TryLater) ==> HoldsNone(after.handles))
            && (after.background == Joining ==> HoldsConnection(after.handles))
  {
    Ownership(turns);
    StepKeepsOwnership(Exec(turns), BackgroundTurn(ok));
  }

  // ---------------------------------------------------------------- messages

  ghost predicate Untouched(trace: seq<Message>, ws: nat) {
    forall i | 0 <= i < |trace| :: trace[i].ws != ws
  }

  /** A message is a join exactly when it is the first on its WebSocket. */
  ghost predicate JoinsFirst(trace: seq<Message>) {
    forall j | 0 <= j < |trace| :: trace[j].Join? <==> Untouched(trace[..j], trace[j].ws)
  }

  ghost predicate TraceInOrder(r: Relay) {
    && JoinsFirst(r.trace)
    && (forall i | 0 <= i < |r.trace| :: r.trace[i].ws < r.issued)
    && (r.background.ClosingRequest? || r.background.ClearingRequest? || r.background.Joining? ==>
          r.handles.websocket.Some? && Untouched(r.trace, r.handles.websocket.value))
    && (r.connected || r.background.StoringConnected? ==>
          r.handles.websocket.Some? && !Untouched(r.trace, r.handles.websocket.value))
  }

  lemma JoinsFirstAppend(trace: seq<Message>, m: Message)
    requires JoinsFirst(trace) && (m.Join? <==> Untouched(trace, m.ws))
    ensures JoinsFirst(trace + [m])
    ensures !Untouched(trace + [m], m.ws)
    ensures forall ws | !Untouched(trace, ws) :: !Untouched(trace + [m], ws)
  {
    var longer := trace + [m];
    forall j | 0 <= j < |longer| ensures longer[j].Join? <==> Untouched(longer[..j], longer[j].ws) {
      assert longer[..j] == if j < |trace| then trace[..j] else trace;
    }
    assert longer[|trace|].ws == m.ws;
    forall ws | !Untouched(trace, ws) ensures !Untouched(longer, ws) {
      var i :| 0 <= i < |trace| && trace[i].ws == ws;
      assert longer[i].ws == ws;
    }
  }

  lemma JoinKeepsTrace(r: Relay)
    requires r.background.Joining? && Shape(r) && Accounted(r) && TraceInOrder(r)
    ensures TraceInOrder(BackgroundStep(r, true))
  {
    var ws := r.handles.websocket.value;
    JoinsFirstAppend(r.trace, Join(ws));
    assert TimesHeld(r, ws) >= 1;
  }

  lemma SendKeepsTrace(r: Relay, ok: bool)
    requires r.hook.Sending? && Exclusive(r) && Accounted(r) && TraceInOrder(r)
    ensures TraceInOrder(HookStep(r, ok))
  {
    var ws := r.hook.socket.value;
    JoinsFirstAppend(r.trace, Binary(ws));
    assert TimesHeld(r, ws) >= 1;
  }

  lemma StepKeepsTrace(r: Relay, turn: Turn)
    requires Exclusive(r) && Shape(r) && Accounted(r) && TraceInOrder(r)
    ensures TraceInOrder(Step(r, turn))
  {
    if turn == BackgroundTurn(true) && r.background.Joining? {
      JoinKeepsTrace(r);
    } else if turn.HookTurn? && r.hook.Sending? {
      SendKeepsTrace(r, turn.ok);
    }
  }

  /** Over every interleaving, on every WebSocket the join message comes first and comes once. */
  lemma {:induction false} JoinPrecedesPackets(turns: seq<Turn>)
    ensures TraceInOrder(Exec(turns))
  {
    if |turns| > 0 {
      JoinPrecedesPackets(turns[..|turns| - 1]);
      Ownership(turns[..|turns| - 1]);
      HandleAccounting(turns[..|turns| - 1]);
      StepKeepsTrace(Exec(turns[..|turns| - 1]), turns[|turns| - 1]);
    }
  }
}
