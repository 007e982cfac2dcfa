/**
  The relay's threads get their work done wherever the other one stands: an established connection carries the
  hook's packets, a failed send drops it, and a lost one is built up again.
 */
module RelayProgress {
  import opened Wrappers
  import opened RelayHandoff

  // ---------------------------------------------------------------- the hook thread

  /** `n` steps of the hook thread, every call succeeding. */
  function HookAlone(r: Relay, n: nat): Relay
    decreases n
  {
    if n == 0 then r else HookAlone(HookStep(r, true), n - 1)
  }

  lemma HookReachesSend(r: Relay)
    requires Exclusive(r) && r.connected && r.hook.Idle?
    ensures HookAlone(r, 5) == r.(hook := Sending(r.handles.websocket)) && r.handles.websocket.Some?
  {
    var a := r.(hook := Asking);
    var b := r.(hook := LoadingFlag);
    var c := r.(hook := TestingSocket);
    var d := r.(hook := TakingSocket);
    var e := r.(hook := Sending(r.handles.websocket));
    assert HookStep(r, true) == a && HookStep(a, true) == b && HookStep(b, true) == c;
    assert HookStep(c, true) == d && HookStep(d, true) == e;
    assert HookAlone(e, 0) == e;
    assert HookAlone(d, 1) == e;
    assert HookAlone(c, 2) == e;
    assert HookAlone(b, 3) == e;
    assert HookAlone(a, 4) == e;
  }

  /**
    In every reachable connected state, wherever the background thread is, the idle hook thread hands its packet to
    the current WebSocket in six steps; when that send fails, the next one drops the connection.
   */
  lemma PacketIsSent(turns: seq<Turn>)
    requires Exec(turns).connected && Exec(turns).hook.Idle?
    ensures var r := Exec(turns);
            && r.handles.websocket.Some?
            && var sent := r.(trace := r.trace + [Binary(r.handles.websocket.value)]);
               && HookStep(HookAlone(r, 5), true) == sent
               && HookStep(HookStep(HookAlone(r, 5), false), true) == sent.(connected := false)
  {
    Ownership(turns);
    HookReachesSend(Exec(turns));
  }

  /** Without a connection the hook thread is done after two steps and has sent nothing. */
  lemma NothingIsSent(turns: seq<Turn>)
    requires !Exec(turns).connected && Exec(turns).hook.Idle?
    ensures HookStep(HookStep(Exec(turns), true), true) == Exec(turns)
  {
  }

  // ---------------------------------------------------------------- the background thread

  /** `n` steps of the background thread, every call succeeding. */
  function BackgroundAlone(r: Relay, n: nat): Relay
    decreases n
  {
    if n == 0 then r else BackgroundAlone(BackgroundStep(r, true), n - 1)
  }

  function SlotLeft(handle: Option<nat>): nat { if handle.Some? then 2 else 1 }

  /** The steps of closing the fields from `slot` on. */
  function CloseLeft(h: Handles, slot: Slot): nat {
    var session := SlotLeft(h.session);
    var connect := SlotLeft(h.connect) + session;
    var request := SlotLeft(h.request) + connect;
    match slot
    case WebSocket => SlotLeft(h.websocket) + request
    case Request => request
    case Connect => connect
    case Session => session
  }

  /** The steps that are left, once everything is closed, until the connection is announced. */
  function ThenLeft(next: Then): nat {
    match next
    case OpenNext => 11
    case TryLater => 17
    case GiveUp => 21
  }

  /** The steps that are left until the connection is announced. */
  function ConnectLeft(r: Relay): nat {
    match r.background
    case LoadConnected => 1 + CloseLeft(r.handles, WebSocket) + 11
    case Closing(slot, next) => CloseLeft(r.handles, slot) + ThenLeft(next)
    case Clearing(slot, next) => CloseLeft(r.handles, slot) - 1 + ThenLeft(next)
    case OpeningSession => 11
    case Connecting => 10
    case OpeningRequest => 9
    case SettingUpgrade => 8
    case SendingRequest => 7
    case ReceivingResponse => 6
    case CompletingUpgrade => 5
    case ClosingRequest => 4
    case ClearingRequest => 3
    case Joining => 2
    case StoringConnected => 1
    case Resting => 2 + CloseLeft(r.handles, WebSocket) + 11
  }

  lemma ClosingStep(r: Relay)
    requires Shape(r) && (r.background.Closing? || r.background.Clearing?)
    ensures ConnectLeft(BackgroundStep(r, true)) + 1 == ConnectLeft(r)
  {
    match r.background.slot
    case WebSocket =>
    case Request =>
    case Connect =>
    case Session =>
      match r.background.next
      case OpenNext =>
      case GiveUp =>
      case TryLater =>
  }

  lemma BackgroundAdvances(r: Relay)
    requires Exclusive(r) && Shape(r) && !r.connected
    ensures var s := BackgroundStep(r, true);
            if r.background.StoringConnected? then s.connected && s.background.Resting? && s.trace == r.trace
            else !s.connected && ConnectLeft(s) + 1 == ConnectLeft(r)
  {
    if r.background.Closing? || r.background.Clearing? {
      ClosingStep(r);
    }
  }

  lemma LeftIsBounded(r: Relay)
    ensures 1 <= ConnectLeft(r) <= 29
  {
  }

  lemma {:induction false} Connects(r: Relay)
    requires Exclusive(r) && Shape(r) && Accounted(r) && TraceInOrder(r) && !r.connected
    ensures var s := BackgroundAlone(r, ConnectLeft(r));
            && s.connected && s.background.Resting? && HoldsConnection(s.handles)
            && !Untouched(s.trace, s.handles.websocket.value)
    decreases ConnectLeft(r)
  {
    var s := BackgroundStep(r, true);
    BackgroundAdvances(r);
    StepKeepsOwnership(r, BackgroundTurn(true));
    StepKeepsAccount(r, BackgroundTurn(true));
    StepKeepsTrace(r, BackgroundTurn(true));
    if r.background.StoringConnected? {
      assert BackgroundAlone(s, 0) == s;
    } else {
      Connects(s);
    }
  }

  /**
    From every reachable state without a connection, at most twenty-nine steps of the background thread in which
    nothing fails build one up and announce it, with the join sent on it.
   */
  lemma ConnectionIsBuilt(turns: seq<Turn>)
    requires !Exec(turns).connected
    ensures ConnectLeft(Exec(turns)) <= 29
    ensures var s := BackgroundAlone(Exec(turns), ConnectLeft(Exec(turns)));
            && s.connected && s.background.Resting? && HoldsConnection(s.handles)
            && !Untouched(s.trace, s.handles.websocket.value)
  {
    Ownership(turns);
    HandleAccounting(turns);
    JoinPrecedesPackets(turns);
    LeftIsBounded(Exec(turns));
    Connects(Exec(turns));
  }
}
