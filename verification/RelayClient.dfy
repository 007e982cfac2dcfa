/**
  The relay client as it is written, one thread at a time: every method is shown to be a run of the
  two-thread machine of `RelayHandoff`, so what holds of all its runs holds here.
 */
module RelayClient {
  import opened Wrappers
  import opened RelayHandoff

  /** The WinHTTP calls of `do_connect` that can fail. */
  datatype Call = Open | ConnectHost | OpenRequest | SetUpgrade | SendRequest | ReceiveResponse | CompleteUpgrade

  class Client {
    var websocket: Option<nat>
    var request: Option<nat>
    var connect: Option<nat>
    var session: Option<nat>
    var connected: bool
    var packetsSent: nat
    // WinHTTP's side: handles issued, handles closed, messages sent.
    var issued: nat
    ghost var closed: seq<nat>
    ghost var trace: seq<Message>
    ghost var turns: seq<Turn>

    ghost function Fields(): Handles
      reads this
    {
      Handles(websocket, request, connect, session)
    }

    /** The fields are those of the machine after `turns`, with the two threads at the given points. */
    ghost predicate At(background: Background, hook: HookThread)
      reads this
    {
      Exec(turns) == Relay(Fields(), connected, background, hook, issued, closed, trace)
    }

    constructor ()
      ensures At(LoadConnected, Idle) && HoldsNone(Fields()) && !connected
    {
      websocket, request, connect, session := None, None, None, None;
      connected, packetsSent := false, 0;
      issued, closed, trace, turns := 0, [], [], [];
    }

    /** Records one step of the machine. */
    ghost method Advance(turn: Turn)
      modifies this`turns
      ensures Exec(turns) == Step(Exec(old(turns)), turn)
    {
      var longer := turns + [turn];
      assert longer[..|turns|] == turns;
      turns := longer;
    }

    method CloseWebSocketSlot(ghost next: Then)
      requires At(Closing(WebSocket, next), Idle)
      modifies this
      ensures At(Closing(Request, next), Idle)
      ensures Fields() == old(Fields()).(websocket := None) && connected == old(connected)
    {
      if websocket.Some? {
        closed := closed + [websocket.value];
        Advance(BackgroundTurn(true));
        websocket := None;
      }
      Advance(BackgroundTurn(true));
    }

    method CloseRequestSlot(ghost next: Then)
      requires At(Closing(Request, next), Idle)
      modifies this
      ensures At(Closing(Connect, next), Idle)
      ensures Fields() == old(Fields()).(request := None) && connected == old(connected)
    {
      if request.Some? {
        closed := closed + [request.value];
        Advance(BackgroundTurn(true));
        request := None;
      }
      Advance(BackgroundTurn(true));
    }

    method CloseConnectSlot(ghost next: Then)
      requires At(Closing(Connect, next), Idle)
      modifies this
      ensures At(Closing(Session, next), Idle)
      ensures Fields() == old(Fields()).(connect := None) && connected == old(connected)
    {
      if connect.Some? {
        closed := closed + [connect.value];
        Advance(BackgroundTurn(true));
        connect := None;
      }
      Advance(BackgroundTurn(true));
    }

    method CloseSessionSlot(ghost next: Then)
      requires At(Closing(Session, next), Idle)
      modifies this
      ensures At(AfterSlot(Session, next), Idle)
      ensures Fields() == old(Fields()).(session := None) && connected == old(connected)
    {
      if session.Some? {
        closed := closed + [session.value];
        Advance(BackgroundTurn(true));
        session := None;
      }
      Advance(BackgroundTurn(true));
    }

    method CloseHandles(ghost next: Then)
      requires At(Closing(WebSocket, next), Idle)
      modifies this
      ensures At(AfterSlot(Session, next), Idle) && HoldsNone(Fields()) && connected == old(connected)
    {
      CloseWebSocketSlot(next);
      CloseRequestSlot(next);
      CloseConnectSlot(next);
      CloseSessionSlot(next);
    }

    method NewHandle() returns (handle: nat)
      modifies this`issued
      ensures handle == old(issued) && issued == old(issued) + 1
    {
      handle := issued;
      issued := issued + 1;
    }

    method OpenSession(succeeds: bool) returns (ok: bool)
      requires At(OpeningSession, Idle)
      modifies this
      ensures ok == succeeds && connected == old(connected)
      ensures if ok then At(Connecting, Idle) else At(Closing(WebSocket, TryLater), Idle) && HoldsNone(Fields())
    {
      Ownership(turns);
      if succeeds {
        var handle := NewHandle();
        session := Some(handle);
      }
      Advance(BackgroundTurn(succeeds));
      ok := succeeds;
    }

    method OpenConnection(succeeds: bool) returns (ok: bool)
      requires At(Connecting, Idle)
      modifies this
      ensures ok == succeeds && connected == old(connected)
      ensures if ok then At(OpeningRequest, Idle) else At(Closing(WebSocket, TryLater), Idle) && HoldsNone(Fields())
    {
      if succeeds {
        var handle := NewHandle();
        connect := Some(handle);
      }
      Advance(BackgroundTurn(succeeds));
      ok := succeeds;
      if !ok {
        CloseHandles(GiveUp);
      }
    }

    method OpenTheRequest(succeeds: bool) returns (ok: bool)
      requires At(OpeningRequest, Idle)
      modifies this
      ensures ok == succeeds && connected == old(connected)
      ensures if ok then At(SettingUpgrade, Idle) else At(Closing(WebSocket, TryLater), Idle) && HoldsNone(Fields())
    {
      if succeeds {
        var handle := NewHandle();
        request := Some(handle);
      }
      Advance(BackgroundTurn(succeeds));
      ok := succeeds;
      if !ok {
        CloseHandles(GiveUp);
      }
    }

    /** The calls that set the upgrade option, send the request and receive the response. */
    method UseRequest(ghost background: Background, succeeds: bool) returns (ok: bool)
      requires background.SettingUpgrade? || background.SendingRequest? || background.ReceivingResponse?
      requires At(background, Idle)
      modifies this
      ensures ok == succeeds && connected == old(connected)
      ensures ok ==> At(if background.SettingUpgrade? then SendingRequest
                        else if background.SendingRequest? then ReceivingResponse
                        else CompletingUpgrade, Idle)
      ensures !ok ==> At(Closing(WebSocket, TryLater), Idle) && HoldsNone(Fields())
    {
      Advance(BackgroundTurn(succeeds));
      ok := succeeds;
      if !ok {
        CloseHandles(GiveUp);
      }
    }

    /** The upgrade's last call, after which the request handle is closed. */
    method FinishUpgrade(succeeds: bool) returns (ok: bool)
      requires At(CompletingUpgrade, Idle)
      modifies this
      ensures ok == succeeds && connected == old(connected)
      ensures if ok then At(Joining, Idle) else At(Closing(WebSocket, TryLater), Idle) && HoldsNone(Fields())
    {
      if succeeds {
        var handle := NewHandle();
        websocket := Some(handle);
      }
      Advance(BackgroundTurn(succeeds));
      ok := succeeds;
      if ok {
        CloseRequest();
      } else {
        CloseHandles(GiveUp);
      }
    }

    method CloseRequest()
      requires At(ClosingRequest, Idle)
      modifies this
      ensures At(Joining, Idle) && connected == old(connected)
    {
      Ownership(turns);
      closed := closed + [request.value];
      Advance(BackgroundTurn(true));
      request := None;
      Advance(BackgroundTurn(true));
    }

    method DoConnect(fails: Option<Call>) returns (ok: bool)
      requires At(Closing(WebSocket, OpenNext), Idle)
      modifies this
      ensures ok == fails.None? && connected == old(connected)
      ensures if ok then At(Joining, Idle) else At(Closing(WebSocket, TryLater), Idle) && HoldsNone(Fields())
    {
      CloseHandles(OpenNext);
      assert fails.None? || fails.value.Open? || fails.value.ConnectHost? || fails.value.OpenRequest?
             || fails.value.SetUpgrade? || fails.value.SendRequest? || fails.value.ReceiveResponse?
             || fails.value.CompleteUpgrade?;
      ok := OpenSession(fails != Some(Open));
      if ok {
        ok := OpenConnection(fails != Some(ConnectHost));
      }
      if ok {
        ok := OpenTheRequest(fails != Some(OpenRequest));
      }
      if ok {
        ok := UseRequest(SettingUpgrade, fails != Some(SetUpgrade));
      }
      if ok {
        ok := UseRequest(SendingRequest, fails != Some(SendRequest));
      }
      if ok {
        ok := UseRequest(ReceivingResponse, fails != Some(ReceiveResponse));
      }
      if ok {
        ok := FinishUpgrade(fails != Some(CompleteUpgrade));
      }
    }

    method SendJoin(succeeds: bool) returns (ok: bool)
      requires At(Joining, Idle)
      modifies this`trace, this`turns
      ensures ok == succeeds
      ensures At(if ok then StoringConnected else Closing(WebSocket, TryLater), Idle)
      ensures websocket.Some? && trace == if ok then old(trace) + [Join(websocket.value)] else old(trace)
    {
      Ownership(turns);
      if succeeds {
        trace := trace + [Join(websocket.value)];
      }
      Advance(BackgroundTurn(succeeds));
      ok := succeeds;
    }

    /** A whole connection attempt: connected with exactly three handles, or with none at all. */
    method Attempt(fails: Option<Call>, joinSucceeds: bool)
      requires At(Closing(WebSocket, OpenNext), Idle) && !connected
      modifies this
      ensures At(Resting, Idle)
      ensures connected == (fails.None? && joinSucceeds)
      ensures if connected then HoldsConnection(Fields()) else HoldsNone(Fields())
    {
      var ok := DoConnect(fails);
      if ok {
        ok := SendJoin(joinSucceeds);
      }
      if ok {
        connected := true;
        Advance(BackgroundTurn(true));
      } else {
        CloseHandles(TryLater);
      }
      Ownership(turns);
    }

    /** One iteration of `connect_loop`; while connected it does nothing. */
    method ConnectOnce(fails: Option<Call>, joinSucceeds: bool)
      requires At(LoadConnected, Idle)
      modifies this
      ensures At(LoadConnected, Idle)
      ensures connected == (old(connected) || (fails.None? && joinSucceeds))
      ensures if connected then HoldsConnection(Fields()) else HoldsNone(Fields())
      ensures old(connected) ==> Fields() == old(Fields())
    {
      Ownership(turns);
      Advance(BackgroundTurn(true));
      if !connected {
        Attempt(fails, joinSucceeds);
      }
      Advance(BackgroundTurn(true));
    }

    /** `connect_loop` with the hook idle, one entry per iteration. */
    method ConnectLoop(attempts: seq<(Option<Call>, bool)>)
      requires At(LoadConnected, Idle)
      modifies this
      ensures At(LoadConnected, Idle)
      ensures connected <==> old(connected) || exists i | 0 <= i < |attempts| :: attempts[i].0.None? && attempts[i].1
      ensures |attempts| > 0 && !connected ==> HoldsNone(Fields())
    {
      for i := 0 to |attempts|
        invariant At(LoadConnected, Idle)
        invariant connected <==> old(connected) || exists j | 0 <= j < i :: attempts[j].0.None? && attempts[j].1
        invariant i > 0 && !connected ==> HoldsNone(Fields())
      {
        ConnectOnce(attempts[i].0, attempts[i].1);
      }
    }

    /** The two loads of the flag, in `is_connected` and at the head of `send_packet`. */
    method AskTwice() returns (b: bool)
      requires At(LoadConnected, Idle)
      modifies this`turns
      ensures b == connected && At(LoadConnected, if b then TestingSocket else Idle)
    {
      Advance(HookTurn(true));
      Advance(HookTurn(true));
      b := connected;
      if b {
        Advance(HookTurn(true));
      }
    }

    /** The hook's `is_connected` followed by `send_packet`: false when not connected or when the send fails. */
    method SendPacket(succeeds: bool) returns (ok: bool)
      requires At(LoadConnected, Idle)
      modifies this
      ensures At(LoadConnected, Idle) && Fields() == old(Fields())
      ensures ok == (old(connected) && succeeds) && connected == ok
      ensures packetsSent == old(packetsSent) + if ok then 1 else 0
      ensures old(connected) ==> websocket.Some? && trace == old(trace) + [Binary(websocket.value)]
      ensures !old(connected) ==> trace == old(trace)
    {
      ok := AskTwice();
      if ok {
        Ownership(turns);
        Advance(HookTurn(succeeds));
        Advance(HookTurn(succeeds));
        ok := Transmit(succeeds);
      }
    }

    /** The call to the WebSocket and what follows its result. */
    method Transmit(succeeds: bool) returns (ok: bool)
      requires websocket.Some? && At(LoadConnected, Sending(websocket)) && connected
      modifies this
      ensures At(LoadConnected, Idle) && Fields() == old(Fields())
      ensures ok == succeeds && connected == ok
      ensures packetsSent == old(packetsSent) + if ok then 1 else 0
      ensures trace == old(trace) + [Binary(websocket.value)]
    {
      trace := trace + [Binary(websocket.value)];
      Advance(HookTurn(succeeds));
      if succeeds {
        packetsSent := packetsSent + 1;
      } else {
        connected := false;
        Advance(HookTurn(true));
      }
      ok := succeeds;
    }
  }
}
