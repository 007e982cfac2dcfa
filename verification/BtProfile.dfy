/**
  The Bluetooth HID profile's sockets. Every kernel call may raise; which one raises is a parameter of
  the operation. The kernel's side is a count of sockets issued and a log of the sockets closed.
 */
module BtProfile {
  import opened Wrappers
  import opened CloseLog
  import opened ByteConversions

  /** The calls of `wait_for_connection` that can raise `OSError`, in program order. */
  datatype SocketCall =
    | CtrlSocket | CtrlSetsockopt | CtrlBind | CtrlListen
    | IntrSocket | IntrSetsockopt | IntrBind | IntrListen
    | CtrlAccept | IntrAccept

  /** `issued` sockets have been issued so far, numbered from 0. */
  datatype Profile = Profile(
    ctrlSock: Option<nat>, intrSock: Option<nat>,
    ctrlClient: Option<nat>, intrClient: Option<nat>,
    clientAddr: Option<string>, connected: bool,
    issued: nat, closed: seq<nat>)
  {
    predicate IsConnected() { connected && intrClient.Some? }
  }

  /** What the host sees: a connection, or a report on the interrupt channel's socket. */
  datatype HostEvent = Connected(peer: string) | Received(socket: nat, report: seq<Byte>)

  const FRESH := Profile(None, None, None, None, None, false, 0, [])

  // ---------------------------------------------------------------- transitions

  function AfterCloseClients(p: Profile): Profile {
    p.(ctrlClient := None, intrClient := None, clientAddr := None, connected := false,
       closed := Close(Close(p.closed, p.ctrlClient), p.intrClient))
  }

  function AfterCloseServers(p: Profile): Profile {
    p.(ctrlSock := None, intrSock := None, closed := Close(Close(p.closed, p.ctrlSock), p.intrSock))
  }

  function AfterDisconnect(p: Profile): Profile {
    AfterCloseServers(AfterCloseClients(p.(connected := false)))
  }

  function WithCtrlSock(p: Profile): Profile { p.(ctrlSock := Some(p.issued), issued := p.issued + 1) }

  function WithIntrSock(p: Profile): Profile { p.(intrSock := Some(p.issued), issued := p.issued + 1) }

  function WithCtrlClient(p: Profile): Profile { p.(ctrlClient := Some(p.issued), issued := p.issued + 1) }

  function WithIntrClient(p: Profile): Profile { p.(intrClient := Some(p.issued), issued := p.issued + 1) }

  /** `wait_for_connection` when the call `raises` fails, or none does; `addr` is the peer. */
  function AfterWait(p: Profile, raises: Option<SocketCall>, addr: string): Profile {
    var clean := AfterCloseClients(AfterCloseServers(p));
    var ctrl := WithCtrlSock(clean);
    var both := WithIntrSock(ctrl);
    match raises
    case Some(CtrlSocket) => AfterCloseServers(clean)
    case Some(CtrlSetsockopt) | Some(CtrlBind) | Some(CtrlListen) | Some(IntrSocket) => AfterCloseServers(ctrl)
    case Some(IntrSetsockopt) | Some(IntrBind) | Some(IntrListen) => AfterCloseServers(both)
    case Some(CtrlAccept) => AfterCloseClients(both)
    case Some(IntrAccept) => AfterCloseClients(WithCtrlClient(both))
    case None => WithIntrClient(WithCtrlClient(both)).(clientAddr := Some(addr), connected := true)
  }

  predicate SendSucceeds(p: Profile, raises: bool) { p.IsConnected() && !raises }

  function AfterSend(p: Profile, raises: bool): Profile {
    if p.IsConnected() && raises then p.(connected := false) else p
  }

  // ---------------------------------------------------------------- the object

  /** A HID input report: header, buttons, dx, dy, wheel, each one byte. */
  function PackReport(buttons: bv8, dx: int, dy: int): seq<Byte>
    requires -128 <= dx <= 127 && -128 <= dy <= 127
  {
    [0xA1, (buttons & 0x07) as int, SignedByte(dx), SignedByte(dy), 0]
  }

  function SignedByte(v: int): Byte
    requires -128 <= v <= 127
  {
    if v < 0 then v + 256 else v
  }

  /** What a host reads from a signed 8-bit field. */
  function FromSignedByte(b: Byte): int {
    if b >= 128 then b - 256 else b
  }

  /** The five bytes, read as a host reads them. */
  lemma HostReadsWhatWasPacked(buttons: bv8, dx: int, dy: int)
    requires -128 <= dx <= 127 && -128 <= dy <= 127
    ensures var report := PackReport(buttons, dx, dy);
            && |report| == 5 && report[0] == 0xA1 && report[4] == 0
            && report[1] < 8 && report[1] as bv8 == buttons & 0x07
            && FromSignedByte(report[2]) == dx && FromSignedByte(report[3]) == dy
  {
    LowButtons(buttons);
    ByteRoundTrip(buttons & 0x07);
  }

  lemma LowButtons(buttons: bv8)
    ensures (buttons & 0x07) as int < 8
  {
  }

  /** Two's complement: the only value in range that is the byte modulo 256. */
  lemma SignedBytesAreTwosComplement(b: Byte)
    ensures -128 <= FromSignedByte(b) <= 127 && (FromSignedByte(b) - b) % 256 == 0
  {
  }

  class BluetoothHIDProfile {
    var ctrlSock: Option<nat>
    var intrSock: Option<nat>
    var ctrlClient: Option<nat>
    var intrClient: Option<nat>
    var clientAddr: Option<string>
    var connected: bool
    // The kernel's side.
    var issued: nat
    var closed: seq<nat>
    ghost var seen: seq<HostEvent>

    ghost function Contents(): Profile
      reads this
    {
      Profile(ctrlSock, intrSock, ctrlClient, intrClient, clientAddr, connected, issued, closed)
    }

    constructor ()
      ensures Contents() == FRESH && seen == []
    {
      ctrlSock, intrSock, ctrlClient, intrClient := None, None, None, None;
      clientAddr, connected := None, false;
      issued, closed, seen := 0, [], [];
    }

    method OpenSocket() returns (socket: nat)
      modifies this`issued
      ensures socket == old(issued) && issued == old(issued) + 1
    {
      socket := issued;
      issued := issued + 1;
    }

    method CloseClientSockets()
      modifies this
      ensures Contents() == AfterCloseClients(old(Contents())) && seen == old(seen)
    {
      if ctrlClient.Some? {
        closed := closed + [ctrlClient.value];
      }
      if intrClient.Some? {
        closed := closed + [intrClient.value];
      }
      ctrlClient := None;
      intrClient := None;
      clientAddr := None;
      connected := false;
    }

    method CloseServerSockets()
      modifies this
      ensures Contents() == AfterCloseServers(old(Contents())) && seen == old(seen)
    {
      if ctrlSock.Some? {
        closed := closed + [ctrlSock.value];
      }
      if intrSock.Some? {
        closed := closed + [intrSock.value];
      }
      ctrlSock := None;
      intrSock := None;
    }

    /** Creates both listening sockets; false when one of the eight calls raised. */
    method Listen(raises: Option<SocketCall>) returns (ok: bool)
      requires ctrlSock == None && intrSock == None
      modifies this
      ensures ok == (raises == None || raises.value.CtrlAccept? || raises.value.IntrAccept?)
      ensures seen == old(seen)
      ensures Contents() ==
        if ok then WithIntrSock(WithCtrlSock(old(Contents())))
        else if raises.value.CtrlSocket? then old(Contents())
        else if raises.value.IntrSetsockopt? || raises.value.IntrBind? || raises.value.IntrListen? then
          WithIntrSock(WithCtrlSock(old(Contents())))
        else WithCtrlSock(old(Contents()))
    {
      if raises == Some(CtrlSocket) { return false; }
      var socket := OpenSocket();
      ctrlSock := Some(socket);
      if raises == Some(CtrlSetsockopt) || raises == Some(CtrlBind) || raises == Some(CtrlListen) {
        return false;
      }
      if raises == Some(IntrSocket) { return false; }
      socket := OpenSocket();
      intrSock := Some(socket);
      if raises == Some(IntrSetsockopt) || raises == Some(IntrBind) || raises == Some(IntrListen) {
        return false;
      }
      return true;
    }

    method WaitForConnection(raises: Option<SocketCall>, addr: string) returns (ok: bool)
      modifies this
      ensures ok == raises.None?
      ensures Contents() == AfterWait(old(Contents()), raises, addr)
      ensures seen == if ok then old(seen) + [Connected(addr)] else old(seen)
    {
      CloseServerSockets();
      CloseClientSockets();
      var listening := Listen(raises);
      if !listening {
        CloseServerSockets();
        return false;
      }
      ok := Accept(raises, addr);
    }

    /** Accepts the control and then the interrupt connection. */
    method Accept(raises: Option<SocketCall>, addr: string) returns (ok: bool)
      requires raises == None || raises == Some(CtrlAccept) || raises == Some(IntrAccept)
      modifies this
      ensures ok == raises.None?
      ensures Contents() ==
        if ok then WithIntrClient(WithCtrlClient(old(Contents()))).(clientAddr := Some(addr), connected := true)
        else AfterCloseClients(if raises.value.CtrlAccept? then old(Contents()) else WithCtrlClient(old(Contents())))
      ensures seen == if ok then old(seen) + [Connected(addr)] else old(seen)
    {
      if raises == Some(CtrlAccept) {
        CloseClientSockets();
        return false;
      }
      var client := OpenSocket();
      ctrlClient := Some(client);
      if raises == Some(IntrAccept) {
        CloseClientSockets();
        return false;
      }
      client := OpenSocket();
      intrClient := Some(client);
      clientAddr := Some(addr);
      connected := true;
      seen := seen + [Connected(addr)];
      return true;
    }

    /** `raises` says whether the socket's `send` fails; packing demands that both motions fit a signed byte. */
    method SendReport(buttons: bv8, dx: int, dy: int, raises: bool) returns (ok: bool)
      requires -128 <= dx <= 127 && -128 <= dy <= 127
      modifies this
      ensures ok == SendSucceeds(old(Contents()), raises)
      ensures connected == (old(connected) && (old(intrClient).None? || !raises))
      ensures Contents() == AfterSend(old(Contents()), raises)
      ensures ok ==> old(intrClient).Some?
      ensures seen == if ok then old(seen) + [Received(old(intrClient).value, PackReport(buttons, dx, dy))]
                      else old(seen)
    {
      if !connected || intrClient == None {
        return false;
      }
      if raises {
        connected := false;
        return false;
      }
      seen := seen + [Received(intrClient.value, PackReport(buttons, dx, dy))];
      return true;
    }

    method Disconnect()
      modifies this
      ensures Contents() == AfterDisconnect(old(Contents())) && seen == old(seen)
    {
      connected := false;
      CloseClientSockets();
      CloseServerSockets();
    }

    method IsConnected() returns (b: bool)
      ensures b == Contents().IsConnected()
    {
      b := connected && intrClient != None;
    }
  }

  // ---------------------------------------------------------------- socket accounting

  /** In how many of the four fields `socket` is. */
  function TimesHeld(p: Profile, socket: nat): nat {
    (if p.ctrlSock == Some(socket) then 1 else 0) + (if p.intrSock == Some(socket) then 1 else 0)
    + (if p.ctrlClient == Some(socket) then 1 else 0) + (if p.intrClient == Some(socket) then 1 else 0)
  }

  ghost predicate HoldsNone(p: Profile) {
    p.ctrlSock.None? && p.intrSock.None? && p.ctrlClient.None? && p.intrClient.None?
  }

  /**
    Every socket ever issued is either closed once or held in exactly one field, nothing else is held
    or closed, and a connected profile has both clients.
   */
  ghost predicate Accounted(p: Profile) {
    && (forall socket: nat ::
          TimesClosed(p.closed, socket) + TimesHeld(p, socket) == if socket < p.issued then 1 else 0)
    && (p.connected ==> p.ctrlClient.Some? && p.intrClient.Some?)
  }

  lemma CloseClientsKeepsAccount(p: Profile)
    requires Accounted(p)
    ensures Accounted(AfterCloseClients(p))
  {
    forall socket: nat
      ensures TimesClosed(AfterCloseClients(p).closed, socket) + TimesHeld(AfterCloseClients(p), socket)
           == TimesClosed(p.closed, socket) + TimesHeld(p, socket)
    {
      TimesClosedAppend(p.closed, p.ctrlClient, socket);
      TimesClosedAppend(Close(p.closed, p.ctrlClient), p.intrClient, socket);
    }
  }

  lemma CloseServersKeepsAccount(p: Profile)
    requires Accounted(p)
    ensures Accounted(AfterCloseServers(p))
  {
    forall socket: nat
      ensures TimesClosed(AfterCloseServers(p).closed, socket) + TimesHeld(AfterCloseServers(p), socket)
           == TimesClosed(p.closed, socket) + TimesHeld(p, socket)
    {
      TimesClosedAppend(p.closed, p.ctrlSock, socket);
      TimesClosedAppend(Close(p.closed, p.ctrlSock), p.intrSock, socket);
    }
  }

  /** After `disconnect` every socket ever issued has been closed exactly once. */
  lemma DisconnectClosesEverything(p: Profile)
    requires Accounted(p)
    ensures Accounted(AfterDisconnect(p)) && HoldsNone(AfterDisconnect(p))
    ensures forall socket: nat ::
              TimesClosed(AfterDisconnect(p).closed, socket) == if socket < p.issued then 1 else 0
  {
    CloseClientsKeepsAccount(p.(connected := false));
    CloseServersKeepsAccount(AfterCloseClients(p.(connected := false)));
  }

  lemma OpenKeepsAccount(p: Profile)
    requires Accounted(p)
    ensures p.ctrlSock.None? ==> Accounted(WithCtrlSock(p))
    ensures p.intrSock.None? ==> Accounted(WithIntrSock(p))
    ensures p.ctrlClient.None? ==> Accounted(WithCtrlClient(p))
    ensures p.intrClient.None? ==> Accounted(WithIntrClient(p))
  {
    assert TimesHeld(p, p.issued) == 0;
    forall socket: nat
      ensures p.ctrlSock.None? ==>
                TimesHeld(WithCtrlSock(p), socket) == TimesHeld(p, socket) + if socket == p.issued then 1 else 0
      ensures p.intrSock.None? ==>
                TimesHeld(WithIntrSock(p), socket) == TimesHeld(p, socket) + if socket == p.issued then 1 else 0
      ensures p.ctrlClient.None? ==>
                TimesHeld(WithCtrlClient(p), socket) == TimesHeld(p, socket) + if socket == p.issued then 1 else 0
      ensures p.intrClient.None? ==>
                TimesHeld(WithIntrClient(p), socket) == TimesHeld(p, socket) + if socket == p.issued then 1 else 0
    {
    }
  }

  /** Whichever call fails, the accounts stay exact. */
  lemma WaitKeepsAccount(p: Profile, raises: Option<SocketCall>, addr: string)
    requires Accounted(p)
    ensures Accounted(AfterWait(p, raises, addr))
  {
    CloseServersKeepsAccount(p);
    CloseClientsKeepsAccount(AfterCloseServers(p));
    var clean := AfterCloseClients(AfterCloseServers(p));
    OpenKeepsAccount(clean);
    var ctrl := WithCtrlSock(clean);
    OpenKeepsAccount(ctrl);
    var both := WithIntrSock(ctrl);
    OpenKeepsAccount(both);
    var client := WithCtrlClient(both);
    if raises.None? {
      OpenKeepsAccount(client);
    } else {
      CloseServersKeepsAccount(clean);
      CloseServersKeepsAccount(ctrl);
      CloseServersKeepsAccount(both);
      CloseClientsKeepsAccount(both);
      CloseClientsKeepsAccount(client);
    }
  }

  /**
    Success holds all four sockets, a failed setup holds none, and a failed accept keeps only the two
    listening sockets.
   */
  lemma WaitOutcome(p: Profile, raises: Option<SocketCall>, addr: string)
    ensures var q := AfterWait(p, raises, addr);
            var accepting := raises.None? || raises.value.CtrlAccept? || raises.value.IntrAccept?;
            && (q.IsConnected() <==> raises.None?)
            && (q.ctrlSock.Some? <==> accepting) && (q.intrSock.Some? <==> accepting)
            && (q.ctrlClient.Some? <==> raises.None?) && (q.intrClient.Some? <==> raises.None?)
            && q.clientAddr == if raises.None? then Some(addr) else None
  {
    if raises.Some? {
      match raises.value
      case CtrlSocket =>
      case CtrlSetsockopt | CtrlBind | CtrlListen | IntrSocket =>
      case IntrSetsockopt | IntrBind | IntrListen =>
      case CtrlAccept | IntrAccept =>
    }
  }

  /** The sockets are created control before interrupt and servers before clients. */
  lemma WaitOpensInOrder(p: Profile, addr: string)
    ensures var q, n := AfterWait(p, None, addr), p.issued;
            && q.ctrlSock == Some(n) && q.intrSock == Some(n + 1)
            && q.ctrlClient == Some(n + 2) && q.intrClient == Some(n + 3) && q.issued == n + 4
  {
  }

  /** A disconnect closes the clients before the servers, a new wait the servers before the clients. */
  lemma ClosingOrder(p: Profile, a: nat, b: nat, c: nat, d: nat, addr: string)
    requires p.ctrlSock == Some(a) && p.intrSock == Some(b) && p.ctrlClient == Some(c) && p.intrClient == Some(d)
    ensures AfterDisconnect(p).closed == p.closed + [c, d, a, b]
    ensures AfterWait(p, None, addr).closed == p.closed + [a, b, c, d]
  {
  }
}
