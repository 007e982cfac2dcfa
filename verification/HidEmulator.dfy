/**
  The emulator's main thread: the outer reconnection loop, the inner dispatch loop and the shutdown,
  with the two producer threads, the signal handler and the Bluetooth host around it. A script lists
  what happens in order; the main thread's own steps carry the outcomes of the kernel calls they make.
  Every finite run, with any failures and any interleaving, is the run of some script.
 */
module HidEmulator {
  import opened Wrappers
  import opened AxisQueue
  import opened Merger
  import opened ByteConversions
  import opened BtProfile

  /** The next place at which the main thread looks at state others may change. */
  datatype Pc =
    | Outer    // head of the reconnection loop
    | Session  // head of the dispatch loop
    | Ending   // after the dispatch loop
    | Stopped  // after shutdown

  /** What the reports received so far amount to; the buttons are those of the current connection. */
  datatype Host = Host(x: int, y: int, buttons: bv8) {
    function Position(axis: Axis): int { if axis.X? then x else y }
  }

  datatype System = System(
    pc: Pc, running: bool, merger: Fields, profile: Profile, lastButtons: bv8,
    host: Host, sent: seq<Report>, failed: seq<Report>, sessions: nat)

  datatype Event =
    | Input(dx: int, dy: int, buttons: bv8, source: Source)  // a producer's call to `accumulate`
    | Signal                                                // SIGINT or SIGTERM
    | MainThread(raises: Option<SocketCall>, addr: string, sendRaises: bool)

  const INITIAL := System(Outer, true, EMPTY, FRESH, 0, Host(0, 0, 0), [], [], 0)

  function Receive(host: Host, r: Report): Host {
    Host(host.x + r.dx, host.y + r.dy, r.buttons & 0x07)
  }

  /** Whether the dispatcher sends `r` at all. */
  predicate WorthSending(r: Report, lastButtons: bv8) {
    r.dx != 0 || r.dy != 0 || r.buttons != lastButtons
  }

  // ---------------------------------------------------------------- steps of the main thread

  function Connecting(s: System, raises: Option<SocketCall>, addr: string): System {
    var s' := s.(profile := AfterWait(s.profile, raises, addr));
    if raises.Some? then s'
    else s'.(pc := Session, lastButtons := 0, host := s.host.(buttons := 0), sessions := s.sessions + 1)
  }

  /** `send_report` on the report just flushed. */
  function Sending(s: System, r: Report, sendRaises: bool): System {
    var s' := s.(profile := AfterSend(s.profile, sendRaises));
    if SendSucceeds(s.profile, sendRaises) then
      s'.(lastButtons := r.buttons, host := Receive(s.host, r), sent := s.sent + [r])
    else
      s'.(pc := Ending, failed := s.failed + [r])
  }

  function Flushed(s: System): System { s.(merger := AfterFlush(s.merger)) }

  /** One iteration of the dispatch loop. */
  function Ticking(s: System, sendRaises: bool): System {
    var r := FlushReport(s.merger);
    if WorthSending(r, s.lastButtons) then Sending(Flushed(s), r, sendRaises) else Flushed(s)
  }

  function MainStep(s: System, e: Event): System
    requires e.MainThread?
  {
    match s.pc
    case Outer =>
      if s.running then Connecting(s, e.raises, e.addr)
      else s.(pc := Stopped, profile := AfterDisconnect(s.profile))
    case Session =>
      if s.running && s.profile.IsConnected() then Ticking(s, e.sendRaises) else s.(pc := Ending)
    case Ending =>
      if s.running then s.(pc := Outer, profile := AfterDisconnect(s.profile), lastButtons := 0)
      else s.(pc := Outer)
    case Stopped => s
  }

  function Step(s: System, e: Event): System {
    match e
    case Input(dx, dy, buttons, source) => s.(merger := AfterAccumulate(s.merger, dx, dy, buttons, source))
    case Signal => s.(running := false)
    case MainThread(_, _, _) => MainStep(s, e)
  }

  function Exec(s: System, script: seq<Event>): System {
    if |script| == 0 then s else Step(Exec(s, script[..|script| - 1]), script[|script| - 1])
  }

  lemma ExecNext(s: System, script: seq<Event>, i: nat)
    requires i < |script|
    ensures Exec(s, script[..i + 1]) == Step(Exec(s, script[..i]), script[i])
  {
    assert script[..i + 1][..i] == script[..i];
  }

  lemma {:induction false} ExecConcat(s: System, a: seq<Event>, b: seq<Event>)
    ensures Exec(s, a + b) == Exec(Exec(s, a), b)
  {
    if |b| == 0 {
      assert a + b == a;
    } else {
      ExecConcat(s, a, b[..|b| - 1]);
      assert (a + b)[..|a + b| - 1] == a + b[..|b| - 1];
    }
  }

  // ---------------------------------------------------------------- what the host sees

  /** The host's view of what it receives: a new connection has no button down, reports move the cursor. */
  function Decoded(seen: seq<HostEvent>): Host {
    if |seen| == 0 then Host(0, 0, 0)
    else
      var before := Decoded(seen[..|seen| - 1]);
      match seen[|seen| - 1]
      case Connected(_) => before.(buttons := 0)
      case Received(_, report) =>
        if |report| != 5 || report[0] != 0xA1 then before
        else Host(before.x + FromSignedByte(report[2]), before.y + FromSignedByte(report[3]), report[1] as bv8)
  }

  /** The reports the host received, as bytes. */
  function Frames(seen: seq<HostEvent>): seq<seq<Byte>> {
    if |seen| == 0 then []
    else
      var before := Frames(seen[..|seen| - 1]);
      if seen[|seen| - 1].Received? then before + [seen[|seen| - 1].report] else before
  }

  function Connections(seen: seq<HostEvent>): nat {
    if |seen| == 0 then 0
    else Connections(seen[..|seen| - 1]) + if seen[|seen| - 1].Connected? then 1 else 0
  }

  /** The five bytes carry the report: header, buttons, dx, dy, wheel. */
  predicate Carries(bytes: seq<Byte>, r: Report) {
    && |bytes| == 5 && bytes[0] == 0xA1 && bytes[1] as bv8 == r.buttons & 0x07
    && FromSignedByte(bytes[2]) == r.dx && FromSignedByte(bytes[3]) == r.dy && bytes[4] == 0
  }

  ghost predicate AllCarried(frames: seq<seq<Byte>>, reports: seq<Report>) {
    |frames| == |reports| && forall i | 0 <= i < |frames| :: Carries(frames[i], reports[i])
  }

  /** The bytes on the interrupt channel are the reports sent, and the host is what they make of it. */
  ghost predicate Delivered(seen: seq<HostEvent>, host: Host, sent: seq<Report>, sessions: nat) {
    AllCarried(Frames(seen), sent) && host == Decoded(seen) && sessions == Connections(seen)
  }

  lemma ConnectionIsSeen(seen: seq<HostEvent>, host: Host, sent: seq<Report>, sessions: nat, addr: string)
    requires Delivered(seen, host, sent, sessions)
    ensures Delivered(seen + [Connected(addr)], host.(buttons := 0), sent, sessions + 1)
  {
    assert (seen + [Connected(addr)])[..|seen|] == seen;
  }

  lemma ReceivedNext(seen: seq<HostEvent>, socket: nat, bytes: seq<Byte>, r: Report)
    requires Carries(bytes, r)
    ensures Decoded(seen + [Received(socket, bytes)]) == Receive(Decoded(seen), r)
    ensures Frames(seen + [Received(socket, bytes)]) == Frames(seen) + [bytes]
    ensures Connections(seen + [Received(socket, bytes)]) == Connections(seen)
  {
    assert (seen + [Received(socket, bytes)])[..|seen|] == seen;
  }

  lemma ReportIsSeen(
    seen: seq<HostEvent>, host: Host, sent: seq<Report>, sessions: nat, r: Report, socket: nat, bytes: seq<Byte>)
    requires Delivered(seen, host, sent, sessions) && Carries(bytes, r)
    ensures Delivered(seen + [Received(socket, bytes)], Receive(host, r), sent + [r], sessions)
  {
    ReceivedNext(seen, socket, bytes, r);
  }

  lemma PackedIsCarried(r: Report)
    requires -LIMIT <= r.dx <= LIMIT && -LIMIT <= r.dy <= LIMIT
    ensures Carries(PackReport(r.buttons, r.dx, r.dy), r)
  {
    HostReadsWhatWasPacked(r.buttons, r.dx, r.dy);
  }

  // ---------------------------------------------------------------- the program

  class Emulator {
    const merger: InputMerger
    const profile: BluetoothHIDProfile
    var running: bool
    var lastButtons: bv8
    ghost var pc: Pc
    ghost var host: Host
    ghost var sent: seq<Report>
    ghost var failed: seq<Report>
    ghost var sessions: nat

    ghost function Contents(): System
      reads this, merger, profile
    {
      System(pc, running, merger.Contents(), profile.Contents(), lastButtons, host, sent, failed, sessions)
    }

    ghost predicate Wired()
      reads this, merger, profile
    {
      Delivered(profile.seen, host, sent, sessions)
    }

    constructor ()
      ensures Contents() == INITIAL && Wired() && fresh(merger) && fresh(profile)
    {
      merger := new InputMerger();
      profile := new BluetoothHIDProfile();
      running, lastButtons := true, 0;
      pc, host, sent, failed, sessions := Outer, Host(0, 0, 0), [], [], 0;
    }

    /** The emulator is where the first `i` events of the script lead; the main thread is due next. */
    ghost predicate Reached(script: seq<Event>, i: nat)
      reads this, merger, profile
    {
      i <= |script| && Wired() && Contents() == Exec(INITIAL, script[..i]) && (i < |script| ==> script[i].MainThread?)
    }

    /** The other threads act until the main thread moves next, or the script ends. */
    method OthersAct(script: seq<Event>, start: nat) returns (next: nat)
      requires start <= |script| && Wired() && Contents() == Exec(INITIAL, script[..start])
      modifies merger, this`running
      ensures start <= next && Reached(script, next)
    {
      next := start;
      while next < |script| && !script[next].MainThread?
        invariant start <= next <= |script| && Wired() && Contents() == Exec(INITIAL, script[..next])
      {
        ExecNext(INITIAL, script, next);
        match script[next] {
          case Input(dx, dy, buttons, source) =>
            merger.Accumulate(dx, dy, buttons, if source.Network? then "network" else "local");
          case Signal =>
            running := false;
        }
        next := next + 1;
      }
    }

    method Send(r: Report, sendRaises: bool) returns (ok: bool)
      requires Wired() && pc.Session? && -LIMIT <= r.dx <= LIMIT && -LIMIT <= r.dy <= LIMIT
      modifies this, profile
      ensures Wired() && Contents() == Sending(old(Contents()), r, sendRaises)
      ensures ok <==> pc.Session?
    {
      ghost var seen, socket := profile.seen, profile.intrClient;
      ok := profile.SendReport(r.buttons, r.dx, r.dy, sendRaises);
      if ok {
        lastButtons := r.buttons;
        PackedIsCarried(r);
        ReportIsSeen(seen, host, sent, sessions, r, socket.value, PackReport(r.buttons, r.dx, r.dy));
        host, sent := Receive(host, r), sent + [r];
      } else {
        pc, failed := Ending, failed + [r];
      }
    }

    /** Flushes the merger and, when there is something to say, sends the report; false when that fails. */
    method Tick(sendRaises: bool) returns (ok: bool)
      requires Wired() && pc.Session?
      modifies this, merger, profile
      ensures Wired() && Contents() == Ticking(old(Contents()), sendRaises)
      ensures ok <==> pc.Session?
    {
      var r := merger.Flush();
      ok := SendIfNew(r, sendRaises);
    }

    /** A report is only sent when there is motion or the buttons have changed. */
    method SendIfNew(r: Report, sendRaises: bool) returns (ok: bool)
      requires Wired() && pc.Session? && -LIMIT <= r.dx <= LIMIT && -LIMIT <= r.dy <= LIMIT
      modifies this, profile
      ensures Wired() && ok == pc.Session?
      ensures Contents() == if r.dx != 0 || r.dy != 0 || r.buttons != old(lastButtons)
                            then Sending(old(Contents()), r, sendRaises) else old(Contents())
    {
      ok := true;
      if r.dx != 0 || r.dy != 0 || r.buttons != lastButtons {
        ok := Send(r, sendRaises);
      }
    }

    /** The dispatch loop of one session, up to the end of the script. */
    method Dispatch(script: seq<Event>, start: nat) returns (next: nat)
      requires Reached(script, start) && pc.Session?
      modifies this, merger, profile
      ensures start <= next && Reached(script, next)
      ensures next < |script| ==> pc.Ending?
    {
      next := start;
      var ok := true;
      while next < |script| && ok
        invariant start <= next && Reached(script, next)
        invariant if ok then pc.Session? else pc.Ending?
        decreases |script| - next
      {
        ok, next := Turn(script, next);
      }
    }

    method Turn(script: seq<Event>, start: nat) returns (ok: bool, next: nat)
      requires start < |script| && Reached(script, start) && pc.Session?
      modifies this, merger, profile
      ensures start < next && Reached(script, next)
      ensures if ok then pc.Session? else pc.Ending?
    {
      ok := Iterate(script[start]);
      ExecNext(INITIAL, script, start);
      next := OthersAct(script, start + 1);
    }

    /** The head of the dispatch loop and, when it is entered, its body; false when the loop is over. */
    method Iterate(e: Event) returns (ok: bool)
      requires Wired() && pc.Session? && e.MainThread?
      modifies this, merger, profile
      ensures Wired() && Contents() == MainStep(old(Contents()), e)
      ensures if ok then pc.Session? else pc.Ending?
    {
      var connected := profile.IsConnected();
      if running && connected {
        ok := Tick(e.sendRaises);
      } else {
        pc := Ending;
        ok := false;
      }
    }

    /** `wait_for_connection`, and the session's start when it succeeds. */
    method Connect(e: Event) returns (ok: bool)
      requires Wired() && pc.Outer? && running && e.MainThread?
      modifies this, profile
      ensures Wired() && Contents() == MainStep(old(Contents()), e)
      ensures if ok then pc.Session? else pc.Outer?
    {
      ghost var seen := profile.seen;
      ok := profile.WaitForConnection(e.raises, e.addr);
      if ok {
        lastButtons := 0;
        ConnectionIsSeen(seen, host, sent, sessions, e.addr);
        pc, host, sessions := Session, host.(buttons := 0), sessions + 1;
      }
    }

    /** What follows the dispatch loop. */
    method EndSession(ghost e: Event)
      requires Wired() && pc.Ending? && e.MainThread?
      modifies this, profile
      ensures Wired() && Contents() == MainStep(old(Contents()), e) && pc.Outer?
    {
      if running {
        profile.Disconnect();
        lastButtons := 0;
      }
      pc := Outer;
    }

    method Shutdown(ghost e: Event)
      requires Wired() && pc.Outer? && !running && e.MainThread?
      modifies this, profile
      ensures Wired() && Contents() == MainStep(old(Contents()), e) && pc.Stopped?
    {
      profile.Disconnect();
      pc := Stopped;
    }

    /** One iteration of the reconnection loop, up to the end of the script. */
    method Reconnect(script: seq<Event>, start: nat) returns (next: nat)
      requires start < |script| && Reached(script, start) && pc.Outer? && running
      modifies this, merger, profile
      ensures start < next && Reached(script, next)
      ensures next < |script| ==> pc.Outer?
    {
      var ok := Connect(script[start]);
      ExecNext(INITIAL, script, start);
      next := OthersAct(script, start + 1);
      if ok {
        next := Dispatch(script, next);
        next := Conclude(script, next);
      }
    }

    /** The rest of the iteration after the dispatch loop, unless the script has ended. */
    method Conclude(script: seq<Event>, start: nat) returns (next: nat)
      requires Reached(script, start) && (start < |script| ==> pc.Ending?)
      modifies this, merger, profile
      ensures start <= next && Reached(script, next)
      ensures next < |script| ==> pc.Outer?
    {
      next := start;
      if start < |script| {
        EndSession(script[start]);
        ExecNext(INITIAL, script, start);
        next := OthersAct(script, start + 1);
      }
    }

    /** `main` from the reconnection loop on, up to the end of the script. */
    method Serve(script: seq<Event>) returns (next: nat)
      requires Contents() == INITIAL && Wired()
      modifies this, merger, profile
      ensures next <= |script| && Wired() && Contents() == Exec(INITIAL, script[..next])
      ensures next == |script| || pc.Stopped?
    {
      next := OthersAct(script, 0);
      while next < |script| && running
        invariant Reached(script, next) && (next < |script| ==> pc.Outer?)
        decreases |script| - next
      {
        next := Reconnect(script, next);
      }
      next := CleanUp(script, next);
    }

    /** What follows the reconnection loop, unless the script has ended. */
    method CleanUp(script: seq<Event>, start: nat) returns (next: nat)
      requires Reached(script, start) && (start < |script| ==> pc.Outer? && !running)
      modifies this, profile
      ensures next <= |script| && Wired() && Contents() == Exec(INITIAL, script[..next])
      ensures next == |script| || pc.Stopped?
    {
      next := start;
      if start < |script| {
        Shutdown(script[start]);
        ExecNext(INITIAL, script, start);
        next := start + 1;
      }
    }
  }
}
