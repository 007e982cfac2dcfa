/** The forwarder's low-level mouse hook: injected events become packets, everything else passes through. */
module MouseHook {
  import opened Merger
  import opened ByteConversions
  import opened Protocol
  import opened Buttons

  /** `Other` is any message the hook does not know. */
  datatype Message = MouseMove | ButtonChange(button: Button, down: bool) | Other

  /** `x`, `y` are the event's point; `cursorX`, `cursorY` is where the cursor is before it is applied. */
  datatype HookEvent = HookEvent(
    injected: bool, lowerIntegrityInjected: bool, message: Message, x: int, y: int, cursorX: int, cursorY: int)
  {
    predicate Captured() { (injected || lowerIntegrityInjected) && !message.Other? }

    /** What the event asks for: its displacement, or in absolute mode its point. */
    function Asked(relative: bool, axis: Axis): int {
      if !(injected || lowerIntegrityInjected) || !message.MouseMove? then 0
      else if axis.X? then (if relative then x - cursorX else x)
      else (if relative then y - cursorY else y)
    }

    function Displacement(axis: Axis): int { Asked(true, axis) }
  }

  datatype State = State(buttons: bv8, seqNo: Byte)

  const START := State(0, 0)

  /** `static_cast<int16_t>`: keeps the low 16 bits. */
  function ToInt16(v: int): Int16 { (v + 32768) % 65536 - 32768 }

  function Motion(p: Packet, axis: Axis): int { if axis.X? then p.dx else p.dy }

  function After(s: State, e: HookEvent): State {
    if !e.Captured() then s
    else
      var buttons := if e.message.ButtonChange? then Press(s.buttons, e.message.button, e.message.down) else s.buttons;
      State(buttons, (s.seqNo + 1) % 256)
  }

  /** The motion fields of the packet for a captured event. */
  function Deltas(relative: bool, e: HookEvent): (Int16, Int16) {
    match e.message
    case MouseMove =>
      if relative then (ToInt16(e.x - e.cursorX), ToInt16(e.y - e.cursorY)) else (ToInt16(e.x), ToInt16(e.y))
    case _ => (0, 0)
  }

  /** What the event makes the hook send: one packet when it is captured. */
  function Sent(relative: bool, s: State, e: HookEvent): seq<Packet> {
    if !e.Captured() then []
    else
      var (dx, dy) := Deltas(relative, e);
      [Packet(dx, dy, After(s, e).buttons, s.seqNo)]
  }

  class Hook {
    const useRelativeDeltas: bool
    const hasRelay: bool
    var buttons: bv8
    var seqNo: Byte
    ghost var udp: seq<Packet>    // packets handed to the UDP transmitter
    ghost var relay: seq<Packet>  // packets handed to the relay

    function Contents(): State
      reads this
    {
      State(buttons, seqNo)
    }

    constructor (useRelativeDeltas: bool, hasRelay: bool)
      ensures Contents() == START && udp == [] && relay == []
      ensures this.useRelativeDeltas == useRelativeDeltas && this.hasRelay == hasRelay
    {
      this.useRelativeDeltas, this.hasRelay := useRelativeDeltas, hasRelay;
      buttons, seqNo, udp, relay := 0, 0, [], [];
    }

    /** Sends one packet with the current buttons and takes the next sequence number. */
    method Emit(dx: Int16, dy: Int16, relayConnected: bool)
      modifies this`seqNo, this`udp, this`relay
      ensures seqNo == (old(seqNo) + 1) % 256
      ensures udp == old(udp) + [Packet(dx, dy, buttons, old(seqNo))]
      ensures relay == if hasRelay && relayConnected then old(relay) + [Packet(dx, dy, buttons, old(seqNo))]
                       else old(relay)
    {
      var pkt := Packet(dx, dy, buttons, seqNo);
      seqNo := (seqNo + 1) % 256;
      udp := udp + [pkt];
      if hasRelay && relayConnected {
        relay := relay + [pkt];
      }
    }

    /** The switch on the message: updates the mask and says whether, and with what motion, to send. */
    method Decode(e: HookEvent) returns (send: bool, dx: Int16, dy: Int16)
      requires e.injected || e.lowerIntegrityInjected
      modifies this`buttons
      ensures send == e.Captured() && buttons == After(old(Contents()), e).buttons
      ensures send ==> (dx, dy) == Deltas(useRelativeDeltas, e)
    {
      send, dx, dy := true, 0, 0;
      match e.message {
        case MouseMove =>
          if useRelativeDeltas {
            dx, dy := ToInt16(e.x - e.cursorX), ToInt16(e.y - e.cursorY);
          } else {
            dx, dy := ToInt16(e.x), ToInt16(e.y);
          }
        case ButtonChange(button, down) =>
          buttons := Press(buttons, button, down);
        case Other =>
          send := false;
      }
    }

    /** Returns whether the event is kept from the local desktop. */
    method HandleMouse(e: HookEvent, relayConnected: bool) returns (suppressed: bool)
      modifies this
      ensures suppressed <==> (e.injected || e.lowerIntegrityInjected) && !e.message.Other?
      ensures !suppressed ==> Contents() == old(Contents()) && udp == old(udp) && relay == old(relay)
      ensures suppressed ==>
                && |udp| == |old(udp)| + 1 && udp[..|old(udp)|] == old(udp)
                && relay == if hasRelay && relayConnected then old(relay) + udp[|old(udp)|..] else old(relay)
      ensures Contents() == After(old(Contents()), e)
      ensures udp == old(udp) + Sent(useRelativeDeltas, old(Contents()), e)
      ensures relay == if hasRelay && relayConnected then old(relay) + Sent(useRelativeDeltas, old(Contents()), e)
                       else old(relay)
    {
      if !(e.injected || e.lowerIntegrityInjected) {
        return false;
      }
      var send, dx, dy := Decode(e);
      if send {
        Emit(dx, dy, relayConnected);
      }
      return send;
    }
  }

  // ---------------------------------------------------------------- whole runs

  function Run(events: seq<HookEvent>): State {
    if |events| == 0 then START else After(Run(events[..|events| - 1]), events[|events| - 1])
  }

  function PacketsOf(relative: bool, events: seq<HookEvent>): seq<Packet> {
    if |events| == 0 then []
    else
      PacketsOf(relative, events[..|events| - 1])
      + Sent(relative, Run(events[..|events| - 1]), events[|events| - 1])
  }

  lemma NextNumber(relative: bool, s: State, e: HookEvent)
    ensures |Sent(relative, s, e)| <= 1 && After(s, e).seqNo == (s.seqNo + |Sent(relative, s, e)|) % 256
    ensures Sent(relative, s, e) != [] ==> Sent(relative, s, e)[0].seqNo == s.seqNo
  {
  }

  /** The n-th packet, counting from 0, carries sequence number n modulo 256. */
  lemma {:induction false} SequenceNumbers(relative: bool, events: seq<HookEvent>)
    ensures forall n | 0 <= n < |PacketsOf(relative, events)| :: PacketsOf(relative, events)[n].seqNo == n % 256
    ensures Run(events).seqNo == |PacketsOf(relative, events)| % 256
  {
    if |events| > 0 {
      SequenceNumbers(relative, events[..|events| - 1]);
      NextNumber(relative, Run(events[..|events| - 1]), events[|events| - 1]);
    }
  }

  /** Whether the last captured event about this button was a press. */
  predicate LastWasDown(events: seq<HookEvent>, b: Button) {
    if |events| == 0 then false
    else
      var e := events[|events| - 1];
      var injected := e.injected || e.lowerIntegrityInjected;
      if injected && e.message.ButtonChange? && e.message.button == b then e.message.down
      else LastWasDown(events[..|events| - 1], b)
  }

  /** The mask has exactly the bits of the buttons whose last injected event was a press. */
  lemma {:induction false} MaskIsLastEvents(events: seq<HookEvent>, b: Button)
    ensures IsDown(Run(events).buttons, b) <==> LastWasDown(events, b)
    ensures Run(events).buttons & 0xF8 == 0
  {
    if |events| > 0 {
      var before, e := events[..|events| - 1], events[|events| - 1];
      MaskIsLastEvents(before, b);
      if e.message.ButtonChange? {
        PressChangesOneButton(Run(before).buttons, e.message.button, e.message.down, b);
      }
    }
  }

  /** The newest packet carries the mask as it is now, whatever has passed through since. */
  lemma {:induction false} NewestPacketCarriesMask(relative: bool, events: seq<HookEvent>)
    ensures var packets := PacketsOf(relative, events);
            if |packets| == 0 then Run(events).buttons == 0
            else packets[|packets| - 1].buttons == Run(events).buttons
  {
    if |events| > 0 {
      NewestPacketCarriesMask(relative, events[..|events| - 1]);
    }
  }

  function TotalMotion(packets: seq<Packet>, axis: Axis): int {
    if |packets| == 0 then 0
    else TotalMotion(packets[..|packets| - 1], axis) + Motion(packets[|packets| - 1], axis)
  }

  lemma TotalMotionAppend(packets: seq<Packet>, more: seq<Packet>, axis: Axis)
    requires |more| <= 1
    ensures TotalMotion(packets + more, axis)
         == TotalMotion(packets, axis) + if |more| == 1 then Motion(more[0], axis) else 0
  {
    if |more| == 0 {
      assert packets + more == packets;
    } else {
      assert (packets + more)[..|packets|] == packets;
    }
  }

  function TotalDisplacement(events: seq<HookEvent>, axis: Axis): int {
    if |events| == 0 then 0
    else TotalDisplacement(events[..|events| - 1], axis) + events[|events| - 1].Displacement(axis)
  }

  predicate Small(v: int) { -32768 <= v < 32768 }

  lemma ToInt16Facts(v: int)
    ensures (ToInt16(v) - v) % 65536 == 0
    ensures ToInt16(v) == v <==> Small(v)
  {
  }

  lemma CongruenceAdds(a: int, b: int, c: int, d: int)
    requires (a - b) % 65536 == 0 && (c - d) % 65536 == 0
    ensures ((a + c) - (b + d)) % 65536 == 0
  {
  }

  lemma SentMotion(relative: bool, s: State, e: HookEvent, axis: Axis)
    ensures Sent(relative, s, e) == [] ==> e.Asked(relative, axis) == 0
    ensures Sent(relative, s, e) != [] ==> Motion(Sent(relative, s, e)[0], axis) == ToInt16(e.Asked(relative, axis))
  {
    ToInt16Facts(0);
  }

  /** What the last event adds to the motion sent and to the motion asked for. */
  lemma LastSent(events: seq<HookEvent>, axis: Axis) returns (sent: int, asked: int)
    requires |events| > 0
    ensures sent == ToInt16(asked) && asked == events[|events| - 1].Displacement(axis)
    ensures TotalMotion(PacketsOf(true, events), axis)
         == TotalMotion(PacketsOf(true, events[..|events| - 1]), axis) + sent
  {
    var before, e := events[..|events| - 1], events[|events| - 1];
    TotalMotionAppend(PacketsOf(true, before), Sent(true, Run(before), e), axis);
    SentMotion(true, Run(before), e, axis);
    ToInt16Facts(0);
    asked := e.Displacement(axis);
    sent := ToInt16(asked);
  }

  /**
    In relative mode the motion sent is congruent modulo 2^16 to the motion asked for, and equal to it
    when every single displacement fits 16 bits.
   */
  lemma {:induction false} MotionSent(events: seq<HookEvent>, axis: Axis)
    ensures (TotalMotion(PacketsOf(true, events), axis) - TotalDisplacement(events, axis)) % 65536 == 0
    ensures (forall i | 0 <= i < |events| :: Small(events[i].Displacement(axis))) ==>
              TotalMotion(PacketsOf(true, events), axis) == TotalDisplacement(events, axis)
  {
    if |events| > 0 {
      var before := events[..|events| - 1];
      MotionSent(before, axis);
      var sent, asked := LastSent(events, axis);
      ToInt16Facts(asked);
      CongruenceAdds(TotalMotion(PacketsOf(true, before), axis), TotalDisplacement(before, axis), sent, asked);
    }
  }

  /** The injected events of a known kind among `events`. */
  function CapturedOnly(events: seq<HookEvent>): seq<HookEvent> {
    if |events| == 0 then []
    else
      var rest, e := CapturedOnly(events[..|events| - 1]), events[|events| - 1];
      if (e.injected || e.lowerIntegrityInjected) && !e.message.Other? then rest + [e] else rest
  }

  /** Events that pass through leave no trace: the run is that of the captured events, one packet each. */
  lemma {:induction false} PassThroughIsInvisible(relative: bool, events: seq<HookEvent>)
    ensures Run(events) == Run(CapturedOnly(events))
    ensures PacketsOf(relative, events) == PacketsOf(relative, CapturedOnly(events))
    ensures |PacketsOf(relative, events)| == |CapturedOnly(events)|
  {
    if |events| > 0 {
      var rest := CapturedOnly(events[..|events| - 1]);
      PassThroughIsInvisible(relative, events[..|events| - 1]);
      assert (rest + [events[|events| - 1]])[..|rest|] == rest;
    }
  }

  /** The packets and captured events of a shorter run are a prefix. */
  lemma OneMoreEvent(relative: bool, events: seq<HookEvent>)
    requires |events| > 0
    ensures PacketsOf(relative, events[..|events| - 1]) <= PacketsOf(relative, events)
    ensures CapturedOnly(events[..|events| - 1]) <= CapturedOnly(events)
    ensures |PacketsOf(relative, events)| <= |PacketsOf(relative, events[..|events| - 1])| + 1
  {
  }

  lemma {:induction false} NewestPacketMotion(relative: bool, events: seq<HookEvent>, axis: Axis)
    requires |events| > 0 && events[|events| - 1].Captured()
    ensures var packets, captured := PacketsOf(relative, events), CapturedOnly(events);
            && |packets| > 0 && |captured| > 0
            && Motion(packets[|packets| - 1], axis) == ToInt16(captured[|captured| - 1].Asked(relative, axis))
  {
    SentMotion(relative, Run(events[..|events| - 1]), events[|events| - 1], axis);
  }

  /** Packet `k` comes from the `k`-th captured event and carries what that event asks for, cut to 16 bits. */
  lemma {:induction false} PacketMotion(relative: bool, events: seq<HookEvent>, k: nat, axis: Axis)
    requires k < |PacketsOf(relative, events)|
    ensures k < |CapturedOnly(events)|
    ensures Motion(PacketsOf(relative, events)[k], axis) == ToInt16(CapturedOnly(events)[k].Asked(relative, axis))
  {
    var before := events[..|events| - 1];
    PassThroughIsInvisible(relative, events);
    OneMoreEvent(relative, events);
    if k < |PacketsOf(relative, before)| {
      PacketMotion(relative, before, k, axis);
    } else {
      NewestPacketMotion(relative, events, axis);
    }
  }

  lemma NewestPacketButtons(relative: bool, events: seq<HookEvent>, b: Button)
    requires |PacketsOf(relative, events)| > 0
    ensures var packets := PacketsOf(relative, events);
            IsDown(packets[|packets| - 1].buttons, b) <==> LastWasDown(CapturedOnly(events), b)
  {
    NewestPacketCarriesMask(relative, events);
    PassThroughIsInvisible(relative, events);
    MaskIsLastEvents(CapturedOnly(events), b);
  }

  lemma PrefixSlice<T>(a: seq<T>, b: seq<T>, n: nat)
    requires a <= b && n <= |a|
    ensures a[..n] == b[..n]
  {
  }

  lemma {:induction false} LastPacketButtons(relative: bool, events: seq<HookEvent>, k: nat, b: Button)
    requires |PacketsOf(relative, events)| == |CapturedOnly(events)| == k + 1
    ensures IsDown(PacketsOf(relative, events)[k].buttons, b) <==> LastWasDown(CapturedOnly(events)[..k + 1], b)
  {
    NewestPacketButtons(relative, events, b);
    assert CapturedOnly(events)[..k + 1] == CapturedOnly(events);
  }

  lemma {:induction false} EarlierPacketButtons(relative: bool, events: seq<HookEvent>, k: nat, b: Button)
    requires |events| > 0 && k < |PacketsOf(relative, events[..|events| - 1])|
    requires k < |CapturedOnly(events[..|events| - 1])|
    requires IsDown(PacketsOf(relative, events[..|events| - 1])[k].buttons, b)
        <==> LastWasDown(CapturedOnly(events[..|events| - 1])[..k + 1], b)
    ensures k < |PacketsOf(relative, events)| && k < |CapturedOnly(events)|
    ensures IsDown(PacketsOf(relative, events)[k].buttons, b) <==> LastWasDown(CapturedOnly(events)[..k + 1], b)
  {
    OneMoreEvent(relative, events);
    PrefixSlice(CapturedOnly(events[..|events| - 1]), CapturedOnly(events), k + 1);
  }

  lemma SameLengths(relative: bool, events: seq<HookEvent>)
    requires |events| > 0
    ensures |PacketsOf(relative, events)| == |CapturedOnly(events)|
    ensures |PacketsOf(relative, events[..|events| - 1])| <= |PacketsOf(relative, events)|
         <= |PacketsOf(relative, events[..|events| - 1])| + 1
  {
    PassThroughIsInvisible(relative, events);
    OneMoreEvent(relative, events);
  }

  /** The button bits on packet `k` are those of the captured events up to the `k`-th. */
  lemma {:induction false} PacketButtons(relative: bool, events: seq<HookEvent>, k: nat, b: Button)
    requires k < |PacketsOf(relative, events)|
    ensures k < |CapturedOnly(events)|
    ensures IsDown(PacketsOf(relative, events)[k].buttons, b) <==> LastWasDown(CapturedOnly(events)[..k + 1], b)
  {
    SameLengths(relative, events);
    if k < |PacketsOf(relative, events[..|events| - 1])| {
      PacketButtons(relative, events[..|events| - 1], k, b);
      EarlierPacketButtons(relative, events, k, b);
    } else {
      LastPacketButtons(relative, events, k, b);
    }
  }

  lemma PacketCoordinates(relative: bool, events: seq<HookEvent>, k: nat)
    requires k < |CapturedOnly(events)|
    ensures |PacketsOf(relative, events)| == |CapturedOnly(events)|
    ensures var p, e := PacketsOf(relative, events)[k], CapturedOnly(events)[k];
            && (e.message.MouseMove? ==>
                  && (p.dx - if relative then e.x - e.cursorX else e.x) % 65536 == 0
                  && (p.dy - if relative then e.y - e.cursorY else e.y) % 65536 == 0)
            && (e.message.ButtonChange? ==> p.dx == 0 && p.dy == 0)
  {
    PassThroughIsInvisible(relative, events);
    CapturedAreInjected(events);
    var e := CapturedOnly(events)[k];
    PacketMotion(relative, events, k, X);
    PacketMotion(relative, events, k, Y);
    ToInt16Facts(e.Asked(relative, X));
    ToInt16Facts(e.Asked(relative, Y));
  }

  /**
    The whole stream of packets, in either mode: one for each captured event, in order; a move carries the
    coordinates asked for modulo 2^16, a button change none; each carries the buttons as of its event and its
    number modulo 256.
   */
  lemma PacketContents(relative: bool, events: seq<HookEvent>, k: nat)
    requires k < |CapturedOnly(events)|
    ensures |PacketsOf(relative, events)| == |CapturedOnly(events)|
    ensures var p, e := PacketsOf(relative, events)[k], CapturedOnly(events)[k];
            && (e.message.MouseMove? ==>
                  && (p.dx - if relative then e.x - e.cursorX else e.x) % 65536 == 0
                  && (p.dy - if relative then e.y - e.cursorY else e.y) % 65536 == 0)
            && (e.message.ButtonChange? ==> p.dx == 0 && p.dy == 0)
            && p.seqNo == k % 256
            && forall b: Button :: IsDown(p.buttons, b) <==> LastWasDown(CapturedOnly(events)[..k + 1], b)
  {
    PacketCoordinates(relative, events, k);
    SequenceNumbers(relative, events);
    forall b: Button
      ensures IsDown(PacketsOf(relative, events)[k].buttons, b) <==> LastWasDown(CapturedOnly(events)[..k + 1], b)
    {
      PacketButtons(relative, events, k, b);
    }
  }

  lemma {:induction false} CapturedAreInjected(events: seq<HookEvent>)
    ensures forall i | 0 <= i < |CapturedOnly(events)| ::
              CapturedOnly(events)[i].injected || CapturedOnly(events)[i].lowerIntegrityInjected
  {
    if |events| > 0 {
      CapturedAreInjected(events[..|events| - 1]);
    }
  }

  /** Events after the last packet was sent say nothing of the buttons. */
  lemma {:induction false} AllPacketsSent(relative: bool, events: seq<HookEvent>, n: nat, b: Button)
    requires n <= |events| && |PacketsOf(relative, events[..n])| == |PacketsOf(relative, events)|
    ensures LastWasDown(events[..n], b) <==> LastWasDown(events, b)
  {
    if n == |events| {
      assert events[..n] == events;
    } else {
      var before := events[..|events| - 1];
      assert before[..n] == events[..n];
      PacketsGrow(relative, before, n);
      AllPacketsSent(relative, before, n, b);
    }
  }

  lemma {:induction false} PacketsGrow(relative: bool, events: seq<HookEvent>, n: nat)
    requires n <= |events|
    ensures |PacketsOf(relative, events[..n])| <= |PacketsOf(relative, events)|
  {
    if n == |events| {
      assert events[..n] == events;
    } else {
      assert events[..|events| - 1][..n] == events[..n];
      PacketsGrow(relative, events[..|events| - 1], n);
    }
  }
}
