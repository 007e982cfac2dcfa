/**
  From injected events on the forwarding PC and evdev events on the emulator to the host's cursor and buttons:
  hook, wire, listener, local reader, merger and dispatcher together.
 */
module EndToEnd {
  import opened Merger
  import opened Protocol
  import opened ByteConversions
  import opened Buttons
  import UdpListener
  import MouseHook
  import LocalRuns
  import LocalMouse
  import opened HidEmulator
  import opened EmulatorRuns

  /** The datagram that carries a packet. */
  function Wire(p: Packet): seq<Byte> { BuildPacket(p.dx, p.dy, p.buttons as int, p.seqNo).value }

  function CallOfPacket(p: Packet): Call { Accumulate(p.dx, p.dy, p.buttons, Network) }

  function CallsOfPackets(packets: seq<Packet>): (calls: seq<Call>)
    ensures |calls| == |packets|
    ensures forall i | 0 <= i < |calls| :: calls[i] == CallOfPacket(packets[i])
  {
    if |packets| == 0 then []
    else CallsOfPackets(packets[..|packets| - 1]) + [CallOfPacket(packets[|packets| - 1])]
  }

  /** The listener decodes a packet's datagram to exactly the call the packet stands for. */
  lemma WireIsFaithful(p: Packet)
    ensures UdpListener.CallFor(Wire(p)) == [CallOfPacket(p)]
  {
    ParseBuilt(p.dx, p.dy, p.buttons as int, p.seqNo);
    ByteRoundTrip(p.buttons);
  }

  /** The datagrams of the packets that get through, in the order they arrive. */
  function Arriving(packets: seq<Packet>): seq<UdpListener.Received> {
    if |packets| == 0 then []
    else [UdpListener.Datagram(Wire(packets[0]))] + Arriving(packets[1..])
  }

  lemma {:induction false} ListenerSeesPackets(packets: seq<Packet>)
    ensures UdpListener.CallsFor(Arriving(packets)) == CallsOfPackets(packets)
  {
    if |packets| > 0 {
      ListenerSeesPackets(packets[1..]);
      WireIsFaithful(packets[0]);
      assert Arriving(packets)[1..] == Arriving(packets[1..]);
      CallsOfPacketsConcat([packets[0]], packets[1..]);
      assert [packets[0]] + packets[1..] == packets;
      assert [packets[0]][..0] == [];
      assert CallsOfPackets([packets[0]]) == [CallOfPacket(packets[0])];
    }
  }

  lemma {:induction false} CallsOfPacketsConcat(a: seq<Packet>, b: seq<Packet>)
    ensures CallsOfPackets(a + b) == CallsOfPackets(a) + CallsOfPackets(b)
  {
    if |b| == 0 {
      assert a + b == a;
    } else {
      CallsOfPacketsConcat(a, b[..|b| - 1]);
      assert (a + b)[..|a + b| - 1] == a + b[..|b| - 1];
    }
  }

  // ---------------------------------------------------------------- self-healing buttons

  /** Every packet carries the mask as it was right after the event that produced it. */
  lemma {:induction false} PacketCarriesMask(relative: bool, events: seq<MouseHook.HookEvent>, k: nat) returns (n: nat)
    requires k < |MouseHook.PacketsOf(relative, events)|
    ensures n <= |events| && |MouseHook.PacketsOf(relative, events[..n])| == k + 1
    ensures MouseHook.PacketsOf(relative, events)[k].buttons == MouseHook.Run(events[..n]).buttons
  {
    var before := events[..|events| - 1];
    if k < |MouseHook.PacketsOf(relative, before)| {
      n := PacketCarriesMask(relative, before, k);
      assert before[..n] == events[..n];
    } else {
      n := |events|;
      assert events[..n] == events;
      MouseHook.NewestPacketCarriesMask(relative, events);
    }
  }

  /** `delivered` picks packets by number: lost ones are missing, repeated and late ones are allowed. */
  function Selected<T>(packets: seq<T>, delivered: seq<nat>): seq<T>
    requires forall i | 0 <= i < |delivered| :: delivered[i] < |packets|
  {
    seq(|delivered|, i requires 0 <= i < |delivered| => packets[delivered[i]])
  }

  lemma NetworkAfterPackets(m: Fields, packets: seq<Packet>)
    requires |packets| > 0
    ensures ApplyAll(m, UdpListener.CallsFor(Arriving(packets))).network == packets[|packets| - 1].buttons
  {
    ListenerSeesPackets(packets);
    var calls := CallsOfPackets(packets);
    assert calls[|calls| - 1] == CallOfPacket(packets[|packets| - 1]);
  }

  /**
    After any pattern of loss, repetition and reordering the merger's network buttons are the forwarder's
    mask as of the packet that arrived last.
   */
  lemma ButtonsHeal(relative: bool, events: seq<MouseHook.HookEvent>, delivered: seq<nat>, m: Fields) returns (n: nat)
    requires |delivered| > 0
    requires forall i | 0 <= i < |delivered| :: delivered[i] < |MouseHook.PacketsOf(relative, events)|
    ensures n <= |events| && |MouseHook.PacketsOf(relative, events[..n])| == delivered[|delivered| - 1] + 1
    ensures var arrived := Arriving(Selected(MouseHook.PacketsOf(relative, events), delivered));
            ApplyAll(m, UdpListener.CallsFor(arrived)).network == MouseHook.Run(events[..n]).buttons
  {
    var packets := MouseHook.PacketsOf(relative, events);
    n := PacketCarriesMask(relative, events, delivered[|delivered| - 1]);
    NetworkAfterPackets(m, Selected(packets, delivered));
  }

  /** Once the newest packet is the last to arrive, the merger agrees with the injected events on every button. */
  lemma ButtonsAgreeAfterNewest(
    relative: bool, events: seq<MouseHook.HookEvent>, delivered: seq<nat>, m: Fields, b: Button)
    requires |delivered| > 0
    requires forall i | 0 <= i < |delivered| :: delivered[i] < |MouseHook.PacketsOf(relative, events)|
    requires delivered[|delivered| - 1] == |MouseHook.PacketsOf(relative, events)| - 1
    ensures var arrived := Arriving(Selected(MouseHook.PacketsOf(relative, events), delivered));
            IsDown(ApplyAll(m, UdpListener.CallsFor(arrived)).network, b) <==> MouseHook.LastWasDown(events, b)
  {
    var packets := MouseHook.PacketsOf(relative, events);
    NetworkAfterPackets(m, Selected(packets, delivered));
    MouseHook.NewestPacketCarriesMask(relative, events);
    MouseHook.MaskIsLastEvents(events, b);
  }

  /**
    The merger gains the motion of every packet that arrives, as often as it arrives: lost packets cost their
    motion and repeated ones count again.
   */
  lemma MotionOfArrivals(packets: seq<Packet>, m: Fields, axis: Axis)
    ensures ApplyAll(m, UdpListener.CallsFor(Arriving(packets))).Motion(axis)
         == m.Motion(axis) + MouseHook.TotalMotion(packets, axis)
  {
    ListenerSeesPackets(packets);
    PacketTotals(packets, axis);
    assert OnlyAccumulates(CallsOfPackets(packets));
    NoFlushNoReports(m, CallsOfPackets(packets));
    MotionIsConserved(m, CallsOfPackets(packets), axis);
  }

  // ---------------------------------------------------------------- whole system

  lemma {:induction false} PacketTotals(packets: seq<Packet>, axis: Axis)
    ensures Total(CallsOfPackets(packets), axis) == MouseHook.TotalMotion(packets, axis)
  {
    if |packets| > 0 {
      PacketTotals(packets[..|packets| - 1], axis);
      var calls := CallsOfPackets(packets);
      assert calls[..|calls| - 1] == CallsOfPackets(packets[..|packets| - 1]);
    }
  }

  /** The datagrams of the packets, in their order. */
  function Wires(packets: seq<Packet>): seq<seq<Byte>> {
    if |packets| == 0 then [] else [Wire(packets[0])] + Wires(packets[1..])
  }

  /**
    What the producers do in the run: the well-formed datagrams the listener receives before it ends, between
    any time-outs and malformed ones, are those of the packets `arrived`, in that order, and the local reader
    makes the passes `loops` over its devices.
   */
  ghost predicate FedBy(script: seq<Event>, arrived: seq<Packet>, loops: seq<LocalMouse.Loop>) {
    && HeardBy(script, arrived)
    && InputsFrom(script, Local) == LocalRuns.CallsOfLoops(loops)
  }

  ghost predicate HeardBy(script: seq<Event>, arrived: seq<Packet>) {
    exists received ::
      UdpListener.CallsFor(received) == InputsFrom(script, Network) && UdpListener.Accepted(received) == Wires(arrived)
  }

  lemma {:induction false} CallsOfWires(packets: seq<Packet>)
    ensures UdpListener.CallsOfData(Wires(packets)) == CallsOfPackets(packets)
  {
    if |packets| > 0 {
      CallsOfWires(packets[1..]);
      WireIsFaithful(packets[0]);
      assert Wires(packets)[1..] == Wires(packets[1..]);
      CallsOfPacketsConcat([packets[0]], packets[1..]);
      assert [packets[0]] + packets[1..] == packets;
      assert CallsOfPackets([packets[0]]) == [CallOfPacket(packets[0])];
    }
  }

  /** The listener's calls in the run are those of the packets that arrived, whatever else it received. */
  lemma ListenerCalls(script: seq<Event>, arrived: seq<Packet>)
    requires HeardBy(script, arrived)
    ensures InputsFrom(script, Network) == CallsOfPackets(arrived)
  {
    var received :|
      UdpListener.CallsFor(received) == InputsFrom(script, Network) && UdpListener.Accepted(received) == Wires(arrived);
    UdpListener.OnlyAcceptedCount(received);
    CallsOfWires(arrived);
  }

  lemma InputIsWhatArrived(script: seq<Event>, arrived: seq<Packet>, loops: seq<LocalMouse.Loop>, axis: Axis)
    requires FedBy(script, arrived, loops)
    ensures TotalInput(script, axis) == MouseHook.TotalMotion(arrived, axis) + LocalRuns.MotionOfLoops(loops, axis)
  {
    InputsSplitBySource(script, axis);
    ListenerCalls(script, arrived);
    PacketTotals(arrived, axis);
    LocalRuns.ThreadMotion(loops, axis);
  }

  /**
    End to end, for any loss, repetition and reordering of packets, any local devices coming and going, any
    interleaving, failures and reconnections: the host's position plus what is still in the merger is the motion
    of the packets that arrived, as often as they did, plus that read from the local mice, up to one report per
    session lost to a failed send.
   */
  lemma {:induction false} CursorEndToEnd(
    script: seq<Event>, relative: bool, events: seq<MouseHook.HookEvent>, delivered: seq<nat>,
    loops: seq<LocalMouse.Loop>, axis: Axis)
    requires forall i | 0 <= i < |delivered| :: delivered[i] < |MouseHook.PacketsOf(relative, events)|
    requires FedBy(script, Selected(MouseHook.PacketsOf(relative, events), delivered), loops)
    ensures var arrived := Selected(MouseHook.PacketsOf(relative, events), delivered);
            ArrivesButForLostReports(script, axis,
              MouseHook.TotalMotion(arrived, axis) + LocalRuns.MotionOfLoops(loops, axis))
  {
    InputIsWhatArrived(script, Selected(MouseHook.PacketsOf(relative, events), delivered), loops, axis);
    LostMotionIsBounded(script, axis);
  }

  /** The last arrival, its own motion, and the displacement behind it. */
  lemma LastArrival(events: seq<MouseHook.HookEvent>, delivered: seq<nat>, axis: Axis)
    returns (sent: int, asked: int)
    requires |delivered| > 0
    requires |MouseHook.CapturedOnly(events)| == |MouseHook.PacketsOf(true, events)|
    requires forall i | 0 <= i < |delivered| :: delivered[i] < |MouseHook.PacketsOf(true, events)|
    ensures sent == MouseHook.ToInt16(asked)
    ensures asked == MouseHook.CapturedOnly(events)[delivered[|delivered| - 1]].Displacement(axis)
    ensures var packets := MouseHook.PacketsOf(true, events);
            MouseHook.TotalMotion(Selected(packets, delivered), axis)
            == MouseHook.TotalMotion(Selected(packets, delivered[..|delivered| - 1]), axis) + sent
    ensures var captured := MouseHook.CapturedOnly(events);
            MouseHook.TotalDisplacement(Selected(captured, delivered), axis)
            == MouseHook.TotalDisplacement(Selected(captured, delivered[..|delivered| - 1]), axis) + asked
  {
    var packets, captured, n := MouseHook.PacketsOf(true, events), MouseHook.CapturedOnly(events), |delivered| - 1;
    MouseHook.PacketMotion(true, events, delivered[n], axis);
    sent, asked := MouseHook.Motion(packets[delivered[n]], axis), captured[delivered[n]].Displacement(axis);
    assert Selected(packets, delivered)[..n] == Selected(packets, delivered[..n]);
    assert Selected(captured, delivered)[..n] == Selected(captured, delivered[..n]);
  }

  /** What the arriving packets carry: the displacements of the events behind them, modulo 2^16. */
  lemma {:induction false} ArrivedMotion(events: seq<MouseHook.HookEvent>, delivered: seq<nat>, axis: Axis)
    requires |MouseHook.CapturedOnly(events)| == |MouseHook.PacketsOf(true, events)|
    requires forall i | 0 <= i < |delivered| :: delivered[i] < |MouseHook.PacketsOf(true, events)|
    ensures var sent := MouseHook.TotalMotion(Selected(MouseHook.PacketsOf(true, events), delivered), axis);
            var asked := MouseHook.TotalDisplacement(Selected(MouseHook.CapturedOnly(events), delivered), axis);
            (sent - asked) % 65536 == 0 && (AllSmall(events, delivered, axis) ==> sent == asked)
  {
    if |delivered| > 0 {
      var before := delivered[..|delivered| - 1];
      ArrivedMotion(events, before, axis);
      var sent, asked := LastArrival(events, delivered, axis);
      MouseHook.ToInt16Facts(asked);
      MouseHook.CongruenceAdds(
        MouseHook.TotalMotion(Selected(MouseHook.PacketsOf(true, events), before), axis),
        MouseHook.TotalDisplacement(Selected(MouseHook.CapturedOnly(events), before), axis), sent, asked);
    }
  }

  /** The displacement behind every packet that arrives fits 16 bits. */
  predicate AllSmall(events: seq<MouseHook.HookEvent>, delivered: seq<nat>, axis: Axis)
    requires forall i | 0 <= i < |delivered| :: delivered[i] < |MouseHook.CapturedOnly(events)|
  {
    forall i | 0 <= i < |delivered| :: MouseHook.Small(MouseHook.CapturedOnly(events)[delivered[i]].Displacement(axis))
  }

  /**
    The same in terms of what was asked for on the forwarding PC: the displacements of the events whose packets
    arrived, when each of these fits 16 bits.
   */
  lemma CursorFollowsEvents(
    script: seq<Event>, events: seq<MouseHook.HookEvent>, delivered: seq<nat>,
    loops: seq<LocalMouse.Loop>, axis: Axis)
    requires forall i | 0 <= i < |delivered| :: delivered[i] < |MouseHook.PacketsOf(true, events)|
    requires FedBy(script, Selected(MouseHook.PacketsOf(true, events), delivered), loops)
    ensures |MouseHook.CapturedOnly(events)| == |MouseHook.PacketsOf(true, events)|
    ensures AllSmall(events, delivered, axis) ==>
              ArrivesButForLostReports(script, axis,
                MouseHook.TotalDisplacement(Selected(MouseHook.CapturedOnly(events), delivered), axis)
                + LocalRuns.MotionOfLoops(loops, axis))
  {
    MouseHook.PassThroughIsInvisible(true, events);
    CursorEndToEnd(script, true, events, delivered, loops, axis);
    ArrivedMotion(events, delivered, axis);
  }

  /** Each of the forwarder's packets reached the merger exactly once, in any order. */
  ghost predicate AllDelivered(script: seq<Event>, events: seq<MouseHook.HookEvent>) {
    multiset(InputsFrom(script, Network)) == multiset(CallsOfPackets(MouseHook.PacketsOf(true, events)))
  }

  lemma InputWhenAllArrive(
    script: seq<Event>, events: seq<MouseHook.HookEvent>, loops: seq<LocalMouse.Loop>, axis: Axis)
    requires AllDelivered(script, events) && InputsFrom(script, Local) == LocalRuns.CallsOfLoops(loops)
    ensures TotalInput(script, axis)
         == MouseHook.TotalMotion(MouseHook.PacketsOf(true, events), axis) + LocalRuns.MotionOfLoops(loops, axis)
  {
    var packets := MouseHook.PacketsOf(true, events);
    TotalOfPermutation(InputsFrom(script, Network), CallsOfPackets(packets), axis);
    PacketTotals(packets, axis);
    InputsSplitBySource(script, axis);
    LocalRuns.ThreadMotion(loops, axis);
  }

  /**
    When nothing is lost or repeated, what the emulator takes in is, modulo 2^16, the motion asked for on the
    forwarding PC plus that of the local mice, and equal to it when every displacement fits 16 bits.
   */
  lemma {:induction false} InputIsMotionAskedFor(
    script: seq<Event>, events: seq<MouseHook.HookEvent>, loops: seq<LocalMouse.Loop>, axis: Axis)
    requires AllDelivered(script, events) && InputsFrom(script, Local) == LocalRuns.CallsOfLoops(loops)
    ensures var asked := MouseHook.TotalDisplacement(events, axis) + LocalRuns.MotionOfLoops(loops, axis);
            && (TotalInput(script, axis) - asked) % 65536 == 0
            && ((forall i | 0 <= i < |events| :: MouseHook.Small(events[i].Displacement(axis))) ==>
                  TotalInput(script, axis) == asked)
  {
    InputWhenAllArrive(script, events, loops, axis);
    MouseHook.MotionSent(events, axis);
  }

  /** So the cursor follows both PCs' mice in full, but for one report per session lost to a failed send. */
  lemma CursorWhenAllArrive(
    script: seq<Event>, events: seq<MouseHook.HookEvent>, loops: seq<LocalMouse.Loop>, axis: Axis)
    requires AllDelivered(script, events) && InputsFrom(script, Local) == LocalRuns.CallsOfLoops(loops)
    requires forall i | 0 <= i < |events| :: MouseHook.Small(events[i].Displacement(axis))
    ensures ArrivesButForLostReports(script, axis,
              MouseHook.TotalDisplacement(events, axis) + LocalRuns.MotionOfLoops(loops, axis))
  {
    InputIsMotionAskedFor(script, events, loops, axis);
    LostMotionIsBounded(script, axis);
  }

  // ---------------------------------------------------------------- buttons of the whole system

  lemma StepButtons(s: System, e: Event)
    ensures Step(s, e).merger.network == LastButtons(InputFrom(e, Network), s.merger.network)
    ensures Step(s, e).merger.local == LastButtons(InputFrom(e, Local), s.merger.local)
  {
    StepCallsMerger(s, e);
    var calls := CallOf(s, e);
    if calls != [] {
      assert calls[..|calls| - 1] == [];
    }
  }

  lemma LastButtonsConcat(calls: seq<Call>, more: seq<Call>, before: bv8)
    requires |more| <= 1 && (|more| == 1 ==> more[0].Accumulate?)
    ensures LastButtons(calls + more, before) == LastButtons(more, LastButtons(calls, before))
  {
    if |more| == 0 {
      assert calls + more == calls;
    }
  }

  /** In a run each source's byte is that of its last call. */
  lemma {:induction false} ButtonsOfRun(script: seq<Event>)
    ensures Run(script).merger.network == LastButtons(InputsFrom(script, Network), 0)
    ensures Run(script).merger.local == LastButtons(InputsFrom(script, Local), 0)
  {
    if |script| > 0 {
      var before, e := script[..|script| - 1], script[|script| - 1];
      ButtonsOfRun(before);
      StepButtons(Run(before), e);
      LastButtonsConcat(InputsFrom(before, Network), InputFrom(e, Network), 0);
      LastButtonsConcat(InputsFrom(before, Local), InputFrom(e, Local), 0);
    }
  }

  lemma LocalAfterCalls(m: Fields, calls: seq<Call>)
    requires forall i | 0 <= i < |calls| :: calls[i].From(Local)
    ensures ApplyAll(m, calls).local == LastButtons(calls, m.local)
  {
    if |calls| > 0 {
      assert calls[|calls| - 1].From(Local);
    }
  }

  /** The local byte of a run is what the local devices' own events make of it. */
  lemma LocalButtonsOfRun(script: seq<Event>, loops: seq<LocalMouse.Loop>, b: Button)
    requires InputsFrom(script, Local) == LocalRuns.CallsOfLoops(loops)
    ensures IsDown(Run(script).merger.local, b) <==> LocalRuns.LoopsHold(loops, b, false)
  {
    ButtonsOfRun(script);
    InputsAreFrom(script, Local);
    LocalAfterCalls(EMPTY, LocalRuns.CallsOfLoops(loops));
    LocalRuns.ThreadButtons(loops, EMPTY, b);
    assert !IsDown(0, b);
  }

  /** The buttons on the packet that arrived last. */
  function LastByte(arrived: seq<Packet>): bv8 { if |arrived| == 0 then 0 else arrived[|arrived| - 1].buttons }

  lemma NetworkByteOfRun(script: seq<Event>, arrived: seq<Packet>)
    requires HeardBy(script, arrived)
    ensures Run(script).merger.network == LastByte(arrived)
  {
    ButtonsOfRun(script);
    ListenerCalls(script, arrived);
    if |arrived| > 0 {
      assert CallsOfPackets(arrived)[|arrived| - 1] == CallOfPacket(arrived[|arrived| - 1]);
    }
  }

  /** The run is followed by a tick whose send, if there is one, succeeds. */
  predicate SuccessfulTick(script: seq<Event>, e: Event) {
    IsTick(Run(script), e) && Step(Run(script), e).pc.Session?
  }

  lemma HostButtonsOfRun(
    script: seq<Event>, e: Event, arrived: seq<Packet>, loops: seq<LocalMouse.Loop>, b: Button)
    requires SuccessfulTick(script, e)
    requires FedBy(script, arrived, loops)
    ensures IsDown(Step(Run(script), e).host.buttons, b)
       <==> IsDown(LastByte(arrived), b) || LocalRuns.LoopsHold(loops, b, false)
  {
    NetworkByteOfRun(script, arrived);
    LocalButtonsOfRun(script, loops, b);
    HostButtonsAfterTick(script, e);
    UnionOfButtons(Run(script).merger.network, Run(script).merger.local, b);
  }

  lemma UnionOfButtons(m: bv8, n: bv8, b: Button)
    ensures IsDown((m | n) & 0x07, b) <==> IsDown(m, b) || IsDown(n, b)
  {
    match b
    case Left =>
    case Right =>
    case Middle =>
  }

  /** The packet that arrived last tells the buttons as they were right after some event. */
  lemma LastByteIsAMask(
    relative: bool, events: seq<MouseHook.HookEvent>, delivered: seq<nat>, b: Button) returns (n: nat)
    requires forall i | 0 <= i < |delivered| :: delivered[i] < |MouseHook.PacketsOf(relative, events)|
    ensures n <= |events|
    ensures |MouseHook.PacketsOf(relative, events[..n])|
         == if |delivered| == 0 then 0 else delivered[|delivered| - 1] + 1
    ensures IsDown(LastByte(Selected(MouseHook.PacketsOf(relative, events), delivered)), b)
       <==> MouseHook.LastWasDown(events[..n], b)
  {
    if |delivered| == 0 {
      n := 0;
      assert !IsDown(0, b);
    } else {
      n := PacketCarriesMask(relative, events, delivered[|delivered| - 1]);
      MouseHook.MaskIsLastEvents(events[..n], b);
    }
  }

  /**
    After a successful tick, for any loss, repetition and reordering of packets and any local devices: each of
    the host's three buttons is down exactly when, up to the event whose packet arrived last, its last injected
    event was a press, or the local device that reported last holds it by its own events.
   */
  lemma ButtonsEndToEnd(
    script: seq<Event>, e: Event, relative: bool, events: seq<MouseHook.HookEvent>,
    delivered: seq<nat>, loops: seq<LocalMouse.Loop>, b: Button) returns (n: nat)
    requires SuccessfulTick(script, e)
    requires forall i | 0 <= i < |delivered| :: delivered[i] < |MouseHook.PacketsOf(relative, events)|
    requires FedBy(script, Selected(MouseHook.PacketsOf(relative, events), delivered), loops)
    ensures n <= |events|
    ensures |MouseHook.PacketsOf(relative, events[..n])|
         == if |delivered| == 0 then 0 else delivered[|delivered| - 1] + 1
    ensures IsDown(Step(Run(script), e).host.buttons, b)
       <==> MouseHook.LastWasDown(events[..n], b) || LocalRuns.LoopsHold(loops, b, false)
  {
    n := LastByteIsAMask(relative, events, delivered, b);
    HostButtonsOfRun(script, e, Selected(MouseHook.PacketsOf(relative, events), delivered), loops, b);
  }

  /** Once the newest packet has been the last to arrive, the host agrees with all injected events. */
  lemma ButtonsAgreeEndToEnd(
    script: seq<Event>, e: Event, relative: bool, events: seq<MouseHook.HookEvent>,
    delivered: seq<nat>, loops: seq<LocalMouse.Loop>, b: Button)
    requires SuccessfulTick(script, e)
    requires |delivered| > 0
    requires forall i | 0 <= i < |delivered| :: delivered[i] < |MouseHook.PacketsOf(relative, events)|
    requires delivered[|delivered| - 1] == |MouseHook.PacketsOf(relative, events)| - 1
    requires FedBy(script, Selected(MouseHook.PacketsOf(relative, events), delivered), loops)
    ensures IsDown(Step(Run(script), e).host.buttons, b)
       <==> MouseHook.LastWasDown(events, b) || LocalRuns.LoopsHold(loops, b, false)
  {
    var n := ButtonsEndToEnd(script, e, relative, events, delivered, loops, b);
    MouseHook.AllPacketsSent(relative, events, n, b);
  }
}
