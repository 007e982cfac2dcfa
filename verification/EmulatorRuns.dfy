/** What holds over every run of the emulator, from start-up to any point before or after shutdown. */
module EmulatorRuns {
  import opened Wrappers
  import opened AxisQueue
  import opened Merger
  import opened CloseLog
  import opened BtProfile
  import opened HidEmulator

  function Run(script: seq<Event>): System { Exec(INITIAL, script) }

  /** The step that event `e` makes in state `s` is one iteration of the dispatch loop. */
  predicate IsTick(s: System, e: Event) {
    e.MainThread? && s.pc.Session? && s.running && s.profile.IsConnected()
  }

  // ---------------------------------------------------------------- sockets

  ghost predicate SocketsInOrder(s: System) {
    && BtProfile.Accounted(s.profile)
    && (s.pc.Session? ==> s.profile.IsConnected() && s.profile.ctrlSock.Some? && s.profile.intrSock.Some?)
    && (s.pc.Stopped? ==> HoldsNone(s.profile) && !s.profile.connected)
  }

  lemma StepKeepsSockets(s: System, e: Event)
    requires SocketsInOrder(s)
    ensures SocketsInOrder(Step(s, e))
  {
    if e.MainThread? {
      WaitKeepsAccount(s.profile, e.raises, e.addr);
      WaitOutcome(s.profile, e.raises, e.addr);
      DisconnectClosesEverything(s.profile);
    }
  }

  /**
    Over every run, whatever fails: each socket issued is held in exactly one field or was closed
    exactly once, a session holds all four sockets, and after shutdown every socket ever issued has
    been closed exactly once.
   */
  lemma {:induction false} SocketAccounting(script: seq<Event>)
    ensures SocketsInOrder(Run(script))
    ensures Run(script).pc.Stopped? ==>
              forall socket: nat ::
                TimesClosed(Run(script).profile.closed, socket) == if socket < Run(script).profile.issued then 1 else 0
  {
    if |script| > 0 {
      SocketAccounting(script[..|script| - 1]);
      StepKeepsSockets(Run(script[..|script| - 1]), script[|script| - 1]);
    }
    var p := Run(script).profile;
    if Run(script).pc.Stopped? {
      forall socket: nat ensures TimesHeld(p, socket) == 0 {
      }
    }
  }

  /** While the program runs, no client is connected between sessions. */
  ghost predicate NoClientsOutside(s: System) {
    s.pc.Outer? && s.running ==>
      s.profile.ctrlClient.None? && s.profile.intrClient.None? && s.profile.clientAddr.None? && !s.profile.connected
  }

  lemma StepKeepsClientsOut(s: System, e: Event)
    requires NoClientsOutside(s)
    ensures NoClientsOutside(Step(s, e))
  {
    if e.MainThread? {
      WaitOutcome(s.profile, e.raises, e.addr);
    }
  }

  /** Over every run: outside its sessions a running program holds no client, and ending one closes every socket. */
  lemma {:induction false} SessionsEndClean(script: seq<Event>, e: Event)
    ensures NoClientsOutside(Run(script))
    ensures Run(script).pc.Ending? && Run(script).running && e.MainThread? ==>
              HoldsNone(Step(Run(script), e).profile) && Step(Run(script), e).pc.Outer?
  {
    if |script| > 0 {
      SessionsEndClean(script[..|script| - 1], e);
      StepKeepsClientsOut(Run(script[..|script| - 1]), script[|script| - 1]);
    }
  }

  function MainSteps(script: seq<Event>): nat {
    if |script| == 0 then 0
    else MainSteps(script[..|script| - 1]) + if script[|script| - 1].MainThread? then 1 else 0
  }

  function StepsToStop(pc: Pc): nat {
    match pc
    case Session => 3
    case Ending => 2
    case Outer => 1
    case Stopped => 0
  }

  /** Once signalled, the main thread stops within three of its own steps, whatever the others do. */
  lemma {:induction false} SignalledMainStops(s: System, script: seq<Event>)
    requires !s.running
    ensures !Exec(s, script).running
    ensures MainSteps(script) >= StepsToStop(s.pc) ==> Exec(s, script).pc.Stopped?
    ensures StepsToStop(Exec(s, script).pc) + MainSteps(script) <= StepsToStop(s.pc) || Exec(s, script).pc.Stopped?
  {
    if |script| > 0 {
      SignalledMainStops(s, script[..|script| - 1]);
    }
  }

  // ---------------------------------------------------------------- conservation

  function InputOf(e: Event, axis: Axis): int {
    if !e.Input? then 0 else if axis.X? then e.dx else e.dy
  }

  function TotalInput(script: seq<Event>, axis: Axis): int {
    if |script| == 0 then 0
    else TotalInput(script[..|script| - 1], axis) + InputOf(script[|script| - 1], axis)
  }

  /** Motion in reports delivered, in reports lost, and still in the merger. */
  function Settled(s: System, axis: Axis): int {
    TotalReported(s.sent, axis) + TotalReported(s.failed, axis) + s.merger.Motion(axis)
  }

  /** Outside the dispatch loop no report is made and only the producers change the merger's motion. */
  lemma OtherSteps(s: System, e: Event, axis: Axis)
    requires !IsTick(s, e)
    ensures Step(s, e).sent == s.sent && Step(s, e).failed == s.failed
    ensures Step(s, e).merger.Motion(axis) == s.merger.Motion(axis) + InputOf(e, axis)
    ensures Step(s, e).host.Position(axis) == s.host.Position(axis)
    ensures Step(s, e).sessions == s.sessions + if Step(s, e).pc.Session? && !s.pc.Session? then 1 else 0
  {
    if e.MainThread? {
      match s.pc
      case Outer =>
      case Session =>
      case Ending =>
      case Stopped =>
    }
  }

  lemma FlushSplits(m: Fields, lastButtons: bv8, axis: Axis)
    ensures FlushReport(m).Motion(axis) + AfterFlush(m).Motion(axis) == m.Motion(axis)
    ensures !WorthSending(FlushReport(m), lastButtons) ==> FlushReport(m).Motion(axis) == 0
  {
  }

  /** The report, when there is one, goes to the host or is lost. */
  lemma TickResult(s: System, sendRaises: bool, t: System)
    requires t == Ticking(s, sendRaises)
    ensures var r := FlushReport(s.merger);
            var sending := WorthSending(r, s.lastButtons);
            var delivered := sending && SendSucceeds(s.profile, sendRaises);
            && t.merger == AfterFlush(s.merger)
            && t.sent == (if delivered then s.sent + [r] else s.sent)
            && t.failed == (if sending && !delivered then s.failed + [r] else s.failed)
            && t.host == (if delivered then Receive(s.host, r) else s.host)
            && t.lastButtons == (if delivered then r.buttons else s.lastButtons)
  {
  }

  lemma TickAccounts(s: System, sendRaises: bool, axis: Axis)
    ensures Settled(Ticking(s, sendRaises), axis) == Settled(s, axis)
    ensures Ticking(s, sendRaises).host.Position(axis) - TotalReported(Ticking(s, sendRaises).sent, axis)
         == s.host.Position(axis) - TotalReported(s.sent, axis)
  {
    var r := FlushReport(s.merger);
    TickResult(s, sendRaises, Ticking(s, sendRaises));
    FlushSplits(s.merger, s.lastButtons, axis);
    TotalReportedAppend(s.sent, r, axis);
    TotalReportedAppend(s.failed, r, axis);
  }

  lemma StepAccounts(s: System, e: Event, axis: Axis)
    ensures Settled(Step(s, e), axis) == Settled(s, axis) + InputOf(e, axis)
    ensures Step(s, e).host.Position(axis) - TotalReported(Step(s, e).sent, axis)
         == s.host.Position(axis) - TotalReported(s.sent, axis)
  {
    if IsTick(s, e) {
      TickAccounts(s, e.sendRaises, axis);
    } else {
      OtherSteps(s, e, axis);
    }
  }

  /**
    Over every run and per axis: everything the producers added has been received by the host, was in
    a report whose send failed, or is still in the merger.
   */
  lemma {:induction false} MotionIsAccountedFor(script: seq<Event>, axis: Axis)
    ensures TotalInput(script, axis)
         == TotalReported(Run(script).sent, axis) + TotalReported(Run(script).failed, axis)
            + Run(script).merger.Motion(axis)
    ensures Run(script).host.Position(axis) == TotalReported(Run(script).sent, axis)
  {
    if |script| > 0 {
      MotionIsAccountedFor(script[..|script| - 1], axis);
      StepAccounts(Run(script[..|script| - 1]), script[|script| - 1], axis);
    }
  }

  ghost predicate Fits(reports: seq<Report>) {
    forall i | 0 <= i < |reports| :: -LIMIT <= reports[i].dx <= LIMIT && -LIMIT <= reports[i].dy <= LIMIT
  }

  /** The step ends the session because the send failed. */
  predicate LosesSession(s: System, e: Event) { IsTick(s, e) && Step(s, e).pc.Ending? }

  function SessionsLost(script: seq<Event>): nat {
    if |script| == 0 then 0
    else
      SessionsLost(script[..|script| - 1])
      + if LosesSession(Run(script[..|script| - 1]), script[|script| - 1]) then 1 else 0
  }

  lemma StepCountsReports(s: System, e: Event)
    requires Fits(s.sent) && Fits(s.failed)
    ensures Fits(Step(s, e).sent) && Fits(Step(s, e).failed)
    ensures |Step(s, e).failed| == |s.failed| + if LosesSession(s, e) then 1 else 0
    ensures Step(s, e).sessions == s.sessions + if Step(s, e).pc.Session? && !s.pc.Session? then 1 else 0
  {
    if !IsTick(s, e) {
      OtherSteps(s, e, X);
    }
  }

  /** Every report handed over fits its fields, and a session loses at most the one report that ends it. */
  lemma {:induction false} OneReportLostPerLostSession(script: seq<Event>)
    ensures Fits(Run(script).sent) && Fits(Run(script).failed)
    ensures |Run(script).failed| == SessionsLost(script)
    ensures SessionsLost(script) + (if Run(script).pc.Session? then 1 else 0) <= Run(script).sessions
  {
    if |script| > 0 {
      OneReportLostPerLostSession(script[..|script| - 1]);
      StepCountsReports(Run(script[..|script| - 1]), script[|script| - 1]);
    }
  }

  lemma {:induction false} TotalOfFitting(reports: seq<Report>, axis: Axis)
    requires Fits(reports)
    ensures Abs(TotalReported(reports, axis)) <= LIMIT * |reports|
  {
    if |reports| > 0 {
      TotalOfFitting(reports[..|reports| - 1], axis);
    }
  }

  /** `motion` is at the host or in the merger, but for at most one report per session lost to a failed send. */
  predicate ArrivesButForLostReports(script: seq<Event>, axis: Axis, motion: int) {
    Abs(motion - Run(script).host.Position(axis) - Run(script).merger.Motion(axis)) <= LIMIT * SessionsLost(script)
  }

  lemma {:induction false} LostMotionIsBounded(script: seq<Event>, axis: Axis)
    ensures ArrivesButForLostReports(script, axis, TotalInput(script, axis))
  {
    MotionIsAccountedFor(script, axis);
    OneReportLostPerLostSession(script);
    TotalOfFitting(Run(script).failed, axis);
  }

  /**
    Motion leaves the system only when a report that carries some is handed to a send that fails: then, and
    only then, host and merger together have less than before.
   */
  lemma MotionIsLostExactlyWhen(s: System, e: Event, axis: Axis)
    requires e.MainThread? && (s.pc.Session? ==> s.profile.IsConnected())
    ensures Step(s, e).host.Position(axis) + Step(s, e).merger.Motion(axis)
         == s.host.Position(axis) + s.merger.Motion(axis)
       <==> !(IsTick(s, e) && e.sendRaises && s.merger.Motion(axis) != 0)
  {
    if IsTick(s, e) {
      FlushSplits(s.merger, s.lastButtons, axis);
    } else {
      OtherSteps(s, e, axis);
    }
  }

  lemma FailedSendInSession(s: System, addr: string)
    requires s.pc.Session? && s.running && s.profile.IsConnected() && s.merger.dx == 0
    ensures var after := Step(Step(s, Input(5, 0, 0, Network)), MainThread(None, addr, true));
            after.host.x == s.host.x && after.merger.dx == 0
  {
    var input, tick := Input(5, 0, 0, Network), MainThread(None, addr, true);
    assert IsTick(Step(s, input), tick);
    assert Step(s, input).merger.dx == 5;
  }

  lemma RunNext(script: seq<Event>, e: Event)
    ensures Run(script + [e]) == Step(Run(script), e)
    ensures TotalInput(script + [e], X) == TotalInput(script, X) + InputOf(e, X)
  {
    assert (script + [e])[..|script|] == script;
  }

  lemma ThreeSteps(a: Event, b: Event, c: Event)
    ensures Run([a, b, c]) == Step(Step(Step(INITIAL, a), b), c)
    ensures TotalInput([a, b, c], X) == InputOf(a, X) + InputOf(b, X) + InputOf(c, X)
  {
    RunNext([], a);
    RunNext([a], b);
    RunNext([a, b], c);
    assert [] + [a] == [a] && [a] + [b] == [a, b] && [a, b] + [c] == [a, b, c];
  }

  /** Connect, five units from the network, and a send that fails: they are neither at the host nor in the merger. */
  lemma FailedSendLosesMotion(addr: string)
    ensures var script := [MainThread(None, addr, false), Input(5, 0, 0, Network), MainThread(None, addr, true)];
            TotalInput(script, X) == 5 && Run(script).host.x == 0 && Run(script).merger.dx == 0
  {
    ThreeSteps(MainThread(None, addr, false), Input(5, 0, 0, Network), MainThread(None, addr, true));
    FailedSendInSession(Step(INITIAL, MainThread(None, addr, false)), addr);
  }

  /** No step of `script` from `s` is an iteration of the dispatch loop. */
  predicate NoTicks(s: System, script: seq<Event>) {
    |script| > 0 ==>
      && NoTicks(s, script[..|script| - 1])
      && !IsTick(Exec(s, script[..|script| - 1]), script[|script| - 1])
  }

  /** While no host is being served, all motion is kept for the next session and nothing is sent. */
  lemma {:induction false} MotionIsKeptWhileDisconnected(s: System, script: seq<Event>, axis: Axis)
    requires NoTicks(s, script)
    ensures Exec(s, script).merger.Motion(axis) == s.merger.Motion(axis) + TotalInput(script, axis)
    ensures Exec(s, script).sent == s.sent && Exec(s, script).failed == s.failed
  {
    if |script| > 0 {
      MotionIsKeptWhileDisconnected(s, script[..|script| - 1], axis);
    }
  }

  /** `k` ticks with nothing arriving and no send failing. */
  function QuietTicks(k: nat): seq<Event> { seq(k, _ => MainThread(None, "", false)) }

  /**
    A session with no new input delivers what has accumulated at the queue's drain rate and loses nothing:
    the host has received exactly what has left the merger.
   */
  lemma {:induction false} QuietSessionDrains(s: System, k: nat, axis: Axis)
    requires s.pc.Session? && s.running && s.profile.IsConnected()
    ensures var t := Exec(s, QuietTicks(k));
            && t.pc.Session? && t.running && t.profile == s.profile
            && t.merger.Motion(axis) == Backlog(s.merger.Motion(axis), NoInput(k))
            && t.host.Position(axis) - s.host.Position(axis) == s.merger.Motion(axis) - t.merger.Motion(axis)
  {
    if k > 0 {
      assert QuietTicks(k)[..k - 1] == QuietTicks(k - 1);
      assert NoInput(k)[..k - 1] == NoInput(k - 1);
      QuietSessionDrains(s, k - 1, axis);
    }
  }

  /** After as many quiet ticks as the backlog needs, and not before, the merger's axis is empty. */
  lemma QuietSessionEmptiesExactlyWhen(s: System, k: nat, axis: Axis)
    requires s.pc.Session? && s.running && s.profile.IsConnected()
    ensures Exec(s, QuietTicks(k)).merger.Motion(axis) == 0 <==> FlushesNeeded(s.merger.Motion(axis)) <= k
  {
    QuietSessionDrains(s, k, axis);
    DrainsExactlyWhen(s.merger.Motion(axis), k);
  }

  // ---------------------------------------------------------------- suppression

  /** A dispatcher that sends a report on every tick. */
  function EagerStep(s: System, e: Event): System {
    if IsTick(s, e) then Sending(Flushed(s), FlushReport(s.merger), e.sendRaises) else Step(s, e)
  }

  function EagerRun(script: seq<Event>): System {
    if |script| == 0 then INITIAL else EagerStep(EagerRun(script[..|script| - 1]), script[|script| - 1])
  }

  /** The script makes no send fail on a tick whose report the real dispatcher suppresses. */
  predicate FailuresAreOfSentReports(script: seq<Event>) {
    |script| > 0 ==>
      && FailuresAreOfSentReports(script[..|script| - 1])
      && var s, e := Run(script[..|script| - 1]), script[|script| - 1];
         IsTick(s, e) && e.sendRaises ==> WorthSending(FlushReport(s.merger), s.lastButtons)
  }

  /** In a session the host's buttons are the low three bits of the last report's. */
  lemma {:induction false} HostButtonsFollow(script: seq<Event>)
    ensures Run(script).pc.Session? ==> Run(script).host.buttons == Run(script).lastButtons & 0x07
  {
    if |script| > 0 {
      HostButtonsFollow(script[..|script| - 1]);
      ZeroMask();
    }
  }

  lemma ZeroMask()
    ensures (0 as bv8) & 0x07 == 0
  {
  }

  /** Equal but for the list of reports sent. */
  predicate Same(s: System, t: System) { s.(sent := []) == t.(sent := []) }

  lemma OtherStepIsTheSame(s: System, t: System, e: Event)
    requires Same(s, t) && !IsTick(s, e)
    ensures Same(Step(s, e), Step(t, e))
  {
    if e.MainThread? {
      match s.pc
      case Outer =>
      case Session =>
      case Ending =>
      case Stopped =>
    }
  }

  lemma EagerStepIsTheSame(s: System, t: System, e: Event)
    requires Same(s, t) && SocketsInOrder(s)
    requires s.pc.Session? ==> s.host.buttons == s.lastButtons & 0x07
    requires IsTick(s, e) && e.sendRaises ==> WorthSending(FlushReport(s.merger), s.lastButtons)
    ensures Same(Step(s, e), EagerStep(t, e))
  {
    if IsTick(s, e) {
      if !WorthSending(FlushReport(s.merger), s.lastButtons) {
        assert Receive(s.host, FlushReport(s.merger)) == s.host;
      }
    } else {
      OtherStepIsTheSame(s, t, e);
    }
  }

  lemma {:induction false} EagerRunIsTheSame(script: seq<Event>)
    requires FailuresAreOfSentReports(script)
    ensures Same(Run(script), EagerRun(script))
  {
    if |script| > 0 {
      var before := script[..|script| - 1];
      EagerRunIsTheSame(before);
      HostButtonsFollow(before);
      SocketAccounting(before);
      EagerStepIsTheSame(Run(before), EagerRun(before), script[|script| - 1]);
    }
  }

  /** The event as it is seen in `s`: a failing send means nothing on a tick that sends nothing. */
  function Effective(s: System, e: Event): Event {
    if IsTick(s, e) && !WorthSending(FlushReport(s.merger), s.lastButtons) then e.(sendRaises := false) else e
  }

  function EffectiveScript(script: seq<Event>): (t: seq<Event>)
    ensures |t| == |script|
  {
    if |script| == 0 then []
    else
      EffectiveScript(script[..|script| - 1])
      + [Effective(Run(script[..|script| - 1]), script[|script| - 1])]
  }

  lemma EffectiveStep(s: System, e: Event)
    ensures Step(s, Effective(s, e)) == Step(s, e) && IsTick(s, Effective(s, e)) == IsTick(s, e)
  {
  }

  lemma {:induction false} EffectiveScriptIsTheSameRun(script: seq<Event>)
    ensures Run(EffectiveScript(script)) == Run(script) && FailuresAreOfSentReports(EffectiveScript(script))
  {
    if |script| > 0 {
      var before, e := script[..|script| - 1], script[|script| - 1];
      EffectiveScriptIsTheSameRun(before);
      EffectiveStep(Run(before), e);
      assert EffectiveScript(script)[..|script| - 1] == EffectiveScript(before);
    }
  }

  /**
    Suppressing reports changes nothing but their number: at every point of every run the whole system,
    and with it the host's cursor and buttons, is what a dispatcher sending on every tick would give, its
    extra reports being delivered.
   */
  lemma {:induction false} SuppressionPreservesMeaning(script: seq<Event>)
    ensures Same(Run(script), EagerRun(EffectiveScript(script)))
  {
    EffectiveScriptIsTheSameRun(script);
    EagerRunIsTheSame(EffectiveScript(script));
  }

  /**
    After a successful tick the host's buttons are the low three bits of what the two sources hold, high
    bits of a network byte notwithstanding.
   */
  lemma HostButtonsAfterTick(script: seq<Event>, e: Event)
    requires IsTick(Run(script), e)
    ensures Step(Run(script), e).pc.Session? ==>
              && Step(Run(script), e).host.buttons == (Run(script).merger.network | Run(script).merger.local) & 0x07
              && Step(Run(script), e).lastButtons == Run(script).merger.network | Run(script).merger.local
  {
    HostButtonsFollow(script);
    TickButtons(Run(script), e);
  }

  lemma TickButtons(s: System, e: Event)
    requires IsTick(s, e) && s.host.buttons == s.lastButtons & 0x07
    ensures Step(s, e).pc.Session? ==>
              && Step(s, e).lastButtons == FlushReport(s.merger).buttons
              && Step(s, e).host.buttons == FlushReport(s.merger).buttons & 0x07
  {
    assert Step(s, e) == Ticking(s, e.sendRaises);
  }

  // ---------------------------------------------------------------- the merger inside the run

  /** The call on the merger made by the step of `e` from `s`, if any. */
  function CallOf(s: System, e: Event): seq<Call> {
    if e.Input? then [Accumulate(e.dx, e.dy, e.buttons, e.source)]
    else if IsTick(s, e) then [Flush]
    else []
  }

  /** The calls the run makes on the merger. */
  function CallsOf(script: seq<Event>): seq<Call> {
    if |script| == 0 then []
    else CallsOf(script[..|script| - 1]) + CallOf(Run(script[..|script| - 1]), script[|script| - 1])
  }

  lemma StepCallsMerger(s: System, e: Event)
    ensures Step(s, e).merger == ApplyAll(s.merger, CallOf(s, e))
  {
    if CallOf(s, e) != [] {
      assert CallOf(s, e)[..0] == [];
    }
  }

  lemma {:induction false} RunCallsMerger(script: seq<Event>)
    ensures Run(script).merger == ApplyAll(EMPTY, CallsOf(script))
  {
    if |script| > 0 {
      var s := Run(script[..|script| - 1]);
      RunCallsMerger(script[..|script| - 1]);
      StepCallsMerger(s, script[|script| - 1]);
      ApplyAllConcat(EMPTY, CallsOf(script[..|script| - 1]), CallOf(s, script[|script| - 1]));
    }
  }

  /** Throughout the run the merger holds the exact queue of what arrived before each tick, and what came since. */
  lemma RunIsTheQueue(script: seq<Event>, axis: Axis)
    ensures Run(script).merger.Motion(axis)
         == Backlog(0, Arrivals(CallsOf(script), axis)) + Pending(CallsOf(script), axis)
  {
    var calls := CallsOf(script);
    RunCallsMerger(script);
    RefinesAxisQueue(EMPTY, calls, axis);
  }

  /**
    For any bound: if every window of ticks receives at most its capacity plus `bound` units, the merger
    never has more than `bound` waiting from before the last tick.
   */
  lemma RunBacklogBound(script: seq<Event>, axis: Axis, bound: nat)
    requires WindowsWithin(Magnitudes(Arrivals(CallsOf(script), axis)), bound)
    ensures Abs(Run(script).merger.Motion(axis) - Pending(CallsOf(script), axis)) <= bound
  {
    BoundedInputBoundedResidual(Arrivals(CallsOf(script), axis), bound);
    RunIsTheQueue(script, axis);
  }

  // ---------------------------------------------------------------- the producers inside the run

  /** The call one producer makes at this event, if any. */
  function InputFrom(e: Event, source: Source): (calls: seq<Call>)
    ensures |calls| <= 1
  {
    if e.Input? && e.source == source then [Accumulate(e.dx, e.dy, e.buttons, e.source)] else []
  }

  /** The calls one producer makes in a run of the emulator. */
  function InputsFrom(script: seq<Event>, source: Source): seq<Call> {
    if |script| == 0 then []
    else InputsFrom(script[..|script| - 1], source) + InputFrom(script[|script| - 1], source)
  }

  lemma {:induction false} InputsAreFrom(script: seq<Event>, source: Source)
    ensures forall i | 0 <= i < |InputsFrom(script, source)| :: InputsFrom(script, source)[i].From(source)
  {
    if |script| > 0 {
      InputsAreFrom(script[..|script| - 1], source);
    }
  }

  lemma {:induction false} InputsSplitBySource(script: seq<Event>, axis: Axis)
    ensures TotalInput(script, axis)
         == Total(InputsFrom(script, Network), axis) + Total(InputsFrom(script, Local), axis)
  {
    if |script| > 0 {
      var before, e := script[..|script| - 1], script[|script| - 1];
      InputsSplitBySource(before, axis);
      TotalConcat(InputsFrom(before, Network), InputFrom(e, Network), axis);
      TotalConcat(InputsFrom(before, Local), InputFrom(e, Local), axis);
      TotalOfInput(e, axis);
    }
  }

  lemma TotalOfInput(e: Event, axis: Axis)
    ensures Total(InputFrom(e, Network), axis) + Total(InputFrom(e, Local), axis) == InputOf(e, axis)
  {
    if e.Input? {
      assert InputFrom(e, e.source)[..0] == [];
    }
  }

  // ---------------------------------------------------------------- the reports of a run

  /** The reports the dispatcher flushes, sent or not. */
  function FlushedReports(script: seq<Event>): seq<Report> {
    if |script| == 0 then []
    else
      var s := Run(script[..|script| - 1]);
      FlushedReports(script[..|script| - 1])
      + if IsTick(s, script[|script| - 1]) then [FlushReport(s.merger)] else []
  }

  lemma ReportsOfCall(m: Fields, calls: seq<Call>, more: seq<Call>)
    requires |more| <= 1
    ensures Reports(m, calls + more)
         == Reports(m, calls) + if |more| == 1 && more[0].Flush? then [FlushReport(ApplyAll(m, calls))] else []
  {
    if |more| == 0 {
      assert calls + more == calls;
    } else {
      assert (calls + more)[..|calls|] == calls;
    }
  }

  /** The flushed reports are those of the run's calls, and along each axis the queue's outputs. */
  lemma {:induction false} FlushedAreTheQueues(script: seq<Event>, axis: Axis)
    ensures FlushedReports(script) == Reports(EMPTY, CallsOf(script))
    ensures Along(FlushedReports(script), axis) == Outputs(0, Arrivals(CallsOf(script), axis))
  {
    if |script| > 0 {
      var before := script[..|script| - 1];
      FlushedAreTheQueues(before, axis);
      RunCallsMerger(before);
      ReportsOfCall(EMPTY, CallsOf(before), CallOf(Run(before), script[|script| - 1]));
    }
    RefinesAxisQueue(EMPTY, CallsOf(script), axis);
  }

  lemma {:induction false} SumAlong(reports: seq<Report>, axis: Axis)
    ensures Sum(Along(reports, axis)) == TotalReported(reports, axis)
  {
    if |reports| > 0 {
      SumAlong(reports[..|reports| - 1], axis);
      assert Along(reports, axis)[..|reports| - 1] == Along(reports[..|reports| - 1], axis);
    }
  }

  lemma TickFlushes(s: System, e: Event, axis: Axis)
    requires IsTick(s, e)
    ensures TotalReported(Step(s, e).sent, axis) + TotalReported(Step(s, e).failed, axis)
         == TotalReported(s.sent, axis) + TotalReported(s.failed, axis) + FlushReport(s.merger).Motion(axis)
  {
    TickAccounts(s, e.sendRaises, axis);
    FlushSplits(s.merger, s.lastButtons, axis);
  }

  /** What is flushed is sent or fails. */
  lemma {:induction false} FlushedAreSentOrFail(script: seq<Event>, axis: Axis)
    ensures TotalReported(FlushedReports(script), axis)
         == TotalReported(Run(script).sent, axis) + TotalReported(Run(script).failed, axis)
  {
    if |script| > 0 {
      var before, e := script[..|script| - 1], script[|script| - 1];
      FlushedAreSentOrFail(before, axis);
      if IsTick(Run(before), e) {
        TickFlushes(Run(before), e, axis);
        TotalReportedAppend(FlushedReports(before), FlushReport(Run(before).merger), axis);
      } else {
        OtherSteps(Run(before), e, axis);
        assert FlushedReports(script) == FlushedReports(before);
      }
    }
  }

  lemma FlushedFollowTheQueue(script: seq<Event>, axis: Axis)
    ensures TotalReported(FlushedReports(script), axis) == Sum(Outputs(0, Arrivals(CallsOf(script), axis)))
  {
    FlushedAreTheQueues(script, axis);
    SumAlong(FlushedReports(script), axis);
  }

  /** The host is where the queue's outputs take it, but for at most one report per session lost to a failed send. */
  lemma {:induction false} HostFollowsTheQueue(script: seq<Event>, axis: Axis)
    ensures Abs(Sum(Outputs(0, Arrivals(CallsOf(script), axis))) - Run(script).host.Position(axis))
         <= LIMIT * SessionsLost(script)
  {
    FlushedFollowTheQueue(script, axis);
    FlushedAreSentOrFail(script, axis);
    MotionIsAccountedFor(script, axis);
    OneReportLostPerLostSession(script);
    TotalOfFitting(Run(script).failed, axis);
  }

  /** No dispatcher that sends at most 127 per tick, and only what has arrived, would have flushed more. */
  lemma FlushingIsOptimalInRuns(script: seq<Event>, axis: Axis, schedule: seq<int>)
    requires NonNegative(Arrivals(CallsOf(script), axis))
    requires Feasible(0, Arrivals(CallsOf(script), axis), schedule)
    ensures Sum(schedule) <= TotalReported(FlushedReports(script), axis)
  {
    FlushingIsOptimal(0, Arrivals(CallsOf(script), axis), schedule);
    FlushedFollowTheQueue(script, axis);
  }

  /** Nor would it have the host ahead of where it is by more than the reports lost with their sessions. */
  lemma {:induction false} HostIsNeverBehind(script: seq<Event>, axis: Axis, schedule: seq<int>)
    requires NonNegative(Arrivals(CallsOf(script), axis))
    requires Feasible(0, Arrivals(CallsOf(script), axis), schedule)
    ensures Sum(schedule) <= Run(script).host.Position(axis) + LIMIT * SessionsLost(script)
  {
    FlushingIsOptimal(0, Arrivals(CallsOf(script), axis), schedule);
    HostFollowsTheQueue(script, axis);
  }

  /** The backlog from before the last tick. */
  function Waiting(script: seq<Event>, axis: Axis): int {
    Run(script).merger.Motion(axis) - Pending(CallsOf(script), axis)
  }

  lemma RunFollowsTheQueue(script: seq<Event>, axis: Axis)
    ensures Waiting(script, axis) == Backlog(0, Arrivals(CallsOf(script), axis))
    ensures TotalReported(FlushedReports(script), axis) == Sum(Outputs(0, Arrivals(CallsOf(script), axis)))
  {
    RunIsTheQueue(script, axis);
    FlushedFollowTheQueue(script, axis);
  }

  /**
    Two runs with equally many ticks are no further apart than the motion that reached them, in backlog and
    flushed motion together.
   */
  lemma RunsAreStable(script: seq<Event>, other: seq<Event>, axis: Axis)
    requires |Arrivals(CallsOf(script), axis)| == |Arrivals(CallsOf(other), axis)|
    ensures Gap(Waiting(script, axis), Waiting(other, axis),
                TotalReported(FlushedReports(script), axis), TotalReported(FlushedReports(other), axis))
         <= Distance(Arrivals(CallsOf(script), axis), Arrivals(CallsOf(other), axis))
  {
    RunFollowsTheQueue(script, axis);
    RunFollowsTheQueue(other, axis);
    TwoRunStability(0, Arrivals(CallsOf(script), axis), 0, Arrivals(CallsOf(other), axis));
  }

  /** Where the queue's outputs would have the host, where it is, and how far apart the two can be. */
  lemma HostAndQueue(script: seq<Event>, axis: Axis) returns (queue: int, host: int, lost: nat)
    ensures queue == Sum(Outputs(0, Arrivals(CallsOf(script), axis))) && host == Run(script).host.Position(axis)
    ensures lost == LIMIT * SessionsLost(script) && Abs(queue - host) <= lost
  {
    HostFollowsTheQueue(script, axis);
    queue, host := Sum(Outputs(0, Arrivals(CallsOf(script), axis))), Run(script).host.Position(axis);
    lost := LIMIT * SessionsLost(script);
  }

  /** And so are their hosts, but for the reports lost with their sessions. */
  lemma {:induction false} HostsAreStable(script: seq<Event>, other: seq<Event>, axis: Axis)
    requires |Arrivals(CallsOf(script), axis)| == |Arrivals(CallsOf(other), axis)|
    ensures Abs(Run(script).host.Position(axis) - Run(other).host.Position(axis))
         <= Distance(Arrivals(CallsOf(script), axis), Arrivals(CallsOf(other), axis))
            + LIMIT * SessionsLost(script) + LIMIT * SessionsLost(other)
  {
    TwoRunStability(0, Arrivals(CallsOf(script), axis), 0, Arrivals(CallsOf(other), axis));
    var queue, host, lost := HostAndQueue(script, axis);
    var queue', host', lost' := HostAndQueue(other, axis);
  }
}
