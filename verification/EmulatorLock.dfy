/**
  The whole emulator at the grain of single reads and writes: the producers and the flush of `MergerLock`, the
  main thread's loops around that flush, and signals at any moment. `script` and `deferred` record what has
  happened: the main result is that the finished calls, the signals and the main thread's iterations can be put
  into one order, a script, whose atomic run does the same.
 */
module EmulatorLock {
  import opened Wrappers
  import opened Merger
  import Lock = MergerLock
  import opened BtProfile
  import opened HidEmulator
  import opened EmulatorRuns

  /**
    `main` is everything but the merger, whose fields are `lock.mem` (the one in `main` is unused). `flushed` is a
    report that `flush` has returned and the dispatcher not yet dealt with. `deferred` are the events that in
    `script` will come after the tick under way.
   */
  datatype Machine = Machine(
    lock: Lock.System, main: System, flushed: Option<Report>, script: seq<Event>, deferred: seq<Event>)
  {
    /** The main thread is not inside an iteration of the dispatch loop. */
    predicate BetweenTicks() { flushed.None? && lock.dispatcher.Resting? }
  }

  datatype Turn =
    | NetworkTurn(dx: int, dy: int, buttons: bv8)
    | LocalTurn(dx: int, dy: int, buttons: bv8)
    | SignalTurn
    | MainTurn(raises: Option<SocketCall>, addr: string, sendRaises: bool)

  const START := Machine(Lock.INITIAL, INITIAL, None, [], [])

  // ---------------------------------------------------------------- steps

  function InputFor(c: Call): Event
    requires c.Accumulate?
  {
    Input(c.dx, c.dy, c.buttons, c.source)
  }

  /** A call to `accumulate` returns. */
  function CallReturns(m: Machine, c: Call): Machine
    requires c.Accumulate?
  {
    if m.flushed.None? then m.(script := m.script + [InputFor(c)]) else m.(deferred := m.deferred + [InputFor(c)])
  }

  function MoveNetwork(m: Machine, call: Call): (m': Machine)
    requires Lock.WellFormed(m.lock) && call.From(Network)
    ensures Lock.WellFormed(m'.lock)
  {
    var m' := m.(lock := Lock.StepNetwork(m.lock, call));
    if m.lock.network.Leaving? then CallReturns(m', m.lock.network.c) else m'
  }

  function MoveLocal(m: Machine, call: Call): (m': Machine)
    requires Lock.WellFormed(m.lock) && call.From(Local)
    ensures Lock.WellFormed(m'.lock)
  {
    var m' := m.(lock := Lock.StepLocal(m.lock, call));
    if m.lock.local.Leaving? then CallReturns(m', m.lock.local.c) else m'
  }

  function MoveSignal(m: Machine): Machine {
    var m' := m.(main := m.main.(running := false));
    if m.BetweenTicks() then m'.(script := m.script + [Signal]) else m'.(deferred := m.deferred + [Signal])
  }

  /** What the dispatcher does with the report just flushed. */
  function Dispatched(s: System, r: Report, sendRaises: bool): System {
    if WorthSending(r, s.lastButtons) then Sending(s, r, sendRaises) else s
  }

  /** The rest of the tick after its flush. */
  function Finish(m: Machine, e: Event): Machine
    requires m.flushed.Some? && e.MainThread?
  {
    var main := Dispatched(m.main, m.flushed.value, e.sendRaises);
    m.(main := main, flushed := None, script := m.script + [e] + m.deferred, deferred := [])
  }

  /** One step inside `flush`. */
  function FlushOn(m: Machine): Machine {
    var m' := m.(lock := Lock.StepDispatcher(m.lock));
    if m.lock.dispatcher.Returning? then m'.(flushed := Some(m.lock.dispatcher.report)) else m'
  }

  /** One step of the main thread: inside a tick, into one, or one of its steps outside the dispatch loop's body. */
  function MoveMain(m: Machine, e: Event): (m': Machine)
    requires Lock.WellFormed(m.lock) && e.MainThread?
    ensures Lock.WellFormed(m'.lock)
  {
    if m.flushed.Some? then Finish(m, e)
    else if !m.lock.dispatcher.Resting? || IsTick(m.main, e) then FlushOn(m)
    else m.(main := MainStep(m.main, e), script := m.script + [e])
  }

  function Move(m: Machine, turn: Turn): (m': Machine)
    requires Lock.WellFormed(m.lock)
    ensures Lock.WellFormed(m'.lock)
  {
    match turn
    case NetworkTurn(dx, dy, buttons) => MoveNetwork(m, Accumulate(dx, dy, buttons, Network))
    case LocalTurn(dx, dy, buttons) => MoveLocal(m, Accumulate(dx, dy, buttons, Local))
    case SignalTurn => MoveSignal(m)
    case MainTurn(raises, addr, sendRaises) => MoveMain(m, MainThread(raises, addr, sendRaises))
  }

  function After(turns: seq<Turn>): (m: Machine)
    ensures Lock.WellFormed(m.lock)
  {
    if |turns| == 0 then START else Move(After(turns[..|turns| - 1]), turns[|turns| - 1])
  }

  // ---------------------------------------------------------------- events that commute with a tick

  /** Events of the producers and of the signal handler only. */
  ghost predicate NoMain(events: seq<Event>) {
    forall i | 0 <= i < |events| :: !events[i].MainThread?
  }

  ghost predicate OnlySignals(events: seq<Event>) {
    forall i | 0 <= i < |events| :: events[i].Signal?
  }

  /** Producers and signals touch the merger and the flag, and do so whatever the rest is. */
  lemma {:induction false} OthersTouchLittle(s: System, t: System, events: seq<Event>)
    requires NoMain(events) && s.merger == t.merger && s.running == t.running
    ensures Exec(t, events) == t.(merger := Exec(s, events).merger, running := Exec(s, events).running)
  {
    if |events| > 0 {
      OthersTouchLittle(s, t, events[..|events| - 1]);
    }
  }

  lemma {:induction false} SignalsCommute(s: System, e: Event, signals: seq<Event>)
    requires OnlySignals(signals) && e.Input?
    ensures Exec(Step(s, e), signals) == Step(Exec(s, signals), e)
  {
    if |signals| > 0 {
      SignalsCommute(s, e, signals[..|signals| - 1]);
    }
  }

  lemma {:induction false} SignalsKeepMerger(s: System, signals: seq<Event>)
    requires OnlySignals(signals)
    ensures Exec(s, signals).merger == s.merger
    ensures Exec(s.(merger := AfterFlush(s.merger)), signals)
         == Exec(s, signals).(merger := AfterFlush(s.merger))
  {
    if |signals| > 0 {
      SignalsKeepMerger(s, signals[..|signals| - 1]);
    }
  }

  lemma ExecOne(s: System, script: seq<Event>, e: Event)
    ensures Exec(s, script + [e]) == Step(Exec(s, script), e)
  {
    assert (script + [e])[..|script|] == script;
  }

  // ---------------------------------------------------------------- the invariant

  /** The main thread's state, with the merger the finished calls make. */
  function View(m: Machine): System { m.main.(merger := ApplyAll(EMPTY, m.lock.calls)) }

  /** The state in which the tick under way began, but for what has happened since. */
  function TickBase(m: Machine): System {
    if m.flushed.Some? then Flushed(Run(m.script)) else Run(m.script)
  }

  ghost predicate InTick(m: Machine) {
    var s := Run(m.script);
    && s.pc.Session? && s.running && s.profile.IsConnected()
    && (if m.flushed.Some? then
          m.lock.dispatcher.Resting? && m.flushed.value == FlushReport(s.merger) && NoMain(m.deferred)
        else OnlySignals(m.deferred))
  }

  ghost predicate Inv(m: Machine) {
    && Lock.Inv(m.lock)
    && View(m) == Exec(TickBase(m), m.deferred)
    && (if m.BetweenTicks() then m.deferred == [] else InTick(m))
  }

  /** A finished call to `accumulate` takes its place in the script. */
  lemma CallReturnsKeepsInv(m: Machine, m': Machine, c: Call)
    requires Inv(m) && c.Accumulate? && Lock.Inv(m'.lock)
    requires m'.lock.calls == m.lock.calls + [c] && m'.lock.dispatcher == m.lock.dispatcher
    requires m' == CallReturns(m.(lock := m'.lock), c)
    ensures Inv(m')
  {
    var e := InputFor(c);
    Lock.CallReturns(m.lock.calls, c);
    assert View(m') == Step(View(m), e);
    if m.flushed.Some? {
      ExecOne(TickBase(m), m.deferred, e);
    } else {
      ExecOne(INITIAL, m.script, e);
      SignalsCommute(Run(m.script), e, m.deferred);
    }
  }

  lemma NetworkKeepsInv(m: Machine, call: Call)
    requires Inv(m) && call.From(Network)
    ensures Inv(MoveNetwork(m, call))
  {
    Lock.NetworkKeepsInv(m.lock, call);
    if m.lock.network.Leaving? {
      CallReturnsKeepsInv(m, MoveNetwork(m, call), m.lock.network.c);
    }
  }

  lemma LocalKeepsInv(m: Machine, call: Call)
    requires Inv(m) && call.From(Local)
    ensures Inv(MoveLocal(m, call))
  {
    Lock.LocalKeepsInv(m.lock, call);
    if m.lock.local.Leaving? {
      CallReturnsKeepsInv(m, MoveLocal(m, call), m.lock.local.c);
    }
  }

  lemma SignalKeepsInv(m: Machine)
    requires Inv(m)
    ensures Inv(MoveSignal(m))
  {
    ExecOne(INITIAL, m.script, Signal);
    ExecOne(TickBase(m), m.deferred, Signal);
  }

  lemma FlushKeepsInv(m: Machine, e: Event)
    requires Inv(m) && m.flushed.None? && e.MainThread?
    requires !m.lock.dispatcher.Resting? || IsTick(m.main, e)
    ensures Inv(FlushOn(m))
  {
    Lock.DispatcherKeepsInv(m.lock);
    if m.lock.dispatcher.Returning? {
      Lock.CallReturns(m.lock.calls, Flush);
      SignalsKeepMerger(Run(m.script), m.deferred);
    }
  }

  /** Sending looks neither at the merger nor at the flag. */
  lemma DispatchedElsewhere(s: System, m: Fields, running: bool, r: Report, sendRaises: bool)
    ensures Dispatched(s.(merger := m, running := running), r, sendRaises)
         == Dispatched(s, r, sendRaises).(merger := m, running := running)
  {
  }

  /** The tick and what was deferred, from a state in which the tick is due. */
  lemma TickThenDeferred(s: System, e: Event, deferred: seq<Event>)
    requires IsTick(s, e) && NoMain(deferred)
    ensures var f := Exec(Flushed(s), deferred);
            Exec(Step(s, e), deferred) == Dispatched(f, FlushReport(s.merger), e.sendRaises)
  {
    var r, f := FlushReport(s.merger), Exec(Flushed(s), deferred);
    var t := Dispatched(Flushed(s), r, e.sendRaises);
    assert Step(s, e) == t;
    OthersTouchLittle(Flushed(s), t, deferred);
    OthersTouchLittle(Flushed(s), Flushed(s), deferred);
    DispatchedElsewhere(Flushed(s), f.merger, f.running, r, e.sendRaises);
  }

  lemma FinishKeepsInv(m: Machine, e: Event)
    requires Inv(m) && m.flushed.Some? && e.MainThread?
    ensures Inv(Finish(m, e))
  {
    ExecOne(INITIAL, m.script, e);
    ExecConcat(INITIAL, m.script + [e], m.deferred);
    TickThenDeferred(Run(m.script), e, m.deferred);
    DispatchedElsewhere(m.main, View(m).merger, m.main.running, m.flushed.value, e.sendRaises);
  }

  lemma MainKeepsInv(m: Machine, e: Event)
    requires Inv(m) && e.MainThread?
    ensures Inv(MoveMain(m, e))
  {
    if m.flushed.Some? {
      FinishKeepsInv(m, e);
    } else if !m.lock.dispatcher.Resting? || IsTick(m.main, e) {
      FlushKeepsInv(m, e);
    } else {
      ExecOne(INITIAL, m.script, e);
    }
  }

  lemma MoveKeepsInv(m: Machine, turn: Turn)
    requires Inv(m)
    ensures Inv(Move(m, turn))
  {
    match turn
    case NetworkTurn(dx, dy, buttons) => NetworkKeepsInv(m, Accumulate(dx, dy, buttons, Network));
    case LocalTurn(dx, dy, buttons) => LocalKeepsInv(m, Accumulate(dx, dy, buttons, Local));
    case SignalTurn => SignalKeepsInv(m);
    case MainTurn(raises, addr, sendRaises) => MainKeepsInv(m, MainThread(raises, addr, sendRaises));
  }

  lemma {:induction false} Reachable(turns: seq<Turn>)
    ensures Inv(After(turns))
  {
    if |turns| > 0 {
      Reachable(turns[..|turns| - 1]);
      MoveKeepsInv(After(turns[..|turns| - 1]), turns[|turns| - 1]);
    }
  }

  // ---------------------------------------------------------------- results

  /**
    Under every schedule of single reads and writes, sessions, sockets, reports and the host are at every moment
    those of the atomic run of one script; between iterations of the dispatch loop the flag agrees too, and so
    does the merger in memory whenever the lock is free.
   */
  lemma EveryScheduleHasAScript(turns: seq<Turn>)
    ensures var m := After(turns);
            var s := Run(m.script);
            && m.main == s.(merger := m.main.merger, running := m.main.running)
            && (m.main.running ==> s.running)
            && (m.BetweenTicks() ==> m.main.running == s.running)
            && (m.BetweenTicks() && m.lock.holder.Free? ==> m.lock.mem == s.merger)
  {
    Reachable(turns);
    var m := After(turns);
    OthersTouchLittle(TickBase(m), TickBase(m), m.deferred);
  }

  // ---------------------------------------------------------------- the calls in the script

  /** The calls of one producer in the script and after it. */
  function InputsOf(m: Machine, source: Source): seq<Call> {
    InputsFrom(m.script, source) + InputsFrom(m.deferred, source)
  }

  ghost predicate CallsInScript(m: Machine) {
    && Lock.WellFormed(m.lock) && Lock.AllAccountedFor(m.lock)
    && InputsOf(m, Network) == OfSource(m.lock.calls, Network)
    && InputsOf(m, Local) == OfSource(m.lock.calls, Local)
  }

  lemma InputsAppend(script: seq<Event>, e: Event, source: Source)
    ensures InputsFrom(script + [e], source) == InputsFrom(script, source) + InputFrom(e, source)
  {
    assert (script + [e])[..|script|] == script;
  }

  lemma {:induction false} InputsConcat(a: seq<Event>, b: seq<Event>, source: Source)
    ensures InputsFrom(a + b, source) == InputsFrom(a, source) + InputsFrom(b, source)
  {
    if |b| == 0 {
      assert a + b == a;
    } else {
      InputsConcat(a, b[..|b| - 1], source);
      assert (a + b)[..|a + b| - 1] == a + b[..|b| - 1];
    }
  }

  lemma {:induction false} SignalsAreNoInputs(signals: seq<Event>, source: Source)
    requires OnlySignals(signals)
    ensures InputsFrom(signals, source) == []
  {
    if |signals| > 0 {
      SignalsAreNoInputs(signals[..|signals| - 1], source);
    }
  }

  /** A call that returns goes to the end of its producer's calls. */
  lemma CallReturnsInOrder(m: Machine, c: Call, source: Source)
    requires c.Accumulate? && (m.flushed.None? ==> OnlySignals(m.deferred))
    ensures InputsOf(CallReturns(m, c), source) == InputsOf(m, source) + if c.From(source) then [c] else []
  {
    if m.flushed.None? {
      InputsAppend(m.script, InputFor(c), source);
      SignalsAreNoInputs(m.deferred, source);
    } else {
      InputsAppend(m.deferred, InputFor(c), source);
    }
  }

  lemma CallReturnsKeepsCalls(m: Machine, lock: Lock.System, c: Call)
    requires CallsInScript(m) && c.Accumulate? && (m.flushed.None? ==> OnlySignals(m.deferred))
    requires Lock.WellFormed(lock) && Lock.AllAccountedFor(lock) && lock.calls == m.lock.calls + [c]
    ensures CallsInScript(CallReturns(m.(lock := lock), c))
  {
    CallReturnsInOrder(m.(lock := lock), c, Network);
    CallReturnsInOrder(m.(lock := lock), c, Local);
    Lock.OfSourceAppend(m.lock.calls, c);
  }

  lemma NetworkKeepsCalls(m: Machine, call: Call)
    requires CallsInScript(m) && call.From(Network) && (m.flushed.None? ==> OnlySignals(m.deferred))
    ensures CallsInScript(MoveNetwork(m, call))
  {
    Lock.NetworkKeepsAccount(m.lock, call);
    if m.lock.network.Leaving? {
      CallReturnsKeepsCalls(m, Lock.StepNetwork(m.lock, call), m.lock.network.c);
    }
  }

  lemma LocalKeepsCalls(m: Machine, call: Call)
    requires CallsInScript(m) && call.From(Local) && (m.flushed.None? ==> OnlySignals(m.deferred))
    ensures CallsInScript(MoveLocal(m, call))
  {
    Lock.LocalKeepsAccount(m.lock, call);
    if m.lock.local.Leaving? {
      CallReturnsKeepsCalls(m, Lock.StepLocal(m.lock, call), m.lock.local.c);
    }
  }

  lemma SignalKeepsCalls(m: Machine, source: Source)
    ensures InputsOf(MoveSignal(m), source) == InputsOf(m, source)
  {
    InputsAppend(m.script, Signal, source);
    InputsAppend(m.deferred, Signal, source);
  }

  lemma FinishKeepsCalls(m: Machine, e: Event, source: Source)
    requires m.flushed.Some? && e.MainThread?
    ensures InputsOf(Finish(m, e), source) == InputsOf(m, source)
  {
    InputsAppend(m.script, e, source);
    InputsConcat(m.script + [e], m.deferred, source);
  }

  lemma FlushKeepsCalls(m: Machine)
    requires CallsInScript(m)
    ensures CallsInScript(FlushOn(m))
  {
    Lock.DispatcherKeepsAccount(m.lock);
    Lock.OfSourceAppend(m.lock.calls, Flush);
  }

  lemma StepKeepsCalls(m: Machine, main: System, e: Event)
    requires CallsInScript(m) && e.MainThread?
    ensures CallsInScript(m.(main := main, script := m.script + [e]))
  {
    InputsAppend(m.script, e, Network);
    InputsAppend(m.script, e, Local);
  }

  lemma MainKeepsCalls(m: Machine, e: Event)
    requires CallsInScript(m) && e.MainThread?
    ensures CallsInScript(MoveMain(m, e))
  {
    if m.flushed.Some? {
      FinishKeepsCalls(m, e, Network);
      FinishKeepsCalls(m, e, Local);
    } else if !m.lock.dispatcher.Resting? || IsTick(m.main, e) {
      FlushKeepsCalls(m);
    } else {
      StepKeepsCalls(m, MainStep(m.main, e), e);
    }
  }

  lemma MoveKeepsCalls(m: Machine, turn: Turn)
    requires Inv(m) && CallsInScript(m)
    ensures CallsInScript(Move(m, turn))
  {
    match turn
    case NetworkTurn(dx, dy, buttons) => NetworkKeepsCalls(m, Accumulate(dx, dy, buttons, Network));
    case LocalTurn(dx, dy, buttons) => LocalKeepsCalls(m, Accumulate(dx, dy, buttons, Local));
    case SignalTurn =>
      SignalKeepsCalls(m, Network);
      SignalKeepsCalls(m, Local);
    case MainTurn(raises, addr, sendRaises) => MainKeepsCalls(m, MainThread(raises, addr, sendRaises));
  }

  /**
    The script is made of what really happened: every call a producer has started is in it, or deferred to just
    after the tick under way, or still in flight, each once and in the order its thread made them.
   */
  lemma {:induction false} StartedCallsAreInTheScript(turns: seq<Turn>)
    ensures var m := After(turns);
            && OfSource(m.lock.started, Network) == InputsOf(m, Network) + Lock.InFlight(m.lock.network)
            && OfSource(m.lock.started, Local) == InputsOf(m, Local) + Lock.InFlight(m.lock.local)
  {
    CallsAreInScript(turns);
  }

  lemma {:induction false} CallsAreInScript(turns: seq<Turn>)
    ensures CallsInScript(After(turns))
  {
    if |turns| > 0 {
      Reachable(turns[..|turns| - 1]);
      CallsAreInScript(turns[..|turns| - 1]);
      MoveKeepsCalls(After(turns[..|turns| - 1]), turns[|turns| - 1]);
    }
  }

  lemma {:induction false} TotalBySource(calls: seq<Call>, axis: Axis)
    ensures Total(calls, axis) == Total(OfSource(calls, Network), axis) + Total(OfSource(calls, Local), axis)
  {
    if |calls| > 0 {
      var before, c := calls[..|calls| - 1], calls[|calls| - 1];
      TotalBySource(before, axis);
      assert (OfSource(before, Network) + [c])[..|OfSource(before, Network)|] == OfSource(before, Network);
      assert (OfSource(before, Local) + [c])[..|OfSource(before, Local)|] == OfSource(before, Local);
    }
  }

  lemma InputIsTheCalls(m: Machine, axis: Axis)
    requires CallsInScript(m) && m.deferred == []
    ensures TotalInput(m.script, axis) == Total(m.lock.calls, axis)
  {
    InputsSplitBySource(m.script, axis);
    TotalBySource(m.lock.calls, axis);
    assert InputsOf(m, Network) == InputsFrom(m.script, Network);
    assert InputsOf(m, Local) == InputsFrom(m.script, Local);
  }

  /**
    Conservation for the running system at the finest grain: between iterations of the dispatch loop, what the
    finished calls added has been received by the host, was in a report whose send failed, or is in memory.
   */
  lemma {:induction false} MotionIsAccountedForUnderAnySchedule(turns: seq<Turn>, axis: Axis)
    requires After(turns).BetweenTicks() && After(turns).lock.holder.Free?
    ensures var m := After(turns);
            && m.main.host.Position(axis) == TotalReported(m.main.sent, axis)
            && Total(m.lock.calls, axis)
            == m.main.host.Position(axis) + TotalReported(m.main.failed, axis) + m.lock.mem.Motion(axis)
  {
    EveryScheduleHasAScript(turns);
    Reachable(turns);
    CallsAreInScript(turns);
    InputIsTheCalls(After(turns), axis);
    MotionIsAccountedFor(After(turns).script, axis);
  }
}
