/**
  What the emulator gets done: signals stop it, reports are sent when there is something to say, motion reaches the
  host once nothing fails, and at the grain of single reads and writes every call and every tick is completed.
 */
module EmulatorProgress {
  import opened Wrappers
  import opened AxisQueue
  import opened Merger
  import opened BtProfile
  import opened HidEmulator
  import opened EmulatorRuns
  import opened EmulatorLock
  import Lock = MergerLock
  import LockProgress

  // ---------------------------------------------------------------- signals

  predicate Unsignalled(script: seq<Event>) {
    |script| > 0 ==> Unsignalled(script[..|script| - 1]) && !script[|script| - 1].Signal?
  }

  /** The program runs until a signal arrives, and only then can it stop. */
  lemma {:induction false} RunsUntilSignalled(script: seq<Event>)
    ensures Run(script).running <==> Unsignalled(script)
    ensures Run(script).pc.Stopped? ==> !Unsignalled(script)
  {
    if |script| > 0 {
      RunsUntilSignalled(script[..|script| - 1]);
    }
  }

  /** After a signal three steps of the main thread stop it, whatever else happens. */
  lemma SignalStopsTheProgram(before: seq<Event>, after: seq<Event>)
    requires MainSteps(after) >= 3
    ensures Run(before + [Signal] + after).pc.Stopped?
  {
    assert (before + [Signal])[..|before|] == before;
    ExecConcat(INITIAL, before + [Signal], after);
    SignalledMainStops(Run(before + [Signal]), after);
  }

  // ---------------------------------------------------------------- when reports are sent

  function ReportsHandedOver(s: System): nat { |s.sent| + |s.failed| }

  lemma WorthSendingExactlyWhen(m: Fields, lastButtons: bv8)
    ensures WorthSending(FlushReport(m), lastButtons)
       <==> m.dx != 0 || m.dy != 0 || m.network | m.local != lastButtons
  {
  }

  /** A tick hands a report over exactly when there is motion to report or the buttons differ from the last ones. */
  lemma TickSendsExactlyWhen(s: System, e: Event)
    requires IsTick(s, e)
    ensures ReportsHandedOver(Step(s, e))
         == ReportsHandedOver(s)
            + if s.merger.dx != 0 || s.merger.dy != 0 || s.merger.network | s.merger.local != s.lastButtons then 1
              else 0
  {
    WorthSendingExactlyWhen(s.merger, s.lastButtons);
    TickResult(s, e.sendRaises, Ticking(s, e.sendRaises));
  }

  lemma SettledTick(s: System)
    requires s.pc.Session? && s.running && s.profile.IsConnected()
    requires s.merger.dx == 0 && s.merger.dy == 0 && s.merger.network | s.merger.local == s.lastButtons
    ensures Step(s, MainThread(None, "", false)) == s
  {
    WorthSendingExactlyWhen(s.merger, s.lastButtons);
    assert Flushed(s) == s;
  }

  /** With nothing accumulated and the buttons told, ticks change nothing at all. */
  lemma {:induction false} SettledSessionIsSilent(s: System, k: nat)
    requires s.pc.Session? && s.running && s.profile.IsConnected()
    requires s.merger.dx == 0 && s.merger.dy == 0 && s.merger.network | s.merger.local == s.lastButtons
    ensures Exec(s, QuietTicks(k)) == s
  {
    if k > 0 {
      QuietStep(s, k);
      SettledSessionIsSilent(s, k - 1);
      SettledTick(s);
    }
  }

  // ---------------------------------------------------------------- delivery

  /** Two undisturbed steps take a running main thread into a session from wherever it is. */
  lemma ReachesSession(script: seq<Event>)
    requires Run(script).running
    ensures var s := Run(script);
            var t := Exec(s, QuietTicks(StepsToSession(s.pc)));
            && t.pc.Session? && t.running && t.profile.IsConnected()
            && t.merger == s.merger && t.host.x == s.host.x && t.host.y == s.host.y && t.failed == s.failed
  {
    var s := Run(script);
    SocketAccounting(script);
    RunsUntilSignalled(script);
    match s.pc
    case Session =>
    case Outer =>
      QuietStep(s, 1);
    case Ending =>
      QuietStep(s, 1);
      QuietStep(s, 2);
    case Stopped =>
  }

  lemma QuietStep(s: System, k: nat)
    requires k > 0
    ensures Exec(s, QuietTicks(k)) == Step(Exec(s, QuietTicks(k - 1)), MainThread(None, "", false))
    ensures Exec(s, QuietTicks(0)) == s
  {
    assert QuietTicks(k)[..k - 1] == QuietTicks(k - 1);
  }

  lemma QuietTicksSplit(m: nat, n: nat)
    ensures QuietTicks(m + n) == QuietTicks(m) + QuietTicks(n)
  {
  }

  lemma QuietSteps(s: System, m: nat, n: nat)
    ensures Exec(s, QuietTicks(m + n)) == Exec(Exec(s, QuietTicks(m)), QuietTicks(n))
  {
    QuietTicksSplit(m, n);
    ExecConcat(s, QuietTicks(m), QuietTicks(n));
  }

  /** The undisturbed steps that take a running main thread into a session. */
  function StepsToSession(pc: Pc): nat {
    match pc
    case Session => 0
    case Outer => 1
    case Ending => 2
    case Stopped => 0
  }

  lemma {:induction false} SessionDelivers(s: System, k: nat, axis: Axis)
    requires s.pc.Session? && s.running && s.profile.IsConnected()
    requires FlushesNeeded(s.merger.Motion(axis)) <= k
    ensures var t := Exec(s, QuietTicks(k));
            && t.pc.Session? && t.merger.Motion(axis) == 0
            && t.host.Position(axis) == s.host.Position(axis) + s.merger.Motion(axis)
  {
    QuietSessionDrains(s, k, axis);
    DrainsExactlyWhen(s.merger.Motion(axis), k);
  }

  lemma {:induction false} DeliversFrom(s: System, n: nat, u: System, k: nat, axis: Axis)
    requires u == Exec(s, QuietTicks(n)) && u.pc.Session? && u.running && u.profile.IsConnected()
    requires FlushesNeeded(u.merger.Motion(axis)) <= k
    ensures var t := Exec(s, QuietTicks(n + k));
            && t.pc.Session? && t.merger.Motion(axis) == 0
            && t.host.Position(axis) == u.host.Position(axis) + u.merger.Motion(axis)
  {
    QuietSteps(s, n, k);
    SessionDelivers(u, k, axis);
  }

  lemma {:induction false} IntoSession(script: seq<Event>) returns (n: nat, u: System)
    requires Run(script).running
    ensures n <= 2 && u == Exec(Run(script), QuietTicks(n))
    ensures u.pc.Session? && u.running && u.profile.IsConnected() && u.merger == Run(script).merger
    ensures u.host.x == Run(script).host.x && u.host.y == Run(script).host.y
  {
    ReachesSession(script);
    n := StepsToSession(Run(script).pc);
    u := Exec(Run(script), QuietTicks(n));
  }

  /**
    From every reachable state of a running program, as long as nothing fails and nothing new arrives, all that
    was in the merger is at the host after as many steps as it needs reports, and at most two to connect.
   */
  lemma {:induction false} MotionIsDelivered(script: seq<Event>, k: nat, axis: Axis)
    requires Run(script).running
    requires 2 + FlushesNeeded(Run(script).merger.Motion(axis)) <= k
    ensures var s, t := Run(script), Exec(Run(script), QuietTicks(k));
            && t.pc.Session? && t.merger.Motion(axis) == 0
            && t.host.Position(axis) == s.host.Position(axis) + s.merger.Motion(axis)
  {
    var n, u := IntoSession(script);
    var left := k - n;
    assert FlushesNeeded(u.merger.Motion(axis)) <= left && n + left == k;
    DeliversFrom(Run(script), n, u, left, axis);
  }

  // ---------------------------------------------------------------- at the grain of reads and writes

  /** The same thread moves `n` times. */
  function Moves(m: Machine, turn: Turn, n: nat): (m': Machine)
    requires Lock.WellFormed(m.lock)
    ensures Lock.WellFormed(m'.lock)
    decreases n
  {
    if n == 0 then m else Moves(Move(m, turn), turn, n - 1)
  }

  /** Moving on is one more way to be reached. */
  lemma OneTurnMore(turns: seq<Turn>, turn: Turn) returns (more: seq<Turn>, m: Machine)
    ensures m == After(more) && m == Move(After(turns), turn)
  {
    more := turns + [turn];
    assert more[..|turns|] == turns;
    m := After(more);
  }

  lemma {:induction false} MovesAreReached(turns: seq<Turn>, m: Machine, turn: Turn, n: nat) returns (more: seq<Turn>)
    requires m == After(turns)
    ensures After(more) == Moves(m, turn, n)
    decreases n
  {
    if n == 0 {
      more := turns;
    } else {
      var next, t := OneTurnMore(turns, turn);
      more := MovesAreReached(next, t, turn, n - 1);
    }
  }

  /** A producer's turns move the merger's machine and nothing of the main thread. */
  lemma {:induction false} NetworkMoves(m: Machine, dx: int, dy: int, buttons: bv8, n: nat)
    requires Lock.WellFormed(m.lock)
    ensures var m' := Moves(m, NetworkTurn(dx, dy, buttons), n);
            && m'.lock == LockProgress.Alone(m.lock, Lock.NetworkTurn(dx, dy, buttons), n)
            && m'.main == m.main && m'.flushed == m.flushed
    decreases n
  {
    if n > 0 {
      NetworkMoves(Move(m, NetworkTurn(dx, dy, buttons)), dx, dy, buttons, n - 1);
    }
  }

  lemma {:induction false} LocalMoves(m: Machine, dx: int, dy: int, buttons: bv8, n: nat)
    requires Lock.WellFormed(m.lock)
    ensures var m' := Moves(m, LocalTurn(dx, dy, buttons), n);
            && m'.lock == LockProgress.Alone(m.lock, Lock.LocalTurn(dx, dy, buttons), n)
            && m'.main == m.main && m'.flushed == m.flushed
    decreases n
  {
    if n > 0 {
      LocalMoves(Move(m, LocalTurn(dx, dy, buttons)), dx, dy, buttons, n - 1);
    }
  }

  lemma {:induction false} NewCall(m: Machine, m': Machine, c: Call)
    requires CallsInScript(m) && CallsInScript(m') && m'.lock.calls == m.lock.calls + [c]
    ensures InputsOf(m', Network) == InputsOf(m, Network) + if c.From(Network) then [c] else []
    ensures InputsOf(m', Local) == InputsOf(m, Local) + if c.From(Local) then [c] else []
  {
    Lock.OfSourceAppend(m.lock.calls, c);
  }

  /** The call has added its motion in memory, replaced its source's buttons, and joined its source's calls. */
  ghost predicate Entered(m: Machine, c: Call, m': Machine)
    requires c.Accumulate?
  {
    && m'.lock.holder.Free?
    && m'.lock.mem == Fields(m.lock.mem.dx + c.dx, m.lock.mem.dy + c.dy,
                             if c.source.Network? then c.buttons else m.lock.mem.network,
                             if c.source.Network? then m.lock.mem.local else c.buttons)
    && InputsOf(m', c.source) == InputsOf(m, c.source) + [c]
    && m'.main == m.main && m'.flushed == m.flushed
  }

  lemma {:induction false} NetworkCall(m: Machine, dx: int, dy: int, buttons: bv8, n: nat)
    requires n == 8 && Lock.Inv(m.lock) && m.lock.holder.Free? && m.lock.network.Idle?
    ensures var m' := Moves(m, NetworkTurn(dx, dy, buttons), n);
            && m'.lock.holder.Free? && m'.main == m.main && m'.flushed == m.flushed
            && m'.lock.mem == Apply(m.lock.mem, Accumulate(dx, dy, buttons, Network))
            && m'.lock.calls == m.lock.calls + [Accumulate(dx, dy, buttons, Network)]
  {
    LockProgress.IdleNetwork(m.lock, dx, dy, buttons);
    NetworkMoves(m, dx, dy, buttons, n);
  }

  lemma {:induction false} LocalCall(m: Machine, dx: int, dy: int, buttons: bv8, n: nat)
    requires n == 8 && Lock.Inv(m.lock) && m.lock.holder.Free? && m.lock.local.Idle?
    ensures var m' := Moves(m, LocalTurn(dx, dy, buttons), n);
            && m'.lock.holder.Free? && m'.main == m.main && m'.flushed == m.flushed
            && m'.lock.mem == Apply(m.lock.mem, Accumulate(dx, dy, buttons, Local))
            && m'.lock.calls == m.lock.calls + [Accumulate(dx, dy, buttons, Local)]
  {
    LockProgress.IdleLocal(m.lock, dx, dy, buttons);
    LocalMoves(m, dx, dy, buttons, n);
  }

  /** The call has entered when it is the newest of its source and memory is as it leaves it. */
  lemma CallEnters(m: Machine, c: Call, m': Machine)
    requires CallsInScript(m) && CallsInScript(m') && m'.lock.calls == m.lock.calls + [c]
    requires c.Accumulate? && m'.lock.holder.Free? && m'.lock.mem == Apply(m.lock.mem, c)
    requires m'.main == m.main && m'.flushed == m.flushed
    ensures Entered(m, c, m')
  {
    NewCall(m, m', c);
  }

  lemma ReachableLock(turns: seq<Turn>)
    ensures Lock.Inv(After(turns).lock)
  {
    Reachable(turns);
  }

  lemma {:induction false} CallsStayInScript(turns: seq<Turn>, turn: Turn, n: nat)
    ensures CallsInScript(After(turns)) && CallsInScript(Moves(After(turns), turn, n))
  {
    CallsAreInScript(turns);
    var more := MovesAreReached(turns, After(turns), turn, n);
    CallsAreInScript(more);
  }

  /**
    From every reachable state with the lock free, eight turns of an idle producer are one call with the
    arguments it was given: in memory, and at the end of its calls in the script.
   */
  lemma {:induction false} NetworkInputHappens(turns: seq<Turn>, dx: int, dy: int, buttons: bv8, n: nat)
    requires n == 8 && After(turns).lock.holder.Free? && After(turns).lock.network.Idle?
    ensures var c := Accumulate(dx, dy, buttons, Network);
            Entered(After(turns), c, Moves(After(turns), NetworkTurn(dx, dy, buttons), n))
  {
    var m := After(turns);
    ReachableLock(turns);
    CallsStayInScript(turns, NetworkTurn(dx, dy, buttons), n);
    NetworkCall(m, dx, dy, buttons, n);
    CallEnters(m, Accumulate(dx, dy, buttons, Network), Moves(m, NetworkTurn(dx, dy, buttons), n));
  }

  /** Likewise for the local reader. */
  lemma {:induction false} LocalInputHappens(turns: seq<Turn>, dx: int, dy: int, buttons: bv8, n: nat)
    requires n == 8 && After(turns).lock.holder.Free? && After(turns).lock.local.Idle?
    ensures var c := Accumulate(dx, dy, buttons, Local);
            Entered(After(turns), c, Moves(After(turns), LocalTurn(dx, dy, buttons), n))
  {
    var m := After(turns);
    ReachableLock(turns);
    CallsStayInScript(turns, LocalTurn(dx, dy, buttons), n);
    LocalCall(m, dx, dy, buttons, n);
    CallEnters(m, Accumulate(dx, dy, buttons, Local), Moves(m, LocalTurn(dx, dy, buttons), n));
  }

  // ---------------------------------------------------------------- the main thread's steps

  function TurnOf(e: Event): Turn
    requires e.MainThread?
  {
    MainTurn(e.raises, e.addr, e.sendRaises)
  }

  lemma OneMove(m: Machine, e: Event)
    requires Lock.WellFormed(m.lock) && e.MainThread?
    ensures Move(m, TurnOf(e)) == MoveMain(m, e) == Moves(m, TurnOf(e), 1)
  {
    assert Moves(MoveMain(m, e), TurnOf(e), 0) == MoveMain(m, e);
  }

  /** `m` after the flush under way has returned. */
  function FlushReturned(m: Machine): Machine {
    m.(lock := LockProgress.FlushDone(m.lock), flushed := Some(FlushReport(ApplyAll(EMPTY, m.lock.calls))))
  }

  lemma TickFlushesOn(m: Machine)
    requires Lock.Inv(m.lock) && m.flushed.None? && m.lock.dispatcher.Inside()
    ensures var t := FlushOn(m);
            if m.lock.dispatcher.Returning? then t == FlushReturned(m)
            else
              && t.flushed.None? && t.lock.dispatcher.Inside() && FlushReturned(t) == FlushReturned(m)
              && LockProgress.FlushLeft(t.lock.dispatcher, t.lock.mem) + 1
              == LockProgress.FlushLeft(m.lock.dispatcher, m.lock.mem)
  {
    LockProgress.DispatcherStep(m.lock);
  }

  lemma {:induction false} TickFlushes(m: Machine, e: Event)
    requires Inv(m) && e.MainThread? && m.flushed.None? && m.lock.dispatcher.Inside()
    ensures Moves(m, TurnOf(e), LockProgress.FlushLeft(m.lock.dispatcher, m.lock.mem)) == FlushReturned(m)
    ensures Inv(FlushReturned(m))
    decreases LockProgress.FlushLeft(m.lock.dispatcher, m.lock.mem)
  {
    TickFlushesOn(m);
    OneMove(m, e);
    FlushKeepsInv(m, e);
    if m.lock.dispatcher.Returning? {
      assert Moves(FlushOn(m), TurnOf(e), 0) == FlushOn(m);
    } else {
      TickFlushes(FlushOn(m), e);
    }
  }

  lemma {:induction false} MovesConcat(m: Machine, turn: Turn, a: nat, b: nat)
    requires Lock.WellFormed(m.lock)
    ensures Moves(m, turn, a + b) == Moves(Moves(m, turn, a), turn, b)
    decreases a
  {
    if a > 0 {
      MovesConcat(Move(m, turn), turn, a - 1, b);
    }
  }

  /** The turns the main thread needs to complete the step under way, or its next one. */
  function MainLeft(m: Machine, e: Event): nat
    requires e.MainThread?
  {
    if m.flushed.Some? then 1
    else if m.lock.dispatcher.Inside() then LockProgress.FlushLeft(m.lock.dispatcher, m.lock.mem) + 1
    else if m.lock.dispatcher.WantsFlush? then LockProgress.FlushSteps(m.lock.mem) + 1
    else if IsTick(m.main, e) then LockProgress.FlushSteps(m.lock.mem) + 2
    else 1
  }

  /** The step is completed: it and what was deferred are in the script, and its effect is that of the atomic step. */
  ghost predicate Completed(script: seq<Event>, e: Event, deferred: seq<Event>, m: Machine)
    requires e.MainThread?
  {
    && m.BetweenTicks() && m.script == script + [e] + deferred && m.deferred == []
    && View(m) == Exec(Step(Run(script), e), deferred)
  }

  lemma InvCompletes(script: seq<Event>, e: Event, deferred: seq<Event>, m: Machine)
    requires Inv(m) && e.MainThread? && m.BetweenTicks() && m.script == script + [e] + deferred
    ensures Completed(script, e, deferred, m)
  {
    ExecConcat(INITIAL, script + [e], deferred);
    ExecOne(INITIAL, script, e);
    assert Exec(Run(m.script), []) == Run(m.script);
  }

  lemma FinishCompletes(m: Machine, e: Event)
    requires Inv(m) && e.MainThread? && m.flushed.Some?
    ensures Completed(m.script, e, m.deferred, Moves(m, TurnOf(e), 1))
  {
    OneMove(m, e);
    FinishKeepsInv(m, e);
    InvCompletes(m.script, e, m.deferred, Finish(m, e));
  }

  lemma {:induction false} FlushThenFinish(m: Machine, e: Event, n: nat)
    requires Inv(m) && e.MainThread? && m.flushed.None? && m.lock.dispatcher.Inside()
    requires n == LockProgress.FlushLeft(m.lock.dispatcher, m.lock.mem)
    ensures Inv(FlushReturned(m))
    ensures Moves(m, TurnOf(e), n + 1) == Moves(FlushReturned(m), TurnOf(e), 1)
  {
    TickFlushes(m, e);
    MovesConcat(m, TurnOf(e), n, 1);
  }

  lemma {:induction false} FlushCompletesIn(m: Machine, e: Event, n: nat)
    requires Inv(m) && e.MainThread? && m.flushed.None? && m.lock.dispatcher.Inside()
    requires n == LockProgress.FlushLeft(m.lock.dispatcher, m.lock.mem)
    ensures Completed(m.script, e, m.deferred, Moves(m, TurnOf(e), n + 1))
  {
    FlushThenFinish(m, e, n);
    FinishCompletes(FlushReturned(m), e);
  }

  lemma LeftInFlush(m: Machine, e: Event) returns (n: nat)
    requires e.MainThread? && m.flushed.None? && m.lock.dispatcher.Inside()
    ensures n == LockProgress.FlushLeft(m.lock.dispatcher, m.lock.mem) && MainLeft(m, e) == n + 1
  {
    n := LockProgress.FlushLeft(m.lock.dispatcher, m.lock.mem);
  }

  lemma {:induction false} FlushCompletes(m: Machine, e: Event)
    requires Inv(m) && e.MainThread? && m.flushed.None? && m.lock.dispatcher.Inside()
    ensures Completed(m.script, e, m.deferred, Moves(m, TurnOf(e), MainLeft(m, e)))
  {
    var n := LeftInFlush(m, e);
    FlushCompletesIn(m, e, n);
  }

  lemma {:induction false} FlushStarts(m: Machine, e: Event)
    requires Inv(m) && e.MainThread? && m.flushed.None?
    requires m.lock.dispatcher.WantsFlush? && m.lock.holder.Free?
    ensures Completed(m.script, e, m.deferred, Moves(m, TurnOf(e), MainLeft(m, e)))
  {
    var t := FlushOn(m);
    OneMove(m, e);
    FlushKeepsInv(m, e);
    FlushCompletes(t, e);
    assert MainLeft(m, e) == 1 + MainLeft(t, e);
  }

  /** The first turn of a tick asks for the lock. */
  lemma AskForLock(m: Machine, e: Event) returns (t: Machine)
    requires Inv(m) && e.MainThread? && m.BetweenTicks() && m.lock.holder.Free? && IsTick(m.main, e)
    ensures Inv(t) && t.flushed.None? && t.lock.dispatcher.WantsFlush? && t.lock.holder.Free?
    ensures t.script == m.script && t.deferred == m.deferred
    ensures MainLeft(m, e) == 1 + MainLeft(t, e)
    ensures Moves(m, TurnOf(e), MainLeft(m, e)) == Moves(t, TurnOf(e), MainLeft(t, e))
  {
    OneMove(m, e);
    FlushKeepsInv(m, e);
    t := FlushOn(m);
  }

  lemma {:induction false} TickCompletes(m: Machine, e: Event)
    requires Inv(m) && e.MainThread? && m.BetweenTicks() && m.lock.holder.Free?
    requires IsTick(m.main, e)
    ensures Completed(m.script, e, m.deferred, Moves(m, TurnOf(e), MainLeft(m, e)))
  {
    var t := AskForLock(m, e);
    FlushStarts(t, e);
  }

  lemma {:induction false} OtherStepCompletes(m: Machine, e: Event)
    requires Inv(m) && e.MainThread? && m.BetweenTicks() && !IsTick(m.main, e)
    ensures MainLeft(m, e) == 1
    ensures Completed(m.script, e, m.deferred, Moves(m, TurnOf(e), 1))
  {
    OneMove(m, e);
    MainKeepsInv(m, e);
    InvCompletes(m.script, e, m.deferred, MoveMain(m, e));
  }

  lemma MainLeftIsBounded(m: Machine, e: Event)
    requires Lock.Inv(m.lock) && e.MainThread?
    ensures 1 <= MainLeft(m, e) <= 16
  {
    if m.lock.dispatcher.Inside() {
      LockProgress.FlushFinishes(m.lock);
    }
  }

  /**
    From every reachable state in which no producer holds the lock, at most sixteen turns of the main thread
    complete its iteration of the dispatch loop or its step outside it, with the effect of the atomic step.
   */
  lemma {:induction false} MainStepCompletes(turns: seq<Turn>, e: Event)
    requires e.MainThread? && (After(turns).lock.holder.Free? || After(turns).lock.holder.ByDispatcher?)
    ensures MainLeft(After(turns), e) <= 16
    ensures var m := After(turns);
            Completed(m.script, e, m.deferred, Moves(m, TurnOf(e), MainLeft(m, e)))
  {
    Reachable(turns);
    MainLeftIsBounded(After(turns), e);
    var m := After(turns);
    if m.flushed.Some? {
      FinishCompletes(m, e);
    } else if m.lock.dispatcher.Inside() {
      FlushCompletes(m, e);
    } else if m.lock.dispatcher.WantsFlush? {
      FlushStarts(m, e);
    } else if IsTick(m.main, e) {
      TickCompletes(m, e);
    } else {
      OtherStepCompletes(m, e);
    }
  }

  predicate NoSignal(turns: seq<Turn>) {
    |turns| > 0 ==> NoSignal(turns[..|turns| - 1]) && !turns[|turns| - 1].SignalTurn?
  }

  /** The program's flag is up exactly as long as no signal has come. */
  lemma {:induction false} FlagFallsOnSignal(turns: seq<Turn>)
    ensures After(turns).main.running <==> NoSignal(turns)
  {
    if |turns| > 0 {
      FlagFallsOnSignal(turns[..|turns| - 1]);
      FlagStep(After(turns[..|turns| - 1]), turns[|turns| - 1]);
    }
  }

  lemma FlagStep(m: Machine, turn: Turn)
    requires Lock.WellFormed(m.lock)
    ensures Move(m, turn).main.running == (m.main.running && !turn.SignalTurn?)
  {
  }
}
