/**
  Nothing in the merger gets stuck: whoever holds the lock gives it back within a few of its own steps, and with
  the lock free each thread's call runs to its end, taking effect once, in a number of steps that is known.
 */
module LockProgress {
  import opened AxisQueue
  import opened Merger
  import opened MergerLock

  /** The same thread moves `n` times, the others not at all. */
  function Alone(s: System, turn: Turn, n: nat): (t: System)
    requires WellFormed(s)
    ensures WellFormed(t)
    decreases n
  {
    if n == 0 then s else Alone(Step(s, turn), turn, n - 1)
  }

  lemma {:induction false} AloneConcat(s: System, turn: Turn, m: nat, n: nat)
    requires WellFormed(s)
    ensures Alone(s, turn, m + n) == Alone(Alone(s, turn, m), turn, n)
    decreases m
  {
    if m > 0 {
      AloneConcat(Step(s, turn), turn, m - 1, n);
    }
  }

  lemma {:induction false} AloneKeepsInv(s: System, turn: Turn, n: nat)
    requires Inv(s)
    ensures Inv(Alone(s, turn, n))
    decreases n
  {
    if n > 0 {
      StepKeepsInv(s, turn);
      AloneKeepsInv(Step(s, turn), turn, n - 1);
    }
  }

  // ---------------------------------------------------------------- how much is left

  /** The steps a producer inside `accumulate` still needs. */
  function ProducerLeft(p: Producer): nat {
    match p
    case AddX(_) => 6
    case AddXRead(_, _) => 5
    case AddY(_) => 4
    case AddYRead(_, _) => 3
    case SetButtons(_) => 2
    case Leaving(_) => 1
    case Idle | Waiting(_) => 0
  }

  /** The steps one axis of `flush` still needs on value `v`, with the step that leaves it. */
  function ClampLeft(pc: ClampPc, v: int): nat {
    match pc
    case TestHigh => if v > LIMIT then 4 else 5
    case High => 3
    case HighRead(_) => 2
    case TestLow => 4
    case Low => 3
    case LowRead(_) => 2
    case Middle => 3
    case MiddleRead(_) => 2
    case Clamped(_) => 1
  }

  function FlushLeft(d: Dispatcher, mem: Fields): nat {
    match d
    case ClampX(pc) => ClampLeft(pc, mem.dx) + ClampLeft(TestHigh, mem.dy) + 3
    case ClampY(_, pc) => ClampLeft(pc, mem.dy) + 3
    case ReadNetwork(_, _) => 3
    case ReadLocal(_, _, _) => 2
    case Returning(_) => 1
    case Resting | WantsFlush => 0
  }

  // ---------------------------------------------------------------- producers

  /** `s` after the network thread's call `c` has returned. */
  function NetworkDone(s: System, c: Call): System {
    s.(mem := ApplyAll(EMPTY, s.calls + [c]), holder := Free, network := Idle, calls := s.calls + [c])
  }

  function LocalDone(s: System, c: Call): System {
    s.(mem := ApplyAll(EMPTY, s.calls + [c]), holder := Free, local := Idle, calls := s.calls + [c])
  }

  lemma NetworkStep(s: System, turn: Turn)
    requires Inv(s) && turn.NetworkTurn? && s.network.Inside()
    ensures var t := Step(s, turn);
            if s.network.Leaving? then t == NetworkDone(s, s.network.c)
            else
              && t.network.Inside() && t.network.c == s.network.c
              && ProducerLeft(t.network) + 1 == ProducerLeft(s.network)
              && NetworkDone(t, t.network.c) == NetworkDone(s, s.network.c)
  {
    StepKeepsInv(s, turn);
    if s.network.Leaving? {
      CallReturns(s.calls, s.network.c);
    }
  }

  /** Once inside, the network thread finishes its call and frees the lock in the steps counted above, at most six. */
  lemma {:induction false} NetworkFinishes(s: System, turn: Turn)
    requires Inv(s) && turn.NetworkTurn? && s.network.Inside()
    ensures 1 <= ProducerLeft(s.network) <= 6
    ensures Alone(s, turn, ProducerLeft(s.network)) == NetworkDone(s, s.network.c)
    decreases ProducerLeft(s.network)
  {
    NetworkStep(s, turn);
    StepKeepsInv(s, turn);
    var t := Step(s, turn);
    if s.network.Leaving? {
      assert Alone(t, turn, 0) == t;
    } else {
      NetworkFinishes(t, turn);
    }
  }

  lemma LocalStep(s: System, turn: Turn)
    requires Inv(s) && turn.LocalTurn? && s.local.Inside()
    ensures var t := Step(s, turn);
            if s.local.Leaving? then t == LocalDone(s, s.local.c)
            else
              && t.local.Inside() && t.local.c == s.local.c
              && ProducerLeft(t.local) + 1 == ProducerLeft(s.local)
              && LocalDone(t, t.local.c) == LocalDone(s, s.local.c)
  {
    StepKeepsInv(s, turn);
    if s.local.Leaving? {
      CallReturns(s.calls, s.local.c);
    }
  }

  /** Likewise for the local reader. */
  lemma {:induction false} LocalFinishes(s: System, turn: Turn)
    requires Inv(s) && turn.LocalTurn? && s.local.Inside()
    ensures 1 <= ProducerLeft(s.local) <= 6
    ensures Alone(s, turn, ProducerLeft(s.local)) == LocalDone(s, s.local.c)
    decreases ProducerLeft(s.local)
  {
    LocalStep(s, turn);
    StepKeepsInv(s, turn);
    var t := Step(s, turn);
    if s.local.Leaving? {
      assert Alone(t, turn, 0) == t;
    } else {
      LocalFinishes(t, turn);
    }
  }

  // ---------------------------------------------------------------- dispatcher

  /** `s` after the flush under way has returned; `base` is the state the finished calls make. */
  function FlushDone(s: System): System {
    var base := ApplyAll(EMPTY, s.calls);
    s.(mem := AfterFlush(base), holder := Free, dispatcher := Resting, calls := s.calls + [Flush],
       returned := s.returned + [FlushReport(base)])
  }

  lemma ClampStep(pc: ClampPc, v: int, base: int)
    requires ClampProgress(pc, v, base) && !pc.Clamped?
    ensures ClampLeft(StepClamp(pc, v).0, StepClamp(pc, v).1) + 1 == ClampLeft(pc, v)
  {
  }

  lemma ClampXStep(pc: ClampPc, mem: Fields, base: Fields)
    requires FlushProgress(ClampX(pc), mem, base)
    ensures var (d, mem') := StepFlush(ClampX(pc), mem);
            d.Inside() && FlushLeft(d, mem') + 1 == FlushLeft(ClampX(pc), mem)
  {
    if !pc.Clamped? {
      var (pc', v) := StepClamp(pc, mem.dx);
      ClampStep(pc, mem.dx, base.dx);
      assert StepFlush(ClampX(pc), mem) == (ClampX(pc'), mem.(dx := v));
    }
  }

  lemma ClampYStep(cx: int, pc: ClampPc, mem: Fields, base: Fields)
    requires FlushProgress(ClampY(cx, pc), mem, base)
    ensures var (d, mem') := StepFlush(ClampY(cx, pc), mem);
            d.Inside() && FlushLeft(d, mem') + 1 == FlushLeft(ClampY(cx, pc), mem)
  {
    if !pc.Clamped? {
      var (pc', v) := StepClamp(pc, mem.dy);
      ClampStep(pc, mem.dy, base.dy);
      assert StepFlush(ClampY(cx, pc), mem) == (ClampY(cx, pc'), mem.(dy := v));
    }
  }

  lemma FlushStep(d: Dispatcher, mem: Fields, base: Fields)
    requires d.Inside() && !d.Returning? && FlushProgress(d, mem, base)
    ensures var (d', mem') := StepFlush(d, mem);
            d'.Inside() && FlushLeft(d', mem') + 1 == FlushLeft(d, mem)
  {
    match d
    case ClampX(pc) => ClampXStep(pc, mem, base);
    case ClampY(cx, pc) => ClampYStep(cx, pc, mem, base);
    case ReadNetwork(_, _) =>
    case ReadLocal(_, _, _) =>
  }

  lemma DispatcherStep(s: System)
    requires Inv(s) && s.dispatcher.Inside()
    ensures var t := Step(s, DispatcherTurn);
            if s.dispatcher.Returning? then
              t == FlushDone(s) && s.dispatcher.report == FlushReport(ApplyAll(EMPTY, s.calls))
            else
              && t.dispatcher.Inside() && t.calls == s.calls
              && FlushLeft(t.dispatcher, t.mem) + 1 == FlushLeft(s.dispatcher, s.mem)
              && FlushDone(t) == FlushDone(s)
  {
    if !s.dispatcher.Returning? {
      FlushStep(s.dispatcher, s.mem, ApplyAll(EMPTY, s.calls));
    }
  }

  /** Once inside, the dispatcher's flush returns and frees the lock in the steps counted above, at most thirteen. */
  lemma {:induction false} FlushFinishes(s: System)
    requires Inv(s) && s.dispatcher.Inside()
    ensures 1 <= FlushLeft(s.dispatcher, s.mem) <= 13
    ensures Alone(s, DispatcherTurn, FlushLeft(s.dispatcher, s.mem)) == FlushDone(s)
    decreases FlushLeft(s.dispatcher, s.mem)
  {
    DispatcherStep(s);
    StepKeepsInv(s, DispatcherTurn);
    var t := Step(s, DispatcherTurn);
    if s.dispatcher.Returning? {
      assert Alone(t, DispatcherTurn, 0) == t;
    } else {
      FlushFinishes(t);
    }
  }

  // ---------------------------------------------------------------- calls with the lock free

  lemma AppliedNext(s: System, c: Call)
    requires Inv(s) && s.holder.Free?
    ensures ApplyAll(EMPTY, s.calls + [c]) == Apply(s.mem, c)
  {
    CallReturns(s.calls, c);
  }

  /** From any reachable state with the lock free, a waiting network call returns in seven steps of its thread. */
  lemma {:induction false} NetworkCallReturns(turns: seq<Turn>, turn: Turn)
    requires turn.NetworkTurn? && Exec(turns).holder.Free? && Exec(turns).network.Waiting?
    ensures var s := Exec(turns);
            Alone(s, turn, 7)
            == s.(mem := Apply(s.mem, s.network.c), network := Idle, calls := s.calls + [s.network.c])
  {
    Reachable(turns);
    WaitingNetwork(Exec(turns), turn);
  }

  lemma WaitingNetwork(s: System, turn: Turn)
    requires Inv(s) && turn.NetworkTurn? && s.holder.Free? && s.network.Waiting?
    ensures Alone(s, turn, 7)
         == s.(mem := Apply(s.mem, s.network.c), network := Idle, calls := s.calls + [s.network.c])
  {
    var t := Step(s, turn);
    StepKeepsInv(s, turn);
    NetworkFinishes(t, turn);
    AppliedNext(s, s.network.c);
    assert Alone(s, turn, 7) == Alone(t, turn, 6);
  }

  /** And one not yet started takes effect, with the arguments it was given, in eight. */
  lemma {:induction false} NetworkCallHappens(turns: seq<Turn>, dx: int, dy: int, buttons: bv8)
    requires Exec(turns).holder.Free? && Exec(turns).network.Idle?
    ensures var s, c := Exec(turns), Accumulate(dx, dy, buttons, Network);
            Alone(s, NetworkTurn(dx, dy, buttons), 8)
            == s.(mem := Fields(s.mem.dx + dx, s.mem.dy + dy, buttons, s.mem.local),
                  started := s.started + [c], calls := s.calls + [c])
  {
    Reachable(turns);
    IdleNetwork(Exec(turns), dx, dy, buttons);
  }

  lemma IdleNetwork(s: System, dx: int, dy: int, buttons: bv8)
    requires Inv(s) && s.holder.Free? && s.network.Idle?
    ensures var c := Accumulate(dx, dy, buttons, Network);
            Alone(s, NetworkTurn(dx, dy, buttons), 8)
            == s.(mem := Fields(s.mem.dx + dx, s.mem.dy + dy, buttons, s.mem.local),
                  started := s.started + [c], calls := s.calls + [c])
  {
    var turn := NetworkTurn(dx, dy, buttons);
    var t := Step(s, turn);
    StepKeepsInv(s, turn);
    WaitingNetwork(t, turn);
    assert Alone(s, turn, 8) == Alone(t, turn, 7);
  }

  lemma {:induction false} LocalCallReturns(turns: seq<Turn>, turn: Turn)
    requires turn.LocalTurn? && Exec(turns).holder.Free? && Exec(turns).local.Waiting?
    ensures var s := Exec(turns);
            Alone(s, turn, 7) == s.(mem := Apply(s.mem, s.local.c), local := Idle, calls := s.calls + [s.local.c])
  {
    Reachable(turns);
    WaitingLocal(Exec(turns), turn);
  }

  lemma WaitingLocal(s: System, turn: Turn)
    requires Inv(s) && turn.LocalTurn? && s.holder.Free? && s.local.Waiting?
    ensures Alone(s, turn, 7) == s.(mem := Apply(s.mem, s.local.c), local := Idle, calls := s.calls + [s.local.c])
  {
    var t := Step(s, turn);
    StepKeepsInv(s, turn);
    LocalFinishes(t, turn);
    AppliedNext(s, s.local.c);
    assert Alone(s, turn, 7) == Alone(t, turn, 6);
  }

  lemma {:induction false} LocalCallHappens(turns: seq<Turn>, dx: int, dy: int, buttons: bv8)
    requires Exec(turns).holder.Free? && Exec(turns).local.Idle?
    ensures var s, c := Exec(turns), Accumulate(dx, dy, buttons, Local);
            Alone(s, LocalTurn(dx, dy, buttons), 8)
            == s.(mem := Fields(s.mem.dx + dx, s.mem.dy + dy, s.mem.network, buttons),
                  started := s.started + [c], calls := s.calls + [c])
  {
    Reachable(turns);
    IdleLocal(Exec(turns), dx, dy, buttons);
  }

  lemma IdleLocal(s: System, dx: int, dy: int, buttons: bv8)
    requires Inv(s) && s.holder.Free? && s.local.Idle?
    ensures var c := Accumulate(dx, dy, buttons, Local);
            Alone(s, LocalTurn(dx, dy, buttons), 8)
            == s.(mem := Fields(s.mem.dx + dx, s.mem.dy + dy, s.mem.network, buttons),
                  started := s.started + [c], calls := s.calls + [c])
  {
    var turn := LocalTurn(dx, dy, buttons);
    var t := Step(s, turn);
    StepKeepsInv(s, turn);
    WaitingLocal(t, turn);
    assert Alone(s, turn, 8) == Alone(t, turn, 7);
  }

  /** The steps of a whole flush of `mem`, from asking for the lock on: at most fourteen. */
  function FlushSteps(mem: Fields): nat { 1 + FlushLeft(ClampX(TestHigh), mem) }

  /** `s` after a flush that found the lock free. */
  function Flushed(s: System): System {
    s.(mem := AfterFlush(s.mem), dispatcher := Resting, calls := s.calls + [Flush],
       returned := s.returned + [FlushReport(s.mem)])
  }

  lemma {:induction false} WaitingFlush(s: System)
    requires Inv(s) && s.holder.Free? && s.dispatcher.WantsFlush?
    ensures FlushSteps(s.mem) <= 14 && Alone(s, DispatcherTurn, FlushSteps(s.mem)) == Flushed(s)
  {
    var t := Step(s, DispatcherTurn);
    StepKeepsInv(s, DispatcherTurn);
    FlushFinishes(t);
    assert FlushSteps(s.mem) == 1 + FlushLeft(t.dispatcher, t.mem);
  }

  lemma {:induction false} RestingFlush(s: System)
    requires Inv(s) && s.holder.Free? && s.dispatcher.Resting?
    ensures Alone(Step(s, DispatcherTurn), DispatcherTurn, FlushSteps(s.mem)) == Flushed(s)
  {
    StepKeepsInv(s, DispatcherTurn);
    WaitingFlush(Step(s, DispatcherTurn));
  }

  lemma Reached(turns: seq<Turn>) returns (s: System)
    ensures s == Exec(turns) && Inv(s)
  {
    Reachable(turns);
    s := Exec(turns);
  }

  /** From any reachable state with the lock free, a waiting flush returns what is due within fourteen steps. */
  lemma {:induction false} FlushReturns(turns: seq<Turn>)
    requires Exec(turns).holder.Free? && Exec(turns).dispatcher.WantsFlush?
    ensures FlushSteps(Exec(turns).mem) <= 14
    ensures Alone(Exec(turns), DispatcherTurn, FlushSteps(Exec(turns).mem)) == Flushed(Exec(turns))
  {
    var s := Reached(turns);
    WaitingFlush(s);
  }

  /** And one not yet started in one step more. */
  lemma {:induction false} FlushHappens(turns: seq<Turn>)
    requires Exec(turns).holder.Free? && Exec(turns).dispatcher.Resting?
    ensures var s := Exec(turns);
            Alone(Step(s, DispatcherTurn), DispatcherTurn, FlushSteps(s.mem)) == Flushed(s)
  {
    var s := Reached(turns);
    RestingFlush(s);
  }

  // ---------------------------------------------------------------- the lock is always given back

  /** The turn of the thread that holds the lock. */
  function HolderTurn(holder: Holder): Turn
    requires !holder.Free?
  {
    match holder
    case ByNetwork => NetworkTurn(0, 0, 0)
    case ByLocal => LocalTurn(0, 0, 0)
    case ByDispatcher => DispatcherTurn
  }

  function HolderLeft(s: System): nat {
    match s.holder
    case Free => 0
    case ByNetwork => ProducerLeft(s.network)
    case ByLocal => ProducerLeft(s.local)
    case ByDispatcher => FlushLeft(s.dispatcher, s.mem)
  }

  /** `s` after the holder's call has returned. */
  ghost function HolderDone(s: System): System
    requires Inv(s)
  {
    match s.holder
    case Free => s
    case ByNetwork => NetworkDone(s, s.network.c)
    case ByLocal => LocalDone(s, s.local.c)
    case ByDispatcher => FlushDone(s)
  }

  /** From any reachable state with the lock held, at most thirteen steps of its holder free it. */
  lemma {:induction false} LockIsGivenBack(turns: seq<Turn>)
    requires !Exec(turns).holder.Free?
    ensures Inv(Exec(turns))
    ensures var s := Exec(turns);
            HolderLeft(s) <= 13 && Alone(s, HolderTurn(s.holder), HolderLeft(s)) == HolderDone(s)
  {
    Reachable(turns);
    var s := Exec(turns);
    match s.holder
    case ByNetwork => NetworkFinishes(s, NetworkTurn(0, 0, 0));
    case ByLocal => LocalFinishes(s, LocalTurn(0, 0, 0));
    case ByDispatcher => FlushFinishes(s);
  }
}
