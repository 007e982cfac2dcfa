/**
  The merger's methods at the grain of single reads and writes. The UDP listener and the local reader
  call `accumulate`, the dispatcher calls `flush`; each takes the lock, reads and writes the fields one
  at a time, and releases it. A schedule says which thread moves next; a thread that wants a lock held
  by another stays where it is. The main result is that every schedule looks to its callers like a run
  of atomic calls, so no read-modify-write is lost.
 */
module MergerLock {
  import opened AxisQueue
  import opened Merger

  datatype Holder = Free | ByNetwork | ByLocal | ByDispatcher

  /** A producer thread inside `accumulate`; `t` is the value read by a `+=` not yet written back. */
  datatype Producer =
    | Idle
    | Waiting(c: Call)
    | AddX(c: Call)
    | AddXRead(c: Call, t: int)
    | AddY(c: Call)
    | AddYRead(c: Call, t: int)
    | SetButtons(c: Call)
    | Leaving(c: Call)
  {
    predicate Inside() { !Idle? && !Waiting? }
  }

  /** One axis of `flush`: its tests, reads and writes in the order of the source. */
  datatype ClampPc =
    | TestHigh
    | High
    | HighRead(t: int)
    | TestLow
    | Low
    | LowRead(t: int)
    | Middle
    | MiddleRead(t: int)
    | Clamped(c: int)

  datatype Dispatcher =
    | Resting
    | WantsFlush
    | ClampX(pc: ClampPc)
    | ClampY(cx: int, pc: ClampPc)
    | ReadNetwork(cx: int, cy: int)
    | ReadLocal(cx: int, cy: int, network: bv8)
    | Returning(report: Report)
  {
    predicate Inside() { !Resting? && !WantsFlush? }
  }

  /** `calls` lists the calls in the order they returned, `returned` what the flushes among them gave. */
  datatype System = System(
    mem: Fields, holder: Holder,
    network: Producer, local: Producer, dispatcher: Dispatcher,
    started: seq<Call>, calls: seq<Call>, returned: seq<Report>)

  /** Which thread moves, and what it would add if it is about to start a call. */
  datatype Turn =
    | NetworkTurn(dx: int, dy: int, buttons: bv8)
    | LocalTurn(dx: int, dy: int, buttons: bv8)
    | DispatcherTurn

  const INITIAL := System(EMPTY, Free, Idle, Idle, Resting, [], [], [])

  // ---------------------------------------------------------------- steps

  function StepProducer(p: Producer, mem: Fields): (Producer, Fields)
    requires p.Inside() && p.c.Accumulate? && !p.Leaving?
  {
    match p
    case AddX(c) => (AddXRead(c, mem.dx), mem)
    case AddXRead(c, t) => (AddY(c), mem.(dx := t + c.dx))
    case AddY(c) => (AddYRead(c, mem.dy), mem)
    case AddYRead(c, t) => (SetButtons(c), mem.(dy := t + c.dy))
    case SetButtons(c) =>
      (Leaving(c), if c.source.Network? then mem.(network := c.buttons) else mem.(local := c.buttons))
  }

  function StepClamp(pc: ClampPc, v: int): (ClampPc, int) {
    match pc
    case TestHigh => (if v > LIMIT then High else TestLow, v)
    case High => (HighRead(v), v)
    case HighRead(t) => (Clamped(LIMIT), t - LIMIT)
    case TestLow => (if v < -LIMIT then Low else Middle, v)
    case Low => (LowRead(v), v)
    case LowRead(t) => (Clamped(-LIMIT), t - -LIMIT)
    case Middle => (MiddleRead(v), v)
    case MiddleRead(t) => (Clamped(t), 0)
    case Clamped(_) => (pc, v)
  }

  function StepFlush(d: Dispatcher, mem: Fields): (Dispatcher, Fields)
    requires d.Inside() && !d.Returning?
  {
    match d
    case ClampX(Clamped(cx)) => (ClampY(cx, TestHigh), mem)
    case ClampX(pc) => var (pc', v) := StepClamp(pc, mem.dx); (ClampX(pc'), mem.(dx := v))
    case ClampY(cx, Clamped(cy)) => (ReadNetwork(cx, cy), mem)
    case ClampY(cx, pc) => var (pc', v) := StepClamp(pc, mem.dy); (ClampY(cx, pc'), mem.(dy := v))
    case ReadNetwork(cx, cy) => (ReadLocal(cx, cy, mem.network), mem)
    case ReadLocal(cx, cy, network) => (Returning(Report(cx, cy, network | mem.local)), mem)
  }

  /** A producer that is idle starts `call`; `p` is its current position. */
  function StepNetwork(s: System, call: Call): System
    requires s.network.Inside() ==> s.network.c.Accumulate?
  {
    match s.network
    case Idle => s.(network := Waiting(call), started := s.started + [call])
    case Waiting(c) => if s.holder.Free? then s.(network := AddX(c), holder := ByNetwork) else s
    case Leaving(c) => s.(network := Idle, holder := Free, calls := s.calls + [c])
    case p => var (p', mem) := StepProducer(p, s.mem); s.(network := p', mem := mem)
  }

  function StepLocal(s: System, call: Call): System
    requires s.local.Inside() ==> s.local.c.Accumulate?
  {
    match s.local
    case Idle => s.(local := Waiting(call), started := s.started + [call])
    case Waiting(c) => if s.holder.Free? then s.(local := AddX(c), holder := ByLocal) else s
    case Leaving(c) => s.(local := Idle, holder := Free, calls := s.calls + [c])
    case p => var (p', mem) := StepProducer(p, s.mem); s.(local := p', mem := mem)
  }

  function StepDispatcher(s: System): System {
    match s.dispatcher
    case Resting => s.(dispatcher := WantsFlush)
    case WantsFlush =>
      if s.holder.Free? then s.(dispatcher := ClampX(TestHigh), holder := ByDispatcher) else s
    case Returning(report) =>
      s.(dispatcher := Resting, holder := Free, calls := s.calls + [Flush], returned := s.returned + [report])
    case d => var (d', mem) := StepFlush(d, s.mem); s.(dispatcher := d', mem := mem)
  }

  function Step(s: System, turn: Turn): System
    requires WellFormed(s)
  {
    match turn
    case NetworkTurn(dx, dy, buttons) => StepNetwork(s, Accumulate(dx, dy, buttons, Network))
    case LocalTurn(dx, dy, buttons) => StepLocal(s, Accumulate(dx, dy, buttons, Local))
    case DispatcherTurn => StepDispatcher(s)
  }

  /** The listener only makes network calls and the reader only local ones. */
  predicate WellFormed(s: System) {
    && (!s.network.Idle? ==> s.network.c.From(Network))
    && (!s.local.Idle? ==> s.local.c.From(Local))
  }

  function Exec(turns: seq<Turn>): (s: System)
    ensures WellFormed(s)
  {
    if |turns| == 0 then INITIAL else Step(Exec(turns[..|turns| - 1]), turns[|turns| - 1])
  }

  // ---------------------------------------------------------------- invariant

  /** How far `p` has got in turning `base` into `Apply(base, p.c)`. */
  ghost predicate ProducerProgress(p: Producer, mem: Fields, base: Fields)
    requires p.Inside() && p.c.Accumulate?
  {
    match p
    case AddX(c) => mem == base
    case AddXRead(c, t) => mem == base && t == base.dx
    case AddY(c) => mem == base.(dx := base.dx + c.dx)
    case AddYRead(c, t) => mem == base.(dx := base.dx + c.dx) && t == base.dy
    case SetButtons(c) => mem == base.(dx := base.dx + c.dx, dy := base.dy + c.dy)
    case Leaving(c) => mem == Apply(base, c)
  }

  ghost predicate ClampProgress(pc: ClampPc, v: int, base: int) {
    match pc
    case TestHigh => v == base
    case High => v == base > LIMIT
    case HighRead(t) => v == t == base > LIMIT
    case TestLow => v == base <= LIMIT
    case Low => v == base < -LIMIT
    case LowRead(t) => v == t == base < -LIMIT
    case Middle => v == base && -LIMIT <= base <= LIMIT
    case MiddleRead(t) => v == t == base && -LIMIT <= base <= LIMIT
    case Clamped(c) => c == Clamp(base) && v == Residue(base)
  }

  ghost predicate FlushProgress(d: Dispatcher, mem: Fields, base: Fields)
    requires d.Inside()
  {
    match d
    case ClampX(pc) => mem == base.(dx := mem.dx) && ClampProgress(pc, mem.dx, base.dx)
    case ClampY(cx, pc) =>
      && mem == base.(dx := Residue(base.dx), dy := mem.dy)
      && cx == Clamp(base.dx) && ClampProgress(pc, mem.dy, base.dy)
    case ReadNetwork(cx, cy) => mem == AfterFlush(base) && cx == Clamp(base.dx) && cy == Clamp(base.dy)
    case ReadLocal(cx, cy, network) =>
      mem == AfterFlush(base) && cx == Clamp(base.dx) && cy == Clamp(base.dy) && network == base.network
    case Returning(report) => mem == AfterFlush(base) && report == FlushReport(base)
  }

  /** Only the lock's holder is inside, and it has turned the atomic state into what is in memory. */
  ghost predicate Inv(s: System) {
    var base := ApplyAll(EMPTY, s.calls);
    && WellFormed(s)
    && (s.network.Inside() <==> s.holder == ByNetwork)
    && (s.local.Inside() <==> s.holder == ByLocal)
    && (s.dispatcher.Inside() <==> s.holder == ByDispatcher)
    && (s.holder.Free? ==> s.mem == base)
    && (s.network.Inside() ==> ProducerProgress(s.network, s.mem, base))
    && (s.local.Inside() ==> ProducerProgress(s.local, s.mem, base))
    && (s.dispatcher.Inside() ==> FlushProgress(s.dispatcher, s.mem, base))
    && s.returned == Reports(EMPTY, s.calls)
  }

  lemma CallReturns(calls: seq<Call>, c: Call)
    ensures ApplyAll(EMPTY, calls + [c]) == Apply(ApplyAll(EMPTY, calls), c)
    ensures Reports(EMPTY, calls + [c])
         == Reports(EMPTY, calls) + (if c.Flush? then [FlushReport(ApplyAll(EMPTY, calls))] else [])
  {
    assert (calls + [c])[..|calls|] == calls;
  }

  lemma NetworkKeepsInv(s: System, call: Call)
    requires Inv(s) && call.From(Network)
    ensures Inv(StepNetwork(s, call))
  {
    if s.network.Leaving? {
      CallReturns(s.calls, s.network.c);
    }
  }

  lemma LocalKeepsInv(s: System, call: Call)
    requires Inv(s) && call.From(Local)
    ensures Inv(StepLocal(s, call))
  {
    if s.local.Leaving? {
      CallReturns(s.calls, s.local.c);
    }
  }

  lemma ClampKeepsProgress(pc: ClampPc, v: int, base: int)
    requires ClampProgress(pc, v, base)
    ensures ClampProgress(StepClamp(pc, v).0, StepClamp(pc, v).1, base)
  {
  }

  lemma ClampXKeepsProgress(pc: ClampPc, mem: Fields, base: Fields)
    requires FlushProgress(ClampX(pc), mem, base)
    ensures StepFlush(ClampX(pc), mem).0.Inside()
    ensures FlushProgress(StepFlush(ClampX(pc), mem).0, StepFlush(ClampX(pc), mem).1, base)
  {
    if pc.Clamped? {
      assert StepFlush(ClampX(pc), mem) == (ClampY(pc.c, TestHigh), mem);
    } else {
      var (pc', v) := StepClamp(pc, mem.dx);
      ClampKeepsProgress(pc, mem.dx, base.dx);
      assert StepFlush(ClampX(pc), mem) == (ClampX(pc'), mem.(dx := v));
    }
  }

  lemma ClampYKeepsProgress(cx: int, pc: ClampPc, mem: Fields, base: Fields)
    requires FlushProgress(ClampY(cx, pc), mem, base)
    ensures StepFlush(ClampY(cx, pc), mem).0.Inside()
    ensures FlushProgress(StepFlush(ClampY(cx, pc), mem).0, StepFlush(ClampY(cx, pc), mem).1, base)
  {
    if pc.Clamped? {
      assert StepFlush(ClampY(cx, pc), mem) == (ReadNetwork(cx, pc.c), mem);
    } else {
      var (pc', v) := StepClamp(pc, mem.dy);
      ClampKeepsProgress(pc, mem.dy, base.dy);
      assert StepFlush(ClampY(cx, pc), mem) == (ClampY(cx, pc'), mem.(dy := v));
    }
  }

  lemma FlushKeepsProgress(d: Dispatcher, mem: Fields, base: Fields)
    requires d.Inside() && !d.Returning? && FlushProgress(d, mem, base)
    ensures StepFlush(d, mem).0.Inside()
    ensures FlushProgress(StepFlush(d, mem).0, StepFlush(d, mem).1, base)
  {
    match d
    case ClampX(pc) => ClampXKeepsProgress(pc, mem, base);
    case ClampY(cx, pc) => ClampYKeepsProgress(cx, pc, mem, base);
    case ReadNetwork(_, _) =>
    case ReadLocal(_, _, _) =>
  }

  lemma DispatcherKeepsInv(s: System)
    requires Inv(s)
    ensures Inv(StepDispatcher(s))
  {
    if s.dispatcher.Returning? {
      CallReturns(s.calls, Flush);
    } else if s.dispatcher.Inside() {
      FlushKeepsProgress(s.dispatcher, s.mem, ApplyAll(EMPTY, s.calls));
    }
  }

  lemma StepKeepsInv(s: System, turn: Turn)
    requires Inv(s)
    ensures Inv(Step(s, turn))
  {
    match turn
    case NetworkTurn(dx, dy, buttons) => NetworkKeepsInv(s, Accumulate(dx, dy, buttons, Network));
    case LocalTurn(dx, dy, buttons) => LocalKeepsInv(s, Accumulate(dx, dy, buttons, Local));
    case DispatcherTurn => DispatcherKeepsInv(s);
  }

  lemma {:induction false} Reachable(turns: seq<Turn>)
    ensures Inv(Exec(turns))
  {
    if |turns| > 0 {
      Reachable(turns[..|turns| - 1]);
      StepKeepsInv(Exec(turns[..|turns| - 1]), turns[|turns| - 1]);
    }
  }

  // ---------------------------------------------------------------- results

  /**
    Linearizability: under every schedule the flushes return exactly what the same calls return when
    run atomically in the order they returned, and whenever the lock is free memory holds exactly the
    state those atomic calls leave.
   */
  lemma LockMakesCallsAtomic(turns: seq<Turn>)
    ensures Exec(turns).returned == Reports(EMPTY, Exec(turns).calls)
    ensures Exec(turns).holder.Free? ==> Exec(turns).mem == ApplyAll(EMPTY, Exec(turns).calls)
  {
    Reachable(turns);
  }

  /** At most one thread is inside a critical section. */
  lemma MutualExclusion(turns: seq<Turn>)
    ensures var s := Exec(turns);
            && !(s.network.Inside() && s.local.Inside())
            && !(s.network.Inside() && s.dispatcher.Inside())
            && !(s.local.Inside() && s.dispatcher.Inside())
  {
    Reachable(turns);
  }

  /** The call a producer has started and not yet finished. */
  function InFlight(p: Producer): seq<Call> { if p.Idle? then [] else [p.c] }

  /** The calls a source has started are those of it that returned, in the same order, then the one in flight. */
  ghost predicate AllAccountedFor(s: System) {
    && OfSource(s.started, Network) == OfSource(s.calls, Network) + InFlight(s.network)
    && OfSource(s.started, Local) == OfSource(s.calls, Local) + InFlight(s.local)
  }

  lemma OfSourceAppend(calls: seq<Call>, c: Call)
    ensures OfSource(calls + [c], Network) == OfSource(calls, Network) + if c.From(Network) then [c] else []
    ensures OfSource(calls + [c], Local) == OfSource(calls, Local) + if c.From(Local) then [c] else []
  {
    assert (calls + [c])[..|calls|] == calls;
  }

  lemma NetworkKeepsAccount(s: System, call: Call)
    requires WellFormed(s) && AllAccountedFor(s) && call.From(Network)
    ensures AllAccountedFor(StepNetwork(s, call))
  {
    if s.network.Idle? {
      OfSourceAppend(s.started, call);
    } else if s.network.Leaving? {
      OfSourceAppend(s.calls, s.network.c);
    }
  }

  lemma LocalKeepsAccount(s: System, call: Call)
    requires WellFormed(s) && AllAccountedFor(s) && call.From(Local)
    ensures AllAccountedFor(StepLocal(s, call))
  {
    if s.local.Idle? {
      OfSourceAppend(s.started, call);
    } else if s.local.Leaving? {
      OfSourceAppend(s.calls, s.local.c);
    }
  }

  lemma DispatcherKeepsAccount(s: System)
    requires WellFormed(s) && AllAccountedFor(s)
    ensures AllAccountedFor(StepDispatcher(s))
  {
    if s.dispatcher.Returning? {
      OfSourceAppend(s.calls, Flush);
    }
  }

  lemma StepKeepsAccount(s: System, turn: Turn)
    requires WellFormed(s) && AllAccountedFor(s)
    ensures AllAccountedFor(Step(s, turn))
  {
    match turn
    case NetworkTurn(dx, dy, buttons) => NetworkKeepsAccount(s, Accumulate(dx, dy, buttons, Network));
    case LocalTurn(dx, dy, buttons) => LocalKeepsAccount(s, Accumulate(dx, dy, buttons, Local));
    case DispatcherTurn => DispatcherKeepsAccount(s);
  }

  /** Every started call takes effect exactly once, in the order its thread made it. */
  lemma {:induction false} CallsAreNeitherLostNorRepeated(turns: seq<Turn>)
    ensures AllAccountedFor(Exec(turns))
  {
    if |turns| > 0 {
      CallsAreNeitherLostNorRepeated(turns[..|turns| - 1]);
      StepKeepsAccount(Exec(turns[..|turns| - 1]), turns[|turns| - 1]);
    }
  }

  /** Conservation at the fine grain: what the finished calls added is reported or still in memory. */
  lemma ConservationUnderAnySchedule(turns: seq<Turn>, axis: Axis)
    requires Exec(turns).holder.Free?
    ensures Total(Exec(turns).calls, axis)
         == TotalReported(Exec(turns).returned, axis) + Exec(turns).mem.Motion(axis)
  {
    Reachable(turns);
    MotionIsConserved(EMPTY, Exec(turns).calls, axis);
  }
}
