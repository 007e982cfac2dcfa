/** What whole runs of the local mouse reader do: the calls it makes, and whose buttons the merger holds. */
module LocalRuns {
  import opened Wrappers
  import opened Merger
  import opened Buttons
  import opened LocalMouse

  // ---------------------------------------------------------------- a run as one sequence of readings

  /** The readings the loop gets to before it is left. */
  function Handled(r: Reader, rounds: seq<Round>): seq<Reading>
    decreases |rounds|
  {
    if |rounds| == 0 || Leaves(r, rounds[0]) then []
    else rounds[0].readings + Handled(HandleReadings(r, rounds[0].readings), rounds[1..])
  }

  lemma {:induction false} HandleReadingsConcat(r: Reader, a: seq<Reading>, b: seq<Reading>)
    ensures HandleReadings(r, a + b) == HandleReadings(HandleReadings(r, a), b)
  {
    if |b| == 0 {
      assert a + b == a;
    } else {
      HandleReadingsConcat(r, a, b[..|b| - 1]);
      assert (a + b)[..|a + b| - 1] == a + b[..|b| - 1];
    }
  }

  lemma {:induction false} RoundsAreTheirReadings(r: Reader, rounds: seq<Round>)
    ensures HandleRounds(r, rounds) == HandleReadings(r, Handled(r, rounds))
    decreases |rounds|
  {
    if |rounds| > 0 && !Leaves(r, rounds[0]) {
      var s := HandleReadings(r, rounds[0].readings);
      RoundsAreTheirReadings(s, rounds[1..]);
      HandleReadingsConcat(r, rounds[0].readings, Handled(s, rounds[1..]));
    }
  }

  // ---------------------------------------------------------------- each device on its own

  /** Whether the reading leads to a call on the merger. */
  predicate IsReport(r: Reader, reading: Reading) {
    && r.Reads(reading) && reading.outcome.Events?
    && exists i | 0 <= i < |reading.outcome.events| :: !reading.outcome.events[i].Ignored?
  }

  /** The events read from one device. */
  function OwnStream(r: Reader, readings: seq<Reading>, fd: nat): seq<Event> {
    if |readings| == 0 then []
    else
      var before, last := readings[..|readings| - 1], readings[|readings| - 1];
      if last.fd == fd && last.outcome.Events? && HandleReadings(r, before).Reads(last) then
        OwnStream(r, before, fd) + last.outcome.events
      else OwnStream(r, before, fd)
  }

  /** The button byte of a device that had `initially` and sent these events. */
  function ByteAfter(initially: bv8, events: seq<Event>): bv8 { Fold(Batch(0, 0, initially, false), events).btn }

  lemma ByteAfterMore(initially: bv8, x: seq<Event>, y: seq<Event>)
    ensures ByteAfter(initially, x + y) == ByteAfter(ByteAfter(initially, x), y)
  {
    FoldConcat(Batch(0, 0, initially, false), x, y);
    FoldShift(Fold(Batch(0, 0, initially, false), x), y);
  }

  /** A batch that is no report leaves the byte alone. */
  lemma IrrelevantBatch(initially: bv8, events: seq<Event>)
    requires forall i | 0 <= i < |events| :: events[i].Ignored?
    ensures ByteAfter(initially, events) == initially
  {
    ChangedIffRelevant(Batch(0, 0, initially, false), events);
    FoldMotion(Batch(0, 0, initially, false), events, X);
  }

  lemma {:induction false} ChangedIffRelevant(b: Batch, events: seq<Event>)
    ensures Fold(b, events).changed <==> b.changed || exists i | 0 <= i < |events| :: !events[i].Ignored?
  {
    if |events| > 0 {
      ChangedIffRelevant(b, events[..|events| - 1]);
    }
  }

  /** What one reading does to the buttons of a device and of the merger. */
  lemma ReadingButtons(r: Reader, reading: Reading, fd: nat)
    requires fd in r.buttons
    ensures var s := HandleReading(r, reading);
            && (fd in s.buttons ==>
                  s.buttons[fd] == if r.Reads(reading) && reading.outcome.Events? && reading.fd == fd
                                   then ByteAfter(r.buttons[fd], reading.outcome.events) else r.buttons[fd])
            && (IsReport(r, reading) && reading.fd == fd ==>
                  s.merger.local == ByteAfter(r.buttons[fd], reading.outcome.events) & 0x07)
            && (!IsReport(r, reading) ==> s.merger == r.merger)
  {
    if r.Reads(reading) && reading.outcome.Events? {
      var b := Batch(0, 0, r.buttons[reading.fd], false);
      ChangedIffRelevant(b, reading.outcome.events);
      FoldMotion(b, reading.outcome.events, X);
    }
  }

  /** In any run, whatever other devices send in between, a device's byte is made by its own events alone. */
  lemma {:induction false} OwnStreamDecides(r: Reader, readings: seq<Reading>, fd: nat)
    requires fd in r.buttons
    ensures var s := HandleReadings(r, readings);
            fd in s.buttons ==> s.buttons[fd] == ByteAfter(r.buttons[fd], OwnStream(r, readings, fd))
  {
    if |readings| > 0 {
      var before, last := readings[..|readings| - 1], readings[|readings| - 1];
      var s := HandleReadings(r, before);
      OwnStreamDecides(r, before, fd);
      if fd in s.buttons {
        ReadingButtons(s, last, fd);
        if last.outcome.Events? {
          ByteAfterMore(r.buttons[fd], OwnStream(r, before, fd), last.outcome.events);
        }
      }
    }
  }

  /** The readings of one device, in their order. */
  function Of(readings: seq<Reading>, fd: nat): seq<Reading> {
    if |readings| == 0 then []
    else
      var rest := Of(readings[..|readings| - 1], fd);
      if readings[|readings| - 1].fd == fd then rest + [readings[|readings| - 1]] else rest
  }

  /** As far as `fd` is concerned the readers are in the same state. */
  predicate AgreeOn(s: Reader, t: Reader, fd: nat) {
    && s.raised == t.raised
    && (fd in s.devices <==> fd in t.devices)
    && (fd in s.buttons <==> fd in t.buttons)
    && (fd in s.buttons ==> s.buttons[fd] == t.buttons[fd])
  }

  lemma ReadingAgrees(s: Reader, t: Reader, reading: Reading, fd: nat)
    requires AgreeOn(s, t, fd)
    ensures reading.fd == fd ==> AgreeOn(HandleReading(s, reading), HandleReading(t, reading), fd)
    ensures reading.fd != fd && !reading.outcome.Raised? ==> AgreeOn(HandleReading(s, reading), t, fd)
  {
  }

  /** Taking out all readings of other devices, their loss included, changes nothing for `fd` unless one raises. */
  lemma {:induction false} OthersDoNotMatter(r: Reader, readings: seq<Reading>, fd: nat)
    requires forall i | 0 <= i < |readings| :: readings[i].fd == fd || !readings[i].outcome.Raised?
    ensures AgreeOn(HandleReadings(r, readings), HandleReadings(r, Of(readings, fd)), fd)
  {
    if |readings| > 0 {
      var before, last := readings[..|readings| - 1], readings[|readings| - 1];
      OthersDoNotMatter(r, before, fd);
      ReadingAgrees(HandleReadings(r, before), HandleReadings(r, Of(before, fd)), last, fd);
      assert (Of(before, fd) + [last])[..|Of(before, fd)|] == Of(before, fd);
    }
  }

  // ---------------------------------------------------------------- whose buttons the merger holds

  /** The last device whose reading led to a call. */
  function LastReporter(r: Reader, readings: seq<Reading>): Option<nat> {
    if |readings| == 0 then None
    else
      var before, last := readings[..|readings| - 1], readings[|readings| - 1];
      if IsReport(HandleReadings(r, before), last) then Some(last.fd) else LastReporter(r, before)
  }

  /** Whether the last key event a device sent about `b`, if any, was a press. */
  predicate HoldsByOwnStream(r: Reader, readings: seq<Reading>, fd: nat, b: Button)
    requires fd in r.buttons
  {
    DownAfter(OwnStream(r, readings, fd), b, IsDown(r.buttons[fd], b))
  }

  lemma {:induction false} MonitoredFromTheStart(r: Reader, readings: seq<Reading>, fd: nat)
    requires fd in HandleReadings(r, readings).buttons
    ensures fd in r.buttons
  {
    if |readings| > 0 {
      MonitoredFromTheStart(r, readings[..|readings| - 1], fd);
    }
  }

  lemma {:induction false} LastReportersByte(r: Reader, readings: seq<Reading>)
    ensures match LastReporter(r, readings)
            case None => HandleReadings(r, readings).merger.local == r.merger.local
            case Some(fd) =>
              && fd in r.buttons
              && HandleReadings(r, readings).merger.local
              == ByteAfter(r.buttons[fd], OwnStream(r, readings, fd)) & 0x07
  {
    if |readings| > 0 {
      var before, last := readings[..|readings| - 1], readings[|readings| - 1];
      var s := HandleReadings(r, before);
      LastReportersByte(r, before);
      if IsReport(s, last) {
        MonitoredFromTheStart(r, before, last.fd);
        OwnStreamDecides(r, before, last.fd);
        ReadingButtons(s, last, last.fd);
        ByteAfterMore(r.buttons[last.fd], OwnStream(r, before, last.fd), last.outcome.events);
      } else {
        UnreportedMerger(s, last);
        if LastReporter(r, before).Some? {
          UnreportedReading(r, readings, LastReporter(r, before).value);
        }
      }
    }
  }

  lemma UnreportedMerger(r: Reader, reading: Reading)
    requires !IsReport(r, reading)
    ensures HandleReading(r, reading).merger == r.merger
  {
    if r.Reads(reading) {
      ReadingButtons(r, reading, reading.fd);
    }
  }

  /** A reading that leads to no call leaves every device's byte alone. */
  lemma UnreportedReading(r: Reader, readings: seq<Reading>, fd: nat)
    requires |readings| > 0 && fd in r.buttons
    requires !IsReport(HandleReadings(r, readings[..|readings| - 1]), readings[|readings| - 1])
    ensures ByteAfter(r.buttons[fd], OwnStream(r, readings, fd))
         == ByteAfter(r.buttons[fd], OwnStream(r, readings[..|readings| - 1], fd))
  {
    var before, last := readings[..|readings| - 1], readings[|readings| - 1];
    if last.fd == fd && last.outcome.Events? && HandleReadings(r, before).Reads(last) {
      ByteAfterMore(r.buttons[fd], OwnStream(r, before, fd), last.outcome.events);
      IrrelevantBatch(ByteAfter(r.buttons[fd], OwnStream(r, before, fd)), last.outcome.events);
    }
  }

  /**
    In any run the merger's local byte is that of the device that reported last, made from that device's own
    events, whether or not the device has been lost since; before any report it is what it was.
   */
  lemma LocalButtonsAreTheLastReporters(r: Reader, rounds: seq<Round>)
    ensures var readings := Handled(r, rounds);
            match LastReporter(r, readings)
            case None => HandleRounds(r, rounds).merger.local == r.merger.local
            case Some(fd) =>
              && fd in r.buttons
              && HandleRounds(r, rounds).merger.local == ByteAfter(r.buttons[fd], OwnStream(r, readings, fd)) & 0x07
  {
    RoundsAreTheirReadings(r, rounds);
    LastReportersByte(r, Handled(r, rounds));
  }

  /** What the run makes of button `b` in the merger: what the last reporter's own events say of it. */
  predicate LocalHolds(r: Reader, readings: seq<Reading>, b: Button) {
    match LastReporter(r, readings)
    case None => IsDown(r.merger.local, b)
    case Some(fd) => fd in r.buttons && HoldsByOwnStream(r, readings, fd, b)
  }

  lemma LocalHoldsIsInTheMerger(r: Reader, readings: seq<Reading>, b: Button)
    ensures IsDown(HandleReadings(r, readings).merger.local, b) <==> LocalHolds(r, readings, b)
  {
    LastReportersByte(r, readings);
    match LastReporter(r, readings)
    case None =>
    case Some(fd) =>
      FoldButtons(Batch(0, 0, r.buttons[fd], false), OwnStream(r, readings, fd), b);
      LowBits(ByteAfter(r.buttons[fd], OwnStream(r, readings, fd)), b);
  }

  /** A button is down in the merger exactly when some monitored device holds it. */
  ghost predicate LocalIsUnion(r: Reader) {
    forall b: Button :: IsDown(r.merger.local, b) <==> exists fd | fd in r.buttons :: IsDown(r.buttons[fd], b)
  }

  /** The loss of a device the run has got to. */
  predicate IsLostIn(r: Reader, readings: seq<Reading>, fd: nat) {
    |readings| > 0 &&
    var before, last := readings[..|readings| - 1], readings[|readings| - 1];
    IsLostIn(r, before, fd) || (last == Reading(fd, Lost) && HandleReadings(r, before).Reads(last))
  }

  lemma {:induction false} MonitoredUntilLost(r: Reader, readings: seq<Reading>, fd: nat)
    ensures fd in HandleReadings(r, readings).buttons <==> fd in r.buttons && !IsLostIn(r, readings, fd)
  {
    if |readings| > 0 {
      MonitoredUntilLost(r, readings[..|readings| - 1], fd);
    }
  }

  /** Some device not lost holds the button by its own events. */
  ghost predicate SomeDeviceHolds(r: Reader, readings: seq<Reading>, b: Button) {
    exists fd | fd in r.buttons && !IsLostIn(r, readings, fd) :: HoldsByOwnStream(r, readings, fd, b)
  }

  lemma UnionAfterReadings(r: Reader, readings: seq<Reading>)
    ensures LocalIsUnion(HandleReadings(r, readings))
       <==> forall b: Button :: LocalHolds(r, readings, b) <==> SomeDeviceHolds(r, readings, b)
  {
    var s := HandleReadings(r, readings);
    forall fd: nat ensures fd in s.buttons <==> fd in r.buttons && !IsLostIn(r, readings, fd) {
      MonitoredUntilLost(r, readings, fd);
    }
    forall b: Button
      ensures IsDown(s.merger.local, b) <==> LocalHolds(r, readings, b)
      ensures (exists fd | fd in s.buttons :: IsDown(s.buttons[fd], b)) <==> SomeDeviceHolds(r, readings, b)
    {
      LocalHoldsIsInTheMerger(r, readings, b);
      forall fd | fd in s.buttons
        ensures fd in r.buttons && (IsDown(s.buttons[fd], b) <==> HoldsByOwnStream(r, readings, fd, b))
      {
        OwnStreamDecides(r, readings, fd);
        FoldButtons(Batch(0, 0, r.buttons[fd], false), OwnStream(r, readings, fd), b);
      }
    }
  }

  /**
    The local buttons are the union over the monitored devices exactly when, for every button, the device that
    reported last agrees with the others: it holds the button if and only if some device not lost does.
   */
  lemma LocalIsUnionExactlyWhen(r: Reader, rounds: seq<Round>)
    ensures LocalIsUnion(HandleRounds(r, rounds))
       <==> forall b: Button :: LocalHolds(r, Handled(r, rounds), b) <==> SomeDeviceHolds(r, Handled(r, rounds), b)
  {
    RoundsAreTheirReadings(r, rounds);
    UnionAfterReadings(r, Handled(r, rounds));
  }

  /** Some monitored device other than `fd` holds the button. */
  ghost predicate HeldByAnother(r: Reader, fd: nat, b: Button) {
    exists other | other in r.buttons && other != fd :: IsDown(r.buttons[other], b)
  }

  /** A device's report agrees with the union exactly when nobody else holds a button it leaves up. */
  lemma ReportAgreesExactlyWhen(r: Reader, reading: Reading)
    requires IsReport(r, reading)
    ensures LocalIsUnion(HandleReading(r, reading)) <==>
            forall b: Button | HeldByAnother(r, reading.fd, b) ::
              DownAfter(reading.outcome.events, b, IsDown(r.buttons[reading.fd], b))
  {
    var s, fd, events := HandleReading(r, reading), reading.fd, reading.outcome.events;
    ReadingButtons(r, reading, fd);
    assert s.buttons == r.buttons[fd := ByteAfter(r.buttons[fd], events)];
    forall b: Button
      ensures IsDown(s.merger.local, b) <==> DownAfter(events, b, IsDown(r.buttons[fd], b))
      ensures (exists d | d in s.buttons :: IsDown(s.buttons[d], b))
         <==> DownAfter(events, b, IsDown(r.buttons[fd], b)) || HeldByAnother(r, fd, b)
    {
      FoldButtons(Batch(0, 0, r.buttons[fd], false), events, b);
      LowBits(s.buttons[fd], b);
      if HeldByAnother(r, fd, b) {
        var other :| other in r.buttons && other != fd && IsDown(r.buttons[other], b);
        assert other in s.buttons && IsDown(s.buttons[other], b);
      }
    }
  }

  /**
    A lost device leaves its buttons in the merger. It agrees with the union afterwards exactly when the
    merger holds what the other devices hold; if it agreed before, exactly when the lost device held nothing
    of its own.
   */
  lemma LossAgreesExactlyWhen(r: Reader, reading: Reading)
    requires r.Reads(reading) && reading.outcome.Lost?
    ensures var s := HandleReading(r, reading);
            && s.merger == r.merger
            && (LocalIsUnion(s) <==>
                  forall b: Button :: IsDown(r.merger.local, b) <==> HeldByAnother(r, reading.fd, b))
            && (LocalIsUnion(r) ==>
                  (LocalIsUnion(s) <==>
                   forall b: Button | IsDown(r.buttons[reading.fd], b) :: HeldByAnother(r, reading.fd, b)))
  {
    var s := HandleReading(r, reading);
    assert s.buttons == r.buttons - {reading.fd};
    forall b: Button
      ensures (exists fd | fd in s.buttons :: IsDown(s.buttons[fd], b)) <==> HeldByAnother(r, reading.fd, b)
      ensures (exists fd | fd in r.buttons :: IsDown(r.buttons[fd], b))
         <==> IsDown(r.buttons[reading.fd], b) || HeldByAnother(r, reading.fd, b)
    {
      if HeldByAnother(r, reading.fd, b) {
        var other :| other in r.buttons && other != reading.fd && IsDown(r.buttons[other], b);
        assert other in s.buttons && IsDown(s.buttons[other], b);
      }
    }
  }

  const TWO_MICE := map[3 := Device("a"), 4 := Device("b")]

  /** The reader after a press on the first of two mice. */
  const HELD := Reader(TWO_MICE, map[3 := 1, 4 := 0], [], Fields(0, 0, 0, 1), false)

  lemma OnlyLeft(b: Button)
    ensures (IsDown(1, b) <==> b == Left) && !IsDown(0, b)
  {
    match b
    case Left =>
    case Right =>
    case Middle =>
  }

  lemma HeldIsUnion()
    ensures HELD == HandleReading(Started(TWO_MICE, EMPTY), Reading(3, Events([Key(Left, 1)])))
    ensures LocalIsUnion(HELD)
  {
    var press := [Key(Left, 1)];
    assert press[..0] == [];
    assert Fold(Batch(0, 0, 0, false), press) == Batch(0, 0, 1, true);
    forall b: Button ensures (IsDown(1, b) <==> b == Left) && !IsDown(0, b) {
      OnlyLeft(b);
    }
    assert HELD.buttons[3] == 1 && HELD.buttons[4] == 0;
  }

  lemma UnionFails(r: Reader, b: Button)
    requires IsDown(r.merger.local, b) != exists fd | fd in r.buttons :: IsDown(r.buttons[fd], b)
    ensures !LocalIsUnion(r)
  {
  }

  /** A button held on one mouse is dropped as soon as another mouse moves. */
  lemma HeldButtonIsDropped()
    ensures var moved := HandleReading(HELD, Reading(4, Events([Rel(X, 1)])));
            && 3 in moved.buttons && IsDown(moved.buttons[3], Left) && !IsDown(moved.merger.local, Left)
            && !LocalIsUnion(moved)
  {
    var move := [Rel(X, 1)];
    assert move[..0] == [];
    assert Fold(Batch(0, 0, 0, false), move) == Batch(1, 0, 0, true);
    var moved := HandleReading(HELD, Reading(4, Events(move)));
    assert moved.buttons[3] == 1;
    UnionFails(moved, Left);
  }

  /** A button held on a mouse that is then lost stays down though no device holds it. */
  lemma LostButtonStays()
    ensures var lost := HandleReading(HELD, Reading(3, Lost));
            && IsDown(lost.merger.local, Left) && (forall fd | fd in lost.buttons :: !IsDown(lost.buttons[fd], Left))
            && !LocalIsUnion(lost)
  {
    var lost := HandleReading(HELD, Reading(3, Lost));
    OnlyLeft(Left);
    assert lost.buttons == map[4 := 0];
    UnionFails(lost, Left);
  }

  // ---------------------------------------------------------------- the calls on the merger

  function CallOf(r: Reader, reading: Reading): (calls: seq<Call>)
    ensures |calls| <= 1
  {
    if !IsReport(r, reading) then []
    else
      var b := Fold(Batch(0, 0, r.buttons[reading.fd], false), reading.outcome.events);
      [Accumulate(b.dx, b.dy, b.btn & 0x07, Local)]
  }

  function CallsOf(r: Reader, readings: seq<Reading>): seq<Call> {
    if |readings| == 0 then []
    else
      var before := readings[..|readings| - 1];
      CallsOf(r, before) + CallOf(HandleReadings(r, before), readings[|readings| - 1])
  }

  lemma ReadingCallsMerger(r: Reader, reading: Reading)
    ensures HandleReading(r, reading).merger == ApplyAll(r.merger, CallOf(r, reading))
  {
    if r.Reads(reading) && reading.outcome.Events? {
      ChangedIffRelevant(Batch(0, 0, r.buttons[reading.fd], false), reading.outcome.events);
    }
    if IsReport(r, reading) {
      assert CallOf(r, reading)[..0] == [];
    }
  }

  lemma {:induction false} ReadingsCallMerger(r: Reader, readings: seq<Reading>)
    ensures HandleReadings(r, readings).merger == ApplyAll(r.merger, CallsOf(r, readings))
  {
    if |readings| > 0 {
      var before, last := readings[..|readings| - 1], readings[|readings| - 1];
      ReadingsCallMerger(r, before);
      ReadingCallsMerger(HandleReadings(r, before), last);
      ApplyAllConcat(r.merger, CallsOf(r, before), CallOf(HandleReadings(r, before), last));
    }
  }

  lemma {:induction false} OnlyLocalCalls(r: Reader, readings: seq<Reading>)
    ensures forall i | 0 <= i < |CallsOf(r, readings)| :: CallsOf(r, readings)[i].From(Local)
  {
    if |readings| > 0 {
      OnlyLocalCalls(r, readings[..|readings| - 1]);
    }
  }

  lemma MergerDoesNotSteerReading(r: Reader, m: Fields, reading: Reading)
    ensures var s := HandleReading(r.(merger := m), reading);
            && s == HandleReading(r, reading).(merger := s.merger)
            && r.(merger := m).Reads(reading) == r.Reads(reading)
            && CallOf(r.(merger := m), reading) == CallOf(r, reading)
            && IsReport(r.(merger := m), reading) == IsReport(r, reading)
  {
  }

  /** Nothing the reader does depends on what is in the merger. */
  lemma {:induction false} MergerDoesNotSteerReadings(r: Reader, m: Fields, readings: seq<Reading>)
    ensures var s := HandleReadings(r.(merger := m), readings);
            && s == HandleReadings(r, readings).(merger := s.merger)
            && CallsOf(r.(merger := m), readings) == CallsOf(r, readings)
            && LastReporter(r.(merger := m), readings) == LastReporter(r, readings)
            && forall fd :: OwnStream(r.(merger := m), readings, fd) == OwnStream(r, readings, fd)
  {
    if |readings| > 0 {
      var before, last := readings[..|readings| - 1], readings[|readings| - 1];
      var s := HandleReadings(r.(merger := m), before);
      MergerDoesNotSteerReadings(r, m, before);
      MergerDoesNotSteerReading(HandleReadings(r, before), s.merger, last);
    }
  }

  lemma {:induction false} MergerDoesNotSteerRounds(r: Reader, m: Fields, rounds: seq<Round>)
    ensures Handled(r.(merger := m), rounds) == Handled(r, rounds)
    ensures Exits(r.(merger := m), rounds) == Exits(r, rounds)
    decreases |rounds|
  {
    if |rounds| > 0 && !Leaves(r, rounds[0]) {
      MergerDoesNotSteerReadings(r, m, rounds[0].readings);
      var s := HandleReadings(r.(merger := m), rounds[0].readings);
      MergerDoesNotSteerRounds(HandleReadings(r, rounds[0].readings), s.merger, rounds[1..]);
    }
  }

  // ---------------------------------------------------------------- the whole thread

  function Start(loop: Loop): Reader { Started(loop.mice, EMPTY) }

  function CallsOfLoop(loop: Loop): seq<Call> { CallsOf(Start(loop), Handled(Start(loop), loop.rounds)) }

  /** The calls the thread makes, pass after pass. */
  function CallsOfLoops(loops: seq<Loop>): seq<Call> {
    if |loops| == 0 then []
    else CallsOfLoop(loops[0]) + if Exits(Start(loops[0]), loops[0].rounds) then CallsOfLoops(loops[1..]) else []
  }

  /** The motion the thread reads. */
  function MotionOfLoops(loops: seq<Loop>, axis: Axis): int {
    if |loops| == 0 then 0
    else
      MotionOfRounds(Start(loops[0]), loops[0].rounds, axis)
      + if Exits(Start(loops[0]), loops[0].rounds) then MotionOfLoops(loops[1..], axis) else 0
  }

  /** Whether the pass leaves `b` down, having found it `before`. */
  predicate LoopHolds(loop: Loop, b: Button, before: bool) {
    var readings := Handled(Start(loop), loop.rounds);
    if LastReporter(Start(loop), readings).None? then before else LocalHolds(Start(loop), readings, b)
  }

  /** What the last device to have reported in any pass says of `b` by its own events in that pass. */
  predicate LoopsHold(loops: seq<Loop>, b: Button, before: bool) {
    if |loops| == 0 then before
    else
      var now := LoopHolds(loops[0], b, before);
      if Exits(Start(loops[0]), loops[0].rounds) then LoopsHold(loops[1..], b, now) else now
  }

  lemma LoopCallsMerger(loop: Loop, m: Fields)
    ensures HandleRounds(Started(loop.mice, m), loop.rounds).merger == ApplyAll(m, CallsOfLoop(loop))
    ensures Exits(Started(loop.mice, m), loop.rounds) == Exits(Start(loop), loop.rounds)
  {
    var r := Started(loop.mice, m);
    assert r == Start(loop).(merger := m);
    var readings := Handled(r, loop.rounds);
    RoundsAreTheirReadings(r, loop.rounds);
    MergerDoesNotSteerRounds(Start(loop), m, loop.rounds);
    MergerDoesNotSteerReadings(Start(loop), m, readings);
    ReadingsCallMerger(r, readings);
  }

  /** The thread leaves in the merger what its calls make of it, and the calls are the same for any merger. */
  lemma {:induction false} ThreadCallsMerger(loops: seq<Loop>, m: Fields)
    ensures AfterLoops(m, loops) == ApplyAll(m, CallsOfLoops(loops))
    decreases |loops|
  {
    if |loops| > 0 {
      var m' := ApplyAll(m, CallsOfLoop(loops[0]));
      LoopCallsMerger(loops[0], m);
      ThreadCallsMerger(loops[1..], m');
      ApplyAllConcat(m, CallsOfLoop(loops[0]), CallsOfLoops(loops[1..]));
      assert CallsOfLoop(loops[0]) + [] == CallsOfLoop(loops[0]);
    }
  }

  lemma LoopButtons(loop: Loop, m: Fields, b: Button)
    ensures IsDown(ApplyAll(m, CallsOfLoop(loop)).local, b) <==> LoopHolds(loop, b, IsDown(m.local, b))
  {
    var r := Started(loop.mice, m);
    assert r == Start(loop).(merger := m);
    LoopCallsMerger(loop, m);
    RoundsAreTheirReadings(r, loop.rounds);
    MergerDoesNotSteerRounds(Start(loop), m, loop.rounds);
    MergerDoesNotSteerReadings(Start(loop), m, Handled(r, loop.rounds));
    LocalHoldsIsInTheMerger(r, Handled(r, loop.rounds), b);
  }

  lemma {:induction false} ThreadButtons(loops: seq<Loop>, m: Fields, b: Button)
    ensures IsDown(ApplyAll(m, CallsOfLoops(loops)).local, b) <==> LoopsHold(loops, b, IsDown(m.local, b))
    decreases |loops|
  {
    if |loops| > 0 {
      var m' := ApplyAll(m, CallsOfLoop(loops[0]));
      LoopButtons(loops[0], m, b);
      ThreadButtons(loops[1..], m', b);
      ApplyAllConcat(m, CallsOfLoop(loops[0]), CallsOfLoops(loops[1..]));
      assert CallsOfLoop(loops[0]) + [] == CallsOfLoop(loops[0]);
    }
  }

  lemma LoopMotion(loop: Loop, axis: Axis)
    ensures Total(CallsOfLoop(loop), axis) == MotionOfRounds(Start(loop), loop.rounds, axis)
  {
    LoopCallsMerger(loop, EMPTY);
    AllMotionReadIsMerged(Start(loop), loop.rounds, axis);
    OnlyLocalCalls(Start(loop), Handled(Start(loop), loop.rounds));
    assert OnlyAccumulates(CallsOfLoop(loop));
    NoFlushNoReports(EMPTY, CallsOfLoop(loop));
    MotionIsConserved(EMPTY, CallsOfLoop(loop), axis);
  }

  /** The thread's calls add up to the motion read from all devices in all passes. */
  lemma {:induction false} ThreadMotion(loops: seq<Loop>, axis: Axis)
    ensures Total(CallsOfLoops(loops), axis) == MotionOfLoops(loops, axis)
    decreases |loops|
  {
    if |loops| > 0 {
      LoopMotion(loops[0], axis);
      ThreadMotion(loops[1..], axis);
      TotalConcat(CallsOfLoop(loops[0]), CallsOfLoops(loops[1..]), axis);
      assert CallsOfLoop(loops[0]) + [] == CallsOfLoop(loops[0]);
    }
  }
}
