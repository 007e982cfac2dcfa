/** The local mouse reader: device maps, the fold over each batch of events, and device removal. */
module LocalMouse {
  import opened Wrappers
  import opened CloseLog
  import opened Merger
  import opened Buttons

  /** `Ignored` stands for every event type and code the reader does not use. */
  datatype Event =
    | Rel(axis: Axis, value: int)
    | Key(button: Button, value: int)
    | Ignored
  {
    function Motion(a: Axis): int { if Rel? && axis == a then value else 0 }
  }

  datatype Device = Device(path: string)

  /** The outcome of reading a device: its events, its loss (`OSError`), or any other exception. */
  datatype Read = Events(events: seq<Event>) | Lost | Raised

  datatype Reading = Reading(fd: nat, outcome: Read)

  /** One round of the loop: what `select` reports, its failure, or the thread having been told to stop. */
  datatype Round = Ready(readings: seq<Reading>) | SelectFailed | StopRequested

  // ---------------------------------------------------------------- one batch

  /** The local variables of the event loop. */
  datatype Batch = Batch(dx: int, dy: int, btn: bv8, changed: bool) {
    function Motion(axis: Axis): int { if axis.X? then dx else dy }
  }

  function OneEvent(b: Batch, e: Event): Batch {
    match e
    case Rel(axis, value) =>
      if axis.X? then b.(dx := b.dx + value, changed := true) else b.(dy := b.dy + value, changed := true)
    case Key(button, value) => b.(btn := Press(b.btn, button, value != 0), changed := true)
    case Ignored => b
  }

  function Fold(b: Batch, events: seq<Event>): Batch {
    if |events| == 0 then b else OneEvent(Fold(b, events[..|events| - 1]), events[|events| - 1])
  }

  /** What a batch reads and writes: the merger and the device's button byte. */
  datatype Effect = Effect(merger: Fields, btn: bv8)

  function HandleBatch(before: Effect, events: seq<Event>): Effect {
    var b := Fold(Batch(0, 0, before.btn, false), events);
    if b.changed then Effect(AfterAccumulate(before.merger, b.dx, b.dy, b.btn & 0x07, Local), b.btn)
    else before
  }

  // ---------------------------------------------------------------- the loop

  /** `raised` says that an exception is on its way out of the loop. */
  datatype Reader = Reader(
    devices: map<nat, Device>, buttons: map<nat, bv8>, closed: seq<nat>, merger: Fields, raised: bool)
  {
    predicate Reads(reading: Reading) { !raised && reading.fd in devices && reading.fd in buttons }
  }

  function HandleReading(r: Reader, reading: Reading): Reader {
    if !r.Reads(reading) then r
    else match reading.outcome
      case Lost =>
        r.(devices := r.devices - {reading.fd}, buttons := r.buttons - {reading.fd}, closed := r.closed + [reading.fd])
      case Raised => r.(raised := true)
      case Events(events) =>
        var after := HandleBatch(Effect(r.merger, r.buttons[reading.fd]), events);
        r.(buttons := r.buttons[reading.fd := after.btn], merger := after.merger)
  }

  function HandleReadings(r: Reader, readings: seq<Reading>): Reader {
    if |readings| == 0 then r
    else HandleReading(HandleReadings(r, readings[..|readings| - 1]), readings[|readings| - 1])
  }

  /** Whether the loop is left before the round: nothing to monitor, an exception, a failed `select`, a stop. */
  predicate Leaves(r: Reader, round: Round) {
    |r.devices| == 0 || r.raised || !round.Ready?
  }

  function HandleRounds(r: Reader, rounds: seq<Round>): Reader
    decreases |rounds|
  {
    if |rounds| == 0 || Leaves(r, rounds[0]) then r
    else HandleRounds(HandleReadings(r, rounds[0].readings), rounds[1..])
  }

  /** Whether the loop is left within these rounds. */
  predicate Exits(r: Reader, rounds: seq<Round>)
    decreases |rounds|
  {
    |rounds| > 0 && (Leaves(r, rounds[0]) || Exits(HandleReadings(r, rounds[0].readings), rounds[1..]))
  }

  function Started(mice: map<nat, Device>, merger: Fields): Reader {
    Reader(mice, map fd | fd in mice :: 0, [], merger, false)
  }

  /** One pass through `_read_loop`: the mice found and the rounds of the loop. */
  datatype Loop = Loop(mice: map<nat, Device>, rounds: seq<Round>)

  /** The merger after the passes the thread makes until it is stopped, or up to the end of the script. */
  function AfterLoops(m: Fields, loops: seq<Loop>): Fields
    decreases |loops|
  {
    if |loops| == 0 then m
    else
      var start := Started(loops[0].mice, m);
      var after := HandleRounds(start, loops[0].rounds).merger;
      if Exits(start, loops[0].rounds) then AfterLoops(after, loops[1..]) else after
  }

  class LocalMouseReader {
    const merger: InputMerger
    var fdToDev: map<nat, Device>
    var buttonsByFd: map<nat, bv8>
    var raised: bool
    ghost var closed: seq<nat>

    ghost function Contents(): Reader
      reads this, merger
    {
      Reader(fdToDev, buttonsByFd, closed, merger.Contents(), raised)
    }

    constructor (merger: InputMerger)
      ensures this.merger == merger
    {
      this.merger := merger;
      fdToDev, buttonsByFd, raised, closed := map[], map[], false, [];
    }

    /** The loop over the events of one read. */
    method FoldEvents(initial: bv8, events: seq<Event>) returns (b: Batch)
      ensures b == Fold(Batch(0, 0, initial, false), events)
    {
      var dx, dy, btn, changed := 0, 0, initial, false;
      for i := 0 to |events|
        invariant Batch(dx, dy, btn, changed) == Fold(Batch(0, 0, initial, false), events[..i])
      {
        assert events[..i + 1][..i] == events[..i];
        match events[i] {
          case Rel(axis, value) =>
            if axis.X? {
              dx := dx + value;
            } else {
              dy := dy + value;
            }
            changed := true;
          case Key(button, value) =>
            btn := Press(btn, button, value != 0);
            changed := true;
          case Ignored =>
        }
      }
      assert events[..|events|] == events;
      b := Batch(dx, dy, btn, changed);
    }

    method ReadDevice(reading: Reading)
      requires KeysAgree(Contents())
      modifies this, merger
      ensures Contents() == HandleReading(old(Contents()), reading)
      ensures KeysAgree(Contents())
    {
      var fd := reading.fd;
      if !raised && fd in fdToDev {
        match reading.outcome {
          case Lost =>
            closed := closed + [fd];
            fdToDev := fdToDev - {fd};
            buttonsByFd := buttonsByFd - {fd};
          case Raised =>
            raised := true;
          case Events(events) =>
            var b := FoldEvents(buttonsByFd[fd], events);
            if b.changed {
              buttonsByFd := buttonsByFd[fd := b.btn];
              merger.Accumulate(b.dx, b.dy, b.btn & 0x07, "local");
            }
        }
      }
    }

    /** The loop over the readable devices of one round. */
    method ReadDevices(readings: seq<Reading>)
      requires KeysAgree(Contents())
      modifies this, merger
      ensures Contents() == HandleReadings(old(Contents()), readings)
      ensures KeysAgree(Contents())
    {
      ghost var before := Contents();
      for i := 0 to |readings|
        invariant KeysAgree(Contents())
        invariant Contents() == HandleReadings(before, readings[..i])
      {
        assert readings[..i + 1][..i] == readings[..i];
        ReadDevice(readings[i]);
      }
      assert readings[..|readings|] == readings;
    }

    /** Closes whatever is still monitored, in any order. */
    method CloseRemaining()
      modifies this`closed
      ensures forall fd: nat :: TimesClosed(closed, fd) == TimesClosed(old(closed), fd) + if fd in fdToDev then 1 else 0
    {
      var rest := fdToDev.Keys;
      while rest != {}
        invariant rest <= fdToDev.Keys
        invariant forall fd: nat :: TimesClosed(closed, fd)
                                 == TimesClosed(old(closed), fd) + if fd in fdToDev && fd !in rest then 1 else 0
        decreases rest
      {
        var fd :| fd in rest;
        forall other: nat
          ensures TimesClosed(closed + [fd], other) == TimesClosed(closed, other) + if other == fd then 1 else 0
        {
          TimesClosedAppend(closed, Some(fd), other);
        }
        closed := closed + [fd];
        rest := rest - {fd};
      }
    }

    /** The monitoring loop, up to its exit or to the end of the script. */
    method Monitor(rounds: seq<Round>) returns (left: bool)
      requires KeysAgree(Contents())
      modifies this, merger
      ensures Contents() == HandleRounds(old(Contents()), rounds) && left == Exits(old(Contents()), rounds)
      ensures KeysAgree(Contents())
    {
      ghost var before := Contents();
      var i := 0;
      while i < |rounds|
        invariant i <= |rounds| && KeysAgree(Contents())
        invariant HandleRounds(Contents(), rounds[i..]) == HandleRounds(before, rounds)
        invariant Exits(Contents(), rounds[i..]) == Exits(before, rounds)
      {
        assert rounds[i..][0] == rounds[i] && rounds[i..][1..] == rounds[i + 1..];
        if |fdToDev| == 0 || raised || !rounds[i].Ready? {
          return true;
        }
        ReadDevices(rounds[i].readings);
        i := i + 1;
      }
      return false;
    }

    /** `_read_loop` on the mice found; leaving the loop by any path closes every device exactly once. */
    method ReadLoop(mice: map<nat, Device>, rounds: seq<Round>) returns (left: bool)
      modifies this, merger
      ensures left == Exits(Started(mice, old(merger.Contents())), rounds)
      ensures merger.Contents() == HandleRounds(Started(mice, old(merger.Contents())), rounds).merger
      ensures left ==> forall fd: nat :: TimesClosed(closed, fd) == if fd in mice then 1 else 0
    {
      fdToDev, buttonsByFd, raised, closed := mice, map fd | fd in mice :: 0, false, [];
      ghost var start := Contents();
      left := Monitor(rounds);
      RoundsKeepOrder(start, rounds);
      if left {
        CloseRemaining();
      }
    }

    /** The thread's body: `_read_loop` again and again, an exception being no reason to stop. */
    method Run(loops: seq<Loop>)
      modifies this, merger
      ensures merger.Contents() == AfterLoops(old(merger.Contents()), loops)
    {
      ghost var before := merger.Contents();
      var i, left := 0, true;
      while i < |loops| && left
        invariant i <= |loops|
        invariant if left then AfterLoops(merger.Contents(), loops[i..]) == AfterLoops(before, loops)
                  else merger.Contents() == AfterLoops(before, loops)
      {
        assert loops[i..][0] == loops[i] && loops[i..][1..] == loops[i + 1..];
        left := ReadLoop(loops[i].mice, loops[i].rounds);
        i := i + 1;
      }
    }
  }

  // ---------------------------------------------------------------- maps and devices

  ghost predicate KeysAgree(r: Reader) { r.devices.Keys == r.buttons.Keys }

  /** Both maps have the same keys, and each mouse found is monitored or was closed once. */
  ghost predicate InOrder(r: Reader, mice: map<nat, Device>) {
    && KeysAgree(r)
    && forall fd: nat ::
         TimesClosed(r.closed, fd) + (if fd in r.devices then 1 else 0) == if fd in mice then 1 else 0
  }

  lemma ReadingKeepsOrder(r: Reader, reading: Reading, mice: map<nat, Device>)
    requires InOrder(r, mice)
    ensures InOrder(HandleReading(r, reading), mice)
  {
    forall fd: nat
      ensures TimesClosed(r.closed + [reading.fd], fd) == TimesClosed(r.closed, fd) + if fd == reading.fd then 1 else 0
    {
      TimesClosedAppend(r.closed, Some(reading.fd), fd);
    }
  }

  lemma {:induction false} ReadingsKeepOrder(r: Reader, readings: seq<Reading>, mice: map<nat, Device>)
    requires InOrder(r, mice)
    ensures InOrder(HandleReadings(r, readings), mice)
  {
    if |readings| > 0 {
      ReadingsKeepOrder(r, readings[..|readings| - 1], mice);
      ReadingKeepsOrder(HandleReadings(r, readings[..|readings| - 1]), readings[|readings| - 1], mice);
    }
  }

  lemma {:induction false} RoundsKeepOrderFrom(r: Reader, rounds: seq<Round>, mice: map<nat, Device>)
    requires InOrder(r, mice)
    ensures InOrder(HandleRounds(r, rounds), mice)
    decreases |rounds|
  {
    if |rounds| > 0 && !Leaves(r, rounds[0]) {
      ReadingsKeepOrder(r, rounds[0].readings, mice);
      RoundsKeepOrderFrom(HandleReadings(r, rounds[0].readings), rounds[1..], mice);
    }
  }

  /** Over every run the key sets stay equal and no device is closed twice or forgotten. */
  lemma RoundsKeepOrder(start: Reader, rounds: seq<Round>)
    requires start == Started(start.devices, start.merger)
    ensures InOrder(HandleRounds(start, rounds), start.devices)
  {
    RoundsKeepOrderFrom(start, rounds, start.devices);
  }

  // ---------------------------------------------------------------- motion

  function TotalOf(events: seq<Event>, axis: Axis): int {
    if |events| == 0 then 0 else TotalOf(events[..|events| - 1], axis) + events[|events| - 1].Motion(axis)
  }

  /** Motion adds up, and a batch without relevant events leaves everything alone. */
  lemma {:induction false} FoldMotion(b: Batch, events: seq<Event>, axis: Axis)
    ensures Fold(b, events).Motion(axis) == b.Motion(axis) + TotalOf(events, axis)
    ensures !Fold(b, events).changed ==> Fold(b, events) == b && TotalOf(events, axis) == 0
  {
    if |events| > 0 {
      FoldMotion(b, events[..|events| - 1], axis);
    }
  }

  lemma BatchMotion(before: Effect, events: seq<Event>, axis: Axis)
    ensures HandleBatch(before, events).merger.Motion(axis) == before.merger.Motion(axis) + TotalOf(events, axis)
  {
    FoldMotion(Batch(0, 0, before.btn, false), events, axis);
  }

  /** The motion of a reading that is actually read. */
  function MotionRead(r: Reader, reading: Reading, axis: Axis): int {
    if r.Reads(reading) && reading.outcome.Events? then TotalOf(reading.outcome.events, axis) else 0
  }

  function MotionOfReadings(r: Reader, readings: seq<Reading>, axis: Axis): int {
    if |readings| == 0 then 0
    else
      var before := readings[..|readings| - 1];
      MotionOfReadings(r, before, axis) + MotionRead(HandleReadings(r, before), readings[|readings| - 1], axis)
  }

  function MotionOfRounds(r: Reader, rounds: seq<Round>, axis: Axis): int
    decreases |rounds|
  {
    if |rounds| == 0 || Leaves(r, rounds[0]) then 0
    else
      MotionOfReadings(r, rounds[0].readings, axis)
      + MotionOfRounds(HandleReadings(r, rounds[0].readings), rounds[1..], axis)
  }

  lemma {:induction false} ReadingsMotion(r: Reader, readings: seq<Reading>, axis: Axis)
    ensures HandleReadings(r, readings).merger.Motion(axis)
         == r.merger.Motion(axis) + MotionOfReadings(r, readings, axis)
  {
    if |readings| > 0 {
      var s := HandleReadings(r, readings[..|readings| - 1]);
      var last := readings[|readings| - 1];
      ReadingsMotion(r, readings[..|readings| - 1], axis);
      if s.Reads(last) && last.outcome.Events? {
        BatchMotion(Effect(s.merger, s.buttons[last.fd]), last.outcome.events, axis);
      }
    }
  }

  /**
    Over every run, whatever devices report in whatever order and whichever are lost, the merger gains
    exactly the sum of all motion values successfully read.
   */
  lemma {:induction false} AllMotionReadIsMerged(r: Reader, rounds: seq<Round>, axis: Axis)
    ensures HandleRounds(r, rounds).merger.Motion(axis) == r.merger.Motion(axis) + MotionOfRounds(r, rounds, axis)
    decreases |rounds|
  {
    if |rounds| > 0 && !Leaves(r, rounds[0]) {
      ReadingsMotion(r, rounds[0].readings, axis);
      AllMotionReadIsMerged(HandleReadings(r, rounds[0].readings), rounds[1..], axis);
    }
  }

  // ---------------------------------------------------------------- batch boundaries

  lemma {:induction false} FoldConcat(b: Batch, x: seq<Event>, y: seq<Event>)
    ensures Fold(b, x + y) == Fold(Fold(b, x), y)
  {
    if |y| == 0 {
      assert x + y == x;
    } else {
      FoldConcat(b, x, y[..|y| - 1]);
      assert (x + y)[..|x + y| - 1] == x + y[..|y| - 1];
    }
  }

  lemma {:induction false} FoldShift(b: Batch, events: seq<Event>)
    ensures var f := Fold(Batch(0, 0, b.btn, false), events);
            Fold(b, events) == Batch(b.dx + f.dx, b.dy + f.dy, f.btn, b.changed || f.changed)
  {
    if |events| > 0 {
      FoldShift(b, events[..|events| - 1]);
    }
  }

  /** Reading `x` and then `y` is the same as reading them in one batch. */
  lemma TwoBatchesAreOne(before: Effect, x: seq<Event>, y: seq<Event>)
    ensures HandleBatch(HandleBatch(before, x), y) == HandleBatch(before, x + y)
  {
    var b := Fold(Batch(0, 0, before.btn, false), x);
    FoldConcat(Batch(0, 0, before.btn, false), x, y);
    FoldShift(b, y);
    FoldMotion(Batch(0, 0, before.btn, false), x, X);
    FoldMotion(Batch(0, 0, b.btn, false), y, X);
  }

  function HandleBatches(before: Effect, batches: seq<seq<Event>>): Effect {
    if |batches| == 0 then before
    else HandleBatch(HandleBatches(before, batches[..|batches| - 1]), batches[|batches| - 1])
  }

  function Flatten(batches: seq<seq<Event>>): seq<Event> {
    if |batches| == 0 then [] else Flatten(batches[..|batches| - 1]) + batches[|batches| - 1]
  }

  lemma {:induction false} BatchesAreTheirConcatenation(before: Effect, batches: seq<seq<Event>>)
    ensures HandleBatches(before, batches) == HandleBatch(before, Flatten(batches))
  {
    if |batches| > 0 {
      var init := batches[..|batches| - 1];
      BatchesAreTheirConcatenation(before, init);
      TwoBatchesAreOne(before, Flatten(init), batches[|batches| - 1]);
    }
  }

  /** However a device's event stream is split into reads, the merger and the device's buttons end the same. */
  lemma BatchIndependence(before: Effect, batches: seq<seq<Event>>, others: seq<seq<Event>>)
    requires Flatten(batches) == Flatten(others)
    ensures HandleBatches(before, batches) == HandleBatches(before, others)
  {
    BatchesAreTheirConcatenation(before, batches);
    BatchesAreTheirConcatenation(before, others);
  }

  /** Every reading is of this device and succeeds. */
  predicate OnlyFrom(readings: seq<Reading>, fd: nat) {
    forall i | 0 <= i < |readings| :: readings[i].fd == fd && readings[i].outcome.Events?
  }

  function StreamOf(readings: seq<Reading>): seq<Event> {
    if |readings| == 0 then []
    else
      var last := readings[|readings| - 1].outcome;
      StreamOf(readings[..|readings| - 1]) + if last.Events? then last.events else []
  }

  predicate RoundsOnlyFrom(rounds: seq<Round>, fd: nat) {
    forall i | 0 <= i < |rounds| :: rounds[i].Ready? && OnlyFrom(rounds[i].readings, fd)
  }

  function StreamOfRounds(rounds: seq<Round>): seq<Event> {
    if |rounds| == 0 then []
    else (if rounds[0].Ready? then StreamOf(rounds[0].readings) else []) + StreamOfRounds(rounds[1..])
  }

  function WithEffect(r: Reader, fd: nat, e: Effect): Reader {
    r.(merger := e.merger, buttons := r.buttons[fd := e.btn])
  }

  function EffectOn(r: Reader, fd: nat, events: seq<Event>): Effect
    requires fd in r.buttons
  {
    HandleBatch(Effect(r.merger, r.buttons[fd]), events)
  }

  lemma {:induction false} ReadingsOfOneDevice(r: Reader, readings: seq<Reading>, fd: nat)
    requires !r.raised && fd in r.devices && fd in r.buttons && OnlyFrom(readings, fd)
    ensures HandleReadings(r, readings) == WithEffect(r, fd, EffectOn(r, fd, StreamOf(readings)))
  {
    if |readings| == 0 {
      assert r.buttons[fd := r.buttons[fd]] == r.buttons;
    } else {
      var before := readings[..|readings| - 1];
      var s := HandleReadings(r, before);
      ReadingsOfOneDevice(r, before, fd);
      TwoBatchesAreOne(Effect(r.merger, r.buttons[fd]), StreamOf(before), readings[|readings| - 1].outcome.events);
      assert s.Reads(readings[|readings| - 1]);
    }
  }

  /**
    While only one device reports, the reader ends as if all its events had come in a single batch, however
    they are spread over reads and over rounds of the loop.
   */
  lemma {:induction false} OneDeviceStream(r: Reader, rounds: seq<Round>, fd: nat)
    requires !r.raised && fd in r.devices && fd in r.buttons && RoundsOnlyFrom(rounds, fd)
    ensures HandleRounds(r, rounds) == WithEffect(r, fd, EffectOn(r, fd, StreamOfRounds(rounds)))
    decreases |rounds|
  {
    assert r.buttons[fd := r.buttons[fd]] == r.buttons;
    if |rounds| > 0 {
      var readings := rounds[0].readings;
      var s := HandleReadings(r, readings);
      assert OnlyFrom(readings, fd);
      ReadingsOfOneDevice(r, readings, fd);
      OneDeviceStream(s, rounds[1..], fd);
      TwoBatchesAreOne(Effect(r.merger, r.buttons[fd]), StreamOf(readings), StreamOfRounds(rounds[1..]));
    }
  }

  /** The state of a button after the events: the last key event about it, or what it was. */
  predicate DownAfter(events: seq<Event>, button: Button, initially: bool) {
    if |events| == 0 then initially
    else
      var e := events[|events| - 1];
      if e.Key? && e.button == button then e.value != 0
      else DownAfter(events[..|events| - 1], button, initially)
  }

  lemma {:induction false} FoldButtons(b: Batch, events: seq<Event>, button: Button)
    ensures IsDown(Fold(b, events).btn, button) <==> DownAfter(events, button, IsDown(b.btn, button))
  {
    if |events| > 0 {
      FoldButtons(b, events[..|events| - 1], button);
      var e := events[|events| - 1];
      if e.Key? {
        PressChangesOneButton(Fold(b, events[..|events| - 1]).btn, e.button, e.value != 0, button);
      }
    }
  }

  /** A device's button is down exactly when its last key event was a press, and the merger is told so. */
  lemma BatchButtons(before: Effect, events: seq<Event>, button: Button)
    ensures var after := HandleBatch(before, events);
            && (IsDown(after.btn, button) <==> DownAfter(events, button, IsDown(before.btn, button)))
            && (after.merger != before.merger ==> (IsDown(after.merger.local, button) <==> IsDown(after.btn, button)))
  {
    var b := Fold(Batch(0, 0, before.btn, false), events);
    FoldButtons(Batch(0, 0, before.btn, false), events, button);
    FoldMotion(Batch(0, 0, before.btn, false), events, X);
    LowBits(b.btn, button);
  }

  lemma LowBits(m: bv8, button: Button)
    ensures IsDown(m & 0x07, button) <==> IsDown(m, button)
  {
    match button
    case Left =>
    case Right =>
    case Middle =>
  }
}
