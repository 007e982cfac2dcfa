/**
  The local reader's passes in terms of what the devices and `select` do: which readings are read, when the loop
  over the mice is left and they are searched for anew, and what then reaches the merger.
 */
module LocalPasses {
  import opened Merger
  import opened Buttons
  import opened LocalMouse
  import opened LocalRuns

  // ---------------------------------------------------------------- which readings are read

  /** Every mouse found has been reported lost. */
  predicate AllLost(mice: map<nat, Device>, readings: seq<Reading>) {
    forall fd | fd in mice :: Reading(fd, Lost) in readings
  }

  /** Some mouse not lost before raised something other than its loss. */
  predicate SomeRaised(mice: map<nat, Device>, readings: seq<Reading>) {
    |readings| > 0 &&
    var before, last := readings[..|readings| - 1], readings[|readings| - 1];
    SomeRaised(mice, before) || (last.outcome.Raised? && last.fd in mice && Reading(last.fd, Lost) !in before)
  }

  /** The reader after the readings: it monitors the mice not lost, and an exception stops it. */
  lemma {:induction false} StateAfter(mice: map<nat, Device>, m: Fields, readings: seq<Reading>)
    ensures var s := HandleReadings(Started(mice, m), readings);
            && (s.raised <==> SomeRaised(mice, readings))
            && s.devices.Keys == s.buttons.Keys
            && (!s.raised ==> forall fd :: fd in s.devices <==> fd in mice && Reading(fd, Lost) !in readings)
  {
    if |readings| > 0 {
      var before, last := readings[..|readings| - 1], readings[|readings| - 1];
      StateAfter(mice, m, before);
      assert readings == before + [last];
      forall fd ensures Reading(fd, Lost) in readings <==> Reading(fd, Lost) in before || last == Reading(fd, Lost) {
      }
    }
  }

  /** A reading is read exactly when its device is one of the mice, was not lost before, and nothing has raised. */
  lemma ReadExactlyWhen(mice: map<nat, Device>, m: Fields, readings: seq<Reading>, reading: Reading)
    ensures HandleReadings(Started(mice, m), readings).Reads(reading)
       <==> reading.fd in mice && Reading(reading.fd, Lost) !in readings && !SomeRaised(mice, readings)
  {
    StateAfter(mice, m, readings);
    var s := HandleReadings(Started(mice, m), readings);
    assert reading.fd in s.devices <==> reading.fd in s.devices.Keys;
    assert reading.fd in s.buttons <==> reading.fd in s.buttons.Keys;
  }

  /** The motion of every reading that counts. */
  function MotionAmong(mice: map<nat, Device>, readings: seq<Reading>, axis: Axis): int {
    if |readings| == 0 then 0
    else
      var before, last := readings[..|readings| - 1], readings[|readings| - 1];
      MotionAmong(mice, before, axis)
      + if last.outcome.Events? && last.fd in mice && Reading(last.fd, Lost) !in before && !SomeRaised(mice, before)
        then TotalOf(last.outcome.events, axis) else 0
  }

  lemma {:induction false} MotionIsThatRead(mice: map<nat, Device>, m: Fields, readings: seq<Reading>, axis: Axis)
    ensures MotionOfReadings(Started(mice, m), readings, axis) == MotionAmong(mice, readings, axis)
  {
    if |readings| > 0 {
      MotionIsThatRead(mice, m, readings[..|readings| - 1], axis);
      ReadExactlyWhen(mice, m, readings[..|readings| - 1], readings[|readings| - 1]);
    }
  }

  /** The events of one mouse, until it is lost or something raises. */
  function StreamAmong(mice: map<nat, Device>, readings: seq<Reading>, fd: nat): seq<Event> {
    if |readings| == 0 then []
    else
      var before, last := readings[..|readings| - 1], readings[|readings| - 1];
      StreamAmong(mice, before, fd)
      + if last.fd == fd && last.outcome.Events? && fd in mice && Reading(fd, Lost) !in before
           && !SomeRaised(mice, before)
        then last.outcome.events else []
  }

  lemma {:induction false} StreamIsThatRead(mice: map<nat, Device>, m: Fields, readings: seq<Reading>, fd: nat)
    ensures OwnStream(Started(mice, m), readings, fd) == StreamAmong(mice, readings, fd)
  {
    if |readings| > 0 {
      StreamIsThatRead(mice, m, readings[..|readings| - 1], fd);
      ReadExactlyWhen(mice, m, readings[..|readings| - 1], readings[|readings| - 1]);
    }
  }

  /** A mouse starts with no button down: it holds what its own last key events say. */
  lemma HoldsExactlyWhen(mice: map<nat, Device>, m: Fields, readings: seq<Reading>, fd: nat, b: Button)
    requires fd in mice
    ensures HoldsByOwnStream(Started(mice, m), readings, fd, b)
       <==> DownAfter(StreamAmong(mice, readings, fd), b, false)
  {
    StreamIsThatRead(mice, m, readings, fd);
    assert !IsDown(0, b);
  }

  // ---------------------------------------------------------------- when a pass ends

  function ReadingsOf(rounds: seq<Round>): seq<Reading> {
    if |rounds| == 0 then []
    else
      ReadingsOf(rounds[..|rounds| - 1])
      + if rounds[|rounds| - 1].Ready? then rounds[|rounds| - 1].readings else []
  }

  /**
    Round `k` is where the loop can go no further: `select` fails or the thread is told to stop, or before it
    every mouse was lost, or a read raised.
   */
  predicate EndsAt(mice: map<nat, Device>, rounds: seq<Round>, k: nat)
    requires k < |rounds|
  {
    || rounds[k].SelectFailed? || rounds[k].StopRequested?
    || AllLost(mice, ReadingsOf(rounds[..k]))
    || SomeRaised(mice, ReadingsOf(rounds[..k]))
  }

  /** Once `read` has been read, the reader is `s` and the rounds to come are `rest`. */
  ghost predicate Continues(start: Reader, rounds: seq<Round>, read: seq<Reading>, s: Reader, rest: seq<Round>) {
    && HandleRounds(start, rounds) == HandleRounds(s, rest)
    && Exits(start, rounds) == Exits(s, rest)
    && Handled(start, rounds) == read + Handled(s, rest)
  }

  lemma {:induction false} LeavesExactlyWhen(mice: map<nat, Device>, m: Fields, rounds: seq<Round>, k: nat)
    requires k < |rounds|
    ensures Leaves(HandleReadings(Started(mice, m), ReadingsOf(rounds[..k])), rounds[k]) <==> EndsAt(mice, rounds, k)
  {
    var readings := ReadingsOf(rounds[..k]);
    var s := HandleReadings(Started(mice, m), readings);
    StateAfter(mice, m, readings);
    if !s.raised {
      if |s.devices| == 0 {
        forall fd | fd in mice ensures Reading(fd, Lost) in readings {
          assert fd !in s.devices;
        }
      }
    }
  }

  lemma ReadingsOfNext(rounds: seq<Round>, k: nat)
    requires k < |rounds| && rounds[k].Ready?
    ensures ReadingsOf(rounds[..k + 1]) == ReadingsOf(rounds[..k]) + rounds[k].readings
  {
    assert rounds[..k + 1][..k] == rounds[..k];
  }

  /** One round of the loop, if it is not left before. */
  lemma OneRound(s: Reader, rounds: seq<Round>)
    requires |rounds| > 0 && !Leaves(s, rounds[0])
    ensures var t := HandleReadings(s, rounds[0].readings);
            && HandleRounds(s, rounds) == HandleRounds(t, rounds[1..])
            && Exits(s, rounds) == Exits(t, rounds[1..])
            && Handled(s, rounds) == rounds[0].readings + Handled(t, rounds[1..])
  {
  }

  lemma {:induction false} OneRoundMore(
    start: Reader, rounds: seq<Round>, read: seq<Reading>, s: Reader, rest: seq<Round>)
    requires Continues(start, rounds, read, s, rest) && |rest| > 0 && !Leaves(s, rest[0])
    ensures Continues(start, rounds, read + rest[0].readings, HandleReadings(s, rest[0].readings), rest[1..])
  {
    var t := HandleReadings(s, rest[0].readings);
    OneRound(s, rest);
    assert read + (rest[0].readings + Handled(t, rest[1..])) == read + rest[0].readings + Handled(t, rest[1..]);
  }

  lemma {:induction false} GoesOn(mice: map<nat, Device>, m: Fields, rounds: seq<Round>, k: nat)
    requires k <= |rounds| && forall j | 0 <= j < k :: !EndsAt(mice, rounds, j)
    ensures var read := ReadingsOf(rounds[..k]);
            Continues(Started(mice, m), rounds, read, HandleReadings(Started(mice, m), read), rounds[k..])
    decreases k
  {
    var start := Started(mice, m);
    if k == 0 {
      assert rounds[..0] == [] && rounds[0..] == rounds;
    } else {
      var read, rest := ReadingsOf(rounds[..k - 1]), rounds[k - 1..];
      GoesOn(mice, m, rounds, k - 1);
      LeavesExactlyWhen(mice, m, rounds, k - 1);
      assert !EndsAt(mice, rounds, k - 1);
      assert rest[0] == rounds[k - 1] && rest[1..] == rounds[k..];
      OneRoundMore(start, rounds, read, HandleReadings(start, read), rest);
      ReadingsOfNext(rounds, k - 1);
      HandleReadingsConcat(start, read, rounds[k - 1].readings);
    }
  }

  /** Whether the pass ends within its rounds. */
  ghost predicate Ends(mice: map<nat, Device>, rounds: seq<Round>) {
    exists k | 0 <= k < |rounds| :: EndsAt(mice, rounds, k)
  }

  lemma FirstEnd(mice: map<nat, Device>, rounds: seq<Round>) returns (k: nat)
    ensures k <= |rounds| && forall j | 0 <= j < k :: !EndsAt(mice, rounds, j)
    ensures if Ends(mice, rounds) then k < |rounds| && EndsAt(mice, rounds, k) else k == |rounds|
  {
    k := 0;
    while k < |rounds| && !EndsAt(mice, rounds, k)
      invariant k <= |rounds| && forall j | 0 <= j < k :: !EndsAt(mice, rounds, j)
    {
      k := k + 1;
    }
  }

  /** The loop is left within the rounds exactly when one of them is an end. */
  lemma ExitsExactlyWhen(mice: map<nat, Device>, m: Fields, rounds: seq<Round>)
    ensures Exits(Started(mice, m), rounds) <==> Ends(mice, rounds)
  {
    var k := FirstEnd(mice, rounds);
    GoesOn(mice, m, rounds, k);
    if k < |rounds| {
      LeavesExactlyWhen(mice, m, rounds, k);
      assert rounds[k..][0] == rounds[k];
    }
  }

  /** The readings up to the first end, or all of them. */
  ghost function Taken(mice: map<nat, Device>, rounds: seq<Round>): seq<Reading> {
    if |rounds| == 0 then []
    else if Ends(mice, rounds) then Taken(mice, rounds[..|rounds| - 1])
    else ReadingsOf(rounds)
  }

  lemma {:induction false} TakenUpTo(mice: map<nat, Device>, rounds: seq<Round>, k: nat)
    requires k < |rounds| && EndsAt(mice, rounds, k) && forall j | 0 <= j < k :: !EndsAt(mice, rounds, j)
    ensures Taken(mice, rounds) == ReadingsOf(rounds[..k])
  {
    var before := rounds[..|rounds| - 1];
    forall j | 0 <= j < |before| ensures EndsAt(mice, before, j) == EndsAt(mice, rounds, j) {
      assert before[..j] == rounds[..j];
    }
    if k < |before| {
      assert before[..k] == rounds[..k];
      TakenUpTo(mice, before, k);
    } else {
      assert !Ends(mice, before);
    }
  }

  /** The pass handles these readings and no others. */
  lemma HandledAreTaken(mice: map<nat, Device>, m: Fields, rounds: seq<Round>)
    ensures Handled(Started(mice, m), rounds) == Taken(mice, rounds)
  {
    var k := FirstEnd(mice, rounds);
    GoesOn(mice, m, rounds, k);
    if k < |rounds| {
      LeavesExactlyWhen(mice, m, rounds, k);
      assert rounds[k..][0] == rounds[k];
      TakenUpTo(mice, rounds, k);
    } else {
      assert rounds[..k] == rounds;
    }
  }

  // ---------------------------------------------------------------- one pass after another

  /** The motion of all passes, each up to its end; after one that does not end there is none. */
  ghost function MotionOfPasses(loops: seq<Loop>, axis: Axis): int {
    if |loops| == 0 then 0
    else
      MotionAmong(loops[0].mice, Taken(loops[0].mice, loops[0].rounds), axis)
      + if Ends(loops[0].mice, loops[0].rounds) then MotionOfPasses(loops[1..], axis) else 0
  }

  lemma PassMotion(loop: Loop, axis: Axis)
    ensures MotionOfRounds(Start(loop), loop.rounds, axis)
         == MotionAmong(loop.mice, Taken(loop.mice, loop.rounds), axis)
  {
    var r := Start(loop);
    HandledAreTaken(loop.mice, EMPTY, loop.rounds);
    AllMotionReadIsMerged(r, loop.rounds, axis);
    RoundsAreTheirReadings(r, loop.rounds);
    ReadingsMotion(r, Handled(r, loop.rounds), axis);
    MotionIsThatRead(loop.mice, EMPTY, Handled(r, loop.rounds), axis);
  }

  /** What the thread adds to the merger is the motion of the readings that count, pass after pass. */
  lemma {:induction false} ThreadMotionIsThatRead(loops: seq<Loop>, axis: Axis)
    ensures Total(CallsOfLoops(loops), axis) == MotionOfPasses(loops, axis)
    ensures MotionOfLoops(loops, axis) == MotionOfPasses(loops, axis)
    decreases |loops|
  {
    ThreadMotion(loops, axis);
    if |loops| > 0 {
      PassMotion(loops[0], axis);
      ExitsExactlyWhen(loops[0].mice, EMPTY, loops[0].rounds);
      ThreadMotionIsThatRead(loops[1..], axis);
    }
  }

  /**
    When every mouse of a pass has been lost and another round is due, or the pass ends otherwise, the mice are
    searched for anew: the later passes' calls follow, and with them their motion and their buttons.
   */
  lemma LaterPassesFollow(loop: Loop, rest: seq<Loop>, m: Fields, axis: Axis, b: Button, before: bool)
    requires Ends(loop.mice, loop.rounds)
    ensures CallsOfLoops([loop] + rest) == CallsOfLoop(loop) + CallsOfLoops(rest)
    ensures MotionOfLoops([loop] + rest, axis) == MotionOfLoops([loop], axis) + MotionOfLoops(rest, axis)
    ensures LoopsHold([loop] + rest, b, before) <==> LoopsHold(rest, b, LoopsHold([loop], b, before))
    ensures AfterLoops(m, [loop] + rest) == AfterLoops(AfterLoops(m, [loop]), rest)
  {
    ExitsExactlyWhen(loop.mice, EMPTY, loop.rounds);
    ExitsExactlyWhen(loop.mice, m, loop.rounds);
    assert ([loop] + rest)[1..] == rest && [loop][1..] == [];
  }

  /** A pass that does not end is the last. */
  lemma NothingFollows(loop: Loop, rest: seq<Loop>, m: Fields)
    requires !Ends(loop.mice, loop.rounds)
    ensures CallsOfLoops([loop] + rest) == CallsOfLoop(loop)
    ensures AfterLoops(m, [loop] + rest) == AfterLoops(m, [loop])
  {
    ExitsExactlyWhen(loop.mice, EMPTY, loop.rounds);
    ExitsExactlyWhen(loop.mice, m, loop.rounds);
    assert ([loop] + rest)[1..] == rest && [loop][1..] == [];
  }

  lemma UnpluggedEnds(device: Device, rounds: seq<Round>)
    requires rounds == [Ready([Reading(3, Lost)]), Ready([])]
    ensures Ends(map[3 := device], rounds)
  {
    assert rounds[..1] == [Ready([Reading(3, Lost)])];
    assert rounds[..1][..0] == [];
    assert ReadingsOf(rounds[..1]) == [Reading(3, Lost)];
    assert EndsAt(map[3 := device], rounds, 1);
  }

  /** A pass of one round with one reading. */
  lemma OneReadingPass(r: Reader, reading: Reading, rest: seq<Round>)
    requires |r.devices| > 0 && !r.raised && forall i | 0 <= i < |rest| :: rest[i] == Ready([])
    ensures HandleRounds(r, [Ready([reading])] + rest).merger == HandleReading(r, reading).merger
  {
    var rounds := [Ready([reading])] + rest;
    assert rounds[1..] == rest && [reading][..0] == [];
    assert HandleReadings(r, [reading]) == HandleReading(HandleReadings(r, []), reading);
    EmptyRounds(HandleReading(r, reading), rest);
  }

  lemma {:induction false} EmptyRounds(r: Reader, rounds: seq<Round>)
    requires forall i | 0 <= i < |rounds| :: rounds[i] == Ready([])
    ensures HandleRounds(r, rounds) == r
    decreases |rounds|
  {
    if |rounds| > 0 {
      EmptyRounds(r, rounds[1..]);
    }
  }

  lemma OneMotion(r: Reader, fd: nat, motion: int)
    requires fd in r.devices && fd in r.buttons && !r.raised
    ensures HandleReading(r, Reading(fd, Events([Rel(X, motion)]))).merger.dx == r.merger.dx + motion
  {
    var events := [Rel(X, motion)];
    assert events[..0] == [];
    assert TotalOf(events, X) == TotalOf(events[..0], X) + events[0].Motion(X);
    BatchMotion(Effect(r.merger, r.buttons[fd]), events, X);
  }

  lemma UnpluggedPass(device: Device, m: Fields, loop: Loop)
    requires loop == Loop(map[3 := device], [Ready([Reading(3, Lost)]), Ready([])])
    ensures Ends(loop.mice, loop.rounds) && AfterLoops(m, [loop]) == m
  {
    UnpluggedEnds(device, loop.rounds);
    OneReadingPass(Started(loop.mice, m), Reading(3, Lost), [Ready([])]);
    assert loop.rounds == [Ready([Reading(3, Lost)])] + [Ready([])];
    assert [loop][1..] == [];
  }

  lemma PluggedPass(device: Device, motion: int, m: Fields, loop: Loop)
    requires loop == Loop(map[4 := device], [Ready([Reading(4, Events([Rel(X, motion)]))])])
    ensures AfterLoops(m, [loop]).dx == m.dx + motion
  {
    OneReadingPass(Started(loop.mice, m), Reading(4, Events([Rel(X, motion)])), []);
    assert loop.rounds == [Ready([Reading(4, Events([Rel(X, motion)]))])] + [];
    OneMotion(Started(loop.mice, m), 4, motion);
    assert [loop][1..] == [];
  }

  /** An instance: the only mouse is unplugged and plugged in again, and what it then reports is merged. */
  lemma ReplugIsNoticed(device: Device, motion: int, m: Fields, unplugged: Loop, again: Loop)
    requires unplugged == Loop(map[3 := device], [Ready([Reading(3, Lost)]), Ready([])])
    requires again == Loop(map[4 := device], [Ready([Reading(4, Events([Rel(X, motion)]))])])
    ensures AfterLoops(m, [unplugged, again]).dx == m.dx + motion
  {
    UnpluggedPass(device, m, unplugged);
    PluggedPass(device, motion, m, again);
    LaterPassesFollow(unplugged, [again], m, X, Left, false);
    assert [unplugged] + [again] == [unplugged, again];
  }
}
