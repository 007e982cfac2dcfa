/**
  The input merger: two motion accumulators and one button byte per source. Each call is atomic here;
  module `MergerLock` shows that the lock makes it so.
 */
module Merger {
  import opened AxisQueue

  datatype Axis = X | Y

  datatype Source = Network | Local

  /** Callers name their source; any name other than 'network' means local. */
  function SourceOf(name: string): Source { if name == "network" then Network else Local }

  /** The four fields of the merger. */
  datatype Fields = Fields(dx: int, dy: int, network: bv8, local: bv8) {
    function Motion(axis: Axis): int { if axis.X? then dx else dy }
  }

  /** What one flush returns. */
  datatype Report = Report(dx: int, dy: int, buttons: bv8) {
    function Motion(axis: Axis): int { if axis.X? then dx else dy }
  }

  datatype Call =
    | Accumulate(dx: int, dy: int, buttons: bv8, source: Source)
    | Flush
  {
    function Motion(axis: Axis): int {
      if Flush? then 0 else if axis.X? then dx else dy
    }

    predicate From(s: Source) { Accumulate? && source == s }
  }

  const EMPTY := Fields(0, 0, 0, 0)

  function AfterAccumulate(m: Fields, dx: int, dy: int, buttons: bv8, source: Source): Fields {
    if source.Network? then Fields(m.dx + dx, m.dy + dy, buttons, m.local)
    else Fields(m.dx + dx, m.dy + dy, m.network, buttons)
  }

  function AfterFlush(m: Fields): Fields { m.(dx := Residue(m.dx), dy := Residue(m.dy)) }

  function FlushReport(m: Fields): Report {
    Report(Clamp(m.dx), Clamp(m.dy), m.network | m.local)
  }

  class InputMerger {
    var dx: int
    var dy: int
    var buttonsNetwork: bv8  // last known button state from network
    var buttonsLocal: bv8    // last known button state from the local mice

    function Contents(): Fields
      reads this
    {
      Fields(dx, dy, buttonsNetwork, buttonsLocal)
    }

    constructor ()
      ensures Contents() == EMPTY
    {
      dx, dy, buttonsNetwork, buttonsLocal := 0, 0, 0, 0;
    }

    method Accumulate(dx: int, dy: int, buttons: bv8, source: string)
      modifies this
      ensures Contents() == AfterAccumulate(old(Contents()), dx, dy, buttons, SourceOf(source))
      ensures this.dx == old(this.dx) + dx && this.dy == old(this.dy) + dy
      ensures buttonsNetwork == if source == "network" then buttons else old(buttonsNetwork)
      ensures buttonsLocal == if source == "network" then old(buttonsLocal) else buttons
    {
      this.dx := this.dx + dx;
      this.dy := this.dy + dy;
      if source == "network" {
        buttonsNetwork := buttons;
      } else {
        buttonsLocal := buttons;
      }
    }

    method Flush() returns (report: Report)
      modifies this
      ensures report == FlushReport(old(Contents()))
      ensures Contents() == AfterFlush(old(Contents()))
    {
      var clampedDx, clampedDy;
      if dx > LIMIT {
        clampedDx := LIMIT;
        dx := dx - LIMIT;
      } else if dx < -LIMIT {
        clampedDx := -LIMIT;
        dx := dx - -LIMIT;
      } else {
        clampedDx := dx;
        dx := 0;
      }
      if dy > LIMIT {
        clampedDy := LIMIT;
        dy := dy - LIMIT;
      } else if dy < -LIMIT {
        clampedDy := -LIMIT;
        dy := dy - -LIMIT;
      } else {
        clampedDy := dy;
        dy := 0;
      }
      var buttons := buttonsNetwork | buttonsLocal;
      report := Report(clampedDx, clampedDy, buttons);
    }
  }

  // ---------------------------------------------------------------- whole runs

  function Apply(m: Fields, c: Call): Fields {
    match c
    case Accumulate(dx, dy, buttons, source) => AfterAccumulate(m, dx, dy, buttons, source)
    case Flush => AfterFlush(m)
  }

  function ApplyAll(m: Fields, calls: seq<Call>): Fields {
    if |calls| == 0 then m else Apply(ApplyAll(m, calls[..|calls| - 1]), calls[|calls| - 1])
  }

  /** The reports the flushes among `calls` return, in order. */
  function Reports(m: Fields, calls: seq<Call>): seq<Report> {
    if |calls| == 0 then []
    else
      var before := calls[..|calls| - 1];
      if calls[|calls| - 1].Flush? then Reports(m, before) + [FlushReport(ApplyAll(m, before))]
      else Reports(m, before)
  }

  function Total(calls: seq<Call>, axis: Axis): int {
    if |calls| == 0 then 0
    else Total(calls[..|calls| - 1], axis) + calls[|calls| - 1].Motion(axis)
  }

  function TotalReported(reports: seq<Report>, axis: Axis): int {
    if |reports| == 0 then 0
    else TotalReported(reports[..|reports| - 1], axis) + reports[|reports| - 1].Motion(axis)
  }

  lemma {:induction false} TotalConcat(a: seq<Call>, b: seq<Call>, axis: Axis)
    ensures Total(a + b, axis) == Total(a, axis) + Total(b, axis)
  {
    if |b| == 0 {
      assert a + b == a;
    } else {
      TotalConcat(a, b[..|b| - 1], axis);
      assert (a + b)[..|a + b| - 1] == a + b[..|b| - 1];
    }
  }

  lemma TotalReportedAppend(reports: seq<Report>, r: Report, axis: Axis)
    ensures TotalReported(reports + [r], axis) == TotalReported(reports, axis) + r.Motion(axis)
  {
    assert (reports + [r])[..|reports|] == reports;
  }

  lemma {:induction false} ApplyAllConcat(m: Fields, a: seq<Call>, b: seq<Call>)
    ensures ApplyAll(m, a + b) == ApplyAll(ApplyAll(m, a), b)
  {
    if |b| == 0 {
      assert a + b == a;
    } else {
      ApplyAllConcat(m, a, b[..|b| - 1]);
      assert (a + b)[..|a + b| - 1] == a + b[..|b| - 1];
    }
  }

  /** Over any run, per axis: what was there plus what was added equals what was reported plus what is left. */
  lemma {:induction false} MotionIsConserved(m: Fields, calls: seq<Call>, axis: Axis)
    ensures m.Motion(axis) + Total(calls, axis)
         == TotalReported(Reports(m, calls), axis) + ApplyAll(m, calls).Motion(axis)
  {
    if |calls| > 0 {
      var before := calls[..|calls| - 1];
      MotionIsConserved(m, before, axis);
      if calls[|calls| - 1].Flush? {
        TotalReportedAppend(Reports(m, before), FlushReport(ApplyAll(m, before)), axis);
      }
    }
  }

  // ---------------------------------------------------------------- refinement of the queue

  /** The motion added before each flush, one entry per flush. */
  function Arrivals(calls: seq<Call>, axis: Axis): seq<int> {
    if |calls| == 0 then []
    else
      var before := calls[..|calls| - 1];
      if calls[|calls| - 1].Flush? then Arrivals(before, axis) + [Pending(before, axis)]
      else Arrivals(before, axis)
  }

  /** The motion added since the last flush. */
  function Pending(calls: seq<Call>, axis: Axis): int {
    if |calls| == 0 || calls[|calls| - 1].Flush? then 0
    else Pending(calls[..|calls| - 1], axis) + calls[|calls| - 1].Motion(axis)
  }

  function Along(reports: seq<Report>, axis: Axis): (motions: seq<int>)
    ensures |motions| == |reports|
  {
    seq(|reports|, i requires 0 <= i < |reports| => reports[i].Motion(axis))
  }

  /**
    Each axis of the merger is the queue of `AxisQueue`, whatever the calls and however they are
    grouped between flushes: same residual, same outputs.
   */
  lemma {:induction false} RefinesAxisQueue(m: Fields, calls: seq<Call>, axis: Axis)
    ensures ApplyAll(m, calls).Motion(axis)
         == Backlog(m.Motion(axis), Arrivals(calls, axis)) + Pending(calls, axis)
    ensures Along(Reports(m, calls), axis) == Outputs(m.Motion(axis), Arrivals(calls, axis))
  {
    if |calls| > 0 {
      var before := calls[..|calls| - 1];
      RefinesAxisQueue(m, before, axis);
      if calls[|calls| - 1].Flush? {
        OneMoreFlush(m.Motion(axis), Arrivals(before, axis), Pending(before, axis));
        AlongAppend(Reports(m, before), FlushReport(ApplyAll(m, before)), axis);
      }
    }
  }

  lemma AlongAppend(reports: seq<Report>, r: Report, axis: Axis)
    ensures Along(reports + [r], axis) == Along(reports, axis) + [r.Motion(axis)]
  {
  }

  /**
    If every window of flushes receives at most its capacity plus `bound` units (in magnitude), the
    merger never holds more than `bound` plus what arrived since the last flush.
   */
  lemma MergerBacklogBound(calls: seq<Call>, axis: Axis, bound: nat)
    requires WindowsWithin(Magnitudes(Arrivals(calls, axis)), bound)
    ensures Abs(ApplyAll(EMPTY, calls).Motion(axis) - Pending(calls, axis)) <= bound
  {
    BoundedInputBoundedResidual(Arrivals(calls, axis), bound);
    RefinesAxisQueue(EMPTY, calls, axis);
  }

  // ---------------------------------------------------------------- interleavings

  ghost predicate OnlyAccumulates(calls: seq<Call>) {
    forall i | 0 <= i < |calls| :: calls[i].Accumulate?
  }

  /** The calls of one source, in the order that source made them. */
  function OfSource(calls: seq<Call>, source: Source): seq<Call> {
    if |calls| == 0 then []
    else
      var rest := OfSource(calls[..|calls| - 1], source);
      var last := calls[|calls| - 1];
      if last.From(source) then rest + [last] else rest
  }

  /** The buttons of the last call, or `before` when there is none. */
  function LastButtons(calls: seq<Call>, before: bv8): bv8 {
    if |calls| == 0 then before
    else match calls[|calls| - 1]
      case Accumulate(_, _, buttons, _) => buttons
      case Flush => LastButtons(calls[..|calls| - 1], before)
  }

  /** The state after each source has made its own calls, whatever their interleaving. */
  function PerSource(m: Fields, network: seq<Call>, local: seq<Call>): Fields {
    Fields(m.dx + Total(network, X) + Total(local, X), m.dy + Total(network, Y) + Total(local, Y),
           LastButtons(network, m.network), LastButtons(local, m.local))
  }

  lemma PerSourceAppend(m: Fields, network: seq<Call>, local: seq<Call>, c: Call)
    ensures c.From(Network) ==> PerSource(m, network + [c], local) == Apply(PerSource(m, network, local), c)
    ensures c.From(Local) ==> PerSource(m, network, local + [c]) == Apply(PerSource(m, network, local), c)
  {
    assert (network + [c])[..|network|] == network;
    assert (local + [c])[..|local|] == local;
  }

  /** The state after any accumulations depends on each source's own sequence only. */
  lemma {:induction false} AccumulationsClosedForm(m: Fields, calls: seq<Call>)
    requires OnlyAccumulates(calls)
    ensures ApplyAll(m, calls) == PerSource(m, OfSource(calls, Network), OfSource(calls, Local))
  {
    if |calls| > 0 {
      var before := calls[..|calls| - 1];
      AccumulationsClosedForm(m, before);
      PerSourceAppend(m, OfSource(before, Network), OfSource(before, Local), calls[|calls| - 1]);
    }
  }

  /**
    Any two interleavings that keep each source's order leave the merger in the same state, and
    whatever is called afterwards returns the same reports.
   */
  lemma InterleavingIndependence(m: Fields, p: seq<Call>, q: seq<Call>, rest: seq<Call>)
    requires OnlyAccumulates(p) && OnlyAccumulates(q)
    requires OfSource(p, Network) == OfSource(q, Network) && OfSource(p, Local) == OfSource(q, Local)
    ensures ApplyAll(m, p) == ApplyAll(m, q)
    ensures ApplyAll(m, p + rest) == ApplyAll(m, q + rest)
    ensures Reports(m, p + rest) == Reports(m, q + rest)
  {
    AccumulationsClosedForm(m, p);
    AccumulationsClosedForm(m, q);
    ApplyAllConcat(m, p, rest);
    ApplyAllConcat(m, q, rest);
    ReportsAfterAccumulations(m, p, rest);
    ReportsAfterAccumulations(m, q, rest);
  }

  lemma {:induction false} NoFlushNoReports(m: Fields, calls: seq<Call>)
    requires OnlyAccumulates(calls)
    ensures Reports(m, calls) == []
  {
    if |calls| > 0 {
      NoFlushNoReports(m, calls[..|calls| - 1]);
    }
  }

  lemma {:induction false} ReportsAfterAccumulations(m: Fields, p: seq<Call>, rest: seq<Call>)
    requires OnlyAccumulates(p)
    ensures Reports(m, p + rest) == Reports(ApplyAll(m, p), rest)
  {
    if |rest| > 0 {
      var before := rest[..|rest| - 1];
      ReportsAfterAccumulations(m, p, before);
      ApplyAllConcat(m, p, before);
      assert (p + rest)[..|p + rest| - 1] == p + before;
    } else {
      assert p + rest == p;
      NoFlushNoReports(m, p);
    }
  }

  lemma TotalWithout(calls: seq<Call>, i: nat, axis: Axis)
    requires i < |calls|
    ensures Total(calls, axis) == Total(calls[..i] + calls[i + 1..], axis) + calls[i].Motion(axis)
  {
    var one := [calls[i]];
    assert calls == calls[..i] + (one + calls[i + 1..]);
    TotalConcat(calls[..i], one + calls[i + 1..], axis);
    TotalConcat(one, calls[i + 1..], axis);
    TotalConcat(calls[..i], calls[i + 1..], axis);
    assert one[..0] == [];
  }

  lemma WithoutOne<T>(s: seq<T>, i: nat)
    requires i < |s|
    ensures multiset(s[..i] + s[i + 1..]) == multiset(s) - multiset{s[i]}
  {
    assert s == s[..i] + ([s[i]] + s[i + 1..]);
  }

  lemma WithoutLast<T>(s: seq<T>)
    requires |s| > 0
    ensures multiset(s[..|s| - 1]) == multiset(s) - multiset{s[|s| - 1]}
  {
    assert s == s[..|s| - 1] + [s[|s| - 1]];
  }

  /** The last element of a sequence can be taken out of any permutation of it. */
  lemma PermutationStep<T>(p: seq<T>, q: seq<T>) returns (i: nat)
    requires multiset(p) == multiset(q) && |p| > 0
    ensures i < |q| && q[i] == p[|p| - 1]
    ensures multiset(p[..|p| - 1]) == multiset(q[..i] + q[i + 1..])
  {
    var last := p[|p| - 1];
    assert last in multiset(p);
    assert last in q;
    i :| 0 <= i < |q| && q[i] == last;
    WithoutOne(q, i);
    WithoutLast(p);
  }

  lemma {:induction false} TotalOfPermutation(p: seq<Call>, q: seq<Call>, axis: Axis)
    requires multiset(p) == multiset(q)
    ensures Total(p, axis) == Total(q, axis)
  {
    assert |p| == |multiset(p)| == |multiset(q)| == |q|;
    if |p| > 0 {
      var i := PermutationStep(p, q);
      TotalWithout(q, i, axis);
      TotalOfPermutation(p[..|p| - 1], q[..i] + q[i + 1..], axis);
    }
  }

  /**
    Datagrams delivered in another order, local calls coming in between as they may, change at most the
    network buttons, and change nothing exactly when the last datagram to arrive carries the same buttons.
   */
  lemma {:induction false} ReorderedDatagrams(m: Fields, p: seq<Call>, q: seq<Call>)
    requires OnlyAccumulates(p) && OnlyAccumulates(q)
    requires OfSource(p, Local) == OfSource(q, Local)
    requires multiset(OfSource(p, Network)) == multiset(OfSource(q, Network))
    ensures ApplyAll(m, q) == ApplyAll(m, p).(network := LastButtons(OfSource(q, Network), m.network))
    ensures ApplyAll(m, p) == ApplyAll(m, q)
       <==> LastButtons(OfSource(p, Network), m.network) == LastButtons(OfSource(q, Network), m.network)
  {
    AccumulationsClosedForm(m, p);
    AccumulationsClosedForm(m, q);
    TotalOfPermutation(OfSource(p, Network), OfSource(q, Network), X);
    TotalOfPermutation(OfSource(p, Network), OfSource(q, Network), Y);
  }
}
