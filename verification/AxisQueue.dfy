/**
  One axis of the input merger seen as a queue. Motion arrives between flushes; each flush serves at
  most LIMIT units in either direction and leaves the rest. Everything here is about the two numbers
  a flush produces from the accumulated motion: what it sends (`Clamp`) and what it keeps (`Residue`).
 */
module AxisQueue {

  /** The largest magnitude a HID report field can carry. */
  const LIMIT: int := 127

  function Abs(x: int): nat { if x < 0 then -x else x }

  /** What a flush sends when `x` has accumulated. */
  function Clamp(x: int): (c: int)
    ensures -LIMIT <= c <= LIMIT
  {
    if x > LIMIT then LIMIT else if x < -LIMIT then -LIMIT else x
  }

  /** What a flush leaves behind: a soft threshold, which never overshoots or changes sign. */
  function Residue(x: int): (r: int)
    ensures Abs(r) == if Abs(x) <= LIMIT then 0 else Abs(x) - LIMIT
    ensures r > 0 ==> x > 0
    ensures r < 0 ==> x < 0
  {
    x - Clamp(x)
  }

  /** A report carries what there is up to 127 units in either direction, and 127 of anything more. */
  lemma ReportRange(x: int)
    ensures Clamp(x) == x <==> -127 <= x <= 127
    ensures x > 127 ==> Clamp(x) == 127 && Residue(x) == x - 127
    ensures x < -127 ==> Clamp(x) == -127 && Residue(x) == x + 127
  {
  }

  function Sum(s: seq<int>): int {
    if |s| == 0 then 0 else Sum(s[..|s| - 1]) + s[|s| - 1]
  }

  /** The residual after one flush per arrival, starting from a residual of `r`. */
  function Backlog(r: int, arrivals: seq<int>): int {
    if |arrivals| == 0 then r
    else Residue(Backlog(r, arrivals[..|arrivals| - 1]) + arrivals[|arrivals| - 1])
  }

  /** What those flushes send, in order. */
  function Outputs(r: int, arrivals: seq<int>): (out: seq<int>)
    ensures |out| == |arrivals|
  {
    if |arrivals| == 0 then []
    else
      Outputs(r, arrivals[..|arrivals| - 1])
      + [Clamp(Backlog(r, arrivals[..|arrivals| - 1]) + arrivals[|arrivals| - 1])]
  }

  lemma OneMoreFlush(r: int, arrivals: seq<int>, a: int)
    ensures Backlog(r, arrivals + [a]) == Residue(Backlog(r, arrivals) + a)
    ensures Outputs(r, arrivals + [a]) == Outputs(r, arrivals) + [Clamp(Backlog(r, arrivals) + a)]
  {
    assert (arrivals + [a])[..|arrivals|] == arrivals;
  }

  ghost predicate NonNegative(s: seq<int>) {
    forall i | 0 <= i < |s| :: 0 <= s[i]
  }

  // ---------------------------------------------------------------- conservation

  /** Nothing is lost: what arrived is what was sent plus what is left, and every output fits a report. */
  lemma {:induction false} Conservation(r: int, arrivals: seq<int>)
    ensures r + Sum(arrivals) == Sum(Outputs(r, arrivals)) + Backlog(r, arrivals)
    ensures forall i | 0 <= i < |arrivals| :: -LIMIT <= Outputs(r, arrivals)[i] <= LIMIT
  {
    if |arrivals| > 0 {
      var before := arrivals[..|arrivals| - 1];
      Conservation(r, before);
      var out := Outputs(r, arrivals);
      assert out[..|out| - 1] == Outputs(r, before);
    }
  }

  // ---------------------------------------------------------------- exact backlog

  /** By how much the arrivals from `j` on exceed what their flushes could serve. */
  function Excess(arrivals: seq<int>, j: nat): int
    requires j <= |arrivals|
  {
    Sum(arrivals[j..]) - LIMIT * (|arrivals| - j)
  }

  lemma ExcessGrows(arrivals: seq<int>, j: nat)
    requires j < |arrivals|
    ensures Excess(arrivals, j)
         == Excess(arrivals[..|arrivals| - 1], j) + arrivals[|arrivals| - 1] - LIMIT
  {
    var tail := arrivals[j..];
    assert tail[..|tail| - 1] == arrivals[..|arrivals| - 1][j..];
  }

  /** `b` is the maximum of the initial residual's excess and of every window that ends now. */
  ghost predicate IsLargestExcess(b: int, r: int, arrivals: seq<int>) {
    && r + Excess(arrivals, 0) <= b
    && (forall j | 0 <= j <= |arrivals| :: Excess(arrivals, j) <= b)
    && (b == r + Excess(arrivals, 0) || exists j | 0 <= j <= |arrivals| :: b == Excess(arrivals, j))
  }

  /**
    Lindley's characterisation: with non-negative arrivals the residual is exactly the largest excess
    over the windows that end now (the empty window included, so it is at least 0).
   */
  lemma {:induction false} ExactBacklog(r: nat, arrivals: seq<int>)
    requires NonNegative(arrivals)
    ensures IsLargestExcess(Backlog(r, arrivals), r, arrivals)
    ensures 0 <= Backlog(r, arrivals)
  {
    var n := |arrivals|;
    assert Excess(arrivals, n) == 0;
    if n > 0 {
      var before := arrivals[..n - 1];
      ExactBacklog(r, before);
      ExcessGrows(arrivals, 0);
      forall j | 0 <= j < n
        ensures Excess(arrivals, j) == Excess(before, j) + arrivals[n - 1] - LIMIT
      {
        ExcessGrows(arrivals, j);
      }
      var b := Backlog(r, arrivals);
      if b != 0 && Backlog(r, before) != r + Excess(before, 0) {
        var j :| 0 <= j < n && Backlog(r, before) == Excess(before, j);
        assert b == Excess(arrivals, j);
      }
    }
  }

  ghost predicate WindowsWithin(s: seq<int>, bound: int) {
    forall i, j | 0 <= i <= j <= |s| :: Sum(s[i..j]) <= LIMIT * (j - i) + bound
  }

  ghost predicate NeverAbove(arrivals: seq<int>, bound: int) {
    forall k | 0 <= k <= |arrivals| :: Abs(Backlog(0, arrivals[..k])) <= bound
  }

  /** For non-negative arrivals the backlog stays within a bound exactly when every window does. */
  lemma BoundedBacklogIff(arrivals: seq<int>, bound: nat)
    requires NonNegative(arrivals)
    ensures NeverAbove(arrivals, bound) <==> WindowsWithin(arrivals, bound)
  {
    forall k | 0 <= k <= |arrivals|
      ensures IsLargestExcess(Backlog(0, arrivals[..k]), 0, arrivals[..k])
      ensures 0 <= Backlog(0, arrivals[..k])
    {
      ExactBacklog(0, arrivals[..k]);
    }
    forall i, j | 0 <= i <= j <= |arrivals|
      ensures Excess(arrivals[..j], i) == Sum(arrivals[i..j]) - LIMIT * (j - i)
    {
      assert arrivals[..j][i..] == arrivals[i..j];
    }
    if WindowsWithin(arrivals, bound) {
      forall k | 0 <= k <= |arrivals| ensures Abs(Backlog(0, arrivals[..k])) <= bound {
        var j :| 0 <= j <= k && Backlog(0, arrivals[..k]) == Excess(arrivals[..k], j);
      }
    }
    if NeverAbove(arrivals, bound) {
      forall i, j | 0 <= i <= j <= |arrivals|
        ensures Sum(arrivals[i..j]) <= LIMIT * (j - i) + bound
      {
        assert Excess(arrivals[..j], i) <= Backlog(0, arrivals[..j]) <= bound;
      }
    }
  }

  function Magnitudes(s: seq<int>): (m: seq<int>)
    ensures |m| == |s|
    ensures NonNegative(m)
  {
    seq(|s|, i requires 0 <= i < |s| => Abs(s[i]))
  }

  /** Opposite motions only help: a signed run is never further behind than the run of its magnitudes. */
  lemma {:induction false} SignedBacklogBound(r: int, arrivals: seq<int>)
    ensures Abs(Backlog(r, arrivals)) <= Backlog(Abs(r), Magnitudes(arrivals))
  {
    var n := |arrivals|;
    if n > 0 {
      SignedBacklogBound(r, arrivals[..n - 1]);
      assert Magnitudes(arrivals)[..n - 1] == Magnitudes(arrivals[..n - 1]);
    }
  }

  /** Input whose windows of magnitudes stay within capacity plus `bound` never leaves more than `bound`. */
  lemma BoundedInputBoundedBacklog(arrivals: seq<int>, bound: nat)
    requires WindowsWithin(Magnitudes(arrivals), bound)
    ensures NeverAbove(arrivals, bound)
  {
    var m := Magnitudes(arrivals);
    BoundedBacklogIff(m, bound);
    forall k | 0 <= k <= |arrivals| ensures Abs(Backlog(0, arrivals[..k])) <= bound {
      SignedBacklogBound(0, arrivals[..k]);
      assert Magnitudes(arrivals[..k]) == m[..k];
    }
  }

  lemma BoundedInputBoundedResidual(arrivals: seq<int>, bound: nat)
    requires WindowsWithin(Magnitudes(arrivals), bound)
    ensures Abs(Backlog(0, arrivals)) <= bound
  {
    BoundedInputBoundedBacklog(arrivals, bound);
    assert arrivals[..|arrivals|] == arrivals;
  }

  // ---------------------------------------------------------------- optimality

  /** A schedule sends at most LIMIT per tick and never more than has arrived. */
  ghost predicate Feasible(r: int, arrivals: seq<int>, schedule: seq<int>) {
    && |schedule| == |arrivals|
    && (forall i | 0 <= i < |schedule| :: schedule[i] <= LIMIT)
    && (forall k | 0 <= k <= |schedule| :: Sum(schedule[..k]) <= r + Sum(arrivals[..k]))
  }

  lemma FeasiblePrefix(r: int, arrivals: seq<int>, schedule: seq<int>, n: nat)
    requires Feasible(r, arrivals, schedule) && n <= |arrivals|
    ensures Feasible(r, arrivals[..n], schedule[..n])
  {
    forall k | 0 <= k <= n ensures Sum(schedule[..n][..k]) <= r + Sum(arrivals[..n][..k]) {
      assert schedule[..n][..k] == schedule[..k] && arrivals[..n][..k] == arrivals[..k];
    }
  }

  /** No feasible schedule is ever ahead of repeated flushing. */
  lemma {:induction false} FlushingIsOptimal(r: nat, arrivals: seq<int>, schedule: seq<int>)
    requires NonNegative(arrivals) && Feasible(r, arrivals, schedule)
    ensures Sum(schedule) <= Sum(Outputs(r, arrivals))
  {
    var n := |arrivals|;
    if n > 0 {
      var before := arrivals[..n - 1];
      FeasiblePrefix(r, arrivals, schedule, n - 1);
      FlushingIsOptimal(r, before, schedule[..n - 1]);
      ExactBacklog(r, before);
      Conservation(r, before);
      Conservation(r, arrivals);
      assert schedule[..n] == schedule && arrivals[..n] == arrivals;
      var out := Outputs(r, arrivals);
      assert out[..n - 1] == Outputs(r, before);
    }
  }

  /** A prefix of the run is the run of the prefix. */
  lemma {:induction false} OutputsOfPrefix(r: int, arrivals: seq<int>, k: nat)
    requires k <= |arrivals|
    ensures Outputs(r, arrivals)[..k] == Outputs(r, arrivals[..k])
  {
    var n := |arrivals|;
    if k < n {
      OutputsOfPrefix(r, arrivals[..n - 1], k);
      assert arrivals[..n - 1][..k] == arrivals[..k];
      assert Outputs(r, arrivals)[..k] == Outputs(r, arrivals[..n - 1])[..k];
    } else {
      assert arrivals[..k] == arrivals;
    }
  }

  /** Repeated flushing is itself a feasible schedule. */
  lemma FlushingIsFeasible(r: nat, arrivals: seq<int>)
    requires NonNegative(arrivals)
    ensures Feasible(r, arrivals, Outputs(r, arrivals))
  {
    var out := Outputs(r, arrivals);
    Conservation(r, arrivals);
    forall k | 0 <= k <= |out| ensures Sum(out[..k]) <= r + Sum(arrivals[..k]) {
      OutputsOfPrefix(r, arrivals, k);
      Conservation(r, arrivals[..k]);
      ExactBacklog(r, arrivals[..k]);
    }
  }

  /** At every tick, any feasible schedule has delivered at most what flushing has delivered. */
  lemma OptimalAtEveryTick(r: nat, arrivals: seq<int>, schedule: seq<int>, k: nat)
    requires NonNegative(arrivals) && Feasible(r, arrivals, schedule) && k <= |arrivals|
    ensures Sum(schedule[..k]) <= Sum(Outputs(r, arrivals)[..k]) <= r + Sum(arrivals[..k])
  {
    FeasiblePrefix(r, arrivals, schedule, k);
    FlushingIsOptimal(r, arrivals[..k], schedule[..k]);
    OutputsOfPrefix(r, arrivals, k);
    FlushingIsFeasible(r, arrivals);
  }

  // ---------------------------------------------------------------- two runs

  function Distance(s: seq<int>, t: seq<int>): nat
    requires |s| == |t|
  {
    if |s| == 0 then 0
    else Distance(s[..|s| - 1], t[..|t| - 1]) + Abs(s[|s| - 1] - t[|t| - 1])
  }

  /** How far apart two runs are that hold `b` and `c` and have sent `o` and `p`. */
  function Gap(b: int, c: int, o: int, p: int): nat { Abs(b - c) + Abs(o - p) }

  /** A flush only splits the gap anew between what is left and what has been sent. */
  lemma FlushSharesGap(b: int, c: int, o: int, p: int, x: int, y: int)
    ensures Gap(Residue(b + x), Residue(c + y), o + Clamp(b + x), p + Clamp(c + y)) <= Gap(b, c, o, p) + Abs(x - y)
  {
  }

  /** What the last flush of a run starts from and leaves. */
  lemma LastFlush(r: int, s: seq<int>) returns (b: int, o: int, x: int)
    requires |s| > 0
    ensures b == Backlog(r, s[..|s| - 1]) && o == Sum(Outputs(r, s[..|s| - 1])) && x == s[|s| - 1]
    ensures Backlog(r, s) == Residue(b + x) && Sum(Outputs(r, s)) == o + Clamp(b + x)
  {
    var out, before := Outputs(r, s), s[..|s| - 1];
    assert out[..|s| - 1] == Outputs(r, before);
    b, o, x := Backlog(r, before), Sum(Outputs(r, before)), s[|s| - 1];
  }

  function GapAfter(r: int, s: seq<int>, r': int, t: seq<int>): nat {
    Gap(Backlog(r, s), Backlog(r', t), Sum(Outputs(r, s)), Sum(Outputs(r', t)))
  }

  lemma GapAfterFlush(r: int, s: seq<int>, r': int, t: seq<int>)
    requires |s| == |t| > 0
    ensures GapAfter(r, s, r', t) <= GapAfter(r, s[..|s| - 1], r', t[..|t| - 1]) + Abs(s[|s| - 1] - t[|t| - 1])
  {
    var b, o, x := LastFlush(r, s);
    var c, p, y := LastFlush(r', t);
    FlushSharesGap(b, c, o, p, x, y);
  }

  /** Residuals of two runs, and what they have sent, are together no further apart than their inputs in total. */
  lemma {:induction false} TwoRunStability(r: int, s: seq<int>, r': int, t: seq<int>)
    requires |s| == |t|
    ensures GapAfter(r, s, r', t) <= Abs(r - r') + Distance(s, t)
  {
    if |s| > 0 {
      TwoRunStability(r, s[..|s| - 1], r', t[..|t| - 1]);
      GapAfterFlush(r, s, r', t);
    }
  }

  /** Larger input leaves at least as much behind and sends at least as much at every single tick. */
  lemma {:induction false} TwoRunMonotonicity(r: int, s: seq<int>, r': int, t: seq<int>)
    requires |s| == |t| && r <= r' && forall i | 0 <= i < |s| :: s[i] <= t[i]
    ensures Backlog(r, s) <= Backlog(r', t)
    ensures forall i | 0 <= i < |s| :: Outputs(r, s)[i] <= Outputs(r', t)[i]
    ensures Sum(Outputs(r, s)) <= Sum(Outputs(r', t))
  {
    var n := |s|;
    if n > 0 {
      TwoRunMonotonicity(r, s[..n - 1], r', t[..n - 1]);
      var a, b := Outputs(r, s), Outputs(r', t);
      assert a[..n - 1] == Outputs(r, s[..n - 1]) && b[..n - 1] == Outputs(r', t[..n - 1]);
    }
  }

  // ---------------------------------------------------------------- draining

  function Sign(x: int): int { if x > 0 then 1 else if x < 0 then -1 else 0 }

  function NoInput(k: nat): (z: seq<int>)
    ensures |z| == k
  {
    seq(k, _ => 0)
  }

  /** The fewest flushes that can carry `d` units. */
  function FlushesNeeded(d: int): nat { (Abs(d) + LIMIT - 1) / LIMIT }

  /** With no new input the residual shrinks towards zero by LIMIT per flush and never changes sign. */
  lemma {:induction false} Drain(d: int, k: nat)
    ensures Backlog(d, NoInput(k))
         == Sign(d) * (if LIMIT * k <= Abs(d) then Abs(d) - LIMIT * k else 0)
  {
    if k > 0 {
      Drain(d, k - 1);
      assert NoInput(k)[..k - 1] == NoInput(k - 1);
    }
  }

  /** The backlog is empty after `k` flushes exactly when `k` is at least the number needed. */
  lemma DrainsExactlyWhen(d: int, k: nat)
    ensures Backlog(d, NoInput(k)) == 0 <==> FlushesNeeded(d) <= k
  {
    Drain(d, k);
  }

  lemma {:induction false} SumIsBounded(s: seq<int>)
    requires forall i | 0 <= i < |s| :: -LIMIT <= s[i] <= LIMIT
    ensures Abs(Sum(s)) <= LIMIT * |s|
  {
    if |s| > 0 {
      SumIsBounded(s[..|s| - 1]);
    }
  }

  /** Draining sends `d` in the fewest reports any sequence of report values could. */
  lemma DrainIsShortest(d: int, values: seq<int>)
    requires forall i | 0 <= i < |values| :: -LIMIT <= values[i] <= LIMIT
    requires Sum(values) == d
    ensures FlushesNeeded(d) <= |values|
    ensures Sum(Outputs(d, NoInput(FlushesNeeded(d)))) == d
  {
    SumIsBounded(values);
    var k := FlushesNeeded(d);
    DrainsExactlyWhen(d, k);
    Conservation(d, NoInput(k));
    ZeroSum(k);
  }

  lemma {:induction false} ZeroSum(k: nat)
    ensures Sum(NoInput(k)) == 0
  {
    if k > 0 {
      ZeroSum(k - 1);
      assert NoInput(k)[..k - 1] == NoInput(k - 1);
    }
  }
}
