/** The receive loop of the UDP listener thread, feeding the merger. */
module UdpListener {
  import opened Wrappers
  import opened Merger
  import opened ByteConversions
  import opened Protocol

  const RECEIVE_SIZE: nat := 64

  /** What one `recvfrom` gives; `Stopped` is the thread's flag being cleared by `stop`. */
  datatype Received = Datagram(data: seq<Byte>) | TimedOut | Failed | Stopped

  /** A datagram longer than the buffer is cut to it. */
  function Truncated(data: seq<Byte>): seq<Byte> {
    if |data| > RECEIVE_SIZE then data[..RECEIVE_SIZE] else data
  }

  /** The call a datagram leads to: none when it is malformed. */
  function CallFor(data: seq<Byte>): (calls: seq<Call>)
    ensures |calls| <= 1
    ensures forall c | c in calls :: c.From(Network)
  {
    match ParsePacket(data)
    case None => []
    case Some(p) => [Accumulate(p.dx, p.dy, p.buttons, Network)]
  }

  function CallsOn(input: Received): seq<Call> {
    if input.Datagram? then CallFor(input.data) else []
  }

  predicate EndsLoop(input: Received) { input.Failed? || input.Stopped? }

  /** The calls the loop makes on these inputs: one per well-formed datagram, until it is told to stop or fails. */
  function CallsFor(inputs: seq<Received>): seq<Call> {
    if |inputs| == 0 || EndsLoop(inputs[0]) then []
    else CallsOn(inputs[0]) + CallsFor(inputs[1..])
  }

  class UDPListener {
    const merger: InputMerger
    var running: bool
    var packetsReceived: nat

    constructor (merger: InputMerger)
      ensures this.merger == merger
    {
      this.merger := merger;
      running, packetsReceived := false, 0;
    }

    /** One datagram: decode it and, when it is well formed, accumulate it. */
    method Handle(data: seq<Byte>)
      modifies this`packetsReceived, merger
      ensures merger.Contents() == ApplyAll(old(merger.Contents()), CallFor(data))
      ensures packetsReceived == old(packetsReceived) + |CallFor(data)|
    {
      TruncationIsHarmless(data);
      var result := ParsePacket(Truncated(data));
      if result.Some? {
        var p := result.value;
        merger.Accumulate(p.dx, p.dy, p.buttons, "network");
        packetsReceived := packetsReceived + 1;
        assert CallFor(data)[..0] == [];
      }
    }

    /** What the loop does with the outcome of one `recvfrom`; false when it ends there. */
    method Receive(input: Received) returns (goOn: bool)
      modifies this, merger
      ensures merger.Contents() == ApplyAll(old(merger.Contents()), CallsOn(input))
      ensures packetsReceived == old(packetsReceived) + |CallsOn(input)|
      ensures goOn == !EndsLoop(input)
    {
      goOn := true;
      match input {
        case Datagram(data) => Handle(data);
        case TimedOut =>
        case Failed => goOn := false;
        case Stopped =>
          running := false;
          goOn := false;
      }
    }

    method Run(inputs: seq<Received>)
      modifies this, merger
      ensures merger.Contents() == ApplyAll(old(merger.Contents()), CallsFor(inputs))
      ensures packetsReceived == |CallsFor(inputs)|
    {
      running := true;
      packetsReceived := 0;
      var i := 0;
      ghost var before := merger.Contents();
      while i < |inputs|
        invariant i <= |inputs| && Remaining(before, inputs, merger.Contents(), packetsReceived, i)
      {
        OneReceive(before, inputs, merger.Contents(), packetsReceived, i);
        var goOn := Receive(inputs[i]);
        if !goOn {
          return;
        }
        i := i + 1;
      }
    }
  }

  /** From `now`, with `count` calls made, the inputs from `i` on lead to where all inputs lead from `before`. */
  ghost predicate Remaining(before: Fields, inputs: seq<Received>, now: Fields, count: nat, i: nat)
    requires i <= |inputs|
  {
    && ApplyAll(now, CallsFor(inputs[i..])) == ApplyAll(before, CallsFor(inputs))
    && count + |CallsFor(inputs[i..])| == |CallsFor(inputs)|
  }

  /** One turn of the loop: it ends here, or goes on with what this input led to. */
  lemma OneReceive(before: Fields, inputs: seq<Received>, now: Fields, count: nat, i: nat)
    requires i < |inputs| && Remaining(before, inputs, now, count, i)
    ensures var now', count' := ApplyAll(now, CallsOn(inputs[i])), count + |CallsOn(inputs[i])|;
            if EndsLoop(inputs[i]) then now' == ApplyAll(before, CallsFor(inputs)) && count' == |CallsFor(inputs)|
            else Remaining(before, inputs, now', count', i + 1)
  {
    assert inputs[i..][0] == inputs[i] && inputs[i..][1..] == inputs[i + 1..];
    ApplyAllConcat(now, CallsOn(inputs[i]), CallsFor(inputs[i + 1..]));
  }

  // ---------------------------------------------------------------- what the loop receives

  /** The calls of the datagrams among the inputs, whatever else is there. */
  function CallsOfDatagrams(inputs: seq<Received>): seq<Call> {
    if |inputs| == 0 then []
    else
      CallsOfDatagrams(inputs[..|inputs| - 1])
      + match inputs[|inputs| - 1]
        case Datagram(data) => CallFor(data)
        case TimedOut | Failed | Stopped => []
  }

  lemma {:induction false} CallsOfDatagramsConcat(a: seq<Received>, b: seq<Received>)
    ensures CallsOfDatagrams(a + b) == CallsOfDatagrams(a) + CallsOfDatagrams(b)
  {
    if |b| == 0 {
      assert a + b == a;
    } else {
      CallsOfDatagramsConcat(a, b[..|b| - 1]);
      assert (a + b)[..|a + b| - 1] == a + b[..|b| - 1];
    }
  }

  /**
    Until a receive fails or the thread is stopped every well-formed datagram makes its call, in order, however
    many time-outs and malformed datagrams come in between; nothing that follows makes any.
   */
  lemma {:induction false} ReceivesUntilStopped(inputs: seq<Received>, n: nat)
    requires n <= |inputs| && forall i | 0 <= i < n :: !inputs[i].Failed? && !inputs[i].Stopped?
    requires n < |inputs| ==> inputs[n].Failed? || inputs[n].Stopped?
    ensures CallsFor(inputs) == CallsOfDatagrams(inputs[..n])
  {
    if n > 0 {
      ReceivesUntilStopped(inputs[1..], n - 1);
      CallsOfDatagramsConcat([inputs[0]], inputs[1..][..n - 1]);
      assert [inputs[0]] + inputs[1..][..n - 1] == inputs[..n];
      assert [inputs[0]][..0] == [];
      assert CallsOfDatagrams([inputs[0]]) == CallsOn(inputs[0]);
    }
  }

  function WithoutTimeouts(inputs: seq<Received>): seq<Received> {
    if |inputs| == 0 then []
    else if inputs[0].TimedOut? then WithoutTimeouts(inputs[1..])
    else [inputs[0]] + WithoutTimeouts(inputs[1..])
  }

  /** Silence changes nothing. */
  lemma {:induction false} TimeoutsAreInvisible(inputs: seq<Received>)
    ensures CallsFor(inputs) == CallsFor(WithoutTimeouts(inputs))
  {
    if |inputs| > 0 {
      TimeoutsAreInvisible(inputs[1..]);
      if !inputs[0].TimedOut? {
        assert WithoutTimeouts(inputs)[1..] == WithoutTimeouts(inputs[1..]);
      }
    }
  }

  /** The well-formed datagrams received before the loop ends. */
  function Accepted(inputs: seq<Received>): seq<seq<Byte>> {
    if |inputs| == 0 || inputs[0].Failed? || inputs[0].Stopped? then []
    else
      (if inputs[0].Datagram? && |inputs[0].data| >= 7 && inputs[0].data[0] == 0xAB then [inputs[0].data] else [])
      + Accepted(inputs[1..])
  }

  function CallsOfData(data: seq<seq<Byte>>): seq<Call> {
    if |data| == 0 then [] else CallFor(data[0]) + CallsOfData(data[1..])
  }

  /** The calls made are those of the accepted datagrams alone, one each. */
  lemma {:induction false} OnlyAcceptedCount(inputs: seq<Received>)
    ensures CallsFor(inputs) == CallsOfData(Accepted(inputs))
    ensures |CallsFor(inputs)| == |Accepted(inputs)|
  {
    if |inputs| > 0 && !inputs[0].Failed? && !inputs[0].Stopped? {
      OnlyAcceptedCount(inputs[1..]);
      var rest := Accepted(inputs[1..]);
      if inputs[0].Datagram? && |inputs[0].data| >= 7 && inputs[0].data[0] == 0xAB {
        assert Accepted(inputs)[1..] == rest;
      } else {
        assert Accepted(inputs) == rest && CallsOn(inputs[0]) == [];
      }
    }
  }

  /** Cutting a datagram to the receive buffer never changes what it means. */
  lemma TruncationIsHarmless(data: seq<Byte>)
    ensures CallFor(Truncated(data)) == CallFor(data)
  {
  }
}
