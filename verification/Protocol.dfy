/**
  The 7-byte wire packet: magic, dx and dy as little-endian 16-bit two's complement, buttons, sequence
  number.
 */
module Protocol {
  import opened Wrappers
  import opened ByteConversions

  const PACKET_MAGIC: Byte := 0xAB
  const PACKET_SIZE: nat := 7

  type Int16 = v: int | -32768 <= v < 32768

  datatype Packet = Packet(dx: Int16, dy: Int16, buttons: bv8, seqNo: Byte)

  /** Low byte first. */
  function Int16Bytes(v: Int16): (bytes: seq<Byte>)
    ensures |bytes| == 2
  {
    var u := if v < 0 then v + 65536 else v;
    [u % 256, u / 256]
  }

  function Int16At(low: Byte, high: Byte): Int16 {
    var u := low + 256 * high;
    if u >= 32768 then u - 65536 else u
  }

  /** A packet is accepted when it is long enough and starts with the magic byte; what follows is ignored. */
  function ParsePacket(data: seq<Byte>): (p: Option<Packet>)
    ensures p.Some? <==> |data| >= 7 && data[0] == 0xAB
  {
    if |data| < PACKET_SIZE then None
    else if data[0] != PACKET_MAGIC then None
    else Some(Packet(Int16At(data[1], data[2]), Int16At(data[3], data[4]), data[5] as bv8, data[6]))
  }

  /** None stands for the `struct.error` raised when a motion does not fit 16 bits. */
  function BuildPacket(dx: int, dy: int, buttons: int, seqNo: int): (data: Option<seq<Byte>>)
    ensures data.Some? <==> -32768 <= dx < 32768 && -32768 <= dy < 32768
    ensures data.Some? ==> |data.value| == PACKET_SIZE
  {
    if -32768 <= dx < 32768 && -32768 <= dy < 32768 then
      Some([PACKET_MAGIC] + Int16Bytes(dx) + Int16Bytes(dy) + [buttons % 256, seqNo % 256])
    else None
  }

  /** The layout: magic, then dx and dy low byte first in two's complement, buttons, sequence number. */
  lemma PacketLayout(data: seq<Byte>)
    requires ParsePacket(data).Some?
    ensures var p := ParsePacket(data).value;
            && (p.dx - data[1] - (data[2] as int) * 256) % 65536 == 0
            && (p.dy - data[3] - (data[4] as int) * 256) % 65536 == 0
            && p.buttons as int == data[5] && p.seqNo == data[6]
  {
    IntRoundTrip(data[5]);
  }

  lemma Int16RoundTrip(v: Int16)
    ensures Int16At(Int16Bytes(v)[0], Int16Bytes(v)[1]) == v
  {
  }

  lemma BytesRoundTrip(low: Byte, high: Byte)
    ensures Int16Bytes(Int16At(low, high)) == [low, high]
  {
  }

  /** Parsing what was built gives back both motions and the low bytes of buttons and sequence number. */
  lemma ParseBuilt(dx: Int16, dy: Int16, buttons: int, seqNo: int)
    ensures ParsePacket(BuildPacket(dx, dy, buttons, seqNo).value)
         == Some(Packet(dx, dy, (buttons % 256) as bv8, seqNo % 256))
  {
    Int16RoundTrip(dx);
    Int16RoundTrip(dy);
    var data := BuildPacket(dx, dy, buttons, seqNo).value;
    assert data[1..3] == Int16Bytes(dx) && data[3..5] == Int16Bytes(dy);
    assert data[1] == data[1..3][0] && data[2] == data[1..3][1];
    assert data[3] == data[3..5][0] && data[4] == data[3..5][1];
  }

  lemma PackParts(dx: Int16, dy: Int16, buttons: Byte, seqNo: Byte)
    ensures BuildPacket(dx, dy, buttons, seqNo)
         == Some([PACKET_MAGIC] + Int16Bytes(dx) + Int16Bytes(dy) + [buttons, seqNo])
  {
  }

  /** Building what was parsed reproduces the bytes the parser looked at. */
  lemma BuildParsed(data: seq<Byte>)
    requires ParsePacket(data).Some?
    ensures var p := ParsePacket(data).value;
            BuildPacket(p.dx, p.dy, p.buttons as int, p.seqNo) == Some(data[..PACKET_SIZE])
  {
    var dx, dy := Int16At(data[1], data[2]), Int16At(data[3], data[4]);
    BytesRoundTrip(data[1], data[2]);
    BytesRoundTrip(data[3], data[4]);
    IntRoundTrip(data[5]);
    PackParts(dx, dy, data[5], data[6]);
    assert [data[0]] + [data[1], data[2]] + [data[3], data[4]] + [data[5], data[6]] == data[..PACKET_SIZE];
  }

  /** Two accepted datagrams mean the same packet exactly when their first seven bytes agree. */
  lemma ParseIsInjective(data: seq<Byte>, other: seq<Byte>)
    requires ParsePacket(data).Some? && ParsePacket(other).Some?
    ensures ParsePacket(data) == ParsePacket(other) <==> data[..PACKET_SIZE] == other[..PACKET_SIZE]
  {
    BuildParsed(data);
    BuildParsed(other);
    if data[..PACKET_SIZE] == other[..PACKET_SIZE] {
      forall i | 0 <= i < PACKET_SIZE ensures data[i] == other[i] {
        assert data[i] == data[..PACKET_SIZE][i] && other[i] == other[..PACKET_SIZE][i];
      }
    }
  }
}
