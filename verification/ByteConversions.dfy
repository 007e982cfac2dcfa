/** Bytes as integers; a byte survives the trip between its bits and the integer they stand for. */
module ByteConversions {
  type Byte = b: int | 0 <= b < 256

  lemma ByteRoundTrip(m: bv8)
    ensures (m as int) as bv8 == m
  {
  }

  lemma Successor(m: bv8)
    requires m != 255
    ensures (m + 1) as int == m as int + 1
  {
  }

  lemma ByteWithValue(b: nat) returns (m: bv8)
    requires b < 256
    ensures m as int == b
  {
    if b == 0 {
      m := 0;
    } else {
      var before := ByteWithValue(b - 1);
      Successor(before);
      m := before + 1;
    }
  }

  lemma IntRoundTrip(b: nat)
    requires b < 256
    ensures (b as bv8) as int == b
  {
    var m := ByteWithValue(b);
    ByteRoundTrip(m);
  }
}
