// Why the verifier checks that vtable sizes are even.
module VerifierNecessity {
  import opened Bits
  import opened Bytes
  import opened Options
  import opened Reader
  import opened VerifierSpec

  // Without the check that vtable sizes are even, a lookup can leave a buffer
  // that passes every other check: here the vtable of five bytes ends the
  // buffer and the entry of field four starts at its last byte.
  lemma EvenSizeIsNeeded()
    ensures exists b: seq<byte> ::
      && ScalarInRange(b, 0, 4)
      && ReadSOffset(b, 0) == Some(-4)
      && ScalarInRange(b, 4, 2) && InRange(b, 4, U(b, 4, 2))
      && FieldOffset(b, 0, 4) == None
  {
    var b: seq<byte> := [0xFC, 0xFF, 0xFF, 0xFF, 5, 0, 4, 0, 0];
    assert b[0..4] == [0xFC, 0xFF, 0xFF, 0xFF];
    FourBytes(0xFC, 0xFF, 0xFF, 0xFF);
    assert b[4..6] == [5, 0];
    TwoBytes(5, 0);
    assert And(0, 3) == 0 && And(4, 1) == 0;
    assert FieldOffset(b, 0, 4) == None;
  }

  lemma FourBytes(x: byte, y: byte, z: byte, w: byte)
    ensures FromLE([x, y, z, w]) == x + 256 * (y + 256 * (z + 256 * w))
  {
    assert [x, y, z, w][1..] == [y, z, w] && [y, z, w][1..] == [z, w];
    TwoBytes(z, w);
  }
}
