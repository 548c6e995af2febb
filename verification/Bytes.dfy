/** Little-endian integers, as every wire format of the gateway lays them out. */
module Bytes {

  newtype byte = x: int | 0 <= x < 0x100

  /** The number of values that fit in `width` bytes. */
  function Capacity(width: nat): (r: nat)
    ensures r >= 1
  {
    if width == 0 then 1 else 0x100 * Capacity(width - 1)
  }

  function LittleEndian(n: nat, width: nat): (bytes: seq<byte>)
    ensures |bytes| == width
  {
    if width == 0 then [] else [(n % 0x100) as byte] + LittleEndian(n / 0x100, width - 1)
  }

  function FromLittleEndian(bytes: seq<byte>): (n: nat)
    ensures n < Capacity(|bytes|)
  {
    if bytes == [] then 0 else bytes[0] as nat + 0x100 * FromLittleEndian(bytes[1..])
  }

  /** Decoding undoes encoding on every number the width can carry. */
  lemma {:induction false} DecodeUndoesEncode(n: nat, width: nat)
    requires n < Capacity(width)
    ensures FromLittleEndian(LittleEndian(n, width)) == n
  {
    if width > 0 {
      DecodeUndoesEncode(n / 0x100, width - 1);
      assert LittleEndian(n, width)[1..] == LittleEndian(n / 0x100, width - 1);
    }
  }

  /** Encoding undoes decoding on every byte string. */
  lemma {:induction false} EncodeUndoesDecode(bytes: seq<byte>)
    ensures LittleEndian(FromLittleEndian(bytes), |bytes|) == bytes
  {
    if bytes != [] {
      var n := FromLittleEndian(bytes);
      assert n % 0x100 == bytes[0] as nat && n / 0x100 == FromLittleEndian(bytes[1..]);
      EncodeUndoesDecode(bytes[1..]);
    }
  }

  lemma Capacities()
    ensures Capacity(2) == 0x1_0000
    ensures Capacity(4) == 0x1_0000_0000
    ensures Capacity(8) == 0x1_0000_0000_0000_0000
  {
    assert Capacity(1) == 0x100;
    assert Capacity(2) == 0x1_0000;
    assert Capacity(3) == 0x100_0000;
    assert Capacity(4) == 0x1_0000_0000;
    assert Capacity(5) == 0x100_0000_0000;
    assert Capacity(6) == 0x1_0000_0000_0000;
    assert Capacity(7) == 0x100_0000_0000_0000;
  }

  /** The lowest byte comes first. */
  lemma TwoBytes(bytes: seq<byte>)
    requires |bytes| == 2
    ensures FromLittleEndian(bytes) == bytes[0] as nat + 0x100 * bytes[1] as nat
  {
    assert bytes[1..][1..] == [];
    assert FromLittleEndian(bytes[1..]) == bytes[1] as nat;
  }

  lemma FourBytes(bytes: seq<byte>)
    requires |bytes| == 4
    ensures FromLittleEndian(bytes)
         == bytes[0] as nat + 0x100 * bytes[1] as nat + 0x1_0000 * bytes[2] as nat + 0x100_0000 * bytes[3] as nat
  {
    TwoBytes(bytes[2..]);
    assert bytes[1..][1..] == bytes[2..];
    assert FromLittleEndian(bytes[1..]) == bytes[1] as nat + 0x100 * FromLittleEndian(bytes[2..]);
  }
}
