/** The 12-byte header in front of every MDP packet. */
module PacketFrame {
  import opened Bytes
  import opened Optional

  const FRAME_SIZE: nat := 12

  type Seqno = n: int | 0 <= n < 0x1_0000_0000

  /** The successor in 32-bit arithmetic. */
  function Next(n: Seqno): Seqno {
    if n == 0xFFFF_FFFF then 0 else n + 1
  }

  datatype Frame = Frame(number: Seqno, sendingTime: nat)

  /** Decodes the header; a packet shorter than the header has none. */
  function ParseFrame(packet: seq<byte>): (r: Option<Frame>)
    ensures r.None? <==> |packet| < FRAME_SIZE
  {
    if |packet| < FRAME_SIZE then None
    else
      Capacities();
      Some(Frame(FromLittleEndian(packet[0..4]), FromLittleEndian(packet[4..12])))
  }

  function EncodeFrame(frame: Frame): (bytes: seq<byte>)
    ensures |bytes| == FRAME_SIZE
  {
    LittleEndian(frame.number, 4) + LittleEndian(frame.sendingTime, 8)
  }

  /** Whatever follows the header, the header reads back. */
  lemma ParseUndoesEncode(frame: Frame, rest: seq<byte>)
    requires frame.sendingTime < 0x1_0000_0000_0000_0000
    ensures ParseFrame(EncodeFrame(frame) + rest) == Some(frame)
  {
    Capacities();
    var packet := EncodeFrame(frame) + rest;
    assert packet[0..4] == LittleEndian(frame.number, 4);
    assert packet[4..12] == LittleEndian(frame.sendingTime, 8);
    DecodeUndoesEncode(frame.number, 4);
    DecodeUndoesEncode(frame.sendingTime, 8);
  }

  /** The decoded fields are all that the first twelve bytes say. */
  lemma EncodeUndoesParse(packet: seq<byte>)
    requires |packet| >= FRAME_SIZE
    ensures EncodeFrame(ParseFrame(packet).value) + packet[FRAME_SIZE..] == packet
  {
    EncodeUndoesDecode(packet[0..4]);
    EncodeUndoesDecode(packet[4..12]);
    assert packet == packet[0..4] + packet[4..12] + packet[12..];
  }

  /** The header byte by byte: four bytes of frame number and then eight of sending time, the
      lowest byte first. */
  lemma HeaderBytes(packet: seq<byte>)
    requires |packet| >= FRAME_SIZE
    ensures var frame := ParseFrame(packet).value;
      && frame.number == packet[0] as nat + 0x100 * packet[1] as nat + 0x1_0000 * packet[2] as nat
                         + 0x100_0000 * packet[3] as nat
      && frame.sendingTime == packet[4] as nat + 0x100 * packet[5] as nat + 0x1_0000 * packet[6] as nat
                              + 0x100_0000 * packet[7] as nat
                              + 0x1_0000_0000 * FromLittleEndian(packet[8..12])
  {
    FourBytes(packet[0..4]);
    HighBytes(packet[4..12]);
    assert packet[4..12][4..] == packet[8..12];
  }

  lemma HighBytes(bytes: seq<byte>)
    requires |bytes| == 8
    ensures FromLittleEndian(bytes)
         == bytes[0] as nat + 0x100 * bytes[1] as nat + 0x1_0000 * bytes[2] as nat + 0x100_0000 * bytes[3] as nat
            + 0x1_0000_0000 * FromLittleEndian(bytes[4..])
  {
    assert bytes[1..][1..] == bytes[2..] && bytes[2..][1..] == bytes[3..] && bytes[3..][1..] == bytes[4..];
    assert FromLittleEndian(bytes[3..]) == bytes[3] as nat + 0x100 * FromLittleEndian(bytes[4..]);
    assert FromLittleEndian(bytes[2..]) == bytes[2] as nat + 0x100 * FromLittleEndian(bytes[3..]);
    assert FromLittleEndian(bytes[1..]) == bytes[1] as nat + 0x100 * FromLittleEndian(bytes[2..]);
  }
}
