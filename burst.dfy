/** Burst transfers (ant.go:309-343): a payload cut into 8-byte packets, each
    sent as one burst-data message whose first byte carries the channel number
    in its low five bits and a three-bit sequence field in its high bits. */
module Burst {
  import opened Bytes
  import opened Messages

  /** The number of packets, `uint8(len(data) / 8)`: truncated to eight bits. */
  function PacketCount(dataLength: nat): (n: uint8)
    ensures n <= dataLength / 8
    ensures dataLength < 2048 ==> n == dataLength / 8
  {
    (dataLength / 8) % 0x100
  }

  /** The terminal-packet flag ORed into the sequence field of a last packet. */
  const TerminalFlag: uint8 := 4

  /** The sequence field of packet `i` of a burst of `packets` packets: 0 for
      the first packet, otherwise the rolling counter 1, 2, 3, 1, ..., with the
      terminal flag added on the last packet. (In the source `i - 1` and
      `packets - 1` are uint8 differences; they wrap only for `i == 0`, whose
      value is overwritten, and for `packets == 0`, when no packet is sent.) */
  function SequenceNumber(i: nat, packets: nat): uint8 {
    var rolling := (i - 1) % 3 + 1;
    if i == 0 then 0
    else if i == packets - 1 then BitOr(rolling, TerminalFlag)
    else rolling
  }

  /** `rolling | 0b100` for a rolling counter value: the flag is a bit of its own. */
  lemma FlagIsDisjoint(rolling: uint8)
    requires 1 <= rolling <= 3
    ensures BitOr(rolling, TerminalFlag) == rolling + 4
  {
    OrDisjoint(rolling, 1, 2);
  }

  /** The sequence field of every packet of a burst: packet 0 has 0; packet
      `i > 0` carries the rolling counter in its low two bits, cycling 1, 2, 3;
      the terminal flag is set on the last packet when it is not packet 0, and
      on no other packet. */
  lemma SequenceNumberFields(i: nat, packets: nat)
    requires i < packets
    ensures SequenceNumber(i, packets) < 8
    ensures i == 0 ==> SequenceNumber(i, packets) == 0
    ensures i > 0 ==> SequenceNumber(i, packets) % 4 == (i - 1) % 3 + 1
    ensures SequenceNumber(i, packets) >= 4 <==> i > 0 && i == packets - 1
  {
    if i > 0 {
      FlagIsDisjoint((i - 1) % 3 + 1);
    }
  }

  /** The channel-sequence byte, `channel | sequence<<5` in uint8 (the shift
      drops the bits pushed past the eighth). */
  function ChannelSequence(channel: uint8, sequence: uint8): uint8 {
    BitOr(channel, (sequence * 32) % 0x100)
  }

  /** For a channel number below 32 and a sequence field below 8 the two parts
      occupy disjoint bits of the channel-sequence byte and can be read back
      from it. */
  lemma ChannelSequenceFields(channel: uint8, sequence: uint8)
    requires channel < 32 && sequence < 8
    ensures ChannelSequence(channel, sequence) == channel + 32 * sequence
    ensures ChannelSequence(channel, sequence) % 32 == channel
    ensures ChannelSequence(channel, sequence) / 32 == sequence
  {
    var shifted := (sequence * 32) % 0x100;
    assert shifted == sequence * 32;
    assert BitOr(channel, shifted) == channel + shifted by {
      assert Pow2(5) == 32;
      OrDisjoint(channel, sequence, 5);
    }
  }

  /** Packet `i` of a burst: a burst-data message whose payload is the
      channel-sequence byte followed by the packet's eight data bytes. */
  function BurstPacket(channel: uint8, data: seq<uint8>, i: nat, packets: nat): (m: Message)
    requires 8 * i + 8 <= |data|
  {
    Message(MESG_BURST_DATA_ID, [ChannelSequence(channel, SequenceNumber(i, packets))] + data[8 * i..8 * i + 8])
  }

  /** What a burst sends as written: the packets enqueued, and whether the loop
      stopped on a slice panic. The packet count is `uint8(len(data)/8)`, and the
      slice bounds `i*8` and `i*8+8` are uint8 too, so packet 31 would need the
      slice `data[248:0]`: a burst of 32 packets or more panics there, after
      sending packets 0 to 30. */
  datatype BurstOutcome = BurstOutcome(sent: seq<Message>, panicked: bool)

  function BurstAsWritten(channel: uint8, data: seq<uint8>): (r: BurstOutcome)
    requires |data| % 8 == 0
    ensures |r.sent| <= 31 && |r.sent| <= PacketCount(|data|)
    ensures |r.sent| == if PacketCount(|data|) < 32 then PacketCount(|data|) else 31
    ensures r.panicked <==> PacketCount(|data|) >= 32
  {
    var n := PacketCount(|data|);
    var reached := if n < 32 then n else 31;
    BurstOutcome(seq(reached, i requires 0 <= i < reached => BurstPacket(channel, data, i, n)), n >= 32)
  }

  /** The uint8 bounds of the slice `data[i*8:i*8+8]` of packet `i`: exact up
      to packet 30, while for packet 31 the upper bound wraps to 0. */
  lemma SliceBounds(i: nat)
    requires i <= 31
    ensures (i * 8) % 0x100 == 8 * i
    ensures (i * 8 + 8) % 0x100 == if i == 31 then 0 else 8 * i + 8
  {
  }

  /** The sequence field as the loop computes it, with uint8 differences, is
      `SequenceNumber`. */
  lemma RollingSequence(i: uint8, packets: uint8)
    requires i < packets
    ensures (if i == 0 then 0
             else if i as int == (packets as int - 1) % 0x100 then BitOr((i as int - 1) % 0x100 % 3 + 1, TerminalFlag)
             else (i as int - 1) % 0x100 % 3 + 1) == SequenceNumber(i, packets)
  {
  }

  /** Packet `i` of the burst as written, when it is sent at all. */
  lemma BurstAsWrittenPacket(channel: uint8, data: seq<uint8>, i: nat)
    requires |data| % 8 == 0 && i < |BurstAsWritten(channel, data).sent|
    ensures 8 * i + 8 <= |data|
    ensures BurstAsWritten(channel, data).sent[i]
         == Message(MESG_BURST_DATA_ID,
                    [ChannelSequence(channel, SequenceNumber(i, PacketCount(|data|)))] + data[8 * i..8 * i + 8])
  {
  }

  /** A burst without the eight-bit truncations: one packet per eight bytes of
      data, however long the data is. */
  function Burst(channel: uint8, data: seq<uint8>): (packets: seq<Message>)
    requires |data| % 8 == 0
    ensures |packets| == |data| / 8
  {
    seq(|data| / 8, i requires 0 <= i < |data| / 8 => BurstPacket(channel, data, i, |data| / 8))
  }

  /** The data bytes carried by a list of burst messages, in order. */
  function Reassemble(packets: seq<Message>): seq<uint8> {
    if packets == [] then []
    else
      var last := packets[|packets| - 1];
      Reassemble(packets[..|packets| - 1]) + (if |last.payload| == 0 then [] else last.payload[1..])
  }

  /** The first `k` packets of a corrected burst carry exactly the first `8k`
      data bytes. */
  lemma {:induction false} ReassemblePrefix(channel: uint8, data: seq<uint8>, k: nat)
    requires |data| % 8 == 0 && k <= |data| / 8
    ensures Reassemble(Burst(channel, data)[..k]) == data[..8 * k]
  {
    if k > 0 {
      var packets := Burst(channel, data);
      ReassemblePrefix(channel, data, k - 1);
      assert packets[..k][..k - 1] == packets[..k - 1];
      assert data[..8 * k] == data[..8 * (k - 1)] + data[8 * (k - 1)..8 * k];
    }
  }

  /** Burst round trip: the packets of a burst carry the whole data, in order,
      with nothing added or lost. */
  lemma BurstReassembles(channel: uint8, data: seq<uint8>)
    requires |data| % 8 == 0
    ensures Reassemble(Burst(channel, data)) == data
  {
    var packets := Burst(channel, data);
    ReassemblePrefix(channel, data, |data| / 8);
    assert packets[..|data| / 8] == packets;
    assert data[..8 * (|data| / 8)] == data;
  }

  /** Every packet of a burst is burst data of nine bytes; for a channel number
      below 32 its first byte reads back as the channel and the packet's
      sequence field, and the rest is the packet's slice of the data. */
  lemma BurstPacketFields(channel: uint8, data: seq<uint8>, i: nat)
    requires |data| % 8 == 0 && i < |data| / 8
    ensures Burst(channel, data)[i].id == MESG_BURST_DATA_ID
    ensures |Burst(channel, data)[i].payload| == 9
    ensures Burst(channel, data)[i].payload[1..] == data[8 * i..8 * i + 8]
    ensures channel < 32 ==>
      Burst(channel, data)[i].payload[0] % 32 == channel &&
      Burst(channel, data)[i].payload[0] / 32 == SequenceNumber(i, |data| / 8)
  {
    SequenceNumberFields(i, |data| / 8);
    if channel < 32 {
      ChannelSequenceFields(channel, SequenceNumber(i, |data| / 8));
    }
  }

  /** Below 256 bytes of data the burst as written sends every packet and does
      not panic: it agrees with the corrected burst. */
  lemma AsWrittenMatchesBelow256(channel: uint8, data: seq<uint8>)
    requires |data| % 8 == 0 && |data| < 256
    ensures BurstAsWritten(channel, data) == BurstOutcome(Burst(channel, data), false)
  {
  }

  /** As written, a burst of 256 to 2047 bytes sends only its first 31 packets
      and then panics on the slice of packet 31. */
  lemma LongBurstPanics(channel: uint8, data: seq<uint8>)
    requires |data| % 8 == 0 && 256 <= |data| < 2048
    ensures BurstAsWritten(channel, data).panicked
    ensures BurstAsWritten(channel, data).sent == Burst(channel, data)[..31]
    ensures |BurstAsWritten(channel, data).sent| == 31 < |Burst(channel, data)|
  {
  }

  /** As written, a burst of exactly 2048 bytes sends nothing at all: the
      packet count truncates to 0. */
  lemma TruncatedBurstSendsNothing(channel: uint8, data: seq<uint8>)
    requires |data| == 2048
    ensures BurstAsWritten(channel, data) == BurstOutcome([], false)
    ensures |Burst(channel, data)| == 256
  {
  }

  /** A burst of a single packet sends the channel byte unchanged: packet 0
      has sequence 0 and, being packet 0, does not get the terminal flag. */
  lemma SinglePacketBurst(channel: uint8, data: seq<uint8>)
    requires |data| == 8
    ensures Burst(channel, data) == [Message(MESG_BURST_DATA_ID, [channel] + data)]
    ensures BurstAsWritten(channel, data) == BurstOutcome(Burst(channel, data), false)
  {
    assert data[0..8] == data;
  }

  /** A burst of 64 bytes on channel 2: eight packets whose channel-sequence
      bytes are 2, 2|1<<5, 2|2<<5, 2|3<<5, 2|1<<5, 2|2<<5, 2|3<<5 and, for the
      last, 2|(1|0b100)<<5. */
  lemma EightPacketBurst(data: seq<uint8>)
    requires |data| == 64
    ensures |Burst(2, data)| == 8
    ensures forall i :: 0 <= i < 8 ==>
      Burst(2, data)[i].payload[0] == [2, 34, 66, 98, 34, 66, 98, 162][i]
  {
    forall i | 0 <= i < 8
      ensures Burst(2, data)[i].payload[0] == [2, 34, 66, 98, 34, 66, 98, 162][i]
    {
      var sequence := SequenceNumber(i, 8);
      assert sequence == [0, 1, 2, 3, 1, 2, 3, 5][i] by {
        SequenceNumberFields(i, 8);
      }
      assert Burst(2, data)[i].payload[0] == 2 + 32 * sequence by {
        ChannelSequenceFields(2, sequence);
      }
    }
  }
}
