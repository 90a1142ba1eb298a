/** The payload layouts of the command messages (ant.go:174-367): fixed byte
    arrays filled field by field, 16-bit fields little-endian. */
module Payloads {
  import opened Bytes
  import opened Messages

  /** `{channel, deviceNum:2, deviceType, transmissionType}` (SetChannelId). */
  function ChannelIdPayload(channel: uint8, deviceNum: uint16, deviceType: uint8, transmissionType: uint8): (p: seq<uint8>)
    ensures |p| == 5 && p[0] == channel && Uint16(p[1..3]) == deviceNum
    ensures p[3] == deviceType && p[4] == transmissionType
  {
    [channel] + PutUint16(deviceNum) + [deviceType, transmissionType]
  }

  /** `{channel, period:2}` (SetChannelPeriod). */
  function ChannelPeriodPayload(channel: uint8, period: uint16): (p: seq<uint8>)
    ensures |p| == 3 && p[0] == channel && Uint16(p[1..]) == period
  {
    [channel] + PutUint16(period)
  }

  /** `{channel, key:8}` (SetNetworkKey); the key is a Go `[8]uint8`. */
  function NetworkKeyPayload(channel: uint8, key: seq<uint8>): (p: seq<uint8>)
    requires |key| == 8
    ensures |p| == 9 && p[0] == channel && p[1..] == key
  {
    [channel] + key
  }

  /** `{channel, waveform:2}` (SetSearchWaveform); only the waveforms 97 and
      316 are accepted, any other value is refused before a payload exists. */
  function SearchWaveformPayload(channel: uint8, waveform: uint16): (p: Option<seq<uint8>>)
    ensures p.Some? <==> waveform == 97 || waveform == 316
    ensures p.Some? ==> |p.value| == 3 && p.value[0] == channel && Uint16(p.value[1..]) == waveform
  {
    if waveform != 316 && waveform != 97 then None
    else Some([channel] + PutUint16(waveform))
  }

  /** `{channelOrChannelSeq, data:8}`, the payload of broadcast, acknowledged
      and burst data; data of any other length than 8 is refused. */
  function DataPayload(first: uint8, data: seq<uint8>): (p: Option<seq<uint8>>)
    ensures p.Some? <==> |data| == 8
    ensures p.Some? ==> |p.value| == 9 && p.value[0] == first && p.value[1..] == data
  {
    if |data| != 8 then None
    else Some([first] + data)
  }

  /** `{channel, deviceNum:2, deviceType, transmissionType, index}` (AddChannelID). */
  function AddChannelIdPayload(channel: uint8, deviceNum: uint16, deviceType: uint8, transmissionType: uint8, index: uint8): (p: seq<uint8>)
    ensures |p| == 6 && p[..5] == ChannelIdPayload(channel, deviceNum, deviceType, transmissionType)
    ensures p[5] == index
  {
    [channel] + PutUint16(deviceNum) + [deviceType, transmissionType, index]
  }

  /** `{0, power & RADIO_TX_POWER_LVL_MASK}` (SetTransmitPower): the level
      sent keeps no bit outside the mask, so masking it again changes nothing,
      and it is never above the mask. */
  function TransmitPowerPayload(power: uint8): (p: seq<uint8>)
    ensures p == [0, BitAnd(power, RADIO_TX_POWER_LVL_MASK)]
    ensures p[1] <= RADIO_TX_POWER_LVL_MASK && p[1] <= power
    ensures BitAnd(p[1], RADIO_TX_POWER_LVL_MASK) == p[1]
  {
    AndBitsIdempotent(power, RADIO_TX_POWER_LVL_MASK);
    [0, BitAnd(power, RADIO_TX_POWER_LVL_MASK)]
  }
}
