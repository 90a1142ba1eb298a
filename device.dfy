/** The command layer of the driver (ant.go:38-61, 174-367): an `Ant` holds two
    outbound queues, `write` for configuration and control messages and
    `writeInTimeslot` for acknowledged and burst data, and every command
    builds one message and appends it to one of them. A command whose
    argument check fails in the source panics before enqueuing; here it
    returns `InvalidArgument` and changes nothing. */
module Device {
  import opened Bytes
  import opened Messages
  import opened Payloads
  import opened Burst

  /** How a command ends: its messages were enqueued, an argument check
      refused it, or (bursts only) a slice bound went out of range part way. */
  datatype Status = Sent | InvalidArgument | SliceOutOfRange

  class Ant {
    /** Messages waiting on `dev.write`, oldest first. */
    var write: seq<Message>
    /** Messages waiting on `dev.writeInTimeslot`, oldest first. */
    var writeInTimeslot: seq<Message>

    /** `MakeAnt`: both outbound queues start empty. */
    constructor ()
      ensures write == [] && writeInTimeslot == []
    {
      write := [];
      writeInTimeslot := [];
    }

    method UnAssignChannel(channel: uint8)
      modifies this
      ensures write == old(write) + [Message(MESG_UNASSIGN_CHANNEL_ID, [channel])]
      ensures writeInTimeslot == old(writeInTimeslot)
    {
      write := write + [Message(MESG_UNASSIGN_CHANNEL_ID, [channel])];
    }

    method AssignChannel(channel: uint8, channelType: uint8, networkNumber: uint8)
      modifies this
      ensures write == old(write) + [Message(MESG_ASSIGN_CHANNEL_ID, [channel, channelType, networkNumber])]
      ensures writeInTimeslot == old(writeInTimeslot)
    {
      write := write + [Message(MESG_ASSIGN_CHANNEL_ID, [channel, channelType, networkNumber])];
    }

    method AssignChannelExt(channel: uint8, channelType: uint8, networkNumber: uint8, extFlags: uint8)
      modifies this
      ensures write == old(write) + [Message(MESG_ASSIGN_CHANNEL_ID, [channel, channelType, networkNumber, extFlags])]
      ensures writeInTimeslot == old(writeInTimeslot)
    {
      write := write + [Message(MESG_ASSIGN_CHANNEL_ID, [channel, channelType, networkNumber, extFlags])];
    }

    method SetChannelId(channel: uint8, deviceNum: uint16, deviceType: uint8, transmissionType: uint8)
      modifies this
      ensures |write| == |old(write)| + 1 && write[..|old(write)|] == old(write)
      ensures write[|old(write)|] == Message(MESG_CHANNEL_ID_ID, ChannelIdPayload(channel, deviceNum, deviceType, transmissionType))
      ensures writeInTimeslot == old(writeInTimeslot)
    {
      var payload := ChannelIdPayload(channel, deviceNum, deviceType, transmissionType);
      write := write + [Message(MESG_CHANNEL_ID_ID, payload)];
    }

    method SetChannelPeriod(channel: uint8, messagePeriod: uint16)
      modifies this
      ensures write == old(write) + [Message(MESG_CHANNEL_MESG_PERIOD_ID, ChannelPeriodPayload(channel, messagePeriod))]
      ensures writeInTimeslot == old(writeInTimeslot)
    {
      write := write + [Message(MESG_CHANNEL_MESG_PERIOD_ID, ChannelPeriodPayload(channel, messagePeriod))];
    }

    method SetChannelSearchTimeout(channel: uint8, timeout: uint8)
      modifies this
      ensures write == old(write) + [Message(MESG_CHANNEL_SEARCH_TIMEOUT_ID, [channel, timeout])]
      ensures writeInTimeslot == old(writeInTimeslot)
    {
      write := write + [Message(MESG_CHANNEL_SEARCH_TIMEOUT_ID, [channel, timeout])];
    }

    method SetChannelRFFreq(channel: uint8, rfFreq: uint8)
      modifies this
      ensures write == old(write) + [Message(MESG_CHANNEL_RADIO_FREQ_ID, [channel, rfFreq])]
      ensures writeInTimeslot == old(writeInTimeslot)
    {
      write := write + [Message(MESG_CHANNEL_RADIO_FREQ_ID, [channel, rfFreq])];
    }

    method SetNetworkKey(channel: uint8, key: seq<uint8>)
      requires |key| == 8
      modifies this
      ensures write == old(write) + [Message(MESG_NETWORK_KEY_ID, NetworkKeyPayload(channel, key))]
      ensures writeInTimeslot == old(writeInTimeslot)
    {
      write := write + [Message(MESG_NETWORK_KEY_ID, NetworkKeyPayload(channel, key))];
    }

    /** Only the bits of `power` inside the power-level mask are sent. */
    method SetTransmitPower(power: uint8)
      modifies this
      ensures write == old(write) + [Message(MESG_CHANNEL_RADIO_TX_POWER_ID, TransmitPowerPayload(power))]
      ensures writeInTimeslot == old(writeInTimeslot)
    {
      write := write + [Message(MESG_CHANNEL_RADIO_TX_POWER_ID, TransmitPowerPayload(power))];
    }

    /** Accepts only the waveforms 97 and 316. The message id is the one the
        source uses, `MESG_RADIO_TX_POWER_ID`. */
    method SetSearchWaveform(channel: uint8, searchWaveform: uint16) returns (status: Status)
      modifies this
      ensures status == Sent || status == InvalidArgument
      ensures status == InvalidArgument <==> searchWaveform != 97 && searchWaveform != 316
      ensures status == InvalidArgument ==> write == old(write)
      ensures status == Sent ==>
        write == old(write) + [Message(MESG_RADIO_TX_POWER_ID, SearchWaveformPayload(channel, searchWaveform).value)]
      ensures writeInTimeslot == old(writeInTimeslot)
    {
      var payload := SearchWaveformPayload(channel, searchWaveform);
      if payload.None? {
        return InvalidArgument;
      }
      write := write + [Message(MESG_RADIO_TX_POWER_ID, payload.value)];
      return Sent;
    }

    method ResetSystem()
      modifies this
      ensures write == old(write) + [Message(MESG_SYSTEM_RESET_ID, [0])]
      ensures writeInTimeslot == old(writeInTimeslot)
    {
      write := write + [Message(MESG_SYSTEM_RESET_ID, [0])];
    }

    method OpenChannel(channel: uint8)
      modifies this
      ensures write == old(write) + [Message(MESG_OPEN_CHANNEL_ID, [channel])]
      ensures writeInTimeslot == old(writeInTimeslot)
    {
      write := write + [Message(MESG_OPEN_CHANNEL_ID, [channel])];
    }

    method CloseChannel(channel: uint8)
      modifies this
      ensures write == old(write) + [Message(MESG_CLOSE_CHANNEL_ID, [channel])]
      ensures writeInTimeslot == old(writeInTimeslot)
    {
      write := write + [Message(MESG_CLOSE_CHANNEL_ID, [channel])];
    }

    /** The message id is the one the source uses, `MESG_REQUEST_SIZE`. */
    method RequestMessage(channel: uint8, messageId: uint8)
      modifies this
      ensures write == old(write) + [Message(MESG_REQUEST_SIZE, [channel, messageId])]
      ensures writeInTimeslot == old(writeInTimeslot)
    {
      write := write + [Message(MESG_REQUEST_SIZE, [channel, messageId])];
    }

    method WriteMessage(messageId: uint8, data: seq<uint8>)
      modifies this
      ensures write == old(write) + [Message(messageId, data)]
      ensures writeInTimeslot == old(writeInTimeslot)
    {
      write := write + [Message(messageId, data)];
    }

    /** Broadcast data goes on the ordinary `write` queue. */
    method SendBroadcastData(channel: uint8, data: seq<uint8>) returns (status: Status)
      modifies this
      ensures status == (if |data| == 8 then Sent else InvalidArgument)
      ensures status == InvalidArgument ==> write == old(write)
      ensures status == Sent ==> write == old(write) + [Message(MESG_BROADCAST_DATA_ID, [channel] + data)]
      ensures writeInTimeslot == old(writeInTimeslot)
    {
      var payload := DataPayload(channel, data);
      if payload.None? {
        return InvalidArgument;
      }
      write := write + [Message(MESG_BROADCAST_DATA_ID, payload.value)];
      return Sent;
    }

    /** Acknowledged data goes on the `writeInTimeslot` queue. */
    method SendAcknowledgedData(channel: uint8, data: seq<uint8>) returns (status: Status)
      modifies this
      ensures status == (if |data| == 8 then Sent else InvalidArgument)
      ensures status == InvalidArgument ==> writeInTimeslot == old(writeInTimeslot)
      ensures status == Sent ==> writeInTimeslot == old(writeInTimeslot) + [Message(MESG_ACKNOWLEDGED_DATA_ID, [channel] + data)]
      ensures write == old(write)
    {
      var payload := DataPayload(channel, data);
      if payload.None? {
        return InvalidArgument;
      }
      writeInTimeslot := writeInTimeslot + [Message(MESG_ACKNOWLEDGED_DATA_ID, payload.value)];
      return Sent;
    }

    /** One burst packet, with its channel-sequence byte already computed. */
    method SendBurstTransferPacket(channelSeq: uint8, data: seq<uint8>) returns (status: Status)
      modifies this
      ensures status == (if |data| == 8 then Sent else InvalidArgument)
      ensures status == InvalidArgument ==> writeInTimeslot == old(writeInTimeslot)
      ensures status == Sent ==> writeInTimeslot == old(writeInTimeslot) + [Message(MESG_BURST_DATA_ID, [channelSeq] + data)]
      ensures write == old(write)
    {
      var payload := DataPayload(channelSeq, data);
      if payload.None? {
        return InvalidArgument;
      }
      writeInTimeslot := writeInTimeslot + [Message(MESG_BURST_DATA_ID, payload.value)];
      return Sent;
    }

    /** The burst loop, with the source's uint8 packet counter and slice
        bounds: it enqueues exactly the packets `BurstAsWritten` lists, in
        order, and reports the slice panic that a burst of 32 packets or more
        runs into. Data whose length is not a multiple of 8 is refused first. */
    method SendBurstTransfer(channel: uint8, data: seq<uint8>) returns (status: Status)
      modifies this
      ensures write == old(write)
      ensures |data| % 8 != 0 ==> status == InvalidArgument && writeInTimeslot == old(writeInTimeslot)
      ensures |data| % 8 == 0 ==>
        writeInTimeslot == old(writeInTimeslot) + BurstAsWritten(channel, data).sent &&
        status == (if BurstAsWritten(channel, data).panicked then SliceOutOfRange else Sent)
    {
      if |data| % 8 != 0 {
        return InvalidArgument;
      }
      var packets: uint8 := (|data| / 8) % 0x100;
      ghost var planned := BurstAsWritten(channel, data).sent;
      var i: uint8 := 0;
      while i < packets
        invariant i <= packets && i <= 31
        invariant write == old(write)
        invariant writeInTimeslot == old(writeInTimeslot) + planned[..i]
      {
        var sequence: uint8 := (i as int - 1) % 0x100 % 3 + 1;
        if i == 0 {
          sequence := 0;
        } else if i as int == (packets as int - 1) % 0x100 {
          sequence := BitOr(sequence, TerminalFlag);
        }
        assert sequence == SequenceNumber(i, packets) by {
          RollingSequence(i, packets);
        }
        var channelSeq := ChannelSequence(channel, sequence);

        var lo, hi := (i as int * 8) % 0x100, (i as int * 8 + 8) % 0x100;
        assert lo == 8 * i && hi == (if i == 31 then 0 else 8 * i + 8) by {
          SliceBounds(i);
        }
        if !(lo <= hi <= |data|) {
          return SliceOutOfRange;
        }
        var st := SendBurstTransferPacket(channelSeq, data[lo..hi]);
        assert planned[i] == Message(MESG_BURST_DATA_ID, [channelSeq] + data[lo..hi]) by {
          BurstAsWrittenPacket(channel, data, i);
        }
        assert planned[..i + 1] == planned[..i] + [planned[i]];
        i := i + 1;
      }
      return Sent;
    }

    method AddChannelID(channel: uint8, deviceNum: uint16, deviceType: uint8, transmissionType: uint8, index: uint8)
      modifies this
      ensures write == old(write) + [Message(MESG_ID_LIST_ADD_ID, AddChannelIdPayload(channel, deviceNum, deviceType, transmissionType, index))]
      ensures writeInTimeslot == old(writeInTimeslot)
    {
      write := write + [Message(MESG_ID_LIST_ADD_ID, AddChannelIdPayload(channel, deviceNum, deviceType, transmissionType, index))];
    }

    /** The message id is the one the source uses, `MESG_ID_LIST_ADD_ID`. */
    method ConfigList(channel: uint8, listSize: uint8, exclude: uint8)
      modifies this
      ensures write == old(write) + [Message(MESG_ID_LIST_ADD_ID, [channel, listSize, exclude])]
      ensures writeInTimeslot == old(writeInTimeslot)
    {
      write := write + [Message(MESG_ID_LIST_ADD_ID, [channel, listSize, exclude])];
    }

    /** Channel 0, enable. */
    method OpenRxScanMode()
      modifies this
      ensures write == old(write) + [Message(MESG_OPEN_RX_SCAN_ID, [0, 1])]
      ensures writeInTimeslot == old(writeInTimeslot)
    {
      write := write + [Message(MESG_OPEN_RX_SCAN_ID, [0, 1])];
    }
  }
}
