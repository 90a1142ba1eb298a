/** The inbound half of the driver: the `decodeLoop` state machine that cuts the
    byte stream coming from the device into frames, hands each frame to the
    codec and publishes what the codec accepts (ant.go:119-168).

    The byte channel is modelled as the finite sequence of bytes that arrive
    before it is closed; the codec's `Decode` is the parameter `decode`, which
    may fail (`None`); whether a receiver is waiting when a frame is published
    is the oracle `ready`, asked once per decoded frame, in order. */
module Decoder {
  import opened Bytes
  import opened Messages

  /** How the decoding loop ends: the byte channel closed, or the frame buffer
      was too short for the header and indexing it panicked. */
  datatype Stop = Closed | IndexPanic

  /** Everything the codec accepted, in stream order, and how the loop ended. */
  datatype Scanned = Scanned(frames: seq<Message>, stop: Stop)

  /** `frames` decoded before the rest of the stream produced `r`. */
  function Then(frames: seq<Message>, r: Scanned): Scanned {
    Scanned(frames + r.frames, r.stop)
  }

  /** What one frame contributes: its message if the codec accepts it, nothing if not. */
  function Emitted(o: Option<Message>): (ms: seq<Message>)
    ensures |ms| <= 1
  {
    match o
    case None => []
    case Some(m) => [m]
  }

  /** The size of the frame buffer, `make([]byte, length+4)`: the sum is computed
      in uint8, so it wraps to 0..3 for the lengths 252..255. */
  function BufferLength(length: uint8): (n: uint8)
    ensures length < 252 ==> n == length + 4
    ensures length >= 252 ==> n == length - 252 && n < 4
  {
    (length as int + 4) % 0x100
  }

  /** The decoding loop as a function of the whole stream. Bytes other than the
      sync byte are skipped; after a sync byte and a length byte `L` the frame
      is the sync byte, `L` and the following bytes up to the buffer size; a
      stream that ends first ends the loop with nothing emitted for that frame. */
  function Scan(s: seq<uint8>, decode: seq<uint8> -> Option<Message>): Scanned
    decreases |s|
  {
    if |s| == 0 then Scanned([], Closed)
    else if s[0] != MESG_TX_SYNC then Scan(s[1..], decode)
    else if |s| == 1 then Scanned([], Closed)
    else
      var size := BufferLength(s[1]);
      if size < 2 then Scanned([], IndexPanic)
      else if |s| < size then Scanned([], Closed)
      else Then(Emitted(decode(s[..size])), Scan(s[size..], decode))
  }

  /** A complete frame of a length the buffer arithmetic handles: the sync byte,
      a length `L` below 252, and `L + 2` further bytes. */
  predicate WellFramed(f: seq<uint8>) {
    |f| >= 2 && f[0] == MESG_TX_SYNC && f[1] < 252 && |f| == f[1] as int + 4
  }

  /** Publication with drop-on-contention: decoded frame `k` reaches the reader
      exactly when a receiver was ready for it. */
  function Deliver(frames: seq<Message>, ready: nat -> bool): (out: seq<Message>)
    ensures |out| <= |frames|
  {
    if frames == [] then []
    else
      var k := |frames| - 1;
      Deliver(frames[..k], ready) + (if ready(k) then [frames[k]] else [])
  }

  /** The positions, in increasing order, of the first `n` decoded frames that
      found a ready receiver. */
  function ReadyIndices(n: nat, ready: nat -> bool): (ks: seq<nat>)
    ensures forall j :: 0 <= j < |ks| ==> ks[j] < n && ready(ks[j])
    ensures forall k :: 0 <= k < n && ready(k) ==> k in ks
    ensures forall i, j :: 0 <= i < j < |ks| ==> ks[i] < ks[j]
  {
    if n == 0 then []
    else ReadyIndices(n - 1, ready) + (if ready(n - 1) then [n - 1] else [])
  }

  /** The fill loop of the decoding loop: a buffer of `size` bytes whose first
      two are the sync and length bytes already read at `start`, completed with
      the bytes that follow them in the stream; `None` if the stream ends first. */
  method ReadFrame(stream: seq<uint8>, start: nat, size: nat) returns (frame: Option<seq<uint8>>)
    requires 2 <= size && start + 2 <= |stream| && stream[start] == MESG_TX_SYNC
    ensures frame.None? <==> |stream| < start + size
    ensures frame.Some? ==> frame.value == stream[start..start + size]
  {
    var buf := new uint8[size];
    buf[0] := MESG_TX_SYNC;
    buf[1] := stream[start + 1];
    var i := 2;
    assert buf[..i] == stream[start..start + i];
    while i < size
      invariant 2 <= i <= size && start + i <= |stream|
      invariant buf[..i] == stream[start..start + i]
    {
      if start + i == |stream| {
        return None;
      }
      buf[i] := stream[start + i];
      i := i + 1;
      assert buf[..i] == buf[..i - 1] + [buf[i - 1]];
    }
    assert buf[..] == buf[..i];
    return Some(buf[..]);
  }

  /** One step of `Scan` at offset `start` of a stream, in the terms the
      decoding loop works with, for every case but a complete frame. */
  lemma ScanAt(stream: seq<uint8>, start: nat, decode: seq<uint8> -> Option<Message>)
    requires start < |stream|
    ensures stream[start] != MESG_TX_SYNC ==>
      Scan(stream[start..], decode) == Scan(stream[start + 1..], decode)
    ensures stream[start] == MESG_TX_SYNC && start + 1 == |stream| ==>
      Scan(stream[start..], decode) == Scanned([], Closed)
    ensures stream[start] == MESG_TX_SYNC && start + 1 < |stream| ==>
      var size := BufferLength(stream[start + 1]);
      (size < 2 ==> Scan(stream[start..], decode) == Scanned([], IndexPanic)) &&
      (2 <= size && |stream| < start + size ==> Scan(stream[start..], decode) == Scanned([], Closed))
  {
    var s := stream[start..];
    assert s[1..] == stream[start + 1..];
  }

  /** `Scan` at offset `start` of a stream where a complete frame begins. */
  lemma ScanFrameAt(stream: seq<uint8>, start: nat, size: nat, decode: seq<uint8> -> Option<Message>)
    requires start + 1 < |stream| && stream[start] == MESG_TX_SYNC
    requires size == BufferLength(stream[start + 1]) && 2 <= size && start + size <= |stream|
    ensures Scan(stream[start..], decode)
         == Then(Emitted(decode(stream[start..start + size])), Scan(stream[start + size..], decode))
  {
    var s := stream[start..];
    assert s[1] == stream[start + 1];
    assert s[..size] == stream[start..start + size];
    assert s[size..] == stream[start + size..];
  }

  /** The decoding loop itself (ant.go:119-168). Returns the messages that
      reached the reader and how the loop ended. */
  method DecodeLoop(stream: seq<uint8>, decode: seq<uint8> -> Option<Message>, ready: nat -> bool)
    returns (published: seq<Message>, stop: Stop)
    ensures stop == Scan(stream, decode).stop
    ensures published == Deliver(Scan(stream, decode).frames, ready)
  {
    var pos := 0;
    var count := 0;
    ghost var decoded: seq<Message> := [];
    ghost var total := Scan(stream, decode);
    assert stream[0..] == stream;
    published := [];
    while true
      invariant pos <= |stream| && count == |decoded|
      invariant total == Then(decoded, Scan(stream[pos..], decode))
      invariant published == Deliver(decoded, ready)
      decreases |stream| - pos
    {
      // Wait for the sync byte.
      var start := pos;
      if pos == |stream| {
        assert decoded + [] == decoded;
        stop := Closed;
        return;
      }
      var sync := stream[pos];
      pos := pos + 1;
      if sync != MESG_TX_SYNC {
        assert Scan(stream[start..], decode) == Scan(stream[pos..], decode) by {
          ScanAt(stream, start, decode);
        }
        continue;
      }

      // Read the content length.
      if pos == |stream| {
        assert Scan(stream[start..], decode) == Scanned([], Closed) by {
          ScanAt(stream, start, decode);
        }
        assert decoded + [] == decoded;
        stop := Closed;
        return;
      }
      var length := stream[pos];
      pos := pos + 1;

      var size := (length as int + 4) % 0x100;
      if size < 2 {
        // `buf[0]` or `buf[1]` is out of range.
        assert Scan(stream[start..], decode) == Scanned([], IndexPanic) by {
          ScanAt(stream, start, decode);
        }
        assert decoded + [] == decoded;
        stop := IndexPanic;
        return;
      }
      var frame := ReadFrame(stream, start, size);
      if frame.None? {
        assert Scan(stream[start..], decode) == Scanned([], Closed) by {
          ScanAt(stream, start, decode);
        }
        assert decoded + [] == decoded;
        stop := Closed;
        return;
      }
      pos := start + size;
      assert Scan(stream[start..], decode)
          == Then(Emitted(decode(frame.value)), Scan(stream[pos..], decode)) by {
        assert stream[start + 1] == length;
        ScanFrameAt(stream, start, size, decode);
      }

      // Check message integrity, then publish without blocking.
      ghost var later := Scan(stream[pos..], decode);
      var msg := decode(frame.value);
      ThenThen(decoded, Emitted(msg), later);
      match msg {
        case None =>
          assert decoded + [] == decoded;
        case Some(m) =>
          DeliverSnoc(decoded, m, ready);
          decoded := decoded + [m];
          if ready(count) {
            published := published + [m];
          }
          count := count + 1;
      }
    }
  }

  /** Frames decoded in two stretches, one after the other. */
  lemma ThenThen(a: seq<Message>, b: seq<Message>, r: Scanned)
    ensures Then(a, Then(b, r)) == Then(a + b, r)
  {
    assert a + (b + r.frames) == (a + b) + r.frames;
  }

  /** Publishing one more decoded frame extends the delivered list by that
      frame exactly when a receiver is ready for it. */
  lemma DeliverSnoc(frames: seq<Message>, m: Message, ready: nat -> bool)
    ensures Deliver(frames + [m], ready) == Deliver(frames, ready) + (if ready(|frames|) then [m] else [])
  {
    assert (frames + [m])[..|frames|] == frames;
  }

  /** Delivery never reorders or duplicates: the published messages are the
      decoded frames at strictly increasing positions, namely those whose
      receiver was ready. */
  lemma {:induction false} DeliverIsOrderedSubsequence(frames: seq<Message>, ready: nat -> bool)
    ensures |Deliver(frames, ready)| == |ReadyIndices(|frames|, ready)|
    ensures forall j :: 0 <= j < |Deliver(frames, ready)| ==>
      Deliver(frames, ready)[j] == frames[ReadyIndices(|frames|, ready)[j]]
  {
    if frames != [] {
      var k := |frames| - 1;
      var prefix := frames[..k];
      DeliverIsOrderedSubsequence(prefix, ready);
      var earlier, ks := Deliver(prefix, ready), ReadyIndices(k, ready);
      assert Deliver(frames, ready) == earlier + (if ready(k) then [frames[k]] else []);
      assert ReadyIndices(|frames|, ready) == ks + (if ready(k) then [k] else []);
      forall j | 0 <= j < |earlier|
        ensures earlier[j] == frames[ks[j]]
      {
        assert ks[j] < k && prefix[ks[j]] == frames[ks[j]];
      }
    }
  }

  /** Bytes that are not the sync byte are consumed and produce nothing. */
  lemma {:induction false} SkipNoise(noise: seq<uint8>, s: seq<uint8>, decode: seq<uint8> -> Option<Message>)
    requires forall i :: 0 <= i < |noise| ==> noise[i] != MESG_TX_SYNC
    ensures Scan(noise + s, decode) == Scan(s, decode)
  {
    if noise != [] {
      assert (noise + s)[0] == noise[0];
      assert (noise + s)[1..] == noise[1..] + s;
      SkipNoise(noise[1..], s, decode);
    } else {
      assert noise + s == s;
    }
  }

  /** A complete frame is handed to the codec as exactly its `L + 4` bytes, in
      order; the message is emitted if the codec accepts it, nothing otherwise,
      and scanning resumes at the byte after the frame. */
  lemma FrameExact(f: seq<uint8>, rest: seq<uint8>, decode: seq<uint8> -> Option<Message>)
    requires WellFramed(f)
    ensures Scan(f + rest, decode) == Then(Emitted(decode(f)), Scan(rest, decode))
  {
    var s := f + rest;
    assert s[0] == f[0] && s[1] == f[1];
    assert s[..|f|] == f && s[|f|..] == rest;
  }

  /** A stream that ends while seeking sync, right after the sync byte, or in
      the middle of a frame emits nothing for the partial frame and ends with
      the channel closed. */
  lemma TruncatedStreamEmitsNothing(noise: seq<uint8>, partial: seq<uint8>, decode: seq<uint8> -> Option<Message>)
    requires forall i :: 0 <= i < |noise| ==> noise[i] != MESG_TX_SYNC
    requires partial == [] || (partial[0] == MESG_TX_SYNC &&
      (|partial| == 1 || (BufferLength(partial[1]) >= 2 && |partial| < BufferLength(partial[1]))))
    ensures Scan(noise + partial, decode) == Scanned([], Closed)
  {
    SkipNoise(noise, partial, decode);
  }

  /** A frame the codec rejects, followed by one it accepts, yields exactly the
      second frame's message: the decoder resynchronises after a bad frame. */
  lemma Resynchronizes(bad: seq<uint8>, good: seq<uint8>, m: Message, decode: seq<uint8> -> Option<Message>)
    requires WellFramed(bad) && decode(bad) == None
    requires WellFramed(good) && decode(good) == Some(m)
    ensures Scan(bad + good, decode) == Scanned([m], Closed)
  {
    FrameExact(bad, good, decode);
    FrameExact(good, [], decode);
    assert good + [] == good;
  }

  /** The frames of a list of messages, back to back. */
  function EncodeAll(ms: seq<Message>, encode: Message -> seq<uint8>): seq<uint8> {
    if ms == [] then [] else encode(ms[0]) + EncodeAll(ms[1..], encode)
  }

  /** Framing round trip: if the codec frames each message so that it decodes
      back to itself, the decoding loop recovers the whole list, in order, from
      the concatenated frames. */
  lemma {:induction false} StreamRoundTrip(ms: seq<Message>, encode: Message -> seq<uint8>, decode: seq<uint8> -> Option<Message>)
    requires forall m :: m in ms ==> WellFramed(encode(m)) && decode(encode(m)) == Some(m)
    ensures Scan(EncodeAll(ms, encode), decode) == Scanned(ms, Closed)
  {
    if ms != [] {
      assert ms[0] in ms;
      StreamRoundTrip(ms[1..], encode, decode);
      FrameExact(encode(ms[0]), EncodeAll(ms[1..], encode), decode);
      assert [ms[0]] + ms[1..] == ms;
    }
  }

  /** As written, a sync byte followed by the length 252 or 253 ends the loop
      with an index panic: the wrapped buffer has no room for the header. */
  lemma WrappedLengthPanics(length: uint8, rest: seq<uint8>, decode: seq<uint8> -> Option<Message>)
    requires length == 252 || length == 253
    ensures Scan([MESG_TX_SYNC, length] + rest, decode) == Scanned([], IndexPanic)
  {
    var s := [MESG_TX_SYNC, length] + rest;
    assert s[0] == MESG_TX_SYNC && s[1] == length;
  }

  /** As written, a sync byte followed by the length 254 or 255 hands the codec
      a buffer of only two or three bytes instead of 258 or 259, and scanning
      resumes right after that short buffer. */
  lemma ShortBufferDecoded(length: uint8, rest: seq<uint8>, decode: seq<uint8> -> Option<Message>)
    requires length == 254 || length == 255
    requires |rest| >= length - 254
    ensures var n := length - 252;
      Scan([MESG_TX_SYNC, length] + rest, decode)
      == Then(Emitted(decode([MESG_TX_SYNC, length] + rest[..n - 2])), Scan(rest[n - 2..], decode))
  {
    var s := [MESG_TX_SYNC, length] + rest;
    var n := length - 252;
    assert s[0] == MESG_TX_SYNC && s[1] == length;
    assert s[..n] == [MESG_TX_SYNC, length] + rest[..n - 2] && s[n..] == rest[n - 2..];
  }

  /** The decoding loop with the buffer size computed without wrap-around,
      `int(length) + 4`: no length can make it panic. */
  function CorrectedScan(s: seq<uint8>, decode: seq<uint8> -> Option<Message>): seq<Message>
    decreases |s|
  {
    if |s| == 0 then []
    else if s[0] != MESG_TX_SYNC then CorrectedScan(s[1..], decode)
    else if |s| < 2 || |s| < s[1] as int + 4 then []
    else Emitted(decode(s[..s[1] + 4])) + CorrectedScan(s[s[1] + 4..], decode)
  }

  /** With the corrected size, every frame of any length `L` is handed to the
      codec as exactly its `L + 4` bytes and scanning resumes after it. */
  lemma CorrectedFrameExact(f: seq<uint8>, rest: seq<uint8>, decode: seq<uint8> -> Option<Message>)
    requires |f| >= 2 && f[0] == MESG_TX_SYNC && |f| == f[1] as int + 4
    ensures CorrectedScan(f + rest, decode) == Emitted(decode(f)) + CorrectedScan(rest, decode)
  {
    var s := f + rest;
    assert s[0] == f[0] && s[1] == f[1];
    assert s[..|f|] == f && s[|f|..] == rest;
  }

  /** On streams where no sync byte is followed by a byte of 252 or more, the
      loop as written and the corrected loop emit the same frames, and the
      written one never panics: only the length byte after a sync byte can
      make the buffer size wrap. */
  lemma {:induction false} ScanAgreesBelowWrap(s: seq<uint8>, decode: seq<uint8> -> Option<Message>)
    requires forall i :: 0 <= i < |s| - 1 && s[i] == MESG_TX_SYNC ==> s[i + 1] < 252
    ensures Scan(s, decode) == Scanned(CorrectedScan(s, decode), Closed)
    decreases |s|
  {
    if |s| > 0 {
      if s[0] != MESG_TX_SYNC {
        ScanAgreesBelowWrap(s[1..], decode);
      } else if |s| >= 2 && |s| >= s[1] + 4 {
        ScanAgreesBelowWrap(s[s[1] + 4..], decode);
      }
    }
  }
}
