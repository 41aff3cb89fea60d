/** Length-prefixed frames over a byte stream. */
module Framing {
  import opened Wrappers
  import Bits
  import opened NodeIds

  const MAX_FRAME: nat := 10 * 1024 * 1024
  const LENGTH_LIMIT: nat := 0x1_0000_0000

  /** What `send` writes. */
  function Frame(data: Bytes): Result<Bytes> {
    if |data| >= LENGTH_LIMIT then Err(OverflowError) else Ok(ToBytes(|data|, 4) + data)
  }

  /** What `receive` makes of the bytes that are still to come, and what it leaves of them. */
  function Receive(s: Bytes): (Result<Bytes>, Bytes) {
    if |s| < 4 then (Err(IncompleteReadError), [])
    else
      var size := FromBytes(s[..4]);
      if size > MAX_FRAME then (Err(ValueError), s[4..])
      else if |s| - 4 < size then (Err(IncompleteReadError), [])
      else (Ok(s[4..4 + size]), s[4 + size..])
  }

  function SendAll(frames: seq<Bytes>): Result<Bytes> {
    if frames == [] then Ok([])
    else
      var first :- Frame(frames[0]);
      var rest :- SendAll(frames[1..]);
      Ok(first + rest)
  }

  /** n receives in a row, and what they leave. */
  function ReceiveMany(s: Bytes, n: nat): Result<(seq<Bytes>, Bytes)> {
    if n == 0 then Ok(([], s))
    else
      var (first, s') := Receive(s);
      if first.Err? then Err(first.error)
      else
        var rest :- ReceiveMany(s', n - 1);
        Ok(([first.value] + rest.0, rest.1))
  }

  function Concat(chunks: seq<Bytes>): Bytes {
    if chunks == [] then [] else chunks[0] + Concat(chunks[1..])
  }

  lemma LengthPrefix(n: nat)
    requires n < LENGTH_LIMIT
    ensures FromBytes(ToBytes(n, 4)) == n
  {
    Pow2Byte(0);
    Pow2Byte(8);
    Pow2Byte(16);
    Pow2Byte(24);
    assert Bits.Pow2(32) == LENGTH_LIMIT;
    FromBytesInvertsToBytes(n, 4);
  }

  /** A frame is the length of its data in four bytes, most significant first, and the data; a length that
      does not fit is an error. */
  lemma FrameBytes(data: Bytes)
    ensures |data| < 0x1_0000_0000 ==>
              Frame(data) == Ok([|data| / 0x100_0000, |data| / 0x1_0000 % 256, |data| / 256 % 256, |data| % 256] + data)
    ensures |data| >= 0x1_0000_0000 ==> Frame(data) == Err(OverflowError)
  {
    if |data| < 0x1_0000_0000 {
      LengthBytes(|data|);
    }
  }

  lemma LengthBytes(n: nat)
    requires n < 0x1_0000_0000
    ensures ToBytes(n, 4) == [n / 0x100_0000, n / 0x1_0000 % 256, n / 256 % 256, n % 256]
  {
    assert ToBytes(n / 0x100_0000, 1) == [n / 0x100_0000] by {
      assert ToBytes(n / 0x100_0000 / 256, 0) == [];
    }
    assert n / 256 / 256 == n / 0x1_0000 && n / 0x1_0000 / 256 == n / 0x100_0000;
    assert ToBytes(n / 0x1_0000, 2) == [n / 0x100_0000, n / 0x1_0000 % 256];
    assert ToBytes(n / 256, 3) == [n / 0x100_0000, n / 0x1_0000 % 256, n / 256 % 256];
    assert ToBytes(n, 4) == [n / 0x100_0000, n / 0x1_0000 % 256, n / 256 % 256, n % 256];
  }

  /** A frame in front of anything is received exactly when it is at most 10 MiB; a longer one, though
      it can be sent, is refused. */
  lemma FrameReceivedIff(data: Bytes, rest: Bytes)
    requires |data| < LENGTH_LIMIT
    ensures Frame(data).Ok?
    ensures Receive(Frame(data).value + rest)
            == if |data| <= 10_485_760 then (Ok(data), rest) else (Err(ValueError), data + rest)
  {
    var prefix := ToBytes(|data|, 4);
    var s := Frame(data).value + rest;
    LengthPrefix(|data|);
    assert s[..4] == prefix;
    assert s[4..] == data + rest;
    if |data| <= MAX_FRAME {
      assert s[4..4 + |data|] == data;
      assert s[4 + |data|..] == rest;
    }
  }

  /** A frame cut short is never mistaken for a frame. */
  lemma TruncatedFrame(data: Bytes, n: nat)
    requires |data| <= MAX_FRAME && n < |Frame(data).value|
    ensures Receive(Frame(data).value[..n]).0 == Err(IncompleteReadError)
  {
    var s := Frame(data).value[..n];
    LengthPrefix(|data|);
    if n >= 4 {
      assert s[..4] == ToBytes(|data|, 4);
    }
  }

  lemma {:induction false} ReceiveManyInverts(frames: seq<Bytes>, rest: Bytes)
    requires forall i :: 0 <= i < |frames| ==> |frames[i]| <= MAX_FRAME
    ensures SendAll(frames).Ok?
    ensures ReceiveMany(SendAll(frames).value + rest, |frames|) == Ok((frames, rest))
  {
    if frames == [] {
      assert SendAll(frames).value + rest == rest;
    } else {
      var later := frames[1..];
      assert frames == [frames[0]] + later;
      ReceiveManyInverts(later, rest);
      var first, tail := Frame(frames[0]).value, SendAll(later).value;
      assert SendAll(frames).value + rest == first + (tail + rest) by {
        assert SendAll(frames).value == first + tail;
      }
      FrameReceivedIff(frames[0], tail + rest);
    }
  }

  // ---------------------------------------------------------------------------
  // The stream objects
  // ---------------------------------------------------------------------------

  /** A stream reader: what has arrived and is unread, and the chunks still to arrive before the end. */
  class StreamReader {
    var buffer: Bytes
    var arrivals: seq<Bytes>

    constructor (arrivals: seq<Bytes>)
      ensures Remaining() == Concat(arrivals)
    {
      buffer := [];
      this.arrivals := arrivals;
    }

    ghost function Remaining(): Bytes
      reads this
    {
      buffer + Concat(arrivals)
    }

    /** readexactly: waits for n bytes, or drops what there is when the stream ends first. */
    method ReadExactly(n: nat) returns (r: Result<Bytes>)
      modifies this
      ensures var s := old(Remaining());
              if |s| < n then r == Err(IncompleteReadError) && Remaining() == []
              else r == Ok(s[..n]) && Remaining() == s[n..]
    {
      while |buffer| < n && arrivals != []
        invariant Remaining() == old(Remaining())
        decreases |arrivals|
      {
        ghost var was := Remaining();
        buffer, arrivals := buffer + arrivals[0], arrivals[1..];
        assert Remaining() == was;
      }
      if |buffer| < n {
        assert Remaining() == buffer;
        buffer := [];
        return Err(IncompleteReadError);
      }
      ghost var s := Remaining();
      assert s[..n] == buffer[..n] && s[n..] == buffer[n..] + Concat(arrivals);
      r := Ok(buffer[..n]);
      buffer := buffer[n..];
    }
  }

  class SecureNetworkProtocol {
    var reader: StreamReader?
    /** What has been written, or None when there is no connection to write to. */
    var written: Option<Bytes>

    constructor (reader: StreamReader?, connected: bool)
      ensures this.reader == reader && written == if connected then Some([]) else None
    {
      this.reader := reader;
      written := if connected then Some([]) else None;
    }

    method Send(data: Bytes) returns (r: Result<()>)
      modifies this`written
      ensures old(written).None? ==> r == Err(ConnectionError) && written == None
      ensures old(written).Some? ==>
                match Frame(data)
                case Ok(bytes) => r == Ok(()) && written == Some(old(written).value + bytes)
                case Err(e) => r == Err(e) && written == old(written)
    {
      if written.None? {
        return Err(ConnectionError);
      }
      if |data| >= LENGTH_LIMIT {
        return Err(OverflowError);
      }
      written := Some(written.value + (ToBytes(|data|, 4) + data));
      return Ok(());
    }

    method ReceiveFrame() returns (r: Result<Bytes>)
      modifies reader
      ensures reader == null ==> r == Err(ConnectionError)
      ensures reader != null ==> (r, reader.Remaining()) == Receive(old(reader.Remaining()))
    {
      if reader == null {
        return Err(ConnectionError);
      }
      ghost var s := reader.Remaining();
      var raw := reader.ReadExactly(4);
      if raw.Err? {
        return raw;
      }
      var size := FromBytes(raw.value);
      if size > MAX_FRAME {
        return Err(ValueError);
      }
      r := reader.ReadExactly(size);
      if r.Ok? {
        assert s[4..][..size] == s[4..4 + size] && s[4..][size..] == s[4 + size..];
      }
    }
  }

  // ---------------------------------------------------------------------------
  // From one end to the other
  // ---------------------------------------------------------------------------

  ghost predicate AllFit(frames: seq<Bytes>) {
    forall i :: 0 <= i < |frames| ==> |frames[i]| <= MAX_FRAME
  }

  lemma {:induction false} SendAllAppend(frames: seq<Bytes>, data: Bytes)
    requires AllFit(frames) && |data| <= MAX_FRAME
    ensures SendAll(frames).Ok? && SendAll(frames + [data]).Ok?
    ensures SendAll(frames + [data]).value == SendAll(frames).value + Frame(data).value
  {
    if frames == [] {
      assert [data][1..] == [];
      assert [] + [data] == [data];
    } else {
      var rest := frames[1..];
      assert (frames + [data])[1..] == rest + [data];
      SendAllAppend(rest, data);
      assert (frames + [data])[0] == frames[0];
    }
  }

  /** Sending one frame after the other writes their frames back to back. */
  method SendFrames(sender: SecureNetworkProtocol, frames: seq<Bytes>)
    requires sender.written == Some([]) && AllFit(frames)
    modifies sender
    ensures SendAll(frames).Ok? && sender.written == Some(SendAll(frames).value)
  {
    for i := 0 to |frames|
      invariant SendAll(frames[..i]).Ok? && sender.written == Some(SendAll(frames[..i]).value)
    {
      assert frames[..i + 1] == frames[..i] + [frames[i]];
      SendAllAppend(frames[..i], frames[i]);
      var r := sender.Send(frames[i]);
    }
    assert frames[..|frames|] == frames;
  }

  /** Receiving from a stream that holds frames back to back, in whatever chunks it arrives, returns
      exactly those frames and leaves exactly what follows them. */
  method ReceiveFrames(chunks: seq<Bytes>, n: nat, ghost frames: seq<Bytes>, ghost rest: Bytes)
    returns (received: seq<Bytes>, reader: StreamReader)
    requires n == |frames| && AllFit(frames)
    requires SendAll(frames).Ok? && Concat(chunks) == SendAll(frames).value + rest
    ensures received == frames
    ensures fresh(reader) && reader.Remaining() == rest
  {
    reader := new StreamReader(chunks);
    var receiver := new SecureNetworkProtocol(reader, false);
    received := [];
    for i := 0 to n
      invariant fresh(reader) && fresh(receiver) && receiver.reader == reader
      invariant received == frames[..i]
      invariant SendAll(frames[i..]).Ok? && reader.Remaining() == SendAll(frames[i..]).value + rest
    {
      ghost var later := frames[i + 1..];
      assert frames[i..][0] == frames[i] && frames[i..][1..] == later;
      assert SendAll(frames[i..]).value + rest == Frame(frames[i]).value + (SendAll(later).value + rest);
      FrameReceivedIff(frames[i], SendAll(later).value + rest);
      var r := receiver.ReceiveFrame();
      received := received + [r.value];
    }
    assert SendAll(frames[n..]).value + rest == rest;
  }

  /** Any sequence of frames of at most 10 MiB each arrives exactly, however the network cuts what the
      sender wrote into chunks. */
  method FramesSurviveChunking(frames: seq<Bytes>, cut: Bytes -> seq<Bytes>) returns (received: seq<Bytes>)
    requires AllFit(frames)
    requires forall stream :: Concat(cut(stream)) == stream
    ensures received == frames
  {
    var sender := new SecureNetworkProtocol(null, true);
    SendFrames(sender, frames);
    var chunks := cut(sender.written.value);
    ghost var reader;
    assert SendAll(frames).value + [] == SendAll(frames).value;
    received, reader := ReceiveFrames(chunks, |frames|, frames, []);
  }
}
