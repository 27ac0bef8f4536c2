/**
  Frames on a TCP connection: a four-byte little-endian length and the encoded message.
  The message encoding is a parameter.
 */
module Framing {

  import opened Basics
  import opened Bytes

  const MAX_PROTO_SIZE := 4096
  const PREFIX_SIZE := 4

  datatype Error = FrameLength | FrameTooLarge | InvalidFrame | Unencodable | BufferFull | EndOfStream

  datatype Result<T> = Ok(value: T) | Err(error: Error)

  /** A message encoding: encoding may fail, and the size is known without encoding. */
  datatype Codec<!M> = Codec(marshal: M -> Option<seq<Byte>>, unmarshal: seq<Byte> -> Option<M>, size: M -> nat)

  /** What is asked of the encoding of one message: it has the size announced and decodes
      to the message. */
  ghost predicate Encodable<M>(c: Codec<M>, m: M) {
    && c.marshal(m).Some?
    && |c.marshal(m).value| == c.size(m)
    && c.unmarshal(c.marshal(m).value) == Some(m)
  }

  /** Exactly the sizes from 1 to 4096 are legal; none and too many are told apart. */
  function ValidateFrameSize(size: nat): (r: Option<Error>)
    ensures r.None? <==> 1 <= size <= 4096
    ensures r == Some(FrameLength) <==> size == 0
    ensures r == Some(FrameTooLarge) <==> size > 4096
  {
    if size == 0 then Some(FrameLength)
    else if size > MAX_PROTO_SIZE then Some(FrameTooLarge)
    else None
  }

  // Specification.

  function LittleEndian(n: nat): seq<Byte>
    requires n < 0x1_0000_0000
  {
    [n % 256, n / 256 % 256, n / 65536 % 256, n / 16777216]
  }

  function Uint32(b: seq<Byte>): nat
    requires |b| == PREFIX_SIZE
  {
    (b[0] as int) + 256 * (b[1] as int) + 65536 * (b[2] as int) + 16777216 * (b[3] as int)
  }

  lemma PrefixRoundTrip(n: nat)
    requires n < 0x1_0000_0000
    ensures Uint32(LittleEndian(n)) == n
  {
    assert n / 65536 == n / 256 / 256;
    assert n / 16777216 == n / 65536 / 256;
  }

  /** The least significant byte comes first. */
  lemma PrefixLayout(n: nat)
    requires n < 0x1_0000_0000
    ensures |LittleEndian(n)| == 4 && LittleEndian(n)[0] == n % 256
    ensures n < 256 ==> LittleEndian(n) == [n, 0, 0, 0]
    ensures 256 <= n <= MAX_PROTO_SIZE ==> LittleEndian(n) == [n % 256, n / 256, 0, 0]
  {
  }

  function Frame(body: seq<Byte>): seq<Byte>
    requires |body| <= MAX_PROTO_SIZE
  {
    LittleEndian(|body|) + body
  }

  ghost predicate Sendable<M>(c: Codec<M>, m: M) {
    Encodable(c, m) && ValidateFrameSize(c.size(m)).None?
  }

  ghost predicate AllSendable<M>(c: Codec<M>, ms: seq<M>) {
    forall i :: 0 <= i < |ms| ==> Sendable(c, ms[i])
  }

  function Frames<M>(c: Codec<M>, ms: seq<M>): seq<Byte>
    requires AllSendable(c, ms)
  {
    if ms == [] then [] else Frame(c.marshal(ms[0]).value) + Frames(c, ms[1..])
  }

  /** The first frame of a stream, and what follows. A bad length leaves the stream as it
      is; a frame cut short or not decodable loses its prefix. */
  function Parse<M>(c: Codec<M>, stream: seq<Byte>): (r: (Result<M>, seq<Byte>))
    ensures r.0.Ok? ==> |r.1| < |stream|
  {
    if |stream| < PREFIX_SIZE then (Err(EndOfStream), stream)
    else
      var length, rest := Uint32(stream[..PREFIX_SIZE]), stream[PREFIX_SIZE..];
      var bad := ValidateFrameSize(length);
      if bad.Some? then (Err(bad.value), stream)
      else if |rest| < length then (Err(EndOfStream), rest)
      else
        var m := c.unmarshal(rest[..length]);
        if m.None? then (Err(InvalidFrame), rest) else (Ok(m.value), rest[length..])
  }

  /** All messages of a stream, and the error that ends it. */
  function ParseAll<M>(c: Codec<M>, stream: seq<Byte>): (seq<M>, Error)
    decreases |stream|
  {
    var (m, rest) := Parse(c, stream);
    if m.Err? then ([], m.error)
    else
      var (ms, e) := ParseAll(c, rest);
      ([m.value] + ms, e)
  }

  lemma ParseFrame<M>(c: Codec<M>, m: M, rest: seq<Byte>)
    requires Sendable(c, m)
    ensures Parse(c, Frame(c.marshal(m).value) + rest) == (Ok(m), rest)
  {
    var body := c.marshal(m).value;
    var stream := Frame(body) + rest;
    PrefixRoundTrip(|body|);
    assert stream[..PREFIX_SIZE] == LittleEndian(|body|);
    assert stream[PREFIX_SIZE..] == body + rest;
    assert (body + rest)[..|body|] == body;
    assert (body + rest)[|body|..] == rest;
  }

  /** What becomes of a stream that does not begin with a whole legal frame: a bad length is
      reported and left where it is, a frame cut short or undecodable loses its prefix. */
  lemma ParseRefuses<M>(c: Codec<M>, n: nat, rest: seq<Byte>)
    requires n < 0x1_0000_0000
    ensures n == 0 ==> Parse(c, LittleEndian(n) + rest) == (Err(FrameLength), LittleEndian(n) + rest)
    ensures n > 4096 ==> Parse(c, LittleEndian(n) + rest) == (Err(FrameTooLarge), LittleEndian(n) + rest)
    ensures 1 <= n <= 4096 && |rest| < n ==> Parse(c, LittleEndian(n) + rest) == (Err(EndOfStream), rest)
    ensures 1 <= n <= 4096 && n <= |rest| && c.unmarshal(rest[..n]).None? ==>
              Parse(c, LittleEndian(n) + rest) == (Err(InvalidFrame), rest)
    ensures |rest| < 4 ==> Parse(c, rest) == (Err(EndOfStream), rest)
  {
    var stream := LittleEndian(n) + rest;
    PrefixRoundTrip(n);
    assert stream[..PREFIX_SIZE] == LittleEndian(n);
    assert stream[PREFIX_SIZE..] == rest;
  }

  /** The messages read so far, the last result and what the rest holds. */
  function Finish<M>(c: Codec<M>, ms: seq<M>, r: Result<M>, rest: seq<Byte>): (seq<M>, Error) {
    if r.Err? then (ms, r.error)
    else (ms + [r.value] + ParseAll(c, rest).0, ParseAll(c, rest).1)
  }

  lemma ParseAllStep<M>(c: Codec<M>, ms: seq<M>, stream: seq<Byte>)
    ensures Finish(c, ms, Parse(c, stream).0, Parse(c, stream).1)
         == (ms + ParseAll(c, stream).0, ParseAll(c, stream).1)
  {
    var (r, rest) := Parse(c, stream);
    if r.Err? {
      assert ms + [] == ms;
    } else {
      assert ms + [r.value] + ParseAll(c, rest).0 == ms + ([r.value] + ParseAll(c, rest).0);
    }
  }

  /** A frame in front of a stream is one more message in front of the others. */
  lemma FrameAhead<M>(c: Codec<M>, m: M, tail: seq<Byte>)
    requires Sendable(c, m)
    ensures ParseAll(c, Frame(c.marshal(m).value) + tail) == ([m] + ParseAll(c, tail).0, ParseAll(c, tail).1)
  {
    ParseFrame(c, m, tail);
  }

  lemma FramesCons<M>(c: Codec<M>, ms: seq<M>, rest: seq<Byte>)
    requires AllSendable(c, ms) && ms != []
    ensures AllSendable(c, ms[1..])
    ensures Frames(c, ms) + rest == Frame(c.marshal(ms[0]).value) + (Frames(c, ms[1..]) + rest)
  {
  }

  /** The stream reads as these messages and then as the rest does. */
  predicate ReadsAs<M(==)>(c: Codec<M>, stream: seq<Byte>, ms: seq<M>, rest: seq<Byte>) {
    ParseAll(c, stream) == (ms + ParseAll(c, rest).0, ParseAll(c, rest).1)
  }

  lemma ReadsAsCons<M>(c: Codec<M>, m: M, tail: seq<Byte>, ms: seq<M>, rest: seq<Byte>)
    requires Sendable(c, m) && ReadsAs(c, tail, ms, rest)
    ensures ReadsAs(c, Frame(c.marshal(m).value) + tail, [m] + ms, rest)
  {
    FrameAhead(c, m, tail);
    assert [m] + (ms + ParseAll(c, rest).0) == [m] + ms + ParseAll(c, rest).0;
  }

  /** Any sequence of sendable messages reads back as itself, whatever comes after it. */
  lemma {:induction false} FramesRoundTrip<M>(c: Codec<M>, ms: seq<M>, rest: seq<Byte>)
    requires AllSendable(c, ms)
    ensures ReadsAs(c, Frames(c, ms) + rest, ms, rest)
    decreases |ms|
  {
    if ms == [] {
      assert Frames(c, ms) + rest == rest;
      assert ms + ParseAll(c, rest).0 == ParseAll(c, rest).0;
    } else {
      FramesCons(c, ms, rest);
      FramesRoundTrip(c, ms[1..], rest);
      ReadsAsCons(c, ms[0], Frames(c, ms[1..]) + rest, ms[1..], rest);
      assert ms == [ms[0]] + ms[1..];
    }
  }

  /** The frames of a sequence of messages read back as that sequence. */
  lemma FramesReadBack<M>(c: Codec<M>, ms: seq<M>)
    requires AllSendable(c, ms)
    ensures ParseAll(c, Frames(c, ms)) == (ms, EndOfStream)
  {
    FramesRoundTrip(c, ms, []);
    assert Frames(c, ms) + [] == Frames(c, ms) && ms + [] == ms;
  }

  lemma {:induction false} FramesSnoc<M>(c: Codec<M>, ms: seq<M>, m: M)
    requires AllSendable(c, ms) && Sendable(c, m)
    ensures Frames(c, ms + [m]) == Frames(c, ms) + Frame(c.marshal(m).value)
    decreases |ms|
  {
    if ms == [] {
      assert ms + [m] == [m];
      assert Frames(c, [m]) == Frame(c.marshal(m).value) + Frames(c, []);
    } else {
      assert (ms + [m])[1..] == ms[1..] + [m];
      FramesSnoc(c, ms[1..], m);
    }
  }

  // The buffered writer.

  /** `buf[..n]` waits to be sent; what is beyond n is scratch space, which the append path
      builds its frame in. */
  class Writer {
    const buf: array<Byte>
    var n: nat
    var sent: seq<Byte>

    ghost predicate Valid()
      reads this
    {
      n <= buf.Length && buf.Length > 0
    }

    /** All bytes written, in order: those sent and those waiting. */
    ghost function Stream(): seq<Byte>
      requires Valid()
      reads this, buf
    {
      sent + buf[..n]
    }

    constructor (size: nat)
      requires size > 0
      ensures Valid() && fresh(buf) && buf.Length == size && Stream() == []
    {
      buf := new Byte[size](_ => 0);
      n := 0;
      sent := [];
    }

    method Flush()
      requires Valid()
      modifies this
      ensures Valid() && n == 0 && Stream() == old(Stream())
    {
      sent := sent + buf[..n];
      n := 0;
    }

    /** Puts bytes at the given place of the buffer. */
    method Copy(at: nat, p: seq<Byte>)
      requires at + |p| <= buf.Length
      modifies buf
      ensures buf[..at] == old(buf[..at])
      ensures buf[at..at + |p|] == p
    {
      for i := 0 to |p|
        invariant buf[..at] == old(buf[..at])
        invariant buf[at..at + i] == p[..i]
      {
        buf[at + i] := p[i];
        assert buf[at..at + i + 1] == buf[at..at + i] + [p[i]];
      }
    }

    /** Adds bytes that fit. */
    method Put(p: seq<Byte>)
      requires Valid() && |p| <= buf.Length - n
      modifies this, buf
      ensures Valid() && n == old(n) + |p| && Stream() == old(Stream()) + p
    {
      Copy(n, p);
      assert buf[..n + |p|] == buf[..n] + buf[n..n + |p|];
      n := n + |p|;
    }

    /** Fills the buffer and sends it until the rest fits; an empty buffer is bypassed. */
    method Write(p: seq<Byte>)
      requires Valid()
      modifies this, buf
      ensures Valid() && Stream() == old(Stream()) + p
    {
      var rest := p;
      while |rest| > buf.Length - n
        invariant Valid()
        invariant Stream() + rest == old(Stream()) + p
        decreases |rest|, n
      {
        if n == 0 {
          sent := sent + rest;
          rest := [];
        } else {
          var k := buf.Length - n;
          assert rest == rest[..k] + rest[k..];
          Put(rest[..k]);
          Flush();
          rest := rest[k..];
        }
      }
      Put(rest);
    }

    /** Encodes, then writes prefix and body. */
    method WriteFramePlain<M>(c: Codec<M>, m: M) returns (r: Option<Error>)
      requires Valid()
      modifies this, buf
      ensures Valid()
      ensures c.marshal(m).None? ==> r == Some(Unencodable)
      ensures c.marshal(m).Some? ==> r == ValidateFrameSize(|c.marshal(m).value|)
      ensures Stream() == old(Stream()) + if r.None? then Frame(c.marshal(m).value) else []
    {
      var body := c.marshal(m);
      if body.None? {
        return Some(Unencodable);
      }
      r := ValidateFrameSize(|body.value|);
      if r.Some? {
        return;
      }
      Write(LittleEndian(|body.value|));
      Write(body.value);
    }

    /** Builds the frame in the scratch space when it fits there, after making room. */
    method WriteFrameAppend<M>(c: Codec<M>, m: M) returns (r: Option<Error>)
      requires Valid()
      requires c.marshal(m).Some? ==> |c.marshal(m).value| == c.size(m)
      modifies this, buf
      ensures Valid()
      ensures ValidateFrameSize(c.size(m)).Some? ==> r == ValidateFrameSize(c.size(m))
      ensures ValidateFrameSize(c.size(m)).None? ==>
                r == if c.marshal(m).None? then Some(Unencodable) else None
      ensures Stream() == old(Stream()) + if r.None? then Frame(c.marshal(m).value) else []
    {
      var length := c.size(m);
      r := ValidateFrameSize(length);
      if r.Some? {
        return;
      }
      if buf.Length - n < PREFIX_SIZE + length {
        Flush();
      }
      var body := c.marshal(m);
      if body.None? {
        return Some(Unencodable);
      }
      var frame := LittleEndian(length) + body.value;
      if |frame| <= buf.Length - n {
        Copy(n, frame);
        frame := buf[n..n + |frame|];
      }
      Write(frame);
    }

    /** The path depends on the codec. A sendable message goes out on either, with the
        same bytes. */
    method WriteFrame<M>(c: Codec<M>, m: M, append: bool) returns (r: Option<Error>)
      requires Valid() && Sendable(c, m)
      modifies this, buf
      ensures Valid() && r.None? && Stream() == old(Stream()) + Frame(c.marshal(m).value)
    {
      if append {
        r := WriteFrameAppend(c, m);
      } else {
        r := WriteFramePlain(c, m);
      }
    }
  }

  /** Any messages written one after another, each by either path and from any state of
      the writer, add exactly their frames to the stream. */
  method WriteAll<M>(w: Writer, c: Codec<M>, ms: seq<M>, append: seq<bool>)
    requires w.Valid() && |append| == |ms|
    requires AllSendable(c, ms)
    modifies w, w.buf
    ensures w.Valid() && w.Stream() == old(w.Stream()) + Frames(c, ms)
  {
    ghost var before := w.Stream();
    for i := 0 to |ms|
      invariant w.Valid() && w.Stream() == before + Frames(c, ms[..i])
    {
      assert Sendable(c, ms[i]);
      var _ := w.WriteFrame(c, ms[i], append[i]);
      FramesSnoc(c, ms[..i], ms[i]);
      assert ms[..i + 1] == ms[..i] + [ms[i]];
    }
    assert ms[..|ms|] == ms;
  }

  // The buffered reader.

  /** `buffered` holds at most `size` bytes; `incoming` is what the connection will still
      deliver, one piece per read, before it ends. */
  class Reader {
    const size: nat
    var buffered: seq<Byte>
    var incoming: seq<seq<Byte>>

    ghost predicate Valid()
      reads this
    {
      |buffered| <= size
    }

    ghost function Remaining(): seq<Byte>
      reads this
    {
      buffered + Flat(incoming)
    }

    constructor (size: nat, incoming: seq<seq<Byte>>)
      ensures Valid() && this.size == size && Remaining() == Flat(incoming)
    {
      this.size := size;
      buffered := [];
      this.incoming := incoming;
    }

    /** One read into the free part of the buffer. */
    method Fill()
      requires Valid() && incoming != []
      modifies this
      ensures Valid() && Remaining() == old(Remaining())
      ensures |incoming| < old(|incoming|) || (|incoming| == old(|incoming|) && |buffered| == size)
    {
      var k := if |incoming[0]| < size - |buffered| then |incoming[0]| else size - |buffered|;
      var piece := incoming[0];
      assert piece == piece[..k] + piece[k..];
      buffered := buffered + piece[..k];
      incoming := if k == |piece| then incoming[1..] else [piece[k..]] + incoming[1..];
    }

    /** The next n bytes, left in place. */
    method Peek(n: nat) returns (r: Result<seq<Byte>>)
      requires Valid()
      modifies this
      ensures Valid() && Remaining() == old(Remaining())
      ensures n > size ==> r == Err(BufferFull)
      ensures n <= size ==>
                r == if |Remaining()| < n then Err(EndOfStream) else Ok(Remaining()[..n])
      ensures r.Ok? ==> |buffered| >= n
    {
      while |buffered| < n && |buffered| < size && incoming != []
        invariant Valid() && Remaining() == old(Remaining())
        decreases |incoming|, size - |buffered|
      {
        Fill();
      }
      if n > size {
        return Err(BufferFull);
      }
      if |buffered| < n {
        return Err(EndOfStream);
      }
      assert Remaining()[..n] == buffered[..n];
      return Ok(buffered[..n]);
    }

    method Discard(n: nat)
      requires Valid() && n <= |buffered|
      modifies this
      ensures Valid() && Remaining() == old(Remaining())[n..]
    {
      buffered := buffered[n..];
    }

    /** Reading one frame does what the specification says of the bytes still to come,
        however they arrive. A buffer that holds a largest message suffices, since the
        prefix is discarded before the body is looked at. */
    method ReadFrame<M>(c: Codec<M>) returns (r: Result<M>)
      requires Valid() && size >= MAX_PROTO_SIZE
      modifies this
      ensures Valid() && (r, Remaining()) == Parse(c, old(Remaining()))
      ensures r != Err(BufferFull)
    {
      var prefix := Peek(PREFIX_SIZE);
      if prefix.Err? {
        return Err(prefix.error);
      }
      var length := Uint32(prefix.value);
      var bad := ValidateFrameSize(length);
      if bad.Some? {
        return Err(bad.value);
      }
      Discard(PREFIX_SIZE);
      var body := Peek(length);
      if body.Err? {
        return Err(body.error);
      }
      var m := c.unmarshal(body.value);
      if m.None? {
        return Err(InvalidFrame);
      }
      Discard(length);
      return Ok(m.value);
    }

    /** The read loop of a connection: for any pieces the stream arrives in, the messages
        read are those of the stream. */
    method ReadAll<M>(c: Codec<M>) returns (ms: seq<M>, end: Error)
      requires Valid() && size >= MAX_PROTO_SIZE
      modifies this
      ensures (ms, end) == ParseAll(c, old(Remaining()))
    {
      ms := [];
      ParseAllStep(c, ms, Remaining());
      assert ms + ParseAll(c, Remaining()).0 == ParseAll(c, Remaining()).0;
      var r := ReadFrame(c);
      while r.Ok?
        invariant Valid()
        invariant Finish(c, ms, r, Remaining()) == ParseAll(c, old(Remaining()))
        decreases r.Ok?, |Remaining()|
      {
        ms := ms + [r.value];
        ParseAllStep(c, ms, Remaining());
        r := ReadFrame(c);
      }
      end := r.error;
    }
  }
}

/**
  Reading one WebSocket message into a fixed buffer. The message arrives in pieces of any
  size, empty ones included, and its end may come with the last bytes or after them.
 */
module BoundedRead {

  import opened Bytes

  datatype End = Eof | Failed

  datatype Outcome = Body(bytes: seq<Byte>) | TooLarge | ReadError

  /** What the reader returns besides the bytes: nothing special, or how the message ended. */
  datatype Signal = Continue | Ended(end: End)

  /** Read everything, then reject what is over the limit. Over the limit wins over a
      failure behind it. */
  function ReadThenReject(whole: seq<Byte>, end: End, limit: nat): Outcome {
    if |whole| > limit then TooLarge
    else if end.Eof? then Body(whole)
    else ReadError
  }

  class Source {
    var pieces: seq<seq<Byte>>
    const end: End
    const together: bool

    constructor (pieces: seq<seq<Byte>>, end: End, together: bool)
      ensures this.pieces == pieces && this.end == end && this.together == together
    {
      this.pieces := pieces;
      this.end := end;
      this.together := together;
    }

    /** At most `max` bytes of the next piece. The end is told only when nothing is left. */
    method Read(max: nat) returns (bytes: seq<Byte>, signal: Signal)
      requires max > 0
      modifies this
      ensures |bytes| <= max && old(Flat(pieces)) == bytes + Flat(pieces)
      ensures signal.Ended? ==> signal.end == end && Flat(pieces) == []
      ensures signal.Continue? ==> bytes != [] || |pieces| < old(|pieces|)
      ensures bytes == [] ==> |pieces| <= old(|pieces|)
    {
      if pieces == [] {
        return [], Ended(end);
      }
      var piece := pieces[0];
      if |piece| <= max {
        bytes := piece;
        pieces := pieces[1..];
        signal := if together && pieces == [] then Ended(end) else Continue;
      } else {
        bytes := piece[..max];
        assert piece == piece[..max] + piece[max..];
        pieces := [piece[max..]] + pieces[1..];
        signal := Continue;
      }
    }
  }

  /** Adds bytes behind the first `at` of the buffer. */
  method CopyInto(buffer: array<Byte>, at: nat, bytes: seq<Byte>)
    requires at + |bytes| <= buffer.Length
    modifies buffer
    ensures buffer[..at + |bytes|] == old(buffer[..at]) + bytes
  {
    for i := 0 to |bytes|
      invariant buffer[..at + i] == old(buffer[..at]) + bytes[..i]
    {
      buffer[at + i] := bytes[i];
      assert buffer[..at + i + 1] == buffer[..at + i] + [bytes[i]];
    }
  }

  function Finished(bytes: seq<Byte>, end: End): Outcome {
    if end.Eof? then Body(bytes) else ReadError
  }

  /** For every buffer and every way the message arrives, the bounded read is the simple
      one: the whole message when it fits, and an error exactly when that says so. */
  method ReadBoundedFrame(source: Source, buffer: array<Byte>) returns (r: Outcome)
    modifies source, buffer
    ensures r == ReadThenReject(old(Flat(source.pieces)), source.end, buffer.Length)
    ensures r.TooLarge? <==> |old(Flat(source.pieces))| > buffer.Length
    ensures r.ReadError? <==> |old(Flat(source.pieces))| <= buffer.Length && source.end.Failed?
    ensures r.Body? ==> r.bytes == old(Flat(source.pieces))
    ensures r.Body? ==> buffer[..|r.bytes|] == r.bytes
  {
    ghost var whole := Flat(source.pieces);
    var read: nat := 0;
    while true
      invariant read <= buffer.Length
      invariant whole == buffer[..read] + Flat(source.pieces)
      decreases |Flat(source.pieces)|, |source.pieces|
    {
      var max := if read < buffer.Length then buffer.Length - read else 1;
      var bytes, signal := source.Read(max);
      if read == buffer.Length {
        if |bytes| > 0 {
          return TooLarge;
        }
      } else {
        CopyInto(buffer, read, bytes);
        read := read + |bytes|;
      }
      if signal.Ended? {
        return Finished(buffer[..read], signal.end);
      }
    }
  }
}
