/** Native messaging: a 32-bit little-endian length, then that many bytes. */
module NativeMessaging {
  import opened Basics
  import opened Text

  type byte = b: int | 0 <= b < 256

  const MAX_NATIVE_MESSAGE_LEN: nat := 1024 * 1024

  function LittleEndian(n: nat): (s: seq<byte>)
    ensures |s| == 4
  {
    [n % 0x100, n / 0x100 % 0x100, n / 0x1_0000 % 0x100, n / 0x100_0000 % 0x100]
  }

  function FromLittleEndian(s: seq<byte>): nat
    requires |s| == 4
  {
    s[0] as int + 0x100 * s[1] as int + 0x1_0000 * s[2] as int + 0x100_0000 * s[3] as int
  }

  lemma LittleEndianInverse(n: nat)
    requires n < 0x1_0000_0000
    ensures FromLittleEndian(LittleEndian(n)) == n
  {
    assert n / 0x1_0000 == n / 0x100 / 0x100;
    assert n / 0x100_0000 == n / 0x100 / 0x100 / 0x100;
  }

  lemma FromLittleEndianInverse(s: seq<byte>)
    requires |s| == 4
    ensures LittleEndian(FromLittleEndian(s)) == s
  {
    var n := FromLittleEndian(s);
    assert n / 0x100 == s[1] as int + 0x100 * s[2] as int + 0x1_0000 * s[3] as int;
    assert n / 0x1_0000 == s[2] as int + 0x100 * s[3] as int;
    assert n / 0x100_0000 == s[3];
  }

  /** The number bytes stand for when the first counts least: each byte weighs 256 times the one before it. */
  function Weighed(s: seq<byte>): nat {
    if s == [] then 0 else s[0] as int + 0x100 * Weighed(s[1..])
  }

  lemma WeighedFour(s: seq<byte>)
    requires |s| == 4
    ensures Weighed(s) == FromLittleEndian(s)
  {
    assert Weighed(s[1..][1..][1..][1..]) == 0;
    assert Weighed(s[1..][1..][1..]) == s[3];
    assert Weighed(s[1..][1..]) == s[2] as int + 0x100 * s[3] as int;
    assert Weighed(s[1..]) == s[1] as int + 0x100 * (s[2] as int + 0x100 * s[3] as int);
  }

  /** The length goes over the wire least byte first. */
  lemma LeastByteFirst(n: nat, s: seq<byte>)
    requires |s| == 4 && n < 0x1_0000_0000
    ensures LittleEndian(n) == s <==> Weighed(s) == n
    ensures FromLittleEndian(s) == Weighed(s)
  {
    WeighedFour(s);
    WeighedFour(LittleEndian(n));
    LittleEndianInverse(n);
    FromLittleEndianInverse(s);
  }

  // --------------------------------------------------------- one frame

  datatype FrameRead = Message(body: seq<byte>) | CleanEnd | InvalidRequest(message: string) | IoError

  /** What a stream starts with. */
  function ParseFrame(s: seq<byte>): FrameRead {
    if s == [] then CleanEnd
    else if |s| < 4 then InvalidRequest("native message length prefix ended early")
    else
      var len := FromLittleEndian(s[..4]);
      if len > MAX_NATIVE_MESSAGE_LEN then InvalidRequest("native message too large: " + Decimal(len) + " bytes")
      else if |s| < 4 + len then InvalidRequest("native message body ended before declared length")
      else Message(s[4..4 + len])
  }

  function EncodeFrame(body: seq<byte>): seq<byte> {
    LittleEndian(|body| % 0x1_0000_0000) + body
  }

  function EncodeAll(bodies: seq<seq<byte>>): seq<byte> {
    if bodies == [] then [] else EncodeFrame(bodies[0]) + EncodeAll(bodies[1..])
  }

  predicate Fits(body: seq<byte>) {
    |body| <= MAX_NATIVE_MESSAGE_LEN
  }

  predicate AllFit(bodies: seq<seq<byte>>) {
    forall k :: 0 <= k < |bodies| ==> Fits(bodies[k])
  }

  /** Reading a stream to its end: the messages, and how it ends. */
  function ReadAll(s: seq<byte>): (r: (seq<seq<byte>>, FrameRead))
    ensures !r.1.Message? && !r.1.IoError?
    decreases |s|
  {
    match ParseFrame(s)
    case Message(body) =>
      var (bodies, end) := ReadAll(s[4 + |body|..]);
      ([body] + bodies, end)
    case end => ([], end)
  }

  lemma ParseEncoded(body: seq<byte>, rest: seq<byte>)
    requires Fits(body)
    ensures ParseFrame(EncodeFrame(body) + rest) == Message(body)
    ensures (EncodeFrame(body) + rest)[4 + |body|..] == rest
  {
    var s := EncodeFrame(body) + rest;
    LittleEndianInverse(|body|);
    assert s[..4] == LittleEndian(|body|);
    assert s[4..4 + |body|] == body;
  }

  /** A message read off a stream is exactly the bytes its encoding put there. */
  lemma ParsedIsEncoded(s: seq<byte>)
    requires ParseFrame(s).Message?
    ensures var body := ParseFrame(s).body;
            Fits(body) && |s| >= 4 + |body| && s == EncodeFrame(body) + s[4 + |body|..]
  {
    var body := ParseFrame(s).body;
    FromLittleEndianInverse(s[..4]);
    assert s == s[..4] + (s[4..4 + |body|] + s[4 + |body|..]);
  }

  // ---------------------------------------------------------- whole streams

  /** Reading back what was written gives the same bodies and then a clean end. */
  lemma {:induction false} WrittenIsReadBack(bodies: seq<seq<byte>>)
    requires AllFit(bodies)
    ensures ReadAll(EncodeAll(bodies)) == (bodies, CleanEnd)
  {
    if bodies != [] {
      ParseEncoded(bodies[0], EncodeAll(bodies[1..]));
      WrittenIsReadBack(bodies[1..]);
      assert [bodies[0]] + bodies[1..] == bodies;
    }
  }

  /** Whatever the stream, the messages read are a prefix of it, byte for byte; it ends
      cleanly exactly when it is the encoding of those messages and nothing more. */
  lemma {:induction false} ReadIsWritten(s: seq<byte>)
    ensures var (bodies, end) := ReadAll(s);
            && EncodeAll(bodies) <= s
            && AllFit(bodies)
            && (end == CleanEnd <==> EncodeAll(bodies) == s)
    decreases |s|
  {
    if ParseFrame(s).Message? {
      var body := ParseFrame(s).body;
      var rest := s[4 + |body|..];
      ParsedIsEncoded(s);
      ReadIsWritten(rest);
      var bodies := ReadAll(rest).0;
      assert ReadAll(s).0[1..] == bodies;
      assert EncodeFrame(body) + EncodeAll(bodies) <= EncodeFrame(body) + rest;
    }
  }

  lemma {:induction false} EncodeAllExtends(bodies: seq<seq<byte>>, n: nat)
    requires n < |bodies|
    ensures EncodeAll(bodies[..n + 1]) == EncodeAll(bodies[..n]) + EncodeFrame(bodies[n])
  {
    if n == 0 {
      assert bodies[..1] == [bodies[0]];
      assert EncodeFrame(bodies[0]) + [] == EncodeFrame(bodies[0]);
    } else {
      EncodeAllExtends(bodies[1..], n - 1);
      assert bodies[..n + 1][1..] == bodies[1..][..n];
      assert bodies[..n][1..] == bodies[1..][..n - 1];
      assert EncodeFrame(bodies[0]) + (EncodeAll(bodies[1..][..n - 1]) + EncodeFrame(bodies[n]))
          == (EncodeFrame(bodies[0]) + EncodeAll(bodies[1..][..n - 1])) + EncodeFrame(bodies[n]);
    }
  }

  /** A part of one frame is no message. */
  lemma PartialFrame(body: seq<byte>, part: seq<byte>)
    requires Fits(body) && part < EncodeFrame(body)
    ensures part == [] ==> ParseFrame(part) == CleanEnd
    ensures part != [] ==> ParseFrame(part).InvalidRequest?
  {
    if |part| >= 4 {
      LittleEndianInverse(|body|);
      assert part[..4] == LittleEndian(|body|);
    }
  }

  /** What is read of a written stream cut after so many bytes: the complete messages before the
      cut, never a partial one, and a clean end exactly when the cut falls between two messages. */
  ghost predicate ReadsUpTo(bodies: seq<seq<byte>>, cut: nat, got: seq<seq<byte>>, end: FrameRead) {
    && got <= bodies
    && |EncodeAll(got)| <= cut
    && (|got| < |bodies| ==> cut < |EncodeAll(bodies[..|got| + 1])|)
    && (end == CleanEnd || end.InvalidRequest?)
    && (end == CleanEnd <==> cut == |EncodeAll(got)|)
  }

  lemma CutInFirst(bodies: seq<seq<byte>>, cut: nat)
    requires bodies != [] && Fits(bodies[0])
    requires cut < |EncodeFrame(bodies[0])|
    ensures ReadsUpTo(bodies, cut, ReadAll(EncodeAll(bodies)[..cut]).0, ReadAll(EncodeAll(bodies)[..cut]).1)
  {
    var first := EncodeFrame(bodies[0]);
    var part := EncodeAll(bodies)[..cut];
    assert part == first[..cut];
    PartialFrame(bodies[0], part);
    assert bodies[..1] == [bodies[0]];
    assert EncodeAll(bodies[..1]) == first + EncodeAll([]);
    assert ReadAll(part) == ([], ParseFrame(part));
  }

  lemma ReadsOneMore(bodies: seq<seq<byte>>, cut: nat, got: seq<seq<byte>>, end: FrameRead)
    requires bodies != [] && ReadsUpTo(bodies[1..], cut, got, end)
    ensures ReadsUpTo(bodies, cut + |EncodeFrame(bodies[0])|, [bodies[0]] + got, end)
  {
    var got' := [bodies[0]] + got;
    assert got'[1..] == got;
    assert bodies == [bodies[0]] + bodies[1..];
    if |got'| < |bodies| {
      assert bodies[..|got'| + 1][1..] == bodies[1..][..|got| + 1];
    }
  }

  lemma {:induction false} CutStream(bodies: seq<seq<byte>>, cut: nat)
    requires AllFit(bodies)
    requires cut <= |EncodeAll(bodies)|
    ensures ReadsUpTo(bodies, cut, ReadAll(EncodeAll(bodies)[..cut]).0, ReadAll(EncodeAll(bodies)[..cut]).1)
    decreases |bodies|
  {
    if bodies != [] {
      var first, rest := EncodeFrame(bodies[0]), EncodeAll(bodies[1..]);
      if cut < |first| {
        CutInFirst(bodies, cut);
      } else {
        var part := rest[..cut - |first|];
        assert EncodeAll(bodies)[..cut] == first + part;
        ParseEncoded(bodies[0], part);
        CutStream(bodies[1..], cut - |first|);
        ReadsOneMore(bodies, cut - |first|, ReadAll(part).0, ReadAll(part).1);
      }
    }
  }

  // ----------------------------------------------------------- the reader

  /** What the next call on a source or a sink does; a chunk never exceeds what there is to move. */
  datatype IoEvent = Chunk(limit: nat) | Interrupt | Fail

  datatype IoOutcome = Count(n: nat) | Interrupted | Failed

  predicate Reliable(schedule: seq<IoEvent>) {
    forall i :: 0 <= i < |schedule| ==> schedule[i].Chunk?
  }

  /** A byte source that may answer every read short, be interrupted, or fail. */
  class Reader {
    var remaining: seq<byte>
    var schedule: seq<IoEvent>

    constructor (bytes: seq<byte>, schedule: seq<IoEvent>)
      ensures remaining == bytes && this.schedule == schedule
    {
      remaining := bytes;
      this.schedule := schedule;
    }

    method Read(buffer: array<byte>, start: nat) returns (outcome: IoOutcome)
      requires start <= buffer.Length
      modifies this, buffer
      ensures outcome.Count? ==>
                && start + outcome.n <= buffer.Length
                && buffer[start..start + outcome.n] + remaining == old(remaining)
                && (outcome.n == 0 <==> start == buffer.Length || old(remaining) == [])
                && |schedule| <= |old(schedule)|
      ensures !outcome.Count? ==> remaining == old(remaining) && |schedule| < |old(schedule)|
      ensures outcome.Count? ==> buffer[..start] == old(buffer[..start])
      ensures !outcome.Count? ==> buffer[..] == old(buffer[..])
      ensures Reliable(old(schedule)) ==> outcome.Count? && Reliable(schedule)
    {
      var limit := buffer.Length - start;
      if schedule != [] {
        var event := schedule[0];
        schedule := schedule[1..];
        match event {
          case Interrupt => return Interrupted;
          case Fail => return Failed;
          case Chunk(most) =>
            if 0 < most < limit {
              limit := most;
            }
        }
      }
      var n := if limit < |remaining| then limit else |remaining|;
      forall i | 0 <= i < n {
        buffer[start + i] := remaining[i];
      }
      assert buffer[start..start + n] == remaining[..n];
      remaining := remaining[n..];
      return Count(n);
    }

    /** Fills the whole buffer, retrying interrupted reads. */
    method ReadExact(buffer: array<byte>) returns (result: FrameRead)
      modifies this, buffer
      ensures result.Message? || result.InvalidRequest? || result.IoError?
      ensures result.Message? ==>
                result.body == buffer[..] && buffer[..] + remaining == old(remaining)
      ensures result.InvalidRequest? ==>
                |old(remaining)| < buffer.Length && result.message == "native message body ended before declared length"
      ensures Reliable(old(schedule)) ==> !result.IoError? && Reliable(schedule)
    {
      var got := 0;
      while got < buffer.Length
        invariant got <= buffer.Length
        invariant buffer[..got] + remaining == old(remaining)
        invariant Reliable(old(schedule)) ==> Reliable(schedule)
        decreases buffer.Length - got, |schedule|
      {
        ghost var before := buffer[..got];
        var outcome := Read(buffer, got);
        match outcome {
          case Count(n) =>
            if n == 0 {
              return InvalidRequest("native message body ended before declared length");
            }
            assert buffer[..got + n] == before + buffer[got..got + n];
            got := got + n;
          case Interrupted =>
            assert buffer[..got] == before;
          case Failed =>
            return IoError;
        }
      }
      assert buffer[..got] == buffer[..];
      return Message(buffer[..]);
    }
  }

  /** Fills the four length bytes, or says why not; here an interrupted read is an error. */
  method ReadPrefix(reader: Reader, lenBytes: array<byte>) returns (stopped: Option<FrameRead>)
    requires lenBytes.Length == 4
    modifies reader, lenBytes
    ensures stopped == None ==> lenBytes[..] + reader.remaining == old(reader.remaining)
    ensures stopped.Some? && stopped != Some(IoError) ==>
              |old(reader.remaining)| < 4 && stopped.value == ParseFrame(old(reader.remaining)) && reader.remaining == []
    ensures Reliable(old(reader.schedule)) ==> stopped != Some(IoError) && Reliable(reader.schedule)
  {
    var readLen := 0;
    while readLen < 4
      invariant readLen <= 4
      invariant lenBytes[..readLen] + reader.remaining == old(reader.remaining)
      invariant Reliable(old(reader.schedule)) ==> Reliable(reader.schedule)
    {
      ghost var before := lenBytes[..readLen];
      var outcome := reader.Read(lenBytes, readLen);
      if !outcome.Count? {
        return Some(IoError);
      }
      var bytesRead := outcome.n;
      if bytesRead == 0 {
        assert old(reader.remaining) == before + [];
        return Some(if readLen == 0 then CleanEnd else InvalidRequest("native message length prefix ended early"));
      }
      assert lenBytes[..readLen + bytesRead] == before + lenBytes[readLen..readLen + bytesRead];
      readLen := readLen + bytesRead;
    }
    assert lenBytes[..readLen] == lenBytes[..];
    return None;
  }

  lemma FrameOfParts(prefix: seq<byte>, body: seq<byte>, rest: seq<byte>)
    requires |prefix| == 4 && FromLittleEndian(prefix) == |body| <= MAX_NATIVE_MESSAGE_LEN
    ensures ParseFrame(prefix + (body + rest)) == Message(body)
    ensures prefix + (body + rest) == EncodeFrame(body) + rest
  {
    var s := prefix + (body + rest);
    assert s[..4] == prefix && s[4..4 + |body|] == body;
    FromLittleEndianInverse(prefix);
  }

  /** Whatever the sizes in which the bytes arrive, the outcome is what the stream starts with. */
  method ReadNativeMessage(reader: Reader) returns (result: FrameRead)
    modifies reader
    ensures !result.IoError? ==> result == ParseFrame(old(reader.remaining))
    ensures result.Message? ==> Fits(result.body) && old(reader.remaining) == EncodeFrame(result.body) + reader.remaining
    ensures result == CleanEnd ==> reader.remaining == []
    ensures Reliable(old(reader.schedule)) ==> !result.IoError? && Reliable(reader.schedule)
  {
    var lenBytes: array<byte> := new byte[4](_ => 0);
    var stopped := ReadPrefix(reader, lenBytes);
    if stopped.Some? {
      return stopped.value;
    }
    ghost var stream, prefix := old(reader.remaining), lenBytes[..];
    assert stream[..4] == prefix && stream[4..] == reader.remaining;

    var len := FromLittleEndian(lenBytes[..]);
    if len > MAX_NATIVE_MESSAGE_LEN {
      return InvalidRequest("native message too large: " + Decimal(len) + " bytes");
    }
    var body: array<byte> := new byte[len](_ => 0);
    result := reader.ReadExact(body);
    if result.Message? {
      FrameOfParts(prefix, result.body, reader.remaining);
    }
  }

  /** The errors of a stream that breaks the framing, and the limit: one mebibyte. */
  lemma FramingErrors(s: seq<byte>)
    ensures 0 < |s| < 4 ==> ParseFrame(s) == InvalidRequest("native message length prefix ended early")
    ensures |s| >= 4 && FromLittleEndian(s[..4]) > 1048576 ==>
              ParseFrame(s) == InvalidRequest("native message too large: " + Decimal(FromLittleEndian(s[..4])) + " bytes")
    ensures |s| >= 4 && FromLittleEndian(s[..4]) <= 1048576 && |s| < 4 + FromLittleEndian(s[..4]) ==>
              ParseFrame(s) == InvalidRequest("native message body ended before declared length")
    ensures |s| >= 4 && FromLittleEndian(s[..4]) <= 1048576 && |s| >= 4 + FromLittleEndian(s[..4]) ==>
              ParseFrame(s) == Message(s[4..4 + FromLittleEndian(s[..4])])
  {
  }

  // ----------------------------------------------------------- the writer

  /** after is before with some of the bytes added, perhaps none, perhaps all. */
  predicate AddsPart(before: seq<byte>, after: seq<byte>, bytes: seq<byte>) {
    before <= after && after <= before + bytes
  }

  /** A byte sink that may take every write in parts, be interrupted, or fail. */
  class Writer {
    var written: seq<byte>
    var schedule: seq<IoEvent>

    constructor (schedule: seq<IoEvent>)
      ensures written == [] && this.schedule == schedule
    {
      written := [];
      this.schedule := schedule;
    }

    method Write(bytes: seq<byte>) returns (outcome: IoOutcome)
      modifies this
      ensures outcome.Count? ==>
                && outcome.n <= |bytes|
                && written == old(written) + bytes[..outcome.n]
                && (outcome.n == 0 <==> bytes == [])
                && |schedule| <= |old(schedule)|
      ensures !outcome.Count? ==> written == old(written) && |schedule| < |old(schedule)|
      ensures Reliable(old(schedule)) ==> outcome.Count? && Reliable(schedule)
    {
      var n := |bytes|;
      if schedule != [] {
        var event := schedule[0];
        schedule := schedule[1..];
        match event {
          case Interrupt => return Interrupted;
          case Fail => return Failed;
          case Chunk(most) =>
            if 0 < most < n {
              n := most;
            }
        }
      }
      written := written + bytes[..n];
      return Count(n);
    }

    /** Writes all the bytes, retrying interrupted writes; a failure leaves a part of them written. */
    method WriteAll(bytes: seq<byte>) returns (ok: bool)
      modifies this
      ensures if ok then written == old(written) + bytes else AddsPart(old(written), written, bytes)
      ensures Reliable(old(schedule)) ==> ok && Reliable(schedule)
    {
      var done := 0;
      while done < |bytes|
        invariant done <= |bytes|
        invariant written == old(written) + bytes[..done]
        invariant Reliable(old(schedule)) ==> Reliable(schedule)
        decreases |bytes| - done, |schedule|
      {
        var outcome := Write(bytes[done..]);
        match outcome {
          case Count(n) =>
            assert bytes[..done] + bytes[done..][..n] == bytes[..done + n];
            done := done + n;
          case Interrupted =>
          case Failed =>
            assert bytes == bytes[..done] + bytes[done..];
            return false;
        }
      }
      return true;
    }

    /** Unlike a write, an interrupted flush is an error. */
    method Flush() returns (ok: bool)
      modifies this`schedule
      ensures Reliable(old(schedule)) ==> ok && Reliable(schedule)
    {
      ok := schedule == [] || schedule[0].Chunk?;
      schedule := if schedule == [] then [] else schedule[1..];
    }
  }

  datatype WriteResult = FrameWritten | TooLarge(message: string) | SinkFailed

  lemma PartOfFrame(before: seq<byte>, after: seq<byte>, body: seq<byte>)
    requires |body| < 0x1_0000_0000
    requires AddsPart(before, after, LittleEndian(|body|)) || AddsPart(before + LittleEndian(|body|), after, body)
    ensures AddsPart(before, after, EncodeFrame(body))
  {
    assert before + LittleEndian(|body|) + body == before + EncodeFrame(body);
  }

  /** Nothing is written of a body over the limit; a failing sink is left with a part of the frame. */
  ghost predicate WriteMeets(result: WriteResult, body: seq<byte>, before: seq<byte>, after: seq<byte>) {
    match result
    case FrameWritten => Fits(body) && after == before + EncodeFrame(body)
    case TooLarge(message) =>
      !Fits(body) && after == before && message == "native message too large: " + Decimal(|body|) + " bytes"
    case SinkFailed => Fits(body) && AddsPart(before, after, EncodeFrame(body))
  }

  method WriteNativeMessage(writer: Writer, body: seq<byte>) returns (result: WriteResult)
    modifies writer
    ensures WriteMeets(result, body, old(writer.written), writer.written)
    ensures Reliable(old(writer.schedule)) ==> result != SinkFailed && Reliable(writer.schedule)
  {
    ghost var before := writer.written;
    if |body| > MAX_NATIVE_MESSAGE_LEN {
      return TooLarge("native message too large: " + Decimal(|body|) + " bytes");
    }
    var ok := writer.WriteAll(LittleEndian(|body| % 0x1_0000_0000));
    if !ok {
      PartOfFrame(before, writer.written, body);
      return SinkFailed;
    }
    ok := writer.WriteAll(body);
    if !ok {
      PartOfFrame(before, writer.written, body);
      return SinkFailed;
    }
    assert writer.written == before + EncodeFrame(body);
    ok := writer.Flush();
    return if ok then FrameWritten else SinkFailed;
  }

  lemma InterruptedFrame(next: seq<byte>, part: seq<byte>)
    requires Fits(next) && part <= EncodeFrame(next)
    ensures ReadAll(part).0 == if part == EncodeFrame(next) then [next] else []
  {
    if part == EncodeFrame(next) {
      WrittenIsReadBack([next]);
      assert EncodeAll([next]) == part + [] == part;
    } else {
      PartialFrame(next, part);
    }
  }

  /** What is read of a stream whose last frame was cut short by a failing sink: the frames before it,
      and the last one exactly when all of it got through. */
  lemma {:induction false} InterruptedOutput(sent: seq<seq<byte>>, next: seq<byte>, part: seq<byte>)
    requires AllFit(sent) && Fits(next) && part <= EncodeFrame(next)
    ensures ReadAll(EncodeAll(sent) + part).0 == sent + if part == EncodeFrame(next) then [next] else []
  {
    if sent == [] {
      assert EncodeAll(sent) + part == part;
      InterruptedFrame(next, part);
    } else {
      var rest := EncodeAll(sent[1..]) + part;
      assert EncodeAll(sent) + part == EncodeFrame(sent[0]) + rest;
      ParseEncoded(sent[0], rest);
      InterruptedOutput(sent[1..], next, part);
      assert sent == [sent[0]] + sent[1..];
    }
  }
}
