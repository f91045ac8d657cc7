/** The native host's loop: read a message, answer it, write the answer. */
module NativeHost {
  import opened Basics
  import opened NativeMessaging

  /** handle: decodes a message, lets the session act on it (or refuses it) and serialises the reply;
      framingError: the serialised reply to a stream that breaks the framing. */
  datatype Behaviour<!S> = Behaviour(handle: (S, seq<byte>) -> (S, seq<byte>), framingError: string -> seq<byte>)

  datatype HostResult = Finished | ReadFailed | ReplyTooLarge | WriteFailed

  function StateAfter<S>(b: Behaviour<S>, session: S, bodies: seq<seq<byte>>): S {
    if bodies == [] then session else StateAfter(b, b.handle(session, bodies[0]).0, bodies[1..])
  }

  function Answers<S>(b: Behaviour<S>, session: S, bodies: seq<seq<byte>>): (rs: seq<seq<byte>>)
    ensures |rs| == |bodies|
  {
    if bodies == [] then []
    else
      var (session', reply) := b.handle(session, bodies[0]);
      [reply] + Answers(b, session', bodies[1..])
  }

  /** Everything the host owes to an input stream. */
  function Replies<S>(b: Behaviour<S>, session: S, input: seq<byte>): seq<seq<byte>> {
    var (bodies, end) := ReadAll(input);
    Answers(b, session, bodies) + if end.InvalidRequest? then [b.framingError(end.message)] else []
  }

  /** The replies before the first one over the limit. */
  function FittingPrefix(replies: seq<seq<byte>>): seq<seq<byte>> {
    if replies == [] || !Fits(replies[0]) then [] else [replies[0]] + FittingPrefix(replies[1..])
  }

  lemma {:induction false} FittingPrefixOfConcat(sent: seq<seq<byte>>, rest: seq<seq<byte>>)
    requires AllFit(sent)
    ensures FittingPrefix(sent + rest) == sent + FittingPrefix(rest)
  {
    if sent == [] {
      assert sent + rest == rest;
    } else {
      assert (sent + rest)[1..] == sent[1..] + rest;
      FittingPrefixOfConcat(sent[1..], rest);
    }
  }

  lemma {:induction false} FittingPrefixFits(replies: seq<seq<byte>>)
    ensures AllFit(FittingPrefix(replies)) && FittingPrefix(replies) <= replies
    ensures FittingPrefix(replies) == replies <==> AllFit(replies)
  {
    if replies != [] && Fits(replies[0]) {
      FittingPrefixFits(replies[1..]);
      assert replies == [replies[0]] + replies[1..];
    }
  }

  lemma RepliesAtMessage<S>(b: Behaviour<S>, session: S, body: seq<byte>, rest: seq<byte>)
    requires Fits(body)
    ensures var (session', reply) := b.handle(session, body);
            Replies(b, session, EncodeFrame(body) + rest) == [reply] + Replies(b, session', rest)
  {
    ParseEncoded(body, rest);
    var bodies := ReadAll(rest).0;
    assert ([body] + bodies)[1..] == bodies;
  }

  lemma RepliesAtEnd<S>(b: Behaviour<S>, session: S, input: seq<byte>)
    requires !ParseFrame(input).Message?
    ensures Replies(b, session, input)
         == if ParseFrame(input).InvalidRequest? then [b.framingError(ParseFrame(input).message)] else []
  {
  }

  /** One more reply has been sent. */
  lemma SendOne(sent: seq<seq<byte>>, reply: seq<byte>, rest: seq<seq<byte>>)
    ensures EncodeAll(sent + [reply]) == EncodeAll(sent) + EncodeFrame(reply)
    ensures sent + ([reply] + rest) == sent + [reply] + rest
  {
    EncodeAllExtends(sent + [reply], |sent|);
    assert (sent + [reply])[..|sent|] == sent;
    assert (sent + [reply])[..|sent| + 1] == sent + [reply];
  }

  /** The next reply owed cannot be sent. */
  lemma StopAt(sent: seq<seq<byte>>, owed: seq<seq<byte>>)
    requires AllFit(sent) && owed != [] && !Fits(owed[0])
    ensures FittingPrefix(sent + owed) == sent != sent + owed
  {
    FittingPrefixOfConcat(sent, owed);
    assert sent + [] == sent;
    assert |sent + owed| > |sent|;
  }

  /** What one turn of the loop did: the reply it wrote, if any, and the result it ended with, if it did. */
  datatype Turn<S> = Turn(session: S, wrote: seq<seq<byte>>, ended: Option<HostResult>)

  /** One turn against what is owed before it and after it, and what the sink holds before it and after it. */
  ghost predicate TurnMeets<S>(turn: Turn<S>, owed: seq<seq<byte>>, rest: seq<seq<byte>>, before: seq<byte>, after: seq<byte>) {
    && AllFit(turn.wrote)
    && (turn.ended != Some(WriteFailed) ==> after == before + EncodeAll(turn.wrote))
    && match turn.ended
       case None => owed == turn.wrote + rest
       case Some(Finished) => owed == turn.wrote
       case Some(ReplyTooLarge) => turn.wrote == [] && owed != [] && !Fits(owed[0])
       case Some(ReadFailed) => turn.wrote == []
       case Some(WriteFailed) => turn.wrote == [] && owed != [] && Fits(owed[0]) && AddsPart(before, after, EncodeFrame(owed[0]))
  }

  /** The turn in which writing the reply had this result. */
  function TurnOf<S>(wrote: WriteResult, session: S, reply: seq<byte>, ended: Option<HostResult>): Turn<S> {
    match wrote
    case FrameWritten => Turn(session, [reply], ended)
    case TooLarge(_) => Turn(session, [], Some(ReplyTooLarge))
    case SinkFailed => Turn(session, [], Some(WriteFailed))
  }

  lemma TurnOfMeets<S>(wrote: WriteResult, session: S, reply: seq<byte>, ended: Option<HostResult>,
                       rest: seq<seq<byte>>, before: seq<byte>, after: seq<byte>)
    requires WriteMeets(wrote, reply, before, after)
    requires ended == None || (ended == Some(Finished) && rest == [])
    ensures TurnMeets(TurnOf(wrote, session, reply, ended), [reply] + rest, rest, before, after)
  {
    SendOne([], reply, rest);
    assert [] + [reply] == [reply];
    assert ([reply] + rest)[0] == reply;
    assert before + [] == before;
  }

  method ServeOne<S>(b: Behaviour<S>, reader: Reader, writer: Writer, session: S) returns (turn: Turn<S>)
    modifies reader, writer
    ensures TurnMeets(turn, Replies(b, session, old(reader.remaining)), Replies(b, turn.session, reader.remaining),
                      old(writer.written), writer.written)
    ensures turn.ended == None ==> |reader.remaining| < |old(reader.remaining)|
    ensures Reliable(old(reader.schedule)) ==> turn.ended != Some(ReadFailed) && Reliable(reader.schedule)
    ensures Reliable(old(writer.schedule)) ==> turn.ended != Some(WriteFailed) && Reliable(writer.schedule)
  {
    ghost var input := reader.remaining;
    var read := ReadNativeMessage(reader);
    assert writer.written + [] == writer.written;
    if read.IoError? {
      return Turn(session, [], Some(ReadFailed));
    }
    if read.CleanEnd? {
      RepliesAtEnd(b, session, input);
      return Turn(session, [], Some(Finished));
    }
    if read.InvalidRequest? {
      RepliesAtEnd(b, session, input);
      var reply := b.framingError(read.message);
      var wrote := WriteNativeMessage(writer, reply);
      TurnOfMeets(wrote, session, reply, Some(Finished), [], old(writer.written), writer.written);
      return TurnOf(wrote, session, reply, Some(Finished));
    }
    var (next, reply) := b.handle(session, read.body);
    RepliesAtMessage(b, session, read.body, reader.remaining);
    var wrote := WriteNativeMessage(writer, reply);
    TurnOfMeets(wrote, next, reply, None, Replies(b, next, reader.remaining), old(writer.written), writer.written);
    return TurnOf(wrote, next, reply, None);
  }

  lemma {:induction false} EncodeAllConcat(a: seq<seq<byte>>, c: seq<seq<byte>>)
    ensures EncodeAll(a + c) == EncodeAll(a) + EncodeAll(c)
  {
    if a == [] {
      assert a + c == c;
    } else {
      assert (a + c)[1..] == a[1..] + c;
      EncodeAllConcat(a[1..], c);
    }
  }

  /** The account of one turn: what the stream owed, what has been sent and written, what is still owed. */
  lemma TurnAccount(base: seq<byte>, sent: seq<seq<byte>>, wrote: seq<seq<byte>>, rest: seq<seq<byte>>)
    ensures sent + (wrote + rest) == sent + wrote + rest
    ensures base + EncodeAll(sent) + EncodeAll(wrote) == base + EncodeAll(sent + wrote)
  {
    EncodeAllConcat(sent, wrote);
  }

  /** The replies sent are a proper part of those owed, and of the next one a part is written at most. */
  ghost predicate StoppedWriting(base: seq<byte>, written: seq<byte>, sent: seq<seq<byte>>, owed: seq<seq<byte>>) {
    && sent < owed && AllFit(owed[..|sent| + 1])
    && AddsPart(base + EncodeAll(sent), written, EncodeFrame(owed[|sent|]))
  }

  /** A run of the loop against all that the stream owed: the replies sent, and how it ended. */
  ghost predicate HostMeets(result: HostResult, sent: seq<seq<byte>>, owed: seq<seq<byte>>, before: seq<byte>, after: seq<byte>) {
    && (result != WriteFailed ==> after == before + EncodeAll(sent))
    && match result
       case Finished => sent == owed && AllFit(sent)
       case ReplyTooLarge => sent == FittingPrefix(owed) != owed
       case ReadFailed => sent <= owed && AllFit(sent)
       case WriteFailed => StoppedWriting(before, after, sent, owed)
  }

  lemma StopsWriting(base: seq<byte>, written: seq<byte>, sent: seq<seq<byte>>, owed: seq<seq<byte>>)
    requires AllFit(sent) && owed != [] && Fits(owed[0])
    requires AddsPart(base + EncodeAll(sent), written, EncodeFrame(owed[0]))
    ensures StoppedWriting(base, written, sent, sent + owed)
  {
    assert (sent + owed)[..|sent| + 1] == sent + [owed[0]];
    assert (sent + owed)[|sent|] == owed[0];
  }

  lemma LastTurn<S>(turn: Turn<S>, base: seq<byte>, after: seq<byte>, sent: seq<seq<byte>>, owed: seq<seq<byte>>, rest: seq<seq<byte>>)
    requires AllFit(sent) && turn.ended.Some?
    requires TurnMeets(turn, owed, rest, base + EncodeAll(sent), after)
    ensures HostMeets(turn.ended.value, sent + turn.wrote, sent + owed, base, after)
  {
    TurnAccount(base, sent, turn.wrote, []);
    assert turn.wrote == [] ==> sent + turn.wrote == sent;
    match turn.ended.value
    case ReplyTooLarge => StopAt(sent, owed);
    case WriteFailed => StopsWriting(base, after, sent, owed);
    case _ =>
  }

  /** sent: the replies written whole, short of one whose write was not confirmed. */
  method RunNativeHost<S>(b: Behaviour<S>, reader: Reader, writer: Writer, session: S)
    returns (result: HostResult, ghost sent: seq<seq<byte>>)
    modifies reader, writer
    ensures HostMeets(result, sent, Replies(b, session, old(reader.remaining)), old(writer.written), writer.written)
    ensures Reliable(old(reader.schedule)) ==> result != ReadFailed
    ensures Reliable(old(writer.schedule)) ==> result != WriteFailed
  {
    sent := [];
    var current := session;
    while true
      invariant Replies(b, session, old(reader.remaining)) == sent + Replies(b, current, reader.remaining)
      invariant AllFit(sent)
      invariant writer.written == old(writer.written) + EncodeAll(sent)
      invariant Reliable(old(reader.schedule)) ==> Reliable(reader.schedule)
      invariant Reliable(old(writer.schedule)) ==> Reliable(writer.schedule)
      decreases |reader.remaining|
    {
      ghost var owed := Replies(b, current, reader.remaining);
      var turn := ServeOne(b, reader, writer, current);
      ghost var rest := Replies(b, turn.session, reader.remaining);
      if turn.ended.Some? {
        LastTurn(turn, old(writer.written), writer.written, sent, owed, rest);
        return turn.ended.value, sent + turn.wrote;
      }
      TurnAccount(old(writer.written), sent, turn.wrote, rest);
      sent := sent + turn.wrote;
      current := turn.session;
    }
  }

  lemma {:induction false} AnswersInOrder<S>(b: Behaviour<S>, session: S, bodies: seq<seq<byte>>, k: nat)
    requires k < |bodies|
    ensures Answers(b, session, bodies)[k] == b.handle(StateAfter(b, session, bodies[..k]), bodies[k]).1
    decreases k
  {
    if k > 0 {
      assert bodies[..k][1..] == bodies[1..][..k - 1];
      AnswersInOrder(b, b.handle(session, bodies[0]).0, bodies[1..], k - 1);
    }
  }

  /** The k-th reply answers the k-th message, handled in the state its predecessors left; one reply
      is added exactly when the stream ends in a framing error. */
  lemma {:induction false} RepliesInOrder<S>(b: Behaviour<S>, session: S, input: seq<byte>, k: nat)
    requires k < |ReadAll(input).0|
    ensures var (bodies, end) := ReadAll(input);
            && Replies(b, session, input)[k] == b.handle(StateAfter(b, session, bodies[..k]), bodies[k]).1
            && |Replies(b, session, input)| == |bodies| + (if end == CleanEnd then 0 else 1)
            && (end != CleanEnd ==> end.InvalidRequest? && Replies(b, session, input)[|bodies|] == b.framingError(end.message))
  {
    var (bodies, end) := ReadAll(input);
    ReadIsWritten(input);
    AnswersInOrder(b, session, bodies, k);
  }

  /** What the host writes decodes to exactly the replies it owes, up to the first over the limit. */
  lemma OutputDecodes<S>(b: Behaviour<S>, session: S, input: seq<byte>)
    ensures var owed := Replies(b, session, input);
            && ReadAll(EncodeAll(FittingPrefix(owed))) == (FittingPrefix(owed), CleanEnd)
            && (AllFit(owed) ==> ReadAll(EncodeAll(owed)) == (owed, CleanEnd))
            && FittingPrefix(owed) <= owed
  {
    var owed := Replies(b, session, input);
    FittingPrefixFits(owed);
    WrittenIsReadBack(FittingPrefix(owed));
  }

  /** What a host that stopped writing leaves behind decodes to the replies sent, or those and the next. */
  lemma StoppedOutputDecodes(base: seq<byte>, written: seq<byte>, sent: seq<seq<byte>>, owed: seq<seq<byte>>)
    requires StoppedWriting(base, written, sent, owed)
    ensures base <= written
    ensures ReadAll(written[|base|..]).0 == sent
         || (ReadAll(written[|base|..]).0 == owed[..|sent| + 1] && written == base + EncodeAll(owed[..|sent| + 1]))
  {
    var next, start := owed[|sent|], base + EncodeAll(sent);
    var part := written[|start|..];
    assert written == start + part;
    assert written[|base|..] == EncodeAll(sent) + part;
    assert part <= EncodeFrame(next) by {
      assert part == (start + EncodeFrame(next))[|start|..|written|];
    }
    assert owed[..|sent| + 1] == sent + [next];
    assert AllFit(sent) && Fits(next) by {
      assert forall k :: 0 <= k < |sent| ==> sent[k] == owed[..|sent| + 1][k];
      assert next == owed[..|sent| + 1][|sent|];
    }
    InterruptedOutput(sent, next, part);
    SendOne(sent, next, []);
  }
}
