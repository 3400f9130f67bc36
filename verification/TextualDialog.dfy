/** Textual messages, one per line: the stream is cut in lines however the socket cuts it in reads. */
module TextualDialog {
  import opened Wrappers
  import opened Wire

  const NEWLINE: Byte := 10

  // ---------- what the lines of a stream are ----------

  predicate NewlineFree(bytes: seq<Byte>) {
    forall i | 0 <= i < |bytes| :: bytes[i] != NEWLINE
  }

  /** The position of the first newline since `from`, or the length when there is none. */
  function EndOfLine(bytes: seq<Byte>, from: nat): (end: nat)
    requires from <= |bytes|
    ensures from <= end <= |bytes|
    decreases |bytes| - from
  {
    if from == |bytes| || bytes[from] == NEWLINE then from else EndOfLine(bytes, from + 1)
  }

  /** The complete lines of a stream since `from`, without their newlines. */
  function LinesFrom(bytes: seq<Byte>, from: nat): seq<seq<Byte>>
    requires from <= |bytes|
    decreases |bytes| - from
  {
    var end := EndOfLine(bytes, from);
    if end == |bytes| then [] else [bytes[from..end]] + LinesFrom(bytes, end + 1)
  }

  /** What comes, since `from`, after the last newline of a stream. */
  function TailFrom(bytes: seq<Byte>, from: nat): seq<Byte>
    requires from <= |bytes|
    decreases |bytes| - from
  {
    var end := EndOfLine(bytes, from);
    if end == |bytes| then bytes[from..] else TailFrom(bytes, end + 1)
  }

  /** Where that starts. */
  function TailStart(bytes: seq<Byte>, from: nat): (start: nat)
    requires from <= |bytes|
    ensures from <= start <= |bytes|
    decreases |bytes| - from
  {
    var end := EndOfLine(bytes, from);
    if end == |bytes| then from else TailStart(bytes, end + 1)
  }

  lemma {:induction false} TailStartsThere(bytes: seq<Byte>, from: nat)
    requires from <= |bytes|
    ensures TailFrom(bytes, from) == bytes[TailStart(bytes, from)..]
    decreases |bytes| - from
  {
    if EndOfLine(bytes, from) < |bytes| {
      TailStartsThere(bytes, EndOfLine(bytes, from) + 1);
    }
  }

  function Lines(bytes: seq<Byte>): seq<seq<Byte>> {
    LinesFrom(bytes, 0)
  }

  function Tail(bytes: seq<Byte>): seq<Byte> {
    TailFrom(bytes, 0)
  }

  /** The stream made of the given lines, each ended by a newline. */
  function Joined(lines: seq<seq<Byte>>): seq<Byte> {
    JoinedFrom(lines, 0)
  }

  function JoinedFrom(lines: seq<seq<Byte>>, i: nat): seq<Byte>
    requires i <= |lines|
    decreases |lines| - i
  {
    if i == |lines| then [] else lines[i] + [NEWLINE] + JoinedFrom(lines, i + 1)
  }

  lemma {:induction false} JoinedTogether(lines: seq<seq<Byte>>, more: seq<seq<Byte>>, i: nat)
    requires i <= |lines|
    ensures JoinedFrom(lines + more, i) == JoinedFrom(lines, i) + Joined(more)
    decreases |lines| - i
  {
    if i == |lines| {
      JoinedShifts(lines, more, 0);
    } else {
      JoinedTogether(lines, more, i + 1);
    }
  }

  lemma {:induction false} JoinedShifts(lines: seq<seq<Byte>>, more: seq<seq<Byte>>, i: nat)
    requires i <= |more|
    ensures JoinedFrom(lines + more, |lines| + i) == JoinedFrom(more, i)
    decreases |more| - i
  {
    if i < |more| {
      JoinedShifts(lines, more, i + 1);
    }
  }

  lemma {:induction false} EndOfLineIs(bytes: seq<Byte>, from: nat, end: nat)
    requires from <= end <= |bytes| && forall i | from <= i < end :: bytes[i] != NEWLINE
    ensures EndOfLine(bytes, from) == EndOfLine(bytes, end)
    decreases end - from
  {
    if from < end {
      EndOfLineIs(bytes, from + 1, end);
    }
  }

  lemma {:induction false} NoNewlineBeforeEnd(bytes: seq<Byte>, from: nat)
    requires from <= |bytes|
    ensures forall i | from <= i < EndOfLine(bytes, from) :: bytes[i] != NEWLINE
    ensures EndOfLine(bytes, from) < |bytes| ==> bytes[EndOfLine(bytes, from)] == NEWLINE
    decreases |bytes| - from
  {
    if from < |bytes| && bytes[from] != NEWLINE {
      NoNewlineBeforeEnd(bytes, from + 1);
    }
  }

  /** What precedes does not matter. */
  lemma {:induction false} EndOfLineShifts(prefix: seq<Byte>, bytes: seq<Byte>, from: nat)
    requires from <= |bytes|
    ensures EndOfLine(prefix + bytes, |prefix| + from) == |prefix| + EndOfLine(bytes, from)
    decreases |bytes| - from
  {
    if from < |bytes| && bytes[from] != NEWLINE {
      EndOfLineShifts(prefix, bytes, from + 1);
    }
  }

  lemma {:induction false} LinesShift(prefix: seq<Byte>, bytes: seq<Byte>, from: nat)
    requires from <= |bytes|
    ensures LinesFrom(prefix + bytes, |prefix| + from) == LinesFrom(bytes, from)
    decreases |bytes| - from
  {
    EndOfLineShifts(prefix, bytes, from);
    var end := EndOfLine(bytes, from);
    if end < |bytes| {
      LinesShift(prefix, bytes, end + 1);
      assert (prefix + bytes)[|prefix| + from..|prefix| + end] == bytes[from..end];
    }
  }

  lemma {:induction false} TailShifts(prefix: seq<Byte>, bytes: seq<Byte>, from: nat)
    requires from <= |bytes|
    ensures TailStart(prefix + bytes, |prefix| + from) == |prefix| + TailStart(bytes, from)
    decreases |bytes| - from
  {
    EndOfLineShifts(prefix, bytes, from);
    var end := EndOfLine(bytes, from);
    if end < |bytes| {
      TailShifts(prefix, bytes, end + 1);
    }
  }

  /** Cutting is the one way to see a stream as newline-free lines, each ended by a newline, plus a newline-free tail. */
  lemma {:induction false} CutIsUnique(lines: seq<seq<Byte>>, tail: seq<Byte>)
    requires NewlineFree(tail) && forall line <- lines :: NewlineFree(line)
    ensures Lines(Joined(lines) + tail) == lines && Tail(Joined(lines) + tail) == tail
  {
    var bytes := Joined(lines) + tail;
    if lines == [] {
      assert bytes == tail;
      EndOfLineIs(bytes, 0, |bytes|);
    } else {
      var (first, rest) := (lines[0], Joined(lines[1..]) + tail);
      assert bytes == (first + [NEWLINE]) + rest by {
        assert lines == [first] + lines[1..];
        JoinedShifts([first], lines[1..], 0);
      }
      assert first in lines;
      CutIsUnique(lines[1..], tail);
      FirstLineIs(first, rest);
    }
  }

  lemma FirstLineIs(first: seq<Byte>, rest: seq<Byte>)
    requires NewlineFree(first)
    ensures Lines((first + [NEWLINE]) + rest) == [first] + Lines(rest)
    ensures Tail((first + [NEWLINE]) + rest) == Tail(rest)
  {
    var line := first + [NEWLINE];
    var bytes := line + rest;
    EndOfLineIs(bytes, 0, |first|);
    assert bytes[..|first|] == first;
    LinesShift(line, rest, 0);
    TailShifts(line, rest, 0);
    TailStartsThere(bytes, |line|);
    TailStartsThere(rest, 0);
    assert bytes[TailStart(bytes, |line|)..] == rest[TailStart(rest, 0)..];
  }

  lemma {:induction false} CutLosesNothing(bytes: seq<Byte>, from: nat)
    requires from <= |bytes|
    ensures bytes[from..TailStart(bytes, from)] == Joined(LinesFrom(bytes, from))
    decreases |bytes| - from
  {
    NoNewlineBeforeEnd(bytes, from);
    var end := EndOfLine(bytes, from);
    if end < |bytes| {
      CutLosesNothing(bytes, end + 1);
      JoinedShifts([bytes[from..end]], LinesFrom(bytes, end + 1), 0);
    }
  }

  lemma {:induction false} TailIsNewlineFree(bytes: seq<Byte>, from: nat)
    requires from <= |bytes|
    ensures NewlineFree(bytes[TailStart(bytes, from)..])
    decreases |bytes| - from
  {
    NoNewlineBeforeEnd(bytes, from);
    var end := EndOfLine(bytes, from);
    if end < |bytes| {
      TailIsNewlineFree(bytes, end + 1);
    }
  }

  lemma {:induction false} LinesAreNewlineFree(bytes: seq<Byte>, from: nat)
    requires from <= |bytes|
    ensures forall line <- LinesFrom(bytes, from) :: NewlineFree(line)
    decreases |bytes| - from
  {
    var end := EndOfLine(bytes, from);
    if end < |bytes| {
      NoNewlineBeforeEnd(bytes, from);
      assert NewlineFree(bytes[from..end]);
      LinesAreNewlineFree(bytes, end + 1);
    }
  }

  /** Carrying the tail over is enough: no byte of a complete line has to be looked at again. */
  lemma CutIncrementally(received: seq<Byte>, chunk: seq<Byte>)
    ensures Lines(received + chunk) == Lines(received) + Lines(Tail(received) + chunk)
    ensures Tail(received + chunk) == Tail(Tail(received) + chunk)
    ensures NewlineFree(Tail(received))
  {
    TailStartsThere(received, 0);
    CutLosesNothing(received, 0);
    TailIsNewlineFree(received, 0);
    LinesAreNewlineFree(received, 0);
    var (done, left) := (Joined(Lines(received)), Tail(received) + chunk);
    assert received == received[0..] == done + Tail(received);
    TailStartsThere(left, 0);
    CutLosesNothing(left, 0);
    TailIsNewlineFree(left, 0);
    LinesAreNewlineFree(left, 0);
    assert left == left[0..] == Joined(Lines(left)) + Tail(left);
    JoinedTogether(Lines(received), Lines(left), 0);
    assert received + chunk == done + left == Joined(Lines(received) + Lines(left)) + Tail(left);
    CutIsUnique(Lines(received) + Lines(left), Tail(left));
  }

  // ---------- the writer ----------

  function Serialized<M>(serialize: M -> seq<Byte>, messages: seq<M>): (lines: seq<seq<Byte>>)
    ensures |lines| == |messages| && forall i | 0 <= i < |lines| :: lines[i] == serialize(messages[i])
  {
    seq(|messages|, i requires 0 <= i < |messages| => serialize(messages[i]))
  }

  /** A message sequence is read back as the very same lines if, and only if, no serialized message has a newline. */
  lemma LinesSurviveIfNewlineFree<M>(serialize: M -> seq<Byte>, messages: seq<M>)
    ensures Lines(Joined(Serialized(serialize, messages))) == Serialized(serialize, messages)
       <==> forall message <- messages :: NewlineFree(serialize(message))
  {
    var lines := Serialized(serialize, messages);
    if forall message <- messages :: NewlineFree(serialize(message)) {
      CutIsUnique(lines, []);
      assert Joined(lines) + [] == Joined(lines);
    } else if Lines(Joined(lines)) == lines {
      LinesAreNewlineFree(Joined(lines), 0);
      forall message <- messages ensures NewlineFree(serialize(message)) {
        var i :| 0 <= i < |messages| && messages[i] == message;
        assert lines[i] in lines;
      }
    }
  }

  // ---------- the reader's relation to the rest of the program ----------

  /** Does offering `line`, the line number `i`, end the dialog? */
  predicate LineAborts<M>(deserialize: seq<Byte> -> Option<M>, replies: nat -> Reply, line: seq<Byte>, i: nat) {
    if deserialize(line).Some? then OfferAborts(replies(i)) else FailsToInform(replies(i))
  }

  ghost predicate NoneAborts<M>(deserialize: seq<Byte> -> Option<M>, replies: nat -> Reply, lines: seq<seq<Byte>>, n: nat)
    requires n <= |lines|
  {
    forall i | 0 <= i < n :: !LineAborts(deserialize, replies, lines[i], i)
  }

  /** The dialog ended because of the last line it offered, the first for which the channels gave up. */
  ghost predicate EndedByLastLine<M>(deserialize: seq<Byte> -> Option<M>, replies: nat -> Reply, offered: seq<seq<Byte>>) {
    var last := |offered| - 1;
    && offered != []
    && LineAborts(deserialize, replies, offered[last], last)
    && NoneAborts(deserialize, replies, offered, last)
  }

  /** With those offered, the lines of the buffer since `next` are `all` there are to offer; its first `searched` bytes
      are known to have no newline. */
  predicate LeftToOffer(buffer: seq<Byte>, next: nat, searched: nat, offered: seq<seq<Byte>>, all: seq<seq<Byte>>, tail: nat) {
    && next + searched <= |buffer|
    && EndOfLine(buffer, next) == EndOfLine(buffer, next + searched)
    && offered + LinesFrom(buffer, next) == all && TailStart(buffer, next) == tail
  }

  /** The first of the lines left joins those offered. */
  lemma OneLineLess(buffer: seq<Byte>, next: nat, searched: nat, offered: seq<seq<Byte>>, all: seq<seq<Byte>>, tail: nat)
    requires LeftToOffer(buffer, next, searched, offered, all, tail) && EndOfLine(buffer, next + searched) < |buffer|
    ensures var end := EndOfLine(buffer, next + searched);
            && next <= end && offered + [buffer[next..end]] <= all
            && LeftToOffer(buffer, end + 1, 0, offered + [buffer[next..end]], all, tail)
  {
    var end := EndOfLine(buffer, next + searched);
    assert (offered + [buffer[next..end]]) + LinesFrom(buffer, end + 1) == all;
  }

  lemma NothingLeft(buffer: seq<Byte>, next: nat, searched: nat, offered: seq<seq<Byte>>, all: seq<seq<Byte>>, tail: nat)
    requires LeftToOffer(buffer, next, searched, offered, all, tail) && EndOfLine(buffer, next + searched) == |buffer|
    ensures offered == all && next == tail
  {
  }

  /** The messages the local processor gets out of the first `n` lines offered, given the replies to each of them. */
  function Delivered<M>(deserialize: seq<Byte> -> Option<M>, replies: nat -> Reply, lines: seq<seq<Byte>>, n: nat): seq<M>
    requires n <= |lines|
  {
    if n == 0 then []
    else Delivered(deserialize, replies, lines, n - 1) + DeliveredAt(deserialize, replies, lines, n - 1)
  }

  function DeliveredAt<M>(deserialize: seq<Byte> -> Option<M>, replies: nat -> Reply, lines: seq<seq<Byte>>, i: nat): seq<M>
    requires i < |lines|
  {
    var message := deserialize(lines[i]);
    if message.Some? && replies(i).processor.Accepted? then [message.value] else []
  }

  /** How many of the first `n` lines became messages that the local processor took? */
  function DeliveredFirst<M>(deserialize: seq<Byte> -> Option<M>, replies: nat -> Reply, lines: seq<seq<Byte>>, n: nat): nat
    requires n <= |lines|
  {
    if n == 0 then 0
    else
      DeliveredFirst(deserialize, replies, lines, n - 1)
      + if deserialize(lines[n - 1]).Some? && replies(n - 1).processor.Accepted? then 1 else 0
  }

  /** Each message the local processor takes comes after those it took before, and there is nothing else. */
  lemma DeliveredOneByOne<M>(deserialize: seq<Byte> -> Option<M>, replies: nat -> Reply, lines: seq<seq<Byte>>, n: nat)
    requires n <= |lines|
    ensures |Delivered(deserialize, replies, lines, n)| == DeliveredFirst(deserialize, replies, lines, n)
    ensures forall k: nat | k < n && deserialize(lines[k]).Some? && replies(k).processor.Accepted? ::
              var position := DeliveredFirst(deserialize, replies, lines, k);
              && position < |Delivered(deserialize, replies, lines, n)|
              && Some(Delivered(deserialize, replies, lines, n)[position]) == deserialize(lines[k])
  {
    DeliveredAreCounted(deserialize, replies, lines, n);
    forall k: nat | k < n && deserialize(lines[k]).Some? && replies(k).processor.Accepted?
      ensures var position := DeliveredFirst(deserialize, replies, lines, k);
              && position < |Delivered(deserialize, replies, lines, n)|
              && Some(Delivered(deserialize, replies, lines, n)[position]) == deserialize(lines[k])
    {
      DeliveredInPosition(deserialize, replies, lines, n, k);
    }
  }

  lemma {:induction false} DeliveredAreCounted<M>(deserialize: seq<Byte> -> Option<M>, replies: nat -> Reply, lines: seq<seq<Byte>>, n: nat)
    requires n <= |lines|
    ensures |Delivered(deserialize, replies, lines, n)| == DeliveredFirst(deserialize, replies, lines, n)
  {
    if n > 0 {
      DeliveredAreCounted(deserialize, replies, lines, n - 1);
    }
  }

  lemma {:induction false} DeliveredInPosition<M>(deserialize: seq<Byte> -> Option<M>, replies: nat -> Reply,
                                                  lines: seq<seq<Byte>>, n: nat, k: nat)
    requires k < n <= |lines| && deserialize(lines[k]).Some? && replies(k).processor.Accepted?
    ensures var position := DeliveredFirst(deserialize, replies, lines, k);
            && position < |Delivered(deserialize, replies, lines, n)|
            && Some(Delivered(deserialize, replies, lines, n)[position]) == deserialize(lines[k])
  {
    DeliveredAreCounted(deserialize, replies, lines, n - 1);
    if k < n - 1 {
      DeliveredInPosition(deserialize, replies, lines, n - 1, k);
    }
  }

  lemma {:induction false} DeliveredFromPrefix<M>(deserialize: seq<Byte> -> Option<M>, replies: nat -> Reply,
                                                  lines: seq<seq<Byte>>, longer: seq<seq<Byte>>, n: nat)
    requires n <= |lines| && lines <= longer
    ensures Delivered(deserialize, replies, longer, n) == Delivered(deserialize, replies, lines, n)
  {
    if n > 0 {
      DeliveredFromPrefix(deserialize, replies, lines, longer, n - 1);
      assert longer[n - 1] == lines[n - 1];
    }
  }

  /** End to end: whatever was read so far of what the remote peer wrote -- cut anyhow -- the messages delivered are
      the first ones it wrote, unchanged and in order; all of them once everything was read. */
  lemma TextualRoundTrip<M>(serialize: M -> seq<Byte>, deserialize: seq<Byte> -> Option<M>, messages: seq<M>,
                            received: seq<Byte>, unread: seq<Byte>, replies: nat -> Reply)
    requires forall message <- messages :: NewlineFree(serialize(message))
    requires forall message <- messages :: deserialize(serialize(message)) == Some(message)
    requires AllAccepted(replies, |Lines(received)|)
    requires received + unread == Joined(Serialized(serialize, messages))
    ensures var lines := Lines(received);
            && |lines| <= |messages|
            && Delivered(deserialize, replies, lines, |lines|) == messages[..|lines|]
            && (unread == [] ==> |lines| == |messages| && Tail(received) == [])
  {
    var lines := Lines(received);
    LinesAreTheFirstWritten(serialize, messages, received, unread);
    DeliveredFromPrefix(deserialize, replies, lines, Serialized(serialize, messages), |lines|);
    DeliveredInOrder(serialize, deserialize, messages, |lines|, replies);
  }

  lemma LinesAreTheFirstWritten<M>(serialize: M -> seq<Byte>, messages: seq<M>, received: seq<Byte>, unread: seq<Byte>)
    requires forall message <- messages :: NewlineFree(serialize(message))
    requires received + unread == Joined(Serialized(serialize, messages))
    ensures Lines(received) <= Serialized(serialize, messages)
    ensures unread == [] ==> |Lines(received)| == |messages| && Tail(received) == []
  {
    LinesSurviveIfNewlineFree(serialize, messages);
    CutIncrementally(received, unread);
    CutIsUnique(Serialized(serialize, messages), []);
    assert Joined(Serialized(serialize, messages)) + [] == Joined(Serialized(serialize, messages));
    assert unread == [] ==> received + unread == received;
  }

  lemma {:induction false} DeliveredInOrder<M>(serialize: M -> seq<Byte>, deserialize: seq<Byte> -> Option<M>,
                                               messages: seq<M>, n: nat, replies: nat -> Reply)
    requires n <= |messages| && AllAccepted(replies, n)
    requires forall message <- messages :: deserialize(serialize(message)) == Some(message)
    ensures Delivered(deserialize, replies, Serialized(serialize, messages), n) == messages[..n]
  {
    if n > 0 {
      DeliveredInOrder(serialize, deserialize, messages, n - 1, replies);
      assert messages[n - 1] in messages;
      assert messages[..n] == messages[..n - 1] + [messages[n - 1]];
    }
  }

  // ---------- the dialog ----------

  /** What the dialog loop may wake up to. */
  datatype Readiness<M> =
    | ToSend(message: M, written: bool)
    | SenderEnded
    | Arrived(chunk: seq<Byte>)
    | EndOfStream
    | WouldBlock
    | ReadFailure

  /** What the first `n` events brought from the remote peer, and what was sent to it. */
  function BytesArrived<M>(events: seq<Readiness<M>>, n: nat): seq<Byte>
    requires n <= |events|
  {
    if n == 0 then []
    else if events[n - 1].Arrived? then BytesArrived(events, n - 1) + events[n - 1].chunk
    else BytesArrived(events, n - 1)
  }

  function MessagesWritten<M>(events: seq<Readiness<M>>, n: nat): seq<M>
    requires n <= |events|
  {
    if n == 0 then []
    else if events[n - 1].ToSend? && events[n - 1].written then MessagesWritten(events, n - 1) + [events[n - 1].message]
    else MessagesWritten(events, n - 1)
  }

  /** The wake-ups that always end the dialog. */
  predicate Stops<M>(event: Readiness<M>) {
    event.SenderEnded? || event.EndOfStream? || event.ReadFailure? || (event.ToSend? && !event.written)
  }

  /** Offers one line to the deserializer and what comes out of it to the local processor. */
  method OfferLine<M>(deserialize: seq<Byte> -> Option<M>, replies: nat -> Reply, lineBytes: seq<Byte>,
                      offeredBefore: seq<seq<Byte>>, deliveredBefore: seq<M>)
    returns (offered: seq<seq<Byte>>, delivered: seq<M>, goesOn: bool)
    requires deliveredBefore == Delivered(deserialize, replies, offeredBefore, |offeredBefore|)
    requires NoneAborts(deserialize, replies, offeredBefore, |offeredBefore|)
    ensures offered == offeredBefore + [lineBytes]
    ensures delivered == Delivered(deserialize, replies, offered, |offered|)
    ensures if goesOn then NoneAborts(deserialize, replies, offered, |offered|)
            else EndedByLastLine(deserialize, replies, offered)
  {
    offered, delivered := offeredBefore + [lineBytes], deliveredBefore;
    DeliveredFromPrefix(deserialize, replies, offeredBefore, offered, |offeredBefore|);
    assert forall i | 0 <= i < |offeredBefore| :: offered[i] == offeredBefore[i];
    var reply := replies(|offeredBefore|);
    var remoteMessage := deserialize(lineBytes);
    goesOn := true;
    if remoteMessage.Some? {
      if reply.processor.Accepted? {
        delivered := delivered + [remoteMessage.value];
      } else {
        if reply.informsPeer {
          if reply.peer.Refused? && reply.peer.abort {
            return offered, delivered, false;
          }
        }
        if reply.processor.abort {
          return offered, delivered, false;
        }
      }
    } else if reply.informsPeer {
      if reply.peer.Refused? && reply.peer.abort {
        return offered, delivered, false;
      }
    }
  }

  /** Offers the next complete line of the buffer, if there is one. */
  method OfferNextLine<M>(deserialize: seq<Byte> -> Option<M>, replies: nat -> Reply, readBuffer: seq<Byte>,
                          lineStart: nat, searchStart: nat, offeredBefore: seq<seq<Byte>>, deliveredBefore: seq<M>,
                          ghost all: seq<seq<Byte>>, ghost tail: nat)
    returns (nextLineIndex: nat, offered: seq<seq<Byte>>, delivered: seq<M>, found: bool, goesOn: bool)
    requires LeftToOffer(readBuffer, lineStart, searchStart, offeredBefore, all, tail)
    requires deliveredBefore == Delivered(deserialize, replies, offeredBefore, |offeredBefore|)
    requires NoneAborts(deserialize, replies, offeredBefore, |offeredBefore|)
    ensures delivered == Delivered(deserialize, replies, offered, |offered|)
    ensures if goesOn then NoneAborts(deserialize, replies, offered, |offered|)
            else EndedByLastLine(deserialize, replies, offered)
    ensures if found then lineStart < nextLineIndex && offered <= all && LeftToOffer(readBuffer, nextLineIndex, 0, offered, all, tail)
            else goesOn && offered == all && nextLineIndex == tail
  {
    var eolPos := EndOfLine(readBuffer, lineStart + searchStart);
    if eolPos == |readBuffer| {
      NothingLeft(readBuffer, lineStart, searchStart, offeredBefore, all, tail);
      return lineStart, offeredBefore, deliveredBefore, false, true;
    }
    OneLineLess(readBuffer, lineStart, searchStart, offeredBefore, all, tail);
    var lineBytes := readBuffer[lineStart..eolPos];
    offered, delivered, goesOn := OfferLine(deserialize, replies, lineBytes, offeredBefore, deliveredBefore);
    nextLineIndex, found := eolPos + 1, true;
  }

  /** Offers to the deserializer every line completed by the last `n` bytes of the buffer, the others having been
      searched already; tells how many bytes of the buffer are done with. */
  method OfferLines<M>(deserialize: seq<Byte> -> Option<M>, replies: nat -> Reply, readBuffer: seq<Byte>, n: nat,
                       offeredBefore: seq<seq<Byte>>, deliveredBefore: seq<M>)
    returns (nextLineIndex: nat, offered: seq<seq<Byte>>, delivered: seq<M>, goesOn: bool)
    requires 0 < n <= |readBuffer| && forall i | 0 <= i < |readBuffer| - n :: readBuffer[i] != NEWLINE
    requires deliveredBefore == Delivered(deserialize, replies, offeredBefore, |offeredBefore|)
    requires NoneAborts(deserialize, replies, offeredBefore, |offeredBefore|)
    ensures delivered == Delivered(deserialize, replies, offered, |offered|)
    ensures goesOn ==> && offered == offeredBefore + Lines(readBuffer) && nextLineIndex == TailStart(readBuffer, 0)
                       && NoneAborts(deserialize, replies, offered, |offered|)
    ensures !goesOn ==> offered <= offeredBefore + Lines(readBuffer) && EndedByLastLine(deserialize, replies, offered)
  {
    offered, delivered, goesOn := offeredBefore, deliveredBefore, true;
    nextLineIndex := 0;
    var thisLineSearchStart := |readBuffer| - n;
    ghost var all, tail := offeredBefore + Lines(readBuffer), TailStart(readBuffer, 0);
    EndOfLineIs(readBuffer, 0, thisLineSearchStart);
    while nextLineIndex < |readBuffer|
      invariant nextLineIndex <= |readBuffer| && 0 <= thisLineSearchStart && goesOn
      invariant LeftToOffer(readBuffer, nextLineIndex, thisLineSearchStart, offered, all, tail)
      invariant delivered == Delivered(deserialize, replies, offered, |offered|)
      invariant NoneAborts(deserialize, replies, offered, |offered|)
    {
      var found;
      nextLineIndex, offered, delivered, found, goesOn :=
        OfferNextLine(deserialize, replies, readBuffer, nextLineIndex, thisLineSearchStart, offered, delivered, all, tail);
      if !found || !goesOn {
        return;
      }
      thisLineSearchStart := 0;
    }
    NothingLeft(readBuffer, nextLineIndex, thisLineSearchStart, offered, all, tail);
  }

  /** The outcome of a dialog: the lines offered to the deserializer, the messages taken by the local processor, the
      bytes written, and whether the connection was reported closed -- so it can't be handed to another dialog. */
  datatype Outcome<M> = Outcome(offered: seq<seq<Byte>>, delivered: seq<M>, wire: seq<Byte>, closed: bool)

  ghost predicate NoneStops<M>(events: seq<Readiness<M>>, n: nat)
    requires n <= |events|
  {
    forall i | 0 <= i < n :: !Stops(events[i])
  }

  /** A read: what was `received` before is offered and carried over to the last byte, and so is what arrived now. */
  method OnRead<M>(deserialize: seq<Byte> -> Option<M>, replies: nat -> Reply, carriedOver: seq<Byte>, chunk: seq<Byte>,
                   offeredBefore: seq<seq<Byte>>, deliveredBefore: seq<M>, ghost received: seq<Byte>)
    returns (carryOver: seq<Byte>, offered: seq<seq<Byte>>, delivered: seq<M>, goesOn: bool)
    requires chunk != [] && carriedOver == Tail(received) && offeredBefore == Lines(received)
    requires deliveredBefore == Delivered(deserialize, replies, offeredBefore, |offeredBefore|)
    requires NoneAborts(deserialize, replies, offeredBefore, |offeredBefore|)
    ensures delivered == Delivered(deserialize, replies, offered, |offered|)
    ensures goesOn ==> && offered == Lines(received + chunk) && carryOver == Tail(received + chunk)
                       && NoneAborts(deserialize, replies, offered, |offered|)
    ensures !goesOn ==> offered <= Lines(received + chunk) && EndedByLastLine(deserialize, replies, offered)
  {
    CutIncrementally(received, chunk);
    var readBuffer := carriedOver + chunk;
    var nextLineIndex;
    nextLineIndex, offered, delivered, goesOn :=
      OfferLines(deserialize, replies, readBuffer, |chunk|, offeredBefore, deliveredBefore);
    TailStartsThere(readBuffer, 0);
    carryOver := if goesOn then readBuffer[nextLineIndex..] else [];
  }

  /** A write: the message, serialized, and the newline. */
  method Write<M>(serialize: M -> seq<Byte>, wireBefore: seq<Byte>, message: M, ghost sent: seq<M>)
    returns (wire: seq<Byte>)
    requires wireBefore == Joined(Serialized(serialize, sent))
    ensures wire == Joined(Serialized(serialize, sent + [message]))
  {
    var serializationBuffer := serialize(message) + [NEWLINE];
    wire := wireBefore + serializationBuffer;
    OneMoreSent(serialize, sent, message);
  }

  /** The dialog is over: it was woken up to stop, with all lines offered; or the channels gave up on the last one offered. */
  ghost predicate EndsAsExpected<M>(deserialize: seq<Byte> -> Option<M>, replies: nat -> Reply, event: Readiness<M>,
                                    outcome: Outcome<M>, lines: seq<seq<Byte>>) {
    if Stops(event) then
      && outcome.offered == lines && NoneAborts(deserialize, replies, outcome.offered, |outcome.offered|)
      && (outcome.closed <==> !event.SenderEnded?)
    else
      && event.Arrived? && outcome.closed
      && outcome.offered <= lines && EndedByLastLine(deserialize, replies, outcome.offered)
  }

  /** What was offered, delivered and written after the first `handled` events; and why the dialog is over, if it is. */
  ghost predicate IsOutcome<M>(serialize: M -> seq<Byte>, deserialize: seq<Byte> -> Option<M>, replies: nat -> Reply,
                               events: seq<Readiness<M>>, handled: nat, outcome: Outcome<M>)
    requires handled <= |events|
  {
    var lines := Lines(BytesArrived(events, handled));
    && outcome.wire == Joined(Serialized(serialize, MessagesWritten(events, handled)))
    && outcome.delivered == Delivered(deserialize, replies, outcome.offered, |outcome.offered|)
    && if outcome.closed || handled < |events| || !NoneStops(events, handled) then
         && handled > 0 && NoneStops(events, handled - 1)
         && EndsAsExpected(deserialize, replies, events[handled - 1], outcome, lines)
       else
         outcome.offered == lines && NoneAborts(deserialize, replies, outcome.offered, |outcome.offered|)
  }

  /** A wake-up that lets the dialog go on, whatever it brings. */
  predicate GoesOn<M>(event: Readiness<M>) {
    event.Arrived? || event.WouldBlock? || (event.ToSend? && event.written)
  }

  /** The reply for which a line ends the dialog: the processor's channel gave up on the message in it; or the remote
      peer's did, when told that the message was refused or that there was none in the line. */
  predicate GaveUp(decodes: bool, reply: Reply) {
    || (decodes && reply.processor == Refused(true))
    || ((decodes ==> reply.processor == Refused(false)) && reply.informsPeer && reply.peer == Refused(true))
  }

  /** The dialog goes through all wake-ups that let it, up to the first that does not, with every line that arrived
      offered -- be it understood or not; or up to the line for which a channel gave up. Only if the sender ended may the
      connection be used again. */
  lemma EndsExactlyWhen<M>(serialize: M -> seq<Byte>, deserialize: seq<Byte> -> Option<M>, replies: nat -> Reply,
                           events: seq<Readiness<M>>, handled: nat, outcome: Outcome<M>)
    requires handled <= |events| && IsOutcome(serialize, deserialize, replies, events, handled, outcome)
    ensures forall i | 0 <= i < handled - 1 :: GoesOn(events[i])
    ensures if handled > 0 && !GoesOn(events[handled - 1]) then outcome.closed <==> !events[handled - 1].SenderEnded?
            else handled < |events| ==> outcome.closed
    ensures outcome.closed && handled > 0 && GoesOn(events[handled - 1]) ==>
              var last := |outcome.offered| - 1;
              && events[handled - 1].Arrived? && last >= 0
              && GaveUp(deserialize(outcome.offered[last]).Some?, replies(last))
    ensures !outcome.closed || !GoesOn(events[handled - 1]) ==> outcome.offered == Lines(BytesArrived(events, handled))
    ensures NoneGivesUp(replies) ==> && outcome.offered == Lines(BytesArrived(events, handled))
                                     && (handled == |events| || (handled > 0 && !GoesOn(events[handled - 1])))
    ensures forall i: nat | i < |outcome.offered| && GaveUp(deserialize(outcome.offered[i]).Some?, replies(i)) ::
              i == |outcome.offered| - 1 && outcome.closed
  {
    forall i: nat | i < |outcome.offered|
      ensures LineAborts(deserialize, replies, outcome.offered[i], i) <==> GaveUp(deserialize(outcome.offered[i]).Some?, replies(i))
    {
      OfferAbortsExactlyWhen(replies(i));
    }
    forall i | 0 <= i < handled - 1 ensures GoesOn(events[i]) {
      assert !Stops(events[i]);
    }
  }

  /** MAIN RESULT, between two dialogs -- what one delivers, if its processor takes it all, is the first messages the
      other one wrote, even if a dialog ended half way; all of them if everything written arrived and none of the
      dialogs gave up. */
  lemma WrittenIsDelivered<M>(serialize: M -> seq<Byte>, deserialize: seq<Byte> -> Option<M>,
                              replies: nat -> Reply, events: seq<Readiness<M>>, handled: nat, outcome: Outcome<M>,
                              replies': nat -> Reply, events': seq<Readiness<M>>, handled': nat, outcome': Outcome<M>)
    requires handled <= |events| && IsOutcome(serialize, deserialize, replies, events, handled, outcome)
    requires handled' <= |events'| && IsOutcome(serialize, deserialize, replies', events', handled', outcome')
    requires BytesArrived(events', handled') <= outcome.wire && AllAccepted(replies', |outcome'.offered|)
    requires forall message <- MessagesWritten(events, handled) ::
               NewlineFree(serialize(message)) && deserialize(serialize(message)) == Some(message)
    ensures outcome'.delivered <= MessagesWritten(events, handled)
    ensures BytesArrived(events', handled') == outcome.wire && outcome'.offered == Lines(outcome.wire) ==>
              outcome'.delivered == MessagesWritten(events, handled)
  {
    var (messages, received) := (MessagesWritten(events, handled), BytesArrived(events', handled'));
    var (lines, n) := (Serialized(serialize, messages), |outcome'.offered|);
    assert received + outcome.wire[|received|..] == outcome.wire;
    LinesAreTheFirstWritten(serialize, messages, received, outcome.wire[|received|..]);
    assert outcome'.offered <= Lines(received) <= lines;
    DeliveredFromPrefix(deserialize, replies', outcome'.offered, lines, n);
    DeliveredInOrder(serialize, deserialize, messages, n, replies');
  }

  /** The dialog: reads and writes interleave in any way until one of the ends. */
  method DialogLoop<M>(serialize: M -> seq<Byte>, deserialize: seq<Byte> -> Option<M>, replies: nat -> Reply,
                       events: seq<Readiness<M>>)
    returns (handled: nat, outcome: Outcome<M>)
    requires forall i | 0 <= i < |events| && events[i].Arrived? :: events[i].chunk != []
    ensures handled <= |events| && IsOutcome(serialize, deserialize, replies, events, handled, outcome)
  {
    handled := 0;
    var readBuffer: seq<Byte>, offered: seq<seq<Byte>>, delivered: seq<M>, wire: seq<Byte> := [], [], [], [];
    ghost var received: seq<Byte>, sent: seq<M> := [], [];
    while handled < |events|
      invariant handled <= |events| && NoneStops(events, handled)
      invariant received == BytesArrived(events, handled) && sent == MessagesWritten(events, handled)
      invariant wire == Joined(Serialized(serialize, sent))
      invariant delivered == Delivered(deserialize, replies, offered, |offered|)
      invariant offered == Lines(received) && readBuffer == Tail(received)
      invariant NoneAborts(deserialize, replies, offered, |offered|)
    {
      var event := events[handled];
      handled := handled + 1;
      match event {
        case ToSend(message, written) =>
          if !written {
            return handled, Outcome(offered, delivered, wire, true);
          }
          wire := Write(serialize, wire, message, sent);
          sent := sent + [message];
        case SenderEnded =>
          return handled, Outcome(offered, delivered, wire, false);
        case Arrived(chunk) =>
          var goesOn;
          readBuffer, offered, delivered, goesOn :=
            OnRead(deserialize, replies, readBuffer, chunk, offered, delivered, received);
          received := received + chunk;
          if !goesOn {
            return handled, Outcome(offered, delivered, wire, true);
          }
        case EndOfStream =>
          return handled, Outcome(offered, delivered, wire, true);
        case WouldBlock =>
        case ReadFailure =>
          return handled, Outcome(offered, delivered, wire, true);
      }
    }
    outcome := Outcome(offered, delivered, wire, false);
  }

  lemma OneMoreSent<M>(serialize: M -> seq<Byte>, sent: seq<M>, message: M)
    ensures Joined(Serialized(serialize, sent + [message]))
         == Joined(Serialized(serialize, sent)) + (serialize(message) + [NEWLINE])
  {
    JoinedTogether(Serialized(serialize, sent), [serialize(message)], 0);
    assert JoinedFrom([serialize(message)], 1) == [];
    assert Serialized(serialize, sent + [message]) == Serialized(serialize, sent) + [serialize(message)];
  }
}
