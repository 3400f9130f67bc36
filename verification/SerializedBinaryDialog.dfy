/** Binary messages of any size, each preceded by its length in as few bytes as the greatest message needs. */
module SerializedBinaryDialog {
  import opened Wire
  import opened Bits

  // ---------- the length codec ----------

  function Pow256(bytes: nat): (p: nat)
    ensures p > 0
  {
    if bytes == 0 then 1 else 256 * Pow256(bytes - 1)
  }

  function MinBytes(value: nat): nat {
    if value == 0 then 0 else 1 + MinBytes(value / 256)
  }

  /** The least width in which a value fits. */
  lemma {:induction false} MinBytesIsLeast(value: nat, width: nat)
    ensures MinBytes(value) <= width <==> value < Pow256(width)
  {
    if width > 0 && value > 0 {
      MinBytesIsLeast(value / 256, width - 1);
    }
  }

  /** The first `width` bytes of the little endian representation of a value: the others are lost. */
  function LittleEndian(value: nat, width: nat): (bytes: seq<Byte>)
    ensures |bytes| == width
  {
    if width == 0 then [] else [value % 256] + LittleEndian(value / 256, width - 1)
  }

  function Decoded(bytes: seq<Byte>, from: nat): nat
    requires from <= |bytes|
    decreases |bytes| - from
  {
    if from == |bytes| then 0 else bytes[from] + 256 * Decoded(bytes, from + 1)
  }

  lemma {:induction false} DecodedShifts(first: Byte, bytes: seq<Byte>, from: nat)
    requires from <= |bytes|
    ensures Decoded([first] + bytes, from + 1) == Decoded(bytes, from)
    decreases |bytes| - from
  {
    if from < |bytes| {
      DecodedShifts(first, bytes, from + 1);
    }
  }

  lemma {:induction false} DecodedFits(bytes: seq<Byte>, from: nat)
    requires from <= |bytes|
    ensures Decoded(bytes, from) < Pow256(|bytes| - from)
    decreases |bytes| - from
  {
    if from < |bytes| {
      DecodedFits(bytes, from + 1);
    }
  }

  lemma {:induction false} DecodesWhatFits(value: nat, width: nat)
    requires value < Pow256(width)
    ensures Decoded(LittleEndian(value, width), 0) == value
  {
    if width > 0 {
      DecodesWhatFits(value / 256, width - 1);
      DecodedShifts(value % 256, LittleEndian(value / 256, width - 1), 0);
    }
  }

  /** A length survives the codec if, and only if, it fits the prefix. */
  lemma LengthSurvivesIfItFits(value: nat, width: nat)
    ensures Decoded(LittleEndian(value, width), 0) == value <==> value < Pow256(width)
  {
    DecodedFits(LittleEndian(value, width), 0);
    if value < Pow256(width) {
      DecodesWhatFits(value, width);
    }
  }

  /** Every length below the sender's limit survives, if that is not above the limit that sets the prefix width. */
  lemma LengthBelowLimitSurvives(length: nat, senderMaxMsgSize: nat, receiverMaxMsgSize: nat)
    requires length < senderMaxMsgSize <= receiverMaxMsgSize
    ensures Decoded(LittleEndian(length, MinBytes(receiverMaxMsgSize)), 0) == length
  {
    var width := MinBytes(receiverMaxMsgSize);
    MinBytesIsLeast(receiverMaxMsgSize, width);
    LengthSurvivesIfItFits(length, width);
  }

  /** The prefix is the only one that decodes to its value. */
  lemma {:induction false} EncodesWhatWasDecoded(bytes: seq<Byte>, from: nat)
    requires from <= |bytes|
    ensures LittleEndian(Decoded(bytes, from), |bytes| - from) == bytes[from..]
    decreases |bytes| - from
  {
    if from < |bytes| {
      EncodesWhatWasDecoded(bytes, from + 1);
      var (first, rest) := (bytes[from], Decoded(bytes, from + 1));
      assert (first + 256 * rest) % 256 == first && (first + 256 * rest) / 256 == rest;
      assert bytes[from..] == [first] + bytes[from + 1..];
    }
  }

  method MinBytesForUsize(value: nat) returns (count: nat)
    ensures count == MinBytes(value)
  {
    count := 0;
    var v := value;
    while v != 0
      invariant count + MinBytes(v) == MinBytes(value)
    {
      count := count + 1;
      v := v / 256;
    }
  }

  lemma {:induction false} Pow256IsPow2(bytes: nat)
    ensures Pow2(8 * bytes) == Pow256(bytes)
  {
    if bytes > 0 {
      Pow256IsPow2(bytes - 1);
      var b := 8 * bytes;
      assert Pow2(b) == 2 * Pow2(b - 1) == 4 * Pow2(b - 2) == 8 * Pow2(b - 3) == 16 * Pow2(b - 4);
      assert Pow2(b - 4) == 2 * Pow2(b - 5) == 4 * Pow2(b - 6) == 8 * Pow2(b - 7) == 16 * Pow2(b - 8);
    }
  }

  lemma Distributes(p: nat, byte: Byte, rest: nat)
    ensures p * (byte + 256 * rest) == byte * p + (256 * p) * rest
    ensures byte * p <= 255 * p
  {
  }

  /** Setting the byte number `i` over the value of the previous ones. */
  lemma OneMoreByte(bytes: seq<Byte>, i: nat, value: nat)
    requires i < |bytes| && value < Pow256(i)
    ensures var more := Or(value, ShiftLeft(bytes[i], i * 8));
            && more < Pow256(i + 1)
            && more + Pow256(i + 1) * Decoded(bytes, i + 1) == value + Pow256(i) * Decoded(bytes, i)
  {
    Pow256IsPow2(i);
    ShiftIsProduct(bytes[i], i * 8);
    OrAddsAbove(value, bytes[i], i * 8);
    Distributes(Pow256(i), bytes[i], Decoded(bytes, i + 1));
  }

  method DecodeUsizeMin(bytes: seq<Byte>) returns (value: nat)
    requires |bytes| <= 8
    ensures value == Decoded(bytes, 0) < Pow256(|bytes|)
  {
    value := 0;
    for i := 0 to |bytes|
      invariant value < Pow256(i)
      invariant value + Pow256(i) * Decoded(bytes, i) == Decoded(bytes, 0)
    {
      OneMoreByte(bytes, i, value);
      value := Or(value, ShiftLeft(bytes[i], i * 8));
    }
  }

  // ---------- the frames ----------

  /** A message on the wire: the size of its payload and the payload. */
  function Frame(width: nat, payload: seq<Byte>): seq<Byte> {
    LittleEndian(|payload|, width) + payload
  }

  function Frames(width: nat, payloads: seq<seq<Byte>>, from: nat): seq<Byte>
    requires from <= |payloads|
    decreases |payloads| - from
  {
    if from == |payloads| then [] else Frame(width, payloads[from]) + Frames(width, payloads, from + 1)
  }

  predicate Sendable(width: nat, payloads: seq<seq<Byte>>) {
    forall i | 0 <= i < |payloads| :: 0 < |payloads[i]| < Pow256(width)
  }

  lemma {:induction false} FramesAppend(width: nat, payloads: seq<seq<Byte>>, payload: seq<Byte>, from: nat)
    requires from <= |payloads|
    ensures Frames(width, payloads + [payload], from) == Frames(width, payloads, from) + Frame(width, payload)
    decreases |payloads| - from
  {
    if from < |payloads| {
      FramesAppend(width, payloads, payload, from + 1);
    } else {
      assert Frames(width, payloads + [payload], from + 1) == [];
    }
  }

  // ---------- the reader, on values ----------

  datatype ReadState =
    | WaitingForPayloadSize
    | ReadingPayload(payload: seq<Byte>, declared: nat)

  /** What Tokio makes of a buffer that has no room before it reads into it. */
  const GROWN: nat := 64

  /** How many bytes are read before a payload is taken to be complete: the capacity of the buffer. */
  function Capacity(declared: nat): (capacity: nat)
    ensures capacity > 0
  {
    if declared == 0 then GROWN else declared
  }

  /** The room in the buffer the next read fills. */
  function Room(width: nat, state: ReadState): int {
    if state.WaitingForPayloadSize? then width else Capacity(state.declared) - |state.payload|
  }

  /** A read never brings nothing, nor more than fits. */
  predicate Fits(width: nat, state: ReadState, chunk: seq<Byte>) {
    0 < |chunk| <= Room(width, state)
  }

  datatype Reader = Reader(state: ReadState, emitted: seq<seq<Byte>>)

  /** A size not read at once is lost: the buffer for it is cleared before each read. */
  predicate EndsInsidePrefix(width: nat, state: ReadState, chunk: seq<Byte>) {
    state.WaitingForPayloadSize? && |chunk| < width
  }

  function ReadOnce(width: nat, reader: Reader, chunk: seq<Byte>): Reader {
    match reader.state
    case WaitingForPayloadSize =>
      if |chunk| == width then reader.(state := ReadingPayload([], Decoded(chunk, 0))) else reader
    case ReadingPayload(payload, declared) =>
      if |payload + chunk| == Capacity(declared) then Reader(WaitingForPayloadSize, reader.emitted + [payload + chunk])
      else reader.(state := ReadingPayload(payload + chunk, declared))
  }

  /** The bytes of the frame being read. */
  function Pending(width: nat, state: ReadState): seq<Byte> {
    match state
    case WaitingForPayloadSize => []
    case ReadingPayload(payload, declared) => LittleEndian(declared, width) + payload
  }

  // ---------- the dialog loop's wake-ups ----------

  datatype WriteResult = Wrote(bytes: nat) | WriteFailed

  datatype Readiness =
    | ToSend(payload: seq<Byte>, result: WriteResult)
    | SenderEnded
    | Arrived(chunk: seq<Byte>)
    | EndOfStream
    | WouldBlock
    | ReadFailure

  /** The reader after the first `n` events. */
  function ReaderAfter(width: nat, events: seq<Readiness>, n: nat): Reader
    requires n <= |events|
  {
    if n == 0 then Reader(WaitingForPayloadSize, [])
    else if events[n - 1].Arrived? then ReadOnce(width, ReaderAfter(width, events, n - 1), events[n - 1].chunk)
    else ReaderAfter(width, events, n - 1)
  }

  predicate Readable(width: nat, events: seq<Readiness>, n: nat)
    requires n <= |events|
  {
    forall i | 0 <= i < n && events[i].Arrived? :: Fits(width, ReaderAfter(width, events, i).state, events[i].chunk)
  }

  /** No read brought but a part of a payload size. */
  predicate PrefixesComeWhole(width: nat, events: seq<Readiness>, n: nat)
    requires n <= |events|
  {
    forall i | 0 <= i < n && events[i].Arrived? ::
      !EndsInsidePrefix(width, ReaderAfter(width, events, i).state, events[i].chunk)
  }

  function BytesArrived(events: seq<Readiness>, n: nat): seq<Byte>
    requires n <= |events|
  {
    if n == 0 then []
    else if events[n - 1].Arrived? then BytesArrived(events, n - 1) + events[n - 1].chunk
    else BytesArrived(events, n - 1)
  }

  /** The bytes that arrived, but those lost for coming as a part of a payload size. */
  function BytesKept(width: nat, events: seq<Readiness>, n: nat): seq<Byte>
    requires n <= |events|
  {
    if n == 0 then []
    else if events[n - 1].Arrived? && !EndsInsidePrefix(width, ReaderAfter(width, events, n - 1).state, events[n - 1].chunk)
    then BytesKept(width, events, n - 1) + events[n - 1].chunk
    else BytesKept(width, events, n - 1)
  }

  // ---------- what the reader makes of any stream of bytes ----------

  /** The sizes read before each of the payloads emitted. */
  function SizesRead(width: nat, events: seq<Readiness>, n: nat): seq<nat>
    requires n <= |events|
  {
    if n == 0 then []
    else
      var (state, sizes) := (ReaderAfter(width, events, n - 1).state, SizesRead(width, events, n - 1));
      if events[n - 1].Arrived? then sizes + SizesOnce(state, events[n - 1].chunk) else sizes
  }

  function SizesOnce(state: ReadState, chunk: seq<Byte>): seq<nat> {
    if state.ReadingPayload? && |state.payload + chunk| == Capacity(state.declared) then [state.declared] else []
  }

  /** Payloads, each preceded by a size that may not be its own. */
  function Framed(width: nat, sizes: seq<nat>, payloads: seq<seq<Byte>>, from: nat): seq<Byte>
    requires from <= |payloads| == |sizes|
    decreases |payloads| - from
  {
    if from == |payloads| then []
    else (LittleEndian(sizes[from], width) + payloads[from]) + Framed(width, sizes, payloads, from + 1)
  }

  lemma {:induction false} FramedAppend(width: nat, sizes: seq<nat>, payloads: seq<seq<Byte>>, size: nat, payload: seq<Byte>, from: nat)
    requires from <= |payloads| == |sizes|
    ensures Framed(width, sizes + [size], payloads + [payload], from)
         == Framed(width, sizes, payloads, from) + (LittleEndian(size, width) + payload)
    decreases |payloads| - from
  {
    if from < |payloads| {
      FramedAppend(width, sizes, payloads, size, payload, from + 1);
    } else {
      assert Framed(width, sizes + [size], payloads + [payload], from + 1) == [];
    }
  }

  lemma {:induction false} FramedLength(width: nat, sizes: seq<nat>, payloads: seq<seq<Byte>>, from: nat)
    requires from <= |payloads| == |sizes|
    ensures |Framed(width, sizes, payloads, from)| == |Frames(width, payloads, from)|
    decreases |payloads| - from
  {
    if from < |payloads| {
      FramedLength(width, sizes, payloads, from + 1);
    }
  }

  predicate InProgress(width: nat, state: ReadState) {
    state.ReadingPayload? ==> state.declared < Pow256(width) && |state.payload| < Capacity(state.declared)
  }

  predicate AsSized(width: nat, sizes: seq<nat>, payloads: seq<seq<Byte>>) {
    && |sizes| == |payloads|
    && forall i | 0 <= i < |payloads| :: sizes[i] < Pow256(width) && |payloads[i]| == Capacity(sizes[i])
  }

  /** The bytes kept are those of the payloads emitted, with the sizes read before them, and of the frame being read. */
  predicate AccountsFor(width: nat, sizes: seq<nat>, reader: Reader, kept: seq<Byte>) {
    && InProgress(width, reader.state) && AsSized(width, sizes, reader.emitted)
    && kept == Framed(width, sizes, reader.emitted, 0) + Pending(width, reader.state)
  }

  /** Nothing kept is lost, duplicated or reordered -- whatever the stream of bytes. */
  lemma {:induction false} KeptIsAccountedFor(width: nat, events: seq<Readiness>, n: nat)
    requires n <= |events| && Readable(width, events, n)
    ensures AccountsFor(width, SizesRead(width, events, n), ReaderAfter(width, events, n), BytesKept(width, events, n))
  {
    if n > 0 {
      KeptIsAccountedFor(width, events, n - 1);
      var reader := ReaderAfter(width, events, n - 1);
      if events[n - 1].Arrived? {
        assert Fits(width, reader.state, events[n - 1].chunk);
        ReadKeepsAccount(width, SizesRead(width, events, n - 1), reader, events[n - 1].chunk, BytesKept(width, events, n - 1));
      }
    }
  }

  lemma ReadKeepsAccount(width: nat, sizes: seq<nat>, reader: Reader, chunk: seq<Byte>, kept: seq<Byte>)
    requires Fits(width, reader.state, chunk) && AccountsFor(width, sizes, reader, kept)
    ensures AccountsFor(width, sizes + SizesOnce(reader.state, chunk), ReadOnce(width, reader, chunk),
                        if EndsInsidePrefix(width, reader.state, chunk) then kept else kept + chunk)
  {
    if reader.state.ReadingPayload? {
      PayloadKeepsAccount(width, sizes, reader, chunk, kept);
    } else {
      assert sizes + SizesOnce(reader.state, chunk) == sizes;
      if |chunk| == width {
        SizeKeepsAccount(width, sizes, reader, chunk, kept);
      }
    }
  }

  lemma SizeKeepsAccount(width: nat, sizes: seq<nat>, reader: Reader, chunk: seq<Byte>, kept: seq<Byte>)
    requires reader.state.WaitingForPayloadSize? && |chunk| == width && AccountsFor(width, sizes, reader, kept)
    ensures AccountsFor(width, sizes, reader.(state := ReadingPayload([], Decoded(chunk, 0))), kept + chunk)
  {
    DecodedFits(chunk, 0);
    EncodesWhatWasDecoded(chunk, 0);
    assert chunk[0..] == chunk && chunk + [] == chunk && kept == Framed(width, sizes, reader.emitted, 0);
  }

  lemma PayloadKeepsAccount(width: nat, sizes: seq<nat>, reader: Reader, chunk: seq<Byte>, kept: seq<Byte>)
    requires reader.state.ReadingPayload? && Fits(width, reader.state, chunk) && AccountsFor(width, sizes, reader, kept)
    ensures AccountsFor(width, sizes + SizesOnce(reader.state, chunk), ReadOnce(width, reader, chunk), kept + chunk)
  {
    var ReadingPayload(payload, declared) := reader.state;
    Associates(LittleEndian(declared, width), payload, chunk);
    Associates(Framed(width, sizes, reader.emitted, 0), Pending(width, reader.state), chunk);
    if |payload + chunk| == Capacity(declared) {
      FramedAppend(width, sizes, reader.emitted, declared, payload + chunk, 0);
      assert (kept + chunk) + [] == kept + chunk;
    } else {
      assert sizes + [] == sizes;
    }
  }

  /** There is one way to read a stream of frames. */
  lemma {:induction false} FramesInOneWay(width: nat, payloads: seq<seq<Byte>>, sizes: seq<nat>, emitted: seq<seq<Byte>>,
                                          following: seq<Byte>, from: nat)
    requires width > 0 && Sendable(width, payloads) && AsSized(width, sizes, emitted)
    requires from <= |payloads| && from <= |emitted| && forall i | 0 <= i < from :: emitted[i] == payloads[i]
    requires Framed(width, sizes, emitted, from) + following == Frames(width, payloads, from)
    ensures emitted <= payloads && following == Frames(width, payloads, |emitted|)
    decreases |emitted| - from
  {
    if from < |emitted| {
      assert from < |payloads| by {
        assert |Framed(width, sizes, emitted, from)| >= width;
      }
      var rest := Framed(width, sizes, emitted, from + 1);
      Associates(LittleEndian(sizes[from], width) + emitted[from], rest, following);
      SameFrame(width, payloads[from], Frames(width, payloads, from + 1), sizes[from], emitted[from], rest + following);
      FramesInOneWay(width, payloads, sizes, emitted, following, from + 1);
    } else {
      assert Framed(width, sizes, emitted, from) == [];
    }
  }

  /** The same for the frame being read, the first of those left. */
  lemma NextFrameIsBeingRead(width: nat, payloads: seq<seq<Byte>>, state: ReadState, unread: seq<Byte>, next: nat)
    requires width > 0 && Sendable(width, payloads) && next <= |payloads| && InProgress(width, state)
    requires Pending(width, state) + unread == Frames(width, payloads, next)
    ensures state.ReadingPayload? ==>
              && next < |payloads| && state.declared == |payloads[next]| && state.payload < payloads[next]
    ensures unread == [] ==> next == |payloads| && state.WaitingForPayloadSize?
  {
    if state.ReadingPayload? {
      assert |Frames(width, payloads, next)| >= width;
      FrameIsBeingRead(width, payloads[next], Frames(width, payloads, next + 1), state.payload, state.declared, unread);
    }
  }

  lemma FrameIsBeingRead(width: nat, whole: seq<Byte>, rest: seq<Byte>, payload: seq<Byte>, declared: nat, unread: seq<Byte>)
    requires 0 < |whole| < Pow256(width) && declared < Pow256(width) && |payload| < Capacity(declared)
    requires (LittleEndian(declared, width) + payload) + unread == Frame(width, whole) + rest
    ensures declared == |whole| && payload < whole && unread != []
  {
    Associates(LittleEndian(declared, width), payload, unread);
    SameLength(width, whole, rest, declared, payload + unread);
    ShorterComesFirst(payload, unread, whole, rest);
  }

  lemma SameFrame(width: nat, payload: seq<Byte>, rest: seq<Byte>, size: nat, other: seq<Byte>, following: seq<Byte>)
    requires 0 < |payload| < Pow256(width) && size < Pow256(width) && |other| == Capacity(size)
    requires Frame(width, payload) + rest == (LittleEndian(size, width) + other) + following
    ensures payload == other && rest == following
  {
    Associates(LittleEndian(size, width), other, following);
    SameLength(width, payload, rest, size, other + following);
    assert (payload + rest)[..|payload|] == payload && (payload + rest)[|payload|..] == rest;
    assert (other + following)[..|other|] == other && (other + following)[|other|..] == following;
  }

  lemma SameLength(width: nat, payload: seq<Byte>, rest: seq<Byte>, length: nat, following: seq<Byte>)
    requires |payload| < Pow256(width) && length < Pow256(width)
    requires Frame(width, payload) + rest == LittleEndian(length, width) + following
    ensures |payload| == length && following == payload + rest
  {
    var stream := LittleEndian(length, width) + following;
    assert stream[..width] == LittleEndian(length, width) == LittleEndian(|payload|, width);
    assert stream[width..] == following == payload + rest;
    DecodesWhatFits(length, width);
    DecodesWhatFits(|payload|, width);
  }

  /** Only a partial payload size is ever lost. */
  lemma {:induction false} KeptUnlessCutInPrefix(width: nat, events: seq<Readiness>, n: nat)
    requires n <= |events| && Readable(width, events, n)
    ensures |BytesKept(width, events, n)| <= |BytesArrived(events, n)|
    ensures |BytesKept(width, events, n)| == |BytesArrived(events, n)| <==> PrefixesComeWhole(width, events, n)
    ensures PrefixesComeWhole(width, events, n) ==> BytesKept(width, events, n) == BytesArrived(events, n)
  {
    if n > 0 {
      KeptUnlessCutInPrefix(width, events, n - 1);
      assert PrefixesComeWhole(width, events, n) <==>
        PrefixesComeWhole(width, events, n - 1)
        && (events[n - 1].Arrived? ==>
              !EndsInsidePrefix(width, ReaderAfter(width, events, n - 1).state, events[n - 1].chunk));
    }
  }

  /** While no read ends inside a payload size, what was emitted are the first payloads the remote peer wrote, and what
      is being read is the beginning of the next one: no read crosses the end of a frame, however payloads are cut and
      whatever is sent in between. */
  lemma PayloadsComeInOrder(width: nat, payloads: seq<seq<Byte>>, events: seq<Readiness>, n: nat, unread: seq<Byte>)
    requires width > 0 && Sendable(width, payloads) && n <= |events|
    requires Readable(width, events, n) && PrefixesComeWhole(width, events, n)
    requires BytesArrived(events, n) + unread == Frames(width, payloads, 0)
    ensures var reader := ReaderAfter(width, events, n);
            && reader.emitted <= payloads
            && (reader.state.ReadingPayload? ==>
                  && |reader.emitted| < |payloads| && reader.state.declared == |payloads[|reader.emitted|]| > 0
                  && reader.state.payload < payloads[|reader.emitted|])
            && (unread == [] ==> reader == Reader(WaitingForPayloadSize, payloads))
  {
    KeptIsAccountedFor(width, events, n);
    KeptUnlessCutInPrefix(width, events, n);
    var (reader, sizes) := (ReaderAfter(width, events, n), SizesRead(width, events, n));
    Associates(Framed(width, sizes, reader.emitted, 0), Pending(width, reader.state), unread);
    FramesInOneWay(width, payloads, sizes, reader.emitted, Pending(width, reader.state) + unread, 0);
    NextFrameIsBeingRead(width, payloads, reader.state, unread, |reader.emitted|);
  }

  /** MAIN RESULT -- once all the bytes of some frames arrived, they were emitted, all of them and nothing else, if and
      only if no read brought but a part of a payload size. */
  lemma RoundTripUnlessCutInPrefix(width: nat, payloads: seq<seq<Byte>>, events: seq<Readiness>, n: nat)
    requires width > 0 && Sendable(width, payloads) && n <= |events| && Readable(width, events, n)
    requires BytesArrived(events, n) == Frames(width, payloads, 0)
    ensures ReaderAfter(width, events, n) == Reader(WaitingForPayloadSize, payloads)
       <==> PrefixesComeWhole(width, events, n)
  {
    KeptIsAccountedFor(width, events, n);
    KeptUnlessCutInPrefix(width, events, n);
    if PrefixesComeWhole(width, events, n) {
      assert BytesArrived(events, n) + [] == BytesArrived(events, n);
      PayloadsComeInOrder(width, payloads, events, n, []);
    } else if ReaderAfter(width, events, n) == Reader(WaitingForPayloadSize, payloads) {
      FramedLength(width, SizesRead(width, events, n), payloads, 0);
    }
  }

  /** It does happen: the two bytes of a size come in two reads, and the payload of one byte that follows is lost. */
  lemma CutPrefixLosesPayload(byte: Byte)
    ensures var (payloads, events) := ([[byte]], [Arrived([1]), Arrived([0, byte])]);
            && Sendable(2, payloads) && Readable(2, events, 2) && BytesArrived(events, 2) == Frames(2, payloads, 0)
            && ReaderAfter(2, events, 2) == Reader(ReadingPayload([], 256 * byte), [])
  {
    var (payloads, events) := ([[byte]], [Arrived([1]), Arrived([0, byte])]);
    assert Pow256(2) == 256 * Pow256(1) == 256 * (256 * Pow256(0));
    assert LittleEndian(1, 2) == [1] + LittleEndian(0, 1) == [1, 0];
    assert Frames(2, payloads, 1) == [];
    assert Frames(2, payloads, 0) == [1, 0, byte];
    assert BytesArrived(events, 0) == [] && BytesArrived(events, 1) == [1];
    assert ReaderAfter(2, events, 0) == Reader(WaitingForPayloadSize, []);
    assert ReaderAfter(2, events, 1) == Reader(WaitingForPayloadSize, []);
    var chunk := [0, byte];
    assert Decoded(chunk, 2) == 0 && Decoded(chunk, 1) == byte && Decoded(chunk, 0) == 256 * byte;
  }

  // ---------- the writer ----------

  /** The payloads for which a write was attempted with success. */
  function PayloadsSent(events: seq<Readiness>, n: nat): seq<seq<Byte>>
    requires n <= |events|
  {
    if n == 0 then []
    else if events[n - 1].ToSend? && events[n - 1].result.Wrote? then PayloadsSent(events, n - 1) + [events[n - 1].payload]
    else PayloadsSent(events, n - 1)
  }

  predicate Writable(width: nat, events: seq<Readiness>, n: nat)
    requires n <= |events|
  {
    forall i | 0 <= i < n && events[i].ToSend? && events[i].result.Wrote? ::
      events[i].result.bytes <= |Frame(width, events[i].payload)|
  }

  /** A vectored write may take but a part of what it is given. */
  predicate WritesWholeFrames(width: nat, events: seq<Readiness>, n: nat)
    requires n <= |events|
  {
    forall i | 0 <= i < n && events[i].ToSend? && events[i].result.Wrote? ::
      events[i].result.bytes == |Frame(width, events[i].payload)|
  }

  /** What a vectored write of the size and the payload that took but `bytes` of them puts on the wire. */
  function Vectored(width: nat, payload: seq<Byte>, bytes: nat): seq<Byte>
    requires bytes <= |Frame(width, payload)|
  {
    Frame(width, payload)[..bytes]
  }

  function BytesWritten(width: nat, events: seq<Readiness>, n: nat): seq<Byte>
    requires n <= |events| && Writable(width, events, n)
  {
    if n == 0 then []
    else if events[n - 1].ToSend? && events[n - 1].result.Wrote? then
      BytesWritten(width, events, n - 1) + Vectored(width, events[n - 1].payload, events[n - 1].result.bytes)
    else BytesWritten(width, events, n - 1)
  }

  lemma WholeOnlyIfLong(bytes: seq<Byte>, n: nat)
    requires n <= |bytes|
    ensures |bytes[..n]| == |bytes| <==> n == |bytes|
    ensures bytes[..n] == bytes <==> n == |bytes|
  {
  }

  /** The wire carries the frames of what was sent exactly when no write was a partial one. */
  lemma {:induction false} FramesAreWrittenWhole(width: nat, events: seq<Readiness>, n: nat)
    requires n <= |events| && Writable(width, events, n)
    ensures |BytesWritten(width, events, n)| <= |Frames(width, PayloadsSent(events, n), 0)|
    ensures |BytesWritten(width, events, n)| == |Frames(width, PayloadsSent(events, n), 0)|
       <==> WritesWholeFrames(width, events, n)
    ensures BytesWritten(width, events, n) == Frames(width, PayloadsSent(events, n), 0)
       <==> WritesWholeFrames(width, events, n)
  {
    if n > 0 {
      FramesAreWrittenWhole(width, events, n - 1);
      var event := events[n - 1];
      if event.ToSend? && event.result.Wrote? {
        FramesAppend(width, PayloadsSent(events, n - 1), event.payload, 0);
        WholeOnlyIfLong(Frame(width, event.payload), event.result.bytes);
      }
      assert WritesWholeFrames(width, events, n) <==>
        WritesWholeFrames(width, events, n - 1)
        && (event.ToSend? && event.result.Wrote? ==> event.result.bytes == |Frame(width, event.payload)|);
    }
  }

  // ---------- the dialog ----------

  /** The wake-ups that always end the dialog. */
  predicate Stops(event: Readiness) {
    event.SenderEnded? || event.EndOfStream? || event.ReadFailure? || (event.ToSend? && event.result.WriteFailed?)
  }

  predicate NoneStops(events: seq<Readiness>, n: nat)
    requires n <= |events|
  {
    forall i | 0 <= i < n :: !Stops(events[i])
  }

  /** The messages taken by the local processor, out of the first `n` offered to it. */
  function Taken(replies: nat -> Reply, emitted: seq<seq<Byte>>, n: nat): seq<seq<Byte>>
    requires n <= |emitted|
  {
    if n == 0 then []
    else if replies(n - 1).processor.Accepted? then Taken(replies, emitted, n - 1) + [emitted[n - 1]]
    else Taken(replies, emitted, n - 1)
  }

  lemma {:induction false} TakenFromPrefix(replies: nat -> Reply, emitted: seq<seq<Byte>>, longer: seq<seq<Byte>>, n: nat)
    requires n <= |emitted| && emitted <= longer
    ensures Taken(replies, longer, n) == Taken(replies, emitted, n)
  {
    if n > 0 {
      TakenFromPrefix(replies, emitted, longer, n - 1);
      assert longer[n - 1] == emitted[n - 1];
    }
  }

  predicate NoneAborts(replies: nat -> Reply, n: int) {
    forall i | 0 <= i < n :: !OfferAborts(replies(i))
  }

  lemma {:induction false} TakenAt(replies: nat -> Reply, emitted: seq<seq<Byte>>, n: nat, k: nat)
    requires k < n <= |emitted| && replies(k).processor.Accepted?
    ensures AcceptedFirst(replies, k) < |Taken(replies, emitted, n)| == AcceptedFirst(replies, n)
    ensures Taken(replies, emitted, n)[AcceptedFirst(replies, k)] == emitted[k]
  {
    TakenAreCounted(replies, emitted, n - 1);
    if k < n - 1 {
      TakenAt(replies, emitted, n - 1, k);
    }
  }

  lemma {:induction false} TakenAreCounted(replies: nat -> Reply, emitted: seq<seq<Byte>>, n: nat)
    requires n <= |emitted|
    ensures |Taken(replies, emitted, n)| == AcceptedFirst(replies, n)
  {
    if n > 0 {
      TakenAreCounted(replies, emitted, n - 1);
    }
  }

  lemma {:induction false} AllAreTaken(replies: nat -> Reply, emitted: seq<seq<Byte>>, n: nat)
    requires n <= |emitted| && AllAccepted(replies, n)
    ensures Taken(replies, emitted, n) == emitted[..n]
  {
    if n > 0 {
      AllAreTaken(replies, emitted, n - 1);
      assert emitted[..n] == emitted[..n - 1] + [emitted[n - 1]];
    }
  }

  /** Each payload the local processor takes comes after those it took before, and there is nothing else. */
  lemma TakenInOrder(replies: nat -> Reply, emitted: seq<seq<Byte>>, n: nat)
    requires n <= |emitted|
    ensures |Taken(replies, emitted, n)| == AcceptedFirst(replies, n)
    ensures forall k: nat | k < n && replies(k).processor.Accepted? ::
              && AcceptedFirst(replies, k) < |Taken(replies, emitted, n)|
              && Taken(replies, emitted, n)[AcceptedFirst(replies, k)] == emitted[k]
    ensures AllAccepted(replies, n) ==> Taken(replies, emitted, n) == emitted[..n]
  {
    TakenAreCounted(replies, emitted, n);
    forall k: nat | k < n && replies(k).processor.Accepted?
      ensures AcceptedFirst(replies, k) < |Taken(replies, emitted, n)|
      ensures Taken(replies, emitted, n)[AcceptedFirst(replies, k)] == emitted[k]
    {
      TakenAt(replies, emitted, n, k);
    }
    if AllAccepted(replies, n) {
      AllAreTaken(replies, emitted, n);
    }
  }

  datatype Outcome = Outcome(emitted: seq<seq<Byte>>, taken: seq<seq<Byte>>, wire: seq<Byte>, closed: bool)

  /** One read: what is being read changes, and maybe a message is offered to the local processor. */
  method OnRead(width: nat, replies: nat -> Reply, before: ReadState, emittedBefore: seq<seq<Byte>>,
                takenBefore: seq<seq<Byte>>, chunk: seq<Byte>)
    returns (readState: ReadState, emitted: seq<seq<Byte>>, taken: seq<seq<Byte>>, goesOn: bool)
    requires 0 < width <= 8 && Fits(width, before, chunk)
    requires takenBefore == Taken(replies, emittedBefore, |emittedBefore|) && NoneAborts(replies, |emittedBefore|)
    ensures Reader(readState, emitted) == ReadOnce(width, Reader(before, emittedBefore), chunk)
    ensures taken == Taken(replies, emitted, |emitted|)
    ensures NoneAborts(replies, |emitted| - 1)
    ensures if goesOn then NoneAborts(replies, |emitted|) else |emitted| > 0 && OfferAborts(replies(|emitted| - 1))
  {
    readState, emitted, taken, goesOn := before, emittedBefore, takenBefore, true;
    match before {
      case WaitingForPayloadSize =>
        // whatever was in the payload size buffer was cleared before this read
        var payloadSizeBuffer := chunk;
        if |payloadSizeBuffer| == width {
          var expectedPayloadLen := DecodeUsizeMin(payloadSizeBuffer);
          readState := ReadingPayload([], expectedPayloadLen);
        }
      case ReadingPayload(payload, declared) =>
        var payloadReadBuffer := payload + chunk;
        if |payloadReadBuffer| == Capacity(declared) {
          var reply := replies(|emitted|);
          emitted := emitted + [payloadReadBuffer];
          readState := WaitingForPayloadSize;
          TakenFromPrefix(replies, emittedBefore, emitted, |emittedBefore|);
          if reply.processor.Accepted? {
            taken := taken + [payloadReadBuffer];
          } else {
            goesOn := !(reply.informsPeer && reply.peer.Refused? && reply.peer.abort) && !reply.processor.abort;
          }
        } else {
          readState := ReadingPayload(payloadReadBuffer, declared);
        }
    }
  }

  lemma WidthIsSmall(maxMsgSize: nat)
    requires 0 < maxMsgSize < 0x1_0000_0000
    ensures 0 < MinBytes(maxMsgSize) <= 4
  {
    MinBytesIsLeast(maxMsgSize, 4);
    MinBytesIsLeast(maxMsgSize, 0);
    assert Pow256(2) == 256 * Pow256(1) == 256 * (256 * Pow256(0));
    assert Pow256(4) == 256 * Pow256(3) == 256 * (256 * Pow256(2));
  }

  /** The dialog is over: it was woken up to stop, or the channels gave up on the last message emitted. */
  predicate EndsAsExpected(replies: nat -> Reply, event: Readiness, outcome: Outcome) {
    if Stops(event) then NoneAborts(replies, |outcome.emitted|) && (outcome.closed <==> !event.SenderEnded?)
    else event.Arrived? && outcome.closed && |outcome.emitted| > 0 && OfferAborts(replies(|outcome.emitted| - 1))
  }

  /** What was emitted, taken and written after the first `handled` events; and why the dialog is over, if it is. */
  predicate IsOutcome(width: nat, replies: nat -> Reply, events: seq<Readiness>, handled: nat, outcome: Outcome)
    requires handled <= |events| && Writable(width, events, handled)
  {
    && outcome.wire == BytesWritten(width, events, handled)
    && outcome.emitted == ReaderAfter(width, events, handled).emitted
    && outcome.taken == Taken(replies, outcome.emitted, |outcome.emitted|)
    && NoneAborts(replies, |outcome.emitted| - 1)
    && if outcome.closed || handled < |events| || !NoneStops(events, handled) then
         handled > 0 && NoneStops(events, handled - 1) && EndsAsExpected(replies, events[handled - 1], outcome)
       else
         NoneAborts(replies, |outcome.emitted|)
  }

  /** A wake-up that lets the dialog go on, whatever it brings. */
  predicate GoesOn(event: Readiness) {
    event.Arrived? || event.WouldBlock? || (event.ToSend? && event.result.Wrote?)
  }

  /** The dialog goes through all wake-ups that let it, up to the first that does not; or up to the message for which a
      channel gave up: the processor's or, told that the processor's refused, the remote peer's. Only if the sender ended
      may the connection be used again. */
  lemma EndsExactlyWhen(width: nat, replies: nat -> Reply, events: seq<Readiness>, handled: nat, outcome: Outcome)
    requires handled <= |events| && Writable(width, events, handled) && IsOutcome(width, replies, events, handled, outcome)
    ensures forall i | 0 <= i < handled - 1 :: GoesOn(events[i])
    ensures if handled > 0 && !GoesOn(events[handled - 1]) then outcome.closed <==> !events[handled - 1].SenderEnded?
            else handled < |events| ==> outcome.closed
    ensures outcome.closed && handled > 0 && GoesOn(events[handled - 1]) ==>
              var reply := replies(|outcome.emitted| - 1);
              && events[handled - 1].Arrived? && outcome.emitted != []
              && (|| reply.processor == Refused(true)
                  || (reply.processor == Refused(false) && reply.informsPeer && reply.peer == Refused(true)))
    ensures NoneGivesUp(replies) ==> handled == |events| || (handled > 0 && !GoesOn(events[handled - 1]))
    ensures forall i: nat | i < |outcome.emitted| && replies(i).processor == Refused(true) ::
              i == |outcome.emitted| - 1 && outcome.closed
  {
    forall i: nat | i < |outcome.emitted| {
      OfferAbortsExactlyWhen(replies(i));
    }
    forall i | 0 <= i < handled - 1 ensures GoesOn(events[i]) {
      assert !Stops(events[i]);
    }
  }

  /** MAIN RESULT, between two dialogs -- if none of the writes is partial, and no read ends inside a payload size, what
      one emits is the first payloads the other one sent; all of them if everything written arrived. */
  lemma WrittenIsEmitted(width: nat, replies: nat -> Reply, events: seq<Readiness>, handled: nat, outcome: Outcome,
                         replies': nat -> Reply, events': seq<Readiness>, handled': nat, outcome': Outcome)
    requires width > 0 && handled <= |events| && handled' <= |events'|
    requires Writable(width, events, handled) && IsOutcome(width, replies, events, handled, outcome)
    requires Writable(width, events', handled') && IsOutcome(width, replies', events', handled', outcome')
    requires WritesWholeFrames(width, events, handled) && Sendable(width, PayloadsSent(events, handled))
    requires Readable(width, events', handled') && PrefixesComeWhole(width, events', handled')
    requires BytesArrived(events', handled') <= outcome.wire
    ensures outcome'.emitted <= PayloadsSent(events, handled)
    ensures BytesArrived(events', handled') == outcome.wire ==> outcome'.emitted == PayloadsSent(events, handled)
  {
    FramesAreWrittenWhole(width, events, handled);
    var unread := outcome.wire[|BytesArrived(events', handled')|..];
    assert BytesArrived(events', handled') + unread == outcome.wire;
    PayloadsComeInOrder(width, PayloadsSent(events, handled), events', handled', unread);
  }

  /** And that is what its processor takes, but for what it refuses: with no refusals, the first payloads sent. */
  lemma WrittenIsTaken(width: nat, replies: nat -> Reply, events: seq<Readiness>, handled: nat, outcome: Outcome,
                       replies': nat -> Reply, events': seq<Readiness>, handled': nat, outcome': Outcome)
    requires width > 0 && handled <= |events| && handled' <= |events'|
    requires Writable(width, events, handled) && IsOutcome(width, replies, events, handled, outcome)
    requires Writable(width, events', handled') && IsOutcome(width, replies', events', handled', outcome')
    requires WritesWholeFrames(width, events, handled) && Sendable(width, PayloadsSent(events, handled))
    requires Readable(width, events', handled') && PrefixesComeWhole(width, events', handled')
    requires BytesArrived(events', handled') <= outcome.wire
    ensures var sent := PayloadsSent(events, handled);
            && |outcome'.emitted| <= |sent| && outcome'.taken == Taken(replies', sent, |outcome'.emitted|)
            && |outcome'.taken| == AcceptedFirst(replies', |outcome'.emitted|)
            && (AllAccepted(replies', |outcome'.emitted|) ==> outcome'.taken <= sent)
            && (AllAccepted(replies', |outcome'.emitted|) && BytesArrived(events', handled') == outcome.wire ==> outcome'.taken == sent)
  {
    WrittenIsEmitted(width, replies, events, handled, outcome, replies', events', handled', outcome');
    TakenFromPrefix(replies', outcome'.emitted, PayloadsSent(events, handled), |outcome'.emitted|);
    TakenInOrder(replies', outcome'.emitted, |outcome'.emitted|);
    assert outcome'.emitted[..|outcome'.emitted|] == outcome'.emitted;
  }

  /** How the dialog is after the first `n` events, if it is not over. */
  predicate IsUnderWay(width: nat, replies: nat -> Reply, events: seq<Readiness>, n: nat, reader: Reader, taken: seq<seq<Byte>>,
                       wire: seq<Byte>)
    requires n <= |events| && Writable(width, events, n)
  {
    && NoneStops(events, n) && reader == ReaderAfter(width, events, n) && wire == BytesWritten(width, events, n)
    && taken == Taken(replies, reader.emitted, |reader.emitted|) && NoneAborts(replies, |reader.emitted|)
  }

  /** One round of the loop, for the event number `n`. */
  method OnWakeUp(width: nat, replies: nat -> Reply, event: Readiness, before: ReadState, emittedBefore: seq<seq<Byte>>,
                  takenBefore: seq<seq<Byte>>, wireBefore: seq<Byte>, ghost events: seq<Readiness>, ghost n: nat)
    returns (readState: ReadState, emitted: seq<seq<Byte>>, taken: seq<seq<Byte>>, wire: seq<Byte>, ended: bool, closed: bool)
    requires 0 < width <= 8 && n < |events| && event == events[n] && Writable(width, events, n + 1)
    requires event.Arrived? ==> Fits(width, before, event.chunk)
    requires IsUnderWay(width, replies, events, n, Reader(before, emittedBefore), takenBefore, wireBefore)
    ensures if ended then IsOutcome(width, replies, events, n + 1, Outcome(emitted, taken, wire, closed))
            else IsUnderWay(width, replies, events, n + 1, Reader(readState, emitted), taken, wire)
  {
    readState, emitted, taken, wire := before, emittedBefore, takenBefore, wireBefore;
    ended, closed := false, false;
    match event {
      case ToSend(payload, result) =>
        match result {
          case Wrote(bytes) =>
            wire := wire + Vectored(width, payload, bytes);
          case WriteFailed =>
            ended, closed := true, true;
        }
      case SenderEnded =>
        ended := true;
      case Arrived(chunk) =>
        var goesOn;
        readState, emitted, taken, goesOn := OnRead(width, replies, before, emittedBefore, takenBefore, chunk);
        ended, closed := !goesOn, !goesOn;
      case EndOfStream =>
        ended, closed := true, true;
      case WouldBlock =>
      case ReadFailure =>
        ended, closed := true, true;
    }
  }

  /** The dialog: reads and writes interleave in any way until one of the ends. */
  method DialogLoop(receiverMaxMsgSize: nat, replies: nat -> Reply, events: seq<Readiness>)
    returns (width: nat, handled: nat, outcome: Outcome)
    requires 0 < receiverMaxMsgSize < 0x1_0000_0000
    requires Readable(MinBytes(receiverMaxMsgSize), events, |events|)
    requires Writable(MinBytes(receiverMaxMsgSize), events, |events|)
    ensures width == MinBytes(receiverMaxMsgSize) && handled <= |events|
    ensures IsOutcome(width, replies, events, handled, outcome)
  {
    WidthIsSmall(receiverMaxMsgSize);
    width := MinBytesForUsize(receiverMaxMsgSize);
    handled := 0;
    var readState, emitted: seq<seq<Byte>>, taken: seq<seq<Byte>>, wire: seq<Byte> := WaitingForPayloadSize, [], [], [];
    while handled < |events|
      invariant handled <= |events|
      invariant IsUnderWay(width, replies, events, handled, Reader(readState, emitted), taken, wire)
    {
      var ended, closed;
      readState, emitted, taken, wire, ended, closed :=
        OnWakeUp(width, replies, events[handled], readState, emitted, taken, wire, events, handled);
      handled := handled + 1;
      if ended {
        return width, handled, Outcome(emitted, taken, wire, closed);
      }
    }
    outcome := Outcome(emitted, taken, wire, false);
  }
}
