/** Binary messages that all have the same size: each is received in place, in a slot of the processor's channel. */
module MmapBinaryDialog {
  import opened Wrappers
  import opened Wire

  // ---------- blocks of a fixed size ----------

  /** The stream made of the blocks since the one number `from`. */
  function Joined(blocks: seq<seq<Byte>>, from: nat): seq<Byte>
    requires from <= |blocks|
    decreases |blocks| - from
  {
    if from == |blocks| then [] else blocks[from] + Joined(blocks, from + 1)
  }

  predicate AllSized(size: nat, blocks: seq<seq<Byte>>) {
    forall i | 0 <= i < |blocks| :: |blocks[i]| == size
  }

  lemma {:induction false} JoinedAppend(blocks: seq<seq<Byte>>, block: seq<Byte>, from: nat)
    requires from <= |blocks|
    ensures Joined(blocks + [block], from) == Joined(blocks, from) + block
    decreases |blocks| - from
  {
    if from < |blocks| {
      JoinedAppend(blocks, block, from + 1);
    } else {
      assert Joined(blocks + [block], from + 1) == [];
    }
  }

  lemma BlockGrows(blocks: seq<seq<Byte>>, partial: seq<Byte>, chunk: seq<Byte>)
    ensures Joined(blocks, 0) + (partial + chunk) == (Joined(blocks, 0) + partial) + chunk
    ensures Joined(blocks + [partial + chunk], 0) + [] == (Joined(blocks, 0) + partial) + chunk
  {
    JoinedAppend(blocks, partial + chunk, 0);
  }

  /** There is one way to see a stream as blocks of a size plus less than a block: and it does not depend on what comes
      later. */
  lemma {:induction false} CutInOneWay(size: nat, all: seq<seq<Byte>>, blocks: seq<seq<Byte>>, partial: seq<Byte>,
                                       unread: seq<Byte>, from: nat)
    requires AllSized(size, all) && AllSized(size, blocks) && |partial| < size
    requires from <= |all| && from <= |blocks| && forall i | 0 <= i < from :: all[i] == blocks[i]
    requires Joined(blocks, from) + (partial + unread) == Joined(all, from)
    ensures blocks <= all && partial + unread == Joined(all, |blocks|)
    ensures if |blocks| < |all| then partial < all[|blocks|] else partial == []
    ensures unread == [] ==> blocks == all
    decreases |blocks| - from
  {
    if from < |blocks| {
      assert from < |all|;
      SplitsAtSize(blocks[from], Joined(blocks, from + 1), partial + unread, all[from], Joined(all, from + 1));
      CutInOneWay(size, all, blocks, partial, unread, from + 1);
    } else if from < |all| {
      ShorterComesFirst(partial, unread, all[from], Joined(all, from + 1));
    }
  }

  lemma SplitsAtSize(block: seq<Byte>, middle: seq<Byte>, end: seq<Byte>, other: seq<Byte>, rest: seq<Byte>)
    requires |block| == |other| && (block + middle) + end == other + rest
    ensures block == other && middle + end == rest
  {
    var stream := other + rest;
    assert stream == block + (middle + end);
    assert block == stream[..|block|] == other;
    assert middle + end == stream[|block|..] == rest;
  }

  /** A block is where it is expected in the stream. */
  lemma {:induction false} BlockIsThere(size: nat, blocks: seq<seq<Byte>>, tail: seq<Byte>, i: nat)
    requires AllSized(size, blocks) && i < |blocks|
    ensures var stream := Joined(blocks, 0) + tail;
            && 0 <= i * size <= (i + 1) * size <= |stream|
            && stream[i * size..(i + 1) * size] == blocks[i]
  {
    JoinedSkips(size, blocks, i);
    assert (i + 1) * size == i * size + size;
    var stream := Joined(blocks, 0) + tail;
    assert Joined(blocks, i) == blocks[i] + Joined(blocks, i + 1);
    assert stream == Joined(blocks, 0)[..i * size] + (blocks[i] + (Joined(blocks, i + 1) + tail));
  }

  lemma {:induction false} JoinedSkips(size: nat, blocks: seq<seq<Byte>>, i: nat)
    requires AllSized(size, blocks) && i <= |blocks|
    ensures 0 <= i * size <= |Joined(blocks, 0)| && Joined(blocks, 0)[i * size..] == Joined(blocks, i)
  {
    if i > 0 {
      JoinedSkips(size, blocks, i - 1);
      var skipped := (i - 1) * size;
      assert i * size == skipped + size;
      assert Joined(blocks, i - 1) == blocks[i - 1] + Joined(blocks, i);
      assert Joined(blocks, 0)[skipped..][size..] == Joined(blocks, 0)[skipped + size..];
    }
  }

  lemma {:induction false} JoinedLength(size: nat, blocks: seq<seq<Byte>>, from: nat)
    requires AllSized(size, blocks) && from <= |blocks|
    ensures |Joined(blocks, from)| == (|blocks| - from) * size
    decreases |blocks| - from
  {
    if from < |blocks| {
      JoinedLength(size, blocks, from + 1);
    }
  }

  // ---------- the life of the slots ----------

  /** Slots are numbered in the order they are reserved. */
  datatype SlotEvent = Reserved(slot: nat) | Published(slot: nat) | Cancelled(slot: nat)

  /** The first `n` slots, reserved and then published. */
  function PublishedSlots(n: nat): seq<SlotEvent> {
    if n == 0 then [] else PublishedSlots(n - 1) + [Reserved(n - 1), Published(n - 1)]
  }

  /** How many times a slot was given back to the channel, as a message or not. */
  function Releases(log: seq<SlotEvent>, slot: nat): nat {
    if log == [] then 0
    else Releases(log[..|log| - 1], slot) + (if log[|log| - 1] in {Published(slot), Cancelled(slot)} then 1 else 0)
  }

  lemma OneMoreRelease(log: seq<SlotEvent>, event: SlotEvent, slot: nat)
    ensures Releases(log + [event], slot)
         == Releases(log, slot) + if event in {Published(slot), Cancelled(slot)} then 1 else 0
  {
    assert (log + [event])[..|log|] == log;
  }

  lemma {:induction false} PublishedOnce(n: nat, slot: nat)
    ensures Releases(PublishedSlots(n), slot) == if slot < n then 1 else 0
    ensures Reserved(slot) in PublishedSlots(n) <==> slot < n
  {
    if n > 0 {
      PublishedOnce(n - 1, slot);
      var log := PublishedSlots(n - 1);
      OneMoreRelease(log, Reserved(n - 1), slot);
      OneMoreRelease(log + [Reserved(n - 1)], Published(n - 1), slot);
      assert PublishedSlots(n) == (log + [Reserved(n - 1)]) + [Published(n - 1)];
    }
  }

  /** The log of a dialog that ended after publishing `n` slots. */
  function FullLog(replies: nat -> Reply, n: nat): seq<SlotEvent> {
    if replies(n).processor.Accepted? then PublishedSlots(n) + [Reserved(n), Cancelled(n)]
    else if n == 0 then []
    else PublishedSlots(n) + [Cancelled(n - 1)]
  }

  lemma FullLogReleases(replies: nat -> Reply, n: nat, slot: nat)
    ensures Reserved(slot) in FullLog(replies, n) <==> slot < n || (slot == n && replies(n).processor.Accepted?)
    ensures slot < n ==>
              Releases(FullLog(replies, n), slot) == if slot == n - 1 && replies(n).processor.Refused? then 2 else 1
    ensures slot == n && replies(n).processor.Accepted? ==> Releases(FullLog(replies, n), slot) == 1
  {
    PublishedOnce(n, slot);
    var log := PublishedSlots(n);
    if replies(n).processor.Accepted? {
      OneMoreRelease(log, Reserved(n), slot);
      OneMoreRelease(log + [Reserved(n)], Cancelled(n), slot);
      assert (log + [Reserved(n)]) + [Cancelled(n)] == FullLog(replies, n);
    } else if n > 0 {
      OneMoreRelease(log, Cancelled(n - 1), slot);
    }
  }

  /** Each reserved slot is given back once if, and only if, the dialog did not end for not being able to reserve one
      more slot: then the last one published is cancelled as well. */
  lemma ReleasedOnceUnlessReservationFails(replies: nat -> Reply, n: nat)
    ensures (forall slot: nat | Reserved(slot) in FullLog(replies, n) :: Releases(FullLog(replies, n), slot) == 1)
       <==> n == 0 || replies(n).processor.Accepted?
    ensures n > 0 && replies(n).processor.Refused? ==> Releases(FullLog(replies, n), n - 1) == 2
  {
    forall slot: nat | Reserved(slot) in FullLog(replies, n) && (n == 0 || replies(n).processor.Accepted?)
      ensures Releases(FullLog(replies, n), slot) == 1
    {
      FullLogReleases(replies, n, slot);
    }
    if n > 0 {
      FullLogReleases(replies, n, n - 1);
    }
  }

  // ---------- the dialog ----------

  datatype Readiness =
    | ToSend(payload: seq<Byte>, written: bool)
    | SenderEnded
    | Arrived(chunk: seq<Byte>)
    | EndOfStream
    | WouldBlock
    | ReadFailure

  function BytesArrived(events: seq<Readiness>, n: nat): seq<Byte>
    requires n <= |events|
  {
    if n == 0 then []
    else if events[n - 1].Arrived? then BytesArrived(events, n - 1) + events[n - 1].chunk
    else BytesArrived(events, n - 1)
  }

  /** How much of a block was received after the first `n` events. */
  function ReceivedLen(size: nat, events: seq<Readiness>, n: nat): nat
    requires n <= |events|
  {
    if n == 0 then 0
    else if events[n - 1].Arrived? then
      var received := ReceivedLen(size, events, n - 1) + |events[n - 1].chunk|;
      if received == size then 0 else received
    else ReceivedLen(size, events, n - 1)
  }

  /** A read never brings nothing, nor more than the room left in the slot. */
  predicate Readable(size: nat, events: seq<Readiness>) {
    forall i | 0 <= i < |events| :: Fits(size, events, i)
  }

  predicate Fits(size: nat, events: seq<Readiness>, i: nat)
    requires i < |events|
  {
    events[i].Arrived? ==> 0 < |events[i].chunk| <= size - ReceivedLen(size, events, i)
  }

  /** A full block is never left in the slot. */
  lemma {:induction false} ReceivedLenIsPartial(size: nat, events: seq<Readiness>, n: nat)
    requires Readable(size, events) && n <= |events|
    ensures ReceivedLen(size, events, n) < size || ReceivedLen(size, events, n) == 0
  {
    if n > 0 {
      ReceivedLenIsPartial(size, events, n - 1);
      assert Fits(size, events, n - 1);
    }
  }

  function PayloadsWritten(events: seq<Readiness>, n: nat): seq<seq<Byte>>
    requires n <= |events|
  {
    if n == 0 then []
    else if events[n - 1].ToSend? && events[n - 1].written then PayloadsWritten(events, n - 1) + [events[n - 1].payload]
    else PayloadsWritten(events, n - 1)
  }

  /** The wake-ups that always end the dialog. */
  predicate Stops(event: Readiness) {
    event.SenderEnded? || event.EndOfStream? || event.ReadFailure? || (event.ToSend? && !event.written)
  }

  predicate NoneStops(events: seq<Readiness>, n: nat)
    requires n <= |events|
  {
    forall i | 0 <= i < n :: !Stops(events[i])
  }

  /** Is the connection reported closed when a slot can't be reserved? */
  predicate ClosesOnFailure(reply: Reply) {
    FailsToInform(reply) || (reply.processor.Refused? && reply.processor.abort)
  }

  predicate AllReserved(replies: nat -> Reply, n: nat) {
    forall i: nat | i < n :: replies(i).processor.Accepted?
  }

  /** Reserves a slot in the processor's channel; if there is none the remote peer may be told so. */
  method AllocateReaderSlot(size: nat, reply: Reply) returns (slot: Option<array<Byte>>, closed: bool)
    ensures slot.Some? <==> reply.processor.Accepted?
    ensures slot.Some? ==> fresh(slot.value) && slot.value.Length == size
    ensures closed <==> reply.processor.Refused? && ClosesOnFailure(reply)
  {
    closed := false;
    match reply.processor {
      case Accepted =>
        var buffer := new Byte[size];
        slot := Some(buffer);
      case Refused(abort) =>
        slot := None;
        if reply.informsPeer {
          if reply.peer.Refused? && reply.peer.abort {
            closed := true;
          }
        }
        if abort {
          closed := true;
        }
    }
  }

  /** What a read brings is put in the slot, after what was there. */
  method ReadInto(readerBytesBuffer: array<Byte>, receivedLen: nat, chunk: seq<Byte>)
    requires receivedLen + |chunk| <= readerBytesBuffer.Length
    modifies readerBytesBuffer
    ensures readerBytesBuffer[..receivedLen + |chunk|] == old(readerBytesBuffer[..receivedLen]) + chunk
  {
    forall i | 0 <= i < |chunk| {
      readerBytesBuffer[receivedLen + i] := chunk[i];
    }
  }

  /** How far the reading went: the slots reserved so far -- the last one is being filled -- how much of it is, the
      messages published to the local processor, and what happened to the slots. */
  datatype Progress = Progress(slots: seq<array<Byte>>, receivedLen: nat, published: seq<seq<Byte>>, log: seq<SlotEvent>)

  /** A message once published is not written over. */
  ghost predicate HoldPublished(slots: seq<array<Byte>>, published: seq<seq<Byte>>)
    reads slots
  {
    |slots| >= |published| && forall i | 0 <= i < |published| :: slots[i][..] == published[i]
  }

  ghost predicate Receiving(size: nat, replies: nat -> Reply, progress: Progress, partial: seq<Byte>)
    reads progress.slots
  {
    var n := |progress.published|;
    && |progress.slots| == n + 1
    && progress.receivedLen == |partial| <= size == progress.slots[n].Length
    && progress.slots[n][..progress.receivedLen] == partial
    && (forall i | 0 <= i < n :: progress.slots[i] != progress.slots[n])
    && HoldPublished(progress.slots, progress.published)
    && AllSized(size, progress.published)
    && progress.log == PublishedSlots(n) + [Reserved(n)]
    && AllReserved(replies, n + 1)
  }

  /** The dialog can't go on: there was no slot for one more message. */
  ghost predicate OutOfSlots(size: nat, replies: nat -> Reply, progress: Progress)
    reads progress.slots
  {
    var n := |progress.published|;
    && |progress.slots| == n > 0
    && HoldPublished(progress.slots, progress.published)
    && AllSized(size, progress.published)
    && progress.log == PublishedSlots(n)
    && AllReserved(replies, n) && replies(n).processor.Refused?
  }

  /** A read: once the slot is full the message in it is published and one more slot is reserved. */
  method OnRead(size: nat, replies: nat -> Reply, before: Progress, ghost partial: seq<Byte>, chunk: seq<Byte>)
    returns (progress: Progress, goesOn: bool, closed: bool)
    requires Receiving(size, replies, before, partial) && 0 < |chunk| <= size - |partial|
    modifies before.slots[|before.published|]
    ensures if |partial + chunk| < size then
              && goesOn && !closed && progress.slots == before.slots && progress.published == before.published
              && Receiving(size, replies, progress, partial + chunk)
            else
              && progress.published == before.published + [partial + chunk]
              && if goesOn then
                   && !closed && Receiving(size, replies, progress, [])
                   && fresh(progress.slots[|progress.published|])
                 else
                   && OutOfSlots(size, replies, progress) && progress.slots == before.slots
                   && (closed <==> ClosesOnFailure(replies(|progress.published|)))
  {
    var Progress(slots, receivedLen, published, log) := before;
    var readerSlot := |slots| - 1;
    var readerBytesBuffer := slots[readerSlot];
    ReadInto(readerBytesBuffer, receivedLen, chunk);
    receivedLen := receivedLen + |chunk|;
    if receivedLen == size {
      assert readerBytesBuffer[..] == readerBytesBuffer[..receivedLen] == partial + chunk;
      published, log := published + [readerBytesBuffer[..]], log + [Published(readerSlot)];
      assert log == PublishedSlots(|published|);
      var reservation;
      reservation, closed := AllocateReaderSlot(size, replies(|published|));
      if reservation.None? {
        return Progress(slots, receivedLen, published, log), false, closed;
      }
      readerSlot, receivedLen := readerSlot + 1, 0;
      slots, log := slots + [reservation.value], log + [Reserved(readerSlot)];
    }
    progress, goesOn, closed := Progress(slots, receivedLen, published, log), true, false;
  }

  /** Is the dialog over, and why: it was woken up to stop, or there was no slot for one more message. */
  predicate EndsAsExpected(replies: nat -> Reply, event: Readiness, outOfSlots: bool, closed: bool, published: nat) {
    if outOfSlots then
      event.Arrived? && replies(published).processor.Refused? && (closed <==> ClosesOnFailure(replies(published)))
    else
      Stops(event) && (closed <==> !event.SenderEnded?)
  }

  /** Did the first `n` events end the dialog, for the right reason, if `ended`? */
  ghost predicate EndsInTime(replies: nat -> Reply, events: seq<Readiness>, n: nat, ended: bool, outOfSlots: bool, closed: bool,
                             published: nat)
    requires n <= |events|
  {
    if ended then
      n > 0 && NoneStops(events, n - 1) && EndsAsExpected(replies, events[n - 1], outOfSlots, closed, published)
    else
      !outOfSlots && NoneStops(events, n) && !closed
  }

  /** What arrived was published, but for what is in the slot; what was to be sent is on the wire. */
  predicate Accounts(size: nat, events: seq<Readiness>, n: nat, published: seq<seq<Byte>>, partial: seq<Byte>, wire: seq<Byte>)
    requires n <= |events|
  {
    && wire == Joined(PayloadsWritten(events, n), 0)
    && Joined(published, 0) + partial == BytesArrived(events, n)
    && |partial| == ReceivedLen(size, events, n)
  }

  lemma ReadAccounts(size: nat, events: seq<Readiness>, n: nat, published: seq<seq<Byte>>, partial: seq<Byte>, wire: seq<Byte>)
    requires n < |events| && events[n].Arrived? && Accounts(size, events, n, published, partial, wire)
    ensures var block := partial + events[n].chunk;
            if |block| == size then Accounts(size, events, n + 1, published + [block], [], wire)
            else Accounts(size, events, n + 1, published, block, wire)
  {
    BlockGrows(published, partial, events[n].chunk);
  }

  lemma WriteAccounts(size: nat, events: seq<Readiness>, n: nat, published: seq<seq<Byte>>, partial: seq<Byte>, wire: seq<Byte>)
    requires n < |events| && !events[n].Arrived? && Accounts(size, events, n, published, partial, wire)
    ensures if events[n].ToSend? && events[n].written then Accounts(size, events, n + 1, published, partial, wire + events[n].payload)
            else Accounts(size, events, n + 1, published, partial, wire)
  {
    if events[n].ToSend? && events[n].written {
      JoinedAppend(PayloadsWritten(events, n), events[n].payload, 0);
    }
  }

  /** One round of the loop, for the event number `n`. */
  method OnWakeUp(size: nat, replies: nat -> Reply, event: Readiness, before: Progress, wireBefore: seq<Byte>,
                  ghost partialBefore: seq<Byte>, ghost events: seq<Readiness>, ghost n: nat)
    returns (progress: Progress, wire: seq<Byte>, ended: bool, closed: bool, ghost partial: seq<Byte>, ghost outOfSlots: bool)
    requires n < |events| && event == events[n] && Fits(size, events, n) && NoneStops(events, n)
    requires Receiving(size, replies, before, partialBefore)
    requires Accounts(size, events, n, before.published, partialBefore, wireBefore)
    modifies before.slots[|before.published|]
    ensures Accounts(size, events, n + 1, progress.published, partial, wire)
    ensures EndsInTime(replies, events, n + 1, ended, outOfSlots, closed, |progress.published|)
    ensures if outOfSlots then OutOfSlots(size, replies, progress) && partial == []
            else Receiving(size, replies, progress, partial)
    ensures !ended ==> progress.slots[|progress.published|] == before.slots[|before.published|]
                       || fresh(progress.slots[|progress.published|])
  {
    progress, partial, wire, ended, closed, outOfSlots := before, partialBefore, wireBefore, false, false, false;
    if event.Arrived? {
      ReadAccounts(size, events, n, before.published, partialBefore, wireBefore);
    } else {
      WriteAccounts(size, events, n, before.published, partialBefore, wireBefore);
    }
    match event {
      case ToSend(payload, written) =>
        if written {
          wire := wire + payload;
        } else {
          ended, closed := true, true;
        }
      case SenderEnded =>
        ended := true;
      case Arrived(chunk) =>
        var goesOn;
        progress, goesOn, closed := OnRead(size, replies, before, partialBefore, chunk);
        partial := if |partialBefore + chunk| == size then [] else partialBefore + chunk;
        ended, outOfSlots := !goesOn, !goesOn;
      case EndOfStream =>
        ended, closed := true, true;
      case WouldBlock =>
      case ReadFailure =>
        ended, closed := true, true;
    }
  }

  /** Reads and writes interleave in any way until one of the ends. */
  method ConnectionLoop(size: nat, replies: nat -> Reply, events: seq<Readiness>, start: Progress)
    returns (handled: nat, ended: bool, progress: Progress, wire: seq<Byte>, closed: bool, ghost partial: seq<Byte>,
             ghost outOfSlots: bool)
    requires Readable(size, events) && Receiving(size, replies, start, []) && start.published == []
    modifies start.slots[0]
    ensures handled <= |events| && (!ended ==> handled == |events|)
    ensures Accounts(size, events, handled, progress.published, partial, wire)
    ensures EndsInTime(replies, events, handled, ended, outOfSlots, closed, |progress.published|)
    ensures if outOfSlots then OutOfSlots(size, replies, progress) && partial == []
            else Receiving(size, replies, progress, partial)
  {
    handled, partial, wire, progress := 0, [], [], start;
    ended, outOfSlots, closed := false, false, false;
    while handled < |events|
      invariant handled <= |events| && !ended && !outOfSlots && !closed
      invariant Accounts(size, events, handled, progress.published, partial, wire)
      invariant Receiving(size, replies, progress, partial) && NoneStops(events, handled)
      invariant progress.slots[|progress.published|] == start.slots[0] || fresh(progress.slots[|progress.published|])
    {
      assert Fits(size, events, handled);
      progress, wire, ended, closed, partial, outOfSlots :=
        OnWakeUp(size, replies, events[handled], progress, wire, partial, events, handled);
      handled := handled + 1;
      if ended {
        return;
      }
    }
  }

  /** What was published and written after the first `handled` events, and what happened to the slots; why the dialog is
      over, if it is. */
  ghost predicate IsOutcome(size: nat, replies: nat -> Reply, events: seq<Readiness>, started: bool, handled: nat, ended: bool,
                            progress: Progress, wire: seq<Byte>, closed: bool, partial: seq<Byte>)
    requires handled <= |events|
  {
    var n := |progress.published|;
    && (started <==> replies(0).processor.Accepted?)
    && AllSized(size, progress.published) && AllReserved(replies, n)
    && progress.log == (if ended then FullLog(replies, n) else PublishedSlots(n) + [Reserved(n)])
    && if !started then
         ended && handled == 0 && progress == Progress([], 0, [], []) && wire == [] && (closed <==> ClosesOnFailure(replies(0)))
       else
         && Accounts(size, events, handled, progress.published, partial, wire) && (size > 0 ==> |partial| < size)
         && if ended then
              var outOfSlots := replies(n).processor.Refused?;
              EndsInTime(replies, events, handled, ended, outOfSlots, closed, n) && (outOfSlots ==> partial == [])
            else
              handled == |events| && NoneStops(events, handled) && !closed && AllReserved(replies, n + 1)
  }

  /** A wake-up that lets the dialog go on, whatever it brings. */
  predicate GoesOn(event: Readiness) {
    event.Arrived? || event.WouldBlock? || (event.ToSend? && event.written)
  }

  /** A channel gave up: the processor's on reserving a slot, or the remote peer's on being told that there was none. */
  predicate GaveUp(reply: Reply) {
    reply.processor == Refused(true) || (reply.informsPeer && reply.peer == Refused(true))
  }

  /** The dialog goes through all wake-ups that let it, up to the first that does not; or up to the message after which no
      slot could be reserved -- if ever it starts, with a slot. The connection may be used again if the sender ended; or,
      for lack of slots, if no channel gave up. */
  lemma EndsExactlyWhen(size: nat, replies: nat -> Reply, events: seq<Readiness>, started: bool, handled: nat, ended: bool,
                        progress: Progress, wire: seq<Byte>, closed: bool, partial: seq<Byte>)
    requires handled <= |events| && IsOutcome(size, replies, events, started, handled, ended, progress, wire, closed, partial)
    ensures started <==> replies(0).processor == Accepted
    ensures !started ==> handled == 0 && (closed <==> GaveUp(replies(0)))
    ensures forall i | 0 <= i < handled - 1 :: GoesOn(events[i])
    ensures started && !ended ==> handled == |events| && !closed && (handled > 0 ==> GoesOn(events[handled - 1]))
    ensures started && ended ==>
              && handled > 0
              && if !GoesOn(events[handled - 1]) then closed <==> !events[handled - 1].SenderEnded?
                 else && events[handled - 1].Arrived? && replies(|progress.published|).processor.Refused?
                      && (closed <==> GaveUp(replies(|progress.published|)))
    ensures forall i: nat | i < |progress.published| :: replies(i).processor == Accepted
  {
    OfferAbortsExactlyWhen(replies(0));
    OfferAbortsExactlyWhen(replies(|progress.published|));
    forall i | 0 <= i < handled - 1 ensures GoesOn(events[i]) {
      assert !Stops(events[i]);
    }
  }

  /** The dialog: it doesn't start without a slot, and ends by cancelling the one in hand. */
  method DialogLoop(size: nat, replies: nat -> Reply, events: seq<Readiness>)
    returns (started: bool, handled: nat, ended: bool, progress: Progress, wire: seq<Byte>, closed: bool, ghost partial: seq<Byte>)
    requires Readable(size, events)
    ensures handled <= |events| && HoldPublished(progress.slots, progress.published)
    ensures IsOutcome(size, replies, events, started, handled, ended, progress, wire, closed, partial)
  {
    var reservation;
    reservation, closed := AllocateReaderSlot(size, replies(0));
    if reservation.None? {
      return false, 0, true, Progress([], 0, [], []), [], closed, [];
    }
    started := true;
    progress := Progress([reservation.value], 0, [], [Reserved(0)]);
    ghost var outOfSlots;
    forall n | 0 <= n <= |events| ensures ReceivedLen(size, events, n) < size || ReceivedLen(size, events, n) == 0 {
      ReceivedLenIsPartial(size, events, n);
    }
    handled, ended, progress, wire, closed, partial, outOfSlots := ConnectionLoop(size, replies, events, progress);
    if ended {
      var readerSlot := |progress.slots| - 1;
      progress := progress.(log := progress.log + [Cancelled(readerSlot)]);
    }
  }

  /** Published are the consecutive blocks of what arrived; so, once read whole or in part, the messages the remote peer
      wrote are published unchanged and in order, and what is in the last slot is the beginning of the next one. */
  lemma FixedSizeRoundTrip(size: nat, messages: seq<seq<Byte>>, published: seq<seq<Byte>>, partial: seq<Byte>,
                           received: seq<Byte>, unread: seq<Byte>)
    requires AllSized(size, messages) && AllSized(size, published) && |partial| < size
    requires Joined(published, 0) + partial == received && received + unread == Joined(messages, 0)
    ensures published <= messages
    ensures if |published| < |messages| then partial < messages[|published|] else partial == []
    ensures unread == [] ==> published == messages
  {
    Associates(Joined(published, 0), partial, unread);
    CutInOneWay(size, messages, published, partial, unread, 0);
  }

  /** MAIN RESULT, between two dialogs -- what one publishes is the first messages the other one wrote, even if a dialog
      ended half way; all of them if everything written arrived. */
  lemma WrittenIsPublished(
    size: nat,
    events: seq<Readiness>, handled: nat, published: seq<seq<Byte>>, partial: seq<Byte>, wire: seq<Byte>,
    events': seq<Readiness>, handled': nat, published': seq<seq<Byte>>, partial': seq<Byte>, wire': seq<Byte>)
    requires handled <= |events| && Accounts(size, events, handled, published, partial, wire)
    requires handled' <= |events'| && Accounts(size, events', handled', published', partial', wire')
    requires AllSized(size, PayloadsWritten(events, handled)) && AllSized(size, published') && |partial'| < size
    requires BytesArrived(events', handled') <= wire
    ensures published' <= PayloadsWritten(events, handled)
    ensures BytesArrived(events', handled') == wire ==> published' == PayloadsWritten(events, handled)
  {
    var received := BytesArrived(events', handled');
    var unread := wire[|received|..];
    assert received + unread == wire;
    FixedSizeRoundTrip(size, PayloadsWritten(events, handled), published', partial', received, unread);
  }

  lemma OneBlock(byte: Byte, published: seq<seq<Byte>>, partial: seq<Byte>, wire: seq<Byte>)
    requires AllSized(1, published) && Accounts(1, [Arrived([byte])], 1, published, partial, wire)
    ensures published == [[byte]]
  {
    var events := [Arrived([byte])];
    assert ReceivedLen(1, events, 0) == 0 && BytesArrived(events, 0) == [];
    assert BytesArrived(events, 1) == [byte] && ReceivedLen(1, events, 1) == 0;
    assert Joined(published, 0) + partial == Joined(published, 0);
    JoinedLength(1, published, 0);
    assert Joined(published, 1) == [];
    assert published[0] == [byte];
  }

  /** It does happen: a message of one byte arrives and there is no slot for another one. Whatever the dialog does, it ends
      with the slot of the message given back twice. */
  lemma PublishedSlotIsCancelled(replies: nat -> Reply, byte: Byte, started: bool, handled: nat, ended: bool,
                                 progress: Progress, wire: seq<Byte>, closed: bool, partial: seq<Byte>)
    requires replies(0).processor.Accepted? && replies(1).processor.Refused?
    requires handled <= 1 && IsOutcome(1, replies, [Arrived([byte])], started, handled, ended, progress, wire, closed, partial)
    ensures Readable(1, [Arrived([byte])])
    ensures started && handled == 1 && ended && progress.published == [[byte]]
    ensures progress.log == FullLog(replies, 1) && Releases(progress.log, 0) == 2
  {
    assert handled == 1;
    OneBlock(byte, progress.published, partial, wire);
    assert ReceivedLen(1, [Arrived([byte])], 0) == 0;
    ReleasedOnceUnlessReservationFails(replies, 1);
  }
}
