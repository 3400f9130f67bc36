/** Bytes on the wire, and the channels at the end of it. */
module Wire {

  type Byte = x: int | 0 <= x < 0x100

  /** What a channel, or the retrying logic around it, tells of a message: taken, or not -- and is it worth going on? */
  datatype SendResult = Accepted | Refused(abort: bool)

  /** What happens around an incoming message: the answer of the local processor's channel; if an error message is due
      to the remote peer; and the answer of the channel it is sent through. */
  datatype Reply = Reply(processor: SendResult, informsPeer: bool, peer: SendResult)

  predicate FailsToInform(reply: Reply) {
    reply.informsPeer && reply.peer.Refused? && reply.peer.abort
  }

  /** Does offering a message to the local processor end the dialog? */
  predicate OfferAborts(reply: Reply) {
    reply.processor.Refused? && (FailsToInform(reply) || reply.processor.abort)
  }

  /** The processor's channel gave up; or it refused, and so did -- and gave up -- the remote peer's, when told so. */
  lemma OfferAbortsExactlyWhen(reply: Reply)
    ensures OfferAborts(reply) <==> || reply.processor == Refused(true)
                                    || (reply.processor == Refused(false) && reply.informsPeer && reply.peer == Refused(true))
    ensures FailsToInform(reply) <==> reply.informsPeer && reply.peer == Refused(true)
  {
  }

  predicate AllAccepted(replies: nat -> Reply, n: nat) {
    forall i: nat | i < n :: replies(i).processor.Accepted?
  }

  /** How many of the first `n` offers to the local processor were taken? */
  function AcceptedFirst(replies: nat -> Reply, n: nat): nat {
    if n == 0 then 0 else AcceptedFirst(replies, n - 1) + if replies(n - 1).processor.Accepted? then 1 else 0
  }

  /** No channel gives up. */
  ghost predicate NoneGivesUp(replies: nat -> Reply) {
    forall i: nat :: replies(i).processor != Refused(true) && replies(i).peer != Refused(true)
  }

  lemma Associates(first: seq<Byte>, second: seq<Byte>, third: seq<Byte>)
    ensures (first + second) + third == first + (second + third)
  {
  }

  /** Of two beginnings of a stream, the shorter one is the beginning of the other. */
  lemma ShorterComesFirst(bytes: seq<Byte>, following: seq<Byte>, longer: seq<Byte>, rest: seq<Byte>)
    requires bytes + following == longer + rest && |bytes| <= |longer|
    ensures bytes <= longer
  {
    assert bytes == (bytes + following)[..|bytes|] == longer[..|bytes|];
  }
}
