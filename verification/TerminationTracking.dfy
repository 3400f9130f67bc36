/** How the events of a processor lead to its termination signal, on the client's and on the server's side. */
module TerminationTracking {
  import opened Wrappers

  datatype ProtocolEvent = PeerArrived | PeerLeft | LocalServiceTermination

  /** Is the signaler still there? which events was the program called back with? and after how many of those calls was
      the signal sent, if it was? */
  datatype Tracking = Tracking(connected: bool, signaler: bool, calls: seq<ProtocolEvent>, signalAfter: Option<nat>)

  const NEW := Tracking(false, true, [], None)

  predicate Ends(event: ProtocolEvent) {
    !event.PeerArrived?
  }

  function CallBack(t: Tracking, event: ProtocolEvent): Tracking {
    t.(calls := t.calls + [event])
  }

  /** Takes the signaler, if it is there, and signals. */
  function Signal(t: Tracking): Tracking {
    if t.signaler then t.(signaler := false, signalAfter := Some(|t.calls|)) else t
  }

  function OnClientEvent(t: Tracking, event: ProtocolEvent): Tracking {
    match event
    case PeerArrived => CallBack(t.(connected := true), event)
    case PeerLeft => Signal(CallBack(t.(connected := false), event))
    case LocalServiceTermination => Signal(CallBack(t, event))
  }

  function OnServerEvent(t: Tracking, event: ProtocolEvent): Tracking {
    if !event.LocalServiceTermination? then CallBack(t, event)
    else if t.signaler then Signal(CallBack(t, event))
    else t
  }

  function OnClient(events: seq<ProtocolEvent>, n: nat): Tracking
    requires n <= |events|
  {
    if n == 0 then NEW else OnClientEvent(OnClient(events, n - 1), events[n - 1])
  }

  function OnServer(events: seq<ProtocolEvent>, n: nat): Tracking
    requires n <= |events|
  {
    if n == 0 then NEW else OnServerEvent(OnServer(events, n - 1), events[n - 1])
  }

  predicate NoneEnds(events: seq<ProtocolEvent>, n: nat)
    requires n <= |events|
  {
    forall i | 0 <= i < n :: !Ends(events[i])
  }

  predicate NoneTerminates(events: seq<ProtocolEvent>, n: nat)
    requires n <= |events|
  {
    forall i | 0 <= i < n :: events[i] != LocalServiceTermination
  }

  /** Did the peer arrive and, since then, not leave? */
  predicate PeerIsThere(events: seq<ProtocolEvent>, n: nat)
    requires n <= |events|
  {
    n > 0 && if events[n - 1].LocalServiceTermination? then PeerIsThere(events, n - 1) else events[n - 1].PeerArrived?
  }

  /** The client is said to be connected from the arrival of its peer until it leaves. */
  lemma {:induction false} ConnectedWhilePeerIsThere(events: seq<ProtocolEvent>, n: nat)
    requires n <= |events|
    ensures OnClient(events, n).connected <==> PeerIsThere(events, n)
  {
    if n > 0 {
      ConnectedWhilePeerIsThere(events, n - 1);
    }
  }

  /** On the client the program is told of all events; the signal is sent, once, right after it was told of the first that
      ends the processor. */
  lemma {:induction false} ClientSignalsOnFirstEnd(events: seq<ProtocolEvent>, n: nat)
    requires n <= |events|
    ensures var t := OnClient(events, n);
            && t.calls == events[..n] && (t.signaler <==> t.signalAfter.None?)
            && (t.signalAfter.None? <==> NoneEnds(events, n))
            && (t.signalAfter.Some? ==>
                  var k := t.signalAfter.value; 0 < k <= n && Ends(events[k - 1]) && NoneEnds(events, k - 1))
  {
    if n > 0 {
      ClientSignalsOnFirstEnd(events, n - 1);
      assert events[..n] == events[..n - 1] + [events[n - 1]];
    }
  }

  /** The events, but for the local terminations after the first. */
  function Heard(events: seq<ProtocolEvent>, n: nat): seq<ProtocolEvent>
    requires n <= |events|
  {
    if n == 0 then []
    else if events[n - 1].LocalServiceTermination? && !NoneTerminates(events, n - 1) then Heard(events, n - 1)
    else Heard(events, n - 1) + [events[n - 1]]
  }

  /** On the server only the first local termination is heard, and the signal is sent, once, right after that; the peers
      that leave do not matter. */
  lemma {:induction false} ServerSignalsOnFirstTermination(events: seq<ProtocolEvent>, n: nat)
    requires n <= |events|
    ensures var t := OnServer(events, n);
            && t.calls == Heard(events, n) && (t.signaler <==> t.signalAfter.None?)
            && (t.signalAfter.None? <==> NoneTerminates(events, n))
            && (NoneTerminates(events, n) <==> NoneTerminates(t.calls, |t.calls|))
            && (t.signalAfter.Some? ==>
                  var k := t.signalAfter.value;
                  0 < k <= |t.calls| && t.calls[k - 1] == LocalServiceTermination && NoneTerminates(t.calls, k - 1))
  {
    if n > 0 {
      ServerSignalsOnFirstTermination(events, n - 1);
      var (before, calls) := (OnServer(events, n - 1).calls, OnServer(events, n).calls);
      assert forall i | 0 <= i < |before| :: calls[i] == before[i];
      assert |calls| > |before| ==> calls[|before|] == events[n - 1];
      assert NoneTerminates(events, n) <==> NoneTerminates(events, n - 1) && events[n - 1] != LocalServiceTermination;
    }
  }

  /** The callback of a client's processor, with what it shares among events. */
  class ClientTracker {
    var connected: bool
    var signaler: bool
    var calls: seq<ProtocolEvent>
    var signalAfter: Option<nat>

    constructor ()
      ensures View() == NEW
    {
      connected, signaler, calls, signalAfter := false, true, [], None;
    }

    function View(): Tracking
      reads this
    {
      Tracking(connected, signaler, calls, signalAfter)
    }

    method UserProvidedCallback(event: ProtocolEvent)
      modifies this`calls
      ensures View() == CallBack(old(View()), event)
    {
      calls := calls + [event];
    }

    method ReportServiceTermination()
      modifies this
      ensures View() == Signal(old(View()))
    {
      var taken := signaler;
      signaler := false;
      if !taken {
        return;
      }
      signalAfter := Some(|calls|);
    }

    method OnEvent(event: ProtocolEvent)
      modifies this
      ensures View() == OnClientEvent(old(View()), event)
    {
      match event {
        case PeerArrived =>
          connected := true;
          UserProvidedCallback(event);
        case PeerLeft =>
          connected := false;
          UserProvidedCallback(event);
          ReportServiceTermination();
        case LocalServiceTermination =>
          UserProvidedCallback(event);
          ReportServiceTermination();
      }
    }
  }

  /** The callback of a server's processor, with what it shares among events. */
  class ServerTracker {
    var signaler: bool
    var calls: seq<ProtocolEvent>
    var signalAfter: Option<nat>

    constructor ()
      ensures View() == NEW
    {
      signaler, calls, signalAfter := true, [], None;
    }

    function View(): Tracking
      reads this
    {
      Tracking(false, signaler, calls, signalAfter)
    }

    method OnEvent(event: ProtocolEvent)
      modifies this
      ensures View() == OnServerEvent(old(View()), event)
    {
      if event == LocalServiceTermination {
        var taken := signaler;
        signaler := false;
        if !taken {
          return;
        }
        calls := calls + [event];
        signalAfter := Some(|calls|);
      } else {
        calls := calls + [event];
      }
    }
  }

  // ---------- waiting for the server ----------

  /** What the program asks of a server: one more processor, or a way to wait for the end of those there are. */
  datatype Request = SpawnProcessor | AskToWait

  /** The number of processors to wait for after the first `n` requests; none once that was asked for. */
  function ToWaitFor(requests: seq<Request>, n: nat): Option<nat>
    requires n <= |requests|
  {
    if n == 0 then Some(0)
    else
      var before :- ToWaitFor(requests, n - 1);
      if requests[n - 1].AskToWait? then None else Some(before + 1)
  }

  predicate NoneAsks(requests: seq<Request>, n: nat)
    requires n <= |requests|
  {
    forall i | 0 <= i < n :: !requests[i].AskToWait?
  }

  lemma {:induction false} NothingLeftOnceAsked(requests: seq<Request>, n: nat)
    requires n <= |requests|
    ensures ToWaitFor(requests, n) == if NoneAsks(requests, n) then Some(n) else None
  {
    if n > 0 {
      NothingLeftOnceAsked(requests, n - 1);
      assert NoneAsks(requests, n) <==> NoneAsks(requests, n - 1) && !requests[n - 1].AskToWait?;
    }
  }

  lemma {:induction false} ToWaitForPrefix(requests: seq<Request>, more: Request, n: nat)
    requires n <= |requests|
    ensures ToWaitFor(requests + [more], n) == ToWaitFor(requests, n)
  {
    if n > 0 {
      ToWaitForPrefix(requests, more, n - 1);
    }
  }

  /** How many of the processors never signaled, having dropped their signalers. */
  function Missing(processors: seq<nat>, signaled: nat -> bool, n: nat): nat
    requires n <= |processors|
  {
    if n == 0 then 0 else Missing(processors, signaled, n - 1) + if signaled(processors[n - 1]) then 0 else 1
  }

  class ServerService {
    /** One receiver of signals for each processor, until someone takes them to wait. */
    var receivers: Option<seq<nat>>
    var requests: seq<Request>

    predicate Valid()
      reads this
    {
      ToWaitFor(requests, |requests|) == if receivers.Some? then Some(|receivers.value|) else None
    }

    constructor ()
      ensures Valid() && receivers == Some([]) && requests == []
    {
      receivers, requests := Some([]), [];
    }

    /** Spawning a processor panics once the receivers were taken. */
    method Spawn(processor: nat)
      requires Valid() && receivers.Some?
      modifies this
      ensures Valid() && requests == old(requests) + [SpawnProcessor]
      ensures receivers == Some(old(receivers.value) + [processor])
    {
      ToWaitForPrefix(requests, SpawnProcessor, |requests|);
      receivers, requests := Some(receivers.value + [processor]), requests + [SpawnProcessor];
    }

    /** Takes the receivers, if they are there, for what it gives back to wait for all of them. */
    method TerminationWaiter() returns (taken: Option<seq<nat>>)
      requires Valid()
      modifies this
      ensures Valid() && requests == old(requests) + [AskToWait]
      ensures taken == old(receivers) && receivers == None
      ensures if NoneAsks(old(requests), |old(requests)|) then taken.Some? && |taken.value| == |old(requests)| else taken.None?
    {
      ToWaitForPrefix(requests, AskToWait, |requests|);
      NothingLeftOnceAsked(requests, |requests|);
      taken := receivers;
      receivers, requests := None, requests + [AskToWait];
    }
  }

  /** Waits for each of the processors in turn. One that dropped its signaler is not waited for; so -- other than on the
      client -- the wait ends well even if no processor ever signaled, and fails only for who was given no receivers. */
  method Wait(taken: Option<seq<nat>>, signaled: nat -> bool) returns (ok: bool, missing: nat)
    ensures ok <==> taken.Some?
    ensures missing == if taken.Some? then Missing(taken.value, signaled, |taken.value|) else 0
  {
    missing := 0;
    if taken.None? {
      return false, missing;
    }
    for i := 0 to |taken.value|
      invariant missing == Missing(taken.value, signaled, i)
    {
      if !signaled(taken.value[i]) {
        missing := missing + 1;
      }
    }
    ok := true;
  }
}
