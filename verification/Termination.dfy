/** How the program knows that a client is done: each processor signals so, once, and whoever waits counts the signals. */
module Termination {
  import opened Wrappers

  /** How many signals fit in the channel: sending more waits for room. */
  const CHANNEL_SIZE: nat := 1

  /** A connection event being handled by a processor: the program's callback goes first; events that end the processor
      then take the signaler, if it is still there, and signal. */
  datatype Handler = Calling(terminating: bool) | Called | Signaling | Done

  /** What a processor shares among the events it handles. A processor that goes away drops the signaler it didn't use. */
  datatype Processor = Processor(signaler: bool, dropped: bool, handlers: seq<Handler>)

  /** Whoever waits for the termination, and how many processors there were when that was asked for. */
  datatype Waiter = NotAsked | Waiting(latch: int, spawned: nat) | Returned(ok: bool, spawned: nat)

  datatype Client = Client(processors: seq<Processor>, alive: bool, sent: seq<nat>, received: nat, waiter: Waiter,
                           finished: set<nat>)

  datatype Step =
    | Spawn
    | Handle(p: nat, terminating: bool)
    | CallbackReturns(p: nat, h: nat)
    | TakeSignaler(p: nat, h: nat)
    | Signal(p: nat, h: nat)
    | DropProcessor(p: nat)
    | DropClient
    | AskToWait
    | ReceiveSignal
    | ChannelCloses

  const START := Client([], true, [], 0, NotAsked, {})

  predicate IsHandler(s: Client, p: nat, h: nat, handler: Handler) {
    p < |s.processors| && h < |s.processors[p].handlers| && s.processors[p].handlers[h] == handler
  }

  predicate AllDone(handlers: seq<Handler>) {
    forall h | 0 <= h < |handlers| :: handlers[h] == Done
  }

  /** Nobody has a signaler any more, nor the client its copy. */
  predicate NoSenders(s: Client) {
    && !s.alive
    && forall p | 0 <= p < |s.processors| :: !s.processors[p].signaler && AllDone(s.processors[p].handlers)
  }

  predicate Enabled(s: Client, step: Step) {
    match step
    case Spawn => s.alive
    case Handle(p, _) => p < |s.processors| && !s.processors[p].dropped
    case CallbackReturns(p, h) => IsHandler(s, p, h, Calling(true)) || IsHandler(s, p, h, Calling(false))
    case TakeSignaler(p, h) => IsHandler(s, p, h, Called)
    case Signal(p, h) =>
      IsHandler(s, p, h, Signaling) && (s.waiter.Returned? || |s.sent| - s.received < CHANNEL_SIZE)
    case DropProcessor(p) => p < |s.processors| && !s.processors[p].dropped && AllDone(s.processors[p].handlers)
    case DropClient => s.alive
    case AskToWait => s.alive && s.waiter.NotAsked?
    case ReceiveSignal => s.waiter.Waiting? && s.received < |s.sent|
    case ChannelCloses => s.waiter.Waiting? && s.received == |s.sent| && NoSenders(s)
  }

  function SetHandler(s: Client, p: nat, h: nat, handler: Handler): Client
    requires p < |s.processors| && h < |s.processors[p].handlers|
  {
    s.(processors := s.processors[p := s.processors[p].(handlers := s.processors[p].handlers[h := handler])])
  }

  /** The waiting is over when the latch is. */
  function Latched(latch: int, spawned: nat): Waiter {
    if latch > 0 then Waiting(latch, spawned) else Returned(true, spawned)
  }

  function Next(s: Client, step: Step): Client
    requires Enabled(s, step)
  {
    match step
    case Spawn => s.(processors := s.processors + [Processor(true, false, [])])
    case Handle(p, terminating) =>
      s.(processors := s.processors[p := s.processors[p].(handlers := s.processors[p].handlers + [Calling(terminating)])])
    case CallbackReturns(p, h) =>
      if s.processors[p].handlers[h].terminating then SetHandler(s, p, h, Called).(finished := s.finished + {p})
      else SetHandler(s, p, h, Done)
    case TakeSignaler(p, h) =>
      if !s.processors[p].signaler then SetHandler(s, p, h, Done)
      else
        var s' := SetHandler(s, p, h, Signaling);
        s'.(processors := s'.processors[p := s'.processors[p].(signaler := false)])
    case Signal(p, h) =>
      SetHandler(s, p, h, Done).(sent := s.sent + [p])
    case DropProcessor(p) =>
      s.(processors := s.processors[p := s.processors[p].(signaler := false, dropped := true)])
    case DropClient => s.(alive := false)
    case AskToWait => s.(waiter := Latched(|s.processors|, |s.processors|))
    case ReceiveSignal => s.(received := s.received + 1, waiter := Latched(s.waiter.latch - 1, s.waiter.spawned))
    case ChannelCloses => s.(waiter := Returned(false, s.waiter.spawned))
  }

  // ---------- one signal a processor ----------

  function CountFirst(handlers: seq<Handler>, handler: Handler, n: nat): nat
    requires n <= |handlers|
  {
    if n == 0 then 0 else CountFirst(handlers, handler, n - 1) + if handlers[n - 1] == handler then 1 else 0
  }

  function Count(handlers: seq<Handler>, handler: Handler): nat {
    CountFirst(handlers, handler, |handlers|)
  }

  lemma {:induction false} CountAfter(handlers: seq<Handler>, h: nat, changed: Handler, handler: Handler, n: nat)
    requires h < |handlers| && n <= |handlers|
    ensures CountFirst(handlers[h := changed], handler, n) + (if h < n && handlers[h] == handler then 1 else 0)
         == CountFirst(handlers, handler, n) + (if h < n && changed == handler then 1 else 0)
  {
    if n > 0 {
      CountAfter(handlers, h, changed, handler, n - 1);
    }
  }

  lemma {:induction false} CountPrefix(handlers: seq<Handler>, more: Handler, handler: Handler, n: nat)
    requires n <= |handlers|
    ensures CountFirst(handlers + [more], handler, n) == CountFirst(handlers, handler, n)
  {
    if n > 0 {
      CountPrefix(handlers, more, handler, n - 1);
    }
  }

  lemma {:induction false} CountZero(handlers: seq<Handler>, handler: Handler, n: nat)
    requires n <= |handlers|
    ensures CountFirst(handlers, handler, n) == 0 <==> forall h | 0 <= h < n :: handlers[h] != handler
  {
    if n > 0 {
      CountZero(handlers, handler, n - 1);
    }
  }

  /** The right to signal is in one place: not used yet, dropped, with one handler, or spent. */
  predicate OneSignal(s: Client, p: nat)
    requires p < |s.processors|
  {
    var processor := s.processors[p];
    var (signaling, sent) := (Count(processor.handlers, Signaling), multiset(s.sent)[p]);
    && (if processor.signaler then 1 else 0) + (if processor.dropped && p !in s.finished then 1 else 0) + signaling + sent == 1
    && (p in s.finished <==> Count(processor.handlers, Called) + signaling + sent > 0)
    && (processor.dropped ==> AllDone(processor.handlers))
  }

  predicate LatchIsRight(s: Client) {
    && s.received <= |s.sent|
    && match s.waiter
       case NotAsked => s.received == 0
       case Waiting(latch, spawned) => latch > 0 && latch + s.received == spawned <= |s.processors|
       case Returned(ok, spawned) => spawned <= |s.processors| && if ok then s.received == spawned else s.received < spawned
  }

  /** After the channel is closed nobody signals any more. */
  predicate ClosedForGood(s: Client) {
    && !s.alive && s.received == |s.sent|
    && forall p | 0 <= p < |s.processors| :: !s.processors[p].signaler && NoneSignals(s.processors[p].handlers)
  }

  predicate NoneSignals(handlers: seq<Handler>) {
    forall h | 0 <= h < |handlers| :: handlers[h] != Signaling
  }

  predicate Invariant(s: Client) {
    && (forall p | 0 <= p < |s.processors| :: OneSignal(s, p))
    && (forall i | 0 <= i < |s.sent| :: s.sent[i] < |s.processors|)
    && (forall p <- s.finished :: p < |s.processors|)
    && LatchIsRight(s)
    && (s.waiter.Returned? && !s.waiter.ok ==> ClosedForGood(s))
  }

  lemma HandlerCounts(handlers: seq<Handler>, h: nat, changed: Handler)
    requires h < |handlers| && changed != handlers[h]
    ensures Count(handlers[h := changed], Signaling) + (if handlers[h].Signaling? then 1 else 0)
         == Count(handlers, Signaling) + (if changed.Signaling? then 1 else 0)
    ensures Count(handlers[h := changed], Called) + (if handlers[h].Called? then 1 else 0)
         == Count(handlers, Called) + (if changed.Called? then 1 else 0)
    ensures !AllDone(handlers) || handlers[h].Done?
  {
    CountAfter(handlers, h, changed, Signaling, |handlers|);
    CountAfter(handlers, h, changed, Called, |handlers|);
  }

  lemma CallbackKeepsOneSignal(s: Client, p: nat, h: nat)
    requires p < |s.processors| && OneSignal(s, p) && Enabled(s, CallbackReturns(p, h))
    ensures OneSignal(Next(s, CallbackReturns(p, h)), p)
  {
    var handlers := s.processors[p].handlers;
    HandlerCounts(handlers, h, if handlers[h].terminating then Called else Done);
  }

  lemma TakingKeepsOneSignal(s: Client, p: nat, h: nat)
    requires p < |s.processors| && OneSignal(s, p) && Enabled(s, TakeSignaler(p, h))
    ensures OneSignal(Next(s, TakeSignaler(p, h)), p)
  {
    HandlerCounts(s.processors[p].handlers, h, if s.processors[p].signaler then Signaling else Done);
    CountZero(s.processors[p].handlers, Called, |s.processors[p].handlers|);
  }

  lemma SignalingKeepsOneSignal(s: Client, p: nat, h: nat)
    requires p < |s.processors| && OneSignal(s, p) && Enabled(s, Signal(p, h))
    ensures OneSignal(Next(s, Signal(p, h)), p)
  {
    HandlerCounts(s.processors[p].handlers, h, Done);
  }

  lemma HandlingKeepsOneSignal(s: Client, step: Step, p: nat)
    requires p < |s.processors| && OneSignal(s, p) && step.Handle? && Enabled(s, step)
    ensures OneSignal(Next(s, step), p)
  {
    var handlers := s.processors[p].handlers;
    CountPrefix(handlers, Calling(step.terminating), Signaling, |handlers|);
    CountPrefix(handlers, Calling(step.terminating), Called, |handlers|);
  }

  lemma DroppingKeepsOneSignal(s: Client, step: Step, p: nat)
    requires p < |s.processors| && OneSignal(s, p) && step.DropProcessor? && Enabled(s, step)
    ensures OneSignal(Next(s, step), p)
  {
    CountZero(s.processors[p].handlers, Signaling, |s.processors[p].handlers|);
    CountZero(s.processors[p].handlers, Called, |s.processors[p].handlers|);
  }

  lemma StepKeepsOneSignal(s: Client, step: Step, p: nat)
    requires Invariant(s) && Enabled(s, step) && p < |Next(s, step).processors|
    ensures OneSignal(Next(s, step), p)
  {
    match step {
      case Spawn =>
        if p < |s.processors| {
          assert OneSignal(s, p);
        } else {
          assert p !in s.sent;
        }
      case Handle(_, _) =>
        HandlingKeepsOneSignal(s, step, p);
      case DropProcessor(_) =>
        DroppingKeepsOneSignal(s, step, p);
      case CallbackReturns(handling, h) =>
        assert OneSignal(s, p);
        if p == handling {
          CallbackKeepsOneSignal(s, p, h);
        }
      case TakeSignaler(handling, h) =>
        assert OneSignal(s, p);
        if p == handling {
          TakingKeepsOneSignal(s, p, h);
        }
      case Signal(handling, h) =>
        assert OneSignal(s, p);
        if p == handling {
          SignalingKeepsOneSignal(s, p, h);
        }
      case _ =>
        assert OneSignal(s, p);
    }
  }

  lemma StepKeepsClosed(s: Client, step: Step)
    requires Enabled(s, step) && ClosedForGood(s) && s.waiter.Returned?
    ensures ClosedForGood(Next(s, step))
  {
  }

  lemma StepKeepsInvariant(s: Client, step: Step)
    requires Invariant(s) && Enabled(s, step)
    ensures Invariant(Next(s, step))
  {
    forall p | 0 <= p < |Next(s, step).processors| ensures OneSignal(Next(s, step), p) {
      StepKeepsOneSignal(s, step, p);
    }
    if s.waiter.Returned? && !s.waiter.ok {
      StepKeepsClosed(s, step);
    }
  }

  /** The client after the first `n` steps, if they may happen. */
  function After(steps: seq<Step>, n: nat): Option<Client>
    requires n <= |steps|
  {
    if n == 0 then Some(START)
    else
      var before :- After(steps, n - 1);
      if Enabled(before, steps[n - 1]) then Some(Next(before, steps[n - 1])) else None
  }

  lemma {:induction false} RunKeepsInvariant(steps: seq<Step>, n: nat)
    requires n <= |steps| && After(steps, n).Some?
    ensures Invariant(After(steps, n).value)
  {
    if n > 0 {
      RunKeepsInvariant(steps, n - 1);
      StepKeepsInvariant(After(steps, n - 1).value, steps[n - 1]);
    }
  }

  // ---------- what a run asked for ----------

  /** How many processors were spawned by the first `n` steps. */
  function Spawned(steps: seq<Step>, n: nat): nat
    requires n <= |steps|
  {
    if n == 0 then 0 else Spawned(steps, n - 1) + if steps[n - 1].Spawn? then 1 else 0
  }

  /** How many there were when it was first asked to wait, if it was. */
  function SpawnedWhenAsked(steps: seq<Step>, n: nat): Option<nat>
    requires n <= |steps|
  {
    if n == 0 then None
    else if SpawnedWhenAsked(steps, n - 1).None? && steps[n - 1].AskToWait? then Some(Spawned(steps, n - 1))
    else SpawnedWhenAsked(steps, n - 1)
  }

  /** The processors to which an event that ends them came. */
  function Ending(steps: seq<Step>, n: nat): set<nat>
    requires n <= |steps|
  {
    if n == 0 then {}
    else Ending(steps, n - 1) + if steps[n - 1].Handle? && steps[n - 1].terminating then {steps[n - 1].p} else {}
  }

  /** The processors whose program was called back, and done with, about such an event. */
  function CalledBack(steps: seq<Step>, n: nat): set<nat>
    requires n <= |steps| && After(steps, n).Some?
  {
    if n == 0 then {}
    else
      var (s, step) := (After(steps, n - 1).value, steps[n - 1]);
      CalledBack(steps, n - 1) + if step.CallbackReturns? && IsHandler(s, step.p, step.h, Calling(true)) then {step.p} else {}
  }

  predicate WaitsAsAsked(s: Client, spawned: nat, whenAsked: Option<nat>) {
    && |s.processors| == spawned
    && if whenAsked.None? then s.waiter.NotAsked? else !s.waiter.NotAsked? && s.waiter.spawned == whenAsked.value
  }

  /** An event that ends a processor is either still with the program, or done with. */
  predicate EndsAsAsked(s: Client, ending: set<nat>, p: nat) {
    if p < |s.processors| then p in ending <==> p in s.finished || Count(s.processors[p].handlers, Calling(true)) > 0
    else p !in ending
  }

  lemma StepEndsAsAsked(s: Client, step: Step, ending: set<nat>, p: nat)
    requires Enabled(s, step) && EndsAsAsked(s, ending, p) && forall q <- s.finished :: q < |s.processors|
    ensures EndsAsAsked(Next(s, step), ending + (if step.Handle? && step.terminating then {step.p} else {}), p)
  {
    if p < |s.processors| && (step.CallbackReturns? || step.TakeSignaler? || step.Signal?) && p == step.p {
      var handlers := s.processors[p].handlers;
      CountAfter(handlers, step.h, Next(s, step).processors[p].handlers[step.h], Calling(true), |handlers|);
      CountZero(handlers, Calling(true), |handlers|);
    } else if p < |s.processors| && step.Handle? && p == step.p {
      var handlers := s.processors[p].handlers;
      CountPrefix(handlers, Calling(step.terminating), Calling(true), |handlers|);
    } else if p == |s.processors| && step.Spawn? {
      assert Count([], Calling(true)) == 0;
    }
  }

  lemma {:induction false} RunWaitsAsAsked(steps: seq<Step>, n: nat)
    requires n <= |steps| && After(steps, n).Some?
    ensures WaitsAsAsked(After(steps, n).value, Spawned(steps, n), SpawnedWhenAsked(steps, n))
  {
    if n > 0 {
      RunWaitsAsAsked(steps, n - 1);
      StepWaitsAsAsked(After(steps, n - 1).value, steps[n - 1], Spawned(steps, n - 1), SpawnedWhenAsked(steps, n - 1));
    }
  }

  lemma StepWaitsAsAsked(s: Client, step: Step, spawned: nat, whenAsked: Option<nat>)
    requires Enabled(s, step) && WaitsAsAsked(s, spawned, whenAsked)
    ensures WaitsAsAsked(Next(s, step), spawned + (if step.Spawn? then 1 else 0),
                         if whenAsked.None? && step.AskToWait? then Some(spawned) else whenAsked)
  {
  }

  lemma {:induction false} RunEndsAsAsked(steps: seq<Step>, n: nat, p: nat)
    requires n <= |steps| && After(steps, n).Some?
    ensures EndsAsAsked(After(steps, n).value, Ending(steps, n), p)
  {
    if n > 0 {
      RunEndsAsAsked(steps, n - 1, p);
      RunKeepsInvariant(steps, n - 1);
      StepEndsAsAsked(After(steps, n - 1).value, steps[n - 1], Ending(steps, n - 1), p);
    }
  }

  lemma {:induction false} RunFinishesByCallback(steps: seq<Step>, n: nat)
    requires n <= |steps| && After(steps, n).Some?
    ensures After(steps, n).value.finished == CalledBack(steps, n)
  {
    if n > 0 {
      RunFinishesByCallback(steps, n - 1);
      StepFinishesByCallback(After(steps, n - 1).value, steps[n - 1]);
    }
  }

  lemma StepFinishesByCallback(s: Client, step: Step)
    requires Enabled(s, step)
    ensures Next(s, step).finished
         == s.finished + if step.CallbackReturns? && IsHandler(s, step.p, step.h, Calling(true)) then {step.p} else {}
  {
  }

  // ---------- what the latch tells ----------

  lemma {:induction false} DistinctCount(sent: seq<nat>, all: set<nat>)
    requires forall p: nat :: multiset(sent)[p] == if p in all then 1 else 0
    ensures |sent| == |all|
  {
    if sent == [] {
      forall p ensures p !in all {
        assert multiset(sent)[p] == 0;
      }
      assert all == {};
    } else {
      var (rest, last) := (sent[..|sent| - 1], sent[|sent| - 1]);
      assert sent == rest + [last];
      assert multiset(sent)[last] == 1;
      DistinctCount(rest, all - {last});
    }
  }

  lemma OnlyOnce(s: Client, p: nat)
    requires Invariant(s)
    ensures multiset(s.sent)[p] <= 1
    ensures p in s.sent ==> p in s.finished
  {
    if p < |s.processors| {
      assert OneSignal(s, p);
    }
    assert p in s.sent ==> multiset(s.sent)[p] > 0;
  }

  /** MAIN RESULT, whatever happens -- each processor signals at most once and only after the program's callback was done
      with an event that ends the processor; and if the wait ends well, at least as many processors did so as there were
      when it was asked for. */
  lemma SignalsMeanTermination(steps: seq<Step>, n: nat)
    requires n <= |steps| && After(steps, n).Some?
    ensures var s := After(steps, n).value;
            && (forall i, j | 0 <= i < j < |s.sent| :: s.sent[i] != s.sent[j])
            && (forall i | 0 <= i < |s.sent| :: s.sent[i] in CalledBack(steps, n))
            && (s.waiter.Returned? && s.waiter.ok ==> SpawnedWhenAsked(steps, n) == Some(s.received) && s.received <= |s.sent|)
  {
    RunWaitsAsAsked(steps, n);
    RunFinishesByCallback(steps, n);
    RunKeepsInvariant(steps, n);
    var s := After(steps, n).value;
    forall i, j | 0 <= i < j < |s.sent| ensures s.sent[i] != s.sent[j] {
      OnlyOnce(s, s.sent[i]);
      assert multiset(s.sent) == multiset(s.sent[..j]) + multiset(s.sent[j..]) by {
        assert s.sent == s.sent[..j] + s.sent[j..];
      }
      assert s.sent[i] in s.sent[..j] && s.sent[j] in s.sent[j..] by {
        assert s.sent[..j][i] == s.sent[i] && s.sent[j..][0] == s.sent[j];
      }
    }
    forall i | 0 <= i < |s.sent| ensures s.sent[i] in s.finished {
      OnlyOnce(s, s.sent[i]);
    }
  }

  /** The steps that need nobody from outside. */
  predicate Internal(step: Step) {
    step.CallbackReturns? || step.TakeSignaler? || step.Signal? || step.ReceiveSignal? || step.ChannelCloses?
  }

  ghost predicate AtRest(s: Client) {
    forall step | Internal(step) :: !Enabled(s, step)
  }

  /** With someone waiting, all that was to be signaled was. */
  lemma RestsDone(s: Client, p: nat)
    requires Invariant(s) && AtRest(s) && !s.waiter.NotAsked? && p < |s.processors|
    ensures AllDone(s.processors[p].handlers)
    ensures p in s.finished <==> multiset(s.sent)[p] == 1
  {
    var handlers := s.processors[p].handlers;
    forall h | 0 <= h < |handlers| ensures handlers[h] == Done {
      assert !Enabled(s, CallbackReturns(p, h)) && !Enabled(s, TakeSignaler(p, h)) && !Enabled(s, Signal(p, h));
      assert !Enabled(s, ReceiveSignal);
    }
    CountZero(handlers, Called, |handlers|);
    CountZero(handlers, Signaling, |handlers|);
    assert OneSignal(s, p);
  }

  lemma WaitIsExact(s: Client)
    requires Invariant(s) && AtRest(s) && !s.waiter.NotAsked?
    ensures s.waiter.Returned? && s.waiter.ok <==> |s.finished| >= s.waiter.spawned
  {
    forall p: nat ensures multiset(s.sent)[p] == if p in s.finished then 1 else 0 {
      OnlyOnce(s, p);
      if p < |s.processors| {
        RestsDone(s, p);
      }
    }
    DistinctCount(s.sent, s.finished);
    assert !Enabled(s, ReceiveSignal);
  }

  lemma EndingIsDone(steps: seq<Step>, n: nat, p: nat)
    requires n <= |steps| && After(steps, n).Some?
    requires AtRest(After(steps, n).value) && !After(steps, n).value.waiter.NotAsked?
    ensures p in Ending(steps, n) <==> p in After(steps, n).value.finished
  {
    RunKeepsInvariant(steps, n);
    RunEndsAsAsked(steps, n, p);
    var s := After(steps, n).value;
    if p < |s.processors| {
      RestsDone(s, p);
      CountZero(s.processors[p].handlers, Calling(true), |s.processors[p].handlers|);
    }
  }

  /** MAIN RESULT, once all is handled -- the wait ended well if, and only if, at least as many processors got an event
      that ends them as there were when it was asked for. */
  lemma LatchIsExact(steps: seq<Step>, n: nat)
    requires n <= |steps| && After(steps, n).Some?
    requires AtRest(After(steps, n).value) && SpawnedWhenAsked(steps, n).Some?
    ensures var waiter := After(steps, n).value.waiter;
            waiter.Returned? && waiter.ok <==> |Ending(steps, n)| >= SpawnedWhenAsked(steps, n).value
  {
    var s := After(steps, n).value;
    RunKeepsInvariant(steps, n);
    RunWaitsAsAsked(steps, n);
    WaitIsExact(s);
    forall p: nat ensures p in Ending(steps, n) <==> p in s.finished {
      EndingIsDone(steps, n, p);
    }
    assert Ending(steps, n) == s.finished;
  }
}
