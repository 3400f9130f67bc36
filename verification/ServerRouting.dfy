/** The server's side of "Composite Protocol Stacking": connections are accepted, told of, and routed from processor to
    processor until they are not wanted any more. */
module ServerRouting {
  import opened Wrappers
  import opened Connections
  import opened Routing
  import Handler = SocketConnectionHandler

  /** How many connections fit in a channel: sending more waits for room. */
  const CHANNEL_SIZE: nat := 2

  /** A processor that can take any number of connections: those in its channel, and those it runs dialogs with. */
  datatype Processor<S> = Processor(alive: bool, inbox: seq<Connection<S>>, dialogs: seq<Connection<S>>)

  /** The connection routing task. */
  datatype Router<S> = Idle | Sending(connection: Connection<S>, to: nat) | Stopped

  datatype Server<S> = Server(
    initialState: S, accepted: nat, incoming: seq<Connection<S>>, returned: seq<Connection<S>>,
    processors: seq<Processor<S>>, router: Router<S>, log: seq<Event>, over: seq<Connection<S>>, lost: seq<Connection<S>>)

  datatype Step<S> =
    | Accept
    | RouteNew(to: Option<nat>)
    | RouteReturned(to: Option<nat>)
    | Deliver
    | DeliveryFails
    | StopRouting
    | Receive(p: nat, addressKnown: bool)
    | Finish(p: nat, dialog: nat, hop: Handler.Hop<S>)
    | StopProcessor(p: nat)

  function Start<S>(initialState: S, processors: nat): Server<S> {
    Server(initialState, 0, [], [], seq(processors, _ => Processor(true, [], [])), Idle, [], [], [])
  }

  /** May this happen now? The routing closure may answer with any processor, or none; a dialog may end in any way,
      after the program did anything to the state of the peer; and a source that is empty may turn out to be over. */
  predicate Enabled<S>(s: Server<S>, step: Step<S>) {
    match step
    case Accept => !s.router.Stopped? && |s.incoming| < CHANNEL_SIZE
    case RouteNew(to) => s.router.Idle? && s.incoming != [] && (to.Some? ==> to.value < |s.processors|)
    case RouteReturned(to) => s.router.Idle? && s.returned != [] && (to.Some? ==> to.value < |s.processors|)
    case Deliver =>
      && s.router.Sending? && s.router.to < |s.processors|
      && s.processors[s.router.to].alive && |s.processors[s.router.to].inbox| < CHANNEL_SIZE
    case DeliveryFails => s.router.Sending? && s.router.to < |s.processors| && !s.processors[s.router.to].alive
    case StopRouting => s.router.Idle? && (s.incoming == [] || s.returned == [])
    case Receive(p, _) => p < |s.processors| && s.processors[p].alive && s.processors[p].inbox != []
    case Finish(p, dialog, hop) =>
      && p < |s.processors| && dialog < |s.processors[p].dialogs| && hop.addressKnown
      && (Handler.Succeeds(hop) && !s.router.Stopped? ==> |s.returned| < CHANNEL_SIZE)
    case StopProcessor(p) => p < |s.processors| && s.processors[p].alive && s.processors[p].inbox == []
  }

  /** A connection for which the closure gave a processor is sent to it; any other is over. */
  function Dispatch<S>(s: Server<S>, connection: Connection<S>, to: Option<nat>): Server<S> {
    match to
    case Some(p) => s.(router := Sending(connection, p), log := s.log + [RoutedTo(connection.id, p)])
    case None => s.(log := s.log + [Disconnected(connection.id)], over := s.over + [connection])
  }

  /** The receivers go away with the routing task, and so do the connections in their channels. */
  function StopRouter<S>(s: Server<S>): Server<S> {
    s.(router := Stopped, incoming := [], returned := [], lost := s.lost + s.incoming + s.returned)
  }

  function WithoutDialog<S>(s: Server<S>, p: nat, dialog: nat): Server<S>
    requires p < |s.processors| && dialog < |s.processors[p].dialogs|
  {
    s.(processors := s.processors[p := s.processors[p].(dialogs := Without(s.processors[p].dialogs, dialog))])
  }

  function Next<S>(s: Server<S>, step: Step<S>): Server<S>
    requires Enabled(s, step)
  {
    match step
    case Accept =>
      s.(accepted := s.accepted + 1, incoming := s.incoming + [Connection(s.accepted, s.initialState, false)])
    case RouteNew(to) =>
      var connection := s.incoming[0];
      Dispatch(s.(incoming := Without(s.incoming, 0), log := s.log + [Connected(connection.id)]), connection, to)
    case RouteReturned(to) =>
      var connection := s.returned[0];
      Dispatch(s.(returned := Without(s.returned, 0)), connection, if connection.closed then None else to)
    case Deliver =>
      var to := s.processors[s.router.to];
      s.(processors := s.processors[s.router.to := to.(inbox := to.inbox + [s.router.connection])], router := Idle)
    case DeliveryFails =>
      StopRouter(s.(lost := s.lost + [s.router.connection]))
    case StopRouting =>
      StopRouter(s)
    case Receive(p, addressKnown) =>
      var connection := s.processors[p].inbox[0];
      var processor := s.processors[p].(inbox := Without(s.processors[p].inbox, 0));
      if addressKnown then s.(processors := s.processors[p := processor.(dialogs := processor.dialogs + [connection])])
      else s.(processors := s.processors[p := processor], lost := s.lost + [connection])
    case Finish(p, dialog, hop) =>
      var connection := s.processors[p].dialogs[dialog];
      var s' := WithoutDialog(s, p, dialog);
      if Handler.Succeeds(hop) && !s.router.Stopped? then s'.(returned := s.returned + [Handler.AfterHop(connection, hop).value])
      else s'.(lost := s.lost + [connection])
    case StopProcessor(p) =>
      s.(processors := s.processors[p := s.processors[p].(alive := false)])
  }

  // ---------- every connection in one place, with the right history ----------

  /** How many times a processor holds the connection. */
  function Held<S>(processor: Processor<S>, id: nat): nat {
    Count(processor.inbox, id) + Count(processor.dialogs, id)
  }

  function HeldByFirst<S>(processors: seq<Processor<S>>, n: nat, id: nat): nat
    requires n <= |processors|
  {
    if n == 0 then 0 else HeldByFirst(processors, n - 1, id) + Held(processors[n - 1], id)
  }

  function HeldByRouter<S>(router: Router<S>, id: nat): nat {
    if router.Sending? then One(id, router.connection.id) else 0
  }

  function TallyOf<S>(s: Server<S>, id: nat): Tally {
    Tally(id < s.accepted, Count(s.incoming, id),
          HeldByRouter(s.router, id) + Count(s.returned, id) + HeldByFirst(s.processors, |s.processors|, id),
          Count(s.over, id), Count(s.lost, id), StageAtEnd(s.log, id))
  }

  lemma {:induction false} HeldAfter<S>(processors: seq<Processor<S>>, p: nat, processor: Processor<S>, n: nat, id: nat)
    requires p < |processors| && n <= |processors|
    ensures HeldByFirst(processors[p := processor], n, id) + (if p < n then Held(processors[p], id) else 0)
         == HeldByFirst(processors, n, id) + (if p < n then Held(processor, id) else 0)
  {
    if n > 0 {
      HeldAfter(processors, p, processor, n - 1, id);
    }
  }

  lemma {:induction false} HeldBySome<S>(processors: seq<Processor<S>>, p: nat, n: nat, id: nat)
    requires p < n <= |processors|
    ensures Held(processors[p], id) <= HeldByFirst(processors, n, id)
  {
    if p < n - 1 {
      HeldBySome(processors, p, n - 1, id);
    }
  }

  /** Does the step drop the connection? That takes an unknown address, a dialog that fails, or the routing being over. */
  predicate Drops<S>(s: Server<S>, step: Step<S>, id: nat)
    requires Enabled(s, step)
  {
    match step
    case DeliveryFails => id == s.router.connection.id || Count(s.incoming, id) + Count(s.returned, id) > 0
    case StopRouting => Count(s.incoming, id) + Count(s.returned, id) > 0
    case Receive(p, addressKnown) => id == s.processors[p].inbox[0].id && !addressKnown
    case Finish(p, dialog, hop) =>
      id == s.processors[p].dialogs[dialog].id && (!Handler.Succeeds(hop) || s.router.Stopped?)
    case _ => false
  }

  /** What a step does to a connection. */
  function MoveOf<S>(s: Server<S>, step: Step<S>, id: nat): Move
    requires Enabled(s, step)
  {
    match step
    case Accept => if id == s.accepted then Accepted else Untouched
    case RouteNew(to) => if id == s.incoming[0].id then Introduced(to.Some?) else Untouched
    case RouteReturned(to) => if id == s.returned[0].id then Routed(to.Some? && !s.returned[0].closed) else Untouched
    case _ => if Drops(s, step, id) then Dropped else Untouched
  }

  predicate StepIsMove<S>(s: Server<S>, step: Step<S>, id: nat)
    requires Enabled(s, step)
  {
    && CanMove(TallyOf(s, id), MoveOf(s, step, id))
    && TallyOf(Next(s, step), id) == Apply(TallyOf(s, id), MoveOf(s, step, id))
  }

  lemma EveryStepIsMove<S>(s: Server<S>, step: Step<S>, id: nat)
    requires Enabled(s, step) && Sound(TallyOf(s, id))
    ensures StepIsMove(s, step, id)
  {
    match step {
      case Accept =>
        AcceptIsMove(s, id);
      case RouteNew(to) =>
        RouteNewIsMove(s, to, id);
      case RouteReturned(to) =>
        RouteReturnedIsMove(s, to, id);
      case Deliver =>
        DeliverIsMove(s, id);
      case DeliveryFails =>
        DeliveryFailsIsMove(s, id);
      case StopRouting =>
        StoppingLosesQueues(s, id);
      case Receive(p, addressKnown) =>
        ReceiveIsMove(s, p, addressKnown, id);
      case Finish(p, dialog, hop) =>
        FinishIsMove(s, p, dialog, hop, id);
      case StopProcessor(p) =>
        StopProcessorIsMove(s, p, id);
    }
  }

  lemma AcceptIsMove<S>(s: Server<S>, id: nat)
    requires Enabled(s, Accept) && Sound(TallyOf(s, id))
    ensures StepIsMove(s, Accept, id)
  {
    CountAppend(s.incoming, Connection(s.accepted, s.initialState, false), id);
  }

  lemma DeliveryFailsIsMove<S>(s: Server<S>, id: nat)
    requires Enabled(s, DeliveryFails) && Sound(TallyOf(s, id))
    ensures StepIsMove(s, DeliveryFails, id)
  {
    CountAppend(s.lost, s.router.connection, id);
    StoppingLosesQueues(s.(lost := s.lost + [s.router.connection]), id);
  }

  lemma StopProcessorIsMove<S>(s: Server<S>, p: nat, id: nat)
    requires Enabled(s, StopProcessor(p))
    ensures StepIsMove(s, StopProcessor(p), id)
  {
    HeldAfter(s.processors, p, s.processors[p].(alive := false), |s.processors|, id);
  }

  lemma StoppingLosesQueues<S>(s: Server<S>, id: nat)
    ensures Count(StopRouter(s).lost, id) == Count(s.lost, id) + Count(s.incoming, id) + Count(s.returned, id)
  {
    CountTogether(s.lost, s.incoming, id);
    CountTogether(s.lost + s.incoming, s.returned, id);
  }

  lemma RouteNewIsMove<S>(s: Server<S>, to: Option<nat>, id: nat)
    requires Enabled(s, RouteNew(to)) && Sound(TallyOf(s, id))
    ensures StepIsMove(s, RouteNew(to), id)
  {
    var moved := s.incoming[0].id;
    CountWithout(s.incoming, 0, id);
    CountAppend(s.over, s.incoming[0], id);
    OneMoreEvent(s.log, Connected(moved), id);
    RouteEvent(s.log + [Connected(moved)], moved, to, id);
  }

  lemma RouteReturnedIsMove<S>(s: Server<S>, to: Option<nat>, id: nat)
    requires Enabled(s, RouteReturned(to)) && Sound(TallyOf(s, id))
    ensures StepIsMove(s, RouteReturned(to), id)
  {
    var moved := s.returned[0];
    CountWithout(s.returned, 0, id);
    CountAppend(s.over, s.returned[0], id);
    RouteEvent(s.log, moved.id, if moved.closed then None else to, id);
  }

  lemma DeliverIsMove<S>(s: Server<S>, id: nat)
    requires Enabled(s, Deliver)
    ensures StepIsMove(s, Deliver, id)
  {
    var to := s.processors[s.router.to];
    HeldAfter(s.processors, s.router.to, to.(inbox := to.inbox + [s.router.connection]), |s.processors|, id);
    CountAppend(to.inbox, s.router.connection, id);
  }

  lemma ReceiveIsMove<S>(s: Server<S>, p: nat, addressKnown: bool, id: nat)
    requires Enabled(s, Receive(p, addressKnown)) && Sound(TallyOf(s, id))
    ensures StepIsMove(s, Receive(p, addressKnown), id)
  {
    var processor := s.processors[p];
    HeldBySome(s.processors, p, |s.processors|, id);
    HeldAfter(s.processors, p, Next(s, Receive(p, addressKnown)).processors[p], |s.processors|, id);
    CountWithout(processor.inbox, 0, id);
    CountAppend(s.lost, processor.inbox[0], id);
    CountAppend(processor.dialogs, processor.inbox[0], id);
  }

  lemma FinishIsMove<S>(s: Server<S>, p: nat, dialog: nat, hop: Handler.Hop<S>, id: nat)
    requires Enabled(s, Finish(p, dialog, hop)) && Sound(TallyOf(s, id))
    ensures StepIsMove(s, Finish(p, dialog, hop), id)
  {
    var connection := s.processors[p].dialogs[dialog];
    HeldWithoutDialog(s, p, dialog, id);
    if Handler.Succeeds(hop) && !s.router.Stopped? {
      CountAppend(s.returned, Handler.AfterHop(connection, hop).value, id);
    } else {
      CountAppend(s.lost, connection, id);
    }
  }

  lemma HeldWithoutDialog<S>(s: Server<S>, p: nat, dialog: nat, id: nat)
    requires p < |s.processors| && dialog < |s.processors[p].dialogs|
    ensures var processors := WithoutDialog(s, p, dialog).processors;
            && |processors| == |s.processors|
            && HeldByFirst(processors, |processors|, id) + One(id, s.processors[p].dialogs[dialog].id)
               == HeldByFirst(s.processors, |s.processors|, id)
  {
    HeldAfter(s.processors, p, WithoutDialog(s, p, dialog).processors[p], |s.processors|, id);
    CountWithout(s.processors[p].dialogs, dialog, id);
  }

  // ---------- the same for whole runs ----------

  /** The server after the first `n` steps, if they may happen. */
  function After<S>(start: Server<S>, steps: seq<Step<S>>, n: nat): Option<Server<S>>
    requires n <= |steps|
  {
    if n == 0 then Some(start)
    else
      var before :- After(start, steps, n - 1);
      if Enabled(before, steps[n - 1]) then Some(Next(before, steps[n - 1])) else None
  }

  /** No processor has, or is about to have, a connection reported closed. */
  predicate OpenOnesOnly<S>(s: Server<S>) {
    && NoneClosed(s.incoming)
    && (s.router.Sending? ==> s.router.to < |s.processors| && !s.router.connection.closed)
    && forall p | 0 <= p < |s.processors| :: HasOpenOnesOnly(s.processors[p])
  }

  predicate HasOpenOnesOnly<S>(processor: Processor<S>) {
    NoneClosed(processor.inbox) && NoneClosed(processor.dialogs)
  }

  lemma ProcessorKeepsOpenOnes<S>(s: Server<S>, step: Step<S>, p: nat)
    requires OpenOnesOnly(s) && Enabled(s, step) && p < |s.processors|
    ensures |Next(s, step).processors| == |s.processors| && HasOpenOnesOnly(Next(s, step).processors[p])
  {
    assert HasOpenOnesOnly(s.processors[p]);
  }

  lemma StepKeepsOpenOnes<S>(s: Server<S>, step: Step<S>)
    requires OpenOnesOnly(s) && Enabled(s, step)
    ensures OpenOnesOnly(Next(s, step))
  {
    var s' := Next(s, step);
    forall p | 0 <= p < |s'.processors| ensures HasOpenOnesOnly(s'.processors[p]) {
      ProcessorKeepsOpenOnes(s, step, p);
    }
  }

  lemma {:induction false} NothingHeldAtStart<S>(processors: seq<Processor<S>>, n: nat, id: nat)
    requires n <= |processors| && forall p | 0 <= p < n :: processors[p] == Processor(true, [], [])
    ensures HeldByFirst(processors, n, id) == 0
  {
    if n > 0 {
      NothingHeldAtStart(processors, n - 1, id);
    }
  }

  lemma {:induction false} EachInOnePlace<S>(initialState: S, processors: nat, steps: seq<Step<S>>, n: nat, id: nat)
    requires n <= |steps| && After(Start(initialState, processors), steps, n).Some?
    ensures var s := After(Start(initialState, processors), steps, n).value; Sound(TallyOf(s, id)) && OpenOnesOnly(s)
  {
    var start := Start(initialState, processors);
    if n == 0 {
      NothingHeldAtStart(start.processors, |start.processors|, id);
    } else {
      EachInOnePlace(initialState, processors, steps, n - 1, id);
      var before := After(start, steps, n - 1).value;
      EveryStepIsMove(before, steps[n - 1], id);
      MoveKeepsSound(TallyOf(before, id), MoveOf(before, steps[n - 1], id));
      StepKeepsOpenOnes(before, steps[n - 1]);
    }
  }

  /** MAIN RESULT -- however things interleave, each connection accepted is in exactly one place: waiting, with the
      router, coming back, in a processor, over or dropped. The program is told of it once, before it is routed anywhere;
      and of its end at most once, exactly if it is over, after which it is never routed. No processor gets one reported
      closed. */
  lemma RoutingIsSound<S>(initialState: S, processors: nat, steps: seq<Step<S>>, n: nat, id: nat)
    requires n <= |steps| && After(Start(initialState, processors), steps, n).Some?
    ensures var s := After(Start(initialState, processors), steps, n).value;
            && Sound(TallyOf(s, id)) && RightHistory(s.log, |s.log|, id) && OpenOnesOnly(s)
            && (Count(s.over, id) > 0 <==> IsIn(s.log, |s.log|, Disconnected(id)))
  {
    EachInOnePlace(initialState, processors, steps, n, id);
    var s := After(Start(initialState, processors), steps, n).value;
    StageIsHistory(s.log, |s.log|, id);
  }

  // ---------- what becomes of a connection ----------

  /** Was the connection dropped by any of the first `n` steps? */
  predicate WasDropped<S>(start: Server<S>, steps: seq<Step<S>>, n: nat, id: nat)
    requires n <= |steps| && After(start, steps, n).Some?
  {
    n > 0 && (WasDropped(start, steps, n - 1, id) || Drops(After(start, steps, n - 1).value, steps[n - 1], id))
  }

  /** A connection is lost if, and only if, a step of the run dropped it. */
  lemma {:induction false} LostIfDropped<S>(initialState: S, processors: nat, steps: seq<Step<S>>, n: nat, id: nat)
    requires n <= |steps| && After(Start(initialState, processors), steps, n).Some?
    ensures var start := Start(initialState, processors);
            Count(After(start, steps, n).value.lost, id) > 0 <==> WasDropped(start, steps, n, id)
  {
    if n > 0 {
      LostIfDropped(initialState, processors, steps, n - 1, id);
      EachInOnePlace(initialState, processors, steps, n - 1, id);
      EveryStepIsMove(After(Start(initialState, processors), steps, n - 1).value, steps[n - 1], id);
    }
  }

  /** What happened to the connection in each of the processors it came back from. */
  function HopsOf<S>(start: Server<S>, steps: seq<Step<S>>, n: nat, id: nat): seq<Handler.Hop<S>>
    requires n <= |steps| && After(start, steps, n).Some?
  {
    if n == 0 then []
    else HopsOf(start, steps, n - 1, id) + HopIn(After(start, steps, n - 1).value, steps[n - 1], id)
  }

  function HopIn<S>(s: Server<S>, step: Step<S>, id: nat): (hops: seq<Handler.Hop<S>>)
    requires Enabled(s, step)
    ensures |hops| <= 1
  {
    if step.Finish? && s.processors[step.p].dialogs[step.dialog].id == id then [step.hop] else []
  }

  /** Wherever the connection is, it is so: of that state, and closed or not. */
  predicate IsSo<S(==)>(s: Server<S>, id: nat, state: S, closed: bool) {
    && AreSo(s.incoming, id, state, closed) && AreSo(s.returned, id, state, closed)
    && (s.router.Sending? && s.router.connection.id == id ==>
          s.router.connection.state == state && s.router.connection.closed == closed)
    && (forall p | 0 <= p < |s.processors| :: HoldsSo(s.processors[p], id, state, closed))
    && (s.accepted <= id ==> state == s.initialState && !closed)
  }

  predicate HoldsSo<S(==)>(processor: Processor<S>, id: nat, state: S, closed: bool) {
    AreSo(processor.inbox, id, state, closed) && AreSo(processor.dialogs, id, state, closed)
  }

  lemma ProcessorKeepsSo<S>(s: Server<S>, step: Step<S>, p: nat, id: nat, state: S, closed: bool)
    requires IsSo(s, id, state, closed) && Enabled(s, step) && p < |s.processors|
    ensures |Next(s, step).processors| == |s.processors| && HoldsSo(Next(s, step).processors[p], id, state, closed)
  {
    assert HoldsSo(s.processors[p], id, state, closed);
  }

  lemma QueuesStaySo<S>(s: Server<S>, step: Step<S>, id: nat, state: S, closed: bool)
    requires IsSo(s, id, state, closed) && Enabled(s, step) && HopIn(s, step, id) == []
    ensures AreSo(Next(s, step).incoming, id, state, closed) && AreSo(Next(s, step).returned, id, state, closed)
  {
  }

  lemma RouterStaysSo<S>(s: Server<S>, step: Step<S>, id: nat, state: S, closed: bool)
    requires IsSo(s, id, state, closed) && Enabled(s, step)
    ensures var router := Next(s, step).router;
            router.Sending? && router.connection.id == id ==> router.connection.state == state && router.connection.closed == closed
    ensures Next(s, step).accepted <= id ==> state == Next(s, step).initialState && !closed
  {
  }

  lemma OthersStaySo<S>(s: Server<S>, step: Step<S>, id: nat, state: S, closed: bool)
    requires IsSo(s, id, state, closed) && Enabled(s, step) && HopIn(s, step, id) == []
    ensures IsSo(Next(s, step), id, state, closed)
  {
    var s' := Next(s, step);
    QueuesStaySo(s, step, id, state, closed);
    RouterStaysSo(s, step, id, state, closed);
    forall p | 0 <= p < |s'.processors| ensures HoldsSo(s'.processors[p], id, state, closed) {
      ProcessorKeepsSo(s, step, p, id, state, closed);
    }
  }

  /** A connection that is nowhere would be anything. */
  lemma NowhereAnything<S>(s: Server<S>, id: nat, state: S, closed: bool)
    requires Count(s.incoming, id) + Count(s.returned, id) + HeldByRouter(s.router, id) == 0
    requires HeldByFirst(s.processors, |s.processors|, id) == 0 && id < s.accepted
    ensures IsSo(s, id, state, closed)
  {
    AbsentIfNotCounted(s.incoming, |s.incoming|, id);
    AbsentIfNotCounted(s.returned, |s.returned|, id);
    forall p | 0 <= p < |s.processors| ensures HoldsSo(s.processors[p], id, state, closed) {
      HeldBySome(s.processors, p, |s.processors|, id);
      AbsentIfNotCounted(s.processors[p].inbox, |s.processors[p].inbox|, id);
      AbsentIfNotCounted(s.processors[p].dialogs, |s.processors[p].dialogs|, id);
    }
  }

  lemma FinishHandsOff<S>(s: Server<S>, p: nat, dialog: nat, hop: Handler.Hop<S>, state: S, closed: bool)
    requires Enabled(s, Finish(p, dialog, hop)) && Sound(TallyOf(s, s.processors[p].dialogs[dialog].id))
    requires IsSo(s, s.processors[p].dialogs[dialog].id, state, closed)
    ensures IsSo(Next(s, Finish(p, dialog, hop)), s.processors[p].dialogs[dialog].id,
                 Handler.HandedOff(state, hop.ops), closed || hop.end.closed)
  {
    var connection := s.processors[p].dialogs[dialog];
    assert HoldsSo(s.processors[p], connection.id, state, closed);
    HeldWithoutDialog(s, p, dialog, connection.id);
    NowhereAnything(WithoutDialog(s, p, dialog), connection.id, Handler.HandedOff(state, hop.ops), closed || hop.end.closed);
  }

  /** Wherever the connection is, it is as those hops left it: their state, and closed if any of them said so. */
  predicate IsAsLeft<S(==)>(s: Server<S>, id: nat, initialState: S, hops: seq<Handler.Hop<S>>) {
    IsSo(s, id, Handler.StateAfter(initialState, hops, |hops|), Handler.AnyCloses(hops))
  }

  lemma StepHandsOff<S>(s: Server<S>, step: Step<S>, id: nat, initialState: S, hops: seq<Handler.Hop<S>>)
    requires Enabled(s, step) && Sound(TallyOf(s, id)) && IsAsLeft(s, id, initialState, hops)
    ensures IsAsLeft(Next(s, step), id, initialState, hops + HopIn(s, step, id))
  {
    var (state, closed) := (Handler.StateAfter(initialState, hops, |hops|), Handler.AnyCloses(hops));
    if HopIn(s, step, id) == [] {
      assert hops + HopIn(s, step, id) == hops;
      OthersStaySo(s, step, id, state, closed);
    } else {
      Handler.StateAfterPrefix(initialState, hops, step.hop, |hops|);
      Handler.OneMoreHopCloses(hops, step.hop);
      FinishHandsOff(s, step.p, step.dialog, step.hop, state, closed);
    }
  }

  /** MAIN RESULT, on what is handed off -- however things interleave, wherever a connection is it has the state its hops
      so far, one after the other, left it with, and it is closed if, and only if, the dialog of any of them said so. */
  lemma {:induction false} StateIsHandedOff<S>(initialState: S, processors: nat, steps: seq<Step<S>>, n: nat, id: nat)
    requires n <= |steps| && After(Start(initialState, processors), steps, n).Some?
    ensures IsAsLeft(After(Start(initialState, processors), steps, n).value, id, initialState,
                     HopsOf(Start(initialState, processors), steps, n, id))
  {
    if n > 0 {
      StateIsHandedOff(initialState, processors, steps, n - 1, id);
      EachInOnePlace(initialState, processors, steps, n - 1, id);
      var start := Start(initialState, processors);
      StepHandsOff(After(start, steps, n - 1).value, steps[n - 1], id, initialState, HopsOf(start, steps, n - 1, id));
    }
  }

  /** So the routing closure sees, of a connection that came back, the state set last in the last dialog that left one --
      or, if none did, the initial state. */
  lemma ClosureSeesLastStateLeft<S>(initialState: S, processors: nat, steps: seq<Step<S>>, n: nat, last: int)
    requires n <= |steps| && After(Start(initialState, processors), steps, n).Some?
    requires After(Start(initialState, processors), steps, n).value.returned != []
    requires var hops := HopsOf(Start(initialState, processors), steps, n,
                                After(Start(initialState, processors), steps, n).value.returned[0].id);
             && -1 <= last < |hops| && (last >= 0 ==> Handler.LeavesState(hops[last].ops))
             && Handler.NoneLeavesState(hops, last + 1, |hops|)
    ensures var connection := After(Start(initialState, processors), steps, n).value.returned[0];
            var hops := HopsOf(Start(initialState, processors), steps, n, connection.id);
            connection.state == if last < 0 then initialState else hops[last].ops[|hops[last].ops| - 1].state
  {
    var connection := After(Start(initialState, processors), steps, n).value.returned[0];
    var hops := HopsOf(Start(initialState, processors), steps, n, connection.id);
    StateIsHandedOff(initialState, processors, steps, n, connection.id);
    if last < 0 {
      Handler.InitialStateStays(initialState, hops, |hops|);
    } else {
      Handler.LastStateLeftStays(initialState, hops, last, |hops|);
    }
  }

  // ---------- where a connection is sent ----------

  /** The connection is on its way to the processor it was last routed to, or there. */
  predicate IsWhereRouted<S>(s: Server<S>, id: nat) {
    var last := LastOf(s.log, |s.log|, id);
    && (s.router.Sending? && s.router.connection.id == id ==> last == Some(RoutedTo(id, s.router.to)))
    && forall q: nat | q < |s.processors| :: Held(s.processors[q], id) > 0 ==> last == Some(RoutedTo(id, q))
  }

  lemma DispatchGoesWhereRouted<S>(s: Server<S>, connection: Connection<S>, to: Option<nat>, id: nat)
    requires IsWhereRouted(s, id) && s.router.Idle?
    requires connection.id == id ==> HeldByFirst(s.processors, |s.processors|, id) == 0
    ensures IsWhereRouted(Dispatch(s, connection, to), id)
  {
    OneMoreLast(s.log, if to.Some? then RoutedTo(connection.id, to.value) else Disconnected(connection.id), id);
    forall q: nat | q < |s.processors| && connection.id == id ensures Held(s.processors[q], id) == 0 {
      HeldBySome(s.processors, q, |s.processors|, id);
    }
  }

  lemma RouteNewGoesWhereRouted<S>(s: Server<S>, to: Option<nat>, id: nat)
    requires Enabled(s, RouteNew(to)) && Sound(TallyOf(s, id)) && IsWhereRouted(s, id)
    ensures IsWhereRouted(Next(s, RouteNew(to)), id)
  {
    var connection := s.incoming[0];
    CountWithout(s.incoming, 0, id);
    OneMoreLast(s.log, Connected(connection.id), id);
    forall q: nat | q < |s.processors| && connection.id == id ensures Held(s.processors[q], id) == 0 {
      HeldBySome(s.processors, q, |s.processors|, id);
    }
    DispatchGoesWhereRouted(s.(incoming := Without(s.incoming, 0), log := s.log + [Connected(connection.id)]), connection, to, id);
  }

  lemma RouteReturnedGoesWhereRouted<S>(s: Server<S>, to: Option<nat>, id: nat)
    requires Enabled(s, RouteReturned(to)) && Sound(TallyOf(s, id)) && IsWhereRouted(s, id)
    ensures IsWhereRouted(Next(s, RouteReturned(to)), id)
  {
    var connection := s.returned[0];
    CountWithout(s.returned, 0, id);
    DispatchGoesWhereRouted(s.(returned := Without(s.returned, 0)), connection, if connection.closed then None else to, id);
  }

  /** Only what the router sends to it adds to a processor. */
  lemma HeldOnlyIfSent<S>(s: Server<S>, step: Step<S>, q: nat, id: nat)
    requires Enabled(s, step) && q < |s.processors|
    ensures |Next(s, step).processors| == |s.processors|
    ensures Held(Next(s, step).processors[q], id)
         <= Held(s.processors[q], id) + if step.Deliver? && s.router.to == q then One(id, s.router.connection.id) else 0
  {
    match step {
      case Deliver =>
        CountAppend(s.processors[s.router.to].inbox, s.router.connection, id);
      case Receive(p, _) =>
        CountWithout(s.processors[p].inbox, 0, id);
        CountAppend(s.processors[p].dialogs, s.processors[p].inbox[0], id);
      case Finish(p, dialog, _) =>
        CountWithout(s.processors[p].dialogs, dialog, id);
      case _ =>
    }
  }

  lemma StepGoesWhereRouted<S>(s: Server<S>, step: Step<S>, id: nat)
    requires Enabled(s, step) && Sound(TallyOf(s, id)) && IsWhereRouted(s, id)
    ensures IsWhereRouted(Next(s, step), id)
  {
    if step.RouteNew? {
      RouteNewGoesWhereRouted(s, step.to, id);
    } else if step.RouteReturned? {
      RouteReturnedGoesWhereRouted(s, step.to, id);
    } else {
      assert Next(s, step).log == s.log;
      forall q: nat | q < |s.processors| && Held(Next(s, step).processors[q], id) > 0
        ensures LastOf(s.log, |s.log|, id) == Some(RoutedTo(id, q))
      {
        HeldOnlyIfSent(s, step, q, id);
      }
    }
  }

  /** MAIN RESULT, on where connections go -- in every run, a connection is sent to, waits for and is in a dialog with no
      other processor than the one it was last said to be routed to: the closure's answer. */
  lemma {:induction false} GoesWhereRouted<S>(initialState: S, processors: nat, steps: seq<Step<S>>, n: nat, id: nat)
    requires n <= |steps| && After(Start(initialState, processors), steps, n).Some?
    ensures IsWhereRouted(After(Start(initialState, processors), steps, n).value, id)
  {
    if n > 0 {
      GoesWhereRouted(initialState, processors, steps, n - 1, id);
      EachInOnePlace(initialState, processors, steps, n - 1, id);
      StepGoesWhereRouted(After(Start(initialState, processors), steps, n - 1).value, steps[n - 1], id);
    }
  }

  /** A round of the routing says where the connection goes: where the closure answered, unless it was reported closed. */
  lemma RoutingFollowsAnswer<S>(s: Server<S>, to: Option<nat>)
    ensures Enabled(s, RouteNew(to)) ==>
              var id := s.incoming[0].id;
              Next(s, RouteNew(to)).log == s.log + [Connected(id)] + [if to.Some? then RoutedTo(id, to.value) else Disconnected(id)]
    ensures Enabled(s, RouteReturned(to)) ==>
              var Connection(id, _, closed) := s.returned[0];
              Next(s, RouteReturned(to)).log
              == s.log + [if to.Some? && !closed then RoutedTo(id, to.value) else Disconnected(id)]
  {
  }

  lemma StepRoutesOpenOnly<S>(s: Server<S>, step: Step<S>, id: nat, state: S)
    requires Enabled(s, step) && OpenOnesOnly(s) && IsSo(s, id, state, true)
    ensures NoMoreRouting(s.log, Next(s, step).log, id)
  {
  }

  /** Did any dialog so far report the connection closed? */
  predicate WasClosed<S>(start: Server<S>, steps: seq<Step<S>>, n: nat, id: nat)
    requires n <= |steps| && After(start, steps, n).Some?
  {
    Handler.AnyCloses(HopsOf(start, steps, n, id))
  }

  lemma {:induction false} StaysClosed<S>(start: Server<S>, steps: seq<Step<S>>, n: nat, later: nat, id: nat)
    requires n <= later <= |steps| && After(start, steps, later).Some? && After(start, steps, n).Some? && WasClosed(start, steps, n, id)
    ensures WasClosed(start, steps, later, id)
    decreases later
  {
    if n < later {
      StaysClosed(start, steps, n, later - 1, id);
      Handler.OnceAnyCloses(HopsOf(start, steps, later - 1, id), HopIn(After(start, steps, later - 1).value, steps[later - 1], id));
    }
  }

  lemma {:induction false} RanBefore<S>(start: Server<S>, steps: seq<Step<S>>, n: nat, later: nat)
    requires n <= later <= |steps| && After(start, steps, later).Some?
    ensures After(start, steps, n).Some?
    decreases later
  {
    if n < later {
      RanBefore(start, steps, n, later - 1);
    }
  }

  lemma StepRoutesNoneClosed<S>(initialState: S, processors: nat, steps: seq<Step<S>>, n: nat, id: nat)
    requires n < |steps| && After(Start(initialState, processors), steps, n + 1).Some?
    requires After(Start(initialState, processors), steps, n).Some? && WasClosed(Start(initialState, processors), steps, n, id)
    ensures NoMoreRouting(After(Start(initialState, processors), steps, n).value.log,
                          After(Start(initialState, processors), steps, n + 1).value.log, id)
  {
    var start := Start(initialState, processors);
    EachInOnePlace(initialState, processors, steps, n, id);
    StateIsHandedOff(initialState, processors, steps, n, id);
    var hops := HopsOf(start, steps, n, id);
    StepRoutesOpenOnly(After(start, steps, n).value, steps[n], id, Handler.StateAfter(initialState, hops, |hops|));
  }

  lemma RoutesNoneClosedAt<S>(initialState: S, processors: nat, steps: seq<Step<S>>, n: nat, later: nat, k: nat, id: nat)
    requires n <= k < later <= |steps| && After(Start(initialState, processors), steps, later).Some?
    requires After(Start(initialState, processors), steps, n).Some? && WasClosed(Start(initialState, processors), steps, n, id)
    ensures NoMoreRouting(LogAfter(initialState, processors, steps, k), LogAfter(initialState, processors, steps, k + 1), id)
  {
    RanBefore(Start(initialState, processors), steps, k, later);
    RanBefore(Start(initialState, processors), steps, k + 1, later);
    StaysClosed(Start(initialState, processors), steps, n, k, id);
    StepRoutesNoneClosed(initialState, processors, steps, k, id);
  }

  function LogAfter<S>(initialState: S, processors: nat, steps: seq<Step<S>>, n: nat): seq<Event> {
    if n <= |steps| && After(Start(initialState, processors), steps, n).Some?
    then After(Start(initialState, processors), steps, n).value.log else []
  }

  lemma RoutesNoneClosedThen<S>(initialState: S, processors: nat, steps: seq<Step<S>>, n: nat, later: nat, id: nat)
    requires n <= later <= |steps| && After(Start(initialState, processors), steps, later).Some?
    requires After(Start(initialState, processors), steps, n).Some? && WasClosed(Start(initialState, processors), steps, n, id)
    ensures forall k: nat | n <= k < later ::
              NoMoreRouting(LogAfter(initialState, processors, steps, k), LogAfter(initialState, processors, steps, k + 1), id)
  {
    forall k: nat | n <= k < later
      ensures NoMoreRouting(LogAfter(initialState, processors, steps, k), LogAfter(initialState, processors, steps, k + 1), id)
    {
      RoutesNoneClosedAt(initialState, processors, steps, n, later, k, id);
    }
  }

  /** MAIN RESULT, on closed connections -- once a dialog reported the connection closed, it is never routed again. */
  lemma NeverRoutedOnceClosed<S>(initialState: S, processors: nat, steps: seq<Step<S>>, n: nat, later: nat, id: nat)
    requires n <= later <= |steps| && After(Start(initialState, processors), steps, later).Some?
    requires After(Start(initialState, processors), steps, n).Some? && WasClosed(Start(initialState, processors), steps, n, id)
    ensures NoMoreRouting(LogAfter(initialState, processors, steps, n), LogAfter(initialState, processors, steps, later), id)
  {
    RoutesNoneClosedThen(initialState, processors, steps, n, later, id);
    NeverAgain((k: nat) => LogAfter(initialState, processors, steps, k), n, later, id);
  }

  // ---------- first come, first served ----------

  /** The connections taken so far by a processor, in order. */
  function ReceivedBy<S>(start: Server<S>, steps: seq<Step<S>>, n: nat, q: nat): seq<nat>
    requires n <= |steps| && After(start, steps, n).Some?
  {
    if n == 0 then [] else ReceivedBy(start, steps, n - 1, q) + ReceivedIn(After(start, steps, n - 1).value, steps[n - 1], q)
  }

  function ReceivedIn<S>(s: Server<S>, step: Step<S>, q: nat): seq<nat>
    requires Enabled(s, step)
  {
    if step.Receive? && step.p == q then [s.processors[q].inbox[0].id] else []
  }

  /** The connections given back so far to the routing, and those it took back, in order. */
  function GivenBack<S>(start: Server<S>, steps: seq<Step<S>>, n: nat): seq<nat>
    requires n <= |steps| && After(start, steps, n).Some?
  {
    if n == 0 then [] else GivenBack(start, steps, n - 1) + GivenBackIn(After(start, steps, n - 1).value, steps[n - 1])
  }

  function GivenBackIn<S>(s: Server<S>, step: Step<S>): seq<nat>
    requires Enabled(s, step)
  {
    if step.Finish? && Handler.Succeeds(step.hop) && !s.router.Stopped? then [s.processors[step.p].dialogs[step.dialog].id] else []
  }

  function TakenBack<S>(start: Server<S>, steps: seq<Step<S>>, n: nat): seq<nat>
    requires n <= |steps| && After(start, steps, n).Some?
  {
    if n == 0 then [] else TakenBack(start, steps, n - 1) + TakenBackIn(After(start, steps, n - 1).value, steps[n - 1])
  }

  function TakenBackIn<S>(s: Server<S>, step: Step<S>): seq<nat>
    requires Enabled(s, step)
  {
    if step.RouteReturned? then [s.returned[0].id] else []
  }

  /** The first `n` numbers. */
  function Numbers(n: nat): (numbers: seq<nat>)
    ensures |numbers| == n && forall i | 0 <= i < n :: numbers[i] == i
  {
    seq(n, i => i)
  }

  /** While the routing goes on, what was done and what is waiting in the channel are all there is to do, in order. */
  predicate InOrder(stopped: bool, done: seq<nat>, waiting: seq<nat>, all: seq<nat>) {
    if stopped then done <= all else done + waiting == all
  }

  function OnTheWayTo<S>(s: Server<S>, q: nat): seq<nat> {
    if s.router.Sending? && s.router.to == q then [s.router.connection.id] else []
  }

  lemma OneMoreToDo(done: seq<nat>, waiting: seq<nat>, all: seq<nat>, id: nat)
    requires InOrder(false, done, waiting, all)
    ensures InOrder(false, done, waiting + [id], all + [id])
  {
  }

  lemma OneMoreDone(done: seq<nat>, id: nat, waiting: seq<nat>, all: seq<nat>)
    requires InOrder(false, done, [id] + waiting, all)
    ensures InOrder(false, done + [id], waiting, all)
  {
  }

  lemma DoneSoFar(done: seq<nat>, waiting: seq<nat>, all: seq<nat>)
    requires InOrder(false, done, waiting, all)
    ensures InOrder(true, done, [], all)
  {
  }

  lemma NothingMore(ids: seq<nat>)
    ensures ids + [] == ids
  {
  }

  /** What a step adds to the log. */
  lemma StepTells<S>(s: Server<S>, step: Step<S>, q: nat)
    requires Enabled(s, step)
    ensures var log := Next(s, step).log;
            && Announced(log, |log|) == Announced(s.log, |s.log|) + (if step.RouteNew? then [s.incoming[0].id] else [])
            && SentTo(log, |log|, q)
               == SentTo(s.log, |s.log|, q) + (if step.RouteNew? || step.RouteReturned? then OnTheWayTo(Next(s, step), q) else [])
  {
    NothingMore(Announced(s.log, |s.log|));
    NothingMore(SentTo(s.log, |s.log|, q));
    if step.RouteNew? {
      DispatchTells(s.(incoming := Without(s.incoming, 0), log := s.log + [Connected(s.incoming[0].id)]), s.incoming[0], step.to, q);
      OneMoreInOrder(s.log, Connected(s.incoming[0].id), q);
    } else if step.RouteReturned? {
      DispatchTells(s.(returned := Without(s.returned, 0)), s.returned[0], if s.returned[0].closed then None else step.to, q);
    }
  }

  lemma DispatchTells<S>(s: Server<S>, connection: Connection<S>, to: Option<nat>, q: nat)
    requires s.router.Idle?
    ensures var s' := Dispatch(s, connection, to);
            && Announced(s'.log, |s'.log|) == Announced(s.log, |s.log|)
            && SentTo(s'.log, |s'.log|, q) == SentTo(s.log, |s.log|, q) + OnTheWayTo(s', q)
  {
    OneMoreInOrder(s.log, if to.Some? then RoutedTo(connection.id, to.value) else Disconnected(connection.id), q);
    NothingMore(Announced(s.log, |s.log|));
    NothingMore(SentTo(s.log, |s.log|, q));
  }

  lemma AnnouncesInOrder<S>(s: Server<S>, step: Step<S>, announced: seq<nat>)
    requires Enabled(s, step) && InOrder(s.router.Stopped?, announced, IdsOf(s.incoming), Numbers(s.accepted))
    ensures var s' := Next(s, step);
            InOrder(s'.router.Stopped?, announced + (if step.RouteNew? then [s.incoming[0].id] else []), IdsOf(s'.incoming),
                    Numbers(s'.accepted))
  {
    NothingMore(announced);
    match step {
      case Accept =>
        IdsAppend(s.incoming, Connection(s.accepted, s.initialState, false));
        assert Numbers(s.accepted + 1) == Numbers(s.accepted) + [s.accepted];
        OneMoreToDo(announced, IdsOf(s.incoming), Numbers(s.accepted), s.accepted);
      case RouteNew(_) =>
        IdsOfFirst(s.incoming);
        OneMoreDone(announced, s.incoming[0].id, IdsOf(Without(s.incoming, 0)), Numbers(s.accepted));
      case DeliveryFails =>
        DoneSoFar(announced, IdsOf(s.incoming), Numbers(s.accepted));
      case StopRouting =>
        DoneSoFar(announced, IdsOf(s.incoming), Numbers(s.accepted));
      case _ =>
    }
  }

  /** What a processor took and what waits in its channel, in order. */
  function ArrivedAt<S>(s: Server<S>, q: nat, received: seq<nat>): seq<nat>
    requires q < |s.processors|
  {
    received + IdsOf(s.processors[q].inbox)
  }

  lemma ArrivesInOrder<S>(s: Server<S>, step: Step<S>, q: nat, received: seq<nat>)
    requires Enabled(s, step) && q < |s.processors|
    ensures |Next(s, step).processors| == |s.processors|
    ensures ArrivedAt(Next(s, step), q, received + ReceivedIn(s, step, q))
         == ArrivedAt(s, q, received) + if step.Deliver? then OnTheWayTo(s, q) else []
  {
    NothingMore(received);
    NothingMore(ArrivedAt(s, q, received));
    if step.Receive? && step.p == q {
      TakingKeepsOrder(received, s.processors[q].inbox);
    } else if step.Deliver? && s.router.to == q {
      PuttingKeepsOrder(received, s.processors[q].inbox, s.router.connection);
    }
  }

  lemma TakingKeepsOrder<S>(received: seq<nat>, inbox: seq<Connection<S>>)
    requires inbox != []
    ensures (received + [inbox[0].id]) + IdsOf(Without(inbox, 0)) == received + IdsOf(inbox)
  {
    IdsOfFirst(inbox);
  }

  lemma PuttingKeepsOrder<S>(received: seq<nat>, inbox: seq<Connection<S>>, connection: Connection<S>)
    ensures received + IdsOf(inbox + [connection]) == (received + IdsOf(inbox)) + [connection.id]
  {
    IdsAppend(inbox, connection);
  }

  lemma SendsInOrder<S>(s: Server<S>, step: Step<S>, q: nat, arrived: seq<nat>, sent: seq<nat>)
    requires Enabled(s, step) && InOrder(s.router.Stopped?, arrived, OnTheWayTo(s, q), sent)
    ensures var s' := Next(s, step);
            InOrder(s'.router.Stopped?, arrived + (if step.Deliver? then OnTheWayTo(s, q) else []), OnTheWayTo(s', q),
                    sent + (if step.RouteNew? || step.RouteReturned? then OnTheWayTo(s', q) else []))
  {
    NothingMore(arrived);
    NothingMore(sent);
    if step.Deliver? {
      NothingMore(arrived + OnTheWayTo(s, q));
    } else if step.DeliveryFails? || step.StopRouting? {
      DoneSoFar(arrived, OnTheWayTo(s, q), sent);
    }
  }

  lemma GivesBackInOrder<S>(s: Server<S>, step: Step<S>, taken: seq<nat>, given: seq<nat>)
    requires Enabled(s, step) && InOrder(s.router.Stopped?, taken, IdsOf(s.returned), given)
    ensures var s' := Next(s, step);
            InOrder(s'.router.Stopped?, taken + TakenBackIn(s, step), IdsOf(s'.returned), given + GivenBackIn(s, step))
  {
    NothingMore(taken);
    NothingMore(given);
    match step {
      case RouteReturned(_) =>
        IdsOfFirst(s.returned);
        OneMoreDone(taken, s.returned[0].id, IdsOf(Without(s.returned, 0)), given);
      case Finish(p, dialog, hop) =>
        if Handler.Succeeds(hop) && !s.router.Stopped? {
          IdsAppend(s.returned, Handler.AfterHop(s.processors[p].dialogs[dialog], hop).value);
          OneMoreToDo(taken, IdsOf(s.returned), given, s.processors[p].dialogs[dialog].id);
        }
      case DeliveryFails =>
        DoneSoFar(taken, IdsOf(s.returned), given);
      case StopRouting =>
        DoneSoFar(taken, IdsOf(s.returned), given);
      case _ =>
    }
  }

  lemma {:induction false} AnnouncedInOrder<S>(initialState: S, processors: nat, steps: seq<Step<S>>, n: nat)
    requires n <= |steps| && After(Start(initialState, processors), steps, n).Some?
    ensures var s := After(Start(initialState, processors), steps, n).value;
            InOrder(s.router.Stopped?, Announced(s.log, |s.log|), IdsOf(s.incoming), Numbers(s.accepted))
  {
    if n > 0 {
      AnnouncedInOrder(initialState, processors, steps, n - 1);
      var s := After(Start(initialState, processors), steps, n - 1).value;
      StepTells(s, steps[n - 1], 0);
      AnnouncesInOrder(s, steps[n - 1], Announced(s.log, |s.log|));
    }
  }

  lemma {:induction false} SentInOrder<S>(initialState: S, processors: nat, steps: seq<Step<S>>, n: nat, q: nat)
    requires n <= |steps| && After(Start(initialState, processors), steps, n).Some? && q < processors
    ensures var (start, s) := (Start(initialState, processors), After(Start(initialState, processors), steps, n).value);
            && |s.processors| == processors
            && InOrder(s.router.Stopped?, ArrivedAt(s, q, ReceivedBy(start, steps, n, q)), OnTheWayTo(s, q), SentTo(s.log, |s.log|, q))
  {
    if n > 0 {
      SentInOrder(initialState, processors, steps, n - 1, q);
      var s := After(Start(initialState, processors), steps, n - 1).value;
      var received := ReceivedBy(Start(initialState, processors), steps, n - 1, q);
      StepTells(s, steps[n - 1], q);
      ArrivesInOrder(s, steps[n - 1], q, received);
      SendsInOrder(s, steps[n - 1], q, ArrivedAt(s, q, received), SentTo(s.log, |s.log|, q));
    }
  }

  lemma {:induction false} GivenBackInOrder<S>(initialState: S, processors: nat, steps: seq<Step<S>>, n: nat)
    requires n <= |steps| && After(Start(initialState, processors), steps, n).Some?
    ensures var (start, s) := (Start(initialState, processors), After(Start(initialState, processors), steps, n).value);
            InOrder(s.router.Stopped?, TakenBack(start, steps, n), IdsOf(s.returned), GivenBack(start, steps, n))
  {
    if n > 0 {
      GivenBackInOrder(initialState, processors, steps, n - 1);
      var start := Start(initialState, processors);
      var (taken, given) := (TakenBack(start, steps, n - 1), GivenBack(start, steps, n - 1));
      GivesBackInOrder(After(start, steps, n - 1).value, steps[n - 1], taken, given);
    }
  }

  /** MAIN RESULT, on the order -- in every run, connections are announced in the order they were accepted, each processor
      takes those routed to it in the order they were, and they are routed again in the order they came back; none is
      passed over while the routing goes on. */
  lemma FirstComeFirstServed<S>(initialState: S, processors: nat, steps: seq<Step<S>>, n: nat, q: nat)
    requires n <= |steps| && After(Start(initialState, processors), steps, n).Some? && q < processors
    ensures var (start, s) := (Start(initialState, processors), After(Start(initialState, processors), steps, n).value);
            && |s.processors| == processors
            && InOrder(s.router.Stopped?, Announced(s.log, |s.log|), IdsOf(s.incoming), Numbers(s.accepted))
            && InOrder(s.router.Stopped?, ReceivedBy(start, steps, n, q) + IdsOf(s.processors[q].inbox), OnTheWayTo(s, q),
                       SentTo(s.log, |s.log|, q))
            && InOrder(s.router.Stopped?, TakenBack(start, steps, n), IdsOf(s.returned), GivenBack(start, steps, n))
  {
    AnnouncedInOrder(initialState, processors, steps, n);
    SentInOrder(initialState, processors, steps, n, q);
    GivenBackInOrder(initialState, processors, steps, n);
  }

  // ---------- no deadlock ----------

  /** Does the step take a connection further? */
  predicate Proceeds<S>(step: Step<S>) {
    !step.Accept? && !step.StopRouting? && !step.StopProcessor?
  }

  predicate HoldsSome<S>(s: Server<S>) {
    || s.incoming != [] || s.returned != [] || s.router.Sending?
    || exists p | 0 <= p < |s.processors| :: s.processors[p].dialogs != [] || (s.processors[p].alive && s.processors[p].inbox != [])
  }

  /** There is no deadlock, for all the channels that may be full: while the routing goes on, whoever holds a connection,
      some connection may proceed -- whatever the closure answers, or however the dialog ends. */
  lemma NeverStuck<S>(s: Server<S>) returns (step: Step<S>)
    requires OpenOnesOnly(s) && !s.router.Stopped? && HoldsSome(s)
    ensures Enabled(s, step) && Proceeds(step)
    ensures step.RouteReturned? ==> forall to: Option<nat> | to.None? || to.value < |s.processors| :: Enabled(s, RouteReturned(to))
    ensures step.RouteNew? ==> forall to: Option<nat> | to.None? || to.value < |s.processors| :: Enabled(s, RouteNew(to))
    ensures step.Finish? ==> forall hop: Handler.Hop<S> | hop.addressKnown :: Enabled(s, Finish(step.p, step.dialog, hop))
    ensures step.Receive? ==> forall addressKnown :: Enabled(s, Receive(step.p, addressKnown))
  {
    if s.router.Sending? {
      var to := s.router.to;
      step := if !s.processors[to].alive then DeliveryFails
              else if |s.processors[to].inbox| < CHANNEL_SIZE then Deliver
              else Receive(to, true);
    } else if s.returned != [] {
      step := RouteReturned(None);
    } else if s.incoming != [] {
      step := RouteNew(None);
    } else {
      var p :| 0 <= p < |s.processors| && (s.processors[p].dialogs != [] || (s.processors[p].alive && s.processors[p].inbox != []));
      step := if s.processors[p].dialogs != [] then Finish(p, 0, Handler.Failure()) else Receive(p, true);
    }
  }

  // ---------- the routing loop ----------

  /** The state of the routing task, and what it shares with the rest of the program. */
  class RoutingTask<S> {
    var incoming: seq<Connection<S>>
    var returned: seq<Connection<S>>
    var sending: Option<(Connection<S>, nat)>
    var log: seq<Event>
    var over: seq<Connection<S>>

    constructor ()
      ensures incoming == [] && returned == [] && sending == None && log == [] && over == []
    {
      incoming, returned, sending, log, over := [], [], None, [], [];
    }

    /** Is this the routing task of the server? */
    ghost predicate Routes(s: Server<S>)
      reads this
    {
      && s.incoming == incoming && s.returned == returned && s.log == log && s.over == over
      && s.router == if sending.None? then Idle else Sending(sending.value.0, sending.value.1)
    }

    /** One round of the loop: a connection, just accepted or returned, gets its next processor or its end. */
    method RouteOne(isNew: bool, connectionRoutingClosure: (Connection<S>, bool) -> Option<nat>, ghost s: Server<S>)
      returns (ghost step: Step<S>)
      requires Routes(s) && s.router.Idle?
      requires if isNew then incoming != [] else returned != []
      requires forall connection, isReused :: var to := connectionRoutingClosure(connection, isReused);
                 to.Some? ==> to.value < |s.processors|
      modifies this
      ensures step == if isNew then RouteNew(connectionRoutingClosure(old(incoming)[0], false))
                      else RouteReturned(connectionRoutingClosure(old(returned)[0], true))
      ensures Enabled(s, step) && Routes(Next(s, step))
      ensures var connection := if isNew then old(incoming)[0] else old(returned)[0];
              var answer := if connection.closed && !isNew then None else connectionRoutingClosure(connection, !isNew);
              && sending == (if answer.Some? then Some((connection, answer.value)) else None)
              && log == old(log) + (if isNew then [Connected(connection.id)] else [])
                        + [if answer.Some? then RoutedTo(connection.id, answer.value) else Disconnected(connection.id)]
    {
      var connection: Connection<S>, sender: Option<nat>;
      if isNew {
        connection, incoming := incoming[0], incoming[1..];
        log := log + [Connected(connection.id)];
        sender := connectionRoutingClosure(connection, false);
        step := RouteNew(sender);
      } else {
        connection, returned := returned[0], returned[1..];
        step := RouteReturned(connectionRoutingClosure(connection, true));
        sender := None;
        if !connection.closed {
          sender := connectionRoutingClosure(connection, true);
        }
      }
      match sender {
        case Some(to) =>
          log := log + [RoutedTo(connection.id, to)];
          sending := Some((connection, to));
        case None =>
          log := log + [Disconnected(connection.id)];
          over := over + [connection];
      }
    }
  }
}
