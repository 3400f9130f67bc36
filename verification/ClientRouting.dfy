/** The client's side of "Composite Protocol Stacking": its only connection goes from processor to processor, each of
    them good for one connection only. */
module ClientRouting {
  import opened Wrappers
  import opened Connections
  import opened Routing
  import Handler = SocketConnectionHandler

  /** How many connections fit in a processor's channel, and in the channel they are returned through. */
  const CHANNEL_SIZE: nat := 2
  const RETURNED_SIZE: nat := 1

  /** What the task of a one-shot processor is up to: it waits for the first connection, runs a dialog with it, and gives
      it back; for a little while, until the task is gone, its channel still takes connections nobody will receive. */
  datatype Task<S> = Waiting | Running(connection: Connection<S>) | Returning | Gone

  datatype Processor<S> = Processor(task: Task<S>, inbox: seq<Connection<S>>, sessions: nat)

  datatype Router<S> = Idle | Sending(connection: Connection<S>, to: nat) | Stopped

  datatype Client<S> = Client(
    justOpened: seq<Connection<S>>, returned: seq<Connection<S>>, processors: seq<Processor<S>>, router: Router<S>,
    log: seq<Event>, over: seq<Connection<S>>, lost: seq<Connection<S>>)

  datatype Step<S> =
    | RouteOpened(to: Option<nat>)
    | RouteReturned(to: Option<nat>)
    | Deliver
    | DeliveryFails
    | SourceOver
    | Receive(p: nat)
    | Finish(p: nat, hop: Handler.Hop<S>)
    | EndTask(p: nat)
    | GiveUp(p: nat)

  /** The connection was just made: connections are numbered by the program, this one is its number 0. */
  function Start<S>(initialState: S, processors: nat): Client<S> {
    Client([Connection(0, initialState, false)], [], seq(processors, _ => Processor(Waiting, [], 0)), Idle, [], [], [])
  }

  predicate IsTask<S>(s: Client<S>, p: nat) {
    p < |s.processors|
  }

  /** Can the routing closure answer with that processor? A task gives up only when nobody has a sender to it any more. */
  predicate HasSender<S>(s: Client<S>, p: nat) {
    IsTask(s, p) && !(s.processors[p].task.Gone? && s.processors[p].sessions == 0)
  }

  /** May this happen now? The routing closure may answer with any processor it has a sender to, or none; a dialog may end
      in any way, after the program did anything to the state of the peer; a task gives up when nobody can send it a
      connection any more; no connection can be returned any more only when all tasks are gone. */
  predicate Enabled<S>(s: Client<S>, step: Step<S>) {
    match step
    case RouteOpened(to) => s.router.Idle? && s.justOpened != [] && (to.Some? ==> HasSender(s, to.value))
    case RouteReturned(to) =>
      s.router.Idle? && s.justOpened == [] && s.returned != [] && (to.Some? ==> HasSender(s, to.value))
    case Deliver =>
      && s.router.Sending? && IsTask(s, s.router.to)
      && !s.processors[s.router.to].task.Gone? && |s.processors[s.router.to].inbox| < CHANNEL_SIZE
    case DeliveryFails => s.router.Sending? && IsTask(s, s.router.to) && s.processors[s.router.to].task.Gone?
    case SourceOver =>
      && s.router.Idle? && s.justOpened == [] && s.returned == []
      && forall p | 0 <= p < |s.processors| :: s.processors[p].task.Gone?
    case Receive(p) => IsTask(s, p) && s.processors[p].task.Waiting? && s.processors[p].inbox != []
    case Finish(p, hop) =>
      && IsTask(s, p) && s.processors[p].task.Running?
      && (Handler.Succeeds(hop) && !s.router.Stopped? ==> |s.returned| < RETURNED_SIZE)
    case EndTask(p) => IsTask(s, p) && s.processors[p].task.Returning?
    case GiveUp(p) =>
      && IsTask(s, p) && s.processors[p].task.Waiting? && s.processors[p].inbox == []
      && !(s.router.Sending? && s.router.to == p)
  }

  /** A connection for which the closure gave a processor is sent to it; any other is over, and so is the routing. */
  function Dispatch<S>(s: Client<S>, connection: Connection<S>, to: Option<nat>): Client<S> {
    match to
    case Some(p) => s.(router := Sending(connection, p), log := s.log + [RoutedTo(connection.id, p)])
    case None => s.(router := Stopped, log := s.log + [Disconnected(connection.id)], over := s.over + [connection])
  }

  function Next<S>(s: Client<S>, step: Step<S>): Client<S>
    requires Enabled(s, step)
  {
    match step
    case RouteOpened(to) =>
      var connection := s.justOpened[0];
      Dispatch(s.(justOpened := Without(s.justOpened, 0), log := s.log + [Connected(connection.id)]), connection, to)
    case RouteReturned(to) =>
      var connection := s.returned[0];
      Dispatch(s.(returned := Without(s.returned, 0)), connection, if connection.closed then None else to)
    case Deliver =>
      var to := s.processors[s.router.to];
      s.(processors := s.processors[s.router.to := to.(inbox := to.inbox + [s.router.connection])], router := Idle)
    case DeliveryFails => s.(router := Stopped, lost := s.lost + [s.router.connection])
    case SourceOver => s.(router := Stopped)
    case Receive(p) =>
      var processor := s.processors[p];
      s.(processors := s.processors[p := Processor(Running(processor.inbox[0]), Without(processor.inbox, 0), processor.sessions + 1)])
    case Finish(p, hop) =>
      var connection := s.processors[p].task.connection;
      var s' := s.(processors := s.processors[p := s.processors[p].(task := Returning)]);
      if Handler.Succeeds(hop) && !s.router.Stopped? then s'.(returned := s.returned + [Handler.AfterHop(connection, hop).value])
      else s'.(lost := s.lost + [connection])
    case EndTask(p) =>
      s.(processors := s.processors[p := s.processors[p].(task := Gone, inbox := [])], lost := s.lost + s.processors[p].inbox)
    case GiveUp(p) =>
      s.(processors := s.processors[p := s.processors[p].(task := Gone)])
  }

  // ---------- the connection is in one place, with the right history ----------

  function Held<S>(processor: Processor<S>, id: nat): nat {
    Count(processor.inbox, id) + if processor.task.Running? then One(id, processor.task.connection.id) else 0
  }

  function HeldByFirst<S>(processors: seq<Processor<S>>, n: nat, id: nat): nat
    requires n <= |processors|
  {
    if n == 0 then 0 else HeldByFirst(processors, n - 1, id) + Held(processors[n - 1], id)
  }

  function HeldByRouter<S>(router: Router<S>, id: nat): nat {
    if router.Sending? then One(id, router.connection.id) else 0
  }

  function TallyOf<S>(s: Client<S>, id: nat): Tally {
    Tally(id == 0, Count(s.justOpened, id),
          HeldByRouter(s.router, id) + Count(s.returned, id) + HeldByFirst(s.processors, |s.processors|, id),
          Count(s.over, id), Count(s.lost, id), StageAtEnd(s.log, id))
  }

  lemma {:induction false} HeldAfter<S>(processors: seq<Processor<S>>, p: nat, processor: Processor<S>, n: nat, id: nat)
    requires p < |processors| && n <= |processors|
    ensures HeldByFirst(processors[p := processor], n, id) + (if p < n then Held(processors[p], id) else 0)
         == HeldByFirst(processors, n, id) + (if p < n then Held(processor, id) else 0)
  {
    if n > 0 {
      HeldAfter(processors, p, processor, n - 1, id);
    }
  }

  lemma {:induction false} HeldBySome<S>(processors: seq<Processor<S>>, p: nat, n: nat, id: nat)
    requires p < n <= |processors|
    ensures Held(processors[p], id) <= HeldByFirst(processors, n, id)
  {
    if p < n - 1 {
      HeldBySome(processors, p, n - 1, id);
    }
  }

  /** What a step does to the connection. */
  function MoveOf<S>(s: Client<S>, step: Step<S>, id: nat): Move
    requires Enabled(s, step)
  {
    match step
    case RouteOpened(to) => if id == s.justOpened[0].id then Introduced(to.Some?) else Untouched
    case RouteReturned(to) => if id == s.returned[0].id then Routed(to.Some? && !s.returned[0].closed) else Untouched
    case DeliveryFails => if id == s.router.connection.id then Dropped else Untouched
    case Finish(p, hop) =>
      if id == s.processors[p].task.connection.id && (!Handler.Succeeds(hop) || s.router.Stopped?) then Dropped else Untouched
    case EndTask(p) => if Count(s.processors[p].inbox, id) > 0 then Dropped else Untouched
    case _ => Untouched
  }

  predicate StepIsMove<S>(s: Client<S>, step: Step<S>, id: nat)
    requires Enabled(s, step)
  {
    && CanMove(TallyOf(s, id), MoveOf(s, step, id))
    && TallyOf(Next(s, step), id) == Apply(TallyOf(s, id), MoveOf(s, step, id))
  }

  lemma EveryStepIsMove<S>(s: Client<S>, step: Step<S>, id: nat)
    requires Enabled(s, step) && Sound(TallyOf(s, id))
    ensures StepIsMove(s, step, id)
  {
    match step {
      case RouteOpened(to) =>
        RouteOpenedIsMove(s, to, id);
      case RouteReturned(to) =>
        RouteReturnedIsMove(s, to, id);
      case Deliver =>
        DeliverIsMove(s, id);
      case DeliveryFails =>
        DeliveryFailsIsMove(s, id);
      case SourceOver =>
      case Receive(p) =>
        ReceiveIsMove(s, p, id);
      case Finish(p, hop) =>
        FinishIsMove(s, p, hop, id);
      case EndTask(p) =>
        EndTaskIsMove(s, p, id);
      case GiveUp(p) =>
        GiveUpIsMove(s, p, id);
    }
  }

  lemma DeliveryFailsIsMove<S>(s: Client<S>, id: nat)
    requires Enabled(s, DeliveryFails) && Sound(TallyOf(s, id))
    ensures StepIsMove(s, DeliveryFails, id)
  {
    CountAppend(s.lost, s.router.connection, id);
  }

  lemma ReceiveIsMove<S>(s: Client<S>, p: nat, id: nat)
    requires Enabled(s, Receive(p))
    ensures StepIsMove(s, Receive(p), id)
  {
    HeldAfter(s.processors, p, Next(s, Receive(p)).processors[p], |s.processors|, id);
    CountWithout(s.processors[p].inbox, 0, id);
  }

  lemma GiveUpIsMove<S>(s: Client<S>, p: nat, id: nat)
    requires Enabled(s, GiveUp(p))
    ensures StepIsMove(s, GiveUp(p), id)
  {
    HeldAfter(s.processors, p, s.processors[p].(task := Gone), |s.processors|, id);
  }

  lemma EndTaskIsMove<S>(s: Client<S>, p: nat, id: nat)
    requires Enabled(s, EndTask(p)) && Sound(TallyOf(s, id))
    ensures StepIsMove(s, EndTask(p), id)
  {
    HeldBySome(s.processors, p, |s.processors|, id);
    HeldAfter(s.processors, p, s.processors[p].(task := Gone, inbox := []), |s.processors|, id);
    CountTogether(s.lost, s.processors[p].inbox, id);
  }

  lemma RouteOpenedIsMove<S>(s: Client<S>, to: Option<nat>, id: nat)
    requires Enabled(s, RouteOpened(to)) && Sound(TallyOf(s, id))
    ensures StepIsMove(s, RouteOpened(to), id)
  {
    var moved := s.justOpened[0].id;
    CountWithout(s.justOpened, 0, id);
    CountAppend(s.over, s.justOpened[0], id);
    OneMoreEvent(s.log, Connected(moved), id);
    RouteEvent(s.log + [Connected(moved)], moved, to, id);
  }

  lemma RouteReturnedIsMove<S>(s: Client<S>, to: Option<nat>, id: nat)
    requires Enabled(s, RouteReturned(to)) && Sound(TallyOf(s, id))
    ensures StepIsMove(s, RouteReturned(to), id)
  {
    var moved := s.returned[0];
    CountWithout(s.returned, 0, id);
    CountAppend(s.over, moved, id);
    RouteEvent(s.log, moved.id, if moved.closed then None else to, id);
  }

  lemma DeliverIsMove<S>(s: Client<S>, id: nat)
    requires Enabled(s, Deliver)
    ensures StepIsMove(s, Deliver, id)
  {
    var to := s.processors[s.router.to];
    HeldAfter(s.processors, s.router.to, to.(inbox := to.inbox + [s.router.connection]), |s.processors|, id);
    CountAppend(to.inbox, s.router.connection, id);
  }

  lemma FinishIsMove<S>(s: Client<S>, p: nat, hop: Handler.Hop<S>, id: nat)
    requires Enabled(s, Finish(p, hop)) && Sound(TallyOf(s, id))
    ensures StepIsMove(s, Finish(p, hop), id)
  {
    var connection := s.processors[p].task.connection;
    HeldAfterFinish(s, p, id);
    if Handler.Succeeds(hop) && !s.router.Stopped? {
      CountAppend(s.returned, Handler.AfterHop(connection, hop).value, id);
    } else {
      CountAppend(s.lost, connection, id);
    }
  }

  lemma HeldAfterFinish<S>(s: Client<S>, p: nat, id: nat)
    requires IsTask(s, p) && s.processors[p].task.Running?
    ensures var processors := s.processors[p := s.processors[p].(task := Returning)];
            HeldByFirst(processors, |processors|, id) + One(id, s.processors[p].task.connection.id)
            == HeldByFirst(s.processors, |s.processors|, id)
  {
    HeldAfter(s.processors, p, s.processors[p].(task := Returning), |s.processors|, id);
  }

  // ---------- every run ends ----------

  /** How many steps a processor may still take part in. */
  function Rank<S>(task: Task<S>): nat {
    match task
    case Waiting => 5
    case Running(_) => 4
    case Returning => 1
    case Gone => 0
  }

  function RankOfFirst<S>(processors: seq<Processor<S>>, n: nat): nat
    requires n <= |processors|
  {
    if n == 0 then 0 else RankOfFirst(processors, n - 1) + Rank(processors[n - 1].task)
  }

  function Measure<S>(s: Client<S>): nat {
    2 * |s.justOpened| + 2 * |s.returned| + (if s.router.Sending? then 2 else if s.router.Idle? then 1 else 0)
    + RankOfFirst(s.processors, |s.processors|)
  }

  lemma {:induction false} RankAfter<S>(processors: seq<Processor<S>>, p: nat, processor: Processor<S>, n: nat)
    requires p < |processors| && n <= |processors|
    ensures RankOfFirst(processors[p := processor], n) + (if p < n then Rank(processors[p].task) else 0)
         == RankOfFirst(processors, n) + (if p < n then Rank(processor.task) else 0)
  {
    if n > 0 {
      RankAfter(processors, p, processor, n - 1);
    }
  }

  /** The processor a step is about, if any. */
  function ProcessorOf<S>(s: Client<S>, step: Step<S>): Option<nat>
    requires Enabled(s, step)
  {
    match step
    case Deliver => Some(s.router.to)
    case Receive(p) => Some(p)
    case Finish(p, _) => Some(p)
    case EndTask(p) => Some(p)
    case GiveUp(p) => Some(p)
    case _ => None
  }

  lemma OtherProcessorsStay<S>(s: Client<S>, step: Step<S>)
    requires Enabled(s, step)
    ensures var (p, s') := (ProcessorOf(s, step), Next(s, step));
            && (p.Some? ==> IsTask(s, p.value) && IsTask(s', p.value))
            && s'.processors == if p.None? then s.processors else s.processors[p.value := s'.processors[p.value]]
  {
  }

  lemma EveryStepCounts<S>(s: Client<S>, step: Step<S>)
    requires Enabled(s, step)
    ensures Measure(Next(s, step)) < Measure(s)
  {
    OtherProcessorsStay(s, step);
    var p := ProcessorOf(s, step);
    if p.Some? {
      RankAfter(s.processors, p.value, Next(s, step).processors[p.value], |s.processors|);
    }
  }

  /** The client after the first `n` steps, if they may happen. */
  function After<S>(start: Client<S>, steps: seq<Step<S>>, n: nat): Option<Client<S>>
    requires n <= |steps|
  {
    if n == 0 then Some(start)
    else
      var before :- After(start, steps, n - 1);
      if Enabled(before, steps[n - 1]) then Some(Next(before, steps[n - 1])) else None
  }

  /** No run is longer than its processors allow. */
  lemma {:induction false} RunsAreShort<S>(start: Client<S>, steps: seq<Step<S>>, n: nat)
    requires n <= |steps| && After(start, steps, n).Some?
    ensures n + Measure(After(start, steps, n).value) <= Measure(start)
  {
    if n > 0 {
      RunsAreShort(start, steps, n - 1);
      EveryStepCounts(After(start, steps, n - 1).value, steps[n - 1]);
    }
  }

  lemma {:induction false} RankAtStart<S>(processors: seq<Processor<S>>, n: nat)
    requires n <= |processors| && forall p | 0 <= p < n :: processors[p].task.Waiting?
    ensures RankOfFirst(processors, n) == 5 * n
  {
    if n > 0 {
      RankAtStart(processors, n - 1);
    }
  }

  // ---------- whole runs ----------

  /** Each processor runs one session at most. */
  predicate SessionsAreRight<S>(processor: Processor<S>) {
    match processor.task
    case Waiting => processor.sessions == 0
    case Gone => processor.sessions <= 1 && processor.inbox == []
    case _ => processor.sessions == 1
  }

  predicate AllNumberZero<S>(connections: seq<Connection<S>>) {
    forall i | 0 <= i < |connections| :: connections[i].id == 0
  }

  predicate IsRight<S>(processor: Processor<S>) {
    && SessionsAreRight(processor) && AllNumberZero(processor.inbox) && NoneClosed(processor.inbox)
    && (processor.task.Running? ==> processor.task.connection.id == 0 && !processor.task.connection.closed)
  }

  predicate WellFormed<S>(s: Client<S>) {
    && (forall p | 0 <= p < |s.processors| :: IsRight(s.processors[p]))
    && AllNumberZero(s.justOpened) && NoneClosed(s.justOpened)
    && AllNumberZero(s.returned) && AllNumberZero(s.over) && AllNumberZero(s.lost)
    && (s.router.Sending? ==> IsTask(s, s.router.to) && s.router.connection.id == 0 && !s.router.connection.closed)
    && |s.justOpened| <= 1 && (s.justOpened != [] ==> s.router.Idle?)
  }

  lemma ProcessorStaysRight<S>(s: Client<S>, step: Step<S>, p: nat)
    requires WellFormed(s) && Enabled(s, step) && IsTask(s, p)
    ensures |Next(s, step).processors| == |s.processors| && IsRight(Next(s, step).processors[p])
  {
    assert IsRight(s.processors[p]);
  }

  lemma StepKeepsWellFormed<S>(s: Client<S>, step: Step<S>)
    requires WellFormed(s) && Enabled(s, step)
    ensures WellFormed(Next(s, step))
  {
    var s' := Next(s, step);
    forall p | 0 <= p < |s'.processors| ensures IsRight(s'.processors[p]) {
      ProcessorStaysRight(s, step, p);
    }
    match step {
      case Finish(p, _) => assert IsRight(s.processors[p]);
      case EndTask(p) => assert IsRight(s.processors[p]);
      case _ =>
    }
  }

  /** The processors that may still have a session, and the sessions there were, among the first `n`. */
  function UnusedFirst<S>(processors: seq<Processor<S>>, n: nat): nat
    requires n <= |processors|
  {
    if n == 0 then 0 else UnusedFirst(processors, n - 1) + if processors[n - 1].task.Waiting? then 1 else 0
  }

  function SessionsFirst<S>(processors: seq<Processor<S>>, n: nat): nat
    requires n <= |processors|
  {
    if n == 0 then 0 else SessionsFirst(processors, n - 1) + processors[n - 1].sessions
  }

  lemma {:induction false} SessionsAreFew<S>(processors: seq<Processor<S>>, n: nat)
    requires n <= |processors| && forall p | 0 <= p < n :: SessionsAreRight(processors[p])
    ensures SessionsFirst(processors, n) + UnusedFirst(processors, n) <= n
  {
    if n > 0 {
      SessionsAreFew(processors, n - 1);
    }
  }

  lemma {:induction false} UsageAfter<S>(processors: seq<Processor<S>>, p: nat, processor: Processor<S>, n: nat)
    requires p < |processors| && n <= |processors|
    ensures UnusedFirst(processors[p := processor], n) + (if p < n && processors[p].task.Waiting? then 1 else 0)
         == UnusedFirst(processors, n) + (if p < n && processor.task.Waiting? then 1 else 0)
    ensures SessionsFirst(processors[p := processor], n) + (if p < n then processors[p].sessions else 0)
         == SessionsFirst(processors, n) + (if p < n then processor.sessions else 0)
  {
    if n > 0 {
      UsageAfter(processors, p, processor, n - 1);
    }
  }

  /** A session uses up a processor, sessions start in no other way, and the unused processors bound those to come. */
  lemma SessionsUseUpProcessors<S>(s: Client<S>, step: Step<S>)
    requires WellFormed(s) && Enabled(s, step)
    ensures var (before, after) := (s.processors, Next(s, step).processors);
            && |after| == |before|
            && SessionsFirst(after, |after|) + UnusedFirst(after, |after|) <= |before|
            && SessionsFirst(after, |after|) == SessionsFirst(before, |before|) + (if step.Receive? then 1 else 0)
            && UnusedFirst(after, |after|)
               == UnusedFirst(before, |before|) - (if step.Receive? || step.GiveUp? then 1 else 0)
  {
    OtherProcessorsStay(s, step);
    StepKeepsWellFormed(s, step);
    SessionsAreFew(Next(s, step).processors, |s.processors|);
    var p := ProcessorOf(s, step);
    if p.Some? {
      UsageAfter(s.processors, p.value, Next(s, step).processors[p.value], |s.processors|);
    }
  }

  lemma {:induction false} CountOfZeros<S>(connections: seq<Connection<S>>, n: nat)
    requires n <= |connections| && AllNumberZero(connections)
    ensures CountFirst(connections, n, 0) == n
  {
    if n > 0 {
      CountOfZeros(connections, n - 1);
    }
  }

  /** How many connections a processor has. */
  function Size<S>(processor: Processor<S>): nat {
    |processor.inbox| + if processor.task.Running? then 1 else 0
  }

  lemma HeldIsSize<S>(s: Client<S>, p: nat)
    requires WellFormed(s) && IsTask(s, p)
    ensures Held(s.processors[p], 0) == Size(s.processors[p])
  {
    CountOfZeros(s.processors[p].inbox, |s.processors[p].inbox|);
  }

  /** The connections out of the processors, and how many of them are not going anywhere any more. */
  function Elsewhere<S>(s: Client<S>): nat {
    |s.justOpened| + (if s.router.Sending? then 1 else 0) + |s.returned| + |s.over| + |s.lost|
  }

  /** The only connection is in one place. */
  lemma InOnePlace<S>(s: Client<S>)
    requires WellFormed(s) && Sound(TallyOf(s, 0))
    ensures Elsewhere(s) + HeldByFirst(s.processors, |s.processors|, 0) == 1
  {
    CountOfZeros(s.justOpened, |s.justOpened|);
    CountOfZeros(s.returned, |s.returned|);
    CountOfZeros(s.over, |s.over|);
    CountOfZeros(s.lost, |s.lost|);
  }

  lemma InOnePlaceOrTask<S>(s: Client<S>, p: nat)
    requires WellFormed(s) && Sound(TallyOf(s, 0)) && IsTask(s, p)
    ensures Elsewhere(s) + Size(s.processors[p]) <= 1
  {
    InOnePlace(s);
    HeldBySome(s.processors, p, |s.processors|, 0);
    HeldIsSize(s, p);
  }

  lemma {:induction false} HeldSomewhere<S>(s: Client<S>, n: nat) returns (p: nat)
    requires WellFormed(s) && n <= |s.processors| && HeldByFirst(s.processors, n, 0) > 0
    ensures p < n && Size(s.processors[p]) > 0
  {
    p := n - 1;
    HeldIsSize(s, p);
    if Size(s.processors[p]) == 0 {
      p := HeldSomewhere(s, n - 1);
    }
  }

  lemma {:induction false} NoneHeldWhenGone<S>(s: Client<S>, n: nat)
    requires WellFormed(s) && n <= |s.processors| && forall p | 0 <= p < n :: s.processors[p].task.Gone?
    ensures HeldByFirst(s.processors, n, 0) == 0
  {
    if n > 0 {
      NoneHeldWhenGone(s, n - 1);
      HeldIsSize(s, n - 1);
    }
  }

  predicate StopsRightly<S>(s: Client<S>) {
    && (s.router.Stopped? ==> s.over != [] || s.lost != [])
    && (s.over != [] ==> s.router.Stopped?)
  }

  lemma StepKeepsStopsRightly<S>(s: Client<S>, step: Step<S>)
    requires WellFormed(s) && Sound(TallyOf(s, 0)) && StopsRightly(s) && Enabled(s, step)
    ensures StopsRightly(Next(s, step))
  {
    if step.SourceOver? {
      InOnePlace(s);
      NoneHeldWhenGone(s, |s.processors|);
    }
  }

  // ---------- the state handed off ----------

  /** Wherever the connection is, it is so: of that state, and closed or not. */
  predicate IsSo<S(==)>(s: Client<S>, state: S, closed: bool) {
    && AreSo(s.justOpened, 0, state, closed) && AreSo(s.returned, 0, state, closed)
    && (s.router.Sending? ==> s.router.connection.state == state && s.router.connection.closed == closed)
    && forall p | 0 <= p < |s.processors| :: HoldsSo(s.processors[p], state, closed)
  }

  predicate HoldsSo<S(==)>(processor: Processor<S>, state: S, closed: bool) {
    && AreSo(processor.inbox, 0, state, closed)
    && (processor.task.Running? ==> processor.task.connection.state == state && processor.task.connection.closed == closed)
  }

  function HopIn<S>(step: Step<S>): (hops: seq<Handler.Hop<S>>)
    ensures |hops| <= 1
  {
    if step.Finish? then [step.hop] else []
  }

  lemma ProcessorKeepsSo<S>(s: Client<S>, step: Step<S>, p: nat, state: S, closed: bool)
    requires WellFormed(s) && IsSo(s, state, closed) && Enabled(s, step) && !step.Finish? && IsTask(s, p)
    ensures |Next(s, step).processors| == |s.processors| && HoldsSo(Next(s, step).processors[p], state, closed)
  {
    assert IsRight(s.processors[p]) && HoldsSo(s.processors[p], state, closed);
  }

  lemma FinishHandsOff<S>(s: Client<S>, p: nat, hop: Handler.Hop<S>, state: S, closed: bool)
    requires WellFormed(s) && Sound(TallyOf(s, 0)) && IsSo(s, state, closed) && Enabled(s, Finish(p, hop))
    ensures IsSo(Next(s, Finish(p, hop)), Handler.HandedOff(state, hop.ops), closed || hop.end.closed)
  {
    var s' := Next(s, Finish(p, hop));
    assert IsRight(s.processors[p]) && HoldsSo(s.processors[p], state, closed);
    InOnePlace(s);
    HeldAfterFinish(s, p, 0);
    InOnePlaceOrTask(s, p);
    StepKeepsWellFormed(s, Finish(p, hop));
    forall q | 0 <= q < |s'.processors|
      ensures HoldsSo(s'.processors[q], Handler.HandedOff(state, hop.ops), closed || hop.end.closed)
    {
      HeldBySome(s'.processors, q, |s'.processors|, 0);
      HeldIsSize(s', q);
    }
  }

  lemma OthersKeepSo<S>(s: Client<S>, step: Step<S>, state: S, closed: bool)
    requires WellFormed(s) && IsSo(s, state, closed) && Enabled(s, step) && !step.Finish?
    ensures IsSo(Next(s, step), state, closed)
  {
    forall p | 0 <= p < |Next(s, step).processors| ensures HoldsSo(Next(s, step).processors[p], state, closed) {
      ProcessorKeepsSo(s, step, p, state, closed);
    }
  }

  lemma StepHandsOff<S>(s: Client<S>, step: Step<S>, initialState: S, hops: seq<Handler.Hop<S>>)
    requires WellFormed(s) && Sound(TallyOf(s, 0)) && Enabled(s, step)
    requires IsSo(s, Handler.StateAfter(initialState, hops, |hops|), Handler.AnyCloses(hops))
    ensures var hops' := hops + HopIn(step);
            IsSo(Next(s, step), Handler.StateAfter(initialState, hops', |hops'|), Handler.AnyCloses(hops'))
  {
    var (state, closed) := (Handler.StateAfter(initialState, hops, |hops|), Handler.AnyCloses(hops));
    if step.Finish? {
      Handler.StateAfterPrefix(initialState, hops, step.hop, |hops|);
      Handler.OneMoreHopCloses(hops, step.hop);
      FinishHandsOff(s, step.p, step.hop, state, closed);
    } else {
      assert hops + HopIn(step) == hops;
      OthersKeepSo(s, step, state, closed);
    }
  }

  /** What happened to the connection in each of the processors, in order. */
  function Hops<S>(steps: seq<Step<S>>, n: nat): seq<Handler.Hop<S>>
    requires n <= |steps|
  {
    if n == 0 then [] else Hops(steps, n - 1) + HopIn(steps[n - 1])
  }

  // ---------- when the connection gets lost ----------

  /** Does a routing choose a processor that had its one connection already, or a dialog fail? */
  predicate Bad<S>(s: Client<S>, step: Step<S>)
    requires Enabled(s, step)
  {
    match step
    case RouteOpened(to) => to.Some? && s.processors[to.value].sessions > 0
    case RouteReturned(to) => to.Some? && !s.returned[0].closed && s.processors[to.value].sessions > 0
    case Finish(_, hop) => !Handler.Succeeds(hop)
    case _ => false
  }

  /** The connection is lost, or has no way to go but to be: nobody will receive it. */
  predicate Doomed<S>(s: Client<S>) {
    || s.lost != []
    || (s.router.Sending? && IsTask(s, s.router.to) && !s.processors[s.router.to].task.Waiting?)
    || SomeStranded(s)
  }

  predicate SomeStranded<S>(s: Client<S>) {
    exists p | 0 <= p < |s.processors| :: IsStranded(s, p)
  }

  predicate IsStranded<S>(s: Client<S>, p: nat)
    requires p < |s.processors|
  {
    !s.processors[p].task.Waiting? && s.processors[p].inbox != []
  }

  /** A step strands the connection in the task it is about, if at all. */
  lemma StrandedElsewhere<S>(s: Client<S>, step: Step<S>, p: nat)
    requires WellFormed(s) && Sound(TallyOf(s, 0)) && Enabled(s, step) && IsTask(s, p)
    ensures |Next(s, step).processors| == |s.processors|
    ensures IsStranded(Next(s, step), p)
       <==> if step.Deliver? && p == s.router.to then !s.processors[p].task.Waiting?
            else IsStranded(s, p) && step != EndTask(p)
  {
    InOnePlaceOrTask(s, p);
  }

  lemma StrandedAfter<S>(s: Client<S>, step: Step<S>)
    requires WellFormed(s) && Sound(TallyOf(s, 0)) && Enabled(s, step)
    ensures step.Deliver? ==> !SomeStranded(s) && (SomeStranded(Next(s, step)) <==> !s.processors[s.router.to].task.Waiting?)
    ensures step.EndTask? && s.processors[step.p].inbox != [] ==> SomeStranded(s)
    ensures !step.Deliver? && !(step.EndTask? && s.processors[step.p].inbox != []) ==>
              (SomeStranded(Next(s, step)) <==> SomeStranded(s))
  {
    var s' := Next(s, step);
    forall p | 0 <= p < |s.processors|
      ensures IsStranded(s', p)
         <==> if step.Deliver? && p == s.router.to then !s.processors[p].task.Waiting?
              else IsStranded(s, p) && step != EndTask(p)
      ensures step.Deliver? ==> !IsStranded(s, p)
    {
      StrandedElsewhere(s, step, p);
      InOnePlaceOrTask(s, p);
    }
    if step.Deliver? {
      assert IsStranded(s', s.router.to) <==> !s.processors[s.router.to].task.Waiting?;
    } else if step.EndTask? {
      assert IsStranded(s, step.p) <==> s.processors[step.p].inbox != [];
    }
  }

  /** Once it can't but be lost, it stays so; and only a bad step makes it so. */
  lemma DoomedByBadStep<S>(s: Client<S>, step: Step<S>)
    requires WellFormed(s) && Sound(TallyOf(s, 0)) && StopsRightly(s) && Enabled(s, step)
    ensures Doomed(Next(s, step)) <==> Doomed(s) || Bad(s, step)
  {
    InOnePlace(s);
    StrandedAfter(s, step);
    match step {
      case RouteOpened(to) =>
        assert to.Some? ==> IsRight(s.processors[to.value]);
      case RouteReturned(to) =>
        assert to.Some? ==> IsRight(s.processors[to.value]);
      case Receive(p) =>
        InOnePlaceOrTask(s, p);
      case Finish(p, _) =>
        InOnePlaceOrTask(s, p);
      case EndTask(p) =>
        InOnePlaceOrTask(s, p);
      case _ =>
    }
  }

  /** Everything that holds along a run. */
  predicate Invariant<S>(s: Client<S>) {
    WellFormed(s) && Sound(TallyOf(s, 0)) && StopsRightly(s)
  }

  lemma {:induction false} NothingHeldAtStart<S>(processors: seq<Processor<S>>, n: nat, id: nat)
    requires n <= |processors| && forall p | 0 <= p < n :: processors[p] == Processor(Waiting, [], 0)
    ensures HeldByFirst(processors, n, id) == 0
  {
    if n > 0 {
      NothingHeldAtStart(processors, n - 1, id);
    }
  }

  lemma {:induction false} RoutingIsSound<S>(initialState: S, processors: nat, steps: seq<Step<S>>, n: nat, id: nat)
    requires n <= |steps| && After(Start(initialState, processors), steps, n).Some?
    ensures var s := After(Start(initialState, processors), steps, n).value;
            Invariant(s) && Sound(TallyOf(s, id))
  {
    var start := Start(initialState, processors);
    if n == 0 {
      NothingHeldAtStart(start.processors, |start.processors|, id);
      NothingHeldAtStart(start.processors, |start.processors|, 0);
      CountOfZeros(start.justOpened, 1);
      assert CountFirst(start.justOpened, 0, id) == 0;
    } else {
      RoutingIsSound(initialState, processors, steps, n - 1, id);
      var (before, step) := (After(start, steps, n - 1).value, steps[n - 1]);
      EveryStepIsMove(before, step, id);
      MoveKeepsSound(TallyOf(before, id), MoveOf(before, step, id));
      EveryStepIsMove(before, step, 0);
      MoveKeepsSound(TallyOf(before, 0), MoveOf(before, step, 0));
      StepKeepsWellFormed(before, step);
      StepKeepsStopsRightly(before, step);
    }
  }

  /** MAIN RESULT, on what is handed off -- in every run, wherever the connection is it has the state its hops so far, one
      after the other, left it with, and it is closed if, and only if, the dialog of any of them said so. */
  lemma {:induction false} StateIsHandedOff<S>(initialState: S, processors: nat, steps: seq<Step<S>>, n: nat)
    requires n <= |steps| && After(Start(initialState, processors), steps, n).Some?
    ensures IsSo(After(Start(initialState, processors), steps, n).value,
                 Handler.StateAfter(initialState, Hops(steps, n), |Hops(steps, n)|), Handler.AnyCloses(Hops(steps, n)))
  {
    if n > 0 {
      StateIsHandedOff(initialState, processors, steps, n - 1);
      RoutingIsSound(initialState, processors, steps, n - 1, 0);
      StepHandsOff(After(Start(initialState, processors), steps, n - 1).value, steps[n - 1], initialState, Hops(steps, n - 1));
    }
  }

  /** So the routing closure sees, of the connection that came back, the state set last in the last dialog that left one
      -- or, if none did, the initial state. */
  lemma ClosureSeesLastStateLeft<S>(initialState: S, processors: nat, steps: seq<Step<S>>, n: nat, last: int)
    requires n <= |steps| && After(Start(initialState, processors), steps, n).Some?
    requires After(Start(initialState, processors), steps, n).value.returned != []
    requires var hops := Hops(steps, n);
             && -1 <= last < |hops| && (last >= 0 ==> Handler.LeavesState(hops[last].ops))
             && Handler.NoneLeavesState(hops, last + 1, |hops|)
    ensures var hops := Hops(steps, n);
            After(Start(initialState, processors), steps, n).value.returned[0].state
            == if last < 0 then initialState else hops[last].ops[|hops[last].ops| - 1].state
  {
    RoutingIsSound(initialState, processors, steps, n, 0);
    StateIsHandedOff(initialState, processors, steps, n);
    if last < 0 {
      Handler.InitialStateStays(initialState, Hops(steps, n), |Hops(steps, n)|);
    } else {
      Handler.LastStateLeftStays(initialState, Hops(steps, n), last, |Hops(steps, n)|);
    }
  }

  // ---------- where the connection is sent ----------

  /** The connection is on its way to the processor it was last routed to, or there. */
  predicate IsWhereRouted<S>(s: Client<S>) {
    var last := LastOf(s.log, |s.log|, 0);
    && (s.router.Sending? ==> last == Some(RoutedTo(0, s.router.to)))
    && forall q: nat | q < |s.processors| :: Size(s.processors[q]) > 0 ==> last == Some(RoutedTo(0, q))
  }

  lemma DispatchGoesWhereRouted<S>(s: Client<S>, connection: Connection<S>, to: Option<nat>)
    requires connection.id == 0 && s.router.Idle? && forall q: nat | q < |s.processors| :: Size(s.processors[q]) == 0
    ensures IsWhereRouted(Dispatch(s, connection, to))
  {
    OneMoreLast(s.log, if to.Some? then RoutedTo(connection.id, to.value) else Disconnected(connection.id), 0);
  }

  lemma RouteGoesWhereRouted<S>(s: Client<S>, step: Step<S>)
    requires WellFormed(s) && Sound(TallyOf(s, 0)) && Enabled(s, step) && (step.RouteOpened? || step.RouteReturned?)
    ensures IsWhereRouted(Next(s, step))
  {
    forall q: nat | q < |s.processors| ensures Size(s.processors[q]) == 0 {
      InOnePlaceOrTask(s, q);
    }
    if step.RouteOpened? {
      var id := s.justOpened[0].id;
      DispatchGoesWhereRouted(s.(justOpened := Without(s.justOpened, 0), log := s.log + [Connected(id)]), s.justOpened[0], step.to);
    } else {
      var closed := s.returned[0].closed;
      DispatchGoesWhereRouted(s.(returned := Without(s.returned, 0)), s.returned[0], if closed then None else step.to);
    }
  }

  /** Only what the router sends to it gives a processor a connection. */
  lemma HeldOnlyIfSent<S>(s: Client<S>, step: Step<S>, q: nat)
    requires Enabled(s, step) && q < |s.processors|
    ensures |Next(s, step).processors| == |s.processors|
    ensures Size(Next(s, step).processors[q]) <= Size(s.processors[q]) + if step.Deliver? && s.router.to == q then 1 else 0
  {
  }

  lemma StepGoesWhereRouted<S>(s: Client<S>, step: Step<S>)
    requires WellFormed(s) && Sound(TallyOf(s, 0)) && Enabled(s, step) && IsWhereRouted(s)
    ensures IsWhereRouted(Next(s, step))
  {
    if step.RouteOpened? || step.RouteReturned? {
      RouteGoesWhereRouted(s, step);
    } else {
      assert Next(s, step).log == s.log;
      forall q: nat | q < |s.processors| && Size(Next(s, step).processors[q]) > 0
        ensures LastOf(s.log, |s.log|, 0) == Some(RoutedTo(0, q))
      {
        HeldOnlyIfSent(s, step, q);
      }
    }
  }

  /** MAIN RESULT, on where the connection goes -- in every run, it is sent to, waits for and is in a dialog with no other
      processor than the one it was last said to be routed to: the closure's answer. */
  lemma {:induction false} GoesWhereRouted<S>(initialState: S, processors: nat, steps: seq<Step<S>>, n: nat)
    requires n <= |steps| && After(Start(initialState, processors), steps, n).Some?
    ensures IsWhereRouted(After(Start(initialState, processors), steps, n).value)
  {
    if n > 0 {
      GoesWhereRouted(initialState, processors, steps, n - 1);
      RoutingIsSound(initialState, processors, steps, n - 1, 0);
      StepGoesWhereRouted(After(Start(initialState, processors), steps, n - 1).value, steps[n - 1]);
    }
  }

  /** A round of the routing says where the connection goes: where the closure answered, unless it was reported closed. */
  lemma RoutingFollowsAnswer<S>(s: Client<S>, to: Option<nat>)
    ensures Enabled(s, RouteOpened(to)) ==>
              var id := s.justOpened[0].id;
              Next(s, RouteOpened(to)).log == s.log + [Connected(id)] + [if to.Some? then RoutedTo(id, to.value) else Disconnected(id)]
    ensures Enabled(s, RouteReturned(to)) ==>
              var Connection(id, _, closed) := s.returned[0];
              Next(s, RouteReturned(to)).log
              == s.log + [if to.Some? && !closed then RoutedTo(id, to.value) else Disconnected(id)]
  {
  }

  lemma StepRoutesOpenOnly<S>(s: Client<S>, step: Step<S>, state: S)
    requires Enabled(s, step) && WellFormed(s) && IsSo(s, state, true)
    ensures NoMoreRouting(s.log, Next(s, step).log, 0)
  {
  }

  /** Did any dialog so far report the connection closed? */
  predicate WasClosed<S>(steps: seq<Step<S>>, n: nat)
    requires n <= |steps|
  {
    Handler.AnyCloses(Hops(steps, n))
  }

  lemma {:induction false} StaysClosed<S>(steps: seq<Step<S>>, n: nat, later: nat)
    requires n <= later <= |steps| && WasClosed(steps, n)
    ensures WasClosed(steps, later)
    decreases later
  {
    if n < later {
      StaysClosed(steps, n, later - 1);
      Handler.OnceAnyCloses(Hops(steps, later - 1), HopIn(steps[later - 1]));
    }
  }

  lemma {:induction false} RanBefore<S>(start: Client<S>, steps: seq<Step<S>>, n: nat, later: nat)
    requires n <= later <= |steps| && After(start, steps, later).Some?
    ensures After(start, steps, n).Some?
    decreases later
  {
    if n < later {
      RanBefore(start, steps, n, later - 1);
    }
  }

  lemma StepRoutesNoneClosed<S>(initialState: S, processors: nat, steps: seq<Step<S>>, n: nat)
    requires n < |steps| && After(Start(initialState, processors), steps, n + 1).Some?
    requires After(Start(initialState, processors), steps, n).Some? && WasClosed(steps, n)
    ensures NoMoreRouting(After(Start(initialState, processors), steps, n).value.log,
                          After(Start(initialState, processors), steps, n + 1).value.log, 0)
  {
    var start := Start(initialState, processors);
    RoutingIsSound(initialState, processors, steps, n, 0);
    StateIsHandedOff(initialState, processors, steps, n);
    var hops := Hops(steps, n);
    StepRoutesOpenOnly(After(start, steps, n).value, steps[n], Handler.StateAfter(initialState, hops, |hops|));
  }

  lemma RoutesNoneClosedAt<S>(initialState: S, processors: nat, steps: seq<Step<S>>, n: nat, later: nat, k: nat)
    requires n <= k < later <= |steps| && After(Start(initialState, processors), steps, later).Some?
    requires After(Start(initialState, processors), steps, n).Some? && WasClosed(steps, n)
    ensures NoMoreRouting(LogAfter(initialState, processors, steps, k), LogAfter(initialState, processors, steps, k + 1), 0)
  {
    RanBefore(Start(initialState, processors), steps, k, later);
    RanBefore(Start(initialState, processors), steps, k + 1, later);
    StaysClosed(steps, n, k);
    StepRoutesNoneClosed(initialState, processors, steps, k);
  }

  function LogAfter<S>(initialState: S, processors: nat, steps: seq<Step<S>>, n: nat): seq<Event> {
    if n <= |steps| && After(Start(initialState, processors), steps, n).Some?
    then After(Start(initialState, processors), steps, n).value.log else []
  }

  lemma RoutesNoneClosedThen<S>(initialState: S, processors: nat, steps: seq<Step<S>>, n: nat, later: nat)
    requires n <= later <= |steps| && After(Start(initialState, processors), steps, later).Some?
    requires After(Start(initialState, processors), steps, n).Some? && WasClosed(steps, n)
    ensures forall k: nat | n <= k < later ::
              NoMoreRouting(LogAfter(initialState, processors, steps, k), LogAfter(initialState, processors, steps, k + 1), 0)
  {
    forall k: nat | n <= k < later
      ensures NoMoreRouting(LogAfter(initialState, processors, steps, k), LogAfter(initialState, processors, steps, k + 1), 0)
    {
      RoutesNoneClosedAt(initialState, processors, steps, n, later, k);
    }
  }

  /** MAIN RESULT, on the closed connection -- once a dialog reported it closed, it is never routed again. */
  lemma NeverRoutedOnceClosed<S>(initialState: S, processors: nat, steps: seq<Step<S>>, n: nat, later: nat)
    requires n <= later <= |steps| && After(Start(initialState, processors), steps, later).Some?
    requires After(Start(initialState, processors), steps, n).Some? && WasClosed(steps, n)
    ensures NoMoreRouting(LogAfter(initialState, processors, steps, n), LogAfter(initialState, processors, steps, later), 0)
  {
    RoutesNoneClosedThen(initialState, processors, steps, n, later);
    NeverAgain((k: nat) => LogAfter(initialState, processors, steps, k), n, later, 0);
  }

  // ---------- what the program is told ----------

  /** MAIN RESULT, on what the program is told -- in every run the connection is announced first and once; its end, at
      most once and last; each processor runs at most one session, never with a connection reported closed; and no run
      has more than five steps a processor, plus three. */
  lemma ToldInOrder<S>(initialState: S, processors: nat, steps: seq<Step<S>>, n: nat)
    requires n <= |steps| && After(Start(initialState, processors), steps, n).Some?
    ensures var s := After(Start(initialState, processors), steps, n).value;
            && (s.log != [] ==> s.log[0] == Connected(0))
            && (forall i | 0 < i < |s.log| :: !s.log[i].Connected?)
            && (forall i | 0 <= i < |s.log| - 1 :: !s.log[i].Disconnected?)
            && (forall p | 0 <= p < |s.processors| :: s.processors[p].sessions <= 1)
            && (forall p | 0 <= p < |s.processors| && s.processors[p].task.Running? :: !s.processors[p].task.connection.closed)
    ensures n <= 5 * processors + 3
  {
    var start := Start(initialState, processors);
    var s := After(start, steps, n).value;
    RoutingIsSound(initialState, processors, steps, n, 0);
    StageIsHistory(s.log, |s.log|, 0);
    forall i | 0 <= i < |s.log| ensures s.log[i].id == 0 {
      var id := s.log[i].id;
      RoutingIsSound(initialState, processors, steps, n, id);
      StageIsHistory(s.log, |s.log|, id);
    }
    AllOfOne(s.log);
    RunsAreShort(start, steps, n);
    RankAtStart(start.processors, |start.processors|);
  }

  /** The right history of a connection, when there is no other. */
  lemma AllOfOne(log: seq<Event>)
    requires RightHistory(log, |log|, 0) && forall i | 0 <= i < |log| :: log[i].id == 0
    ensures log != [] ==> log[0] == Connected(0)
    ensures forall i | 0 < i < |log| :: !log[i].Connected?
    ensures forall i | 0 <= i < |log| - 1 :: !log[i].Disconnected?
  {
    forall i | 0 < i < |log| && log[0] == Connected(0) ensures !log[i].Connected? {
      assert log[i] != Connected(0);
    }
    forall i | 0 <= i < |log| - 1 ensures !log[i].Disconnected? {
      var next := log[i + 1];
      assert next.id == 0;
      assert log[i] != Disconnected(0);
    }
  }

  /** The steps of a run that went wrong for the connection. */
  predicate WentWrong<S>(start: Client<S>, steps: seq<Step<S>>, n: nat)
    requires n <= |steps| && After(start, steps, n).Some?
  {
    n > 0 && (WentWrong(start, steps, n - 1) || Bad(After(start, steps, n - 1).value, steps[n - 1]))
  }

  lemma {:induction false} DoomedIfWentWrong<S>(initialState: S, processors: nat, steps: seq<Step<S>>, n: nat)
    requires n <= |steps| && After(Start(initialState, processors), steps, n).Some?
    ensures Doomed(After(Start(initialState, processors), steps, n).value)
       <==> WentWrong(Start(initialState, processors), steps, n)
  {
    if n > 0 {
      DoomedIfWentWrong(initialState, processors, steps, n - 1);
      RoutingIsSound(initialState, processors, steps, n - 1, 0);
      DoomedByBadStep(After(Start(initialState, processors), steps, n - 1).value, steps[n - 1]);
    }
  }

  /** The steps that need nothing from outside: the program keeps the senders to its processors, and the client the sink
      connections are returned through, as long as it wants. */
  predicate Internal<S>(step: Step<S>) {
    !step.GiveUp? && !step.SourceOver?
  }

  ghost predicate AtRest<S(!new)>(s: Client<S>) {
    forall step: Step<S> | Internal(step) :: !Enabled(s, step)
  }

  /** Unless the connection is over or lost, something can happen. */
  lemma CanProceed<S>(s: Client<S>) returns (step: Step<S>)
    requires Invariant(s) && s.over == [] && s.lost == []
    ensures Internal(step) && Enabled(s, step)
  {
    InOnePlace(s);
    if s.justOpened != [] {
      step := RouteOpened(None);
    } else if s.returned != [] {
      step := RouteReturned(None);
    } else if s.router.Sending? {
      InOnePlaceOrTask(s, s.router.to);
      step := if s.processors[s.router.to].task.Gone? then DeliveryFails else Deliver;
    } else {
      var p := HeldSomewhere(s, |s.processors|);
      assert IsRight(s.processors[p]);
      step := match s.processors[p].task case Waiting => Receive(p) case Running(_) => Finish(p, Handler.Failure()) case _ => EndTask(p);
    }
  }

  lemma RestsOverOrLost<S(!new)>(s: Client<S>)
    requires Invariant(s)
    ensures AtRest(s) ==> s.over != [] || s.lost != []
  {
    if s.over == [] && s.lost == [] {
      var step := CanProceed(s);
    }
  }

  /** MAIN RESULT, on what becomes of the connection -- every run comes to rest; and there the program was told of the end
      of its connection if, and only if, no dialog failed and the connection was never routed to a processor that had had its
      one connection. */
  lemma ToldOfTheEndUnlessWentWrong<S(!new)>(initialState: S, processors: nat, steps: seq<Step<S>>, n: nat)
    requires n <= |steps| && After(Start(initialState, processors), steps, n).Some?
    requires AtRest(After(Start(initialState, processors), steps, n).value)
    ensures var s := After(Start(initialState, processors), steps, n).value;
            IsIn(s.log, |s.log|, Disconnected(0)) <==> !WentWrong(Start(initialState, processors), steps, n)
  {
    var s := After(Start(initialState, processors), steps, n).value;
    RoutingIsSound(initialState, processors, steps, n, 0);
    DoomedIfWentWrong(initialState, processors, steps, n);
    StageIsHistory(s.log, |s.log|, 0);
    RestsOverOrLost(s);
    InOnePlace(s);
    CountOfZeros(s.over, |s.over|);
    forall p | 0 <= p < |s.processors| && s.over != [] ensures !IsStranded(s, p) {
      InOnePlaceOrTask(s, p);
    }
  }

  lemma OneStepMore<S>(start: Client<S>, steps: seq<Step<S>>, n: nat, s: Client<S>)
    requires n < |steps| && After(start, steps, n) == Some(s) && Enabled(s, steps[n])
    ensures After(start, steps, n + 1) == Some(Next(s, steps[n]))
  {
  }

  function FailingRun<S>(): seq<Step<S>> {
    [RouteOpened(Some(0)), Deliver, Receive(0), Finish(0, Handler.Failure()), EndTask(0)]
  }

  lemma FailingRunStarts<S>(initialState: S)
    ensures var s := After(Start(initialState, 2), FailingRun(), 3);
            && s.Some? && s.value.router == Idle && s.value.justOpened == [] && s.value.returned == []
            && s.value.processors == [Processor(Running(Connection(0, initialState, false)), [], 1), Processor(Waiting, [], 0)]
            && s.value.log == [Connected(0), RoutedTo(0, 0)]
  {
    var (start, steps) := (Start(initialState, 2), FailingRun());
    OneStepMore(start, steps, 0, start);
    var s1 := Next(start, steps[0]);
    OneStepMore(start, steps, 1, s1);
    var s2 := Next(s1, steps[1]);
    OneStepMore(start, steps, 2, s2);
  }

  /** It does happen: a dialog fails while another processor is still unused; the program is never told of the end. */
  lemma ConnectionOfFailedDialogIsLost<S(!new)>(initialState: S)
    ensures var (start, steps) := (Start(initialState, 2), FailingRun());
            && After(start, steps, 5).Some? && AtRest(After(start, steps, 5).value) && WentWrong(start, steps, 5)
            && After(start, steps, 5).value.log == [Connected(0), RoutedTo(0, 0)]
  {
    var (start, steps) := (Start(initialState, 2), FailingRun());
    FailingRunStarts(initialState);
    var s3 := After(start, steps, 3).value;
    OneStepMore(start, steps, 3, s3);
    var s4 := Next(s3, steps[3]);
    OneStepMore(start, steps, 4, s4);
    assert Bad(s3, steps[3]) && WentWrong(start, steps, 4);
  }

  // ---------- the routing loop ----------

  /** The state of the routing task, and what it shares with the rest of the program. */
  class RoutingTask<S> {
    var justOpenedConnection: Option<Connection<S>>
    var returned: seq<Connection<S>>
    var sending: Option<(Connection<S>, nat)>
    var running: bool
    var log: seq<Event>
    var over: seq<Connection<S>>

    constructor (initialState: S)
      ensures justOpenedConnection == Some(Connection(0, initialState, false)) && returned == [] && sending == None && running
      ensures log == [] && over == []
    {
      justOpenedConnection := Some(Connection(0, initialState, false));
      returned, sending, running, log, over := [], None, true, [], [];
    }

    /** Is this the routing task of the client? */
    ghost predicate Routes(s: Client<S>)
      reads this
    {
      && s.justOpened == (if justOpenedConnection.Some? then [justOpenedConnection.value] else [])
      && s.returned == returned && s.log == log && s.over == over
      && s.router == if !running then Stopped else if sending.None? then Idle else Sending(sending.value.0, sending.value.1)
    }

    /** One round of the loop: the connection, just opened or returned, gets its next processor or its end. */
    method RouteOne(connectionRoutingClosure: (Connection<S>, bool) -> Option<nat>, ghost s: Client<S>)
      returns (ghost step: Step<S>)
      requires Routes(s) && s.router.Idle? && (justOpenedConnection.Some? || returned != [])
      requires forall connection, isReused :: var to := connectionRoutingClosure(connection, isReused);
                 to.Some? ==> HasSender(s, to.value)
      modifies this
      ensures step == if old(justOpenedConnection).Some?
                      then RouteOpened(connectionRoutingClosure(old(justOpenedConnection).value, false))
                      else RouteReturned(connectionRoutingClosure(old(returned)[0], true))
      ensures Enabled(s, step) && Routes(Next(s, step))
      ensures var isNew := old(justOpenedConnection).Some?;
              var connection := if isNew then old(justOpenedConnection).value else old(returned)[0];
              var answer := if connection.closed && !isNew then None else connectionRoutingClosure(connection, !isNew);
              && sending == (if answer.Some? then Some((connection, answer.value)) else None)
              && (running <==> answer.Some?)
              && log == old(log) + (if isNew then [Connected(connection.id)] else [])
                        + [if answer.Some? then RoutedTo(connection.id, answer.value) else Disconnected(connection.id)]
    {
      var socketConnection: Connection<S>, sender: Option<nat>;
      match justOpenedConnection {
        case Some(connection) =>
          socketConnection, justOpenedConnection := connection, None;
          log := log + [Connected(socketConnection.id)];
          sender := connectionRoutingClosure(socketConnection, false);
          step := RouteOpened(sender);
        case None =>
          socketConnection, returned := returned[0], returned[1..];
          step := RouteReturned(connectionRoutingClosure(socketConnection, true));
          sender := None;
          if !socketConnection.closed {
            sender := connectionRoutingClosure(socketConnection, true);
          }
      }
      match sender {
        case Some(to) =>
          log := log + [RoutedTo(socketConnection.id, to)];
          sending := Some((socketConnection, to));
        case None =>
          log := log + [Disconnected(socketConnection.id)];
          over := over + [socketConnection];
          running := false;
      }
    }
  }
}
