/** What routing a connection from processor to processor looks like from outside. */
module Routing {
  import opened Wrappers
  import opened Connections

  // ---------- queues of connections ----------

  /** Is this the connection? */
  function One(id: nat, connection: nat): nat {
    if id == connection then 1 else 0
  }

  /** How many times is the connection among the first `n`? */
  function CountFirst<S>(connections: seq<Connection<S>>, n: nat, id: nat): nat
    requires n <= |connections|
  {
    if n == 0 then 0 else CountFirst(connections, n - 1, id) + One(id, connections[n - 1].id)
  }

  function Count<S>(connections: seq<Connection<S>>, id: nat): nat {
    CountFirst(connections, |connections|, id)
  }

  function Without<S>(connections: seq<Connection<S>>, i: nat): seq<Connection<S>>
    requires i < |connections|
  {
    connections[..i] + connections[i + 1..]
  }

  lemma {:induction false} CountOfTwo<S>(first: seq<Connection<S>>, second: seq<Connection<S>>, n: nat, id: nat)
    requires n <= |first + second|
    ensures CountFirst(first + second, n, id)
         == if n <= |first| then CountFirst(first, n, id) else Count(first, id) + CountFirst(second, n - |first|, id)
  {
    if n > 0 {
      CountOfTwo(first, second, n - 1, id);
    }
  }

  lemma CountTogether<S>(first: seq<Connection<S>>, second: seq<Connection<S>>, id: nat)
    ensures Count(first + second, id) == Count(first, id) + Count(second, id)
  {
    CountOfTwo(first, second, |first + second|, id);
  }

  lemma CountAppend<S>(connections: seq<Connection<S>>, connection: Connection<S>, id: nat)
    ensures Count(connections + [connection], id) == Count(connections, id) + One(id, connection.id)
  {
    CountTogether(connections, [connection], id);
    assert CountFirst([connection], 0, id) == 0;
  }

  lemma {:induction false} CountFirstWithout<S>(connections: seq<Connection<S>>, i: nat, n: nat, id: nat)
    requires i < |connections| && n < |connections|
    ensures CountFirst(Without(connections, i), n, id)
         == if n <= i then CountFirst(connections, n, id) else CountFirst(connections, n + 1, id) - One(id, connections[i].id)
  {
    if n > 0 {
      CountFirstWithout(connections, i, n - 1, id);
    }
  }

  lemma CountWithout<S>(connections: seq<Connection<S>>, i: nat, id: nat)
    requires i < |connections|
    ensures Count(connections, id) == Count(Without(connections, i), id) + One(id, connections[i].id)
  {
    CountFirstWithout(connections, i, |connections| - 1, id);
  }

  predicate AreSo<S(==)>(connections: seq<Connection<S>>, id: nat, state: S, closed: bool) {
    forall i | 0 <= i < |connections| && connections[i].id == id :: connections[i].state == state && connections[i].closed == closed
  }

  lemma {:induction false} AbsentIfNotCounted<S>(connections: seq<Connection<S>>, n: nat, id: nat)
    requires n <= |connections| && CountFirst(connections, n, id) == 0
    ensures forall i | 0 <= i < n :: connections[i].id != id
  {
    if n > 0 {
      AbsentIfNotCounted(connections, n - 1, id);
    }
  }

  function IdsOf<S>(connections: seq<Connection<S>>): (ids: seq<nat>)
    ensures |ids| == |connections| && forall i | 0 <= i < |ids| :: ids[i] == connections[i].id
  {
    seq(|connections|, i requires 0 <= i < |connections| => connections[i].id)
  }

  lemma IdsAppend<S>(connections: seq<Connection<S>>, connection: Connection<S>)
    ensures IdsOf(connections + [connection]) == IdsOf(connections) + [connection.id]
  {
  }

  lemma IdsOfFirst<S>(connections: seq<Connection<S>>)
    requires connections != []
    ensures IdsOf(connections) == [connections[0].id] + IdsOf(Without(connections, 0))
  {
  }

  predicate NoneClosed<S>(connections: seq<Connection<S>>) {
    forall i | 0 <= i < |connections| :: !connections[i].closed
  }

  // ---------- the history of a connection ----------

  /** What the program is told about a connection, and where the connection was sent. */
  datatype Event = Connected(id: nat) | RoutedTo(id: nat, processor: nat) | Disconnected(id: nat)

  datatype Stage = Unseen | Open | Over | Broken

  function Advance(stage: Stage, event: Event): Stage {
    match event
    case Connected(_) => if stage.Unseen? then Open else Broken
    case RoutedTo(_, _) => if stage.Open? then Open else Broken
    case Disconnected(_) => if stage.Open? then Over else Broken
  }

  /** Where the connection is in its life, by the first `n` events. */
  function StageOf(log: seq<Event>, n: nat, id: nat): Stage
    requires n <= |log|
  {
    if n == 0 then Unseen
    else if log[n - 1].id == id then Advance(StageOf(log, n - 1, id), log[n - 1])
    else StageOf(log, n - 1, id)
  }

  function StageAtEnd(log: seq<Event>, id: nat): Stage {
    StageOf(log, |log|, id)
  }

  lemma {:induction false} StageOfPrefix(log: seq<Event>, more: seq<Event>, n: nat, id: nat)
    requires n <= |log|
    ensures StageOf(log + more, n, id) == StageOf(log, n, id)
  {
    if n > 0 {
      StageOfPrefix(log, more, n - 1, id);
    }
  }

  lemma OneMoreEvent(log: seq<Event>, event: Event, id: nat)
    ensures StageAtEnd(log + [event], id)
         == if event.id == id then Advance(StageAtEnd(log, id), event) else StageAtEnd(log, id)
  {
    StageOfPrefix(log, [event], |log|, id);
  }

  /** The last event of the connection, if it had any. */
  function LastOf(log: seq<Event>, n: nat, id: nat): Option<Event>
    requires n <= |log|
  {
    if n == 0 then None else if log[n - 1].id == id then Some(log[n - 1]) else LastOf(log, n - 1, id)
  }

  lemma {:induction false} LastOfPrefix(log: seq<Event>, more: Event, n: nat, id: nat)
    requires n <= |log|
    ensures LastOf(log + [more], n, id) == LastOf(log, n, id)
  {
    if n > 0 {
      LastOfPrefix(log, more, n - 1, id);
    }
  }

  lemma OneMoreLast(log: seq<Event>, event: Event, id: nat)
    ensures LastOf(log + [event], |log| + 1, id) == if event.id == id then Some(event) else LastOf(log, |log|, id)
  {
    LastOfPrefix(log, event, |log|, id);
  }

  /** Told of the connection once, before it is routed anywhere; and of its end at most once, after all the rest. */
  ghost predicate RightHistory(log: seq<Event>, n: nat, id: nat)
    requires n <= |log|
  {
    && (forall i, j | 0 <= i < n && 0 <= j < n && log[i] == Connected(id) == log[j] :: i == j)
    && (forall i | 0 <= i < n && log[i].id == id && !log[i].Connected? :: exists j | 0 <= j < i :: log[j] == Connected(id))
    && (forall i, j | 0 <= i < j < n && log[i] == Disconnected(id) :: log[j].id != id)
  }

  predicate IsIn(log: seq<Event>, n: nat, event: Event)
    requires n <= |log|
  {
    exists i | 0 <= i < n :: log[i] == event
  }

  /** A connection whose stage makes sense has the right history. */
  lemma {:induction false} StageIsHistory(log: seq<Event>, n: nat, id: nat)
    requires n <= |log| && StageOf(log, n, id) != Broken
    ensures RightHistory(log, n, id)
    ensures StageOf(log, n, id) == Unseen <==> !IsIn(log, n, Connected(id))
    ensures StageOf(log, n, id) == Over <==> IsIn(log, n, Disconnected(id))
    ensures StageOf(log, n, id) == Unseen ==> forall i | 0 <= i < n :: log[i].id != id
  {
    if n > 0 {
      assert StageOf(log, n - 1, id) != Broken;
      StageIsHistory(log, n - 1, id);
    }
  }

  // ---------- a connection in one place ----------

  /** Of one connection: was it accepted? how many times is it waiting to be told of, going from place to place, over, or
      dropped on the way? and what is its history like? */
  datatype Tally = Tally(accepted: bool, waiting: nat, circulating: nat, over: nat, lost: nat, stage: Stage)

  predicate StageIsRight(tally: Tally) {
    && (!tally.accepted || tally.waiting > 0 ==> tally.stage == Unseen)
    && (tally.circulating > 0 ==> tally.stage == Open)
    && (tally.over > 0 <==> tally.stage == Over)
    && tally.stage != Broken
  }

  /** A connection accepted is in one place, and its history so far suits that place. */
  predicate Sound(tally: Tally) {
    && tally.waiting + tally.circulating + tally.over + tally.lost == (if tally.accepted then 1 else 0)
    && StageIsRight(tally)
  }

  /** What may happen to a connection, whoever holds it. */
  datatype Move =
    | Accepted
    | Introduced(goesOn: bool)
    | Routed(goesOn: bool)
    | Dropped
    | Untouched

  predicate CanMove(tally: Tally, move: Move) {
    match move
    case Accepted => !tally.accepted
    case Introduced(_) => tally.waiting > 0
    case Routed(_) => tally.circulating > 0
    case Dropped => tally.waiting + tally.circulating > 0
    case Untouched => true
  }

  /** Routing a connection known to the program: to another processor or, else, to its end. */
  function Route(tally: Tally, goesOn: bool): Tally {
    if goesOn then tally.(circulating := tally.circulating + 1, stage := if tally.stage.Open? then Open else Broken)
    else tally.(over := tally.over + 1, stage := if tally.stage.Open? then Over else Broken)
  }

  function Apply(tally: Tally, move: Move): Tally
    requires CanMove(tally, move)
  {
    match move
    case Accepted => tally.(accepted := true, waiting := tally.waiting + 1)
    case Introduced(goesOn) =>
      Route(tally.(waiting := tally.waiting - 1, stage := if tally.stage.Unseen? then Open else Broken), goesOn)
    case Routed(goesOn) => Route(tally.(circulating := tally.circulating - 1), goesOn)
    case Dropped => tally.(waiting := 0, circulating := 0, lost := tally.lost + tally.waiting + tally.circulating)
    case Untouched => tally
  }

  /** Whatever happens keeps every connection in one place, with the right history. */
  lemma MoveKeepsSound(tally: Tally, move: Move)
    requires Sound(tally) && CanMove(tally, move)
    ensures Sound(Apply(tally, move))
  {
  }

  lemma RouteEvent(log: seq<Event>, moved: nat, to: Option<nat>, id: nat)
    ensures StageAtEnd(log + [if to.Some? then RoutedTo(moved, to.value) else Disconnected(moved)], id)
         == if id != moved then StageAtEnd(log, id)
            else if !StageAtEnd(log, id).Open? then Broken
            else if to.Some? then Open else Over
  {
    OneMoreEvent(log, if to.Some? then RoutedTo(moved, to.value) else Disconnected(moved), id);
  }

  predicate IsRouting(event: Event, id: nat) {
    event.RoutedTo? && event.id == id
  }

  /** The log goes on without any more routing of the connection. */
  predicate NoMoreRouting(before: seq<Event>, after: seq<Event>, id: nat) {
    before <= after && forall i | |before| <= i < |after| :: !IsRouting(after[i], id)
  }

  lemma {:induction false} NeverAgain(logs: nat -> seq<Event>, n: nat, later: nat, id: nat)
    requires n <= later && forall k: nat | n <= k < later :: NoMoreRouting(logs(k), logs(k + 1), id)
    ensures NoMoreRouting(logs(n), logs(later), id)
    decreases later
  {
    if n < later {
      NeverAgain(logs, n, later - 1, id);
      assert NoMoreRouting(logs(later - 1), logs((later - 1) + 1), id);
      StillNoMoreRouting(logs(n), logs(later - 1), logs(later), id);
    }
  }

  lemma StillNoMoreRouting(before: seq<Event>, between: seq<Event>, after: seq<Event>, id: nat)
    requires NoMoreRouting(before, between, id) && NoMoreRouting(between, after, id)
    ensures NoMoreRouting(before, after, id)
  {
    assert forall i | 0 <= i < |between| :: after[i] == between[i];
  }

  // ---------- the order of events ----------

  /** The connections the program was told of, in order. */
  function Announced(log: seq<Event>, n: nat): seq<nat>
    requires n <= |log|
  {
    if n == 0 then [] else Announced(log, n - 1) + if log[n - 1].Connected? then [log[n - 1].id] else []
  }

  /** The connections routed to a processor, in order. */
  function SentTo(log: seq<Event>, n: nat, q: nat): seq<nat>
    requires n <= |log|
  {
    if n == 0 then []
    else SentTo(log, n - 1, q) + if log[n - 1].RoutedTo? && log[n - 1].processor == q then [log[n - 1].id] else []
  }

  lemma {:induction false} OrderOfPrefix(log: seq<Event>, more: Event, n: nat, q: nat)
    requires n <= |log|
    ensures Announced(log + [more], n) == Announced(log, n) && SentTo(log + [more], n, q) == SentTo(log, n, q)
  {
    if n > 0 {
      OrderOfPrefix(log, more, n - 1, q);
    }
  }

  lemma OneMoreInOrder(log: seq<Event>, event: Event, q: nat)
    ensures Announced(log + [event], |log| + 1) == Announced(log, |log|) + if event.Connected? then [event.id] else []
    ensures SentTo(log + [event], |log| + 1, q)
         == SentTo(log, |log|, q) + if event.RoutedTo? && event.processor == q then [event.id] else []
  {
    OrderOfPrefix(log, event, |log|, q);
  }
}
