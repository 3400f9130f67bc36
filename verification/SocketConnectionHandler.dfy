/** How a processor handles the connection it was given: the state it leaves for the next one. */
module SocketConnectionHandler {
  import opened Wrappers
  import opened Connections

  // ---------- connections and peers ----------

  class SocketConnection<S> {
    const id: nat
    var state: S
    var closed: bool

    constructor (id: nat, initialState: S)
      ensures View() == Connection(id, initialState, false)
    {
      this.id := id;
      state := initialState;
      closed := false;
    }

    function View(): Connection<S>
      reads this
    {
      Connection(id, state, closed)
    }

    method SetState(newState: S)
      modifies this`state
      ensures state == newState
    {
      state := newState;
    }

    method ReportClosed()
      modifies this`closed
      ensures closed
    {
      closed := true;
    }
  }

  /** What the program does to the state of a peer while its dialog goes on. */
  datatype StateOp<S> = SetState(state: S) | TakeState

  /** The state of the peer after the first `n` operations. */
  function PeerState<S>(entry: S, ops: seq<StateOp<S>>, n: nat): Option<S>
    requires n <= |ops|
  {
    if n == 0 then Some(entry)
    else match ops[n - 1]
         case SetState(state) => Some(state)
         case TakeState => None
  }

  /** The remote party of one dialog. */
  class Peer<S> {
    const peerId: nat
    var state: Option<S>

    constructor (connection: SocketConnection<S>)
      ensures peerId == connection.id && state == Some(connection.state)
    {
      peerId := connection.id;
      state := Some(connection.state);
    }

    method SetState(newState: S)
      modifies this
      ensures state == Some(newState)
    {
      state := Some(newState);
    }

    method TakeState() returns (taken: Option<S>)
      modifies this
      ensures taken == old(state) && state == None
    {
      taken := state;
      state := None;
    }
  }

  // ---------- one processor ----------

  /** How a dialog went: did it succeed, and did it report the connection closed? */
  datatype DialogEnd = DialogEnd(ok: bool, closed: bool)

  /** What the connection's state becomes when a dialog that started at `entry` succeeds. */
  function HandedOff<S>(entry: S, ops: seq<StateOp<S>>): S {
    var state := PeerState(entry, ops, |ops|);
    if state.Some? then state.value else entry
  }

  /** Runs the dialog, with whatever the program does to the state of the peer meanwhile. */
  method SpecialistDialogLoop<S>(connection: SocketConnection<S>, peer: Peer<S>, ops: seq<StateOp<S>>, end: DialogEnd)
    returns (ok: bool)
    requires peer.state == Some(connection.state)
    modifies peer, connection`closed
    ensures peer.state == PeerState(connection.state, ops, |ops|)
    ensures ok == end.ok && connection.closed == (old(connection.closed) || end.closed)
  {
    for i := 0 to |ops|
      invariant peer.state == PeerState(connection.state, ops, i) && connection.closed == old(connection.closed)
    {
      match ops[i] {
        case SetState(state) =>
          peer.SetState(state);
        case TakeState =>
          var _ := peer.TakeState();
      }
    }
    if end.closed {
      connection.ReportClosed();
    }
    ok := end.ok;
  }

  /** The dialog, from setting the socket up to giving the connection back -- which only happens if nothing fails. */
  method DialogLoop<S>(connection: SocketConnection<S>, peer: Peer<S>, setUp: bool, ops: seq<StateOp<S>>, end: DialogEnd,
                       flushed: bool)
    returns (returned: Option<SocketConnection<S>>)
    requires peer.state == Some(connection.state)
    modifies peer, connection
    ensures returned == if setUp && end.ok && flushed then Some(connection) else None
    ensures returned.Some? ==> connection.state == HandedOff(old(connection.state), ops)
    ensures returned.Some? ==> connection.closed == (old(connection.closed) || end.closed)
  {
    if !setUp {
      return None;
    }
    var result := SpecialistDialogLoop(connection, peer, ops, end);
    if result {
      if !flushed {
        return None;
      }
      var state := peer.TakeState();
      if state.Some? {
        connection.SetState(state.value);
      }
    }
    returned := if result then Some(connection) else None;
  }

  /** All that happens to a connection in a processor. */
  datatype Hop<S> = Hop(addressKnown: bool, setUp: bool, ops: seq<StateOp<S>>, end: DialogEnd, flushed: bool)

  /** A dialog that could not even be set up. */
  function Failure<S>(): (hop: Hop<S>)
    ensures hop.addressKnown && !Succeeds(hop)
  {
    Hop(true, false, [], DialogEnd(false, false), false)
  }

  predicate Succeeds<S>(hop: Hop<S>) {
    hop.addressKnown && hop.setUp && hop.end.ok && hop.flushed
  }

  /** The connection that comes back, if any: with the state it was left with, and closed once any dialog said so. */
  function AfterHop<S>(connection: Connection<S>, hop: Hop<S>): Option<Connection<S>> {
    if Succeeds(hop) then Some(Connection(connection.id, HandedOff(connection.state, hop.ops), connection.closed || hop.end.closed))
    else None
  }

  method Client<S>(connection: SocketConnection<S>, hop: Hop<S>) returns (returned: Option<SocketConnection<S>>)
    modifies connection
    ensures returned == if Succeeds(hop) then Some(connection) else None
    ensures AfterHop(old(connection.View()), hop) == if returned.Some? then Some(connection.View()) else None
    ensures returned.Some? ==> connection.state == HandedOff(old(connection.state), hop.ops)
    ensures returned.Some? ==> connection.closed == (old(connection.closed) || hop.end.closed)
  {
    if !hop.addressKnown {
      return None;
    }
    var peer := new Peer(connection);
    returned := DialogLoop(connection, peer, hop.setUp, hop.ops, hop.end, hop.flushed);
  }

  // ---------- any number of processors ----------

  /** Was the last thing done to the peer's state setting it? */
  predicate LeavesState<S>(ops: seq<StateOp<S>>) {
    |ops| > 0 && ops[|ops| - 1].SetState?
  }

  /** The state a connection is routed with, after the first `n` hops. */
  function StateAfter<S>(initial: S, hops: seq<Hop<S>>, n: nat): S
    requires n <= |hops|
  {
    if n == 0 then initial else HandedOff(StateAfter(initial, hops, n - 1), hops[n - 1].ops)
  }

  /** Did the dialog of any of the hops report the connection closed? */
  predicate AnyCloses<S>(hops: seq<Hop<S>>) {
    exists i | 0 <= i < |hops| :: hops[i].end.closed
  }

  lemma OnceAnyCloses<S>(hops: seq<Hop<S>>, more: seq<Hop<S>>)
    requires AnyCloses(hops)
    ensures AnyCloses(hops + more)
  {
    var i :| 0 <= i < |hops| && hops[i].end.closed;
    assert (hops + more)[i] == hops[i];
  }

  lemma OneMoreHopCloses<S>(hops: seq<Hop<S>>, more: Hop<S>)
    ensures AnyCloses(hops + [more]) <==> AnyCloses(hops) || more.end.closed
  {
    var all := hops + [more];
    assert all[|hops|] == more;
    assert forall i | 0 <= i < |hops| :: all[i] == hops[i];
  }

  lemma {:induction false} StateAfterPrefix<S>(initial: S, hops: seq<Hop<S>>, more: Hop<S>, n: nat)
    requires n <= |hops|
    ensures StateAfter(initial, hops + [more], n) == StateAfter(initial, hops, n)
  {
    if n > 0 {
      StateAfterPrefix(initial, hops, more, n - 1);
    }
  }

  predicate NoneLeavesState<S>(hops: seq<Hop<S>>, from: nat, to: nat)
    requires to <= |hops|
  {
    forall i | from <= i < to :: !LeavesState(hops[i].ops)
  }

  /** It is the state last set in the last dialog that left one; states that were taken are forgotten, even those set
      before in the same dialog. */
  lemma {:induction false} LastStateLeftStays<S>(initial: S, hops: seq<Hop<S>>, last: nat, n: nat)
    requires last < n <= |hops| && LeavesState(hops[last].ops) && NoneLeavesState(hops, last + 1, n)
    ensures StateAfter(initial, hops, n) == hops[last].ops[|hops[last].ops| - 1].state
  {
    if last < n - 1 {
      LastStateLeftStays(initial, hops, last, n - 1);
    }
  }

  /** Or the initial state if none left any. */
  lemma {:induction false} InitialStateStays<S>(initial: S, hops: seq<Hop<S>>, n: nat)
    requires n <= |hops| && NoneLeavesState(hops, 0, n)
    ensures StateAfter(initial, hops, n) == initial
  {
    if n > 0 {
      InitialStateStays(initial, hops, n - 1);
    }
  }
}
