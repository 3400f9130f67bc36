/** How a player reacts to what the other one reports: check it against our own umpire, then play our turn. */
module ProtocolProcessor {
  import opened Wrappers
  import opened PingPongModels
  import opened PingPongLogic

  /** The successive results of acting at random: one number per attempt to hit the ball. */
  type Luck = nat -> PlayerAction

  // ---------- the reactions, on values ----------

  function Cancellation(m: Match, rule: Rule): PingPongEvent {
    GameEnded(GameCancelled(m.score, rule))
  }

  predicate IsCancellation(event: PingPongEvent) {
    event.GameEnded? && event.outcome.GameCancelled?
  }

  /** Service attempts that still tolerate a soft fault. */
  function SpareAttempts(m: Match): nat
    requires Sound(m)
  {
    if m.state.WaitingForService? then SERVICING_ATTEMPTS - m.state.attempt else 0
  }

  /** A player's turn: soft faults when servicing, then what passes the turn or ends the game. */
  predicate IsBatch(events: seq<PingPongEvent>) {
    && |events| > 0
    && (forall i | 0 <= i < |events| - 1 :: events[i].SoftFault?)
    && !events[|events| - 1].SoftFault?
  }

  /** Service the ball again after each soft fault. */
  function Serve(m: Match, luck: Luck, attempts: nat): (r: (Match, seq<PingPongEvent>))
    requires Sound(m) && !WouldPanic(m, Ourself)
    ensures Sound(r.0) && r.0.config == m.config
    decreases SpareAttempts(m)
  {
    var (m1, event) := Turn(m, Ourself, luck(attempts));
    if event.SoftFault? then
      var (m2, events) := Serve(m1, luck, attempts + 1);
      (m2, [event] + events)
    else
      (m1, [event])
  }

  lemma {:induction false} ServiceIsABatch(m: Match, luck: Luck, attempts: nat)
    requires Sound(m) && !WouldPanic(m, Ourself)
    ensures IsBatch(Serve(m, luck, attempts).1) && |Serve(m, luck, attempts).1| <= SpareAttempts(m) + 1
    decreases SpareAttempts(m)
  {
    var (m1, event) := Turn(m, Ourself, luck(attempts));
    if event.SoftFault? {
      ServiceIsABatch(m1, luck, attempts + 1);
    }
  }

  /** The events are about actions that come one after the other. */
  predicate ActInTurn(events: seq<PingPongEvent>, luck: Luck, first: nat) {
    forall i | 0 <= i < |events| :: ActionOf(events[i]) == Some(luck(first + i))
  }

  lemma VerdictIsOnAction(m: Match, player: Player, action: PlayerAction)
    requires Sound(m) && m.turnPlayer == player && !m.state.GameOver?
    ensures ActionOf(Turn(m, player, action).1) == Some(action)
  {
    VerdictNamesFirstFault(m, player, action);
  }

  /** Each attempt is an action of its own, in the order they come. */
  lemma {:induction false} ServiceActsAnew(m: Match, luck: Luck, attempts: nat)
    requires Sound(m) && m.turnPlayer == Ourself && !m.state.GameOver?
    ensures ActInTurn(Serve(m, luck, attempts).1, luck, attempts)
    decreases SpareAttempts(m)
  {
    var (m1, event) := Turn(m, Ourself, luck(attempts));
    VerdictIsOnAction(m, Ourself, luck(attempts));
    if event.SoftFault? {
      ServiceActsAnew(m1, luck, attempts + 1);
      var events := Serve(m1, luck, attempts + 1).1;
      forall i | 0 <= i <= |events| ensures ActionOf(([event] + events)[i]) == Some(luck(attempts + i)) {
        if i > 0 {
          assert ActionOf(events[i - 1]) == Some(luck((attempts + 1) + (i - 1)));
        }
      }
    }
  }

  function RallyReaction(m: Match, stateMatches: bool, opponentAction: PlayerAction, flip: Flip, ourAction: PlayerAction)
    : (r: (Match, PingPongEvent))
    requires Sound(m) && (stateMatches ==> !WouldPanic(m, Opponent))
    ensures Sound(r.0) && r.0.config == m.config
  {
    if stateMatches then
      var (m1, expected) := Turn(m, Opponent, opponentAction);
      if expected == TurnFlip(opponentAction, flip) then Turn(m1, Ourself, ourAction)
      else (m1, Cancellation(m1, UmpiresDisagreeOnEvent))
    else
      (m, Cancellation(m, UmpiresDisagreeOnState))
  }

  /** No umpire ever declares a hard fault: it declares the score instead. So such a report is always contested. */
  function HardFaultReaction(m: Match, opponentAction: PlayerAction): (r: (Match, seq<PingPongEvent>))
    requires Sound(m) && !WouldPanic(m, Opponent)
    ensures Sound(r.0) && r.0.config == m.config
  {
    var m1 := Turn(m, Opponent, opponentAction).0;
    (m1, [Cancellation(m1, UmpiresDisagreeOnHardFault)])
  }

  function SoftFaultReaction(m: Match, opponentAction: PlayerAction, fault: Fault): (r: (Match, seq<PingPongEvent>))
    requires Sound(m) && !WouldPanic(m, Opponent)
    ensures Sound(r.0) && r.0.config == m.config
  {
    var (m1, expected) := Turn(m, Opponent, opponentAction);
    (m1, if !expected.SoftFault? then [Cancellation(m1, UmpiresDisagreeOnSoftFault)]
         else if expected.resultingFault != fault then [Cancellation(m1, UmpiresDisagreeOnEvent)]
         else [])
  }

  function ScoreReaction(m: Match, opponentAction: PlayerAction, fault: Fault, luck: Luck): (r: (Match, seq<PingPongEvent>))
    requires Sound(m) && !WouldPanic(m, Opponent)
    ensures Sound(r.0) && r.0.config == m.config
  {
    var (m1, expected) := Turn(m, Opponent, opponentAction);
    if !expected.Score? then (m1, [Cancellation(m1, UmpiresDisagreeOnState)])
    else if expected.lastFault != fault then (m1, [Cancellation(m1, UmpiresDisagreeOnEvent)])
    else Serve(m1, luck, 0)
  }

  // ---------- the reactions, as performed on the umpire ----------

  method ReactToRallyEvent(umpire: Umpire, reportedStateMatcher: GameState -> bool, opponentAction: PlayerAction,
                           reportedFlip: Flip, luck: Luck)
    returns (answer: PingPongEvent)
    requires umpire.Valid()
    requires reportedStateMatcher(umpire.state) ==> !WouldPanic(umpire.View(), Opponent)
    modifies umpire
    ensures umpire.Valid()
    ensures (umpire.View(), answer) == RallyReaction(old(umpire.View()), reportedStateMatcher(old(umpire.state)),
                                                     opponentAction, reportedFlip, luck(0))
  {
    var expectedState := umpire.state;
    if reportedStateMatcher(expectedState) {
      var expectedEvent := umpire.ProcessTurn(Opponent, opponentAction);
      if TurnFlip(opponentAction, reportedFlip) == expectedEvent {
        var ourAction := luck(0);
        answer := umpire.ProcessTurn(Ourself, ourAction);
      } else {
        answer := GameEnded(GameCancelled(umpire.score, UmpiresDisagreeOnEvent));
      }
    } else {
      answer := GameEnded(GameCancelled(umpire.score, UmpiresDisagreeOnState));
    }
  }

  method ReactToHardFault(umpire: Umpire, opponentAction: PlayerAction, reportedFault: Fault, luck: Luck)
    returns (answers: seq<PingPongEvent>)
    requires umpire.Valid() && !WouldPanic(umpire.View(), Opponent)
    modifies umpire
    ensures umpire.Valid()
    ensures (umpire.View(), answers) == HardFaultReaction(old(umpire.View()), opponentAction)
  {
    var expectedEvent := umpire.ProcessTurn(Opponent, opponentAction);
    if expectedEvent.HardFault? {
      // comparing the faults and servicing the ball would come here, but this is never reached
      assert false;
    } else {
      answers := [GameEnded(GameCancelled(umpire.score, UmpiresDisagreeOnHardFault))];
    }
  }

  method ReactToServiceSoftFault(umpire: Umpire, opponentAction: PlayerAction, reportedFault: Fault)
    returns (answers: seq<PingPongEvent>)
    requires umpire.Valid() && !WouldPanic(umpire.View(), Opponent)
    modifies umpire
    ensures umpire.Valid()
    ensures (umpire.View(), answers) == SoftFaultReaction(old(umpire.View()), opponentAction, reportedFault)
  {
    var expectedEvent := umpire.ProcessTurn(Opponent, opponentAction);
    if expectedEvent.SoftFault? {
      if expectedEvent.resultingFault == reportedFault {
        if umpire.state.WaitingForService? {
          if umpire.state.attempt <= SERVICING_ATTEMPTS {
            answers := [];
          } else {
            // exceeded servicing attempts: never reached
            assert false;
          }
        } else {
          // not waiting for service after a soft fault: never reached
          assert false;
        }
      } else {
        answers := [GameEnded(GameCancelled(umpire.score, UmpiresDisagreeOnEvent))];
      }
    } else {
      answers := [GameEnded(GameCancelled(umpire.score, UmpiresDisagreeOnSoftFault))];
    }
  }

  method ReactToScore(umpire: Umpire, opponentAction: PlayerAction, reportedFault: Fault, luck: Luck)
    returns (answers: seq<PingPongEvent>)
    requires umpire.Valid() && !WouldPanic(umpire.View(), Opponent)
    modifies umpire
    ensures umpire.Valid()
    ensures (umpire.View(), answers) == ScoreReaction(old(umpire.View()), opponentAction, reportedFault, luck)
  {
    var expectedEvent := umpire.ProcessTurn(Opponent, opponentAction);
    if expectedEvent.Score? {
      if expectedEvent.lastFault == reportedFault {
        answers := ServiceBall(umpire, luck);
      } else {
        answers := [GameEnded(GameCancelled(umpire.score, UmpiresDisagreeOnEvent))];
      }
    } else {
      answers := [GameEnded(GameCancelled(umpire.score, UmpiresDisagreeOnState))];
    }
  }

  method ServiceBall(umpire: Umpire, luck: Luck) returns (events: seq<PingPongEvent>)
    requires umpire.Valid() && !WouldPanic(umpire.View(), Ourself)
    modifies umpire
    ensures umpire.Valid()
    ensures (umpire.View(), events) == Serve(old(umpire.View()), luck, 0)
    ensures IsBatch(events) && |events| <= SERVICING_ATTEMPTS
  {
    ServiceIsABatch(umpire.View(), luck, 0);
    events := [];
    ghost var served := ServeAfter(umpire.View(), luck, events);
    assert events + Serve(umpire.View(), luck, 0).1 == Serve(umpire.View(), luck, 0).1;
    while true
      invariant umpire.Valid() && !WouldPanic(umpire.View(), Ourself)
      invariant |events| + SpareAttempts(umpire.View()) < SERVICING_ATTEMPTS
      invariant ServeAfter(umpire.View(), luck, events) == served
      decreases SpareAttempts(umpire.View())
    {
      ServesOnce(umpire.View(), luck, events);
      var ourEvent := umpire.ProcessTurn(Ourself, luck(|events|));
      events := events + [ourEvent];
      if !ourEvent.SoftFault? {
        break;
      }
    }
  }

  /** The whole service, when it already led to some events. */
  function ServeAfter(m: Match, luck: Luck, events: seq<PingPongEvent>): (Match, seq<PingPongEvent>)
    requires Sound(m) && !WouldPanic(m, Ourself)
  {
    var (m', more) := Serve(m, luck, |events|);
    (m', events + more)
  }

  lemma ServesOnce(m: Match, luck: Luck, events: seq<PingPongEvent>)
    requires Sound(m) && !WouldPanic(m, Ourself)
    ensures var (m1, event) := Turn(m, Ourself, luck(|events|));
            && (event.SoftFault? ==> !WouldPanic(m1, Ourself) && SpareAttempts(m1) + 1 == SpareAttempts(m))
            && ServeAfter(m, luck, events)
               == if event.SoftFault? then ServeAfter(m1, luck, events + [event]) else (m1, events + [event])
  {
    var (m1, event) := Turn(m, Ourself, luck(|events|));
    if event.SoftFault? {
      var more := Serve(m1, luck, |events| + 1).1;
      assert events + ([event] + more) == (events + [event]) + more;
    }
  }

  // ---------- what the reports are worth ----------

  /** The action a report is about. A cancellation reports none. */
  function ActionOf(event: PingPongEvent): Option<PlayerAction> {
    match event
    case TurnFlip(action, _) => Some(action)
    case HardFault(action, _) => Some(action)
    case SoftFault(action, _) => Some(action)
    case Score(_, action, _) => Some(action)
    case GameEnded(GracefullyEnded(_, action, _)) => Some(action)
    case GameEnded(GameCancelled(_, _)) => None
  }

  /** Our own umpire, still in the game, comes to the reported verdict when shown the opponent's action. */
  predicate IsTrue(m: Match, report: PingPongEvent)
    requires Sound(m)
  {
    !m.state.GameOver? && ActionOf(report).Some? && Turn(m, Opponent, ActionOf(report).value).1 == MirrorEvent(report)
  }

  /** Shows our umpire all the reports of the opponent, as long as they are true. */
  function Replay(m: Match, reports: seq<PingPongEvent>): (replayed: Option<Match>)
    requires Sound(m)
    ensures replayed.Some? ==> Sound(replayed.value) && replayed.value.config == m.config
    decreases |reports|
  {
    if reports == [] then Some(m)
    else if !IsTrue(m, reports[0]) then None
    else Replay(Turn(m, Opponent, ActionOf(reports[0]).value).0, reports[1..])
  }

  /** Whatever a player does in its turn is a true report for the umpire of the other one, which then mirrors ours. */
  lemma OurTurnIsTrue(m: Match, action: PlayerAction)
    requires Sound(m) && m.turnPlayer == Ourself && !m.state.GameOver?
    ensures Sound(Mirror(m)) && IsTrue(Mirror(m), Turn(m, Ourself, action).1)
    ensures ActionOf(Turn(m, Ourself, action).1) == Some(action)
    ensures Turn(Mirror(m), Opponent, action).0 == Mirror(Turn(m, Ourself, action).0)
  {
    MirrorTurn(m, Ourself, action);
    MirrorTwice(m, Turn(m, Ourself, action).1);
  }

  lemma {:induction false} ServiceIsTrue(m: Match, luck: Luck, attempts: nat)
    requires Sound(m) && m.turnPlayer == Ourself && !m.state.GameOver?
    ensures Sound(Mirror(m))
    ensures var (m', events) := Serve(m, luck, attempts);
            Replay(Mirror(m), events) == Some(Mirror(m'))
    decreases SpareAttempts(m)
  {
    OurTurnIsTrue(m, luck(attempts));
    var (m1, event) := Turn(m, Ourself, luck(attempts));
    if event.SoftFault? {
      ServiceIsTrue(m1, luck, attempts + 1);
      var (m2, events) := Serve(m1, luck, attempts + 1);
      assert ([event] + events)[1..] == events;
    }
  }
}
