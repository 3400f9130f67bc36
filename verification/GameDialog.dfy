/** The game dialog at each end of the connection: what is answered to each incoming message. */
module GameDialog {
  import opened Wrappers
  import opened PingPongModels
  import opened PingPongLogic
  import opened ProtocolProcessor

  datatype ClientMessage =
    | ClientEvent(event: PingPongEvent)
    | EndorsedScore
    | ContestedScore(score: MatchScore)
    | DumpConfig
    | ClientError
    | Quit

  datatype ServerMessage =
    | GameStarted
    | ConfigInPlace(config: MatchConfig)
    | ServerEvent(event: PingPongEvent)
    | ServerError
    | GoodBye
    | ServerShutdown

  datatype Side = Client | Server

  // ---------- the reaction to the report of an event, common to both sides ----------

  datatype Response =
    | Answer(events: seq<PingPongEvent>)
    | Refusal
    | EndOfGame(outcome: GameOverState)

  /** The states in which our umpire takes the given report about a rally seriously. The sides differ on one. */
  predicate StateMatches(side: Side, flip: Flip, state: GameState) {
    match flip
    case SuccessfulService => state.WaitingForService?
    case SoftFaultService => state.WaitingForService? || (side == Server && state.Rally?)
    case SuccessfulRebate => state.Rally?
  }

  predicate RespondPanics(m: Match, report: PingPongEvent) {
    && WouldPanic(m, Opponent)
    && (report.HardFault? || report.SoftFault? || (report.Score? && report.pointWinningPlayer == Opponent))
  }

  function Respond(side: Side, m: Match, report: PingPongEvent, luck: Luck): (r: (Match, Response))
    requires Sound(m) && !RespondPanics(m, report)
    ensures Sound(r.0) && r.0.config == m.config
  {
    match report
    case TurnFlip(action, flip) =>
      var (m', answer) := RallyReaction(m, StateMatches(side, flip, m.state), action, flip, luck(0));
      (m', Answer([answer]))
    case HardFault(action, _) =>
      var (m', answers) := HardFaultReaction(m, action);
      (m', Answer(answers))
    case SoftFault(action, fault) =>
      var (m', answers) := SoftFaultReaction(m, action, fault);
      (m', Answer(answers))
    case Score(winner, action, fault) =>
      if winner != Opponent then (m, Refusal)
      else
        var (m', answers) := ScoreReaction(m, action, fault, luck);
        (m', Answer(answers))
    case GameEnded(outcome) => (m, EndOfGame(outcome))
  }

  /** The report is not taken: either the match is cancelled or the dialog is over at once. */
  predicate Rejects(response: Response) {
    response.Refusal? || (response.Answer? && exists event <- response.events :: IsCancellation(event))
  }

  /** A report is rejected if, and only if, it is not true -- but for the end of the game, which is never rejected. This
      holds whatever the opponent -- honest or not -- reports. */
  lemma AcceptsExactlyTheTruth(side: Side, m: Match, report: PingPongEvent, luck: Luck)
    requires Sound(m) && !RespondPanics(m, report)
    ensures Rejects(Respond(side, m, report, luck).1) <==> !report.GameEnded? && !IsTrue(m, report)
  {
    if !report.GameEnded? {
      AcceptsExactlyTrueTurns(side, m, report, luck);
    }
  }

  lemma AcceptsExactlyTrueTurns(side: Side, m: Match, report: PingPongEvent, luck: Luck)
    requires Sound(m) && !RespondPanics(m, report) && !report.GameEnded?
    ensures Rejects(Respond(side, m, report, luck).1) <==> !IsTrue(m, report)
  {
    var (m', response) := Respond(side, m, report, luck);
    var action := ActionOf(report).value;
    if IsTrue(m, report) {
      PointWinnerServesNext(m, Opponent, action);
      var m1 := Turn(m, Opponent, action).0;
      match report {
        case TurnFlip(_, _) => PointWinnerServesNext(m1, Ourself, luck(0));
        case Score(_, _, _) => ServiceIsTrue(m1, luck, 0); NoCancellationIsTrue(Mirror(m1), response.events);
        case _ =>
      }
    } else if response.Answer? {
      if !m.state.GameOver? {
        PointWinnerServesNext(m, Opponent, action);
      }
      assert IsCancellation(response.events[0]);
    }
  }

  /** Each answer to a true report is about an action of our own, taken in turn; only a soft fault gets no answer. */
  lemma AnswersWithOwnActions(side: Side, m: Match, report: PingPongEvent, luck: Luck)
    requires Sound(m) && IsTrue(m, report) && !report.GameEnded?
    ensures var response := Respond(side, m, report, luck).1;
            response.Answer? && (response.events == [] <==> report.SoftFault?) && ActInTurn(response.events, luck, 0)
  {
    var action := ActionOf(report).value;
    PointWinnerServesNext(m, Opponent, action);
    match report {
      case TurnFlip(_, _) => PlaysBack(side, m, report, luck);
      case Score(_, _, _) => ServesBack(side, m, report, luck);
      case _ =>
    }
  }

  lemma PlaysBack(side: Side, m: Match, report: PingPongEvent, luck: Luck)
    requires Sound(m) && IsTrue(m, report) && report.TurnFlip?
    ensures Respond(side, m, report, luck)
         == var (m', event) := Turn(Turn(m, Opponent, report.playerAction).0, Ourself, luck(0)); (m', Answer([event]))
    ensures ActInTurn(Respond(side, m, report, luck).1.events, luck, 0)
  {
    PointWinnerServesNext(m, Opponent, report.playerAction);
    VerdictIsOnAction(Turn(m, Opponent, report.playerAction).0, Ourself, luck(0));
  }

  lemma ServesBack(side: Side, m: Match, report: PingPongEvent, luck: Luck)
    requires Sound(m) && IsTrue(m, report) && report.Score?
    ensures Respond(side, m, report, luck)
         == var (m', events) := Serve(Turn(m, Opponent, report.lastPlayerAction).0, luck, 0); (m', Answer(events))
    ensures var events := Respond(side, m, report, luck).1.events; events != [] && ActInTurn(events, luck, 0)
  {
    PointWinnerServesNext(m, Opponent, report.lastPlayerAction);
    var m1 := Turn(m, Opponent, report.lastPlayerAction).0;
    ServiceIsABatch(m1, luck, 0);
    ServiceActsAnew(m1, luck, 0);
  }

  /** What a report presumes of our umpire. A rebate may also be said to be a faulty service, but to the server only. */
  predicate Presumes(side: Side, flip: Flip, state: GameState) {
    || (flip == SuccessfulService && state.WaitingForService?)
    || (flip == SoftFaultService && (state.WaitingForService? || (side == Server && state.Rally?)))
    || (flip == SuccessfulRebate && state.Rally?)
  }

  /** A cancellation names the rule that was broken, and the score of our umpire: it did not expect that kind of report,
      or it came to another verdict. */
  lemma CancelsByTheRuleBroken(side: Side, m: Match, report: PingPongEvent, luck: Luck)
    requires Sound(m) && !RespondPanics(m, report) && !report.GameEnded? && !IsTrue(m, report)
    ensures var (m', response) := Respond(side, m, report, luck);
            var verdict := if WouldPanic(m, Opponent) then None else Some(Turn(m, Opponent, ActionOf(report).value).1);
            match report
            case TurnFlip(_, flip) =>
              response == Answer([GameEnded(GameCancelled(m'.score, if Presumes(side, flip, m.state) then UmpiresDisagreeOnEvent
                                                                    else UmpiresDisagreeOnState))])
            case HardFault(_, _) => response == Answer([GameEnded(GameCancelled(m'.score, UmpiresDisagreeOnHardFault))])
            case SoftFault(_, _) =>
              verdict.Some? && response == Answer([GameEnded(GameCancelled(m'.score, if verdict.value.SoftFault? then UmpiresDisagreeOnEvent
                                                                                     else UmpiresDisagreeOnSoftFault))])
            case Score(winner, _, _) =>
              if winner != Opponent then response == Refusal
              else verdict.Some? && response == Answer([GameEnded(GameCancelled(m'.score, if verdict.value.Score? then UmpiresDisagreeOnEvent
                                                                                          else UmpiresDisagreeOnState))])
            case GameEnded(_) => true
  {
    if !WouldPanic(m, Opponent) {
      VerdictNamesFirstFault(m, Opponent, ActionOf(report).value);
    }
  }

  /** The opponent is up, faults so with that action, and we were one point short: then the game is ours, by that score. */
  predicate WonByFault(m: Match, score: MatchScore, action: PlayerAction, fault: Fault) {
    && !m.state.GameOver? && m.turnPlayer == Opponent
    && (m.state.WaitingForService? ==> ConsiderServiceSoftFault(m.config, action, m.state.attempt).None?)
    && ConsiderHardFault(m.config, action) == Some(fault)
    && m.score.oneself + 1 == Goal(m.config)
    && score == MatchScore(m.score.limit, m.score.opponent, Goal(m.config))
  }

  /** So a reported end -- which is taken without a look at our umpire, and endorsed by the client -- is taken rightly if,
      and only if, the opponent's last action was the fault that gave us the last point. */
  lemma EndIsRightlyTaken(side: Side, m: Match, score: MatchScore, action: PlayerAction, fault: Fault, luck: Luck)
    requires Sound(m)
    ensures var report := GameEnded(GracefullyEnded(score, action, fault));
            && ClientReaction(m, ServerEvent(report), luck) == (m, Running, [EndorsedScore])
            && ServerReaction(m, ClientEvent(report), luck) == (m, Closed, [GoodBye])
            && (IsTrue(m, report) <==> WonByFault(m, score, action, fault))
  {
  }

  /** It does happen: told of a victory before the first service, the client endorses it. */
  lemma ForgedEndIsEndorsed(config: MatchConfig, action: PlayerAction, fault: Fault, luck: Luck)
    ensures var (m, report) := (NewMatch(config, Ourself),
                                GameEnded(GracefullyEnded(MatchScore(config.scoreLimit, Goal(config), 0), action, fault)));
            && !IsTrue(m, report)
            && ClientReaction(m, ServerEvent(report), luck) == (m, Running, [EndorsedScore])
  {
  }

  lemma {:induction false} NoCancellationIsTrue(m: Match, reports: seq<PingPongEvent>)
    requires Sound(m) && Replay(m, reports).Some?
    ensures forall event <- reports :: !IsCancellation(event)
    decreases |reports|
  {
    if reports != [] {
      NoCancellationIsTrue(Turn(m, Opponent, ActionOf(reports[0]).value).0, reports[1..]);
    }
  }

  // ---------- the dispatch, on values ----------

  datatype Status = Running | Closed | Panicked

  /** One end of the connection: its umpire and whether its dialog goes on. */
  datatype Party = Party(umpire: Match, status: Status)

  function ClientMessages(events: seq<PingPongEvent>): (messages: seq<ClientMessage>)
    ensures |messages| == |events| && forall i | 0 <= i < |events| :: messages[i] == ClientEvent(events[i])
  {
    seq(|events|, i requires 0 <= i < |events| => ClientEvent(events[i]))
  }

  function ServerMessages(events: seq<PingPongEvent>): (messages: seq<ServerMessage>)
    ensures |messages| == |events| && forall i | 0 <= i < |events| :: messages[i] == ServerEvent(events[i])
  {
    seq(|events|, i requires 0 <= i < |events| => ServerEvent(events[i]))
  }

  predicate ClientPanics(m: Match, message: ServerMessage) {
    (message.GameStarted? && WouldPanic(m, Ourself)) || (message.ServerEvent? && RespondPanics(m, message.event))
  }

  predicate ServerPanics(m: Match, message: ClientMessage) {
    message.ClientEvent? && RespondPanics(m, message.event)
  }

  /** The client's umpire, whether its dialog goes on, and its answers. */
  function ClientReaction(m: Match, message: ServerMessage, luck: Luck): (r: (Match, Status, seq<ClientMessage>))
    requires Sound(m) && !ClientPanics(m, message)
    ensures Sound(r.0) && r.0.config == m.config && r.1 != Panicked
  {
    match message
    case GameStarted =>
      var (m', event) := Turn(m, Ourself, luck(0));
      (m', Running, [ClientEvent(event)])
    case ConfigInPlace(_) => (m, Running, [])
    case ServerEvent(report) =>
      (var (m', response) := Respond(Client, m, report, luck);
       match response
       case Answer(events) => (m', Running, ClientMessages(events))
       case Refusal => (m', Closed, [Quit])
       case EndOfGame(outcome) => (m', Running, if outcome.GracefullyEnded? then [EndorsedScore] else []))
    case ServerError => (m, Closed, [Quit])
    case GoodBye => (m, Closed, [])
    case ServerShutdown => (m, Closed, [])
  }

  function ServerReaction(m: Match, message: ClientMessage, luck: Luck): (r: (Match, Status, seq<ServerMessage>))
    requires Sound(m) && !ServerPanics(m, message)
    ensures Sound(r.0) && r.0.config == m.config && r.1 != Panicked
  {
    match message
    case ClientEvent(report) =>
      (var (m', response) := Respond(Server, m, report, luck);
       if response.Answer? then (m', Running, ServerMessages(response.events)) else (m', Closed, [GoodBye]))
    case DumpConfig => (m, Running, [ConfigInPlace(m.config)])
    case ContestedScore(_) => (m, Closed, [GoodBye])
    case EndorsedScore => (m, Closed, [GoodBye])
    case ClientError => (m, Closed, [GoodBye])
    case Quit => (m, Closed, [GoodBye])
  }

  /** A report of a score that is none of the opponent's. */
  predicate ClaimsOurScore(report: PingPongEvent) {
    report.Score? && report.pointWinningPlayer != Opponent
  }

  /** When the client leaves, quits or endorses. */
  lemma ClientLeavesExactlyWhen(m: Match, message: ServerMessage, luck: Luck)
    requires Sound(m) && !ClientPanics(m, message)
    ensures var (_, status, answers) := ClientReaction(m, message, luck);
            var claim := message.ServerEvent? && ClaimsOurScore(message.event);
            && (status == Closed <==> message.ServerError? || message.GoodBye? || message.ServerShutdown? || claim)
            && (answers == [Quit] <==> message.ServerError? || claim)
            && (answers == [EndorsedScore] <==>
                  message.ServerEvent? && message.event.GameEnded? && message.event.outcome.GracefullyEnded?)
  {
    var answers := ClientReaction(m, message, luck).2;
    assert answers != [] ==> answers[0].ClientEvent? || answers == [Quit] || answers == [EndorsedScore];
  }

  /** When the server leaves, always with a goodbye. */
  lemma ServerLeavesExactlyWhen(m: Match, message: ClientMessage, luck: Luck)
    requires Sound(m) && !ServerPanics(m, message)
    ensures var (_, status, answers) := ServerReaction(m, message, luck);
            && (status == Closed <==> || message.ContestedScore? || message.EndorsedScore? || message.ClientError? || message.Quit?
                                      || (message.ClientEvent? && (message.event.GameEnded? || ClaimsOurScore(message.event))))
            && (answers == [GoodBye] <==> status == Closed)
            && (message.DumpConfig? ==> answers == [ConfigInPlace(m.config)])
  {
    var answers := ServerReaction(m, message, luck).2;
    assert answers != [] ==> answers[0].ServerEvent? || answers == [GoodBye] || answers == [ConfigInPlace(m.config)];
  }

  // ---------- the dispatch, as performed by the dialog processors ----------

  class ClientDialogProcessor {
    const umpire: Umpire
    var ended: bool

    constructor (config: MatchConfig)
      ensures fresh(umpire) && umpire.Valid() && umpire.View() == NewMatch(config, Ourself) && !ended
    {
      umpire := new Umpire(config, Ourself);
      ended := false;
    }

    method OnServerMessage(message: ServerMessage, luck: Luck) returns (answers: seq<ClientMessage>)
      requires !ended && umpire.Valid() && !ClientPanics(umpire.View(), message)
      modifies this, umpire
      ensures umpire.Valid()
      ensures (umpire.View(), if ended then Closed else Running, answers)
           == ClientReaction(old(umpire.View()), message, luck)
    {
      match message {
        case GameStarted =>
          var event := umpire.ProcessTurn(Ourself, luck(0));
          answers := [ClientEvent(event)];
        case ConfigInPlace(_) =>
          answers := [];
        case ServerEvent(report) =>
          match report {
            case TurnFlip(opponentAction, flip) =>
              var answer := ReactToRallyEvent(umpire, state => StateMatches(Client, flip, state), opponentAction, flip, luck);
              answers := ClientMessages([answer]);
            case HardFault(opponentAction, fault) =>
              var events := ReactToHardFault(umpire, opponentAction, fault, luck);
              answers := ClientMessages(events);
            case SoftFault(opponentAction, fault) =>
              var events := ReactToServiceSoftFault(umpire, opponentAction, fault);
              answers := ClientMessages(events);
            case Score(winner, lastAction, lastFault) =>
              if winner != Opponent {
                answers := [Quit];
                ended := true;
              } else {
                var events := ReactToScore(umpire, lastAction, lastFault, luck);
                answers := ClientMessages(events);
              }
            case GameEnded(GracefullyEnded(_, _, _)) =>
              answers := [EndorsedScore];
            case GameEnded(GameCancelled(_, _)) =>
              answers := [];
          }
        case ServerError =>
          answers := [Quit];
          ended := true;
        case GoodBye =>
          answers := [];
          ended := true;
        case ServerShutdown =>
          answers := [];
          ended := true;
      }
    }
  }

  class ServerDialogProcessor {
    const umpire: Umpire
    var ended: bool

    constructor (clientConfig: MatchConfig)
      ensures fresh(umpire) && umpire.Valid() && umpire.View() == NewMatch(clientConfig, Opponent) && !ended
    {
      umpire := new Umpire(clientConfig, Opponent);
      ended := false;
    }

    method OnClientMessage(message: ClientMessage, luck: Luck) returns (answers: seq<ServerMessage>)
      requires !ended && umpire.Valid() && !ServerPanics(umpire.View(), message)
      modifies this, umpire
      ensures umpire.Valid()
      ensures (umpire.View(), if ended then Closed else Running, answers)
           == ServerReaction(old(umpire.View()), message, luck)
    {
      match message {
        case ClientEvent(report) =>
          match report {
            case TurnFlip(opponentAction, flip) =>
              var answer := ReactToRallyEvent(umpire, state => StateMatches(Server, flip, state), opponentAction, flip, luck);
              answers := ServerMessages([answer]);
            case HardFault(opponentAction, fault) =>
              var events := ReactToHardFault(umpire, opponentAction, fault, luck);
              answers := ServerMessages(events);
            case SoftFault(opponentAction, fault) =>
              var events := ReactToServiceSoftFault(umpire, opponentAction, fault);
              answers := ServerMessages(events);
            case Score(winner, lastAction, lastFault) =>
              if winner != Opponent {
                answers := [GoodBye];
                ended := true;
              } else {
                var events := ReactToScore(umpire, lastAction, lastFault, luck);
                answers := ServerMessages(events);
              }
            case GameEnded(_) =>
              answers := [GoodBye];
              ended := true;
          }
        case DumpConfig =>
          answers := [ConfigInPlace(umpire.config)];
        case ContestedScore(_) =>
          answers := [GoodBye];
          ended := true;
        case EndorsedScore =>
          answers := [GoodBye];
          ended := true;
        case ClientError =>
          answers := [GoodBye];
          ended := true;
        case Quit =>
          answers := [GoodBye];
          ended := true;
      }
    }
  }
}
