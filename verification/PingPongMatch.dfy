/** A whole match: two honest parties, each with its own umpire, and the two queues of messages between them. */
module PingPongMatch {
  import opened Wrappers
  import opened PingPongModels
  import opened PingPongLogic
  import opened ProtocolProcessor
  import opened GameDialog

  datatype System = System(client: Party, server: Party, toClient: seq<ServerMessage>, toServer: seq<ClientMessage>)

  /** Both dialogs just started: the server announced the game and both umpires have the client's configuration. */
  function Start(config: MatchConfig): System {
    System(Party(NewMatch(config, Ourself), Running), Party(NewMatch(config, Opponent), Running), [GameStarted], [])
  }

  datatype Step = ClientHandles(luck: Luck) | ServerHandles(luck: Luck)

  predicate Enabled(s: System, step: Step) {
    match step
    case ClientHandles(_) => s.client.status == Running && s.toClient != []
    case ServerHandles(_) => s.server.status == Running && s.toServer != []
  }

  predicate SoundSystem(s: System) {
    Sound(s.client.umpire) && Sound(s.server.umpire)
  }

  /** One of the parties handles the message at the head of its queue. */
  function Next(s: System, step: Step): (s': System)
    requires SoundSystem(s) && Enabled(s, step)
    ensures SoundSystem(s')
  {
    match step
    case ClientHandles(luck) =>
      if ClientPanics(s.client.umpire, s.toClient[0]) then s.(client := s.client.(status := Panicked)) else
      var (umpire, status, answers) := ClientReaction(s.client.umpire, s.toClient[0], luck);
      s.(client := Party(umpire, status), toClient := s.toClient[1..], toServer := s.toServer + answers)
    case ServerHandles(luck) =>
      if ServerPanics(s.server.umpire, s.toServer[0]) then s.(server := s.server.(status := Panicked)) else
      var (umpire, status, answers) := ServerReaction(s.server.umpire, s.toServer[0], luck);
      s.(server := Party(umpire, status), toServer := s.toServer[1..], toClient := s.toClient + answers)
  }

  /** `steps` is a possible run from `s`: any interleaving, any luck. */
  predicate IsRun(s: System, steps: seq<Step>)
    requires SoundSystem(s)
    decreases |steps|
  {
    steps == [] || (Enabled(s, steps[0]) && IsRun(Next(s, steps[0]), steps[1..]))
  }

  function After(s: System, steps: seq<Step>): (s': System)
    requires SoundSystem(s) && IsRun(s, steps)
    ensures SoundSystem(s')
    decreases |steps|
  {
    if steps == [] then s else After(Next(s, steps[0]), steps[1..])
  }

  // ---------- the phases of a match ----------

  /** Replaying, on the umpire of the receiver, the reports in flight gives the mirror of the umpire of the sender. */
  predicate InAgreement(sender: Match, receiver: Match, reports: seq<PingPongEvent>)
    requires Sound(sender) && Sound(receiver)
  {
    Replay(receiver, reports) == Some(Mirror(sender))
  }

  /** The receiver was told that the game is over, and its umpire -- had it been shown the last action -- agrees on
      everything, the final score included. */
  predicate Settled(sender: Match, receiver: Match)
    requires Sound(sender) && Sound(receiver)
  {
    && sender.state.GameOver? && sender.state.outcome.GracefullyEnded?
    && InAgreement(sender, receiver, [GameEnded(sender.state.outcome)])
  }

  predicate BothRunning(s: System) {
    s.client.status == Running && s.server.status == Running
  }

  predicate ClientPlayed(s: System, reports: seq<PingPongEvent>)
    requires SoundSystem(s)
  {
    && BothRunning(s) && s.toClient == [] && s.toServer == ClientMessages(reports)
    && InAgreement(s.client.umpire, s.server.umpire, reports)
  }

  predicate ServerPlayed(s: System, reports: seq<PingPongEvent>)
    requires SoundSystem(s)
  {
    && BothRunning(s) && s.toServer == [] && s.toClient == ServerMessages(reports)
    && InAgreement(s.server.umpire, s.client.umpire, reports)
  }

  predicate Endorsed(s: System)
    requires SoundSystem(s)
  {
    BothRunning(s) && s.toClient == [] && s.toServer == [EndorsedScore] && Settled(s.server.umpire, s.client.umpire)
  }

  predicate Over(s: System)
    requires SoundSystem(s)
  {
    && s.toServer == [] && s.server.status == Closed
    && ((s.toClient == [GoodBye] && s.client.status == Running) || (s.toClient == [] && s.client.status == Closed))
    && (Settled(s.client.umpire, s.server.umpire) || Settled(s.server.umpire, s.client.umpire))
  }

  /** Exactly one direction is in use, carrying one batch, until the end of the game is consumed. */
  ghost predicate InPlay(s: System)
    requires SoundSystem(s)
  {
    || (exists reports :: IsBatch(reports) && ClientPlayed(s, reports))
    || (exists reports :: IsBatch(reports) && ServerPlayed(s, reports))
  }

  /** Nobody has anything to handle and nobody won: nothing will ever happen again. */
  predicate Stalled(s: System) {
    && BothRunning(s) && s.toClient == [] && s.toServer == []
    && !s.client.umpire.state.GameOver? && !s.server.umpire.state.GameOver?
  }

  predicate StalledInAgreement(s: System) {
    Stalled(s) && s.server.umpire == Mirror(s.client.umpire)
  }

  /** The very first action is a soft fault: the ball has to be serviced again, but the program services it once. */
  predicate OpensWithSoftFault(config: MatchConfig, action: PlayerAction) {
    action.luckyNumber <= config.mishitProbability || action.luckyNumber <= config.netTouchProbability
  }

  // ---------- one reaction, whichever the side ----------

  /** The sender's turn of an agreed, unfinished match comes from whom the receiver expects. */
  lemma HeadOfAgreement(sender: Match, receiver: Match, reports: seq<PingPongEvent>)
    requires Sound(sender) && Sound(receiver) && reports != [] && InAgreement(sender, receiver, reports)
    ensures IsTrue(receiver, reports[0]) && receiver.turnPlayer == Opponent
    ensures !RespondPanics(receiver, reports[0])
  {
    PointWinnerServesNext(receiver, Opponent, ActionOf(reports[0]).value);
  }

  /** A soft fault is taken silently and leaves the rest of the batch in agreement. */
  lemma SoftFaultKeepsAgreement(side: Side, sender: Match, receiver: Match, reports: seq<PingPongEvent>, luck: Luck)
    requires Sound(sender) && Sound(receiver) && reports != [] && InAgreement(sender, receiver, reports)
    requires reports[0].SoftFault? && !RespondPanics(receiver, reports[0])
    ensures Respond(side, receiver, reports[0], luck).1 == Answer([])
    ensures InAgreement(sender, Respond(side, receiver, reports[0], luck).0, reports[1..])
  {
  }

  /** What passes the turn is answered with a batch, about which the two umpires agree with the roles swapped. */
  lemma AnswerIsAgreed(side: Side, sender: Match, receiver: Match, report: PingPongEvent, luck: Luck)
    requires Sound(sender) && Sound(receiver) && InAgreement(sender, receiver, [report])
    requires !report.SoftFault? && !report.GameEnded? && !RespondPanics(receiver, report)
    ensures var (receiver', response) := Respond(side, receiver, report, luck);
            response.Answer? && IsBatch(response.events) && InAgreement(receiver', sender, response.events)
  {
    var action := ActionOf(report).value;
    var m1 := Turn(receiver, Opponent, action).0;
    PointWinnerServesNext(receiver, Opponent, action);
    assert Replay(m1, [report][1..]) == Some(m1);
    assert m1 == Mirror(sender);
    MirrorTwice(sender, report);
    match report {
      case TurnFlip(_, _) =>
        OurTurnIsTrue(m1, luck(0));
        PointWinnerServesNext(m1, Ourself, luck(0));
        var answer := Turn(m1, Ourself, luck(0)).1;
        assert Replay(Turn(sender, Opponent, luck(0)).0, [answer][1..]) == Some(Turn(sender, Opponent, luck(0)).0);
      case Score(_, _, _) =>
        ServiceIsTrue(m1, luck, 0);
        ServiceIsABatch(m1, luck, 0);
      case _ =>
    }
  }

  /** The end of the game is taken without a look at our own umpire, yet it would agree. */
  lemma EndIsSettled(side: Side, sender: Match, receiver: Match, outcome: GameOverState, luck: Luck)
    requires Sound(sender) && Sound(receiver) && InAgreement(sender, receiver, [GameEnded(outcome)])
    ensures Respond(side, receiver, GameEnded(outcome), luck) == (receiver, EndOfGame(outcome))
    ensures Settled(sender, receiver) && outcome.GracefullyEnded?
  {
    var report := GameEnded(outcome);
    PointWinnerServesNext(receiver, Opponent, ActionOf(report).value);
    var m1 := Turn(receiver, Opponent, ActionOf(report).value).0;
    assert Replay(m1, [report][1..]) == Some(m1);
    MirrorTwice(sender, report);
  }

  // ---------- the phases follow each other ----------

  ghost predicate Healthy(s: System)
    requires SoundSystem(s)
  {
    InPlay(s) || Endorsed(s) || Over(s)
  }

  lemma ServerAnswers(s: System, step: Step, reports: seq<PingPongEvent>)
    requires SoundSystem(s) && Enabled(s, step) && IsBatch(reports) && ClientPlayed(s, reports)
    ensures Healthy(Next(s, step))
  {
    var report := reports[0];
    HeadOfAgreement(s.client.umpire, s.server.umpire, reports);
    if report.SoftFault? {
      SoftFaultKeepsAgreement(Server, s.client.umpire, s.server.umpire, reports, step.luck);
      assert IsBatch(reports[1..]) && ClientPlayed(Next(s, step), reports[1..]);
    } else {
      assert reports == [report];
      ServerAnswersLast(s, step, report);
    }
  }

  lemma ServerAnswersLast(s: System, step: Step, report: PingPongEvent)
    requires SoundSystem(s) && Enabled(s, step) && ClientPlayed(s, [report]) && !report.SoftFault?
    ensures Healthy(Next(s, step))
  {
    HeadOfAgreement(s.client.umpire, s.server.umpire, [report]);
    if report.GameEnded? {
      EndIsSettled(Server, s.client.umpire, s.server.umpire, report.outcome, step.luck);
      assert Over(Next(s, step));
    } else {
      AnswerIsAgreed(Server, s.client.umpire, s.server.umpire, report, step.luck);
      var answers := Respond(Server, s.server.umpire, report, step.luck).1.events;
      assert IsBatch(answers) && ServerPlayed(Next(s, step), answers);
    }
  }

  lemma ClientAnswers(s: System, step: Step, reports: seq<PingPongEvent>)
    requires SoundSystem(s) && Enabled(s, step) && IsBatch(reports) && ServerPlayed(s, reports)
    ensures Healthy(Next(s, step))
  {
    var report := reports[0];
    HeadOfAgreement(s.server.umpire, s.client.umpire, reports);
    if report.SoftFault? {
      SoftFaultKeepsAgreement(Client, s.server.umpire, s.client.umpire, reports, step.luck);
      assert IsBatch(reports[1..]) && ServerPlayed(Next(s, step), reports[1..]);
    } else {
      assert reports == [report];
      ClientAnswersLast(s, step, report);
    }
  }

  lemma ClientAnswersLast(s: System, step: Step, report: PingPongEvent)
    requires SoundSystem(s) && Enabled(s, step) && ServerPlayed(s, [report]) && !report.SoftFault?
    ensures Healthy(Next(s, step))
  {
    HeadOfAgreement(s.server.umpire, s.client.umpire, [report]);
    if report.GameEnded? {
      EndIsSettled(Client, s.server.umpire, s.client.umpire, report.outcome, step.luck);
      assert Endorsed(Next(s, step));
    } else {
      AnswerIsAgreed(Client, s.server.umpire, s.client.umpire, report, step.luck);
      var answers := Respond(Client, s.client.umpire, report, step.luck).1.events;
      assert IsBatch(answers) && ClientPlayed(Next(s, step), answers);
    }
  }

  /** From a healthy match on, every step leads to a healthy match. */
  lemma HealthyStep(s: System, step: Step)
    requires SoundSystem(s) && Enabled(s, step) && Healthy(s)
    ensures Healthy(Next(s, step))
  {
    if reports :| IsBatch(reports) && ClientPlayed(s, reports) {
      ServerAnswers(s, step, reports);
    } else if reports :| IsBatch(reports) && ServerPlayed(s, reports) {
      ClientAnswers(s, step, reports);
    } else if Endorsed(s) {
      assert Over(Next(s, step));
    } else {
      assert Over(Next(s, step));
    }
  }

  lemma {:induction false} HealthyRun(s: System, steps: seq<Step>)
    requires SoundSystem(s) && Healthy(s) && IsRun(s, steps)
    ensures Healthy(After(s, steps))
    decreases |steps|
  {
    if steps != [] {
      HealthyStep(s, steps[0]);
      HealthyRun(Next(s, steps[0]), steps[1..]);
    }
  }

  /** The opening service, which the client performs once, whatever comes out of it. */
  lemma OpeningService(config: MatchConfig, step: Step)
    requires Enabled(Start(config), step)
    ensures var (s, event) := (Next(Start(config), step), Turn(NewMatch(config, Ourself), Ourself, step.luck(0)).1);
            && step.ClientHandles? && ClientPlayed(s, [event])
            && (event.SoftFault? <==> OpensWithSoftFault(config, step.luck(0)))
            && (!event.SoftFault? ==> Healthy(s))
  {
    var (m, luck) := (NewMatch(config, Ourself), step.luck);
    OurTurnIsTrue(m, luck(0));
    var event := Turn(m, Ourself, luck(0)).1;
    var s := Next(Start(config), step);
    assert Replay(Turn(Mirror(m), Opponent, luck(0)).0, [event][1..]) == Some(Turn(Mirror(m), Opponent, luck(0)).0);
    assert ClientPlayed(s, [event]);
    assert !event.SoftFault? ==> IsBatch([event]);
  }

  /** After an opening soft fault, the server waits for another service that never comes. */
  lemma OpeningSoftFaultStalls(config: MatchConfig, steps: seq<Step>)
    requires IsRun(Start(config), steps) && steps != [] && OpensWithSoftFault(config, steps[0].luck(0))
    ensures |steps| == 1 ==> exists fault :: ClientPlayed(After(Start(config), steps), [fault])
    ensures |steps| >= 2 ==> |steps| == 2 && StalledInAgreement(After(Start(config), steps))
  {
    OpeningService(config, steps[0]);
    var s := Next(Start(config), steps[0]);
    var event := Turn(NewMatch(config, Ourself), Ourself, steps[0].luck(0)).1;
    if |steps| == 1 {
      assert After(Start(config), steps) == s;
    } else {
      var next := steps[1..][0];
      HeadOfAgreement(s.client.umpire, s.server.umpire, [event]);
      SoftFaultKeepsAgreement(Server, s.client.umpire, s.server.umpire, [event], next.luck);
      assert Stalled(Next(s, next));
      assert IsRun(Next(s, next), steps[1..][1..]);
      assert |steps| == 2 && After(Start(config), steps) == After(s, steps[1..]) == Next(s, next);
    }
  }

  /** It does happen: those two steps are a run. */
  lemma OpeningSoftFaultHappens(config: MatchConfig, luck: Luck)
    requires OpensWithSoftFault(config, luck(0))
    ensures var steps := [ClientHandles(luck), ServerHandles(luck)];
            IsRun(Start(config), steps) && StalledInAgreement(After(Start(config), steps))
  {
    var first := ClientHandles(luck);
    OpeningService(config, first);
    var s := Next(Start(config), first);
    var second := ServerHandles(luck);
    assert IsRun(s, [second]) by {
      assert [second][1..] == [];
    }
    var steps := [first, second];
    assert steps[1..] == [second];
    OpeningSoftFaultStalls(config, steps);
  }

  // ---------- what holds of every run ----------

  function ReportsToServer(messages: seq<ClientMessage>): (reports: seq<PingPongEvent>)
    requires forall message <- messages :: message.ClientEvent?
  {
    seq(|messages|, i requires 0 <= i < |messages| => messages[i].event)
  }

  function ReportsToClient(messages: seq<ServerMessage>): (reports: seq<PingPongEvent>)
    requires forall message <- messages :: message.ServerEvent?
  {
    seq(|messages|, i requires 0 <= i < |messages| => messages[i].event)
  }

  /** The two umpires tell the same story: at once, or once the receiver is shown what it did not see yet. */
  predicate UmpiresAgree(s: System)
    requires SoundSystem(s)
  {
    if s.toServer != [] && forall message <- s.toServer :: message.ClientEvent? then
      InAgreement(s.client.umpire, s.server.umpire, ReportsToServer(s.toServer))
    else if s.toClient != [] && forall message <- s.toClient :: message.ServerEvent? then
      InAgreement(s.server.umpire, s.client.umpire, ReportsToClient(s.toClient))
    else
      || s.server.umpire == Mirror(s.client.umpire)
      || Settled(s.client.umpire, s.server.umpire)
      || Settled(s.server.umpire, s.client.umpire)
  }

  /** No umpire is asked to go on after the end, nobody cancels, quits, contests or complains. */
  predicate NothingGoesWrong(s: System) {
    && s.client.status != Panicked && s.server.status != Panicked
    && (forall message <- s.toServer :: message == EndorsedScore || (message.ClientEvent? && !IsCancellation(message.event)))
    && (forall message <- s.toClient :: message == GameStarted || message == GoodBye
                                        || (message.ServerEvent? && !IsCancellation(message.event)))
  }

  /** The phases a run goes through, whichever the luck of the players. */
  lemma RunsByPhases(config: MatchConfig, steps: seq<Step>)
    requires IsRun(Start(config), steps) && steps != []
    ensures OpensWithSoftFault(config, steps[0].luck(0)) ==>
              || (|steps| == 1 && exists fault :: ClientPlayed(After(Start(config), steps), [fault]))
              || (|steps| == 2 && StalledInAgreement(After(Start(config), steps)))
    ensures !OpensWithSoftFault(config, steps[0].luck(0)) ==> Healthy(After(Start(config), steps))
  {
    OpeningService(config, steps[0]);
    if OpensWithSoftFault(config, steps[0].luck(0)) {
      OpeningSoftFaultStalls(config, steps);
    } else {
      HealthyRun(Next(Start(config), steps[0]), steps[1..]);
    }
  }

  lemma PlayedIsAgreed(s: System, reports: seq<PingPongEvent>)
    requires SoundSystem(s) && reports != []
    requires ClientPlayed(s, reports) || ServerPlayed(s, reports)
    ensures UmpiresAgree(s) && NothingGoesWrong(s)
  {
    if ClientPlayed(s, reports) {
      assert ReportsToServer(s.toServer) == reports;
      NoCancellationIsTrue(s.server.umpire, reports);
    } else {
      assert ReportsToClient(s.toClient) == reports;
      NoCancellationIsTrue(s.client.umpire, reports);
    }
  }

  /** MAIN RESULT -- in every run of two honest parties, the umpires always agree and nothing ever goes wrong. */
  lemma UmpiresAlwaysAgree(config: MatchConfig, steps: seq<Step>)
    requires IsRun(Start(config), steps)
    ensures UmpiresAgree(After(Start(config), steps))
    ensures NothingGoesWrong(After(Start(config), steps))
  {
    var s := After(Start(config), steps);
    if steps == [] {
      assert s.server.umpire == Mirror(s.client.umpire) && GameStarted in s.toClient;
    } else {
      RunsByPhases(config, steps);
      assert Endorsed(s) ==> EndorsedScore in s.toServer;
      assert Over(s) && s.toClient != [] ==> GoodBye in s.toClient;
      if reports :| reports != [] && (ClientPlayed(s, reports) || ServerPlayed(s, reports)) {
        PlayedIsAgreed(s, reports);
      } else if fault :| ClientPlayed(s, [fault]) {
        PlayedIsAgreed(s, [fault]);
      }
    }
  }

  /** At most one direction carries messages. When they are reports, they make one whole batch -- or they are but a
      lone soft fault. */
  predicate OneBatchInFlight(s: System, loneSoftFault: bool) {
    && (s.toClient == [] || s.toServer == [])
    && (s.toServer != [] && s.toServer[0].ClientEvent? ==>
          && (forall message <- s.toServer :: message.ClientEvent?)
          && (IsBatch(ReportsToServer(s.toServer)) || (loneSoftFault && |s.toServer| == 1)))
    && (s.toClient != [] && s.toClient[0].ServerEvent? ==>
          && (forall message <- s.toClient :: message.ServerEvent?)
          && IsBatch(ReportsToClient(s.toClient)))
  }

  lemma PlayedIsOneBatch(s: System, reports: seq<PingPongEvent>)
    requires SoundSystem(s) && IsBatch(reports)
    requires ClientPlayed(s, reports) || ServerPlayed(s, reports)
    ensures OneBatchInFlight(s, false)
  {
    if ClientPlayed(s, reports) {
      assert ReportsToServer(s.toServer) == reports;
    } else {
      assert ReportsToClient(s.toClient) == reports;
    }
  }

  /** MAIN RESULT -- honest play is half-duplex: at most one direction ever carries messages, and what it carries is one
      batch of soft faults and what follows them. Only the opening service may be a soft fault on its own. */
  lemma HalfDuplex(config: MatchConfig, steps: seq<Step>)
    requires IsRun(Start(config), steps)
    ensures OneBatchInFlight(After(Start(config), steps),
                             |steps| == 1 && OpensWithSoftFault(config, steps[0].luck(0)))
  {
    var s := After(Start(config), steps);
    if steps != [] {
      RunsByPhases(config, steps);
      if reports :| IsBatch(reports) && (ClientPlayed(s, reports) || ServerPlayed(s, reports)) {
        PlayedIsOneBatch(s, reports);
      }
    }
  }

  /** MAIN RESULT -- the match goes on until both parties close their dialogs, if and only if the opening service
      is not a soft fault: past that service, a run may stop for lack of messages exactly in that case. */
  lemma StallsExactlyOnOpeningSoftFault(config: MatchConfig, steps: seq<Step>)
    requires IsRun(Start(config), steps) && |steps| >= 2
    ensures Stalled(After(Start(config), steps)) <==> OpensWithSoftFault(config, steps[0].luck(0))
    ensures var s := After(Start(config), steps);
            (forall step :: !Enabled(s, step)) <==> Stalled(s) || (s.client.status == Closed && s.server.status == Closed)
  {
    RunsByPhases(config, steps);
    var s := After(Start(config), steps);
    var luck: Luck := n => PlayerAction(0.0);
    assert s.client.status == Running && s.toClient != [] ==> Enabled(s, ClientHandles(luck));
    assert s.server.status == Running && s.toServer != [] ==> Enabled(s, ServerHandles(luck));
    if Over(s) && Stalled(s) {
      assert false;
    }
  }

  /** MAIN RESULT -- once a party closes its dialog, the match has one winner, both umpires -- had the one told of the
      end been shown the last action -- have the same final score, and the umpire told of it was left one point short. */
  lemma MatchHasOneWinner(config: MatchConfig, steps: seq<Step>)
    requires IsRun(Start(config), steps)
    requires After(Start(config), steps).client.status == Closed || After(Start(config), steps).server.status == Closed
    ensures var s := After(Start(config), steps);
            || OneWinner(config, s.client.umpire, s.server.umpire)
            || OneWinner(config, s.server.umpire, s.client.umpire)
  {
    var s := After(Start(config), steps);
    RunsByPhases(config, steps);
    ConfigIsKept(Start(config), steps);
    if Settled(s.client.umpire, s.server.umpire) {
      SettledHasOneWinner(config, s.client.umpire, s.server.umpire);
    } else {
      SettledHasOneWinner(config, s.server.umpire, s.client.umpire);
    }
  }

  predicate OneWinner(config: MatchConfig, sender: Match, receiver: Match) {
    && sender.state.GameOver? && sender.state.outcome.GracefullyEnded?
    && sender.state.outcome.finalScore == sender.score
    && sender.score.oneself < sender.score.opponent == Goal(config)
    && receiver.score.oneself == Goal(config) - 1
    && receiver.score.opponent == sender.score.oneself
  }

  lemma SettledHasOneWinner(config: MatchConfig, sender: Match, receiver: Match)
    requires Sound(sender) && Sound(receiver) && Settled(sender, receiver)
    requires sender.config == config && receiver.config == config
    ensures OneWinner(config, sender, receiver)
  {
    var report := GameEnded(sender.state.outcome);
    var action := ActionOf(report).value;
    HeadOfAgreement(sender, receiver, [report]);
    PointWinnerServesNext(receiver, Opponent, action);
    assert Replay(Turn(receiver, Opponent, action).0, [report][1..]) == Some(Turn(receiver, Opponent, action).0);
  }

  lemma {:induction false} ConfigIsKept(s: System, steps: seq<Step>)
    requires SoundSystem(s) && IsRun(s, steps)
    ensures After(s, steps).client.umpire.config == s.client.umpire.config
    ensures After(s, steps).server.umpire.config == s.server.umpire.config
    decreases |steps|
  {
    if steps != [] {
      ConfigIsKept(Next(s, steps[0]), steps[1..]);
    }
  }
}
