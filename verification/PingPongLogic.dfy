/** The umpire of one player: it replays every turn of the match, keeps the score and declares the end of the game. */
module PingPongLogic {
  import opened Wrappers
  import opened PingPongModels

  /** A service may be attempted this many times; the last attempt no longer tolerates soft faults. */
  const SERVICING_ATTEMPTS: U32 := 3

  /** What an umpire knows: the abstract value of an `Umpire` object. */
  datatype Match = Match(config: MatchConfig, score: MatchScore, state: GameState, turnPlayer: Player)

  /** The score that ends the match. With a limit of zero, the first point already ends it. */
  function Goal(config: MatchConfig): U32 {
    if config.scoreLimit == 0 then 1 else config.scoreLimit
  }

  predicate Undecided(m: Match) {
    m.score.oneself < Goal(m.config) && m.score.opponent < Goal(m.config)
  }

  /** The facts every umpire keeps from its creation on. */
  predicate Sound(m: Match) {
    && m.score.limit == m.config.scoreLimit
    && m.score.oneself <= Goal(m.config)
    && m.score.opponent <= Goal(m.config)
    && (m.score.oneself < Goal(m.config) || m.score.opponent < Goal(m.config))
    && match m.state
       case WaitingForService(attempt) => 1 <= attempt <= SERVICING_ATTEMPTS && Undecided(m)
       case Rally => Undecided(m)
       case GameOver(GracefullyEnded(finalScore, _, _)) => finalScore == m.score && !Undecided(m)
       case GameOver(GameCancelled(partialScore, _)) => partialScore == m.score
  }

  /** Asking a finished umpire to process a turn of the player it last waited for makes the program panic. */
  predicate WouldPanic(m: Match, player: Player) {
    m.state.GameOver? && m.turnPlayer == player
  }

  function NewMatch(config: MatchConfig, firstServicePlayer: Player): Match {
    Match(config, MatchScore(config.scoreLimit, 0, 0), WaitingForService(1), firstServicePlayer)
  }

  // ---------- the faults an action amounts to ----------

  function ConsiderServiceSoftFault(config: MatchConfig, action: PlayerAction, attempt: U32): Option<Fault> {
    if attempt < SERVICING_ATTEMPTS then
      if action.luckyNumber <= config.mishitProbability then Some(Mishit)
      else if action.luckyNumber <= config.netTouchProbability then Some(NetTouch)
      else None
    else None
  }

  function ConsiderHardFault(config: MatchConfig, action: PlayerAction): Option<Fault> {
    if action.luckyNumber <= config.noBounceProbability then Some(NoBounce)
    else if action.luckyNumber <= config.noRebateProbability then Some(NoRebate)
    else if action.luckyNumber <= config.mishitProbability then Some(Mishit)
    else if action.luckyNumber <= config.preBounceProbability then Some(PreBounce)
    else if action.luckyNumber <= config.netBlockProbability then Some(NetBlock)
    else if action.luckyNumber <= config.ballOutProbability then Some(BallOut)
    else None
  }

  /** The highest lucky number that still incurs in `fault`. */
  function Threshold(config: MatchConfig, fault: Fault): real {
    match fault
    case NoBounce => config.noBounceProbability
    case NoRebate => config.noRebateProbability
    case Mishit => config.mishitProbability
    case PreBounce => config.preBounceProbability
    case NetTouch => config.netTouchProbability
    case NetBlock => config.netBlockProbability
    case BallOut => config.ballOutProbability
  }

  /** The faults considered when servicing and those that cost the point, by decreasing priority. */
  const SOFT_FAULTS: seq<Fault> := [Mishit, NetTouch]
  const HARD_FAULTS: seq<Fault> := [NoBounce, NoRebate, Mishit, PreBounce, NetBlock, BallOut]

  /** The first of `faults` the action incurs in. */
  function FirstIncurred(config: MatchConfig, action: PlayerAction, faults: seq<Fault>): (fault: Option<Fault>)
    ensures fault == None ==> forall f | f in faults :: action.luckyNumber > Threshold(config, f)
    ensures fault.Some? ==> fault.value in faults && action.luckyNumber <= Threshold(config, fault.value)
  {
    if faults == [] then None
    else if action.luckyNumber <= Threshold(config, faults[0]) then Some(faults[0])
    else FirstIncurred(config, action, faults[1..])
  }

  /** Both cascades pick the most prioritary fault incurred in; a net touch only ever matters when servicing. */
  lemma FaultsByPriority(config: MatchConfig, action: PlayerAction, attempt: U32)
    ensures ConsiderServiceSoftFault(config, action, attempt)
         == if attempt < SERVICING_ATTEMPTS then FirstIncurred(config, action, SOFT_FAULTS) else None
    ensures ConsiderHardFault(config, action) == FirstIncurred(config, action, HARD_FAULTS)
  {
    assert SOFT_FAULTS[1..] == [NetTouch];
    var faults := HARD_FAULTS;
    assert faults[1..] == [NoRebate, Mishit, PreBounce, NetBlock, BallOut];
    assert faults[1..][1..] == [Mishit, PreBounce, NetBlock, BallOut];
    assert faults[1..][1..][1..] == [PreBounce, NetBlock, BallOut];
    assert faults[1..][1..][1..][1..] == [NetBlock, BallOut];
    assert faults[1..][1..][1..][1..][1..] == [BallOut];
    var last3 := FirstIncurred(config, action, [PreBounce, NetBlock, BallOut]);
    assert FirstIncurred(config, action, [NetBlock, BallOut])
        == if action.luckyNumber <= config.netBlockProbability then Some(NetBlock) else FirstIncurred(config, action, [BallOut]);
    assert FirstIncurred(config, action, [Mishit, PreBounce, NetBlock, BallOut])
        == if action.luckyNumber <= config.mishitProbability then Some(Mishit) else last3;
    assert FirstIncurred(config, action, [NoRebate, Mishit, PreBounce, NetBlock, BallOut])
        == if action.luckyNumber <= config.noRebateProbability then Some(NoRebate)
           else FirstIncurred(config, action, [Mishit, PreBounce, NetBlock, BallOut]);
  }

  // ---------- one turn, on values ----------

  /** The player loses the point: either the game ends, or the other player serves next. */
  function LosePoint(m: Match, action: PlayerAction, fault: Fault): (r: (Match, PingPongEvent))
    requires Sound(m) && !m.state.GameOver?
  {
    var score := if m.turnPlayer == Ourself then m.score.(opponent := m.score.opponent + 1)
                 else m.score.(oneself := m.score.oneself + 1);
    if score.oneself >= m.config.scoreLimit || score.opponent >= m.config.scoreLimit then
      var outcome := GracefullyEnded(score, action, fault);
      (m.(score := score, state := GameOver(outcome)), GameEnded(outcome))
    else
      var winner := m.turnPlayer.Other();
      (m.(score := score, state := WaitingForService(1), turnPlayer := winner), Score(winner, action, fault))
  }

  /** The umpire's next knowledge, and its verdict, once `player` does `action`. */
  function Turn(m: Match, player: Player, action: PlayerAction): (r: (Match, PingPongEvent))
    requires Sound(m) && !WouldPanic(m, player)
    ensures Sound(r.0) && r.0.config == m.config
  {
    if m.turnPlayer != player then
      var outcome := GameCancelled(m.score, WrongPlayerForTurn);
      (m.(state := GameOver(outcome)), GameEnded(outcome))
    else
      var soft := if m.state.WaitingForService?
                  then ConsiderServiceSoftFault(m.config, action, m.state.attempt) else None;
      if soft.Some? then
        (m.(state := WaitingForService(m.state.attempt + 1)), SoftFault(action, soft.value))
      else
        match ConsiderHardFault(m.config, action)
        case Some(fault) => LosePoint(m, action, fault)
        case None =>
          (m.(state := Rally, turnPlayer := player.Other()),
           TurnFlip(action, if m.state.Rally? then SuccessfulRebate else SuccessfulService))
  }

  /** The soft fault the action amounts to, if the player may still commit one. */
  function SoftFaultOf(m: Match, action: PlayerAction): Option<Fault> {
    if m.state.WaitingForService? && m.state.attempt < SERVICING_ATTEMPTS
    then FirstIncurred(m.config, action, SOFT_FAULTS) else None
  }

  /** The fault that costs the point, if there is no soft one. */
  function HardFaultOf(m: Match, action: PlayerAction): Option<Fault> {
    if SoftFaultOf(m, action).Some? then None else FirstIncurred(m.config, action, HARD_FAULTS)
  }

  /** The verdict names the action and the first fault, by priority, that it incurs in: a soft one allows for another
      attempt; another one costs the point, and the match if that was the last; with none the ball goes over the net. */
  lemma VerdictNamesFirstFault(m: Match, player: Player, action: PlayerAction)
    requires Sound(m) && !WouldPanic(m, player)
    ensures var (m', event) := Turn(m, player, action);
            if player != m.turnPlayer then
              event == GameEnded(GameCancelled(m.score, WrongPlayerForTurn)) && m' == m.(state := GameOver(event.outcome))
            else match SoftFaultOf(m, action)
                 case Some(fault) =>
                   event == SoftFault(action, fault) && m' == m.(state := WaitingForService(m.state.attempt + 1))
                 case None =>
                   match HardFaultOf(m, action)
                   case Some(fault) =>
                     if m'.score.oneself == Goal(m.config) || m'.score.opponent == Goal(m.config)
                     then event == GameEnded(GracefullyEnded(m'.score, action, fault))
                     else event == Score(player.Other(), action, fault)
                   case None =>
                     event == TurnFlip(action, if m.state.Rally? then SuccessfulRebate else SuccessfulService)
  {
    FaultsByPriority(m.config, action, if m.state.WaitingForService? then m.state.attempt else 0);
  }

  // ---------- the same match, seen from the other side of the table ----------

  function MirrorScore(score: MatchScore): MatchScore {
    MatchScore(score.limit, score.opponent, score.oneself)
  }

  function MirrorOutcome(outcome: GameOverState): GameOverState {
    match outcome
    case GracefullyEnded(score, action, fault) => GracefullyEnded(MirrorScore(score), action, fault)
    case GameCancelled(score, rule) => GameCancelled(MirrorScore(score), rule)
  }

  function MirrorState(state: GameState): GameState {
    if state.GameOver? then GameOver(MirrorOutcome(state.outcome)) else state
  }

  function MirrorEvent(event: PingPongEvent): PingPongEvent {
    match event
    case Score(winner, action, fault) => Score(winner.Other(), action, fault)
    case GameEnded(outcome) => GameEnded(MirrorOutcome(outcome))
    case _ => event
  }

  function Mirror(m: Match): Match {
    Match(m.config, MirrorScore(m.score), MirrorState(m.state), m.turnPlayer.Other())
  }

  lemma MirrorTwice(m: Match, event: PingPongEvent)
    ensures Mirror(Mirror(m)) == m
    ensures MirrorEvent(MirrorEvent(event)) == event
    ensures Sound(m) ==> Sound(Mirror(m))
  {
  }

  /** One turn commutes with changing sides, whatever the state, the action and the player said to have acted. */
  lemma MirrorTurn(m: Match, player: Player, action: PlayerAction)
    requires Sound(m) && !WouldPanic(m, player)
    ensures Sound(Mirror(m)) && !WouldPanic(Mirror(m), player.Other())
    ensures Turn(Mirror(m), player.Other(), action)
         == (Mirror(Turn(m, player, action).0), MirrorEvent(Turn(m, player, action).1))
  {
  }

  // ---------- whole matches ----------

  datatype Play = Play(player: Player, action: PlayerAction)

  /** No turn of `plays` makes the umpire panic. */
  predicate Playable(m: Match, plays: seq<Play>)
    requires Sound(m)
    decreases |plays|
  {
    plays == [] || (!WouldPanic(m, plays[0].player) && Playable(Turn(m, plays[0].player, plays[0].action).0, plays[1..]))
  }

  function PlayAll(m: Match, plays: seq<Play>): (r: (Match, seq<PingPongEvent>))
    requires Sound(m) && Playable(m, plays)
    ensures Sound(r.0) && r.0.config == m.config && |r.1| == |plays|
    decreases |plays|
  {
    if plays == [] then (m, [])
    else
      var (m1, event) := Turn(m, plays[0].player, plays[0].action);
      var (m2, events) := PlayAll(m1, plays[1..]);
      (m2, [event] + events)
  }

  function MirrorPlays(plays: seq<Play>): seq<Play> {
    seq(|plays|, i requires 0 <= i < |plays| => Play(plays[i].player.Other(), plays[i].action))
  }

  function MirrorEvents(events: seq<PingPongEvent>): seq<PingPongEvent> {
    seq(|events|, i requires 0 <= i < |events| => MirrorEvent(events[i]))
  }

  /** Two umpires created for opposite sides, told about the same plays, never contradict each other. */
  lemma {:induction false} MirrorMatch(m: Match, plays: seq<Play>)
    requires Sound(m) && Playable(m, plays)
    ensures Sound(Mirror(m)) && Playable(Mirror(m), MirrorPlays(plays))
    ensures PlayAll(Mirror(m), MirrorPlays(plays)).0 == Mirror(PlayAll(m, plays).0)
    ensures PlayAll(Mirror(m), MirrorPlays(plays)).1 == MirrorEvents(PlayAll(m, plays).1)
    decreases |plays|
  {
    MirrorTwice(m, TurnFlip(PlayerAction(0.0), SuccessfulService));
    if plays != [] {
      MirrorTurn(m, plays[0].player, plays[0].action);
      MirrorMatch(Turn(m, plays[0].player, plays[0].action).0, plays[1..]);
      assert MirrorPlays(plays)[1..] == MirrorPlays(plays[1..]);
    }
  }

  // ---------- the score ----------

  /** The points an event awards. */
  function Points(event: PingPongEvent): nat {
    if event.Score? || (event.GameEnded? && event.outcome.GracefullyEnded?) then 1 else 0
  }

  function TotalPoints(events: seq<PingPongEvent>): nat {
    if events == [] then 0 else Points(events[0]) + TotalPoints(events[1..])
  }

  /** A turn awards a point to the opponent of whoever faulted, who serves next unless it was the last point. */
  lemma PointWinnerServesNext(m: Match, player: Player, action: PlayerAction)
    requires Sound(m) && !WouldPanic(m, player)
    ensures var (m', event) := Turn(m, player, action);
            && m'.score.oneself == m.score.oneself + (if player == Opponent then Points(event) else 0)
            && m'.score.opponent == m.score.opponent + (if player == Ourself then Points(event) else 0)
            && (event.Score? ==> && event.pointWinningPlayer == m'.turnPlayer == player.Other()
                                 && m'.state == WaitingForService(1))
            && (event.TurnFlip? ==> m'.state == Rally && m'.turnPlayer == player.Other())
            && (event.SoftFault? ==> m'.state.WaitingForService? && m'.turnPlayer == player)
            && (event.GameEnded? <==> m'.state.GameOver?)
            && (event.GameEnded? ==> m'.state == GameOver(event.outcome))
            && !event.HardFault? && event != TurnFlip(action, SoftFaultService)
            && (event.GameEnded? && event.outcome.GameCancelled? <==> m.turnPlayer != player)
  {
  }

  lemma {:induction false} PointsAddUp(m: Match, plays: seq<Play>)
    requires Sound(m) && Playable(m, plays)
    ensures var (m', events) := PlayAll(m, plays);
            m'.score.oneself + m'.score.opponent == m.score.oneself + m.score.opponent + TotalPoints(events)
    decreases |plays|
  {
    if plays != [] {
      PointWinnerServesNext(m, plays[0].player, plays[0].action);
      PointsAddUp(Turn(m, plays[0].player, plays[0].action).0, plays[1..]);
      var events := PlayAll(m, plays).1;
      assert events[1..] == PlayAll(Turn(m, plays[0].player, plays[0].action).0, plays[1..]).1;
    }
  }

  /** The game was gracefully ended, whatever came after that. */
  predicate EndsGracefully(events: seq<PingPongEvent>) {
    exists event <- events :: event.GameEnded? && event.outcome.GracefullyEnded?
  }

  lemma {:induction false} DecidedByGracefulEnd(m: Match, plays: seq<Play>)
    requires Sound(m) && Playable(m, plays)
    ensures Undecided(PlayAll(m, plays).0) <==> Undecided(m) && !EndsGracefully(PlayAll(m, plays).1)
    decreases |plays|
  {
    if plays != [] {
      var (m1, event) := Turn(m, plays[0].player, plays[0].action);
      DecidedByGracefulEnd(m1, plays[1..]);
      var (m2, events) := PlayAll(m1, plays[1..]);
      assert EndsGracefully([event] + events) <==> EndsGracefully([event]) || EndsGracefully(events);
    }
  }

  /** The accounting of any match, from its very start: points are neither lost nor invented, the goal is never
      exceeded, and the game is gracefully ended exactly when one of the players (never both) reaches it. */
  lemma ScoreConservation(config: MatchConfig, first: Player, plays: seq<Play>)
    requires Playable(NewMatch(config, first), plays)
    ensures var (m, events) := PlayAll(NewMatch(config, first), plays);
            && m.score.oneself + m.score.opponent == TotalPoints(events) <= 2 * Goal(config) - 1
            && m.score.limit == config.scoreLimit
            && m.score.oneself <= Goal(config) && m.score.opponent <= Goal(config)
            && (EndsGracefully(events) <==> m.score.oneself == Goal(config) || m.score.opponent == Goal(config))
            && (m.score.oneself < Goal(config) || m.score.opponent < Goal(config))
            && (EndsGracefully(events) ==> m.state.GameOver?)
            && (m.state.GameOver? && m.state.outcome.GracefullyEnded? ==>
                  && m.state.outcome.finalScore == m.score
                  && (m.score.oneself == Goal(config) <==> m.score.opponent != Goal(config)))
  {
    PointsAddUp(NewMatch(config, first), plays);
    DecidedByGracefulEnd(NewMatch(config, first), plays);
  }

  // ---------- the umpire object ----------

  class Umpire {
    const config: MatchConfig
    var score: MatchScore
    var state: GameState
    var turnPlayer: Player

    function View(): Match
      reads this
    {
      Match(config, score, state, turnPlayer)
    }

    predicate Valid()
      reads this
    {
      Sound(View())
    }

    constructor (config: MatchConfig, firstServicePlayer: Player)
      ensures Valid() && View() == NewMatch(config, firstServicePlayer)
    {
      this.config := config;
      score := MatchScore(config.scoreLimit, 0, 0);
      state := WaitingForService(1);
      turnPlayer := firstServicePlayer;
    }

    method ProcessTurn(player: Player, action: PlayerAction) returns (event: PingPongEvent)
      requires Valid() && !WouldPanic(View(), player)
      modifies this
      ensures Valid() && (View(), event) == Turn(old(View()), player, action)
    {
      if turnPlayer != player {
        var outcome := GameCancelled(score, WrongPlayerForTurn);
        state := GameOver(outcome);
        return GameEnded(outcome);
      }
      match state {
        case WaitingForService(attempt) =>
          var softFault := ConsiderServiceSoftFault(config, action, attempt);
          if softFault.Some? {
            state := WaitingForService(attempt + 1);
            return SoftFault(action, softFault.value);
          }
          var hardFault := ConsiderHardFault(config, action);
          if hardFault.Some? {
            event := ComputeLostScore(hardFault.value, action);
          } else {
            state := Rally;
            event := ProgressOnTheRally(action, SuccessfulService);
          }
        case Rally =>
          var hardFault := ConsiderHardFault(config, action);
          if hardFault.Some? {
            event := ComputeLostScore(hardFault.value, action);
          } else {
            event := ProgressOnTheRally(action, SuccessfulRebate);
          }
      }
    }

    method ProgressOnTheRally(action: PlayerAction, flip: Flip) returns (event: PingPongEvent)
      modifies this`turnPlayer
      ensures turnPlayer == old(turnPlayer).Other() && event == TurnFlip(action, flip)
    {
      NextTurnPlayer();
      event := TurnFlip(action, flip);
    }

    method ComputeLostScore(hardFault: Fault, action: PlayerAction) returns (event: PingPongEvent)
      requires Valid() && !state.GameOver?
      modifies this
      ensures Valid() && (View(), event) == LosePoint(old(View()), action, hardFault)
    {
      match turnPlayer {
        case Ourself => score := score.(opponent := score.opponent + 1);
        case Opponent => score := score.(oneself := score.oneself + 1);
      }
      if score.oneself >= config.scoreLimit || score.opponent >= config.scoreLimit {
        var outcome := GracefullyEnded(score, action, hardFault);
        state := GameOver(outcome);
        event := GameEnded(outcome);
      } else {
        NextTurnPlayer();
        state := WaitingForService(1);
        event := Score(turnPlayer, action, hardFault);
      }
    }

    method NextTurnPlayer()
      modifies this`turnPlayer
      ensures turnPlayer == old(turnPlayer).Other()
    {
      turnPlayer := match turnPlayer case Ourself => Opponent case Opponent => Ourself;
    }
  }
}
