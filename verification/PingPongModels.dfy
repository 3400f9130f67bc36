/** The values exchanged in a ping-pong match. */
module PingPongModels {

  const U32_LIMIT: int := 0x1_0000_0000

  /** The 32 bit counters of the game: no operation may leave this range. */
  type U32 = x: int | 0 <= x < U32_LIMIT

  datatype Player = Ourself | Opponent {
    function Other(): Player {
      if this == Ourself then Opponent else Ourself
    }
  }

  /** What a player does with the ball: a number in 0.0 .. 1.0, to be compared against the fault probabilities. */
  datatype PlayerAction = PlayerAction(luckyNumber: real)

  datatype Fault = NoBounce | NoRebate | Mishit | PreBounce | NetTouch | NetBlock | BallOut

  datatype Flip = SuccessfulService | SoftFaultService | SuccessfulRebate

  datatype MatchScore = MatchScore(limit: U32, oneself: U32, opponent: U32)

  datatype Rule =
    | WrongPlayerForTurn
    | UmpiresDisagreeOnEvent
    | UmpiresDisagreeOnState
    | UmpiresDisagreeOnSoftFault
    | UmpiresDisagreeOnHardFault
    | UmpiresDisagreeOnExceededServicingAttempts

  datatype GameOverState =
    | GracefullyEnded(finalScore: MatchScore, lastPlayerAction: PlayerAction, lastFault: Fault)
    | GameCancelled(partialScore: MatchScore, brokenRule: Rule)

  datatype GameState =
    | WaitingForService(attempt: U32)
    | Rally
    | GameOver(outcome: GameOverState)

  datatype PingPongEvent =
    | TurnFlip(playerAction: PlayerAction, resultingEvent: Flip)
    | HardFault(playerAction: PlayerAction, resultingFault: Fault)
    | SoftFault(playerAction: PlayerAction, resultingFault: Fault)
    | Score(pointWinningPlayer: Player, lastPlayerAction: PlayerAction, lastFault: Fault)
    | GameEnded(outcome: GameOverState)

  datatype MatchConfig = MatchConfig(
    scoreLimit: U32,
    rallyTimeoutMillis: U32,
    noBounceProbability: real,
    noRebateProbability: real,
    mishitProbability: real,
    preBounceProbability: real,
    netTouchProbability: real,
    netBlockProbability: real,
    ballOutProbability: real)
}
