/** What the handlers emit on the sockets, as an output log. */
module Events {
  import opened Wrappers
  import opened Documents

  /** The messages of the `error` events. */
  datatype ErrorKind =
    | GameNotActive        // "Game not active"
    | PlayerNotFound       // "Player not found"
    | QuestionNotFound     // "Question not found"
    | ServerError          // "Server error processing answer: ..."
    | InvalidCode          // "Invalid or expired code"
    | AlreadyJoined        // "You are already in this game"
    | JoinFailed           // "Failed to join room"

  /** One entry of `game_over.results`. */
  datatype PlayerResult = PlayerResult(userId: UserId, score: int, result: Outcome)

  datatype Event =
    | Error(kind: ErrorKind)
    | QueueJoined
    | MatchFound(gameId: GameId)
    | GameStarted(gameId: GameId, players: seq<PlayerState>, questions: seq<QuestionId>, startTime: Time)
    | PrivateCreated(gameId: GameId, code: string)
    | AnswerResult(questionId: QuestionId, isCorrect: bool, points: int, newScore: int)
    | OpponentProgress(to: SocketId, userId: UserId, score: int, questionIndex: nat)
    | PlayerFinished
    | GameOver(gameId: GameId, winnerId: Option<UserId>, results: seq<PlayerResult>)
}
