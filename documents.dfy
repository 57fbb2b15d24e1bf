/**
 * The persisted records the services read and write (the `Question`, `Game` and
 * `UserStats` collections), with the fields as the services use them, and the store
 * that holds the two collections the handlers change.
 */
module Documents {
  import opened Wrappers

  type UserId = string
  type SocketId = string
  type GameId = string
  type QuestionId = string
  /** Milliseconds since the epoch, as `Date.now()` gives them. */
  type Time = int

  // ---------------------------------------------------------------- questions

  datatype QuestionType = MultipleChoice | Code

  /** One entry of a question's `options` array. */
  datatype Choice = Choice(text: Option<string>, isCorrect: bool)

  datatype Question = Question(
    kind: QuestionType,
    topic: string,
    category: string,
    difficulty: string,
    options: seq<Choice>,
    correctAnswer: Option<string>,
    /** `None` for a missing or null `timeLimit`. */
    timeLimit: Option<int>,
    isActive: bool)

  /** Schema default of `Question.timeLimit`, also the scorer's fallback. */
  const DefaultTimeLimit: int := 60

  // -------------------------------------------------------------------- games

  datatype GameType = Public | Private

  /** The status values the services write. */
  datatype Status = Waiting | InProgress | Finished

  datatype Outcome = Win | Loss | Draw

  /** One element of `player.answers`. `answer` is the client's text, absent when not sent. */
  datatype AnswerRecord = AnswerRecord(
    questionId: QuestionId,
    answer: Option<string>,
    isCorrect: bool,
    timeTaken: real,
    submittedAt: Time)

  /** One element of `game.players`. */
  datatype PlayerState = PlayerState(
    userId: UserId,
    socketId: Option<SocketId>,
    score: int,
    answers: seq<AnswerRecord>,
    result: Option<Outcome>,
    ratingChange: Option<int>,
    newRating: Option<int>)

  datatype Game = Game(
    kind: GameType,
    status: Status,
    code: Option<string>,
    players: seq<PlayerState>,
    topic: Option<string>,
    category: string,
    questions: seq<QuestionId>,
    startTime: Option<Time>,
    endTime: Option<Time>)

  /** A player as `Game.create` or `players.push` stores `{ userId, socketId }`: score 0, no answers. */
  function NewPlayer(userId: UserId, socketId: SocketId): PlayerState {
    PlayerState(userId, Some(socketId), 0, [], None, None, None)
  }

  /** `p => p.userId.toString() === u`. */
  function IsUser(u: UserId): PlayerState -> bool {
    (p: PlayerState) => p.userId == u
  }

  /** `p => p.userId.toString() !== u`. */
  function IsOther(u: UserId): PlayerState -> bool {
    (p: PlayerState) => p.userId != u
  }

  // --------------------------------------------------------------- user stats

  /** One entry of `stats.topics`; `None` for a missing or null rating. */
  datatype TopicStats = TopicStats(rating: Option<int>)

  datatype Overall = Overall(rating: int, wins: int, losses: int, gamesPlayed: int)

  /** `topics` holds exactly the topic entries the record has. */
  datatype UserStats = UserStats(overall: Overall, topics: map<string, TopicStats>)

  /** Schema defaults: the overall rating of a new record and the base of a topic rating. */
  const DefaultOverallRating: int := 800
  const DefaultTopicRating: int := 1000

  // -------------------------------------------------------------------- store

  /** The two collections the handlers change, keyed by document id (games) and by user (stats). */
  class Store {
    var games: map<GameId, Game>
    var stats: map<UserId, UserStats>

    constructor (games0: map<GameId, Game>, stats0: map<UserId, UserStats>)
      ensures games == games0 && stats == stats0
    {
      games := games0;
      stats := stats0;
    }
  }
}
