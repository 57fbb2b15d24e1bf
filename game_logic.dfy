/**
 * Answer submission, game completion and rating update. The pure functions state what
 * each step computes; the handlers at the end change the store step by step as the
 * service does and are proved to agree with them.
 */
module GameLogic {
  import opened Wrappers
  import opened Seqs
  import opened Text
  import opened Documents
  import opened Events

  // ------------------------------------------------------------- correctness

  function MarkedCorrect(): Choice -> bool {
    (c: Choice) => c.isCorrect
  }

  /** `(x || "")` on an optional string. */
  function OrEmpty(s: Option<string>): string {
    if s.Some? then s.value else ""
  }

  /**
   * A multiple-choice answer is right when its trimmed text equals the trimmed text of
   * the FIRST option flagged correct (none flagged: wrong); any other question type
   * compares the raw answer with `correctAnswer` by strict equality.
   */
  function IsCorrect(q: Question, answer: Option<string>): (r: bool)
    ensures q.kind == MultipleChoice ==>
      (r <==> exists k :: 0 <= k < |q.options| && q.options[k].isCorrect
                && (forall j :: 0 <= j < k ==> !q.options[j].isCorrect)
                && Trim(OrEmpty(q.options[k].text)) == Trim(OrEmpty(answer)))
    ensures q.kind == Code ==> (r <==> q.correctAnswer == answer)
  {
    match q.kind
    case MultipleChoice =>
      var k := FirstIndex(q.options, MarkedCorrect());
      assert forall k' ::
        (0 <= k' < |q.options| && q.options[k'].isCorrect && forall j :: 0 <= j < k' ==> !q.options[j].isCorrect)
        ==> k' == k by {
        forall k' | 0 <= k' < |q.options| && q.options[k'].isCorrect
                && (forall j :: 0 <= j < k' ==> !q.options[j].isCorrect)
          ensures k' == k
        {
          assert forall j :: 0 <= j < k' ==> !MarkedCorrect()(q.options[j]);
          FirstIndexUnique(q.options, MarkedCorrect(), k');
        }
      }
      k >= 0 && Trim(OrEmpty(q.options[k].text)) == Trim(OrEmpty(answer))
    case Code => q.correctAnswer == answer
  }

  /** A multiple-choice question with no option flagged correct accepts no answer. */
  lemma NoCorrectOptionRejectsAll(q: Question, answer: Option<string>)
    requires q.kind == MultipleChoice
    requires forall k :: 0 <= k < |q.options| ==> !q.options[k].isCorrect
    ensures !IsCorrect(q, answer)
  {
    assert forall k :: 0 <= k < |q.options| ==> !MarkedCorrect()(q.options[k]);
    FirstIndexUnique(q.options, MarkedCorrect(), -1);
  }

  /** Only the first flagged option decides; later flagged options are ignored. */
  lemma FirstFlaggedOptionDecides(q: Question, k: int, answer: Option<string>)
    requires q.kind == MultipleChoice
    requires 0 <= k < |q.options| && q.options[k].isCorrect
    requires forall j :: 0 <= j < k ==> !q.options[j].isCorrect
    ensures IsCorrect(q, answer) <==> Trim(OrEmpty(q.options[k].text)) == Trim(OrEmpty(answer))
  {
    assert forall j :: 0 <= j < k ==> !MarkedCorrect()(q.options[j]);
    FirstIndexUnique(q.options, MarkedCorrect(), k);
  }

  /** White space around a multiple-choice answer never changes the verdict. */
  lemma PaddingDoesNotMatter(q: Question, pre: string, text: string, post: string)
    requires q.kind == MultipleChoice
    requires AllSpace(pre) && AllSpace(post)
    ensures IsCorrect(q, Some(pre + text + post)) == IsCorrect(q, Some(text))
  {
    TrimIgnoresPadding(pre, text, post);
  }

  // ------------------------------------------------------------------ points

  const CorrectBase: int := 100
  const MaxTimeBonus: real := 50.0
  const WrongPenalty: int := -20

  /** `question.timeLimit || 60`: a missing, null or zero limit falls back to 60 seconds. */
  function EffectiveTimeLimit(q: Question): (limit: int)
    ensures limit != 0
    ensures q.timeLimit.Some? && q.timeLimit.value != 0 ==> limit == q.timeLimit.value
    ensures q.timeLimit.None? || q.timeLimit.value == 0 ==> limit == DefaultTimeLimit
  {
    if q.timeLimit.None? || q.timeLimit.value == 0 then DefaultTimeLimit else q.timeLimit.value
  }

  /** `Math.round`: the nearest integer, halves rounded up. */
  function Round(x: real): (r: int)
    ensures x - 0.5 < r as real <= x + 0.5
  {
    (x + 0.5).Floor
  }

  /** `Math.max(0, ((timeLimit - timeTaken) / timeLimit) * 50)`. */
  function TimeBonus(limit: int, timeTaken: real): (b: real)
    requires limit != 0
    ensures b >= 0.0
  {
    var raw := (limit as real - timeTaken) / limit as real * MaxTimeBonus;
    if raw > 0.0 then raw else 0.0
  }

  /**
   * Points for one answer: 100 plus the rounded time bonus when correct, -20 when not.
   * `timeTaken` is whatever the client sent.
   */
  function Points(isCorrect: bool, limit: int, timeTaken: real): (p: int)
    requires limit != 0
    ensures !isCorrect ==> p == WrongPenalty
    ensures isCorrect ==> p >= CorrectBase
    ensures isCorrect && limit > 0 && timeTaken >= limit as real ==> p == CorrectBase
    ensures isCorrect && limit > 0 && timeTaken >= 0.0 ==> p <= CorrectBase + 50
  {
    if isCorrect then
      var b := TimeBonus(limit, timeTaken);
      assert limit > 0 && timeTaken >= limit as real ==> b == 0.0 by {
        if limit > 0 && timeTaken >= limit as real {
          var l := limit as real;
          assert l - timeTaken <= 0.0;
          assert (l - timeTaken) / l <= 0.0;
        }
      }
      assert limit > 0 && timeTaken >= 0.0 ==> b <= MaxTimeBonus by {
        if limit > 0 && timeTaken >= 0.0 {
          var l := limit as real;
          var x := (l - timeTaken) / l;
          assert x * l == l - timeTaken;
          if x > 1.0 {
            MulStrictlyMonotonic(1.0, x, l);
          }
        }
      }
      CorrectBase + Round(b)
    else
      WrongPenalty
  }

  /**
   * Nothing bounds the points of a correct answer: a client that reports a negative
   * time earns as much as it likes.
   */
  lemma NegativeTimeInflatesPoints(limit: int, bound: int)
    requires limit > 0
    ensures exists t: real :: Points(true, limit, t) > bound
  {
    var l := limit as real;
    var m := 1.0 + (if bound > 0 then bound else 0) as real;
    var t := l - m * l;
    var x := (l - t) / l;
    assert x * l == m * l;
    if x < m {
      MulStrictlyMonotonic(x, m, l);
    }
    assert TimeBonus(limit, t) >= m * 50.0;
    assert Points(true, limit, t) > bound;
  }

  lemma MulStrictlyMonotonic(a: real, b: real, c: real)
    requires c > 0.0 && a < b
    ensures a * c < b * c
  {
  }

  /** A worked example: with a 15 s limit, right in 5 s gives 133; wrong gives -20. */
  lemma ScoringExample()
    ensures Points(true, 15, 5.0) == 133
    ensures Points(false, 15, 5.0) == -20
  {
    assert TimeBonus(15, 5.0) == 100.0 / 3.0;
  }

  // --------------------------------------------------------------------- Elo

  const K: int := 32

  /** `actual1`: 1 for a win, 0 for a loss, 0.5 otherwise. */
  function Actual(result: Outcome): real {
    match result
    case Win => 1.0
    case Loss => 0.0
    case Draw => 0.5
  }

  /**
   * An Elo expected-score function: `expected(r1, r2)` stands for
   * `1 / (1 + 10^((r2 - r1) / 400))`, which the source evaluates in floating point and
   * which lies between 0 and 1.
   */
  ghost predicate ExpectedInRange(expected: (int, int) -> real) {
    forall r1: int, r2: int :: 0.0 <= expected(r1, r2) <= 1.0
  }

  /** `Math.round(K * (actual1 - expected1))`. */
  function EloChange(result1: Outcome, expected1: real): (c: int)
    requires 0.0 <= expected1 <= 1.0
    ensures result1 == Win ==> 0 <= c <= K
    ensures result1 == Loss ==> -K <= c <= 0
    ensures result1 == Draw ==> -K / 2 <= c <= K / 2
  {
    Round(K as real * (Actual(result1) - expected1))
  }

  datatype EloPair = EloPair(p1Change: int, p2Change: int)

  /** `calculateElo`: player 1's change, and its negation for player 2. */
  function CalculateElo(rating1: int, rating2: int, result1: Outcome, expected: (int, int) -> real): (e: EloPair)
    requires 0.0 <= expected(rating1, rating2) <= 1.0
    ensures e.p1Change + e.p2Change == 0
    ensures result1 == Win ==> 0 <= e.p1Change <= K && -K <= e.p2Change <= 0
    ensures result1 == Loss ==> -K <= e.p1Change <= 0 && 0 <= e.p2Change <= K
  {
    var c := EloChange(result1, expected(rating1, rating2));
    EloPair(c, -c)
  }

  /**
   * Why player 2's change is the negation of player 1's rather than computed from its own
   * expected score: rounding half up is not symmetric, so two independent roundings need
   * not cancel.
   */
  lemma IndependentRoundingIsNotZeroSum()
    ensures EloChange(Win, 1.0 / 64.0) + EloChange(Loss, 63.0 / 64.0) != 0
  {
    assert EloChange(Win, 1.0 / 64.0) == 32;
    assert EloChange(Loss, 63.0 / 64.0) == -31;
  }

  // ----------------------------------------------------------------- results

  function Opposite(o: Outcome): Outcome {
    match o
    case Win => Loss
    case Loss => Win
    case Draw => Draw
  }

  /** Higher score wins, equal scores draw; player 2 gets the mirror result. */
  function Results(score1: int, score2: int): (r: (Outcome, Outcome))
    ensures r.0 == Win <==> score1 > score2
    ensures r.0 == Loss <==> score2 > score1
    ensures r.0 == Draw <==> score1 == score2
    ensures r.1 == Opposite(r.0)
  {
    if score1 > score2 then (Win, Loss)
    else if score2 > score1 then (Loss, Win)
    else (Draw, Draw)
  }

  /** `winnerId` of `game_over`. */
  function WinnerId(p1: PlayerState, p2: PlayerState): (w: Option<UserId>)
    ensures w.None? <==> p1.result != Some(Win) && p2.result != Some(Win)
    ensures w.Some? ==> (p1.result == Some(Win) && w.value == p1.userId) || (p2.result == Some(Win) && w.value == p2.userId)
  {
    if p1.result == Some(Win) then Some(p1.userId)
    else if p2.result == Some(Win) then Some(p2.userId)
    else None
  }

  // -------------------------------------------------------------- user stats

  /** `(stats.topics[topic].rating || 1000)`. */
  function TopicBase(t: TopicStats): int {
    if t.rating.None? || t.rating.value == 0 then DefaultTopicRating else t.rating.value
  }

  /** Games that were neither a win nor a loss. */
  function Draws(o: Overall): int {
    o.gamesPlayed - o.wins - o.losses
  }

  /** `topic && stats.topics && stats.topics[topic]`. */
  predicate HasTopic(s: UserStats, topic: Option<string>) {
    topic.Some? && topic.value != "" && topic.value in s.topics
  }

  /** `updateUserStats`: the record after one finished game. */
  function StatsAfter(s: UserStats, result: Outcome, change: int, topic: Option<string>): (r: UserStats)
    ensures r.overall.gamesPlayed == s.overall.gamesPlayed + 1
    ensures r.overall.rating == s.overall.rating + change
    ensures r.overall.wins == s.overall.wins + (if result == Win then 1 else 0)
    ensures r.overall.losses == s.overall.losses + (if result == Loss then 1 else 0)
    ensures Draws(r.overall) == Draws(s.overall) + (if result == Draw then 1 else 0)
    ensures r.topics.Keys == s.topics.Keys
    ensures forall t :: t in s.topics && !(HasTopic(s, topic) && t == topic.value) ==> r.topics[t] == s.topics[t]
    ensures HasTopic(s, topic) ==> r.topics[topic.value].rating == Some(TopicBase(s.topics[topic.value]) + change)
  {
    var o := s.overall;
    var o' := Overall(
      o.rating + change,
      if result == Win then o.wins + 1 else o.wins,
      if result == Loss then o.losses + 1 else o.losses,
      o.gamesPlayed + 1);
    if HasTopic(s, topic) then
      var t := topic.value;
      UserStats(o', s.topics[t := TopicStats(Some(TopicBase(s.topics[t]) + change))])
    else
      UserStats(o', s.topics)
  }

  // ---------------------------------------------------------- game completion

  predicate AllAnswered(g: Game, p: PlayerState) {
    |p.answers| == |g.questions|
  }

  /** Fallback when a stats record is missing: no change, rating shown as 1000. */
  const FallbackRating: int := 1000

  datatype Rating = Rating(change1: int, new1: int, change2: int, new2: int, stats: map<UserId, UserStats>)

  /** The rating part of `checkGameFinished` (both stats records found, or the fallback). */
  function RatePlayers(u1: UserId, u2: UserId, r1: Outcome, r2: Outcome, stats: map<UserId, UserStats>,
                       expected: (int, int) -> real, topic: Option<string>): (rt: Rating)
    requires ExpectedInRange(expected)
    ensures rt.change1 + rt.change2 == 0
    ensures rt.stats.Keys == stats.Keys
    ensures u1 in stats && u2 in stats ==>
      rt.new1 == stats[u1].overall.rating + rt.change1 && rt.new2 == stats[u2].overall.rating + rt.change2
    ensures !(u1 in stats && u2 in stats) ==>
      rt.change1 == 0 && rt.new1 == FallbackRating && rt.new2 == FallbackRating && rt.stats == stats
  {
    if u1 in stats && u2 in stats then
      var s1, s2 := stats[u1], stats[u2];
      var elo := CalculateElo(s1.overall.rating, s2.overall.rating, r1, expected);
      Rating(elo.p1Change, s1.overall.rating + elo.p1Change, elo.p2Change, s2.overall.rating + elo.p2Change,
             stats[u1 := StatsAfter(s1, r1, elo.p1Change, topic)][u2 := StatsAfter(s2, r2, elo.p2Change, topic)])
    else
      Rating(0, FallbackRating, 0, FallbackRating, stats)
  }

  datatype FinishStep = FinishStep(game: Game, stats: map<UserId, UserStats>, events: seq<Event>)

  /**
   * `checkGameFinished`: when the first two players have both answered as many questions
   * as the game has, the game is finished, results and rating changes are recorded on the
   * players, both stats records are updated and `game_over` is emitted. A game in
   * progress always has two players (a public game is created with two, a private room
   * starts only once a second player joins); for fewer the source would throw, and the
   * model leaves everything unchanged.
   */
  function CheckFinished(g: Game, gameId: GameId, stats: map<UserId, UserStats>,
                         expected: (int, int) -> real, now: Time): (f: FinishStep)
    requires ExpectedInRange(expected)
    ensures SamePlay(g, f.game)
    ensures f.stats.Keys == stats.Keys && |f.events| <= 1
  {
    if |g.players| < 2 then FinishStep(g, stats, [])
    else
      var p1, p2 := g.players[0], g.players[1];
      if !(AllAnswered(g, p1) && AllAnswered(g, p2)) then FinishStep(g, stats, [])
      else
        var rs := Results(p1.score, p2.score);
        var rt := RatePlayers(p1.userId, p2.userId, rs.0, rs.1, stats, expected, g.topic);
        var q1 := p1.(result := Some(rs.0), ratingChange := Some(rt.change1), newRating := Some(rt.new1));
        var q2 := p2.(result := Some(rs.1), ratingChange := Some(rt.change2), newRating := Some(rt.new2));
        var g' := g.(status := Finished, endTime := Some(now), players := g.players[0 := q1][1 := q2]);
        FinishStep(g', rt.stats,
          [GameOver(gameId, WinnerId(q1, q2), [PlayerResult(q1.userId, q1.score, rs.0), PlayerResult(q2.userId, q2.score, rs.1)])])
  }

  /** Finishing records results and ratings only: who played, the scores and the answers stay. */
  predicate SamePlay(g: Game, h: Game) {
    && h.questions == g.questions
    && h.topic == g.topic
    && |h.players| == |g.players|
    && forall j :: 0 <= j < |g.players| ==>
         h.players[j].userId == g.players[j].userId
         && h.players[j].socketId == g.players[j].socketId
         && h.players[j].score == g.players[j].score
         && h.players[j].answers == g.players[j].answers
  }

  /** The game finishes exactly when both players have answered every question. */
  lemma {:induction false} FinishesOnlyWhenAllAnswered(g: Game, gameId: GameId, stats: map<UserId, UserStats>,
                                      expected: (int, int) -> real, now: Time)
    requires ExpectedInRange(expected)
    ensures var f := CheckFinished(g, gameId, stats, expected, now);
      && SamePlay(g, f.game)
      && (if |g.players| >= 2 && AllAnswered(g, g.players[0]) && AllAnswered(g, g.players[1])
          then f.game.status == Finished && f.game.endTime == Some(now) && |f.events| == 1
          else f == FinishStep(g, stats, []))
  {
  }

  /**
   * A finished game's results: strictly higher score wins, equal scores draw for both,
   * and `winnerId` is absent exactly on a draw.
   */
  lemma FinishedResults(g: Game, gameId: GameId, stats: map<UserId, UserStats>,
                        expected: (int, int) -> real, now: Time)
    requires ExpectedInRange(expected)
    requires |g.players| >= 2 && AllAnswered(g, g.players[0]) && AllAnswered(g, g.players[1])
    ensures var f := CheckFinished(g, gameId, stats, expected, now);
      var s1, s2 := g.players[0].score, g.players[1].score;
      && f.game.players[0].result == Some(if s1 > s2 then Win else if s1 < s2 then Loss else Draw)
      && f.game.players[1].result == Some(if s2 > s1 then Win else if s2 < s1 then Loss else Draw)
      && f.events[0].GameOver?
      && (f.events[0].winnerId.None? <==> s1 == s2)
      && (s1 > s2 ==> f.events[0].winnerId == Some(g.players[0].userId))
      && (s2 > s1 ==> f.events[0].winnerId == Some(g.players[1].userId))
  {
  }

  /**
   * Rating changes of a finished game cancel out; each new rating is the old one plus the
   * change, or 1000 with no change when a stats record is missing; the winner gains at most
   * 32 and the loser loses at most 32.
   */
  lemma FinishedRatings(g: Game, gameId: GameId, stats: map<UserId, UserStats>,
                        expected: (int, int) -> real, now: Time)
    requires ExpectedInRange(expected)
    requires |g.players| >= 2 && AllAnswered(g, g.players[0]) && AllAnswered(g, g.players[1])
    ensures var f := CheckFinished(g, gameId, stats, expected, now);
      var p1, p2 := f.game.players[0], f.game.players[1];
      var u1, u2 := g.players[0].userId, g.players[1].userId;
      && p1.ratingChange.Some? && p2.ratingChange.Some? && p1.newRating.Some? && p2.newRating.Some?
      && p1.ratingChange.value + p2.ratingChange.value == 0
      && (u1 in stats && u2 in stats ==>
            && p1.newRating.value == stats[u1].overall.rating + p1.ratingChange.value
            && p2.newRating.value == stats[u2].overall.rating + p2.ratingChange.value)
      && (!(u1 in stats && u2 in stats) ==>
            p1.ratingChange.value == 0 && p1.newRating.value == FallbackRating && p2.newRating.value == FallbackRating)
      && (p1.result == Some(Win) ==> 0 <= p1.ratingChange.value <= K)
      && (p1.result == Some(Loss) ==> -K <= p1.ratingChange.value <= 0)
  {
  }

  /**
   * Finishing a game between two different players leaves the sum of their overall
   * ratings as it was and touches no other user's record.
   */
  lemma FinishConservesRating(g: Game, gameId: GameId, stats: map<UserId, UserStats>,
                              expected: (int, int) -> real, now: Time)
    requires ExpectedInRange(expected)
    requires |g.players| >= 2
    requires g.players[0].userId != g.players[1].userId
    ensures var f := CheckFinished(g, gameId, stats, expected, now);
      var u1, u2 := g.players[0].userId, g.players[1].userId;
      && f.stats.Keys == stats.Keys
      && (forall u :: u in stats && u != u1 && u != u2 ==> f.stats[u] == stats[u])
      && (u1 in stats && u2 in stats ==>
            f.stats[u1].overall.rating + f.stats[u2].overall.rating
            == stats[u1].overall.rating + stats[u2].overall.rating)
  {
  }

  // -------------------------------------------------------- answer submission

  /** The `submit_answer` payload with the socket's user. */
  datatype Submission = Submission(
    userId: Option<UserId>,
    gameId: GameId,
    questionId: QuestionId,
    answer: Option<string>,
    timeTaken: real)

  datatype Step = Step(games: map<GameId, Game>, stats: map<UserId, UserStats>, events: seq<Event>)

  function ForQuestion(q: QuestionId): AnswerRecord -> bool {
    (a: AnswerRecord) => a.questionId == q
  }

  /**
   * The reply to a repeated answer: the stored verdict, points recomputed from the stored
   * time and the question's current limit, and the current score. Looking up a correct
   * answer's question that no longer exists throws, which the handler reports as a
   * server error.
   */
  function Resend(bank: map<QuestionId, Question>, questionId: QuestionId, existing: AnswerRecord, score: int): seq<Event> {
    if !existing.isCorrect then [AnswerResult(questionId, false, WrongPenalty, score)]
    else if questionId in bank then
      [AnswerResult(questionId, true, Points(true, EffectiveTimeLimit(bank[questionId]), existing.timeTaken), score)]
    else [Error(ServerError)]
  }

  /** `player.score += points; player.answers.push(record)` on player `i`. */
  function ApplyAnswer(g: Game, i: int, rec: AnswerRecord, points: int): Game
    requires 0 <= i < |g.players|
  {
    var p := g.players[i];
    g.(players := g.players[i := p.(score := p.score + points, answers := p.answers + [rec])])
  }

  /** `opponent_progress` to the first other player, when it has a socket id. */
  function Progress(g: Game, u: UserId, p: PlayerState): seq<Event> {
    var k := FirstIndex(g.players, IsOther(u));
    if k >= 0 && g.players[k].socketId.Some? && g.players[k].socketId.value != "" then
      [OpponentProgress(g.players[k].socketId.value, u, p.score, |p.answers|)]
    else []
  }

  /** A submission that passes every check and answers a question for the first time. */
  predicate IsFresh(games: map<GameId, Game>, bank: map<QuestionId, Question>, sub: Submission) {
    && sub.userId.Some? && sub.userId.value != ""
    && sub.gameId in games && games[sub.gameId].status == InProgress
    && FirstIndex(games[sub.gameId].players, IsUser(sub.userId.value)) >= 0
    && FirstIndex(games[sub.gameId].players[FirstIndex(games[sub.gameId].players, IsUser(sub.userId.value))].answers,
                  ForQuestion(sub.questionId)) < 0
    && sub.questionId in bank
  }

  /** `handleSubmitAnswer`, as one atomic step over the store. */
  function Submit(games: map<GameId, Game>, stats: map<UserId, UserStats>, bank: map<QuestionId, Question>,
                  expected: (int, int) -> real, sub: Submission, now: Time): (s: Step)
    requires ExpectedInRange(expected)
    ensures s.games.Keys == games.Keys
    ensures forall id :: id in games && id != sub.gameId ==> s.games[id] == games[id]
    ensures !IsFresh(games, bank, sub) ==> s.games == games && s.stats == stats
  {
    if sub.userId.None? || sub.userId.value == "" then Step(games, stats, [])
    else
      var u := sub.userId.value;
      if sub.gameId !in games || games[sub.gameId].status != InProgress then Step(games, stats, [Error(GameNotActive)])
      else
        var g := games[sub.gameId];
        var i := FirstIndex(g.players, IsUser(u));
        if i < 0 then Step(games, stats, [Error(PlayerNotFound)])
        else
          var p := g.players[i];
          var a := FirstIndex(p.answers, ForQuestion(sub.questionId));
          if a >= 0 then Step(games, stats, Resend(bank, sub.questionId, p.answers[a], p.score))
          else if sub.questionId !in bank then Step(games, stats, [Error(QuestionNotFound)])
          else Accept(games, stats, bank, expected, sub, i, now)
  }

  /**
   * A first answer from player `i`: scored, recorded and saved, then reported to the
   * player and the opponent; the player's last answer triggers the completion check.
   */
  function Accept(games: map<GameId, Game>, stats: map<UserId, UserStats>, bank: map<QuestionId, Question>,
                  expected: (int, int) -> real, sub: Submission, i: int, now: Time): (s: Step)
    requires ExpectedInRange(expected)
    requires sub.gameId in games && 0 <= i < |games[sub.gameId].players| && sub.questionId in bank
    ensures sub.gameId in s.games && s.games == games[sub.gameId := s.games[sub.gameId]]
    ensures |s.events| >= 1 && s.events[0].AnswerResult? && s.events[0].questionId == sub.questionId
  {
    var g := games[sub.gameId];
    var u := g.players[i].userId;
    var q := bank[sub.questionId];
    var ok := IsCorrect(q, sub.answer);
    var pts := Points(ok, EffectiveTimeLimit(q), sub.timeTaken);
    var g' := ApplyAnswer(g, i, AnswerRecord(sub.questionId, sub.answer, ok, sub.timeTaken, now), pts);
    var p' := g'.players[i];
    var shown := [AnswerResult(sub.questionId, ok, pts, p'.score)] + Progress(g', u, p');
    if AllAnswered(g', p') then
      var f := CheckFinished(g', sub.gameId, stats, expected, now);
      Step(games[sub.gameId := f.game], f.stats, shown + [PlayerFinished] + f.events)
    else
      Step(games[sub.gameId := g'], stats, shown)
  }

  /** A submission that fails a check, or repeats an answer, changes nothing. */
  lemma RejectedChangesNothing(games: map<GameId, Game>, stats: map<UserId, UserStats>, bank: map<QuestionId, Question>,
                               expected: (int, int) -> real, sub: Submission, now: Time)
    requires ExpectedInRange(expected)
    requires !IsFresh(games, bank, sub)
    ensures var s := Submit(games, stats, bank, expected, sub, now);
      && s.games == games && s.stats == stats && |s.events| <= 1
      && (sub.userId.Some? && sub.userId.value != "" && (sub.gameId !in games || games[sub.gameId].status != InProgress)
          ==> s.events == [Error(GameNotActive)])
      && (sub.userId.Some? && sub.userId.value != "" && sub.gameId in games && games[sub.gameId].status == InProgress
          && (forall k :: 0 <= k < |games[sub.gameId].players| ==> games[sub.gameId].players[k].userId != sub.userId.value)
          ==> s.events == [Error(PlayerNotFound)])
  {
  }

  /**
   * A fresh answer adds exactly its points to the submitter's score and appends exactly one
   * record; every other player's score and answers are untouched, finishing or not.
   */
  lemma {:induction false} FreshAnswerApplied(games: map<GameId, Game>, stats: map<UserId, UserStats>,
                                              bank: map<QuestionId, Question>, expected: (int, int) -> real,
                                              sub: Submission, now: Time)
    requires ExpectedInRange(expected)
    requires IsFresh(games, bank, sub)
    ensures var i := FirstIndex(games[sub.gameId].players, IsUser(sub.userId.value));
      Applied(games, Submit(games, stats, bank, expected, sub, now), bank, sub, i, now)
  {
    var i := FirstIndex(games[sub.gameId].players, IsUser(sub.userId.value));
    assert Submit(games, stats, bank, expected, sub, now) == Accept(games, stats, bank, expected, sub, i, now);
    AcceptApplied(games, stats, bank, expected, sub, i, now);
  }

  /** What a first answer from player `i` does to the games, as `FreshAnswerApplied` states it. */
  ghost predicate Applied(games: map<GameId, Game>, s: Step, bank: map<QuestionId, Question>, sub: Submission, i: int, now: Time)
    requires sub.gameId in games && 0 <= i < |games[sub.gameId].players| && sub.questionId in bank
  {
    var g := games[sub.gameId];
    var q := bank[sub.questionId];
    var ok := IsCorrect(q, sub.answer);
    var pts := Points(ok, EffectiveTimeLimit(q), sub.timeTaken);
    && s.games.Keys == games.Keys
    && (forall id :: id in games && id != sub.gameId ==> s.games[id] == games[id])
    && |s.games[sub.gameId].players| == |g.players|
    && s.games[sub.gameId].players[i].score == g.players[i].score + pts
    && s.games[sub.gameId].players[i].answers
       == g.players[i].answers + [AnswerRecord(sub.questionId, sub.answer, ok, sub.timeTaken, now)]
    && (forall j :: 0 <= j < |g.players| && j != i ==>
          s.games[sub.gameId].players[j].score == g.players[j].score
          && s.games[sub.gameId].players[j].answers == g.players[j].answers)
    && |s.events| >= 1
    && s.events[0] == AnswerResult(sub.questionId, ok, pts, g.players[i].score + pts)
  }

  lemma {:induction false} AcceptApplied(games: map<GameId, Game>, stats: map<UserId, UserStats>,
                                         bank: map<QuestionId, Question>, expected: (int, int) -> real,
                                         sub: Submission, i: int, now: Time)
    requires ExpectedInRange(expected)
    requires sub.gameId in games && 0 <= i < |games[sub.gameId].players| && sub.questionId in bank
    ensures Applied(games, Accept(games, stats, bank, expected, sub, i, now), bank, sub, i, now)
  {
    var g := games[sub.gameId];
    var q := bank[sub.questionId];
    var ok := IsCorrect(q, sub.answer);
    var pts := Points(ok, EffectiveTimeLimit(q), sub.timeTaken);
    var g' := ApplyAnswer(g, i, AnswerRecord(sub.questionId, sub.answer, ok, sub.timeTaken, now), pts);
    var s := Accept(games, stats, bank, expected, sub, i, now);
    AcceptStores(games, stats, bank, expected, sub, i, now);
    var h := s.games[sub.gameId];
    forall j | 0 <= j < |g.players| && j != i
      ensures h.players[j].score == g.players[j].score && h.players[j].answers == g.players[j].answers
    {
      assert g'.players[j] == g.players[j];
    }
  }

  /** A first answer stores a game that differs from the answered one only in results and ratings. */
  lemma AcceptStores(games: map<GameId, Game>, stats: map<UserId, UserStats>,
                     bank: map<QuestionId, Question>, expected: (int, int) -> real,
                     sub: Submission, i: int, now: Time)
    requires ExpectedInRange(expected)
    requires sub.gameId in games && 0 <= i < |games[sub.gameId].players| && sub.questionId in bank
    ensures var q := bank[sub.questionId];
      var ok := IsCorrect(q, sub.answer);
      var pts := Points(ok, EffectiveTimeLimit(q), sub.timeTaken);
      var g' := ApplyAnswer(games[sub.gameId], i, AnswerRecord(sub.questionId, sub.answer, ok, sub.timeTaken, now), pts);
      var s := Accept(games, stats, bank, expected, sub, i, now);
      && sub.gameId in s.games && s.games == games[sub.gameId := s.games[sub.gameId]]
      && SamePlay(g', s.games[sub.gameId])
      && |s.events| >= 1 && s.events[0] == AnswerResult(sub.questionId, ok, pts, g'.players[i].score)
  {
    var q := bank[sub.questionId];
    var ok := IsCorrect(q, sub.answer);
    var pts := Points(ok, EffectiveTimeLimit(q), sub.timeTaken);
    var g' := ApplyAnswer(games[sub.gameId], i, AnswerRecord(sub.questionId, sub.answer, ok, sub.timeTaken, now), pts);
    FinishesOnlyWhenAllAnswered(g', sub.gameId, stats, expected, now);
  }

  /** Changing player `i` to a player with the same user id keeps `findIndex` by user. */
  lemma FindUserAfterUpdate(players: seq<PlayerState>, i: int, p: PlayerState, u: UserId)
    requires 0 <= i < |players| && p.userId == players[i].userId
    requires FirstIndex(players, IsUser(u)) == i
    ensures FirstIndex(players[i := p], IsUser(u)) == i
  {
    var ps := players[i := p];
    assert forall k :: 0 <= k < i ==> ps[k] == players[k];
    FirstIndexUnique(ps, IsUser(u), i);
  }

  /**
   * Submitting the same question again, while the game is still in progress, changes
   * nothing and re-sends exactly the first reply: same verdict, same points, same score.
   */
  lemma {:induction false} ResubmissionIsIdempotent(games: map<GameId, Game>, stats: map<UserId, UserStats>,
                                                    bank: map<QuestionId, Question>, expected: (int, int) -> real,
                                                    sub: Submission, now: Time, again: Submission, later: Time)
    requires ExpectedInRange(expected)
    requires IsFresh(games, bank, sub)
    requires again.userId == sub.userId && again.gameId == sub.gameId && again.questionId == sub.questionId
    requires var s := Submit(games, stats, bank, expected, sub, now); s.games[sub.gameId].status == InProgress
    ensures var s := Submit(games, stats, bank, expected, sub, now);
      Submit(s.games, s.stats, bank, expected, again, later) == Step(s.games, s.stats, [s.events[0]])
  {
    var g := games[sub.gameId];
    var u := sub.userId.value;
    var i := FirstIndex(g.players, IsUser(u));
    var q := bank[sub.questionId];
    var ok := IsCorrect(q, sub.answer);
    var pts := Points(ok, EffectiveTimeLimit(q), sub.timeTaken);
    var rec := AnswerRecord(sub.questionId, sub.answer, ok, sub.timeTaken, now);
    var g' := ApplyAnswer(g, i, rec, pts);
    var p' := g'.players[i];
    var s := Submit(games, stats, bank, expected, sub, now);
    assert s == Accept(games, stats, bank, expected, sub, i, now);
    AcceptWhilePlaying(games, stats, bank, expected, sub, i, now);
    assert s.games[sub.gameId] == g';
    FindUserAfterUpdate(g.players, i, p', u);
    var old_answers := g.players[i].answers;
    assert p'.answers == old_answers + [rec];
    assert forall k :: 0 <= k < |old_answers| ==> p'.answers[k] == old_answers[k];
    FirstIndexUnique(p'.answers, ForQuestion(sub.questionId), |old_answers|);
    assert Submit(s.games, s.stats, bank, expected, again, later)
        == Step(s.games, s.stats, Resend(bank, sub.questionId, rec, p'.score));
    assert Resend(bank, sub.questionId, rec, p'.score) == [s.events[0]];
  }

  /** A first answer that leaves the game in progress stores exactly the updated game and touches no statistics. */
  lemma AcceptWhilePlaying(games: map<GameId, Game>, stats: map<UserId, UserStats>,
                           bank: map<QuestionId, Question>, expected: (int, int) -> real,
                           sub: Submission, i: int, now: Time)
    requires ExpectedInRange(expected)
    requires sub.gameId in games && 0 <= i < |games[sub.gameId].players| && sub.questionId in bank
    requires Accept(games, stats, bank, expected, sub, i, now).games[sub.gameId].status == InProgress
    ensures var q := bank[sub.questionId];
      var ok := IsCorrect(q, sub.answer);
      var pts := Points(ok, EffectiveTimeLimit(q), sub.timeTaken);
      var g' := ApplyAnswer(games[sub.gameId], i, AnswerRecord(sub.questionId, sub.answer, ok, sub.timeTaken, now), pts);
      var s := Accept(games, stats, bank, expected, sub, i, now);
      && s.games == games[sub.gameId := g'] && s.stats == stats
      && |s.events| >= 1 && s.events[0] == AnswerResult(sub.questionId, ok, pts, g'.players[i].score)
  {
    var q := bank[sub.questionId];
    var ok := IsCorrect(q, sub.answer);
    var pts := Points(ok, EffectiveTimeLimit(q), sub.timeTaken);
    var g' := ApplyAnswer(games[sub.gameId], i, AnswerRecord(sub.questionId, sub.answer, ok, sub.timeTaken, now), pts);
    FinishesOnlyWhenAllAnswered(g', sub.gameId, stats, expected, now);
  }

  // ---------------------------------------------------------------- handlers

  /** `updateUserStats` on a record loaded earlier, then `stats.save()`. */
  method UpdateUserStats(store: Store, userId: UserId, loaded: UserStats, result: Outcome, change: int, topic: Option<string>)
    modifies store
    ensures store.stats == old(store.stats)[userId := StatsAfter(loaded, result, change, topic)]
    ensures store.games == old(store.games)
  {
    var o := loaded.overall;
    o := o.(gamesPlayed := o.gamesPlayed + 1);
    o := o.(rating := o.rating + change);
    if result == Win {
      o := o.(wins := o.wins + 1);
    } else if result == Loss {
      o := o.(losses := o.losses + 1);
    }
    var topics := loaded.topics;
    if topic.Some? && topic.value != "" && topic.value in topics {
      topics := topics[topic.value := TopicStats(Some(TopicBase(topics[topic.value]) + change))];
    }
    store.stats := store.stats[userId := UserStats(o, topics)];
  }

  /** `checkGameFinished` on the game just saved under `gameId`. */
  method CheckGameFinished(store: Store, gameId: GameId, expected: (int, int) -> real, now: Time) returns (events: seq<Event>)
    requires gameId in store.games
    requires ExpectedInRange(expected)
    modifies store
    ensures var f := CheckFinished(old(store.games)[gameId], gameId, old(store.stats), expected, now);
      store.games == old(store.games)[gameId := f.game] && store.stats == f.stats && events == f.events
  {
    var game := store.games[gameId];
    if |game.players| < 2 {
      return [];
    }
    var p1, p2 := game.players[0], game.players[1];
    var p1Done := |p1.answers| == |game.questions|;
    var p2Done := |p2.answers| == |game.questions|;
    if !(p1Done && p2Done) {
      return [];
    }
    var r1, r2 := Draw, Draw;
    if p1.score > p2.score {
      r1, r2 := Win, Loss;
    } else if p2.score > p1.score {
      r1, r2 := Loss, Win;
    }
    assert (r1, r2) == Results(p1.score, p2.score);
    ghost var rt := RatePlayers(p1.userId, p2.userId, r1, r2, store.stats, expected, game.topic);
    p1 := p1.(result := Some(r1));
    p2 := p2.(result := Some(r2));
    if p1.userId in store.stats && p2.userId in store.stats {
      var p1Stats, p2Stats := store.stats[p1.userId], store.stats[p2.userId];
      var elo := CalculateElo(p1Stats.overall.rating, p2Stats.overall.rating, r1, expected);
      p1 := p1.(ratingChange := Some(elo.p1Change), newRating := Some(p1Stats.overall.rating + elo.p1Change));
      p2 := p2.(ratingChange := Some(elo.p2Change), newRating := Some(p2Stats.overall.rating + elo.p2Change));
      UpdateUserStats(store, p1.userId, p1Stats, r1, elo.p1Change, game.topic);
      UpdateUserStats(store, p2.userId, p2Stats, r2, elo.p2Change, game.topic);
      assert store.stats == rt.stats;
    } else {
      p1 := p1.(ratingChange := Some(0), newRating := Some(FallbackRating));
      p2 := p2.(ratingChange := Some(0), newRating := Some(FallbackRating));
    }
    assert p1.ratingChange == Some(rt.change1) && p1.newRating == Some(rt.new1);
    assert p2.ratingChange == Some(rt.change2) && p2.newRating == Some(rt.new2);
    game := game.(status := Finished, endTime := Some(now), players := game.players[0 := p1][1 := p2]);
    store.games := store.games[gameId := game];
    events := [GameOver(gameId, WinnerId(p1, p2), [PlayerResult(p1.userId, p1.score, r1), PlayerResult(p2.userId, p2.score, r2)])];
  }

  /** `handleSubmitAnswer` for the socket's user; `expected` is the Elo expected score. */
  method SubmitAnswer(store: Store, bank: map<QuestionId, Question>, expected: (int, int) -> real,
                      sub: Submission, now: Time) returns (events: seq<Event>)
    requires ExpectedInRange(expected)
    modifies store
    ensures Step(store.games, store.stats, events)
            == Submit(old(store.games), old(store.stats), bank, expected, sub, now)
  {
    if sub.userId.None? || sub.userId.value == "" {
      return [];
    }
    var userId := sub.userId.value;
    if sub.gameId !in store.games || store.games[sub.gameId].status != InProgress {
      return [Error(GameNotActive)];
    }
    var game := store.games[sub.gameId];
    var i := FindIndex(game.players, IsUser(userId));
    if i < 0 {
      return [Error(PlayerNotFound)];
    }
    var player := game.players[i];
    var a := FindIndex(player.answers, ForQuestion(sub.questionId));
    if a >= 0 {
      var existing := player.answers[a];
      if existing.isCorrect {
        if sub.questionId !in bank {
          return [Error(ServerError)];
        }
        var points := Points(true, EffectiveTimeLimit(bank[sub.questionId]), existing.timeTaken);
        return [AnswerResult(sub.questionId, true, points, player.score)];
      }
      return [AnswerResult(sub.questionId, false, WrongPenalty, player.score)];
    }
    if sub.questionId !in bank {
      return [Error(QuestionNotFound)];
    }
    events := RecordAnswer(store, bank, expected, sub, i, now);
  }

  /** The `opponent_progress` notice to the first other player, when it has a socket id. */
  method NotifyOpponent(game: Game, userId: UserId, player: PlayerState) returns (events: seq<Event>)
    ensures events == Progress(game, userId, player)
  {
    events := [];
    var k := FindIndex(game.players, IsOther(userId));
    if k >= 0 && game.players[k].socketId.Some? && game.players[k].socketId.value != "" {
      events := [OpponentProgress(game.players[k].socketId.value, userId, player.score, |player.answers|)];
    }
  }

  /** The part of `handleSubmitAnswer` after every check has passed. */
  method RecordAnswer(store: Store, bank: map<QuestionId, Question>, expected: (int, int) -> real,
                      sub: Submission, i: int, now: Time) returns (events: seq<Event>)
    requires ExpectedInRange(expected)
    requires sub.gameId in store.games && 0 <= i < |store.games[sub.gameId].players| && sub.questionId in bank
    modifies store
    ensures Step(store.games, store.stats, events)
            == Accept(old(store.games), old(store.stats), bank, expected, sub, i, now)
  {
    var game := store.games[sub.gameId];
    var player := game.players[i];
    var userId := player.userId;
    var question := bank[sub.questionId];
    var isCorrect := IsCorrect(question, sub.answer);
    var points := Points(isCorrect, EffectiveTimeLimit(question), sub.timeTaken);
    ghost var rec := AnswerRecord(sub.questionId, sub.answer, isCorrect, sub.timeTaken, now);
    player := player.(score := player.score + points);
    player := player.(answers := player.answers + [AnswerRecord(sub.questionId, sub.answer, isCorrect, sub.timeTaken, now)]);
    game := game.(players := game.players[i := player]);
    assert game == ApplyAnswer(old(store.games)[sub.gameId], i, rec, points);
    store.games := store.games[sub.gameId := game];
    var progress := NotifyOpponent(game, userId, player);
    var shown := [AnswerResult(sub.questionId, isCorrect, points, player.score)] + progress;
    events := shown;
    if |player.answers| == |game.questions| {
      ghost var f := CheckFinished(game, sub.gameId, store.stats, expected, now);
      var finished := CheckGameFinished(store, sub.gameId, expected, now);
      assert store.games == old(store.games)[sub.gameId := f.game];
      events := shown + [PlayerFinished] + finished;
    }
  }
}
