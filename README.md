# Quiz-duel backend: game logic model

This project models the game core of Apex, a real-time quiz-duel server. Two players
answer the same short set of questions, and the faster correct answers score more. The
model covers:

- **Public matchmaking** (`Matchmaking`): the in-memory queue `publicQueue`, a `Queue`
  class changed in place.
  - A join removes the joiner's old entry, then scans for the first compatible opponent.
    Compatible means the same category, equal topics or either side `RANDOM`, and
    another user.
  - The opponent must still have a live connection. If it has none, the opponent is
    dropped and the joiner is re-queued.
  - With no opponent, the joiner is appended.
  - A disconnect removes the socket's first entry.
  - A live match creates a public game with questions drawn through the question filter
    of `selectQuestions`.
- **Private rooms** (`Matchmaking`): a room is created WAITING under a six-digit
  upper-case hexadecimal code. Joining by code starts the game, or fails with
  "Invalid or expired code", "You are already in this game", or "Failed to join room".
- **Answer handling** (`GameLogic`): `handleSubmitAnswer` runs the following steps.
  - Guard checks, then re-sending the stored result for a repeated answer.
  - The correctness rule: the first flagged option, trimmed, for multiple choice, and
    strict equality otherwise.
  - Points: 100 plus a rounded time bonus, or -20.
  - The in-place update of the player.
  - `answer_result`, `opponent_progress` and `player_finished`.
- **Game completion** (`GameLogic`): `checkGameFinished` decides the results, `calculateElo`
  gives the zero-sum Elo pair with K = 32, and `updateUserStats` updates the counters.
- **Difficulty table** (`GameRules`): `getQuestionTimeLimit`.
- **Connection registry** (`Sockets`): `connectedUsers`, where the latest connection wins
  and a disconnect deletes only its own mapping. Also the handshake token rule and
  `getOnlineUserCount`.
- **Read side**:
  - `Leaderboard`: skip, ranks, win rate, the user-id filter, the current user's position
    and the page count.
  - `Profile`: the match summaries and the rating history.

State and I/O:

- The database is a `Store` object holding two maps: games by id and user statistics by
  user.
- Each handler is a method that changes the store. It is proved equal to a pure step
  function, for example `Submit`, `JoinQueue`, `JoinPrivate` or `CheckFinished`. The
  properties are then proved about that function.
- Socket emits are returned as a list of `Event`s.
- These values are parameters:
  - the clock (`now`);
  - fresh document ids (`newId`);
  - random bytes;
  - the Elo expected-score function;
  - the question sampler (`$match` + `$sample`);
  - the JWT verifier;
  - the results of the code lookup and of the leaderboard queries.

Quirks of the source, modelled as written and stated as lemmas:

- A joiner re-queued after a stale opponent has no `category`, so nobody can ever match
  that entry (`StaleRequeueIsUnmatchable`).
- `timeTaken` comes from the client and is not clamped: a negative time earns any number
  of points (`NegativeTimeInflatesPoints`).
- The rating history looks up the user's entry without a guard. A match whose populated
  players do not include the user fails the whole profile request
  (`RatingHistoryReversesMatches`).

## Model

| member | source | states |
|---|---|---|
| Seqs.FindIndex | services/matchmakingService.js:32 | The linear scan returns the index of the first element satisfying the predicate, or -1 when none does (`findIndex`). |
| Seqs.Find | services/gameLogicService.js:22 | `find` returns nothing exactly when no element satisfies the predicate, and otherwise the first element of the list that satisfies it. |
| Seqs.RemoveAt | services/matchmakingService.js:34 | `splice(i, 1)` keeps every other element in order, with those after `i` shifted down by one. |
| Seqs.Reverse | controllers/profileController.js:84 | Element `i` of the reversal is element `n-1-i` of the input. |
| Text.Trim | services/gameLogicService.js:76 | The trimmed text is a slice of the input with only white space cut before and after it, and it neither starts nor ends with white space. |
| Text.TrimIgnoresPadding | services/gameLogicService.js:76 | Surrounding white space never changes the trimmed text. |
| Text.Upper | utils/gameRules.js:10 | `toUpperCase` keeps the length and maps each character independently. |
| Text.UpperIdempotent | utils/gameRules.js:10 | Upper-casing twice is the same as upper-casing once. |
| Text.Split | services/socketService.js:21 | `split(" ")` gives at least one field, and no field contains the separator. |
| Text.SplitJoin | services/socketService.js:21 | `split(" ")` loses nothing: joining the fields with the separator gives back the header. |
| Text.HexLower | services/matchmakingService.js:78 | The hex rendering has two digits per byte. |
| Text.UpperHexDigits | services/matchmakingService.js:78 | `toString("hex").toUpperCase()` has length `2n`, and every character is an upper-case hexadecimal digit. |
| Text.UpperHexRoundTrip | services/matchmakingService.js:78 | Reading the upper-case code back two digits at a time gives the original bytes. |
| GameRules.QuestionTimeLimit | utils/gameRules.js:1-11 | The limit is always 15, 20, 25 or 30. It is 15, 20 or 25 exactly when the upper-cased difficulty is EASY, MEDIUM or HARD respectively. |
| GameRules.CaseInsensitive | utils/gameRules.js:10 | A name and its upper-cased form get the same limit. |
| GameRules.DefaultLimit | utils/gameRules.js:9-10 | A missing or empty difficulty, or any name outside the three, gives 30. |
| GameLogic.IsCorrect | services/gameLogicService.js:66-80 | Multiple choice: the answer is right iff some option is flagged, no earlier option is, and its trimmed text (empty when absent) equals the trimmed answer. Otherwise: right iff `correctAnswer` equals the answer. |
| GameLogic.NoCorrectOptionRejectsAll | services/gameLogicService.js:68-77 | A multiple-choice question with no option flagged correct rejects every answer. |
| GameLogic.FirstFlaggedOptionDecides | services/gameLogicService.js:68-77 | Multiple choice: an answer is correct iff its trimmed text equals the trimmed text of the first flagged option. |
| GameLogic.PaddingDoesNotMatter | services/gameLogicService.js:76 | White space around a multiple-choice answer never changes the verdict. |
| GameLogic.EffectiveTimeLimit | services/gameLogicService.js:88 | A missing, null or zero `timeLimit` becomes 60; any other value is kept; the result is never zero. |
| GameLogic.Round | services/gameLogicService.js:90 | `Math.round` gives the integer within one half of `x`, rounding halves up. |
| GameLogic.TimeBonus | services/gameLogicService.js:89 | The time bonus is never negative. |
| GameLogic.Points | services/gameLogicService.js:86-93 | A wrong answer gives exactly -20. A correct answer gives at least 100. It gives exactly 100 when `timeTaken >= limit`, and at most 150 when `timeTaken >= 0`. |
| GameLogic.NegativeTimeInflatesPoints | services/gameLogicService.js:89 | For every bound there is a client-sent `timeTaken` (negative) that earns more points than the bound. |
| GameLogic.ScoringExample | services/gameLogicService.js:86-93 | With a 15 s limit, a right answer in 5 s earns 133 and a wrong one -20. |
| GameLogic.EloChange | services/gameLogicService.js:219-223 | With the expected score in [0,1], a win changes the rating by 0..32, a loss by -32..0, and a draw by -16..16. |
| GameLogic.CalculateElo | services/gameLogicService.js:215-232 | The two changes always sum to zero. A win gives player 1 a change in [0,32] and player 2 one in [-32,0]; a loss is the mirror. |
| GameLogic.IndependentRoundingIsNotZeroSum | services/gameLogicService.js:223-230 | Rounding each player's change on its own can break the zero sum that negating player 1's change keeps. |
| GameLogic.Results | services/gameLogicService.js:153-164 | Player 1 wins iff the score is strictly higher, loses iff strictly lower, and draws iff equal. Player 2 gets the opposite result. |
| GameLogic.WinnerId | services/gameLogicService.js:196 | `winnerId` is absent iff neither player won. Otherwise it is the id of a player whose result is a win. |
| GameLogic.StatsAfter | services/gameLogicService.js:235-248 | `gamesPlayed` +1 and `rating` +change. Wins +1 only on a win and losses +1 only on a loss, so a draw leaves both. The topic rating becomes `(rating or 1000) + change` only when the topic entry exists. Other topics are unchanged. |
| GameLogic.UpdateUserStats | services/gameLogicService.js:235-248 | The in-place counter updates store exactly `StatsAfter` of the loaded record and change no game. |
| GameLogic.RatePlayers | services/gameLogicService.js:166-190 | The two changes cancel out, and no user gains or loses a stats record. With both records, each new rating is the old one plus its change. Without both, the change is 0, both new ratings are 1000 and no stats change. |
| GameLogic.CheckFinished | services/gameLogicService.js:141-205 | Completion never changes the questions, topic, players, scores or answers, keeps the set of users with stats, and emits at most one event. |
| GameLogic.FinishesOnlyWhenAllAnswered | services/gameLogicService.js:141-150 | The game finishes (status, end time, one `game_over`) exactly when both of the first two players have answered as many questions as the game has. Otherwise nothing changes. Finishing never touches players, scores or answers. |
| GameLogic.FinishedResults | services/gameLogicService.js:145-196 | In a finished game the higher score wins, equal scores draw for both, and `winnerId` is absent iff the game is a draw, naming the winner otherwise. |
| GameLogic.FinishedRatings | services/gameLogicService.js:166-190 | The rating changes cancel out. `newRating` is the old rating plus the change. If either stats record is missing, the change is 0 and both new ratings are 1000. The winner gains at most 32 and the loser loses at most 32. |
| GameLogic.FinishConservesRating | services/gameLogicService.js:170-189 | For two distinct players, finishing keeps the sum of their overall ratings and touches no other user's statistics. |
| GameLogic.CheckGameFinished | services/gameLogicService.js:141-205 | The in-place completion stores exactly the game, statistics and events of `CheckFinished`. |
| GameLogic.RejectedChangesNothing | services/gameLogicService.js:12-64 | A submission that fails a check or repeats an answer changes no game or statistics and emits at most one event. It emits "Game not active" for a missing or inactive game and "Player not found" for a non-player. |
| GameLogic.FreshAnswerApplied | services/gameLogicService.js:95-113 | A fresh answer adds exactly its points to the submitter's score and appends exactly one record. Other players' scores and answers and all other games stay as they were. The first event is `answer_result` with the new score. |
| GameLogic.ResubmissionIsIdempotent | services/gameLogicService.js:29-57 | Re-submitting the same question while the game is in progress changes nothing and re-sends exactly the first `answer_result`. |
| GameLogic.Submit | services/gameLogicService.js:8-136 | A submission never adds or removes a game and changes no game but its own. One that fails a check or repeats an answer changes no game and no statistics. |
| GameLogic.Accept | services/gameLogicService.js:95-130 | Recording a fresh answer changes only the submitted game. The first event is `answer_result` for the submitted question. |
| GameLogic.SubmitAnswer | services/gameLogicService.js:8-136 | The handler's in-place run leaves the store and emits the events given by the step function `Submit`. |
| GameLogic.NotifyOpponent | services/gameLogicService.js:115-123 | `opponent_progress` goes to the first other player when it has a socket id, and nowhere otherwise. |
| GameLogic.RecordAnswer | services/gameLogicService.js:95-130 | The in-place score and answer update, its notifications and the completion check agree with `Accept`. |
| Matchmaking.OrDefault | services/matchmakingService.js:86-87 | A present, non-empty value is kept; otherwise the default is used. |
| Matchmaking.Stage | services/matchmakingService.js:234-240 | The filter admits a question iff it is active, and of the category when one is given, and of the topic unless that is absent, empty or RANDOM. |
| Matchmaking.BuildStage | services/matchmakingService.js:236-240 | Building the filter field by field gives `Stage`. |
| Matchmaking.Joined | services/matchmakingService.js:28-71 | A found opponent is compatible, so never the joiner. A live match carries the opponent's registered socket, the opponent's topic when the joiner chose RANDOM (else the joiner's), and the joiner's category. A stale opponent re-queues the joiner without a category. With no match the joiner is appended with its category. |
| Matchmaking.JoinKeepsUsersUnique | services/matchmakingService.js:32-68 | A join keeps the queue at one entry per user. |
| Matchmaking.OpponentIsFirstCompatible | services/matchmakingService.js:40-44 | The joiner is queued iff no entry is compatible. Otherwise the opponent is the first compatible entry in queue order. |
| Matchmaking.MatchLeavesJoinerOut | services/matchmakingService.js:46-65 | On a live match the opponent's entry is removed and the joiner is not queued. |
| Matchmaking.StaleRequeueIsUnmatchable | services/matchmakingService.js:51-59 | The entry re-queued after a stale opponent has no category, and no later join picks it. |
| Matchmaking.DisconnectRemovesFirstMatch | services/matchmakingService.js:13-20 | A disconnect removes the first entry of the socket and keeps the rest in order. With no such entry it changes nothing. |
| Matchmaking.Queue.Join | services/matchmakingService.js:28-71 | The in-place `findIndex`/`splice`/`push` sequence gives the queue and outcome of `Joined` and keeps one entry per user. |
| Matchmaking.Queue.Leave | services/matchmakingService.js:13-20 | The in-place removal gives `WithoutSocket` and keeps one entry per user. |
| Matchmaking.SessionStartsClean | services/matchmakingService.js:185-247 | A public game starts in progress with the joiner and the opponent's live socket, both scoring 0. It has at most three active questions of the session's category, and of its topic unless that is RANDOM. |
| Matchmaking.SessionGame | services/matchmakingService.js:189-198 | The public game is IN_PROGRESS with no code. Its players are the joiner and then the opponent, both new, and it has the given topic, questions and start time, with no end time. A non-empty category is kept. |
| Matchmaking.JoinQueue | services/matchmakingService.js:28-71 | The queue becomes that of `Joined`. Without a live match, no game changes and the only event is `queue_joined`. On a match, exactly one game is added under the new id: the `SessionGame` of the match, with the opponent's live socket, the match's topic (the opponent's when the joiner chose RANDOM) and category, and the questions the sampler draws for that topic and category. The other games stay as they were, and the events are two `match_found` and a `game_started` carrying the new game's players and questions. |
| Matchmaking.OnJoinQueue | services/matchmakingService.js:28-71 | The handler changes the queue, the games and the events as the step function `JoinQueue` does, and never the statistics. |
| Matchmaking.CreateGameSession | services/matchmakingService.js:185-231 | Stores the public game under the new id and announces it with two `match_found` and one `game_started`. |
| Matchmaking.PrivateRoomShape | services/matchmakingService.js:76-88 | A new room is PRIVATE and WAITING with its creator as the only player. Its code is six upper-case hexadecimal digits that spell the three random bytes. Topic and category default to DSA and CS. |
| Matchmaking.PrivateRoom | services/matchmakingService.js:79-86 | The room is PRIVATE and WAITING under its code, with its creator as the only player, no questions, and no start or end time. |
| Matchmaking.CreatePrivate | services/matchmakingService.js:76-97 | Stores exactly that room under the new id and emits `private_created` with the code. |
| Matchmaking.JoinPrivateOutcome | services/matchmakingService.js:105-148 | An unknown code, a repeated join, and a room without players give "Invalid or expired code", "You are already in this game" and "Failed to join room", and change nothing. A room found by its code that has a creator and lacks the joiner is always joined, with `game_started` as the only event. A join appends exactly the joiner, keeps the earlier players, moves the room from WAITING to IN_PROGRESS, and touches no other game. |
| Matchmaking.JoinPrivate | services/matchmakingService.js:105-182 | A join by code never adds or removes a game, changes no game but the one found, and emits exactly one event. That event is `game_started` whenever a game changed. |
| Matchmaking.OnJoinPrivate | services/matchmakingService.js:105-182 | The in-place handler gives the games and events of `JoinPrivate` and never changes the statistics. |
| Sockets.Registered | services/socketService.js:38 | A connect maps the user to this socket, overwriting any earlier mapping, and leaves every other user's mapping. |
| Sockets.Unregistered | services/socketService.js:52-54 | A disconnect deletes the mapping only while it still names this socket, and leaves every other user's mapping. |
| Sockets.StaleDisconnectKeepsNewSocket | services/socketService.js:52-54 | After a reconnect, the old socket's disconnect leaves the new mapping in place. |
| Sockets.OnlineCountChanges | services/socketService.js:74-76 | The online count rises by one on a first connection and falls by one on a matching disconnect. |
| Sockets.Registry.Connect | services/socketService.js:38 | `set` updates the registry as `Registered` says. |
| Sockets.Registry.Disconnect | services/socketService.js:52-54 | The guarded `delete` updates the registry as `Unregistered` says. |
| Sockets.Registry.OnlineUserCount | services/socketService.js:74-76 | The count is the number of users in the registry. |
| Sockets.OnDisconnect | services/socketService.js:49-60 | A disconnect applies the registry rule and drops the socket's queue entry, keeping one entry per user. |
| Sockets.Token | services/socketService.js:21-24 | A non-empty `auth.token` wins. An accepted token is never empty. A token taken from the header needs a header and contains no space. |
| Sockets.HeaderToken | services/socketService.js:21-24 | Without `auth.token`, every header shape is settled: no header or a header with no space gives no token; `a t` and `a t rest` (with `a` and `t` free of spaces) give `t`, or no token when `t` is empty. `Bearer <t>` is the case `a = Bearer`. |
| Sockets.Authenticate | services/socketService.js:20-32 | A connection without a token is rejected. Otherwise the socket's user is exactly what the verifier decodes from that token. |
| Leaderboard.Cutoff | controllers/leaderboardController.js:23-29 | weekly goes back 7 days and monthly 30 days in milliseconds; any other timeframe has no window. |
| Leaderboard.WinRate | controllers/leaderboardController.js:69 | 0 without games; otherwise the nearest integer to `100 * wins / games`, halves up. |
| Leaderboard.WinRateIsPercentage | controllers/leaderboardController.js:68-69 | For non-negative counts the win rate lies in [0,100]. It is 100 with wins and no losses, and 0 without wins. |
| Leaderboard.FormatPage | controllers/leaderboardController.js:65-81 | One row per record in result order, with ranks `skip+1`, `skip+2`, … consecutively. Games are wins plus losses, the rating defaults to 0, the win rate follows `WinRate`, and `isCurrentUser` holds only for the logged-in user's record. |
| Leaderboard.Intersect | controllers/leaderboardController.js:49 | The result holds exactly the ids found in both lists. |
| Leaderboard.BuildUserFilter | controllers/leaderboardController.js:34-51 | There is no user-id condition iff the timeframe is all-time and the search is empty. Otherwise the ids are exactly those in the window and/or among the search matches. |
| Leaderboard.HigherCount | controllers/leaderboardController.js:91-94 | The `$gt` count is at most the number of records. It is 0 iff no record has a rating above the threshold, and it is the number of records iff all do. |
| Leaderboard.HigherCountAntitone | controllers/leaderboardController.js:91-95 | A higher rating threshold never counts more records. |
| Leaderboard.RankByHigherCount | controllers/leaderboardController.js:91-95 | In a list sorted by rating, the `$gt` rank is at most the list position plus one. It equals that position unless the record ties with the one before, so tied users share a rank. |
| Leaderboard.UserPosition | controllers/leaderboardController.js:84-110 | A position is given iff a user is logged in, has no row on the page, and has a stats record. The rank is 1 plus the number of matching records rated strictly higher (between 1 and count+1). Rating, games and win rate are as on a row. |
| Leaderboard.TotalPages | controllers/leaderboardController.js:116 | `ceil(count / limit)`, pinned by the two inequalities, and no finite value for a zero limit. |
| Profile.TopicLabel | controllers/profileController.js:68 | `CS-ALL` for RANDOM, otherwise `CS-` followed by the topic. |
| Profile.Summary | controllers/profileController.js:37-70 | No summary iff the user has no populated entry. Otherwise it carries the match id, the end time, the topic label, and the result and rating change of the first own entry. The opponent is the first other populated player, or Unknown when there is none. |
| Profile.FormatMatches | controllers/profileController.js:37-71 | At most one summary per match, each one the summary of some match. |
| Profile.FormatMatchesSingle | controllers/profileController.js:37-71 | One match gives exactly its summary, or nothing when the user has no own entry. |
| Profile.FormatMatchesAppend | controllers/profileController.js:37-71 | Formatting two lists one after the other is formatting each and concatenating, so the summaries keep the matches' order. |
| Profile.FormatMatchesDropsOnlyForeign | controllers/profileController.js:56-71 | Exactly the matches without an own entry are dropped: nothing is dropped iff every match has one. |
| Profile.UnguardedAgrees | controllers/profileController.js:76-78 | Where the unguarded lookup succeeds it finds the same entry as the guarded one. Where the guarded one finds nothing, the unguarded one fails too. |
| Profile.HistoryPoints | controllers/profileController.js:74-83 | When the lookup succeeds in every match, there is one point per match. |
| Profile.RatingHistory | controllers/profileController.js:74-84 | The history exists iff the points do. It then has one point per match, and point `i` is point `n-1-i` of the points. |
| Profile.HistoryPointsDefined | controllers/profileController.js:74-84 | The history exists iff the unguarded lookup succeeds in every match. |
| Profile.RatingHistoryReversesMatches | controllers/profileController.js:74-84 | One point per match in reverse order. Point `i` carries match `n-1-i`'s end time and the user's own new rating. A match without the user makes the request fail. |

## Left out

- Mongo:
  - Queries, sorting, `skip`/`limit`, `populate` and `lean` are not modelled. The store is a pair of maps.
  - The leaderboard and profile queries are inputs: the page of records, the matching records, the current user's record, the id lists and the 20 latest finished matches.
  - A stored game's `save` is a map update.
  - Database failures are not modelled, so "Failed to create room" never happens. "Failed to join room" is modelled only for a room with no players, the failure the handler's own code can cause.
- socket.io: rooms, `socket.join`, `io.to` and the existence checks on sockets are transport. Each emitted message is an `Event` in the returned list, and both `match_found` events are always listed. Console logging is left out.
- Matchmaking.SessionStartsClean: the at-most-three-questions bound rests on the sampler oracle promising what `$sample: { size: 3 }` does (`SamplerSound`).
- Floating point:
  - The Elo expected score `1 / (1 + 10^((r2-r1)/400))` is an oracle assumed to lie in [0,1].
  - The time bonus and the win rate use exact rationals. So Leaderboard.WinRate can differ from the floating-point result by one when `100 * wins / games` falls within rounding error of a half.
- GameLogic.Points: the time bonus uses exact arithmetic, so it can differ from the floating-point bonus by one point at a rounding boundary. A NaN `timeTaken` (a non-numeric payload) is not modelled.
- Leaderboard.TotalPages: `page` and `limit` are integers; `parseInt` returning NaN is not modelled.
- Leaderboard.Skip: it is a helper with no contract; `FormatPage` states the ranks it yields.
- Concurrency is not modelled. Each handler is one atomic step over the store, and the un-awaited `checkGameFinished` runs inside the answer step. Races between two players' `save` calls are left out.
- Randomness is an input: the room code's three bytes, the sampled questions and fresh document ids.
- `handleGameSync` is registered for `join_game` but defined nowhere, so there is nothing to model.
- Text.Upper: `toUpperCase` is modelled on ASCII letters plus the two non-ASCII letters whose upper case is ASCII (dotless i and long s). Other Unicode mappings are left out, because they cannot turn a name into EASY, MEDIUM or HARD.
- Text.Trim: trimming is on code points; surrogate pairs are not modelled.
- GameLogic.IsCorrect: only a text answer, or none, is modelled. The client may send the answer as a number (an option index). A multiple-choice answer `0` counts as empty, any other number makes `trim` throw (services/gameLogicService.js:76), and a number never strictly equals a stored text `correctAnswer`. The thrown case ends in the "Server error processing answer" error with nothing recorded, and it is not modelled.
- Sockets.Authenticate: JWT signature checking is an oracle from token to user id.
- null and undefined are both modelled as absence (`None`).
- The `Game` schema's own status names and its missing `answers`, `questions` and `code` fields are not modelled. The fields are as the services read and write them.
- GameLogic.ResubmissionIsIdempotent: it is stated only while the game is still in progress after the first answer. Once that answer finished the game, a repeat gets "Game not active" instead.
- Leaderboard.UserPosition: the current user's own record is looked up without the query's filters, so it is an input (`own`) separate from the filtered matching records.
