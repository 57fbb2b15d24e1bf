/**
 * The public matchmaking queue, public game sessions, private rooms and the question
 * filter. The queue is the service's in-memory array, changed in place; the games go to
 * the store; the question sampler is an oracle from filter to question ids.
 */
module Matchmaking {
  import opened Wrappers
  import opened Seqs
  import opened Text
  import opened Documents
  import opened Events

  const DefaultCategory: string := "CS"
  const DefaultPrivateTopic: string := "DSA"
  /** The topic that matches any topic. */
  const Random: string := "RANDOM"
  /** Questions drawn per game. */
  const SampleSize: int := 3
  /** Random bytes behind a private room code. */
  const CodeBytes: int := 3

  /** `x || fallback` on an optional string. */
  function OrDefault(s: Option<string>, fallback: string): (r: string)
    ensures s.Some? && s.value != "" ==> r == s.value
    ensures s.None? || s.value == "" ==> r == fallback
  {
    if s.Some? && s.value != "" then s.value else fallback
  }

  // ----------------------------------------------------------- question filter

  /** `matchStage`: `isActive: true` always, plus the optional category and topic fields. */
  datatype MatchStage = MatchStage(category: Option<string>, topic: Option<string>)

  predicate Admits(stage: MatchStage, q: Question) {
    && q.isActive
    && (stage.category.Some? ==> q.category == stage.category.value)
    && (stage.topic.Some? ==> q.topic == stage.topic.value)
  }

  /**
   * The filter of `selectQuestions`: active questions, of the category when one is given,
   * of the topic when one is given and it is not RANDOM.
   */
  function Stage(topic: Option<string>, category: Option<string>): (stage: MatchStage)
    ensures forall q :: Admits(stage, q) <==>
      && q.isActive
      && (category.Some? && category.value != "" ==> q.category == category.value)
      && (topic.Some? && topic.value != "" && topic.value != Random ==> q.topic == topic.value)
  {
    MatchStage(
      if category.Some? && category.value != "" then category else None,
      if topic.Some? && topic.value != "" && topic.value != Random then topic else None)
  }

  /** `selectQuestions` builds its filter field by field. */
  method BuildStage(topic: Option<string>, category: Option<string>) returns (stage: MatchStage)
    ensures stage == Stage(topic, category)
  {
    stage := MatchStage(None, None);
    if category.Some? && category.value != "" {
      stage := stage.(category := category);
    }
    if topic.Some? && topic.value != "" && topic.value != Random {
      stage := stage.(topic := topic);
    }
  }

  /**
   * What the `$match` + `$sample` aggregation promises: at most three ids, each of a
   * question in the bank that the filter admits.
   */
  ghost predicate SamplerSound(sampler: MatchStage -> seq<QuestionId>, bank: map<QuestionId, Question>) {
    forall stage: MatchStage ::
      |sampler(stage)| <= SampleSize
      && forall id :: id in sampler(stage) ==> id in bank && Admits(stage, bank[id])
  }

  // ------------------------------------------------------------- public queue

  /** One element of `publicQueue`; `category` is absent on a stale-opponent requeue. */
  datatype QueueEntry = QueueEntry(
    userId: UserId,
    socketId: SocketId,
    rating: Option<int>,
    topic: Option<string>,
    category: Option<string>,
    joinedAt: Time)

  /** The `join_queue` payload with the joining socket; `category` absent when not sent. */
  datatype JoinRequest = JoinRequest(
    userId: UserId,
    socketId: SocketId,
    rating: Option<int>,
    topic: Option<string>,
    category: Option<string>)

  /** `category = "CS"`: the default applies only when the field is absent. */
  function CategoryOf(req: JoinRequest): string {
    req.category.GetOr(DefaultCategory)
  }

  function ForUser(u: UserId): QueueEntry -> bool {
    (e: QueueEntry) => e.userId == u
  }

  function OnSocket(s: SocketId): QueueEntry -> bool {
    (e: QueueEntry) => e.socketId == s
  }

  /** Same category, equal topics or either RANDOM, and someone else. */
  predicate Compatible(e: QueueEntry, userId: UserId, topic: Option<string>, category: string) {
    && e.category == Some(category)
    && (e.topic == topic || topic == Some(Random) || e.topic == Some(Random))
    && e.userId != userId
  }

  function CompatibleWith(userId: UserId, topic: Option<string>, category: string): QueueEntry -> bool {
    (e: QueueEntry) => Compatible(e, userId, topic, category)
  }

  /** At most one entry per user. */
  ghost predicate UniqueUsers(q: seq<QueueEntry>) {
    forall i, j :: 0 <= i < |q| && 0 <= j < |q| && i != j ==> q[i].userId != q[j].userId
  }

  ghost predicate Absent(q: seq<QueueEntry>, u: UserId) {
    forall k :: 0 <= k < |q| ==> q[k].userId != u
  }

  datatype JoinOutcome =
    | Queued
      /** The opponent found had no live connection; it was dropped and the joiner re-queued. */
    | Requeued(opponent: QueueEntry)
    | Matched(opponent: QueueEntry, opponentSocket: SocketId, topic: Option<string>, category: string)

  datatype JoinStep = JoinStep(queue: seq<QueueEntry>, outcome: JoinOutcome)

  /** The queue part of `handleJoinQueue`, given the registry `connected` (user to socket). */
  function Joined(queue: seq<QueueEntry>, req: JoinRequest, connected: map<UserId, SocketId>, now: Time): (r: JoinStep)
    ensures !r.outcome.Queued? ==> Compatible(r.outcome.opponent, req.userId, req.topic, CategoryOf(req))
    ensures r.outcome.Queued? ==>
      |r.queue| >= 1 && r.queue[|r.queue| - 1] == QueueEntry(req.userId, req.socketId, req.rating, req.topic, Some(CategoryOf(req)), now)
    ensures r.outcome.Requeued? ==>
      && |r.queue| >= 1 && r.queue[|r.queue| - 1] == QueueEntry(req.userId, req.socketId, req.rating, req.topic, None, now)
      && (r.outcome.opponent.userId !in connected || connected[r.outcome.opponent.userId] == "")
    ensures r.outcome.Matched? ==>
      && r.outcome.opponent.userId in connected
      && r.outcome.opponentSocket == connected[r.outcome.opponent.userId] != ""
      && r.outcome.topic == (if req.topic == Some(Random) then r.outcome.opponent.topic else req.topic)
      && r.outcome.category == CategoryOf(req)
  {
    var q1 := RemoveFirst(queue, ForUser(req.userId));
    var category := CategoryOf(req);
    var m := FirstIndex(q1, CompatibleWith(req.userId, req.topic, category));
    if m < 0 then
      JoinStep(q1 + [QueueEntry(req.userId, req.socketId, req.rating, req.topic, Some(category), now)], Queued)
    else
      var opponent := q1[m];
      var q2 := RemoveAt(q1, m);
      if opponent.userId !in connected || connected[opponent.userId] == "" then
        JoinStep(q2 + [QueueEntry(req.userId, req.socketId, req.rating, req.topic, None, now)], Requeued(opponent))
      else
        var topic := if req.topic == Some(Random) then opponent.topic else req.topic;
        JoinStep(q2, Matched(opponent, connected[opponent.userId], topic, category))
  }

  /** `handleDisconnect`: drop the first entry of the socket, if any. */
  function WithoutSocket(queue: seq<QueueEntry>, socketId: SocketId): seq<QueueEntry> {
    RemoveFirst(queue, OnSocket(socketId))
  }

  lemma RemoveAtKeepsUnique(q: seq<QueueEntry>, i: int)
    requires 0 <= i < |q| && UniqueUsers(q)
    ensures UniqueUsers(RemoveAt(q, i)) && Absent(RemoveAt(q, i), q[i].userId)
  {
    var r := RemoveAt(q, i);
    forall a, b | 0 <= a < |r| && 0 <= b < |r| && a != b
      ensures r[a].userId != r[b].userId
    {
      var a' := if a < i then a else a + 1;
      var b' := if b < i then b else b + 1;
      assert r[a] == q[a'] && r[b] == q[b'];
    }
    forall k | 0 <= k < |r|
      ensures r[k].userId != q[i].userId
    {
      var k' := if k < i then k else k + 1;
      assert r[k] == q[k'];
    }
  }

  lemma RemoveAtKeepsAbsent(q: seq<QueueEntry>, i: int, u: UserId)
    requires 0 <= i < |q| && Absent(q, u)
    ensures Absent(RemoveAt(q, i), u)
  {
    var r := RemoveAt(q, i);
    forall k | 0 <= k < |r|
      ensures r[k].userId != u
    {
      var k' := if k < i then k else k + 1;
      assert r[k] == q[k'];
    }
  }

  /** Removing the joiner's old entry leaves no entry of the joiner when there was at most one. */
  lemma RejoinRemovesOldEntry(queue: seq<QueueEntry>, u: UserId)
    requires UniqueUsers(queue)
    ensures UniqueUsers(RemoveFirst(queue, ForUser(u))) && Absent(RemoveFirst(queue, ForUser(u)), u)
  {
    var e := FirstIndex(queue, ForUser(u));
    if e >= 0 {
      RemoveAtKeepsUnique(queue, e);
    } else {
      assert forall k :: 0 <= k < |queue| ==> !ForUser(u)(queue[k]);
    }
  }

  /** A join keeps the queue at one entry per user. */
  lemma {:induction false} JoinKeepsUsersUnique(queue: seq<QueueEntry>, req: JoinRequest, connected: map<UserId, SocketId>, now: Time)
    requires UniqueUsers(queue)
    ensures UniqueUsers(Joined(queue, req, connected, now).queue)
  {
    var u := req.userId;
    var q1 := RemoveFirst(queue, ForUser(u));
    RejoinRemovesOldEntry(queue, u);
    var m := FirstIndex(q1, CompatibleWith(u, req.topic, CategoryOf(req)));
    var q2 := if m < 0 then q1 else RemoveAt(q1, m);
    if m >= 0 {
      RemoveAtKeepsUnique(q1, m);
      RemoveAtKeepsAbsent(q1, m, u);
    }
    var r := Joined(queue, req, connected, now);
    JoinedQueue(queue, req, connected, now);
    if !r.outcome.Matched? {
      AppendKeepsUnique(q2, r.queue[|r.queue| - 1]);
    }
  }

  /** The queue after a join: the old queue without the joiner's entry and the opponent, plus the joiner unless matched. */
  lemma JoinedQueue(queue: seq<QueueEntry>, req: JoinRequest, connected: map<UserId, SocketId>, now: Time)
    ensures var q1 := RemoveFirst(queue, ForUser(req.userId));
      var m := FirstIndex(q1, CompatibleWith(req.userId, req.topic, CategoryOf(req)));
      var q2 := if m < 0 then q1 else RemoveAt(q1, m);
      var r := Joined(queue, req, connected, now);
      && (r.outcome.Matched? ==> r.queue == q2)
      && (!r.outcome.Matched? ==> |r.queue| >= 1 && r.queue == q2 + [r.queue[|r.queue| - 1]]
                                  && r.queue[|r.queue| - 1].userId == req.userId)
  {
  }

  /** Appending an entry for a user the queue does not hold keeps one entry per user. */
  lemma AppendKeepsUnique(q: seq<QueueEntry>, x: QueueEntry)
    requires UniqueUsers(q) && Absent(q, x.userId)
    ensures UniqueUsers(q + [x])
  {
    var r := q + [x];
    forall a, b | 0 <= a < |r| && 0 <= b < |r| && a != b
      ensures r[a].userId != r[b].userId
    {
      if a < |q| && b < |q| {
        assert r[a] == q[a] && r[b] == q[b];
      } else if a < |q| {
        assert r[a] == q[a];
      } else {
        assert r[b] == q[b];
      }
    }
  }

  /**
   * The opponent is the first entry of the queue, in queue order, that is compatible with
   * the joiner; the joiner is queued exactly when no entry is compatible.
   */
  lemma {:induction false} OpponentIsFirstCompatible(queue: seq<QueueEntry>, req: JoinRequest, connected: map<UserId, SocketId>, now: Time)
    ensures var r := Joined(queue, req, connected, now);
      && (r.outcome.Queued? <==> forall k :: 0 <= k < |queue| ==> !Compatible(queue[k], req.userId, req.topic, CategoryOf(req)))
      && (!r.outcome.Queued? ==>
            exists j :: 0 <= j < |queue| && queue[j] == r.outcome.opponent
              && forall k :: 0 <= k < j ==> !Compatible(queue[k], req.userId, req.topic, CategoryOf(req)))
  {
    var c := CompatibleWith(req.userId, req.topic, CategoryOf(req));
    FirstIndexAfterRemoveFirst(queue, ForUser(req.userId), c);
    var q1 := RemoveFirst(queue, ForUser(req.userId));
    var m := FirstIndex(q1, c);
    var r := Joined(queue, req, connected, now);
    assert r.outcome.Queued? <==> m < 0;
    if m < 0 {
      forall k | 0 <= k < |queue| ensures !Compatible(queue[k], req.userId, req.topic, CategoryOf(req)) {
        assert !c(queue[k]);
      }
    } else {
      assert r.outcome.opponent == q1[m];
      var j :| 0 <= j < |queue| && queue[j] == q1[m] && forall k :: 0 <= k < j ==> !c(queue[k]);
      forall k | 0 <= k < j ensures !Compatible(queue[k], req.userId, req.topic, CategoryOf(req)) {
        assert !c(queue[k]);
      }
      assert c(queue[j]);
    }
  }

  /**
   * On a live match the opponent's entry is gone and the joiner is not queued: the queue
   * holds one entry fewer than after the re-join removal, and no entry of the joiner.
   */
  lemma {:induction false} MatchLeavesJoinerOut(queue: seq<QueueEntry>, req: JoinRequest, connected: map<UserId, SocketId>, now: Time)
    requires UniqueUsers(queue)
    requires Joined(queue, req, connected, now).outcome.Matched?
    ensures var r := Joined(queue, req, connected, now);
      && |r.queue| == |RemoveFirst(queue, ForUser(req.userId))| - 1
      && Absent(r.queue, req.userId)
      && UniqueUsers(r.queue) && Absent(r.queue, r.outcome.opponent.userId)
  {
    var u := req.userId;
    var q1 := RemoveFirst(queue, ForUser(u));
    RejoinRemovesOldEntry(queue, u);
    var m := FirstIndex(q1, CompatibleWith(u, req.topic, CategoryOf(req)));
    RemoveAtKeepsUnique(q1, m);
    RemoveAtKeepsAbsent(q1, m, u);
  }

  /**
   * The entry re-queued after a stale opponent has no category, so no later join can ever
   * pick it as an opponent.
   */
  lemma StaleRequeueIsUnmatchable(queue: seq<QueueEntry>, req: JoinRequest, connected: map<UserId, SocketId>, now: Time,
                                  later: JoinRequest, connected': map<UserId, SocketId>, now': Time)
    requires Joined(queue, req, connected, now).outcome.Requeued?
    ensures var q := Joined(queue, req, connected, now).queue;
      var r := Joined(q, later, connected', now');
      && q[|q| - 1].category.None?
      && (!r.outcome.Queued? ==> r.outcome.opponent != q[|q| - 1])
  {
  }

  /** Disconnecting drops the first entry of that socket and keeps the rest in order; no entry, no change. */
  lemma DisconnectRemovesFirstMatch(queue: seq<QueueEntry>, socketId: SocketId)
    ensures var r := WithoutSocket(queue, socketId);
      var i := FirstIndex(queue, OnSocket(socketId));
      && (i < 0 ==> r == queue && forall k :: 0 <= k < |queue| ==> queue[k].socketId != socketId)
      && (i >= 0 ==>
            && queue[i].socketId == socketId
            && (forall k :: 0 <= k < i ==> queue[k].socketId != socketId)
            && r == queue[..i] + queue[i + 1..])
  {
    var i := FirstIndex(queue, OnSocket(socketId));
    if i >= 0 {
      assert OnSocket(socketId)(queue[i]);
      assert forall k :: 0 <= k < i ==> !OnSocket(socketId)(queue[k]);
    } else {
      assert forall k :: 0 <= k < |queue| ==> !OnSocket(socketId)(queue[k]);
    }
  }

  /** The queue `publicQueue`, shared by all sockets of the process. */
  class Queue {
    var entries: seq<QueueEntry>

    ghost predicate Valid()
      reads this
    {
      UniqueUsers(entries)
    }

    constructor ()
      ensures entries == [] && Valid()
    {
      entries := [];
    }

    /** The queue steps of `handleJoinQueue`: re-join removal, scan, splice, push. */
    method Join(req: JoinRequest, connected: map<UserId, SocketId>, now: Time) returns (outcome: JoinOutcome)
      modifies this
      ensures JoinStep(entries, outcome) == Joined(old(entries), req, connected, now)
      ensures old(Valid()) ==> Valid()
    {
      ghost var before := entries;
      if old(Valid()) {
        JoinKeepsUsersUnique(before, req, connected, now);
      }
      var existing := FindIndex(entries, ForUser(req.userId));
      if existing >= 0 {
        entries := RemoveAt(entries, existing);
      }
      var category := CategoryOf(req);
      var m := FindIndex(entries, CompatibleWith(req.userId, req.topic, category));
      if m >= 0 {
        var opponent := entries[m];
        entries := RemoveAt(entries, m);
        if opponent.userId !in connected || connected[opponent.userId] == "" {
          entries := entries + [QueueEntry(req.userId, req.socketId, req.rating, req.topic, None, now)];
          return Requeued(opponent);
        }
        var topic := if req.topic == Some(Random) then opponent.topic else req.topic;
        return Matched(opponent, connected[opponent.userId], topic, category);
      }
      entries := entries + [QueueEntry(req.userId, req.socketId, req.rating, req.topic, Some(category), now)];
      outcome := Queued;
    }

    /** `handleDisconnect`. */
    method Leave(socketId: SocketId)
      modifies this
      ensures entries == WithoutSocket(old(entries), socketId)
      ensures old(Valid()) ==> Valid()
    {
      var index := FindIndex(entries, OnSocket(socketId));
      if index != -1 {
        if Valid() {
          RemoveAtKeepsUnique(entries, index);
        }
        entries := RemoveAt(entries, index);
      }
    }
  }

  // ----------------------------------------------------------- public sessions

  /** The game `createGameSession` stores: public, in progress, the two players with score 0. */
  function SessionGame(joiner: JoinRequest, opponentId: UserId, opponentSocket: SocketId, topic: Option<string>,
                       category: string, questions: seq<QuestionId>, now: Time): (g: Game)
    ensures g.kind == Public && g.status == InProgress && g.code.None?
    ensures g.players == [NewPlayer(joiner.userId, joiner.socketId), NewPlayer(opponentId, opponentSocket)]
    ensures g.topic == topic && g.questions == questions && g.startTime == Some(now) && g.endTime.None?
    ensures category != "" ==> g.category == category
  {
    Game(Public, InProgress, None,
         [NewPlayer(joiner.userId, joiner.socketId), NewPlayer(opponentId, opponentSocket)],
         topic, OrDefault(Some(category), DefaultCategory), questions, Some(now), None)
  }

  datatype QueueStep = QueueStep(queue: seq<QueueEntry>, games: map<GameId, Game>, events: seq<Event>)

  /**
   * `handleJoinQueue` as one step: the queue changes as `Joined` says; a live match creates
   * the game under the fresh id `newId` with the questions the sampler draws for its filter
   * and announces it; otherwise the joiner hears `queue_joined`.
   */
  function JoinQueue(queue: seq<QueueEntry>, games: map<GameId, Game>, connected: map<UserId, SocketId>,
                     sampler: MatchStage -> seq<QuestionId>, req: JoinRequest, newId: GameId, now: Time): (r: QueueStep)
    ensures r.queue == Joined(queue, req, connected, now).queue
    ensures !Joined(queue, req, connected, now).outcome.Matched? ==> r.games == games && r.events == [QueueJoined]
    ensures Joined(queue, req, connected, now).outcome.Matched? ==>
      && r.games.Keys == games.Keys + {newId}
      && (forall id :: id in games && id != newId ==> r.games[id] == games[id])
      && r.events == [MatchFound(newId), MatchFound(newId),
                      GameStarted(newId, r.games[newId].players, r.games[newId].questions, now)]
    ensures var out := Joined(queue, req, connected, now).outcome;
      out.Matched? ==>
        r.games[newId] == SessionGame(req, out.opponent.userId, out.opponentSocket, out.topic, out.category,
                                      sampler(Stage(out.topic, Some(out.category))), now)
  {
    var j := Joined(queue, req, connected, now);
    match j.outcome
    case Matched(opponent, socket, topic, category) =>
      var questions := sampler(Stage(topic, Some(category)));
      var g := SessionGame(req, opponent.userId, socket, topic, category, questions, now);
      QueueStep(j.queue, games[newId := g], [MatchFound(newId), MatchFound(newId), GameStarted(newId, g.players, questions, now)])
    case _ =>
      QueueStep(j.queue, games, [QueueJoined])
  }

  /**
   * A public game starts with the joiner and the opponent's live socket, score 0 each, in
   * progress, and with at most three questions, all active, of the session's category and,
   * unless it is RANDOM or absent, of its topic.
   */
  lemma {:induction false} SessionStartsClean(queue: seq<QueueEntry>, games: map<GameId, Game>, connected: map<UserId, SocketId>,
                                              sampler: MatchStage -> seq<QuestionId>, bank: map<QuestionId, Question>,
                                              req: JoinRequest, newId: GameId, now: Time)
    requires SamplerSound(sampler, bank)
    requires Joined(queue, req, connected, now).outcome.Matched?
    ensures var out := Joined(queue, req, connected, now).outcome;
      var g := JoinQueue(queue, games, connected, sampler, req, newId, now).games[newId];
      && g.kind == Public && g.status == InProgress && g.startTime == Some(now)
      && |g.players| == 2 && g.players[0].userId == req.userId && g.players[1].userId == out.opponent.userId
      && g.players[0].userId != g.players[1].userId
      && g.players[1].socketId == Some(connected[out.opponent.userId])
      && g.players[0].score == 0 && g.players[1].score == 0
      && |g.questions| <= SampleSize
      && forall id :: id in g.questions ==>
           && id in bank && bank[id].isActive
           && (out.category != "" ==> bank[id].category == out.category)
           && (out.topic.Some? && out.topic.value != "" && out.topic.value != Random ==> bank[id].topic == out.topic.value)
  {
    var out := Joined(queue, req, connected, now).outcome;
    var stage := Stage(out.topic, Some(out.category));
    assert |sampler(stage)| <= SampleSize && forall id :: id in sampler(stage) ==> id in bank && Admits(stage, bank[id]);
  }

  /** `handleJoinQueue` over the queue and the store. */
  method OnJoinQueue(queue: Queue, store: Store, connected: map<UserId, SocketId>, sampler: MatchStage -> seq<QuestionId>,
                     req: JoinRequest, newId: GameId, now: Time) returns (events: seq<Event>)
    requires newId !in store.games
    modifies queue, store
    ensures QueueStep(queue.entries, store.games, events)
            == JoinQueue(old(queue.entries), old(store.games), connected, sampler, req, newId, now)
    ensures store.stats == old(store.stats)
    ensures old(queue.Valid()) ==> queue.Valid()
  {
    var outcome := queue.Join(req, connected, now);
    if outcome.Matched? {
      events := CreateGameSession(store, req, outcome.opponent.userId, outcome.opponentSocket, outcome.topic,
                                  outcome.category, sampler, newId, now);
    } else {
      events := [QueueJoined];
    }
  }

  /** `createGameSession`. */
  method CreateGameSession(store: Store, joiner: JoinRequest, opponentId: UserId, opponentSocket: SocketId,
                           topic: Option<string>, category: string, sampler: MatchStage -> seq<QuestionId>,
                           newId: GameId, now: Time) returns (events: seq<Event>)
    requires newId !in store.games
    modifies store
    ensures var questions := sampler(Stage(topic, Some(category)));
      var g := SessionGame(joiner, opponentId, opponentSocket, topic, category, questions, now);
      && store.games == old(store.games)[newId := g]
      && events == [MatchFound(newId), MatchFound(newId), GameStarted(newId, g.players, questions, now)]
    ensures store.stats == old(store.stats)
  {
    var stage := BuildStage(topic, Some(category));
    var questions := sampler(stage);
    var game := SessionGame(joiner, opponentId, opponentSocket, topic, category, questions, now);
    store.games := store.games[newId := game];
    events := [MatchFound(newId), MatchFound(newId), GameStarted(newId, game.players, questions, now)];
  }

  // ------------------------------------------------------------- private rooms

  /** `randomBytes(3).toString("hex").toUpperCase()`. */
  function RoomCode(bytes: seq<Byte>): string {
    Upper(HexLower(bytes))
  }

  /** The room `handleCreatePrivate` stores. */
  function PrivateRoom(userId: UserId, socketId: SocketId, topic: Option<string>, category: Option<string>, code: string): (g: Game)
    ensures g.kind == Private && g.status == Waiting && g.code == Some(code)
    ensures g.players == [NewPlayer(userId, socketId)] && g.questions == []
    ensures g.startTime.None? && g.endTime.None?
  {
    Game(Private, Waiting, Some(code), [NewPlayer(userId, socketId)],
         Some(OrDefault(topic, DefaultPrivateTopic)), OrDefault(category, DefaultCategory), [], None, None)
  }

  /**
   * A new private room waits with its creator as the only player, under a code of six
   * upper-case hexadecimal digits that spell the three random bytes; topic DSA and
   * category CS unless given.
   */
  lemma PrivateRoomShape(userId: UserId, socketId: SocketId, topic: Option<string>, category: Option<string>, bytes: seq<Byte>)
    requires |bytes| == CodeBytes
    ensures var code := RoomCode(bytes);
      var g := PrivateRoom(userId, socketId, topic, category, code);
      && g.kind == Private && g.status == Waiting
      && g.players == [NewPlayer(userId, socketId)]
      && |code| == 6 && (forall i :: 0 <= i < |code| ==> IsUpperHex(code[i])) && Unhex(code) == bytes
      && g.topic == Some(if topic.None? || topic.value == "" then "DSA" else topic.value)
      && g.category == (if category.None? || category.value == "" then "CS" else category.value)
  {
    UpperHexDigits(bytes);
    UpperHexRoundTrip(bytes);
  }

  /** `handleCreatePrivate`; `bytes` are the random bytes, `newId` the fresh document id. */
  method CreatePrivate(store: Store, userId: UserId, socketId: SocketId, topic: Option<string>, category: Option<string>,
                       bytes: seq<Byte>, newId: GameId) returns (events: seq<Event>)
    requires |bytes| == CodeBytes && newId !in store.games
    modifies store
    ensures store.games == old(store.games)[newId := PrivateRoom(userId, socketId, topic, category, RoomCode(bytes))]
    ensures store.stats == old(store.stats)
    ensures events == [PrivateCreated(newId, RoomCode(bytes))]
  {
    var code := RoomCode(bytes);
    var game := PrivateRoom(userId, socketId, topic, category, code);
    store.games := store.games[newId := game];
    events := [PrivateCreated(newId, code)];
  }

  predicate WaitingWith(games: map<GameId, Game>, id: GameId, code: string) {
    id in games && games[id].status == Waiting && games[id].code == Some(code)
  }

  /** What `Game.findOne({ code, status: "WAITING" })` returns: some such game, or none when there is none. */
  ghost predicate FoundBy(games: map<GameId, Game>, code: string, found: Option<GameId>) {
    && (found.Some? ==> WaitingWith(games, found.value, code))
    && (found.None? ==> forall id :: id in games ==> !WaitingWith(games, id, code))
  }

  datatype RoomStep = RoomStep(games: map<GameId, Game>, events: seq<Event>)

  /**
   * `handleJoinPrivate` on the room `found`: unknown code and repeated join are errors; a
   * room without players fails on its creator; otherwise the creator's socket is refreshed
   * from the registry when it is online, the joiner is appended, the game starts now with
   * the sampled questions, and `game_started` is sent.
   */
  function JoinPrivate(games: map<GameId, Game>, connected: map<UserId, SocketId>, sampler: MatchStage -> seq<QuestionId>,
                       found: Option<GameId>, userId: UserId, socketId: SocketId, now: Time): (r: RoomStep)
    requires found.Some? ==> found.value in games
    ensures r.games.Keys == games.Keys && |r.events| == 1
    ensures forall id :: id in games && found != Some(id) ==> r.games[id] == games[id]
    ensures r.games != games ==> r.events[0].GameStarted?
  {
    if found.None? then RoomStep(games, [Error(InvalidCode)])
    else
      var id := found.value;
      var g := games[id];
      if FirstIndex(g.players, IsUser(userId)) >= 0 then RoomStep(games, [Error(AlreadyJoined)])
      else if |g.players| == 0 then RoomStep(games, [Error(JoinFailed)])
      else
        var creator := g.players[0];
        var refreshed :=
          if creator.userId in connected && connected[creator.userId] != ""
          then g.players[0 := creator.(socketId := Some(connected[creator.userId]))]
          else g.players;
        var players := refreshed + [NewPlayer(userId, socketId)];
        var questions := sampler(Stage(g.topic, Some(g.category)));
        var g' := g.(players := players, status := InProgress, startTime := Some(now), questions := questions);
        RoomStep(games[id := g'], [GameStarted(id, players, questions, now)])
  }

  /**
   * Joining by code: an unknown code, a repeated join and a room without players are the
   * error exits and change nothing; a room found by its code, with a creator and without
   * the joiner, is always joined: the joiner, who was not a player, is added at the end,
   * every earlier player's user id is kept, the room moves from WAITING to IN_PROGRESS
   * and `game_started` is sent.
   */
  lemma {:induction false} JoinPrivateOutcome(games: map<GameId, Game>, connected: map<UserId, SocketId>,
                                              sampler: MatchStage -> seq<QuestionId>, code: string, found: Option<GameId>,
                                              userId: UserId, socketId: SocketId, now: Time)
    requires FoundBy(games, code, found)
    ensures var r := JoinPrivate(games, connected, sampler, found, userId, socketId, now);
      && (found.None? ==> r == RoomStep(games, [Error(InvalidCode)]))
      && (found.Some? && (exists k :: 0 <= k < |games[found.value].players| && games[found.value].players[k].userId == userId)
          ==> r == RoomStep(games, [Error(AlreadyJoined)]))
      && (found.Some? && |games[found.value].players| == 0 ==> r == RoomStep(games, [Error(JoinFailed)]))
      && (found.Some? && |games[found.value].players| > 0
          && (forall k :: 0 <= k < |games[found.value].players| ==> games[found.value].players[k].userId != userId)
          ==> r.games != games && r.events == [GameStarted(found.value, r.games[found.value].players,
                                                           r.games[found.value].questions, now)])
      && (r.games != games ==>
            var old_g, g := games[found.value], r.games[found.value];
            && old_g.status == Waiting && old_g.code == Some(code)
            && g.status == InProgress && g.startTime == Some(now)
            && |g.players| == |old_g.players| + 1
            && g.players[|g.players| - 1] == NewPlayer(userId, socketId)
            && (forall k :: 0 <= k < |old_g.players| ==> g.players[k].userId == old_g.players[k].userId != userId)
            && forall id :: id in games && id != found.value ==> r.games[id] == games[id])
  {
    if found.Some? {
      var g := games[found.value];
      var i := FirstIndex(g.players, IsUser(userId));
      if i < 0 {
        assert forall k :: 0 <= k < |g.players| ==> !IsUser(userId)(g.players[k]);
      } else {
        assert IsUser(userId)(g.players[i]);
      }
    }
  }

  /** `handleJoinPrivate` over the store; `found` is the result of the code lookup. */
  method OnJoinPrivate(store: Store, connected: map<UserId, SocketId>, sampler: MatchStage -> seq<QuestionId>,
                       code: string, found: Option<GameId>, userId: UserId, socketId: SocketId, now: Time)
    returns (events: seq<Event>)
    requires FoundBy(store.games, code, found)
    modifies store
    ensures RoomStep(store.games, events) == JoinPrivate(old(store.games), connected, sampler, found, userId, socketId, now)
    ensures store.stats == old(store.stats)
  {
    if found.None? {
      return [Error(InvalidCode)];
    }
    var id := found.value;
    var game := store.games[id];
    var already := FindIndex(game.players, IsUser(userId));
    if already >= 0 {
      return [Error(AlreadyJoined)];
    }
    if |game.players| == 0 {
      return [Error(JoinFailed)];
    }
    var creator := game.players[0];
    if creator.userId in connected && connected[creator.userId] != "" {
      game := game.(players := game.players[0 := creator.(socketId := Some(connected[creator.userId]))]);
    }
    game := game.(players := game.players + [NewPlayer(userId, socketId)]);
    game := game.(status := InProgress, startTime := Some(now));
    var stage := BuildStage(game.topic, Some(game.category));
    var questions := sampler(stage);
    game := game.(questions := questions);
    store.games := store.games[id := game];
    events := [GameStarted(id, game.players, questions, now)];
  }
}
