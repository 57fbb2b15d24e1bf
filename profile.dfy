/**
 * The match list and the rating history of the profile response, built from the
 * user's finished games with their players' users populated.
 */
module Profile {
  import opened Wrappers
  import opened Seqs
  import opened Documents

  const Random: string := "RANDOM"

  /** A populated `players.userId`: the user's id, name and avatar. */
  datatype UserRef = UserRef(id: UserId, name: Option<string>, avatar: Option<string>)

  /** One player of a finished game; `user` is `None` when the referenced user no longer exists. */
  datatype MatchPlayer = MatchPlayer(user: Option<UserRef>, result: Option<Outcome>, ratingChange: Option<int>, newRating: Option<int>)

  datatype Match = Match(id: GameId, players: seq<MatchPlayer>, topic: Option<string>, endTime: Option<Time>)

  datatype Opponent = Opponent(name: Option<string>, avatar: Option<string>)

  /** One entry of `matches` in the response. */
  datatype MatchSummary = MatchSummary(
    id: GameId,
    opponent: Opponent,
    result: Option<Outcome>,
    ratingChange: Option<int>,
    topic: string,
    date: Option<Time>)

  /** One entry of `ratingHistory`. */
  datatype HistoryPoint = HistoryPoint(date: Option<Time>, rating: Option<int>)

  const UnknownOpponent: Opponent := Opponent(Some("Unknown"), Some(""))

  /** The guarded test for the user's own entry. */
  function IsSelf(u: UserId): MatchPlayer -> bool {
    (p: MatchPlayer) => p.user.Some? && p.user.value.id != "" && p.user.value.id == u
  }

  /** The guarded test for an opponent entry. */
  function IsOpponent(u: UserId): MatchPlayer -> bool {
    (p: MatchPlayer) => p.user.Some? && p.user.value.id != "" && p.user.value.id != u
  }

  /** `CS-ALL` for a RANDOM game, otherwise `CS-` and the topic as JavaScript prints it. */
  function TopicLabel(topic: Option<string>): (tag: string)
    ensures topic == Some(Random) ==> tag == "CS-ALL"
    ensures topic.Some? && topic.value != Random ==> tag == "CS-" + topic.value
    ensures |tag| >= 3 && tag[..3] == "CS-"
  {
    "CS-" + (if topic == Some(Random) then "ALL" else if topic.Some? then topic.value else "undefined")
  }

  /**
   * A match as the user sees it: their own result and rating change, the first other
   * populated player as opponent, or Unknown; no own entry, no summary.
   */
  function Summary(m: Match, u: UserId): (s: Option<MatchSummary>)
    ensures s.None? <==> forall k :: 0 <= k < |m.players| ==> !IsSelf(u)(m.players[k])
    ensures s.Some? ==>
      && s.value.id == m.id && s.value.date == m.endTime && s.value.topic == TopicLabel(m.topic)
      && (exists k :: 0 <= k < |m.players| && IsSelf(u)(m.players[k])
           && (forall j :: 0 <= j < k ==> !IsSelf(u)(m.players[j]))
           && s.value.result == m.players[k].result && s.value.ratingChange == m.players[k].ratingChange)
    ensures s.Some? && (forall k :: 0 <= k < |m.players| ==> !IsOpponent(u)(m.players[k])) ==> s.value.opponent == UnknownOpponent
    ensures s.Some? && (exists k :: 0 <= k < |m.players| && IsOpponent(u)(m.players[k])) ==>
      exists k :: 0 <= k < |m.players| && IsOpponent(u)(m.players[k])
        && (forall j :: 0 <= j < k ==> !IsOpponent(u)(m.players[j]))
        && s.value.opponent == Opponent(m.players[k].user.value.name, m.players[k].user.value.avatar)
  {
    var i := FirstIndex(m.players, IsSelf(u));
    var o := FirstIndex(m.players, IsOpponent(u));
    if i < 0 then None
    else
      var me := m.players[i];
      var shown := if o >= 0 then Opponent(m.players[o].user.value.name, m.players[o].user.value.avatar) else UnknownOpponent;
      Some(MatchSummary(m.id, shown, me.result, me.ratingChange, TopicLabel(m.topic), m.endTime))
  }

  /** `formattedMatches`: the summaries, in order, of the matches that have an own entry. */
  function FormatMatches(ms: seq<Match>, u: UserId): (r: seq<MatchSummary>)
    ensures |r| <= |ms|
    ensures forall i :: 0 <= i < |r| ==> exists k :: 0 <= k < |ms| && Summary(ms[k], u) == Some(r[i])
  {
    if ms == [] then []
    else
      var rest := FormatMatches(ms[1..], u);
      SourcesInTail(ms, rest, u);
      match Summary(ms[0], u)
      case None => rest
      case Some(s) => [s] + rest
  }

  /** A summary drawn from the matches after the first is drawn from the matches. */
  lemma SourcesInTail(ms: seq<Match>, rest: seq<MatchSummary>, u: UserId)
    requires ms != []
    requires forall i :: 0 <= i < |rest| ==> exists k :: 0 <= k < |ms[1..]| && Summary(ms[1..][k], u) == Some(rest[i])
    ensures forall i :: 0 <= i < |rest| ==> exists k :: 0 <= k < |ms| && Summary(ms[k], u) == Some(rest[i])
  {
    forall i | 0 <= i < |rest|
      ensures exists k :: 0 <= k < |ms| && Summary(ms[k], u) == Some(rest[i])
    {
      var k :| 0 <= k < |ms[1..]| && Summary(ms[1..][k], u) == Some(rest[i]);
      assert ms[k + 1] == ms[1..][k];
    }
  }

  /** The summary of one match as a list: itself when the user has an own entry, nothing otherwise. */
  function Summaries(m: Match, u: UserId): seq<MatchSummary> {
    if Summary(m, u).Some? then [Summary(m, u).value] else []
  }

  /** The first match contributes its summary, if any, ahead of the rest. */
  lemma FormatMatchesCons(m: Match, rest: seq<Match>, u: UserId)
    ensures FormatMatches([m] + rest, u) == Summaries(m, u) + FormatMatches(rest, u)
  {
    var ms := [m] + rest;
    assert ms[0] == m && ms[1..] == rest;
  }

  /** One match yields its summary, or nothing. */
  lemma FormatMatchesSingle(m: Match, u: UserId)
    ensures FormatMatches([m], u) == Summaries(m, u)
  {
    FormatMatchesCons(m, [], u);
    assert [m] + [] == [m];
  }

  /**
   * The summaries of consecutive match lists are concatenated: with `FormatMatchesSingle`,
   * the result is the summaries in match order, at most one per match.
   */
  lemma {:induction false} FormatMatchesAppend(a: seq<Match>, b: seq<Match>, u: UserId)
    ensures FormatMatches(a + b, u) == FormatMatches(a, u) + FormatMatches(b, u)
  {
    if a == [] {
      assert a + b == b;
    } else {
      var tail := a[1..];
      ConsAppend(a, b);
      FormatMatchesAppend(tail, b, u);
      FormatMatchesCons(a[0], tail + b, u);
      FormatMatchesCons(a[0], tail, u);
      AppendAssociative(Summaries(a[0], u), FormatMatches(tail, u), FormatMatches(b, u));
    }
  }

  /** Matches with an own entry. */
  function WithSelf(ms: seq<Match>, u: UserId): nat {
    if ms == [] then 0 else (if Summary(ms[0], u).Some? then 1 else 0) + WithSelf(ms[1..], u)
  }

  /** Exactly the matches without an own entry are dropped. */
  lemma FormatMatchesDropsOnlyForeign(ms: seq<Match>, u: UserId)
    ensures |FormatMatches(ms, u)| == WithSelf(ms, u)
    ensures |FormatMatches(ms, u)| == |ms| <==> forall k :: 0 <= k < |ms| ==> Summary(ms[k], u).Some?
  {
    FormatMatchesLength(ms, u);
    WithSelfAll(ms, u);
  }

  lemma {:induction false} FormatMatchesLength(ms: seq<Match>, u: UserId)
    ensures |FormatMatches(ms, u)| == WithSelf(ms, u)
  {
    if ms != [] {
      FormatMatchesLength(ms[1..], u);
    }
  }

  /** Every match counts exactly when each has an own entry. */
  lemma {:induction false} WithSelfAll(ms: seq<Match>, u: UserId)
    ensures WithSelf(ms, u) <= |ms|
    ensures WithSelf(ms, u) == |ms| <==> forall k :: 0 <= k < |ms| ==> Summary(ms[k], u).Some?
  {
    if ms != [] {
      var rest := ms[1..];
      WithSelfAll(rest, u);
      if forall k :: 0 <= k < |ms| ==> Summary(ms[k], u).Some? {
        forall k | 0 <= k < |rest| ensures Summary(rest[k], u).Some? {
          assert rest[k] == ms[k + 1];
        }
      } else if Summary(ms[0], u).Some? {
        var k :| 0 <= k < |ms| && Summary(ms[k], u).None?;
        assert k > 0 && rest[k - 1] == ms[k];
      }
    }
  }

  /** The unguarded lookup of the rating history: it fails on a player whose user is gone. */
  datatype SelfScan = Found(player: MatchPlayer) | NotFound | Fails

  function UnguardedSelf(players: seq<MatchPlayer>, u: UserId): SelfScan {
    if players == [] then NotFound
    else if players[0].user.None? then Fails
    else if players[0].user.value.id == u then Found(players[0])
    else UnguardedSelf(players[1..], u)
  }

  /** Where the unguarded lookup succeeds it finds the same entry as the guarded one. */
  lemma {:induction false} UnguardedAgrees(players: seq<MatchPlayer>, u: UserId)
    requires u != ""
    ensures UnguardedSelf(players, u).Found? ==> Find(players, IsSelf(u)) == Some(UnguardedSelf(players, u).player)
    ensures Find(players, IsSelf(u)).None? ==> !UnguardedSelf(players, u).Found?
  {
    if players != [] && players[0].user.Some? && players[0].user.value.id != u {
      UnguardedAgrees(players[1..], u);
      assert !IsSelf(u)(players[0]);
      assert forall k :: 1 <= k < |players| ==> players[k] == players[1..][k - 1];
      if Find(players[1..], IsSelf(u)).None? {
        assert forall k :: 0 <= k < |players| ==> !IsSelf(u)(players[k]);
      } else {
        var i := FirstIndex(players[1..], IsSelf(u));
        FirstIndexUnique(players, IsSelf(u), i + 1);
      }
    } else if players != [] && players[0].user.Some? {
      assert IsSelf(u)(players[0]);
    }
  }

  /** The history points in match order; `None` when some lookup fails. */
  function HistoryPoints(ms: seq<Match>, u: UserId): (r: Option<seq<HistoryPoint>>)
    ensures r.Some? ==> |r.value| == |ms|
  {
    if ms == [] then Some([])
    else
      match UnguardedSelf(ms[0].players, u)
      case Found(p) =>
        var rest := HistoryPoints(ms[1..], u);
        if rest.None? then None else Some([HistoryPoint(ms[0].endTime, p.newRating)] + rest.value)
      case _ => None
  }

  /** `ratingHistory`: `None` stands for the server error the failing lookup causes. */
  function RatingHistory(ms: seq<Match>, u: UserId): (r: Option<seq<HistoryPoint>>)
    ensures r.Some? <==> HistoryPoints(ms, u).Some?
    ensures r.Some? ==> |r.value| == |ms| && forall i :: 0 <= i < |ms| ==> r.value[i] == HistoryPoints(ms, u).value[|ms| - 1 - i]
  {
    var points := HistoryPoints(ms, u);
    if points.None? then None else Some(Reverse(points.value))
  }

  /** The history points exist exactly when the unguarded lookup finds the user in every match. */
  lemma {:induction false} HistoryPointsDefined(ms: seq<Match>, u: UserId)
    ensures HistoryPoints(ms, u).Some? <==> forall k :: 0 <= k < |ms| ==> UnguardedSelf(ms[k].players, u).Found?
  {
    if ms != [] {
      var rest := ms[1..];
      HistoryPointsDefined(rest, u);
      if forall k :: 0 <= k < |ms| ==> UnguardedSelf(ms[k].players, u).Found? {
        forall k | 0 <= k < |rest| ensures UnguardedSelf(rest[k].players, u).Found? {
          assert rest[k] == ms[k + 1];
        }
      } else {
        var k :| 0 <= k < |ms| && !UnguardedSelf(ms[k].players, u).Found?;
        if k > 0 {
          assert ms[k] == rest[k - 1];
        }
      }
    }
  }

  /** Point `k` of the history comes from match `k` and the user's own entry in it. */
  lemma {:induction false} HistoryPointsContents(ms: seq<Match>, u: UserId)
    requires u != ""
    requires HistoryPoints(ms, u).Some?
    ensures var h := HistoryPoints(ms, u).value;
      && |h| == |ms|
      && forall k :: 0 <= k < |ms| ==>
           Find(ms[k].players, IsSelf(u)).Some? &&
           h[k] == HistoryPoint(ms[k].endTime, Find(ms[k].players, IsSelf(u)).value.newRating)
  {
    if ms != [] {
      var rest := ms[1..];
      var s0 := UnguardedSelf(ms[0].players, u);
      assert s0.Found?;
      HistoryPointsContents(rest, u);
      UnguardedAgrees(ms[0].players, u);
      var h := HistoryPoints(ms, u).value;
      var hr := HistoryPoints(rest, u).value;
      assert h == [HistoryPoint(ms[0].endTime, s0.player.newRating)] + hr;
      forall k | 0 <= k < |ms|
        ensures Find(ms[k].players, IsSelf(u)).Some?
        ensures h[k] == HistoryPoint(ms[k].endTime, Find(ms[k].players, IsSelf(u)).value.newRating)
      {
        if k > 0 {
          assert ms[k] == rest[k - 1];
          assert h[k] == hr[k - 1];
        }
      }
    }
  }

  /**
   * The rating history has one point per match, newest match last reversed to first:
   * point `i` is the match `|ms| - 1 - i` with the user's own new rating. A match whose
   * players do not include the user makes the whole profile request fail.
   */
  lemma RatingHistoryReversesMatches(ms: seq<Match>, u: UserId)
    requires u != ""
    ensures var h := RatingHistory(ms, u);
      && (h.Some? ==> |h.value| == |ms| && forall i :: 0 <= i < |ms| ==>
            Find(ms[|ms| - 1 - i].players, IsSelf(u)).Some? &&
            h.value[i] == HistoryPoint(ms[|ms| - 1 - i].endTime, Find(ms[|ms| - 1 - i].players, IsSelf(u)).value.newRating))
      && ((exists k :: 0 <= k < |ms| && Summary(ms[k], u).None?) ==> h.None?)
  {
    HistoryPointsDefined(ms, u);
    if HistoryPoints(ms, u).Some? {
      HistoryPointsContents(ms, u);
      var h := HistoryPoints(ms, u).value;
      var r := Reverse(h);
      assert RatingHistory(ms, u) == Some(r);
      forall i | 0 <= i < |ms|
        ensures Find(ms[|ms| - 1 - i].players, IsSelf(u)).Some?
        ensures r[i] == HistoryPoint(ms[|ms| - 1 - i].endTime, Find(ms[|ms| - 1 - i].players, IsSelf(u)).value.newRating)
      {
        assert r[i] == h[|ms| - 1 - i];
      }
    }
    if exists k :: 0 <= k < |ms| && Summary(ms[k], u).None? {
      var k :| 0 <= k < |ms| && Summary(ms[k], u).None?;
      UnguardedAgrees(ms[k].players, u);
    }
  }
}
