/**
 * The arithmetic of the leaderboard response: page offset, ranks, win rate, the user-id
 * filter, the current user's rank outside the page, and the page count. The database
 * queries are inputs: the page of records, the records matching the filter, the
 * current user's own record and the id lists of the time window and of the name search.
 */
module Leaderboard {
  import opened Wrappers
  import opened Seqs
  import opened Documents

  const AllTime: string := "all-time"
  const DayMs: int := 24 * 60 * 60 * 1000

  /** One `UserStats` record as the leaderboard reads it, with its populated user. */
  datatype StatsEntry = StatsEntry(
    userId: UserId,
    name: Option<string>,
    avatar: Option<string>,
    rating: Option<int>,
    wins: Option<int>,
    losses: Option<int>)

  /** `x || 0`. */
  function OrZero(x: Option<int>): int {
    if x.Some? then x.value else 0
  }

  /** `(page - 1) * limit`. */
  function Skip(page: int, limit: int): int {
    (page - 1) * limit
  }

  /** The start of the window of games: seven or thirty days back, none otherwise. */
  function Cutoff(timeframe: string, now: Time): (c: Option<Time>)
    ensures c.Some? <==> timeframe == "weekly" || timeframe == "monthly"
    ensures timeframe == "weekly" ==> c == Some(now - 604800000)
    ensures timeframe == "monthly" ==> c == Some(now - 2592000000)
  {
    if timeframe == "weekly" then Some(now - 7 * DayMs)
    else if timeframe == "monthly" then Some(now - 30 * DayMs)
    else None
  }

  /** Wins plus losses: draws are not games here. */
  function Games(e: StatsEntry): int {
    OrZero(e.wins) + OrZero(e.losses)
  }

  /** `Math.round(wins / games * 100)`, or 0 without games, in exact arithmetic. */
  function WinRate(wins: int, games: int): (r: int)
    ensures games <= 0 ==> r == 0
    ensures games > 0 ==> 2 * games * r <= 200 * wins + games < 2 * games * (r + 1)
  {
    if games > 0 then (200 * wins + games) / (2 * games) else 0
  }

  /** A win rate is a percentage when the counts are not negative. */
  lemma WinRateIsPercentage(wins: int, losses: int)
    requires wins >= 0 && losses >= 0
    ensures 0 <= WinRate(wins, wins + losses) <= 100
    ensures losses == 0 && wins > 0 ==> WinRate(wins, wins + losses) == 100
    ensures wins == 0 ==> WinRate(wins, wins + losses) == 0
  {
    var g := wins + losses;
    if g > 0 {
      var r := WinRate(wins, g);
      var d := 2 * g;
      assert d * r <= 200 * wins + g < d * (r + 1);
      if r > 100 {
        MulMonotonicInt(101, r, d);
      }
      if r < 0 {
        MulMonotonicInt(r + 1, 0, d);
      }
      if losses == 0 && r < 100 {
        MulMonotonicInt(r + 1, 100, d);
      }
      if wins == 0 && r > 0 {
        MulMonotonicInt(1, r, d);
      }
    }
  }

  lemma MulMonotonicInt(a: int, b: int, c: int)
    requires a <= b && c >= 0
    ensures a * c <= b * c
  {
  }

  /** One entry of `leaderboard`. */
  datatype Row = Row(
    rank: int,
    userId: UserId,
    username: Option<string>,
    avatar: Option<string>,
    rating: int,
    games: int,
    winRate: int,
    isCurrentUser: bool)

  /** `isCurrentUser`: only with a logged-in user. */
  function IsCurrent(e: StatsEntry, currentUser: Option<UserId>): bool {
    currentUser.Some? && currentUser.value != "" && e.userId == currentUser.value
  }

  function FormatRow(e: StatsEntry, rank: int, currentUser: Option<UserId>): Row {
    Row(rank, e.userId, e.name, e.avatar, OrZero(e.rating), Games(e), WinRate(OrZero(e.wins), Games(e)), IsCurrent(e, currentUser))
  }

  /** The page's rows: ranks count on from the offset, in result order. */
  function FormatPage(page: seq<StatsEntry>, skip: int, currentUser: Option<UserId>): (rows: seq<Row>)
    ensures |rows| == |page|
    ensures forall i :: 0 <= i < |rows| ==> rows[i].rank == skip + i + 1 && rows[i].userId == page[i].userId
    ensures forall i :: 0 <= i && i + 1 < |rows| ==> rows[i + 1].rank == rows[i].rank + 1
    ensures forall i :: 0 <= i < |rows| ==> rows[i].games == OrZero(page[i].wins) + OrZero(page[i].losses)
    ensures forall i :: 0 <= i < |rows| ==> rows[i].rating == OrZero(page[i].rating)
    ensures forall i :: 0 <= i < |rows| ==> rows[i].winRate == WinRate(OrZero(page[i].wins), rows[i].games)
    ensures forall i :: 0 <= i < |rows| ==> (rows[i].isCurrentUser <==> IsCurrent(page[i], currentUser))
  {
    seq(|page|, i requires 0 <= i < |page| => FormatRow(page[i], skip + i + 1, currentUser))
  }

  /** The user-id condition of the query. */
  datatype UserFilter = AnyUser | Among(ids: seq<UserId>)

  /** `a.filter(id => b.some(uid => uid.equals(id)))`. */
  function Intersect(a: seq<UserId>, b: seq<UserId>): (r: seq<UserId>)
    ensures |r| <= |a|
    ensures forall x :: x in r <==> x in a && x in b
  {
    if a == [] then []
    else (if a[0] in b then [a[0]] else []) + Intersect(a[1..], b)
  }

  /**
   * The query's user-id condition: players of the window when the timeframe is not
   * all-time, users whose name matches when searching, and the intersection with both.
   */
  method BuildUserFilter(timeframe: string, recent: seq<UserId>, search: string, named: seq<UserId>) returns (f: UserFilter)
    ensures f.AnyUser? <==> timeframe == AllTime && search == ""
    ensures f.Among? ==> forall x :: x in f.ids <==> (timeframe != AllTime ==> x in recent) && (search != "" ==> x in named)
  {
    f := AnyUser;
    if timeframe != AllTime {
      f := Among(recent);
    }
    if search != "" {
      if f.Among? {
        f := Among(Intersect(f.ids, named));
      } else {
        f := Among(named);
      }
    }
  }

  /** `countDocuments({ ...query, "overall.rating": { $gt: rating } })` over the matching records. */
  function HigherCount(entries: seq<StatsEntry>, rating: int): (n: nat)
    ensures n <= |entries|
    ensures n == 0 <==> forall i :: 0 <= i < |entries| ==> !(entries[i].rating.Some? && entries[i].rating.value > rating)
    ensures n == |entries| <==> forall i :: 0 <= i < |entries| ==> entries[i].rating.Some? && entries[i].rating.value > rating
  {
    if entries == [] then 0
    else (if entries[0].rating.Some? && entries[0].rating.value > rating then 1 else 0) + HigherCount(entries[1..], rating)
  }

  /** A higher threshold never counts more records. */
  lemma {:induction false} HigherCountAntitone(entries: seq<StatsEntry>, low: int, high: int)
    requires low <= high
    ensures HigherCount(entries, high) <= HigherCount(entries, low)
  {
    if entries != [] {
      HigherCountAntitone(entries[1..], low, high);
    }
  }

  /** Records in descending order of rating, every one rated: the order of the page query. */
  ghost predicate SortedByRating(es: seq<StatsEntry>) {
    && (forall i :: 0 <= i < |es| ==> es[i].rating.Some?)
    && (forall i, j :: 0 <= i < j < |es| ==> es[i].rating.value >= es[j].rating.value)
  }

  lemma {:induction false} NoneHigher(es: seq<StatsEntry>, t: int)
    requires forall i :: 0 <= i < |es| ==> es[i].rating.Some? && es[i].rating.value <= t
    ensures HigherCount(es, t) == 0
  {
    if es != [] {
      NoneHigher(es[1..], t);
    }
  }

  /**
   * In the sorted list, the rank by the `$gt` rule is at most the list position plus one,
   * and equal to it unless the record ties with the one before: tied users share the rank
   * of the first of them.
   */
  lemma {:induction false} RankByHigherCount(es: seq<StatsEntry>, j: int)
    requires SortedByRating(es) && 0 <= j < |es|
    ensures 1 + HigherCount(es, es[j].rating.value) <= j + 1
    ensures (j == 0 || es[j - 1].rating.value > es[j].rating.value) ==> 1 + HigherCount(es, es[j].rating.value) == j + 1
  {
    var t := es[j].rating.value;
    if j == 0 {
      NoneHigher(es[1..], t);
    } else {
      var rest := es[1..];
      assert rest[j - 1] == es[j];
      assert SortedByRating(rest);
      RankByHigherCount(rest, j - 1);
    }
  }

  /** `userPosition`. */
  datatype Position = Position(
    rank: int,
    userId: UserId,
    username: Option<string>,
    avatar: Option<string>,
    rating: int,
    games: int,
    winRate: int)

  function IsCurrentRow(): Row -> bool {
    (r: Row) => r.isCurrentUser
  }

  /**
   * The current user's position, computed only for a logged-in user who is not on the
   * page and has a stats record (`own`, looked up without the query's filter): one plus
   * the number of matching records rated strictly higher.
   */
  method UserPosition(currentUser: Option<UserId>, rows: seq<Row>, own: Option<StatsEntry>, matching: seq<StatsEntry>)
    returns (userPosition: Option<Position>)
    ensures userPosition.Some? <==>
      && currentUser.Some? && currentUser.value != ""
      && (forall i :: 0 <= i < |rows| ==> !rows[i].isCurrentUser)
      && own.Some?
    ensures userPosition.Some? ==>
      var e := own.value;
      && userPosition.value.rank == 1 + HigherCount(matching, OrZero(e.rating))
      && 1 <= userPosition.value.rank <= |matching| + 1
      && userPosition.value.rating == OrZero(e.rating)
      && userPosition.value.games == Games(e)
      && userPosition.value.winRate == WinRate(OrZero(e.wins), Games(e))
  {
    userPosition := None;
    if currentUser.Some? && currentUser.value != "" {
      var inPage := FindIndex(rows, IsCurrentRow());
      if inPage < 0 {
        if own.Some? {
          var e := own.value;
          var higherRankedCount := HigherCount(matching, OrZero(e.rating));
          var totalGames := Games(e);
          userPosition := Some(Position(higherRankedCount + 1, e.userId, e.name, e.avatar, OrZero(e.rating),
                                        totalGames, WinRate(OrZero(e.wins), totalGames)));
        }
      } else {
        assert IsCurrentRow()(rows[inPage]);
      }
    }
  }

  /** `Math.ceil(totalCount / limit)`; no finite number for a zero limit. */
  function TotalPages(count: nat, limit: int): (p: Option<int>)
    ensures p.None? <==> limit == 0
    ensures limit > 0 ==> (p.value - 1) * limit < count <= p.value * limit
    ensures limit < 0 ==> p.value * limit <= count < (p.value - 1) * limit
  {
    if limit == 0 then None
    else if limit > 0 then Some((count + limit - 1) / limit)
    else Some(-(count / (-limit)))
  }
}
