/**
 * controllers/leaderboardController.js: the top users by XP with their ranks,
 * the caller's entry marked, and the caller's own rank.
 */
module Leaderboard {
  import opened Common
  import opened Models

  /** The fields the query selects from a user document, with its id. */
  datatype Summary = Summary(id: UserId, name: string, xp: int, streak: nat, tasksCompleted: nat, totalHoursCoded: real, avatar: string)

  /** How many users the leaderboard lists. */
  const ListSize: nat := 20

  predicate SortedByXp(s: seq<Summary>)
  {
    forall i, j :: 0 <= i < j < |s| ==> s[i].xp >= s[j].xp
  }

  // ---------------------------------------------------------------------------
  // The query: users ordered by XP, highest first, limited to 20

  /** Puts `x` into a list sorted by XP, before the entries with the same XP. */
  function Insert(x: Summary, s: seq<Summary>): (r: seq<Summary>)
    requires SortedByXp(s)
    ensures SortedByXp(r)
    ensures multiset(r) == multiset(s) + multiset{x}
    ensures |r| == |s| + 1
    ensures r[0] == x || (s != [] && r[0] == s[0])
  {
    if s == [] then [x]
    else if x.xp >= s[0].xp then
      ConsSorted(x, s);
      [x] + s
    else
      var rest := Insert(x, s[1..]);
      ConsSorted(s[0], rest);
      assert s == [s[0]] + s[1..];
      [s[0]] + rest
  }

  /** A sorted list stays sorted under a head with at least the XP of its first entry. */
  lemma ConsSorted(h: Summary, s: seq<Summary>)
    requires SortedByXp(s) && (s == [] || h.xp >= s[0].xp)
    ensures SortedByXp([h] + s)
  {
    var r := [h] + s;
    forall i, j | 0 <= i < j < |r| ensures r[i].xp >= r[j].xp {
      assert r[j] == s[j - 1];
      if i > 0 {
        assert r[i] == s[i - 1];
      }
    }
  }

  /** `sort({ xp: -1 })`: a stable sort by XP, highest first. */
  function SortByXp(s: seq<Summary>): (r: seq<Summary>)
    ensures SortedByXp(r)
    ensures multiset(r) == multiset(s)
    ensures |r| == |s|
  {
    if s == [] then []
    else
      assert s == [s[0]] + s[1..];
      Insert(s[0], SortByXp(s[1..]))
  }

  /** `.limit(20)` after the sort. */
  function TopByXp(all: seq<Summary>): (top: seq<Summary>)
    ensures SortedByXp(top)
    ensures |top| == if |all| < ListSize then |all| else ListSize
    ensures multiset(top) <= multiset(all)
  {
    var sorted := SortByXp(all);
    var n := if |sorted| < ListSize then |sorted| else ListSize;
    assert sorted == sorted[..n] + sorted[n..];
    sorted[..n]
  }

  /**
   * Nobody left off the list has more XP than anyone on it, and someone is
   * left off only when the list is full.
   */
  lemma TopIsTop(all: seq<Summary>, v: Summary)
    requires v in all && v !in TopByXp(all)
    ensures |TopByXp(all)| == ListSize
    ensures forall w :: w in TopByXp(all) ==> w.xp >= v.xp
  {
    var sorted := SortByXp(all);
    var top := TopByXp(all);
    assert v in multiset(sorted);
    var k :| 0 <= k < |sorted| && sorted[k] == v;
    assert top == sorted[..|top|];
    assert forall i :: 0 <= i < |top| ==> sorted[i] == top[i] && top[i] != v;
    assert k >= |top|;
    forall w | w in top ensures w.xp >= v.xp {
      var i :| 0 <= i < |top| && top[i] == w;
      assert sorted[i] == w;
    }
  }

  // ---------------------------------------------------------------------------
  // Ranks

  /** `findIndex` by id: the first position of the user, if listed. */
  function FindIndex(list: seq<Summary>, uid: UserId): (k: Option<nat>)
    ensures k.None? <==> forall i :: 0 <= i < |list| ==> list[i].id != uid
    ensures k.Some? ==> k.value < |list| && list[k.value].id == uid &&
                        forall i :: 0 <= i < k.value ==> list[i].id != uid
  {
    if list == [] then None
    else if list[0].id == uid then Some(0)
    else
      match FindIndex(list[1..], uid)
      case None => None
      case Some(k) => Some(k + 1)
  }

  /** `countDocuments({ xp: { $gt: xp } })`: how many users have strictly more XP. */
  function CountAbove(all: seq<Summary>, xp: int): (n: nat)
    ensures n <= |all|
    ensures n == 0 <==> forall i :: 0 <= i < |all| ==> all[i].xp <= xp
    ensures n == |all| <==> forall i :: 0 <= i < |all| ==> all[i].xp > xp
  {
    if all == [] then 0
    else
      var rest := CountAbove(all[1..], xp);
      assert forall i :: 1 <= i < |all| ==> all[i] == all[1..][i - 1];
      (if all[0].xp > xp then 1 else 0) + rest
  }

  /** One leaderboard line: the user's fields plus rank and the caller flag. */
  datatype Entry = Entry(user: Summary, rank: nat, isCurrentUser: bool)

  /** The `map` that numbers the list from 1 and marks the caller. */
  function RankEntries(list: seq<Summary>, uid: UserId): (entries: seq<Entry>)
    ensures |entries| == |list|
  {
    seq(|list|, i requires 0 <= i < |list| => Entry(list[i], i + 1, list[i].id == uid))
  }

  /** The caller's rank as reported beside the list. */
  datatype UserRank = UserRank(user: Summary, rank: nat)

  datatype Board = Board(leaderboard: seq<Entry>, userRank: Option<UserRank>, timeframe: string)

  /**
   * The users the list is drawn from. The weekly and monthly filters test a
   * `lastActivity` field that no user document carries, so they match nobody.
   */
  function Candidates(all: seq<Summary>, timeframe: string): (c: seq<Summary>)
    ensures timeframe != "weekly" && timeframe != "monthly" ==> c == all
    ensures timeframe == "weekly" || timeframe == "monthly" ==> c == []
  {
    if timeframe == "weekly" || timeframe == "monthly" then [] else all
  }

  /**
   * The caller's rank: their position when listed; otherwise, when the caller
   * exists, one more than the number of users with strictly more XP;
   * otherwise null.
   */
  function CallerRank(all: seq<Summary>, users: seq<Summary>, uid: UserId): (r: Option<UserRank>)
    ensures r.None? <==> (forall i :: 0 <= i < |users| ==> users[i].id != uid) &&
                         (forall i :: 0 <= i < |all| ==> all[i].id != uid)
  {
    match FindIndex(users, uid)
    case Some(k) => Some(UserRank(users[k], k + 1))
    case None =>
      match FindIndex(all, uid)
      case Some(j) => Some(UserRank(all[j], CountAbove(all, all[j].xp) + 1))
      case None => None
  }

  /**
   * `getLeaderboard`: the top 20 by XP, ranked and marked, and the caller's
   * rank. The lines are the query result in order: ranks run 1..n, each line
   * keeps its user's fields, and a line is marked exactly when it is the
   * caller's.
   */
  function GetLeaderboard(all: seq<Summary>, uid: UserId, timeframe: string): (b: Board)
    ensures |b.leaderboard| <= ListSize
    ensures b.timeframe == timeframe
    ensures var users := TopByXp(Candidates(all, timeframe));
            && |b.leaderboard| == |users|
            && SortedByXp(users)
            && forall i :: 0 <= i < |users| ==>
                 && b.leaderboard[i].user == users[i]
                 && b.leaderboard[i].rank == i + 1
                 && (b.leaderboard[i].isCurrentUser <==> users[i].id == uid)
  {
    var users := TopByXp(Candidates(all, timeframe));
    Board(RankEntries(users, uid), CallerRank(all, users, uid), timeframe)
  }

  /**
   * The request as it arrives: a query without `timeframe` asks for
   * 'all-time', which filters nobody out.
   */
  function GetLeaderboardQuery(all: seq<Summary>, uid: UserId, timeframe: Option<string>): (b: Board)
    ensures timeframe.Some? ==> b == GetLeaderboard(all, uid, timeframe.value)
    ensures timeframe.None? ==> b.timeframe == "all-time" && b == GetLeaderboard(all, uid, "all-time")
    ensures timeframe.None? ==> |b.leaderboard| == |TopByXp(all)|
  {
    GetLeaderboard(all, uid, if timeframe.Some? then timeframe.value else "all-time")
  }

  /** No two entries share an id. */
  predicate DistinctIds(s: seq<Summary>)
  {
    forall i, j :: 0 <= i < j < |s| ==> s[i].id != s[j].id
  }

  /**
   * For a listed caller, with ids distinct, exactly one line is marked and the
   * reported rank is that line's rank.
   */
  lemma ListedCallerAgrees(all: seq<Summary>, uid: UserId, timeframe: string)
    requires DistinctIds(TopByXp(Candidates(all, timeframe)))
    requires exists i :: 0 <= i < |TopByXp(Candidates(all, timeframe))| && TopByXp(Candidates(all, timeframe))[i].id == uid
    ensures var b := GetLeaderboard(all, uid, timeframe);
            && b.userRank.Some?
            && exists i :: 0 <= i < |b.leaderboard| &&
                 b.leaderboard[i].isCurrentUser && b.leaderboard[i].rank == b.userRank.value.rank &&
                 b.leaderboard[i].user == b.userRank.value.user &&
                 forall j :: 0 <= j < |b.leaderboard| && j != i ==> !b.leaderboard[j].isCurrentUser
  {
    var users := TopByXp(Candidates(all, timeframe));
    var b := GetLeaderboard(all, uid, timeframe);
    var k := FindIndex(users, uid).value;
    assert b.leaderboard[k].isCurrentUser && b.leaderboard[k].rank == k + 1;
  }

  /**
   * For a caller off the list who exists, the rank is one more than the number
   * of users with more XP: 1 exactly when nobody has more, so a tie for first
   * place beyond the 20th line is reported as rank 1.
   */
  lemma OffListRank(all: seq<Summary>, uid: UserId, timeframe: string, j: nat)
    requires j < |all| && all[j].id == uid
    requires forall i :: 0 <= i < |all| && all[i].id == uid ==> i == j
    requires forall v :: v in TopByXp(Candidates(all, timeframe)) ==> v.id != uid
    ensures var b := GetLeaderboard(all, uid, timeframe);
            && b.userRank == Some(UserRank(all[j], CountAbove(all, all[j].xp) + 1))
            && (b.userRank.value.rank == 1 <==> forall i :: 0 <= i < |all| ==> all[i].xp <= all[j].xp)
  {
    var users := TopByXp(Candidates(all, timeframe));
    forall i | 0 <= i < |users| ensures users[i].id != uid { assert users[i] in users; }
    RankBesideList(all, users, uid, j);
    var b := GetLeaderboard(all, uid, timeframe);
    assert b.userRank == CallerRank(all, users, uid);
    var n := CountAbove(all, all[j].xp);
    assert b.userRank.value.rank == n + 1;
  }

  /** The off-list branch of `CallerRank`, for any list the caller is not on. */
  lemma RankBesideList(all: seq<Summary>, users: seq<Summary>, uid: UserId, j: nat)
    requires j < |all| && all[j].id == uid
    requires forall i :: 0 <= i < |all| && all[i].id == uid ==> i == j
    requires forall i :: 0 <= i < |users| ==> users[i].id != uid
    ensures CallerRank(all, users, uid) == Some(UserRank(all[j], CountAbove(all, all[j].xp) + 1))
  {
    FindUnique(all, uid, j);
    assert FindIndex(users, uid) == None;
  }

  /** An id that occurs at `j` and nowhere else is found at `j`. */
  lemma FindUnique(list: seq<Summary>, uid: UserId, j: nat)
    requires j < |list| && list[j].id == uid
    requires forall i :: 0 <= i < |list| && list[i].id == uid ==> i == j
    ensures FindIndex(list, uid) == Some(j)
  {
    var found := FindIndex(list, uid);
    assert found.Some?;
  }

  /** Without a user document for the caller and off the list, there is no rank. */
  lemma UnknownCallerHasNoRank(all: seq<Summary>, uid: UserId, timeframe: string)
    requires forall i :: 0 <= i < |all| ==> all[i].id != uid
    ensures GetLeaderboard(all, uid, timeframe).userRank.None?
  {
    var users := TopByXp(Candidates(all, timeframe));
    assert FindIndex(users, uid).None? by {
      forall i | 0 <= i < |users| ensures users[i].id != uid {
        assert users[i] in multiset(users);
        assert users[i] in multiset(Candidates(all, timeframe));
      }
    }
  }
}
