/** XP, level and streak bookkeeping on a server's `users` collection
    (repositories/level_repository.py). */
module Level {
  import opened Common
  import opened Collection
  import Sorting

  const XpPerLevel: int := 100

  /** `xp // 100 + 1`: the level whose 100-XP band contains `xp`. */
  function CalculateLevel(xp: int): (level: int)
    ensures XpPerLevel * (level - 1) <= xp < XpPerLevel * level
    ensures xp >= 0 ==> level >= 1
  {
    xp / XpPerLevel + 1
  }

  /** The band property pins the level down: no other level fits `xp`. */
  lemma LevelIsUnique(xp: int, level: int)
    requires XpPerLevel * (level - 1) <= xp < XpPerLevel * level
    ensures level == CalculateLevel(xp)
  {
  }

  lemma LevelMonotone(a: int, b: int)
    requires a <= b
    ensures CalculateLevel(a) <= CalculateLevel(b)
  {
  }

  lemma LevelSamples()
    ensures CalculateLevel(0) == 1 && CalculateLevel(99) == 1 && CalculateLevel(100) == 2
  {
  }

  /** `user_ref.get().to_dict() or {}` */
  function UserData(users: Coll<Doc>, uid: string): (d: Doc)
    ensures Find(users, uid).None? ==> d == map[]
    ensures Find(users, uid).Some? ==> d == Find(users, uid).value
  {
    match Find(users, uid)
    case Some(d) => d
    case None => map[]
  }

  /** `set({...}, merge=True)`: the given top-level fields replace or extend
      the stored ones; a missing document is created. */
  function Merge(users: Coll<Doc>, uid: string, fields: Doc): (r: Coll<Doc>)
    ensures Find(r, uid) == Some(UserData(users, uid) + fields)
    ensures forall k :: k != uid ==> Find(r, k) == Find(users, k)
    ensures Ordered(users) ==> Ordered(r)
  {
    Put(users, uid, UserData(users, uid) + fields)
  }

  datatype XpWrite = XpWrite(users: Coll<Doc>, newXp: int)

  /** `add_xp`: the stored XP (default 0) moves by `delta` but never below 0,
      and the level is rewritten from the new XP in the same merge. A stored
      XP that is not a number makes the addition raise. */
  function AddXp(users: Coll<Doc>, uid: string, delta: int): (r: Result<XpWrite>)
    ensures r.Err? <==> !Get(UserData(users, uid), "xp", Int(0)).Int?
    ensures r.Ok? ==>
      var before := Get(UserData(users, uid), "xp", Int(0)).i;
      && r.value.newXp >= 0
      && (before + delta >= 0 ==> r.value.newXp == before + delta)
      && (before + delta < 0 ==> r.value.newXp == 0)
    ensures r.Ok? ==>
      var d := UserData(r.value.users, uid);
      && Find(r.value.users, uid).Some?
      && "xp" in d && d["xp"] == Int(r.value.newXp)
      && "level" in d && d["level"] == Int(CalculateLevel(r.value.newXp))
      && (forall k :: k != "xp" && k != "level" ==>
            (k in d <==> k in UserData(users, uid)) &&
            (k in d ==> d[k] == UserData(users, uid)[k]))
    ensures r.Ok? ==> forall k :: k != uid ==> Find(r.value.users, k) == Find(users, k)
    ensures r.Ok? && Ordered(users) ==> Ordered(r.value.users)
  {
    match Get(UserData(users, uid), "xp", Int(0))
    case Int(current) =>
      var newXp := if current + delta > 0 then current + delta else 0;
      Ok(XpWrite(Merge(users, uid, map["xp" := Int(newXp), "level" := Int(CalculateLevel(newXp))]), newXp))
    case _ => Err(TypeError)
  }

  /** `get_user_xp`: the stored xp and level, each defaulting (0 and 1), and
      (0, 1) for a user with no document. */
  function GetUserXp(users: Coll<Doc>, uid: string): (r: (Value, Value))
    ensures Find(users, uid).None? ==> r == (Int(0), Int(1))
    ensures Find(users, uid).Some? ==>
      var d := Find(users, uid).value;
      && ("xp" in d ==> r.0 == d["xp"]) && ("xp" !in d ==> r.0 == Int(0))
      && ("level" in d ==> r.1 == d["level"]) && ("level" !in d ==> r.1 == Int(1))
  {
    var d := UserData(users, uid);
    if d == map[] then (Int(0), Int(1))
    else (Get(d, "xp", Int(0)), Get(d, "level", Int(1)))
  }

  /** Reading back after `add_xp` gives the XP it returned and the level of
      that XP: stored level and XP never disagree after an update. */
  lemma AddXpThenGetUserXp(users: Coll<Doc>, uid: string, delta: int)
    requires AddXp(users, uid, delta).Ok?
    ensures var w := AddXp(users, uid, delta).value;
            GetUserXp(w.users, uid) == (Int(w.newXp), Int(CalculateLevel(w.newXp)))
  {
  }

  datatype StreakWrite = StreakWrite(users: Coll<Doc>, streak: int)

  /** `update_streak`: one more than the stored streak (default 0) after a
      correct result, 0 otherwise; only the "streak" field is written and the
      new value is returned. Incrementing a non-numeric streak raises. */
  function UpdateStreak(users: Coll<Doc>, uid: string, isCorrect: bool): (r: Result<StreakWrite>)
    ensures r.Err? <==> isCorrect && !Get(UserData(users, uid), "streak", Int(0)).Int?
    ensures r.Ok? && isCorrect ==> r.value.streak == Get(UserData(users, uid), "streak", Int(0)).i + 1
    ensures r.Ok? && !isCorrect ==> r.value.streak == 0
    ensures r.Ok? ==>
      var d := UserData(r.value.users, uid);
      && Find(r.value.users, uid).Some?
      && "streak" in d && d["streak"] == Int(r.value.streak)
      && (forall k :: k != "streak" ==>
            (k in d <==> k in UserData(users, uid)) &&
            (k in d ==> d[k] == UserData(users, uid)[k]))
    ensures r.Ok? ==> forall k :: k != uid ==> Find(r.value.users, k) == Find(users, k)
  {
    var stored := Get(UserData(users, uid), "streak", Int(0));
    if isCorrect then
      match stored
      case Int(s) => Ok(StreakWrite(Merge(users, uid, map["streak" := Int(s + 1)]), s + 1))
      case _ => Err(TypeError)
    else
      Ok(StreakWrite(Merge(users, uid, map["streak" := Int(0)]), 0))
  }

  /** The stored streak after a run of quiz results, in order. */
  function ApplyStreaks(users: Coll<Doc>, uid: string, results: seq<bool>): Result<Coll<Doc>>
    decreases |results|
  {
    if |results| == 0 then Ok(users)
    else
      match UpdateStreak(users, uid, results[0])
      case Err(e) => Err(e)
      case Ok(w) => ApplyStreaks(w.users, uid, results[1..])
  }

  function AllCorrect(k: nat): (r: seq<bool>)
    ensures |r| == k && forall i :: 0 <= i < k ==> r[i]
  {
    seq(k, _ => true)
  }

  /** `k` consecutive correct results raise a streak of `s` to `s + k`. */
  lemma {:induction false} CorrectRunAdds(users: Coll<Doc>, uid: string, s: int, k: nat)
    requires Get(UserData(users, uid), "streak", Int(0)) == Int(s)
    ensures ApplyStreaks(users, uid, AllCorrect(k)).Ok?
    ensures Get(UserData(ApplyStreaks(users, uid, AllCorrect(k)).value, uid), "streak", Int(0)) == Int(s + k)
    decreases k
  {
    if k > 0 {
      var run := AllCorrect(k);
      var w := UpdateStreak(users, uid, true).value;
      assert Get(UserData(w.users, uid), "streak", Int(0)) == Int(s + 1);
      assert run[0] && run[1..] == AllCorrect(k - 1);
      assert ApplyStreaks(users, uid, run) == ApplyStreaks(w.users, uid, AllCorrect(k - 1));
      CorrectRunAdds(w.users, uid, s + 1, k - 1);
    }
  }

  lemma CorrectRunFromZero(users: Coll<Doc>, uid: string, k: nat)
    requires Get(UserData(users, uid), "streak", Int(0)) == Int(0)
    ensures ApplyStreaks(users, uid, AllCorrect(k)).Ok?
    ensures Get(UserData(ApplyStreaks(users, uid, AllCorrect(k)).value, uid), "streak", Int(0)) == Int(k)
  {
    CorrectRunAdds(users, uid, 0, k);
  }

  /** From a user with no streak yet, `k` correct results give streak `k`; a
      wrong result then resets it to 0 whatever it was. */
  lemma StreakFromScratch(users: Coll<Doc>, uid: string, k: nat)
    requires "streak" !in UserData(users, uid)
    ensures ApplyStreaks(users, uid, AllCorrect(k)).Ok?
    ensures Get(UserData(ApplyStreaks(users, uid, AllCorrect(k)).value, uid), "streak", Int(0)) == Int(k)
    ensures UpdateStreak(ApplyStreaks(users, uid, AllCorrect(k)).value, uid, false).value.streak == 0
  {
    assert Get(UserData(users, uid), "streak", Int(0)) == Int(0);
    CorrectRunFromZero(users, uid, k);
    WrongResets(ApplyStreaks(users, uid, AllCorrect(k)).value, uid);
  }

  /** A wrong answer always succeeds and resets the streak. */
  lemma WrongResets(users: Coll<Doc>, uid: string)
    ensures UpdateStreak(users, uid, false).Ok? && UpdateStreak(users, uid, false).value.streak == 0
  {
  }

  // ---------------------------------------------------------------------------
  // Leaderboard

  datatype LeaderRow = LeaderRow(userId: string, xp: int, level: Value)

  predicate XpAtLeast(a: LeaderRow, b: LeaderRow)
  {
    a.xp >= b.xp
  }

  lemma XpAtLeastIsPreorder()
    ensures Sorting.TotalPreorder(XpAtLeast)
  {
  }

  /** The users the query `order_by("xp")` can return (those with a numeric
      xp), as (id, xp, level default 1), in document order. */
  function Ranked(users: Coll<Doc>): (r: seq<LeaderRow>)
    ensures |r| <= |users|
    ensures forall i :: 0 <= i < |r| ==> r[i].userId in Ids(users)
    decreases |users|
  {
    if |users| == 0 then []
    else
      IdsHead(users);
      var d := users[0].body;
      if "xp" in d && d["xp"].Int?
      then [LeaderRow(users[0].id, d["xp"].i, Get(d, "level", Int(1)))] + Ranked(users[1..])
      else Ranked(users[1..])
  }

  /** In a sorted sequence every element past the first `n` is matched or
      beaten by each of the first `n`. */
  lemma SortedPrefixIsTop(all: seq<LeaderRow>, n: nat, e: LeaderRow)
    requires n <= |all|
    requires Sorting.SortedBy(XpAtLeast, all)
    requires e in all && e !in all[..n]
    ensures forall j :: 0 <= j < n ==> all[j].xp >= e.xp
  {
    assert all == all[..n] + all[n..];
    assert e in all[n..];
    var k' :| 0 <= k' < |all[n..]| && all[n..][k'] == e;
    var k := n + k';
    assert all[k] == e;
    forall j | 0 <= j < n ensures all[j].xp >= e.xp {
      assert XpAtLeast(all[j], all[k]);
    }
  }

  /** The first `n` rows of a sorted sequence are a sub-multiset of it and
      are matched or beaten by nothing they leave out. */
  lemma SortedPrefixFacts(all: seq<LeaderRow>, n: nat)
    requires n <= |all|
    requires Sorting.SortedBy(XpAtLeast, all)
    ensures multiset(all[..n]) <= multiset(all)
    ensures forall e :: e in all && e !in all[..n] ==>
              forall j :: 0 <= j < n ==> all[..n][j].xp >= e.xp
  {
    assert all == all[..n] + all[n..];
    assert multiset(all) == multiset(all[..n]) + multiset(all[n..]);
    forall e | e in all && e !in all[..n]
      ensures forall j :: 0 <= j < n ==> all[..n][j].xp >= e.xp
    {
      SortedPrefixIsTop(all, n, e);
    }
  }

  /** Equal multisets have equal members. */
  lemma SameMembers(a: seq<LeaderRow>, b: seq<LeaderRow>)
    requires multiset(a) == multiset(b)
    ensures forall e :: e in a <==> e in b
  {
    forall e ensures e in a <==> e in b {
      assert e in a <==> e in multiset(a);
      assert e in b <==> e in multiset(b);
    }
  }

  /** The best `limit` rows, best first. */
  function TopRows(rows: seq<LeaderRow>, limit: nat): (r: seq<LeaderRow>)
    ensures |r| == (if limit < |rows| then limit else |rows|)
    ensures forall i, j :: 0 <= i < j < |r| ==> r[i].xp >= r[j].xp
    ensures multiset(r) <= multiset(rows)
    ensures forall e :: e in rows && e !in r ==>
              forall j :: 0 <= j < |r| ==> r[j].xp >= e.xp
  {
    XpAtLeastIsPreorder();
    var all := Sorting.Sort(XpAtLeast, rows);
    var n := if limit < |all| then limit else |all|;
    SortedPrefixFacts(all, n);
    SameMembers(rows, all);
    all[..n]
  }

  /** `get_leaderboard(limit)`: the users with the highest XP, best first, at
      most `limit` of them. */
  function GetLeaderboard(users: Coll<Doc>, limit: nat): (r: seq<LeaderRow>)
    ensures |r| == (if limit < |Ranked(users)| then limit else |Ranked(users)|)
    ensures forall i, j :: 0 <= i < j < |r| ==> r[i].xp >= r[j].xp
    ensures multiset(r) <= multiset(Ranked(users))
    ensures forall e :: e in Ranked(users) && e !in r ==>
              forall j :: 0 <= j < |r| ==> r[j].xp >= e.xp
  {
    TopRows(Ranked(users), limit)
  }
}
