/** The three rank commands (commands/level_commands.py): the numbered top-5
    listing, and the level-progress bar of `/my_rank` and `/user_rank`. Member
    lookups and the permission check are callbacks outside this model, so
    their outcomes arrive as arguments. */
module Rank {
  import opened Common
  import opened Collection
  import opened Level

  /** Python's `int(a / b)`: the exact quotient truncated toward zero. */
  function TruncDiv(a: int, b: int): (q: int)
    requires b != 0
    ensures b > 0 && a >= 0 ==> q * b <= a < (q + 1) * b
    ensures b > 0 && a < 0 ==> (q - 1) * b < a <= q * b
    ensures (a >= 0) == (b > 0) || a == 0 ==> q >= 0
    ensures (a > 0 && b < 0) || (a < 0 && b > 0) ==> q <= 0
    decreases if b < 0 then 1 else 0
  {
    if b < 0 then TruncDiv(-a, -b)
    else if a >= 0 then DivBounds(a, b); a / b
    else NegDivBounds(a, b); -((-a) / b)
  }

  lemma DivBounds(a: int, b: int)
    requires a >= 0 && b > 0
    ensures a / b >= 0 && (a / b) * b <= a < (a / b + 1) * b
  {
    var q, r := a / b, a % b;
    assert a == b * q + r;
    assert (q + 1) * b == q * b + b;
  }

  lemma NegDivBounds(a: int, b: int)
    requires a < 0 && b > 0
    ensures var q := -((-a) / b); q <= 0 && (q - 1) * b < a <= q * b
  {
    var n := (-a) / b;
    DivBounds(-a, b);
    assert (-n - 1) * b == -((n + 1) * b);
    assert -n * b == -(n * b);
  }

  /** A number as Python arithmetic sees it: `bool` is a subclass of `int`;
      every other stored value makes `-` or `*` with an int raise. */
  function AsNumber(v: Value): (r: Option<int>)
    ensures v.Int? ==> r == Some(v.i)
    ensures !v.Int? && !v.Bool? ==> r.None?
  {
    match v
    case Int(i) => Some(i)
    case Bool(b) => Some(if b then 1 else 0)
    case _ => None
  }

  /** What a progress reply shows: "Level {level} ({inLevel}/{outOf} XP)"
      over a bar of `filled` blue and `empty` white circles. */
  datatype Progress = Progress(level: int, inLevel: int, outOf: int, filled: nat, empty: nat)

  datatype ProgressReply = Shown(progress: Progress) | Failed

  /** `"🔵" * p + "⚪" * (10 - p)`: a repetition count below zero gives "". */
  function Bar(level: int, inLevel: int, outOf: int, percent: int): (p: Progress)
    ensures p.filled + p.empty == 10 || percent < 0 || percent > 10
    ensures 0 <= percent <= 10 ==> p.filled == percent
    ensures percent < 0 ==> p.filled == 0 && p.empty == 10 - percent
    ensures percent > 10 ==> p.filled == percent && p.empty == 0
  {
    Progress(level, inLevel, outOf,
             if percent > 0 then percent else 0,
             if 10 - percent > 0 then 10 - percent else 0)
  }

  /** `personal_rank`: progress inside the current level, measured against a
      fixed 100 XP. */
  function MyRank(xp: Value, level: Value): (r: ProgressReply)
    ensures r.Shown? <==> AsNumber(xp).Some? && AsNumber(level).Some?
    ensures r.Shown? ==>
      var inLevel := AsNumber(xp).value - 100 * (AsNumber(level).value - 1);
      && r.progress.level == AsNumber(level).value
      && r.progress.inLevel == inLevel
      && r.progress.outOf == 100
      && r.progress == Bar(AsNumber(level).value, inLevel, 100, TruncDiv(10 * inLevel, 100))
  {
    match (AsNumber(xp), AsNumber(level))
    case (Some(x), Some(l)) =>
      var inLevel := x - 100 * (l - 1);
      Shown(Bar(l, inLevel, 100, TruncDiv(10 * inLevel, 100)))
    case _ => Failed
  }

  /** When the stored level is the level of the stored XP, the XP inside the
      level lies in [0, 99], the bar shows one circle per full 10 XP of it and
      always has ten circles. */
  lemma MyRankConsistent(xp: int)
    ensures var r := MyRank(Int(xp), Int(CalculateLevel(xp)));
      && r.Shown?
      && 0 <= r.progress.inLevel < 100
      && r.progress.inLevel == xp - 100 * (CalculateLevel(xp) - 1)
      && r.progress.filled == r.progress.inLevel / 10
      && r.progress.filled + r.progress.empty == 10
  {
    var inLevel := xp - 100 * (CalculateLevel(xp) - 1);
    var q := TruncDiv(10 * inLevel, 100);
    assert q == inLevel / 10;
  }

  /** Reading a user back after an XP update always yields a well-formed bar:
      the numbers `/my_rank` shows are those of the XP `add_xp` returned. */
  lemma MyRankAfterAddXp(users: Coll<Doc>, uid: string, delta: int)
    requires AddXp(users, uid, delta).Ok?
    ensures var w := AddXp(users, uid, delta).value;
            var xl := GetUserXp(w.users, uid);
            var r := MyRank(xl.0, xl.1);
      && r.Shown?
      && r.progress.level == CalculateLevel(w.newXp)
      && r.progress.inLevel == w.newXp % 100
      && r.progress.filled == w.newXp % 100 / 10
      && r.progress.filled + r.progress.empty == 10
  {
    var w := AddXp(users, uid, delta).value;
    AddXpThenGetUserXp(users, uid, delta);
    MyRankConsistent(w.newXp);
  }

  /** `user_rank`: the permission check runs first and, when it raises, the
      reply is the error message and no lookup happens; otherwise progress is
      measured against `100 * level`, so level 0 divides by zero. */
  datatype UserRankReply = UserRankReply(reply: ProgressReply, lookedUp: bool)

  function UserRank(verificationRaises: bool, xp: Value, level: Value): (r: UserRankReply)
    ensures verificationRaises ==> r == UserRankReply(Failed, false)
    ensures !verificationRaises ==> r.lookedUp
    ensures !verificationRaises ==>
      (r.reply.Shown? <==> AsNumber(xp).Some? && AsNumber(level).Some? && AsNumber(level).value != 0)
    ensures r.reply.Shown? ==>
      var l := AsNumber(level).value;
      var inLevel := AsNumber(xp).value - 100 * (l - 1);
      && r.reply.progress.inLevel == inLevel
      && r.reply.progress.outOf == 100 * l
      && r.reply.progress == Bar(l, inLevel, 100 * l, TruncDiv(10 * inLevel, 100 * l))
  {
    if verificationRaises then UserRankReply(Failed, false)
    else
      match (AsNumber(xp), AsNumber(level))
      case (Some(x), Some(l)) =>
        if l == 0 then UserRankReply(Failed, true)
        else
          var inLevel := x - 100 * (l - 1);
          UserRankReply(Shown(Bar(l, inLevel, 100 * l, TruncDiv(10 * inLevel, 100 * l))), true)
      case _ => UserRankReply(Failed, true)
  }

  lemma MulMono(x: int, y: int, z: int)
    requires 0 <= x && y <= z
    ensures x * y <= x * z
  {
  }

  lemma TruncDivLargerDivisor(a: int, b: int, c: int)
    requires 0 <= a && 0 < b <= c
    ensures TruncDiv(a, c) <= TruncDiv(a, b)
  {
    var qb, qc := TruncDiv(a, b), TruncDiv(a, c);
    if qc > qb {
      MulMono(qc, b, c);
      MulMono(b, qb + 1, qc);
    }
  }

  /** For the same stored numbers at level 1 or above, `/user_rank` never
      fills more of its bar than `/my_rank`: it divides by `100 * level`
      instead of 100. */
  lemma UserRankNotAhead(x: int, l: int)
    requires l >= 1
    ensures var u := UserRank(false, Int(x), Int(l)).reply;
            var m := MyRank(Int(x), Int(l));
      && u.Shown? && m.Shown?
      && u.progress.filled <= m.progress.filled
  {
    var inLevel := x - 100 * (l - 1);
    if inLevel >= 0 {
      TruncDivLargerDivisor(10 * inLevel, 100, 100 * l);
    }
  }

  // ---------------------------------------------------------------------------
  // /rank

  /** One listing line "{position}. {name} — {xp} XP (Level {level})". */
  datatype RankLine = RankLine(position: nat, name: string, xp: int, level: Value)

  datatype GlobalRankReply = NoData | Board(lines: seq<RankLine>) | RankFailed

  /** Numbers the rows from `start`, naming each member; a row whose member
      cannot be fetched makes the whole command fail. */
  function RankLines(rows: seq<LeaderRow>, members: map<string, string>, start: nat): (r: Option<seq<RankLine>>)
    ensures r.Some? <==> forall i :: 0 <= i < |rows| ==> rows[i].userId in members
    ensures r.Some? ==> |r.value| == |rows|
    ensures r.Some? ==> forall i :: 0 <= i < |rows| ==>
              r.value[i] == RankLine(start + i, members[rows[i].userId], rows[i].xp, rows[i].level)
    decreases |rows|
  {
    if |rows| == 0 then Some([])
    else if rows[0].userId !in members then None
    else
      match RankLines(rows[1..], members, start + 1)
      case None =>
        assert !forall i :: 0 <= i < |rows[1..]| ==> rows[1..][i].userId in members;
        None
      case Some(rest) => Some([RankLine(start, members[rows[0].userId], rows[0].xp, rows[0].level)] + rest)
  }

  /** `global_rank`: the top five of the server, or the no-data message. */
  function GlobalRank(users: Coll<Doc>, members: map<string, string>): (r: GlobalRankReply)
    ensures r.NoData? <==> GetLeaderboard(users, 5) == []
    ensures r.Board? ==> RankLines(GetLeaderboard(users, 5), members, 1) == Some(r.lines)
    ensures r.RankFailed? <==> GetLeaderboard(users, 5) != [] && RankLines(GetLeaderboard(users, 5), members, 1).None?
  {
    var board := GetLeaderboard(users, 5);
    if |board| == 0 then NoData
    else
      match RankLines(board, members, 1)
      case Some(lines) => Board(lines)
      case None => RankFailed
  }

  /** The listing shows at most five users, numbered 1, 2, ... in
      non-increasing XP order, and every user left off has no more XP than
      anyone shown. */
  lemma GlobalRankIsTopFive(users: Coll<Doc>, members: map<string, string>)
    ensures GlobalRank(users, members).Board? ==>
      var lines := GlobalRank(users, members).lines;
      && 1 <= |lines| <= 5
      && (forall i :: 0 <= i < |lines| ==> lines[i].position == i + 1)
      && (forall i, j :: 0 <= i < j < |lines| ==> lines[i].xp >= lines[j].xp)
      && (forall e :: e in Ranked(users) && e !in GetLeaderboard(users, 5) ==>
            forall i :: 0 <= i < |lines| ==> lines[i].xp >= e.xp)
  {
    if GlobalRank(users, members).Board? {
      var board := GetLeaderboard(users, 5);
      var lines := GlobalRank(users, members).lines;
      assert RankLines(board, members, 1) == Some(lines);
      assert |lines| == |board| && 1 <= |board| <= 5;
      assert forall i :: 0 <= i < |lines| ==> lines[i].xp == board[i].xp && lines[i].position == 1 + i;
    }
  }
}
