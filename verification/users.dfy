/** User records of a server (repositories/user_repository.py): registering
    every member when the bot joins, registering one member on demand, and
    appending a quiz result to a user's history. */
module Users {
  import opened Common
  import opened Collection

  /** A guild member as the repository sees it: id already rendered with
      `str`, display name, and whether the account is a bot. */
  datatype Member = Member(id: string, name: string, bot: bool)

  /** The record written for a member: exactly these three fields. */
  function UserRecord(m: Member): (d: Doc)
    ensures d.Keys == {"user_id", "name", "joined_bot_at"}
    ensures d["user_id"] == Str(m.id) && d["name"] == Str(m.name) && d["joined_bot_at"] == ServerTimestamp
  {
    map["user_id" := Str(m.id), "name" := Str(m.name), "joined_bot_at" := ServerTimestamp]
  }

  /** The ids of the members that are not bots. */
  function HumanIds(ms: seq<Member>): set<string>
  {
    set m | m in ms && !m.bot :: m.id
  }

  /** One step of `register_guild_users`: a member that is not a bot gets
      its record written over whatever document it had. */
  function RegisterMember(users: Coll<Doc>, m: Member): (r: Coll<Doc>)
    ensures m.bot ==> r == users
    ensures !m.bot ==> Ids(r) == Ids(users) + {m.id} && Find(r, m.id) == Some(UserRecord(m))
    ensures forall k :: k != m.id ==> Find(r, k) == Find(users, k)
    ensures Ordered(users) ==> Ordered(r)
  {
    if m.bot then users else Put(users, m.id, UserRecord(m))
  }

  /** `register_guild_users`: one `set` without merge per member that is not
      a bot, in member order; bots are skipped. */
  function RegisterGuildUsers(users: Coll<Doc>, ms: seq<Member>): (r: Coll<Doc>)
    ensures Ids(r) == Ids(users) + HumanIds(ms)
    ensures forall k :: k !in HumanIds(ms) ==> Find(r, k) == Find(users, k)
    ensures Ordered(users) ==> Ordered(r)
    decreases |ms|
  {
    if |ms| == 0 then users
    else
      assert HumanIds(ms) == (if ms[0].bot then {} else {ms[0].id}) + HumanIds(ms[1..]) by {
        assert forall m :: m in ms <==> m == ms[0] || m in ms[1..];
      }
      RegisterGuildUsers(RegisterMember(users, ms[0]), ms[1..])
  }

  /** Each member that is not a bot ends up with exactly the record of its
      last occurrence in the member list. */
  lemma {:induction false} RegisterGuildUsersLastWins(users: Coll<Doc>, ms: seq<Member>, i: nat)
    requires i < |ms| && !ms[i].bot
    requires forall j :: i < j < |ms| && !ms[j].bot ==> ms[j].id != ms[i].id
    ensures Find(RegisterGuildUsers(users, ms), ms[i].id) == Some(UserRecord(ms[i]))
    decreases |ms|
  {
    if i == 0 {
      assert ms[0].id !in HumanIds(ms[1..]) by {
        forall m | m in ms[1..] && !m.bot ensures m.id != ms[0].id {
          var j :| 0 <= j < |ms[1..]| && ms[1..][j] == m;
          assert ms[j + 1] == m;
        }
      }
    } else {
      assert forall j :: i - 1 < j < |ms[1..]| && !ms[1..][j].bot ==> ms[1..][j].id != ms[1..][i - 1].id by {
        forall j | i - 1 < j < |ms[1..]| && !ms[1..][j].bot ensures ms[1..][j].id != ms[1..][i - 1].id {
          assert ms[1..][j] == ms[j + 1];
        }
      }
      RegisterGuildUsersLastWins(RegisterMember(users, ms[0]), ms[1..], i - 1);
    }
  }

  /** `register_single_user`'s return value: `True` after a write, `None`
      otherwise. */
  datatype Registration = Registration(users: Coll<Doc>, registered: bool)

  /** `register_single_user`: a bot or an already registered user is left
      alone and None returned; otherwise the record is written and True
      returned. */
  function RegisterSingleUser(users: Coll<Doc>, m: Member): (r: Registration)
    ensures r.registered <==> !m.bot && m.id !in Ids(users)
    ensures !r.registered ==> r.users == users
    ensures r.registered ==> Find(r.users, m.id) == Some(UserRecord(m))
    ensures forall k :: k != m.id ==> Find(r.users, k) == Find(users, k)
    ensures Ordered(users) ==> Ordered(r.users)
  {
    if m.bot then Registration(users, false)
    else if Find(users, m.id).Some? then Registration(users, false)
    else Registration(Put(users, m.id, UserRecord(m)), true)
  }

  /** Registering the same member twice writes once: the second call
      changes nothing and returns None. */
  lemma RegisterSingleUserOnce(users: Coll<Doc>, m: Member)
    ensures var once := RegisterSingleUser(users, m);
            var twice := RegisterSingleUser(once.users, m);
      && !twice.registered
      && twice.users == once.users
  {
  }

  /** The two registrations differ on a known user: the single one keeps the
      stored document, the guild-wide one replaces it and so drops every
      other field (XP, level, streak, history). */
  lemma GuildRegistrationResetsKnownUser(users: Coll<Doc>, m: Member)
    requires !m.bot && Find(users, m.id).Some? && "xp" in Find(users, m.id).value
    ensures Find(RegisterSingleUser(users, m).users, m.id) == Find(users, m.id)
    ensures Find(RegisterGuildUsers(users, [m]), m.id) == Some(UserRecord(m))
    ensures "xp" !in UserRecord(m)
  {
    RegisterGuildUsersLastWins(users, [m], 0);
  }

  // ---------------------------------------------------------------------------
  // History

  /** One history entry: the date, failures `total - correct`, successes
      `correct`, the question types and the topic id. */
  function HistoryEntry(date: Value, topicId: string, correct: int, total: int, types: seq<string>): (e: Value)
    ensures e.Obj? && e.fields.Keys == {"date", "failures", "success", "type", "topic_id"}
    ensures e.fields["success"] == Int(correct) && e.fields["failures"] == Int(total - correct)
    ensures e.fields["date"] == date && e.fields["topic_id"] == Str(topicId)
    ensures e.fields["type"] == List(seq(|types|, i requires 0 <= i < |types| => Str(types[i])))
  {
    Obj(map["date" := date,
            "failures" := Int(total - correct),
            "success" := Int(correct),
            "type" := List(seq(|types|, i requires 0 <= i < |types| => Str(types[i]))),
            "topic_id" := Str(topicId)])
  }

  /** `ArrayUnion([e])` on a stored value: a missing or non-array field
      becomes `[e]`; an array gains `e` at the end unless it already holds
      an equal element. */
  function ArrayUnion(stored: Option<Value>, e: Value): (r: seq<Value>)
    ensures e in r
    ensures stored.Some? && stored.value.List? ==> stored.value.items <= r
    ensures stored.Some? && stored.value.List? ==>
      r == (if e in stored.value.items then stored.value.items else stored.value.items + [e])
    ensures !(stored.Some? && stored.value.List?) ==> r == [e]
  {
    match stored
    case Some(List(xs)) => if e in xs then xs else xs + [e]
    case _ => [e]
  }

  /** `register_user_history`: an update of the "history" field alone. The
      update of a user without a document fails, and the failure is logged
      and swallowed, so nothing changes. */
  function RegisterUserHistory(users: Coll<Doc>, uid: string, now: Value, topicId: string,
                               correct: int, total: int, types: seq<string>): (r: Coll<Doc>)
    ensures Find(users, uid).None? ==> r == users
    ensures Find(users, uid).Some? ==>
      var d := Find(users, uid).value;
      var e := HistoryEntry(now, topicId, correct, total, types);
      && Find(r, uid) == Some(d["history" := List(ArrayUnion(if "history" in d then Some(d["history"]) else None, e))])
    ensures forall k :: k != uid ==> Find(r, k) == Find(users, k)
    ensures Ordered(users) ==> Ordered(r)
  {
    match Find(users, uid)
    case None => users
    case Some(d) =>
      var e := HistoryEntry(now, topicId, correct, total, types);
      Put(users, uid, d["history" := List(ArrayUnion(if "history" in d then Some(d["history"]) else None, e))])
  }

  /** After recording a result the history holds the new entry, whose
      successes and failures add up to the total; every earlier entry is
      kept, in place, and no other field changes. */
  lemma HistoryOnlyGrows(users: Coll<Doc>, uid: string, now: Value, topicId: string,
                         correct: int, total: int, types: seq<string>)
    requires Find(users, uid).Some?
    requires var d := Find(users, uid).value; "history" in d && d["history"].List?
    ensures var before := Find(users, uid).value;
            var after := Find(RegisterUserHistory(users, uid, now, topicId, correct, total, types), uid).value;
            var e := HistoryEntry(now, topicId, correct, total, types);
      && after["history"].List?
      && e in after["history"].items
      && e.fields["success"].i + e.fields["failures"].i == total
      && before["history"].items <= after["history"].items
      && |after["history"].items| <= |before["history"].items| + 1
      && after.Keys == before.Keys
      && forall k :: k in before && k != "history" ==> after[k] == before[k]
  {
  }
}
