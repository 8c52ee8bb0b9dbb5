/** The server document `servers/{id}` (repositories/server_repository.py)
    and the guild join/leave events of bot.py that write it. Every operation
    swallows its errors; the one error the model can reach is an `update` on a
    server whose document does not exist, which therefore changes nothing. */
module Servers {
  import opened Common
  import opened Collection
  import opened Store
  import opened Users

  /** The record written when the bot joins a server. */
  function ServerRecord(gid: string, ownerId: string): (d: Doc)
    ensures d.Keys == {"owner_id", "server_id", "joined_at", "status"}
    ensures d["owner_id"] == Str(ownerId) && d["server_id"] == Str(gid)
    ensures d["joined_at"] == ServerTimestamp && d["status"] == Str("Active")
  {
    map["owner_id" := Str(ownerId), "server_id" := Str(gid),
        "joined_at" := ServerTimestamp, "status" := Str("Active")]
  }

  /** `register_server`: a `set` without merge, so the document is replaced;
      the sub-collections are untouched. */
  function RegisterServer(db: Db, gid: string, ownerId: string): (r: Db)
    ensures ServerAt(r, gid) == ServerAt(db, gid).(doc := Some(ServerRecord(gid, ownerId)))
    ensures forall g :: g != gid ==> ServerAt(r, g) == ServerAt(db, g)
    ensures r.estadisticas == db.estadisticas
  {
    Commit(db, gid, ServerAt(db, gid).(doc := Some(ServerRecord(gid, ownerId))))
  }

  /** `update({key: v})` on the server document: that field is set and the
      others are kept; on a missing document the update fails and the
      failure is swallowed. */
  function UpdateServerField(db: Db, gid: string, key: string, v: Value): (r: Db)
    ensures ServerAt(db, gid).doc.None? ==> r == db
    ensures ServerAt(db, gid).doc.Some? ==>
      var before := ServerAt(db, gid);
      var after := ServerAt(r, gid);
      && after.doc.Some?
      && after.doc.value.Keys == before.doc.value.Keys + {key}
      && after.doc.value[key] == v
      && (forall k :: k in before.doc.value && k != key ==> after.doc.value[k] == before.doc.value[k])
      && after.topics == before.topics && after.users == before.users && after.stats == before.stats
    ensures forall g :: g != gid ==> ServerAt(r, g) == ServerAt(db, g)
    ensures r.estadisticas == db.estadisticas
  {
    var s := ServerAt(db, gid);
    match s.doc
    case None => db
    case Some(d) => Commit(db, gid, s.(doc := Some(d[key := v])))
  }

  /** `update_server_status` */
  function UpdateServerStatus(db: Db, gid: string, status: Value): (r: Db)
    ensures ServerAt(db, gid).doc.Some? ==> ServerAt(r, gid).doc.Some? && "status" in ServerAt(r, gid).doc.value && ServerAt(r, gid).doc.value["status"] == status
    ensures ServerAt(db, gid).doc.None? ==> r == db
  {
    UpdateServerField(db, gid, "status", status)
  }

  /** `update_server_last_interaction` */
  function UpdateServerLastInteraction(db: Db, gid: string): (r: Db)
    ensures ServerAt(db, gid).doc.Some? ==> ServerAt(r, gid).doc.Some? && "last_interaction" in ServerAt(r, gid).doc.value && ServerAt(r, gid).doc.value["last_interaction"] == ServerTimestamp
    ensures ServerAt(db, gid).doc.None? ==> r == db
  {
    UpdateServerField(db, gid, "last_interaction", ServerTimestamp)
  }

  /** `deactivate_server`: the status becomes lower-case "disabled". */
  function DeactivateServer(db: Db, gid: string): (r: Db)
    ensures ServerAt(db, gid).doc.Some? ==> ServerAt(r, gid).doc.Some? && "status" in ServerAt(r, gid).doc.value && ServerAt(r, gid).doc.value["status"] == Str("disabled")
    ensures ServerAt(db, gid).doc.None? ==> r == db
  {
    UpdateServerField(db, gid, "status", Str("disabled"))
  }

  /** Every server operation other than registration touches only the one
      field it names: the rest of the document, the sub-collections and the
      other servers are as before. */
  lemma StatusChangesTouchOneField(db: Db, gid: string, status: Value)
    requires ServerAt(db, gid).doc.Some?
    ensures var d := ServerAt(db, gid).doc.value;
            var e := ServerAt(UpdateServerStatus(db, gid, status), gid).doc.value;
      && e == d["status" := status]
    ensures var d := ServerAt(db, gid).doc.value;
            var e := ServerAt(UpdateServerLastInteraction(db, gid), gid).doc.value;
      && e == d["last_interaction" := ServerTimestamp]
    ensures DeactivateServer(db, gid) == UpdateServerStatus(db, gid, Str("disabled"))
  {
    var d := ServerAt(db, gid).doc.value;
    var e := ServerAt(UpdateServerStatus(db, gid, status), gid).doc.value;
    assert e.Keys == d["status" := status].Keys;
    var f := ServerAt(UpdateServerLastInteraction(db, gid), gid).doc.value;
    assert f.Keys == d["last_interaction" := ServerTimestamp].Keys;
  }

  // ---------------------------------------------------------------------------
  // Guild events (bot.py)

  datatype Guild = Guild(id: string, ownerId: string, members: seq<Member>)

  /** `on_guild_join`: the server record with status "Active", then one user
      record per member that is not a bot, each replacing what was stored. */
  function OnGuildJoin(db: Db, g: Guild): (r: Db)
    ensures ServerAt(r, g.id).doc == Some(ServerRecord(g.id, g.ownerId))
    ensures Ids(ServerAt(r, g.id).users) == Ids(ServerAt(db, g.id).users) + HumanIds(g.members)
    ensures forall k :: k !in HumanIds(g.members) ==> Find(ServerAt(r, g.id).users, k) == Find(ServerAt(db, g.id).users, k)
    ensures ServerAt(r, g.id).topics == ServerAt(db, g.id).topics
    ensures ServerAt(r, g.id).stats == ServerAt(db, g.id).stats
    ensures WellFormed(ServerAt(db, g.id)) ==> WellFormed(ServerAt(r, g.id))
    ensures forall h :: h != g.id ==> ServerAt(r, h) == ServerAt(db, h)
  {
    var joined := RegisterServer(db, g.id, g.ownerId);
    var s := ServerAt(joined, g.id);
    Commit(joined, g.id, s.(users := RegisterGuildUsers(s.users, g.members)))
  }

  /** `on_guild_remove`: the same update as `deactivate_server`. */
  function OnGuildRemove(db: Db, g: Guild): (r: Db)
    ensures r == DeactivateServer(db, g.id)
  {
    UpdateServerField(db, g.id, "status", Str("disabled"))
  }

  /** Leaving a server only marks it "disabled": its owner, id and join time,
      its users, topics and statistics stay. */
  lemma JoinThenRemove(db: Db, g: Guild)
    ensures var joined := OnGuildJoin(db, g);
            var left := ServerAt(OnGuildRemove(joined, g), g.id);
      && left.doc == Some(ServerRecord(g.id, g.ownerId)["status" := Str("disabled")])
      && left.users == ServerAt(joined, g.id).users
      && left.topics == ServerAt(db, g.id).topics
      && left.stats == ServerAt(db, g.id).stats
  {
    var joined := OnGuildJoin(db, g);
    var left := ServerAt(OnGuildRemove(joined, g), g.id);
    assert left.doc.value.Keys == ServerRecord(g.id, g.ownerId)["status" := Str("disabled")].Keys;
  }

  /** A guild the bot never registered is left exactly as it was when the
      bot leaves it. */
  lemma RemoveUnknownGuild(db: Db, g: Guild)
    requires g.id !in db.servers
    ensures OnGuildRemove(db, g) == db
  {
  }
}
