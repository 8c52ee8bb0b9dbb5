/** The document database as the bot sees it: one subtree per server,
    `servers/{id}` with its own document and the `topics` (each with a
    `questions` sub-collection), `users` and `stats` collections, plus the
    global `estadisticas` collection of the oldest revision. Every repository
    operation of the model works on one server's subtree; `Commit` writes the
    subtree back and touches no other server. */
module Store {
  import opened Common
  import opened Collection

  /** A topic document and its `questions` sub-collection. `doc` is `None`
      when only the sub-collection exists (a path written without creating
      the parent document); such a topic is invisible to queries on the
      `topics` collection. */
  datatype TopicBody = TopicBody(doc: Option<Doc>, questions: Coll<Doc>)

  datatype Server = Server(
    doc: Option<Doc>,
    topics: Coll<TopicBody>,
    users: Coll<Doc>,
    stats: Coll<Doc>)

  datatype Db = Db(servers: map<string, Server>, estadisticas: Coll<Doc>)

  const EmptyServer := Server(None, [], [], [])

  /** Every collection in the subtree lists its documents in id order. */
  predicate WellFormed(s: Server)
  {
    && Ordered(s.topics)
    && Ordered(s.users)
    && Ordered(s.stats)
    && forall i :: 0 <= i < |s.topics| ==> Ordered(s.topics[i].body.questions)
  }

  /** `db.collection("servers").document(gid)`: a path that was never written
      reads as an empty subtree. */
  function ServerAt(db: Db, gid: string): (s: Server)
    ensures gid !in db.servers ==> s == EmptyServer
  {
    if gid in db.servers then db.servers[gid] else EmptyServer
  }

  function Commit(db: Db, gid: string, s: Server): (r: Db)
    ensures ServerAt(r, gid) == s
    ensures forall g :: g != gid ==> ServerAt(r, g) == ServerAt(db, g)
    ensures r.estadisticas == db.estadisticas
  {
    db.(servers := db.servers[gid := s])
  }

  /** The topic documents that exist, in id order, as `topics.get()` returns
      them. */
  function TopicDocs(ts: Coll<TopicBody>): (r: Coll<Doc>)
    ensures |r| <= |ts|
    ensures forall i :: 0 <= i < |r| ==> r[i].id in Ids(ts)
  {
    if |ts| == 0 then []
    else
      IdsHead(ts);
      match ts[0].body.doc
      case Some(d) => [Entry(ts[0].id, d)] + TopicDocs(ts[1..])
      case None => TopicDocs(ts[1..])
  }

  /** Index of the first existing topic whose "title" is exactly `title`, the
      document `where("title", "==", title).limit(1)` returns. */
  function FindTopic(ts: Coll<TopicBody>, title: string): (r: Option<nat>)
    ensures r.Some? ==> r.value < |ts| && ts[r.value].body.doc.Some? &&
                        Get(ts[r.value].body.doc.value, "title", Null) == Str(title)
    ensures r.Some? ==> forall i :: 0 <= i < r.value && ts[i].body.doc.Some? ==>
                          Get(ts[i].body.doc.value, "title", Null) != Str(title)
    ensures r.None? ==> forall i :: 0 <= i < |ts| && ts[i].body.doc.Some? ==>
                          Get(ts[i].body.doc.value, "title", Null) != Str(title)
    decreases |ts|
  {
    if |ts| == 0 then None
    else if ts[0].body.doc.Some? && Get(ts[0].body.doc.value, "title", Null) == Str(title) then Some(0)
    else
      match FindTopic(ts[1..], title)
      case None => None
      case Some(k) => Some(k + 1)
  }

  /** Replaces the body at index `i`, keeping the id. */
  function SetTopicAt(ts: Coll<TopicBody>, i: nat, body: TopicBody): (r: Coll<TopicBody>)
    requires i < |ts|
    ensures |r| == |ts|
    ensures r[i] == Entry(ts[i].id, body)
    ensures forall j :: 0 <= j < |ts| && j != i ==> r[j] == ts[j]
    ensures Ordered(ts) ==> Ordered(r)
  {
    ts[i := Entry(ts[i].id, body)]
  }
}
