/** The question operations of repositories/question_repository.py. Each
    resolves the topic as the first topic document whose title is exactly the
    given name (`where("title", "==", topic).limit(1)`), then lists, adds to
    or deletes from that topic's `questions`. */
module Questions {
  import opened Common
  import opened Collection
  import opened Store
  import Sorting

  // ---------------------------------------------------------------------------
  // The order of `order_by("pregunta")`

  /** Position of a value's type in the database's cross-type order: null,
      booleans, numbers, timestamps, strings, arrays, maps. The write-time
      sentinel is placed after every stored date. */
  function TypeRank(v: Value): nat
  {
    match v
    case Null => 0
    case Bool(_) => 1
    case Int(_) => 2
    case Time(_, _) => 3
    case ServerTimestamp => 4
    case Str(_) => 5
    case List(_) => 6
    case Obj(_) => 7
  }

  /** `a` sorts no later than `b`: by type first, then false before true,
      numbers by value, dates by day and time of day, strings by code
      points. Arrays and maps are not told apart among themselves. */
  predicate ValueLe(a: Value, b: Value)
  {
    if TypeRank(a) != TypeRank(b) then TypeRank(a) < TypeRank(b)
    else
      match (a, b)
      case (Bool(x), Bool(y)) => !x || y
      case (Int(x), Int(y)) => x <= y
      case (Time(d1, c1), Time(d2, c2)) => StrLt(d1, d2) || (d1 == d2 && c1 <= c2)
      case (Str(x), Str(y)) => StrLe(x, y)
      case _ => true
  }

  lemma ValueLeTotal(a: Value, b: Value)
    ensures ValueLe(a, b) || ValueLe(b, a)
  {
    match (a, b)
    case (Time(d1, _), Time(d2, _)) => StrLtTrichotomy(d1, d2);
    case (Str(x), Str(y)) => StrLtTrichotomy(x, y);
    case _ =>
  }

  lemma ValueLeTransitive(a: Value, b: Value, c: Value)
    requires ValueLe(a, b) && ValueLe(b, c)
    ensures ValueLe(a, c)
  {
    match (a, b, c)
    case (Time(d1, _), Time(d2, _), Time(d3, _)) =>
      if StrLt(d1, d2) && StrLt(d2, d3) { StrLtTransitive(d1, d2, d3); }
    case (Str(x), Str(y), Str(z)) =>
      if StrLt(x, y) && StrLt(y, z) { StrLtTransitive(x, y, z); }
    case _ =>
  }

  /** Two question documents compared by their "pregunta" field. */
  predicate ByPregunta(a: Entry<Doc>, b: Entry<Doc>)
  {
    ValueLe(Get(a.body, "pregunta", Null), Get(b.body, "pregunta", Null))
  }

  lemma ByPreguntaIsPreorder()
    ensures Sorting.TotalPreorder(ByPregunta)
  {
    forall a: Entry<Doc>, b: Entry<Doc> ensures ByPregunta(a, b) || ByPregunta(b, a) {
      ValueLeTotal(Get(a.body, "pregunta", Null), Get(b.body, "pregunta", Null));
    }
    forall a: Entry<Doc>, b: Entry<Doc>, c: Entry<Doc> | ByPregunta(a, b) && ByPregunta(b, c)
      ensures ByPregunta(a, c)
    {
      ValueLeTransitive(Get(a.body, "pregunta", Null), Get(b.body, "pregunta", Null), Get(c.body, "pregunta", Null));
    }
  }

  /** An ordered query returns only the documents that have the field. */
  function WithQuestionText(qs: Coll<Doc>): (r: Coll<Doc>)
    ensures forall e :: e in r <==> e in qs && "pregunta" in e.body
    ensures |r| <= |qs|
  {
    if |qs| == 0 then []
    else if "pregunta" in qs[0].body then [qs[0]] + WithQuestionText(qs[1..])
    else WithQuestionText(qs[1..])
  }

  /** `doc.to_dict() | {"id": doc.id}`: the stored fields with "id" set to the
      document id, replacing any stored "id". */
  function WithId(e: Entry<Doc>): (d: Doc)
    ensures d.Keys == e.body.Keys + {"id"}
    ensures d["id"] == Str(e.id)
    ensures forall k :: k in e.body && k != "id" ==> d[k] == e.body[k]
  {
    e.body + map["id" := Str(e.id)]
  }

  /** The questions of the topic at index `t`. */
  function QuestionsAt(s: Server, t: nat): Coll<Doc>
    requires t < |s.topics|
  {
    s.topics[t].body.questions
  }

  function WithIds(sorted: Coll<Doc>): (r: seq<Doc>)
    ensures |r| == |sorted|
    ensures forall i :: 0 <= i < |sorted| ==> r[i] == WithId(sorted[i])
  {
    seq(|sorted|, i requires 0 <= i < |sorted| => WithId(sorted[i]))
  }

  /** The listing of a topic's questions: every question that has a
      "pregunta" field, with its id, and nothing else, in "pregunta" order. */
  function Listing(qs: Coll<Doc>): (r: seq<Doc>)
    ensures |r| == |WithQuestionText(qs)|
    ensures forall i :: 0 <= i < |r| ==> exists e :: e in qs && "pregunta" in e.body && r[i] == WithId(e)
    ensures forall e :: e in qs && "pregunta" in e.body ==> WithId(e) in r
    ensures forall i :: 0 <= i < |r| ==> "pregunta" in r[i]
    ensures forall i, j :: 0 <= i < j < |r| ==> ValueLe(r[i]["pregunta"], r[j]["pregunta"])
  {
    var listed := WithQuestionText(qs);
    ByPreguntaIsPreorder();
    var sorted := Sorting.Sort(ByPregunta, listed);
    ListedFacts(listed, sorted);
    WithIds(sorted)
  }

  /** What the listing needs from the sort: the same documents, each with
      its question text, in "pregunta" order. */
  lemma ListedFacts(listed: Coll<Doc>, sorted: Coll<Doc>)
    requires forall e :: e in listed ==> "pregunta" in e.body
    requires multiset(sorted) == multiset(listed)
    requires Sorting.SortedBy(ByPregunta, sorted)
    ensures forall i :: 0 <= i < |sorted| ==> sorted[i] in listed
    ensures forall e :: e in listed ==> WithId(e) in WithIds(sorted)
    ensures forall i :: 0 <= i < |sorted| ==> "pregunta" in WithIds(sorted)[i]
    ensures forall i, j :: 0 <= i < j < |sorted| ==>
              ValueLe(WithIds(sorted)[i]["pregunta"], WithIds(sorted)[j]["pregunta"])
  {
    var r := WithIds(sorted);
    forall i | 0 <= i < |sorted| ensures sorted[i] in listed {
      assert sorted[i] in multiset(sorted);
    }
    forall e | e in listed ensures WithId(e) in r {
      assert e in multiset(listed);
      var k :| 0 <= k < |sorted| && sorted[k] == e;
      assert r[k] == WithId(e);
    }
    forall i, j | 0 <= i < j < |sorted|
      ensures ValueLe(r[i]["pregunta"], r[j]["pregunta"])
    {
      assert ByPregunta(sorted[i], sorted[j]);
    }
  }

  /** `listar_perguntas_por_topico`: no topic gives no questions; otherwise
      the listing of the first topic with that exact title. */
  function ListarPerguntasPorTopico(s: Server, topic: string): (r: seq<Doc>)
    ensures FindTopic(s.topics, topic).None? ==> r == []
    ensures FindTopic(s.topics, topic).Some? ==> r == Listing(QuestionsAt(s, FindTopic(s.topics, topic).value))
  {
    match FindTopic(s.topics, topic)
    case None => []
    case Some(t) => Listing(QuestionsAt(s, t))
  }

  datatype Added = Added(server: Server, id: string)

  /** `adicionar_pergunta`: a missing topic raises ValueError and nothing is
      written; otherwise one question {pregunta, respuesta} is set under the
      freshly generated id `freshId`, which is returned. */
  function AdicionarPergunta(s: Server, topic: string, pergunta: string, resposta: string, freshId: string): (r: Result<Added>)
    ensures r.Err? <==> FindTopic(s.topics, topic).None?
    ensures r.Err? ==> r.failure == ValueError
    ensures r.Ok? ==>
      var t := FindTopic(s.topics, topic).value;
      var after := r.value.server;
      && r.value.id == freshId
      && |after.topics| == |s.topics|
      && after.topics[t].id == s.topics[t].id
      && after.topics[t].body.doc == s.topics[t].body.doc
      && Find(QuestionsAt(after, t), freshId) == Some(map["pregunta" := Str(pergunta), "respuesta" := Str(resposta)])
      && (forall k :: k != freshId ==> Find(QuestionsAt(after, t), k) == Find(QuestionsAt(s, t), k))
      && (forall j :: 0 <= j < |s.topics| && j != t ==> after.topics[j] == s.topics[j])
      && after.doc == s.doc && after.users == s.users && after.stats == s.stats
    ensures r.Ok? && WellFormed(s) ==> WellFormed(r.value.server)
  {
    match FindTopic(s.topics, topic)
    case None => Err(ValueError)
    case Some(t) =>
      var body := s.topics[t].body;
      var record := map["pregunta" := Str(pergunta), "respuesta" := Str(resposta)];
      Ok(Added(s.(topics := SetTopicAt(s.topics, t, body.(questions := Put(body.questions, freshId, record)))), freshId))
  }

  /** `deletar_pergunta`: a missing topic raises ValueError; otherwise only the
      question `questionId` of that topic is removed (deleting a missing one
      changes nothing). */
  function DeletarPergunta(s: Server, topic: string, questionId: string): (r: Result<Server>)
    ensures r.Err? <==> FindTopic(s.topics, topic).None?
    ensures r.Err? ==> r.failure == ValueError
    ensures r.Ok? ==>
      var t := FindTopic(s.topics, topic).value;
      var after := r.value;
      && |after.topics| == |s.topics|
      && after.topics[t].id == s.topics[t].id
      && after.topics[t].body.doc == s.topics[t].body.doc
      && Ids(QuestionsAt(after, t)) == Ids(QuestionsAt(s, t)) - {questionId}
      && (forall k :: k != questionId ==> Find(QuestionsAt(after, t), k) == Find(QuestionsAt(s, t), k))
      && (forall j :: 0 <= j < |s.topics| && j != t ==> after.topics[j] == s.topics[j])
      && after.doc == s.doc && after.users == s.users && after.stats == s.stats
    ensures r.Ok? && WellFormed(s) ==> WellFormed(r.value)
  {
    match FindTopic(s.topics, topic)
    case None => Err(ValueError)
    case Some(t) =>
      var body := s.topics[t].body;
      Ok(s.(topics := SetTopicAt(s.topics, t, body.(questions := Delete(body.questions, questionId)))))
  }

  /** Title lookups see only the topic documents, so changing questions never
      changes which topic a title resolves to. */
  lemma {:induction false} FindTopicSameDocs(ts: Coll<TopicBody>, us: Coll<TopicBody>, title: string)
    requires |ts| == |us|
    requires forall j :: 0 <= j < |ts| ==> ts[j].body.doc == us[j].body.doc
    ensures FindTopic(ts, title) == FindTopic(us, title)
    decreases |ts|
  {
    if |ts| > 0 {
      FindTopicSameDocs(ts[1..], us[1..], title);
    }
  }

  /** A question just added is listed under its topic, with its new id. */
  lemma AddedQuestionIsListed(s: Server, topic: string, pergunta: string, resposta: string, freshId: string)
    requires AdicionarPergunta(s, topic, pergunta, resposta, freshId).Ok?
    ensures map["pregunta" := Str(pergunta), "respuesta" := Str(resposta), "id" := Str(freshId)]
              in ListarPerguntasPorTopico(AdicionarPergunta(s, topic, pergunta, resposta, freshId).value.server, topic)
  {
    var after := AdicionarPergunta(s, topic, pergunta, resposta, freshId).value.server;
    FindTopicSameDocs(s.topics, after.topics, topic);
    var t := FindTopic(s.topics, topic).value;
    var record := map["pregunta" := Str(pergunta), "respuesta" := Str(resposta)];
    assert Entry(freshId, record) in QuestionsAt(after, t);
    assert WithId(Entry(freshId, record)) == map["pregunta" := Str(pergunta), "respuesta" := Str(resposta), "id" := Str(freshId)];
  }

  /** After a deletion no listed question of the topic carries the deleted
      id. */
  lemma DeletedQuestionNotListed(s: Server, topic: string, questionId: string)
    requires DeletarPergunta(s, topic, questionId).Ok?
    ensures var l := ListarPerguntasPorTopico(DeletarPergunta(s, topic, questionId).value, topic);
            forall i :: 0 <= i < |l| ==> l[i]["id"] != Str(questionId)
  {
    var after := DeletarPergunta(s, topic, questionId).value;
    FindTopicSameDocs(s.topics, after.topics, topic);
    var t := FindTopic(s.topics, topic).value;
    var l := ListarPerguntasPorTopico(after, topic);
    forall i | 0 <= i < |l| ensures l[i]["id"] != Str(questionId) {
      var e :| e in QuestionsAt(after, t) && "pregunta" in e.body && l[i] == WithId(e);
      assert e.id in Ids(QuestionsAt(after, t));
    }
  }
}
