/** Topic documents of a server (repositories/topic_repository.py): creating
    a topic together with its numbered questions, the title list offered for
    autocompletion, and the question lookup by exact title. */
module Topics {
  import opened Common
  import opened Collection
  import opened Store

  /** `len(v)`: elements of a list, characters of a string, keys of a dict;
      a number, a boolean, None or a date has no length. */
  function Len(v: Value): (r: Option<nat>)
    ensures v.List? ==> r == Some(|v.items|)
    ensures v.Str? ==> r == Some(|v.s|)
    ensures v.Obj? ==> r == Some(|v.fields|)
    ensures !v.List? && !v.Str? && !v.Obj? ==> r.None?
  {
    match v
    case List(xs) => Some(|xs|)
    case Str(s) => Some(|s|)
    case Obj(m) => Some(|m|)
    case _ => None
  }

  /** Whatever iterates into documents has a length, and it is their count. */
  lemma IterDocsLen(v: Value)
    requires IterDocs(v).Some?
    ensures Len(v) == Some(|IterDocs(v).value|)
  {
  }

  /** The stored form of one question: exactly `pregunta` (default "") and
      `respuesta` (default "V"); every other key of the input is dropped. */
  function QuestionRecord(p: Doc): (q: Doc)
    ensures q.Keys == {"pregunta", "respuesta"}
    ensures q["pregunta"] == Get(p, "pregunta", Str(""))
    ensures q["respuesta"] == Get(p, "respuesta", Str("V"))
  {
    map["pregunta" := Get(p, "pregunta", Str("")), "respuesta" := Get(p, "respuesta", Str("V"))]
  }

  function Records(ps: seq<Doc>): (r: seq<Doc>)
    ensures |r| == |ps|
    ensures forall i :: 0 <= i < |ps| ==> r[i] == QuestionRecord(ps[i])
  {
    seq(|ps|, i requires 0 <= i < |ps| => QuestionRecord(ps[i]))
  }

  /** `str(idx + 1)`: the id of the question at position `idx` (from 0). */
  function QuestionId(idx: nat): string
  {
    NatToString(idx + 1)
  }

  lemma QuestionIdInjective(a: nat, b: nat)
    ensures QuestionId(a) == QuestionId(b) <==> a == b
  {
    NatToStringInjective(a + 1, b + 1);
  }

  /** The ids "1", ..., "n". */
  function NumberedIds(n: nat): (r: set<string>)
    ensures forall i :: 0 <= i < n ==> QuestionId(i) in r
    ensures forall id :: id in r ==> exists i :: 0 <= i < n && id == QuestionId(i)
  {
    set i | 0 <= i < n :: QuestionId(i)
  }

  lemma NumberedIdsStep(n: nat)
    requires n > 0
    ensures NumberedIds(n) == NumberedIds(n - 1) + {QuestionId(n - 1)}
  {
  }

  /** The i-th document (from 0) under id `str(i + 1)`, one `set` each, in
      list order. */
  function StoreNumbered(qs: Coll<Doc>, docs: seq<Doc>): (r: Coll<Doc>)
    ensures Ids(r) == Ids(qs) + NumberedIds(|docs|)
    ensures Ordered(qs) ==> Ordered(r)
    decreases |docs|
  {
    if |docs| == 0 then qs
    else
      NumberedIdsStep(|docs|);
      Put(StoreNumbered(qs, docs[..|docs| - 1]), QuestionId(|docs| - 1), docs[|docs| - 1])
  }

  /** One more numbered `set` keeps the documents of the earlier positions,
      because distinct positions have distinct ids. */
  lemma PutNextNumbered(prev: Coll<Doc>, docs: seq<Doc>)
    requires |docs| > 0
    requires forall i :: 0 <= i < |docs| - 1 ==> Find(prev, QuestionId(i)) == Some(docs[i])
    ensures forall i :: 0 <= i < |docs| ==>
              Find(Put(prev, QuestionId(|docs| - 1), docs[|docs| - 1]), QuestionId(i)) == Some(docs[i])
  {
    var n := |docs|;
    var r := Put(prev, QuestionId(n - 1), docs[n - 1]);
    forall i | 0 <= i < n - 1 ensures Find(r, QuestionId(i)) == Some(docs[i]) {
      QuestionIdInjective(i, n - 1);
    }
  }

  /** One more numbered `set` touches no id outside "1", ..., "n". */
  lemma PutNextKeeps(qs: Coll<Doc>, prev: Coll<Doc>, docs: seq<Doc>)
    requires |docs| > 0
    requires forall k :: k !in NumberedIds(|docs| - 1) ==> Find(prev, k) == Find(qs, k)
    ensures forall k :: k !in NumberedIds(|docs|) ==>
              Find(Put(prev, QuestionId(|docs| - 1), docs[|docs| - 1]), k) == Find(qs, k)
  {
    NumberedIdsStep(|docs|);
  }

  /** Each document of the call is found under its own id, and every id
      outside "1", ..., "n" keeps what it had. */
  lemma {:induction false} StoreNumberedFinds(qs: Coll<Doc>, docs: seq<Doc>)
    ensures forall i :: 0 <= i < |docs| ==> Find(StoreNumbered(qs, docs), QuestionId(i)) == Some(docs[i])
    ensures forall k :: k !in NumberedIds(|docs|) ==> Find(StoreNumbered(qs, docs), k) == Find(qs, k)
    decreases |docs|
  {
    if |docs| > 0 {
      var n := |docs|;
      var front := docs[..n - 1];
      var prev := StoreNumbered(qs, front);
      StoreNumberedFinds(qs, front);
      assert forall i :: 0 <= i < n - 1 ==> front[i] == docs[i];
      PutNextNumbered(prev, docs);
      PutNextKeeps(qs, prev, docs);
    }
  }

  /** The topic document: title, creation sentinel, document name and storage
      URL as given, and the number of questions. */
  function TopicData(topico: string, documentName: Value, documentUrl: Value, n: nat): (d: Doc)
    ensures d.Keys == {"title", "created_at", "document_name", "document_storage_url", "num_quizzes_generated"}
    ensures d["title"] == Str(topico) && d["created_at"] == ServerTimestamp
    ensures d["document_name"] == documentName && d["document_storage_url"] == documentUrl
    ensures d["num_quizzes_generated"] == Int(n)
  {
    map["title" := Str(topico),
        "created_at" := ServerTimestamp,
        "document_name" := documentName,
        "document_storage_url" := documentUrl,
        "num_quizzes_generated" := Int(n)]
  }

  /** Every topic in the subtree keeps its questions in id order after a
      topic is replaced by one whose questions are in id order. */
  lemma PutTopicWellFormed(s: Server, id: string, body: TopicBody)
    requires WellFormed(s) && Ordered(body.questions)
    ensures WellFormed(s.(topics := Put(s.topics, id, body)))
  {
    var r := Put(s.topics, id, body);
    forall j | 0 <= j < |r| ensures Ordered(r[j].body.questions) {
      FindOrdered(r, j);
      if r[j].id != id {
        assert Entry(r[j].id, r[j].body) in s.topics;
        var k :| 0 <= k < |s.topics| && s.topics[k] == Entry(r[j].id, r[j].body);
      }
    }
  }

  /** The questions already stored under `id` (none for a new topic). */
  function ExistingQuestions(ts: Coll<TopicBody>, id: string): (qs: Coll<Doc>)
    ensures id !in Ids(ts) ==> qs == []
    ensures (forall j :: 0 <= j < |ts| ==> Ordered(ts[j].body.questions)) ==> Ordered(qs)
  {
    match Find(ts, id)
    case None => []
    case Some(b) =>
      assert exists k :: 0 <= k < |ts| && ts[k] == Entry(id, b);
      b.questions
  }

  datatype Created = Created(server: Server, result: Result<string>)

  /** `criar_topico_com_perguntas` under the freshly generated id `freshId`:
      the topic document is written first, then one question per input item
      under ids "1", ..., "n". Taking the length of a value that has none
      raises before anything is written; an item that is not a dict raises
      after the topic document was written, and none of the questions is. */
  function CriarTopicoComPerguntas(s: Server, freshId: string, topico: string, preguntas: Value,
                                   documentName: Value, documentUrl: Value): (r: Created)
    ensures Len(preguntas).None? ==> r == Created(s, Err(TypeError))
    ensures Len(preguntas).Some? ==>
      && Find(r.server.topics, freshId).Some?
      && Find(r.server.topics, freshId).value.doc == Some(TopicData(topico, documentName, documentUrl, Len(preguntas).value))
    ensures Len(preguntas).Some? && IterDocs(preguntas).None? ==>
      && r.result == Err(AttributeError)
      && (freshId !in Ids(s.topics) ==> Find(r.server.topics, freshId).value.questions == [])
    ensures IterDocs(preguntas).Some? ==>
      var ps := IterDocs(preguntas).value;
      var qs := Find(r.server.topics, freshId).value.questions;
      && r.result == Ok(freshId)
      && Len(preguntas) == Some(|ps|)
      && (forall i :: 0 <= i < |ps| ==> Find(qs, QuestionId(i)) == Some(QuestionRecord(ps[i])))
      && (freshId !in Ids(s.topics) ==> Ids(qs) == NumberedIds(|ps|))
    ensures forall k :: k != freshId ==> Find(r.server.topics, k) == Find(s.topics, k)
    ensures r.server.doc == s.doc && r.server.users == s.users && r.server.stats == s.stats
    ensures WellFormed(s) ==> WellFormed(r.server)
  {
    match Len(preguntas)
    case None => Created(s, Err(TypeError))
    case Some(n) =>
      var data := TopicData(topico, documentName, documentUrl, n);
      var existing := ExistingQuestions(s.topics, freshId);
      match IterDocs(preguntas)
      case None =>
        var body := TopicBody(Some(data), existing);
        assert WellFormed(s) ==> WellFormed(s.(topics := Put(s.topics, freshId, body))) by {
          if WellFormed(s) { PutTopicWellFormed(s, freshId, body); }
        }
        Created(s.(topics := Put(s.topics, freshId, body)), Err(AttributeError))
      case Some(ps) =>
        IterDocsLen(preguntas);
        StoreNumberedFinds(existing, Records(ps));
        var body := TopicBody(Some(data), StoreNumbered(existing, Records(ps)));
        assert WellFormed(s) ==> WellFormed(s.(topics := Put(s.topics, freshId, body))) by {
          if WellFormed(s) { PutTopicWellFormed(s, freshId, body); }
        }
        Created(s.(topics := Put(s.topics, freshId, body)), Ok(freshId))
  }

  /** `obter_topics_para_autocompletar`: one title per topic document, in
      document order, "Sem título" when it has none. */
  function ObterTopicsParaAutocompletar(s: Server): (r: seq<Value>)
    ensures |r| == |TopicDocs(s.topics)|
    ensures forall i :: 0 <= i < |r| ==> r[i] == Get(TopicDocs(s.topics)[i].body, "title", Str("Sem t\U{ED}tulo"))
  {
    var docs := TopicDocs(s.topics);
    seq(|docs|, i requires 0 <= i < |docs| => Get(docs[i].body, "title", Str("Sem t\U{ED}tulo")))
  }

  /** An existing topic document is among those `topics.get()` returns. */
  lemma {:induction false} TopicDocsHas(ts: Coll<TopicBody>, id: string, d: Doc, qs: Coll<Doc>)
    requires Entry(id, TopicBody(Some(d), qs)) in ts
    ensures Entry(id, d) in TopicDocs(ts)
    decreases |ts|
  {
    if ts[0] != Entry(id, TopicBody(Some(d), qs)) {
      TopicDocsHas(ts[1..], id, d, qs);
    }
  }

  /** A topic created with a list of questions is offered by title from then
      on. */
  lemma CreatedTopicIsOffered(s: Server, freshId: string, topico: string, preguntas: Value,
                              documentName: Value, documentUrl: Value)
    requires Len(preguntas).Some?
    ensures Str(topico) in ObterTopicsParaAutocompletar(CriarTopicoComPerguntas(s, freshId, topico, preguntas, documentName, documentUrl).server)
  {
    var after := CriarTopicoComPerguntas(s, freshId, topico, preguntas, documentName, documentUrl).server;
    var body := Find(after.topics, freshId).value;
    var d := body.doc.value;
    TopicDocsHas(after.topics, freshId, d, body.questions);
    var docs := TopicDocs(after.topics);
    var i :| 0 <= i < |docs| && docs[i] == Entry(freshId, d);
    assert ObterTopicsParaAutocompletar(after)[i] == Str(topico);
  }

  /** `obter_preguntas_por_topic`: the questions of the first topic document
      whose title is exactly `topic`, or none. */
  function ObterPreguntasPorTopic(s: Server, topic: string): (r: Coll<Doc>)
    ensures FindTopic(s.topics, topic).None? ==> r == []
    ensures FindTopic(s.topics, topic).Some? ==>
      var i := FindTopic(s.topics, topic).value;
      && r == s.topics[i].body.questions
      && s.topics[i].body.doc.Some? && Get(s.topics[i].body.doc.value, "title", Null) == Str(topic)
      && forall j :: 0 <= j < i && s.topics[j].body.doc.Some? ==>
           Get(s.topics[j].body.doc.value, "title", Null) != Str(topic)
  {
    match FindTopic(s.topics, topic)
    case None => []
    case Some(i) => s.topics[i].body.questions
  }

  /** When the title was not taken, the lookup by title right after creation
      finds exactly the numbered questions that were just stored. */
  lemma CreatedTopicQuestionsFound(s: Server, freshId: string, topico: string, preguntas: Value,
                                   documentName: Value, documentUrl: Value)
    requires Ordered(s.topics)
    requires freshId !in Ids(s.topics)
    requires FindTopic(s.topics, topico).None?
    requires IterDocs(preguntas).Some?
    ensures var ps := IterDocs(preguntas).value;
            var qs := ObterPreguntasPorTopic(CriarTopicoComPerguntas(s, freshId, topico, preguntas, documentName, documentUrl).server, topico);
      && Ids(qs) == NumberedIds(|ps|)
      && forall i :: 0 <= i < |ps| ==> Find(qs, QuestionId(i)) == Some(QuestionRecord(ps[i]))
  {
    var after := CriarTopicoComPerguntas(s, freshId, topico, preguntas, documentName, documentUrl).server;
    var body := Find(after.topics, freshId).value;
    assert body.doc.Some? && Get(body.doc.value, "title", Null) == Str(topico);
    assert Entry(freshId, body) in after.topics;
    var k :| 0 <= k < |after.topics| && after.topics[k] == Entry(freshId, body);
    assert FindTopic(after.topics, topico).Some?;
    var j := FindTopic(after.topics, topico).value;
    var e := after.topics[j];
    FindOrdered(after.topics, j);
    assert e.id == freshId;
    assert ObterPreguntasPorTopic(after, topico) == body.questions;
  }
}
