/** The question-generation pipeline in its two revisions: utils/llm_utils.py
    (any question type, a caller-supplied quantity, topic creation through a
    repository call and a local `questions.json`) and the older llm_utils.py
    (50 true/false questions written straight under the topic path, and a
    local `preguntas.json`). PDF extraction, the HTTP call and `json.loads`
    are parameters: their results are what the model sees. */
module Generation {
  import opened Common
  import opened Collection
  import opened Store
  import opened Prompts
  import opened Topics

  // ---------------------------------------------------------------------------
  // The model's reply

  /** `body["choices"][0]["message"]["content"]`, or `None` where a step
      raises (a missing key, an empty list, a value of the wrong type). */
  function ResponseContent(body: Value): (r: Option<Value>)
    ensures r.Some? <==>
      && body.Obj? && "choices" in body.fields
      && body.fields["choices"].List? && |body.fields["choices"].items| > 0
      && body.fields["choices"].items[0].Obj? && "message" in body.fields["choices"].items[0].fields
      && body.fields["choices"].items[0].fields["message"].Obj?
      && "content" in body.fields["choices"].items[0].fields["message"].fields
    ensures r.Some? ==> r.value == body.fields["choices"].items[0].fields["message"].fields["content"]
  {
    if body.Obj? && "choices" in body.fields then
      var choices := body.fields["choices"];
      if choices.List? && |choices.items| > 0 && choices.items[0].Obj? && "message" in choices.items[0].fields then
        var message := choices.items[0].fields["message"];
        if message.Obj? && "content" in message.fields then Some(message.fields["content"]) else None
      else None
    else None
  }

  /** `send_to_openrouter`: `response` is the decoded body of the HTTP reply,
      `None` when the request or its status check failed. Every failure is
      caught and the function returns Python's None (`Null`); it never
      raises. */
  function SendToOpenRouter(response: Option<Value>): (r: Value)
    ensures response.None? ==> r == Null
    ensures response.Some? && ResponseContent(response.value).None? ==> r == Null
    ensures response.Some? && ResponseContent(response.value).Some? ==> r == ResponseContent(response.value).value
  {
    match response
    case None => Null
    case Some(body) =>
      match ResponseContent(body)
      case None => Null
      case Some(c) => c
  }

  /** A well-formed reply yields its content; a reply without choices yields
      None. */
  lemma SendToOpenRouterSamples(content: string)
    ensures SendToOpenRouter(Some(Obj(map["choices" := List([Obj(map["message" := Obj(map["role" := Str("assistant"), "content" := Str(content)])])])]))) == Str(content)
    ensures SendToOpenRouter(Some(Obj(map["choices" := List([])]))) == Null
    ensures SendToOpenRouter(Some(Obj(map["error" := Str(content)]))) == Null
  {
  }

  // ---------------------------------------------------------------------------
  // Parsing and truncating

  /** `v[:qty]` when `v` is a list; any other value is kept as it is. */
  function Truncate(v: Value, qty: int): (r: Value)
    ensures !v.List? ==> r == v
    ensures v.List? ==> r.List? && r.items <= v.items
    ensures v.List? && qty >= 0 ==> |r.items| == (if qty < |v.items| then qty else |v.items|)
    ensures v.List? && qty < 0 ==> |r.items| == (if -qty < |v.items| then |v.items| + qty else 0)
  {
    if v.List? then List(SliceTo(v.items, qty)) else v
  }

  /** A list no longer than `qty` is kept whole. */
  lemma TruncateShortList(items: seq<Value>, qty: int)
    requires |items| <= qty
    ensures Truncate(List(items), qty) == List(items)
  {
  }

  /** What `for x in v` yields for a value that has a length: the elements of
      a list, the one-character strings of a string, and for a dict its keys,
      which are strings (only their being strings matters here). */
  function Iterated(v: Value): (r: seq<Value>)
    requires Len(v).Some?
    ensures |r| == Len(v).value
    ensures v.List? ==> r == v.items
    ensures !v.List? ==> forall i :: 0 <= i < |r| ==> r[i].Str?
  {
    match v
    case List(xs) => xs
    case Str(s) => seq(|s|, i requires 0 <= i < |s| => Str([s[i]]))
    case Obj(m) => seq(|m|, _ => Str(""))
  }

  // ---------------------------------------------------------------------------
  // The local questions file

  type LocalFile = map<string, Value>

  /** Every new question is a dict. */
  predicate AllObj(items: seq<Value>)
  {
    forall j :: 0 <= j < |items| ==> items[j].Obj?
  }

  lemma AllObjCons(items: seq<Value>)
    requires |items| > 0
    ensures AllObj(items) <==> items[0].Obj? && AllObj(items[1..])
  {
    assert forall j :: 1 <= j < |items| ==> items[j] == items[1..][j - 1];
  }

  /** A question dict with its "id" set to `str(n)`. */
  function Stamped(item: Value, n: nat): (r: Value)
    requires item.Obj?
    ensures r.Obj? && r.fields.Keys == item.fields.Keys + {"id"} && r.fields["id"] == Str(NatToString(n))
  {
    Obj(item.fields["id" := Str(NatToString(n))])
  }

  /** The loop over the new questions: each gets "id" = `str(len(list) + i)`,
      with `len` read again after every append and `i` counting from the
      given start, and is appended. The length is taken before the id is
      assigned and the id before the append, so a value without a length
      raises TypeError, a non-dict question raises TypeError and appending
      to something that is not a list raises AttributeError. */
  function LocalLoop(list: Value, items: seq<Value>, i: nat): (r: Result<Value>)
    ensures |items| == 0 ==> r == Ok(list)
    ensures r.Err? ==> r.failure == TypeError || r.failure == AttributeError
    ensures |items| > 0 && !list.List? ==> r.Err?
    ensures list.List? ==> (r.Err? <==> !AllObj(items))
    decreases |items|
  {
    if |items| == 0 then Ok(list)
    else if Len(list).None? then Err(TypeError)
    else if !items[0].Obj? then AllObjCons(items); Err(TypeError)
    else if !list.List? then Err(AttributeError)
    else
      AllObjCons(items);
      LocalLoop(List(list.items + [Stamped(items[0], |list.items| + i)]), items[1..], i + 1)
  }

  /** `out` is `xs` followed by the j-th item (from 0) stamped with
      `|xs| + 2j + i`. */
  ghost predicate ClosedForm(xs: seq<Value>, items: seq<Value>, i: nat, out: seq<Value>)
    requires AllObj(items)
  {
    && |out| == |xs| + |items|
    && out[..|xs|] == xs
    && forall j :: 0 <= j < |items| ==> out[|xs| + j] == Stamped(items[j], |xs| + 2 * j + i)
  }

  /** One step of the loop in closed form. */
  lemma ClosedFormStep(xs: seq<Value>, items: seq<Value>, i: nat, out: seq<Value>)
    requires |items| > 0 && AllObj(items)
    requires AllObj(items[1..])
    requires ClosedForm(xs + [Stamped(items[0], |xs| + i)], items[1..], i + 1, out)
    ensures ClosedForm(xs, items, i, out)
  {
    var xs' := xs + [Stamped(items[0], |xs| + i)];
    PrefixSnoc(xs, Stamped(items[0], |xs| + i), out);
    ClosedFormLater(xs, items, i, out);
  }

  lemma PrefixSnoc<T>(xs: seq<T>, x: T, out: seq<T>)
    requires |xs| < |out| && out[..|xs| + 1] == xs + [x]
    ensures out[..|xs|] == xs && out[|xs|] == x
  {
    assert out[..|xs|] == out[..|xs| + 1][..|xs|];
    assert out[|xs|] == out[..|xs| + 1][|xs|];
  }

  lemma ClosedFormLater(xs: seq<Value>, items: seq<Value>, i: nat, out: seq<Value>)
    requires |items| > 0 && AllObj(items) && AllObj(items[1..])
    requires ClosedForm(xs + [Stamped(items[0], |xs| + i)], items[1..], i + 1, out)
    ensures forall j :: 1 <= j < |items| ==> out[|xs| + j] == Stamped(items[j], |xs| + 2 * j + i)
  {
    var n := |xs| + 1;
    forall j | 1 <= j < |items|
      ensures out[|xs| + j] == Stamped(items[j], |xs| + 2 * j + i)
    {
      assert items[1..][j - 1] == items[j];
      assert out[n + (j - 1)] == Stamped(items[1..][j - 1], n + 2 * (j - 1) + (i + 1));
    }
  }

  lemma LocalLoopStep(xs: seq<Value>, items: seq<Value>, i: nat)
    requires |items| > 0 && items[0].Obj?
    ensures LocalLoop(List(xs), items, i) == LocalLoop(List(xs + [Stamped(items[0], |xs| + i)]), items[1..], i + 1)
  {
  }

  /** Closed form of the loop: the old list is kept and the j-th new
      question (from 0) is appended with id `len + start + 2j`, since both the
      length and the counter grow by one per step. */
  lemma {:induction false} LocalLoopClosedForm(xs: seq<Value>, items: seq<Value>, i: nat)
    requires AllObj(items)
    ensures LocalLoop(List(xs), items, i).Ok?
    ensures LocalLoop(List(xs), items, i).value.List?
    ensures ClosedForm(xs, items, i, LocalLoop(List(xs), items, i).value.items)
    decreases |items|
  {
    if |items| > 0 {
      AllObjCons(items);
      var xs' := xs + [Stamped(items[0], |xs| + i)];
      LocalLoopClosedForm(xs', items[1..], i + 1);
      var r := LocalLoop(List(xs'), items[1..], i + 1);
      ClosedFormStep(xs, items, i, r.value.items);
      LocalLoopStep(xs, items, i);
    }
  }

  /** The id of the new question at position `j` (from 0) when the list held
      `m` questions before the call. */
  function LocalId(m: nat, j: nat): string
  {
    NatToString(m + 2 * j + 1)
  }

  /** The local-file update of both revisions: the topic gets `[]` when it
      has no entry yet, the new questions are appended through the loop, and
      the whole file is written back only when the loop finishes. The j-th
      new question (from 0) gets the id `len + 2j + 1`, `len` being the
      length of the stored list before the call. */
  function UpdateLocal(data: LocalFile, topic: string, items: seq<Value>): (r: Result<LocalFile>)
    ensures r.Ok? ==> topic in r.value && r.value.Keys == data.Keys + {topic}
    ensures r.Ok? ==> forall k :: k in data && k != topic ==> r.value[k] == data[k]
    ensures (topic !in data || data[topic].List?) && AllObj(items) ==>
      && r.Ok? && r.value[topic].List?
      && ClosedForm(if topic in data then data[topic].items else [], items, 1, r.value[topic].items)
    ensures r.Err? <==> |items| > 0 && ((topic in data && !data[topic].List?) || !AllObj(items))
  {
    var existing := if topic in data then data[topic] else List([]);
    match LocalLoop(existing, items, 1)
    case Err(e) => Err(e)
    case Ok(v) =>
      if existing.List? && AllObj(items) then
        LocalLoopClosedForm(existing.items, items, 1);
        Ok(data[topic := v])
      else Ok(data[topic := v])
  }

  /** Ids are not consecutive and can repeat across calls: two questions
      saved into an empty topic get "1" and "3", and one more question saved
      afterwards gets "3" again. */
  lemma LocalIdsCollide()
    ensures var once := UpdateLocal(map[], "t", [Obj(map[]), Obj(map[])]);
      && once.Ok?
      && once.value["t"] == List([Obj(map["id" := Str("1")]), Obj(map["id" := Str("3")])])
      && var twice := UpdateLocal(once.value, "t", [Obj(map[])]);
      && twice.Ok?
      && twice.value["t"].items[1] == Obj(map["id" := Str("3")])
      && twice.value["t"].items[2] == Obj(map["id" := Str("3")])
  {
    var e := Obj(map[]);
    assert NatToString(1) == "1" && NatToString(3) == "3";
    assert Stamped(e, 1) == Obj(map["id" := Str("1")]) && Stamped(e, 3) == Obj(map["id" := Str("3")]);
    var once := UpdateLocal(map[], "t", [e, e]);
    var xs := once.value["t"].items;
    assert ClosedForm([], [e, e], 1, xs);
    assert xs == [Stamped(e, 1), Stamped(e, 3)];
    var ys := UpdateLocal(once.value, "t", [e]).value["t"].items;
    assert ClosedForm(xs, [e], 1, ys);
    assert ys[1] == ys[..2][1] == xs[1];
  }

  /** Within one call the ids strictly increase, by two per question. */
  lemma LocalIdsIncrease(m: nat, j: nat, k: nat)
    requires j < k
    ensures ParseNat(LocalId(m, j)) < ParseNat(LocalId(m, k))
    ensures ParseNat(LocalId(m, k)) - ParseNat(LocalId(m, j)) == 2 * (k - j)
  {
    ParseNatToString(m + 2 * j + 1);
    ParseNatToString(m + 2 * k + 1);
  }

  // ---------------------------------------------------------------------------
  // save_questions_json and the pipeline of utils/llm_utils.py

  /** The arguments `create_topic_with_questions` receives. */
  datatype CreateCall = CreateCall(guildId: string, topicName: string, topicId: Value, questions: Value,
                                   documentUrl: string, qty: int, qtype: QuestionKind)

  /** What a save did: the repository call it made, the value it wrote to
      the local file, and whether it returned or raised. */
  datatype Saved = Saved(created: Option<CreateCall>, written: Option<Value>, outcome: Result<()>)

  /** The local-file half of `save_questions_json`, over the file as read
      (`None` when it does not exist, otherwise what `json.load` made of
      it). A decode error raises ValueError. An object is updated as
      `UpdateLocal` says. Any other value fails the `topic not in data` test
      or the assignment after it with a TypeError, except a list holding the
      topic name or a string containing it when there is nothing to append:
      the loop does not run and the value is written back as it was. */
  function WriteBack(file: Option<Parsed>, topic: string, items: seq<Value>): (r: Result<Value>)
    ensures file == Some(DecodeError) ==> r == Err(ValueError)
    ensures file.None? || (file.value.Json? && file.value.value.Obj?) ==>
      var data := if file.None? then map[] else file.value.value.fields;
      && (r.Ok? <==> UpdateLocal(data, topic, items).Ok?)
      && (r.Ok? ==> r.value == Obj(UpdateLocal(data, topic, items).value))
      && (r.Err? ==> r.failure == UpdateLocal(data, topic, items).failure)
    ensures file.Some? && file.value.Json? && !file.value.value.Obj? ==>
      var data := file.value.value;
      && (r.Ok? <==> |items| == 0 &&
                     ((data.List? && Str(topic) in data.items) || (data.Str? && IsSubstring(topic, data.s))))
      && (r.Ok? ==> r.value == data)
      && (r.Err? ==> r.failure == TypeError)
  {
    match file
    case None => (match UpdateLocal(map[], topic, items) case Ok(d) => Ok(Obj(d)) case Err(e) => Err(e))
    case Some(DecodeError) => Err(ValueError)
    case Some(Json(data)) =>
      match data
      case Obj(m) => (match UpdateLocal(m, topic, items) case Ok(d) => Ok(Obj(d)) case Err(e) => Err(e))
      case List(xs) => if Str(topic) in xs && |items| == 0 then Ok(data) else Err(TypeError)
      case Str(s) => if IsSubstring(topic, s) && |items| == 0 then Ok(data) else Err(TypeError)
      case _ => Err(TypeError)
  }

  /** `save_questions_json`. `create` is the outcome of
      `create_topic_with_questions`, which is not part of this model, and
      `file` the local file as read. Only a decode error of the reply is
      caught: a reply that is not a string (None after a failed request)
      makes `json.loads` raise TypeError. The parsed value, cut to `qty` when
      it is a list, goes to the repository call; its length is printed, then
      the local file is updated. */
  function SaveQuestionsJson(topicName: string, topicId: Value, questionsStr: Value, parse: string -> Parsed,
                             guildId: string, documentUrl: string, qty: int, qtype: QuestionKind,
                             create: CreateCall -> Result<()>, file: Option<Parsed>): (r: Saved)
    ensures !questionsStr.Str? ==> r == Saved(None, None, Err(TypeError))
    ensures questionsStr.Str? && parse(questionsStr.s).DecodeError? ==> r == Saved(None, None, Ok(()))
    ensures questionsStr.Str? && parse(questionsStr.s).Json? ==>
      var questions := Truncate(parse(questionsStr.s).value, qty);
      var call := CreateCall(guildId, topicName, topicId, questions, documentUrl, qty, qtype);
      && r.created == Some(call)
      && (create(call).Err? ==> r.outcome == create(call) && r.written.None?)
      && (create(call).Ok? && Len(questions).None? ==> r.outcome == Err(TypeError) && r.written.None?)
      && (create(call).Ok? && Len(questions).Some? ==>
            (r.outcome.Ok? <==> WriteBack(file, topicName, Iterated(questions)).Ok?))
    ensures r.written.Some? <==> r.outcome.Ok? && r.created.Some?
    ensures r.written.Some? ==>
      var questions := Truncate(parse(questionsStr.s).value, qty);
      && Len(questions).Some?
      && WriteBack(file, topicName, Iterated(questions)) == Ok(r.written.value)
  {
    if !questionsStr.Str? then Saved(None, None, Err(TypeError))
    else
      match parse(questionsStr.s)
      case DecodeError => Saved(None, None, Ok(()))
      case Json(v) =>
        var questions := Truncate(v, qty);
        var call := CreateCall(guildId, topicName, topicId, questions, documentUrl, qty, qtype);
        match create(call)
        case Err(e) => Saved(Some(call), None, Err(e))
        case Ok(_) =>
          if Len(questions).None? then Saved(Some(call), None, Err(TypeError))
          else
            match WriteBack(file, topicName, Iterated(questions))
            case Err(e) => Saved(Some(call), None, Err(e))
            case Ok(d) => Saved(Some(call), Some(d), Ok(()))
  }

  /** A parsed list of question objects reaches the repository cut to `qty`
      and, once the repository call returns, a missing local file is created
      with exactly those questions, numbered by the re-read-length rule. */
  lemma SaveListOfQuestions(topicName: string, topicId: Value, reply: string, parse: string -> Parsed,
                            guildId: string, documentUrl: string, qty: nat, qtype: QuestionKind,
                            create: CreateCall -> Result<()>, items: seq<Value>)
    requires parse(reply) == Json(List(items))
    requires forall j :: 0 <= j < |items| ==> items[j].Obj?
    requires create(CreateCall(guildId, topicName, topicId, List(SliceTo(items, qty)), documentUrl, qty, qtype)).Ok?
    ensures var r := SaveQuestionsJson(topicName, topicId, Str(reply), parse, guildId, documentUrl, qty, qtype, create, None);
            var kept := SliceTo(items, qty);
      && r.outcome.Ok?
      && r.created.value.questions == List(kept)
      && r.written.value.Obj?
      && r.written.value.fields.Keys == {topicName}
      && r.written.value.fields[topicName].items ==
           seq(|kept|, j requires 0 <= j < |kept| => Obj(kept[j].fields["id" := Str(LocalId(0, j))]))
  {
    var kept := SliceTo(items, qty);
    assert forall j :: 0 <= j < |kept| ==> kept[j] == items[j];
  }

  datatype Generated = Generated(prompt: string, reply: Value, saved: Saved)

  /** `generate_questions_from_pdf`: extract the text (a failed download
      raises), build the prompt for the type, send it, and save whatever came
      back; each stage takes the previous stage's result. */
  function GenerateQuestionsFromPdf(topicName: string, topicId: Value, guildId: string, pdfUrl: string, qty: int,
                                    qtype: QuestionKind, extract: string -> Option<string>,
                                    ask: string -> Option<Value>, parse: string -> Parsed,
                                    create: CreateCall -> Result<()>, file: Option<Parsed>): (r: Result<Generated>)
    ensures r.Err? <==> extract(pdfUrl).None?
    ensures r.Err? ==> r.failure == RequestError
    ensures r.Ok? ==>
      && r.value.prompt == GeneratePromptQuestions(extract(pdfUrl).value, topicName, qty, qtype)
      && r.value.reply == SendToOpenRouter(ask(r.value.prompt))
      && r.value.saved == SaveQuestionsJson(topicName, topicId, r.value.reply, parse, guildId, pdfUrl, qty, qtype, create, file)
  {
    match extract(pdfUrl)
    case None => Err(RequestError)
    case Some(text) =>
      var prompt := GeneratePromptQuestions(text, topicName, qty, qtype);
      var reply := SendToOpenRouter(ask(prompt));
      Ok(Generated(prompt, reply, SaveQuestionsJson(topicName, topicId, reply, parse, guildId, pdfUrl, qty, qtype, create, file)))
  }

  /** The prompt carries the requested count and the first 4000 characters
      of the text; when the request fails, the swallowed error resurfaces as a
      TypeError in `json.loads(None)`, before any topic is created or any
      file written. */
  lemma GenerateFacts(topicName: string, topicId: Value, guildId: string, pdfUrl: string, qty: int,
                      qtype: QuestionKind, extract: string -> Option<string>,
                      ask: string -> Option<Value>, parse: string -> Parsed, create: CreateCall -> Result<()>,
                      file: Option<Parsed>)
    requires extract(pdfUrl).Some?
    ensures var g := GenerateQuestionsFromPdf(topicName, topicId, guildId, pdfUrl, qty, qtype, extract, ask, parse, create, file).value;
      && IsSubstring("exactly " + IntToString(qty), g.prompt)
      && EndsWith(g.prompt, "\nContent:\n" + Cut(extract(pdfUrl).value) + "\n")
      && (ask(g.prompt).None? ==> g.saved == Saved(None, None, Err(TypeError)))
  {
    TemplateShape(SelectTemplate(qtype), topicName, extract(pdfUrl).value, qty);
  }

  // ---------------------------------------------------------------------------
  // The older revision (llm_utils.py)

  /** The topic at `id` with its questions replaced or extended by the
      numbered records; its document, if any, is left as it was. */
  function OldTopicBody(ts: Coll<TopicBody>, id: string, ps: seq<Doc>): (b: TopicBody)
    ensures b.doc == (if Find(ts, id).Some? then Find(ts, id).value.doc else None)
  {
    var doc := match Find(ts, id) case Some(t) => t.doc case None => None;
    TopicBody(doc, StoreNumbered(ExistingQuestions(ts, id), Records(ps)))
  }

  datatype OldSaved = OldSaved(server: Server, written: Option<LocalFile>, outcome: Result<()>)

  /** `guardar_preguntas_json`: only a decode error is caught. Every parsed
      question is written, with no cut, under the topic path whose id is the
      topic's name, as "1", ..., "n" holding only `pregunta` (default "") and
      `respuesta` (default "V"); a value that cannot be iterated raises
      TypeError and an item without `.get` raises AttributeError before the
      batch is committed. Then the local file is updated as in the newer
      revision. */
  function GuardarPreguntasJson(s: Server, topico: string, preguntasStr: Value, parse: string -> Parsed,
                                file: Option<LocalFile>): (r: OldSaved)
    ensures !preguntasStr.Str? ==> r == OldSaved(s, None, Err(TypeError))
    ensures preguntasStr.Str? && parse(preguntasStr.s).DecodeError? ==> r == OldSaved(s, None, Ok(()))
    ensures preguntasStr.Str? && parse(preguntasStr.s).Json? ==>
      var v := parse(preguntasStr.s).value;
      && (Len(v).None? ==> r == OldSaved(s, None, Err(TypeError)))
      && (Len(v).Some? && IterDocs(v).None? ==> r == OldSaved(s, None, Err(AttributeError)))
      && (IterDocs(v).Some? ==>
            var ps := IterDocs(v).value;
            && Find(r.server.topics, topico).Some?
            && (forall i :: 0 <= i < |ps| ==>
                  Find(Find(r.server.topics, topico).value.questions, QuestionId(i)) == Some(QuestionRecord(ps[i])))
            && (forall k :: k !in NumberedIds(|ps|) ==>
                  Find(Find(r.server.topics, topico).value.questions, k) == Find(ExistingQuestions(s.topics, topico), k))
            && (forall k :: k != topico ==> Find(r.server.topics, k) == Find(s.topics, k)))
      && (Len(v).Some? && IterDocs(v).Some? ==>
            var u := UpdateLocal(if file.Some? then file.value else map[], topico, Iterated(v));
            && (u.Ok? ==> r.written == Some(u.value) && r.outcome == Ok(()))
            && (u.Err? ==> r.written.None? && r.outcome == Err(u.failure)))
    ensures r.written.Some? ==> r.outcome.Ok?
    ensures r.server.doc == s.doc && r.server.users == s.users && r.server.stats == s.stats
  {
    if !preguntasStr.Str? then OldSaved(s, None, Err(TypeError))
    else
      match parse(preguntasStr.s)
      case DecodeError => OldSaved(s, None, Ok(()))
      case Json(v) =>
        if Len(v).None? then OldSaved(s, None, Err(TypeError))
        else
          match IterDocs(v)
          case None => OldSaved(s, None, Err(AttributeError))
          case Some(ps) =>
            StoreNumberedFinds(ExistingQuestions(s.topics, topico), Records(ps));
            var after := s.(topics := Put(s.topics, topico, OldTopicBody(s.topics, topico, ps)));
            var data := if file.Some? then file.value else map[];
            match UpdateLocal(data, topico, Iterated(v))
            case Err(e) => OldSaved(after, None, Err(e))
            case Ok(d) => OldSaved(after, Some(d), Ok(()))
  }

  /** When the value iterates and the local file's entry for the topic is
      absent or a list, the older saver always writes the local file, and
      the new questions get the ids `str(len + i)` of the re-read length. */
  lemma GuardarLocalIds(s: Server, topico: string, preguntasStr: Value, parse: string -> Parsed,
                        file: Option<LocalFile>)
    requires preguntasStr.Str? && parse(preguntasStr.s).Json?
    requires Len(parse(preguntasStr.s).value).Some? && IterDocs(parse(preguntasStr.s).value).Some?
    requires var data := if file.Some? then file.value else map[];
      topico !in data || data[topico].List?
    ensures var v := parse(preguntasStr.s).value;
      var data := if file.Some? then file.value else map[];
      var r := GuardarPreguntasJson(s, topico, preguntasStr, parse, file);
      && AllObj(Iterated(v))
      && r.outcome == Ok(())
      && r.written.Some? && topico in r.written.value && r.written.value[topico].List?
      && ClosedForm(if topico in data then data[topico].items else [], Iterated(v), 1, r.written.value[topico].items)
  {
    var v := parse(preguntasStr.s).value;
    if !v.List? {
      assert Iterated(v) == [];
    }
  }

  /** The first topic whose document has the given title, as a body. */
  function FoundBody(ts: Coll<TopicBody>, title: string): Option<TopicBody>
  {
    match FindTopic(ts, title)
    case None => None
    case Some(i) => Some(ts[i].body)
  }

  /** A lookup over a collection with a given first entry. */
  lemma FoundBodyCons(e: Entry<TopicBody>, rest: Coll<TopicBody>, title: string)
    ensures FoundBody([e] + rest, title) ==
      if e.body.doc.Some? && Get(e.body.doc.value, "title", Null) == Str(title) then Some(e.body)
      else FoundBody(rest, title)
  {
    var c := [e] + rest;
    assert c[0] == e && c[1..] == rest;
  }

  /** Adding a topic path that has no document is invisible to title
      lookups. */
  lemma {:induction false} HiddenTopicKeepsLookup(ts: Coll<TopicBody>, id: string, qs: Coll<Doc>, title: string)
    requires id !in Ids(ts)
    ensures FoundBody(Put(ts, id, TopicBody(None, qs)), title) == FoundBody(ts, title)
    decreases |ts|
  {
    var e := Entry(id, TopicBody(None, qs));
    PutCases(ts, id, TopicBody(None, qs));
    if |ts| == 0 {
      FoundBodyCons(e, [], title);
      assert [e] + [] == [e];
    } else {
      IdsHead(ts);
      HeadTail(ts);
      FoundBodyCons(ts[0], ts[1..], title);
      if StrLt(id, ts[0].id) {
        FoundBodyCons(e, ts, title);
      } else {
        var rest := Put(ts[1..], id, TopicBody(None, qs));
        FoundBodyCons(ts[0], rest, title);
        HiddenTopicKeepsLookup(ts[1..], id, qs, title);
      }
    }
  }

  /** When no topic document has the topic's name as its id, the questions
      the older revision stores are never found by a lookup by title: every
      lookup answers as it did before. */
  lemma OldQuestionsInvisible(s: Server, topico: string, reply: string, parse: string -> Parsed,
                              file: Option<LocalFile>, title: string)
    requires topico !in Ids(s.topics)
    ensures FoundBody(GuardarPreguntasJson(s, topico, Str(reply), parse, file).server.topics, title) == FoundBody(s.topics, title)
  {
    var r := GuardarPreguntasJson(s, topico, Str(reply), parse, file);
    match parse(reply)
    case DecodeError =>
      assert r.server == s;
    case Json(v) =>
      if Len(v).Some? && IterDocs(v).Some? {
        var ps := IterDocs(v).value;
        var body := OldTopicBody(s.topics, topico, ps);
        assert r.server.topics == Put(s.topics, topico, body);
        assert body == TopicBody(None, StoreNumbered([], Records(ps)));
        HiddenTopicKeepsLookup(s.topics, topico, body.questions, title);
      } else {
        assert r.server == s;
      }
  }

  /** `os.path.join("docs", f"{topico}.pdf")`: an absolute name discards the
      directory. */
  function PdfPath(topico: string): (p: string)
    ensures EndsWith(p, ".pdf")
    ensures !StartsWith(topico, "/") ==> p == "docs/" + topico + ".pdf"
  {
    if StartsWith(topico, "/") then topico + ".pdf" else "docs/" + topico + ".pdf"
  }

  datatype OldGenerated = OldGenerated(prompt: string, reply: Value, saved: OldSaved)

  /** `generar_preguntas_desde_pdf`: a missing PDF raises FileNotFoundError
      before the text is extracted or the model is asked; a failed request
      raises (the older sender catches nothing). */
  function GenerarPreguntasDesdePdf(s: Server, topico: string, files: set<string>, extract: string -> string,
                                    ask: string -> Option<Value>, parse: string -> Parsed,
                                    file: Option<LocalFile>): (r: Result<OldGenerated>)
    ensures PdfPath(topico) !in files ==> r == Err(FileNotFoundError)
    ensures PdfPath(topico) in files ==>
      var prompt := GenerarPrompt(extract(PdfPath(topico)), topico);
      && (r.Err? <==> ask(prompt).None? || ResponseContent(ask(prompt).value).None?)
      && (r.Err? ==> r.failure == RequestError)
      && (r.Ok? ==> r.value.prompt == prompt && Some(r.value.reply) == ResponseContent(ask(prompt).value))
      && (r.Ok? ==> r.value.saved == GuardarPreguntasJson(s, topico, r.value.reply, parse, file))
  {
    var path := PdfPath(topico);
    if path !in files then Err(FileNotFoundError)
    else
      var prompt := GenerarPrompt(extract(path), topico);
      match ask(prompt)
      case None => Err(RequestError)
      case Some(body) =>
        match ResponseContent(body)
        case None => Err(RequestError)
        case Some(reply) => Ok(OldGenerated(prompt, reply, GuardarPreguntasJson(s, topico, reply, parse, file)))
  }
}
