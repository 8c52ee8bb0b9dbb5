/** The question-management slash commands (commands/crud_questions.py and
    the identical handlers of commands/questions_commands.py): the professor
    check, topic autocompletion, the V/F check of /add_question, the listing
    split into messages of at most 2000 characters, and the fixed arguments
    of /generate_questions. Discord replies are values of reply datatypes;
    `show` stands for Python's `str()` of a stored value. */
module Commands {
  import opened Common
  import opened Collection
  import opened Store
  import opened Prompts
  import opened Topics
  import opened Questions
  import opened Chunking

  const ProfessorRole: string := "faculty"
  const SuggestionLimit: nat := 25

  // ---------------------------------------------------------------------------
  // Permission

  function HasRole(roles: seq<string>, name: string): (b: bool)
    ensures b <==> exists i :: 0 <= i < |roles| && Lower(roles[i]) == name
    decreases |roles|
  {
    if |roles| == 0 then false
    else if Lower(roles[0]) == name then true
    else
      assert forall i :: 1 <= i < |roles| ==> roles[i] == roles[1..][i - 1];
      HasRole(roles[1..], name)
  }

  /** `is_professor`: inside a server, some role named "faculty" in any
      letter case. */
  function IsProfessor(inGuild: bool, roles: seq<string>): (b: bool)
    ensures b <==> inGuild && exists i :: 0 <= i < |roles| && Lower(roles[i]) == ProfessorRole
  {
    inGuild && HasRole(roles, ProfessorRole)
  }

  lemma IsProfessorSamples()
    ensures IsProfessor(true, ["Student", "FACULTY"])
    ensures !IsProfessor(false, ["faculty"])
    ensures !IsProfessor(true, ["faculty member"])
  {
    assert Lower("FACULTY") == "faculty";
    assert Lower("Student")[0] == 's';
    assert |Lower("faculty member")| != |"faculty"|;
  }

  // ---------------------------------------------------------------------------
  // Autocompletion

  /** `current.lower() in name.lower()` */
  predicate Suggests(current: string, name: string)
  {
    IsSubstring(Lower(current), Lower(name))
  }

  /** Positions of the names that contain `current`, in increasing order. */
  function MatchingPositions(current: string, names: seq<string>): (r: seq<nat>)
    ensures forall k :: 0 <= k < |r| ==> r[k] < |names| && Suggests(current, names[r[k]])
    ensures forall k, l :: 0 <= k < l < |r| ==> r[k] < r[l]
    ensures forall i :: 0 <= i < |names| && Suggests(current, names[i]) ==> i in r
    decreases |names|
  {
    if |names| == 0 then []
    else
      var n := |names| - 1;
      var prev := MatchingPositions(current, names[..n]);
      assert forall k :: 0 <= k < |prev| ==> names[..n][prev[k]] == names[prev[k]];
      if Suggests(current, names[n]) then prev + [n] else prev
  }

  /** The names that contain `current`, in their original order. */
  function Matching(current: string, names: seq<string>): (r: seq<string>)
    ensures |r| == |MatchingPositions(current, names)|
    ensures forall k :: 0 <= k < |r| ==> r[k] == names[MatchingPositions(current, names)[k]]
  {
    var ps := MatchingPositions(current, names);
    seq(|ps|, k requires 0 <= k < |ps| => names[ps[k]])
  }

  /** The suggestion list: the first 25 matching names. */
  function Autocomplete(current: string, names: seq<string>): (r: seq<string>)
    ensures |r| <= SuggestionLimit
    ensures r <= Matching(current, names)
    ensures |Matching(current, names)| <= SuggestionLimit ==> r == Matching(current, names)
    ensures |r| == if |Matching(current, names)| <= SuggestionLimit then |Matching(current, names)| else SuggestionLimit
    ensures forall k :: 0 <= k < |r| ==> r[k] in names && Suggests(current, r[k])
  {
    SliceTo(Matching(current, names), SuggestionLimit)
  }

  /** When no more than 25 names match, every matching name is offered;
      a name that does not match never is. */
  lemma AutocompleteComplete(current: string, names: seq<string>, i: nat)
    requires i < |names|
    requires |Matching(current, names)| <= SuggestionLimit
    ensures names[i] in Autocomplete(current, names) <==> Suggests(current, names[i])
  {
    if Suggests(current, names[i]) {
      var ps := MatchingPositions(current, names);
      var k :| 0 <= k < |ps| && ps[k] == i;
      assert Matching(current, names)[k] == names[i];
    }
  }

  /** The ids of the existing topic documents, in id order. */
  function TopicDocIds(ts: Coll<TopicBody>): (r: seq<string>)
    ensures |r| == |TopicDocs(ts)|
    ensures forall i :: 0 <= i < |r| ==> r[i] == TopicDocs(ts)[i].id
  {
    var docs := TopicDocs(ts);
    seq(|docs|, i requires 0 <= i < |docs| => docs[i].id)
  }

  /** The autocompletion of bot.py: the first 25 topic document ids that
      contain the typed text, in id order. */
  function TopicIdSuggestions(s: Server, current: string): (r: seq<string>)
    ensures var m := Matching(current, TopicDocIds(s.topics));
      && r <= m
      && |r| == if |m| <= SuggestionLimit then |m| else SuggestionLimit
    ensures forall k :: 0 <= k < |r| ==> r[k] in Ids(s.topics) && Suggests(current, r[k])
  {
    var ids := TopicDocIds(s.topics);
    var r := Autocomplete(current, ids);
    forall k | 0 <= k < |r| ensures r[k] in Ids(s.topics) {
      var i :| 0 <= i < |ids| && ids[i] == r[k];
      assert ids[i] == TopicDocs(s.topics)[i].id;
    }
    r
  }

  /** When no more than 25 ids match, an existing topic's id is suggested
      exactly when it contains the typed text. */
  lemma TopicIdSuggestionsComplete(s: Server, current: string, i: nat)
    requires i < |TopicDocs(s.topics)|
    requires |Matching(current, TopicDocIds(s.topics))| <= SuggestionLimit
    ensures var id := TopicDocs(s.topics)[i].id;
      id in TopicIdSuggestions(s, current) <==> Suggests(current, id)
  {
    var ids := TopicDocIds(s.topics);
    AutocompleteComplete(current, ids, i);
    assert ids[i] == TopicDocs(s.topics)[i].id;
  }

  /** The titles as strings, or `None` when one is not a string (its `.lower()`
      raises). */
  function TitleStrings(titles: seq<Value>): (r: Option<seq<string>>)
    ensures r.Some? <==> forall i :: 0 <= i < |titles| ==> titles[i].Str?
    ensures r.Some? ==> |r.value| == |titles| && forall i :: 0 <= i < |titles| ==> r.value[i] == titles[i].s
  {
    if exists i :: 0 <= i < |titles| && !titles[i].Str? then None
    else Some(seq(|titles|, i requires 0 <= i < |titles| => titles[i].s))
  }

  /** `obtener_temas_autocompletado` of commands/crud_questions.py: the same
      filter over the topic titles; a title that is not a string makes the
      whole completion fail. */
  function TitleSuggestions(s: Server, current: string): (r: Result<seq<string>>)
    ensures r.Err? <==> exists i :: 0 <= i < |ObterTopicsParaAutocompletar(s)| && !ObterTopicsParaAutocompletar(s)[i].Str?
    ensures r.Err? ==> r.failure == AttributeError
    ensures r.Ok? ==>
      var m := Matching(current, TitleStrings(ObterTopicsParaAutocompletar(s)).value);
      && r.value <= m
      && |r.value| == if |m| <= SuggestionLimit then |m| else SuggestionLimit
    ensures r.Ok? ==> forall k :: 0 <= k < |r.value| ==>
      Str(r.value[k]) in ObterTopicsParaAutocompletar(s) && Suggests(current, r.value[k])
  {
    var titles := ObterTopicsParaAutocompletar(s);
    match TitleStrings(titles)
    case None => Err(AttributeError)
    case Some(names) =>
      var r := Autocomplete(current, names);
      NamesAreTitles(titles, names, r);
      Ok(r)
  }

  /** When every title is a string and no more than 25 match, a topic's
      title is suggested exactly when it contains the typed text. */
  lemma TitleSuggestionsComplete(s: Server, current: string, i: nat)
    requires i < |ObterTopicsParaAutocompletar(s)|
    requires TitleSuggestions(s, current).Ok?
    requires |Matching(current, TitleStrings(ObterTopicsParaAutocompletar(s)).value)| <= SuggestionLimit
    ensures var title := ObterTopicsParaAutocompletar(s)[i].s;
      title in TitleSuggestions(s, current).value <==> Suggests(current, title)
  {
    var names := TitleStrings(ObterTopicsParaAutocompletar(s)).value;
    AutocompleteComplete(current, names, i);
  }

  lemma NamesAreTitles(titles: seq<Value>, names: seq<string>, r: seq<string>)
    requires |names| == |titles| && forall i :: 0 <= i < |titles| ==> titles[i].Str? && names[i] == titles[i].s
    requires forall k :: 0 <= k < |r| ==> r[k] in names
    ensures forall k :: 0 <= k < |r| ==> Str(r[k]) in titles
  {
    forall k | 0 <= k < |r| ensures Str(r[k]) in titles {
      var i :| 0 <= i < |names| && names[i] == r[k];
      assert titles[i] == Str(r[k]);
    }
  }

  // ---------------------------------------------------------------------------
  // /add_question and /delete_question

  datatype AddReply = AddRefused | BadAnswer | QuestionAdded(id: string) | AddFailed(failure: Failure)

  /** The answers /add_question accepts, after upper-casing. */
  predicate IsVF(answer: string)
  {
    Upper(answer) == "V" || Upper(answer) == "F"
  }

  /** `add_question`: refuse non-professors, then reject answers other than
      V/F in any case, then add the question with the upper-cased answer. */
  function AddQuestion(isProfessor: bool, s: Server, topic: string, question: string, answer: string,
                       freshId: string): (r: (Server, AddReply))
    ensures !isProfessor ==> r == (s, AddRefused)
    ensures r.1 == BadAnswer <==> isProfessor && !IsVF(answer)
    ensures r.1.AddRefused? || r.1 == BadAnswer || r.1.AddFailed? ==> r.0 == s
    ensures r.1.AddFailed? ==> r.1.failure == ValueError && FindTopic(s.topics, topic).None?
    ensures r.1.QuestionAdded? ==>
      && isProfessor && IsVF(answer)
      && AdicionarPergunta(s, topic, question, Upper(answer), freshId) == Ok(Added(r.0, r.1.id))
  {
    if !isProfessor then (s, AddRefused)
    else if !IsVF(answer) then (s, BadAnswer)
    else
      match AdicionarPergunta(s, topic, question, Upper(answer), freshId)
      case Err(f) => (s, AddFailed(f))
      case Ok(added) => (added.server, QuestionAdded(added.id))
  }

  /** Whatever case the professor typed, the stored and listed answer is
      exactly "V" or "F". */
  lemma AddedAnswerIsUpperVF(s: Server, topic: string, question: string, answer: string, freshId: string)
    requires AddQuestion(true, s, topic, question, answer, freshId).1.QuestionAdded?
    ensures var after := AddQuestion(true, s, topic, question, answer, freshId).0;
      exists v :: (v == "V" || v == "F") &&
        map["pregunta" := Str(question), "respuesta" := Str(v), "id" := Str(freshId)] in ListarPerguntasPorTopico(after, topic)
  {
    AddedQuestionIsListed(s, topic, question, Upper(answer), freshId);
  }

  datatype DeleteReply = DeleteRefused | QuestionDeleted | DeleteFailed(failure: Failure)

  /** `delete_question` */
  function DeleteQuestion(isProfessor: bool, s: Server, topic: string, id: string): (r: (Server, DeleteReply))
    ensures !isProfessor ==> r == (s, DeleteRefused)
    ensures isProfessor ==> (r.1.DeleteFailed? <==> FindTopic(s.topics, topic).None?)
    ensures r.1.DeleteFailed? ==> r.0 == s && r.1.failure == ValueError
    ensures r.1 == QuestionDeleted ==> DeletarPergunta(s, topic, id) == Ok(r.0)
  {
    if !isProfessor then (s, DeleteRefused)
    else
      match DeletarPergunta(s, topic, id)
      case Err(f) => (s, DeleteFailed(f))
      case Ok(after) => (after, QuestionDeleted)
  }

  // ---------------------------------------------------------------------------
  // /list_questions: the listing split into messages

  /** "{i}. {pregunta} (Answer: {respuesta})\n" */
  function ListingLine(i: nat, pregunta: string, respuesta: string): (line: string)
    ensures |line| > 0 && line[|line| - 1] == '\n'
  {
    NatToString(i) + ". " + pregunta + " (Answer: " + respuesta + ")\n"
  }

  /** The lines of a listing, numbered from `start`, or the KeyError of the
      first question missing "pregunta" or "respuesta". */
  function ListingLines(qs: seq<Doc>, start: nat, show: Value -> string): (r: Result<seq<string>>)
    ensures r.Ok? <==> forall i :: 0 <= i < |qs| ==> "pregunta" in qs[i] && "respuesta" in qs[i]
    ensures r.Err? ==> r.failure == KeyError
    ensures r.Ok? ==> |r.value| == |qs|
    ensures r.Ok? ==> forall i :: 0 <= i < |qs| ==>
      r.value[i] == ListingLine(start + i, show(qs[i]["pregunta"]), show(qs[i]["respuesta"]))
  {
    if exists i :: 0 <= i < |qs| && ("pregunta" !in qs[i] || "respuesta" !in qs[i]) then Err(KeyError)
    else Ok(seq(|qs|, i requires 0 <= i < |qs| => ListingLine(start + i, show(qs[i]["pregunta"]), show(qs[i]["respuesta"]))))
  }

  /** The loop of `list_questions` over every line: start a block with the
      header and, before adding a line that would take the block past 2000
      characters, close it and start a new one. */
  method FillBlocks(header: string, lines: seq<string>) returns (blocks: seq<string>, current: string, ghost cuts: seq<nat>)
    ensures blocks == Filled(header, lines, |lines|).blocks
    ensures current == Filled(header, lines, |lines|).current
    ensures cuts == Filled(header, lines, |lines|).cuts
  {
    blocks, current, cuts := [], header, [0];
    var i := 0;
    while i < |lines|
      invariant i <= |lines| && Fill(blocks, current, cuts) == Filled(header, lines, i)
    {
      var step := AddLine(blocks, current, lines[i]);
      cuts := if |current| + |lines[i]| > MessageLimit then cuts + [i + 1] else cuts;
      blocks, current, i := step.0, step.1, i + 1;
    }
  }

  /** The whole of `list_questions`' splitting: the loop, then a non-empty
      last block is closed too. */
  method SplitIntoBlocks(header: string, lines: seq<string>) returns (blocks: seq<string>, ghost cuts: seq<nat>)
    ensures SplitAt([header] + lines, cuts, blocks)
    ensures Concat(blocks) == header + Concat(lines)
    ensures |header| > 0 ==> |blocks| > 0
    ensures |header| > 0 && AllNonEmpty(lines) ==> AllNonEmpty(blocks)
    ensures |header| <= MessageLimit && AllFit(lines) ==> AllFit(blocks)
    ensures forall k :: 0 <= k < |blocks| - 1 ==> |blocks[k]| + |blocks[k + 1]| > MessageLimit
  {
    var current;
    blocks, current, cuts := FillBlocks(header, lines);
    LoopEndCuts(header, lines);
    LoopEndChunks(header, lines);
    cuts := cuts + [|lines| + 1];
    if |current| > 0 {
      blocks := blocks + [current];
    }
  }

  datatype ListReply = ListRefused | NoQuestions | Blocks(blocks: seq<string>) | ListFailed(failure: Failure)

  function ListingHeader(topic: string): string
  {
    "\U{1F4DA} Questions for `" + topic + "`:\n"
  }

  /** `list_questions`: refuse non-professors, report an empty listing, and
      otherwise send the listing in blocks; the first block goes out as the
      reply and the rest as follow-ups. A question without "respuesta"
      raises KeyError out of the handler. */
  method ListQuestions(isProfessor: bool, s: Server, topic: string, show: Value -> string) returns (r: ListReply)
    ensures !isProfessor ==> r == ListRefused
    ensures isProfessor && ListarPerguntasPorTopico(s, topic) == [] ==> r == NoQuestions
    ensures r.ListFailed? ==> r.failure == KeyError
    ensures isProfessor && ListarPerguntasPorTopico(s, topic) != [] ==>
      match ListingLines(ListarPerguntasPorTopico(s, topic), 1, show)
      case Err(_) => r == ListFailed(KeyError)
      case Ok(lines) =>
        && r.Blocks?
        && |r.blocks| > 0
        && Concat(r.blocks) == ListingHeader(topic) + Concat(lines)
        && (forall k :: 0 <= k < |r.blocks| ==> |r.blocks[k]| > 0)
        && (exists cuts :: SplitAt([ListingHeader(topic)] + lines, cuts, r.blocks))
        && (forall k :: 0 <= k < |r.blocks| - 1 ==> |r.blocks[k]| + |r.blocks[k + 1]| > MessageLimit)
        && ((forall i :: 0 <= i < |lines| ==> |lines[i]| <= MessageLimit) && |ListingHeader(topic)| <= MessageLimit ==>
              forall k :: 0 <= k < |r.blocks| ==> |r.blocks[k]| <= MessageLimit)
  {
    if !isProfessor {
      return ListRefused;
    }
    var perguntas := ListarPerguntasPorTopico(s, topic);
    if perguntas == [] {
      return NoQuestions;
    }
    match ListingLines(perguntas, 1, show)
    case Err(f) => r := ListFailed(f);
    case Ok(lines) =>
      var blocks;
      ghost var cuts;
      assert AllNonEmpty(lines);
      blocks, cuts := SplitIntoBlocks(ListingHeader(topic), lines);
      r := Blocks(blocks);
  }

  // ---------------------------------------------------------------------------
  // /generate_questions (commands/questions_commands.py)

  /** The arguments handed to the generation pipeline. */
  datatype GenerateRequest = GenerateRequest(topicName: Value, topicId: Value, guildId: string,
                                             storageUrl: Value, qty: int, kind: QuestionKind)

  datatype GenerateReply = GenerateRefused | GenerateFailed(failure: Failure) | GenerateRequested(request: GenerateRequest)

  /** The question types the command accepts, by their display name. */
  function TypeByName(name: string): (k: Option<QuestionKind>)
    ensures k == Some(MultipleChoiceKind) <==> name == "Multiple Choice"
    ensures k == Some(TrueFalseKind) <==> name == "True or False"
    ensures k.Some? ==> k.value == MultipleChoiceKind || k.value == TrueFalseKind
  {
    if name == "Multiple Choice" then Some(MultipleChoiceKind)
    else if name == "True or False" then Some(TrueFalseKind)
    else None
  }

  /** `generate_questions`: `topic` is what the title lookup returned (None
      when no topic has that title). Subscripting None raises TypeError, a
      missing field KeyError, an unknown type name ValueError. The count
      always sent is 50, whatever `qty` was given. */
  function GenerateQuestions(isProfessor: bool, guildId: string, topic: Option<Doc>, qty: int, typeName: string): (r: GenerateReply)
    ensures !isProfessor ==> r == GenerateRefused
    ensures isProfessor && topic.None? ==> r == GenerateFailed(TypeError)
    ensures r.GenerateRequested? ==>
      && topic.Some?
      && topic.value.Keys >= {"title", "topic_id", "document_storage_url"}
      && TypeByName(typeName).Some?
      && r.request == GenerateRequest(topic.value["title"], topic.value["topic_id"], guildId,
                                      topic.value["document_storage_url"], 50, TypeByName(typeName).value)
    ensures isProfessor && topic.Some? && topic.value.Keys >= {"title", "topic_id", "document_storage_url"} ==>
      (r.GenerateRequested? <==> TypeByName(typeName).Some?)
    ensures r.GenerateFailed? && topic.Some? && topic.value.Keys >= {"title", "topic_id", "document_storage_url"} ==>
      r.failure == ValueError
  {
    if !isProfessor then GenerateRefused
    else match topic
      case None => GenerateFailed(TypeError)
      case Some(t) =>
        if "title" !in t || "topic_id" !in t || "document_storage_url" !in t then GenerateFailed(KeyError)
        else match TypeByName(typeName)
          case None => GenerateFailed(ValueError)
          case Some(kind) => GenerateRequested(GenerateRequest(t["title"], t["topic_id"], guildId, t["document_storage_url"], 50, kind))
  }

  /** The requested quantity never reaches the pipeline. */
  lemma GenerateIgnoresQty(isProfessor: bool, guildId: string, topic: Option<Doc>, a: int, b: int, typeName: string)
    ensures GenerateQuestions(isProfessor, guildId, topic, a, typeName) == GenerateQuestions(isProfessor, guildId, topic, b, typeName)
    ensures GenerateQuestions(isProfessor, guildId, topic, a, typeName).GenerateRequested? ==>
              GenerateQuestions(isProfessor, guildId, topic, a, typeName).request.qty == 50
  {
  }

  /** Short-answer questions cannot be requested from this command. */
  lemma GenerateNeverShortAnswer(isProfessor: bool, guildId: string, topic: Option<Doc>, qty: int, typeName: string)
    ensures GenerateQuestions(isProfessor, guildId, topic, qty, typeName).GenerateRequested? ==>
              GenerateQuestions(isProfessor, guildId, topic, qty, typeName).request.kind != ShortAnswerKind
  {
  }
}
