/** The prompts sent to the language model: the four English templates of
    utils/prompts.py, the template choice of `generate_prompt_questions`
    (utils/llm_utils.py) and the single Spanish prompt of the older
    llm_utils.py. Every prompt carries only the first 4000 characters of the
    document text. */
module Prompts {
  import opened Common

  const ContentLimit: nat := 4000

  /** `text[:4000]` */
  function Cut(text: string): (r: string)
    ensures |r| == (if |text| < ContentLimit then |text| else ContentLimit)
    ensures r <= text
  {
    SliceTo(text, ContentLimit)
  }

  datatype Template = MultipleChoiceTemplate | TrueFalseTemplate | ShortAnswerTemplate | DefaultTemplate

  /** The question types the generator is asked for; `Other` is any value the
      template table has no entry for. */
  datatype QuestionKind = MultipleChoiceKind | TrueFalseKind | ShortAnswerKind | OtherKind

  // The fixed pieces of the templates, in the order they appear.
  const Intro: string := "\nYou are a question generator. Generate **"
  const FreeIntro: string := "\nYou are a question generator. Based on the content below, generate **"
  const McInstructions: string := "** multiple-choice questions based on the content below, and **do not generate any extra questions**.\n\nEach question must have four options (A, B, C, D), and only one correct answer. The correct answer should be indicated by the letter.\n\nOutput format in JSON:\n[\n{\n    \"question\": \"Question text...\",\n    "
  const McSchema: string := "\"options\": {\n        \"A\": \"Option A\",\n        \"B\": \"Option B\",\n        \"C\": \"Option C\",\n        \"D\": \"Option D\"\n    },\n    \"answer\": \"B\""
  const TfInstructions: string := "** true/false questions based on the content below, and **do not generate any extra questions**.\n\nOutput format in JSON:\n[\n{\n    \"question\": \"Question text...\",\n    "
  const TfSchema: string := "\"answer\": \"True\"  # or \"False\""
  const SchemaClose: string := "\n},\n...\n]  # Exactly "
  const ObjectsLine: string := " objects like this\n"
  const FreeMiddle: string := " questions**, and do not generate any extras. Only "
  const FreeSchema: string := ".\nReturn in JSON format like this:\n[\n{\n    \"question\": \"...\",\n    \"answer\": \"...\"\n},\n...\n]\n"

  /** The pieces of each template in order; a count is rendered as `str(qty)`
      and the text is cut to its first 4000 characters. */
  function Parts(t: Template, topic: string, text: string, qty: int): (p: seq<string>)
    ensures |p| == 14
    ensures p[1] == "exactly " && p[2] == IntToString(qty)
    ensures p[8..] == ["\nTopic: ", topic, "\n", "\nContent:\n", Cut(text), "\n"]
  {
    var q := IntToString(qty);
    var topicAndContent := ["\nTopic: ", topic, "\n", "\nContent:\n", Cut(text), "\n"];
    match t
    case MultipleChoiceTemplate => [Intro, "exactly ", q, McInstructions, McSchema, SchemaClose, q, ObjectsLine] + topicAndContent
    case TrueFalseTemplate => [Intro, "exactly ", q, TfInstructions, TfSchema, SchemaClose, q, ObjectsLine] + topicAndContent
    case ShortAnswerTemplate => [FreeIntro, "exactly ", q, " ", "short-answer", FreeMiddle, q, FreeSchema] + topicAndContent
    case DefaultTemplate => [FreeIntro, "exactly ", q, " ", "varied", FreeMiddle, q, FreeSchema] + topicAndContent
  }

  /** `prompt_multiple_choice`, `prompt_true_false`, `prompt_short_answer`,
      `prompt_default` */
  function Render(t: Template, topic: string, text: string, qty: int): string
  {
    Concat(Parts(t, topic, text, qty))
  }

  /** Every template asks for "exactly {qty}" questions, names the topic on a
      line of its own, and ends with the first 4000 characters of the text
      under "Content:". */
  lemma TemplateShape(t: Template, topic: string, text: string, qty: int)
    ensures var r := Render(t, topic, text, qty);
      && IsSubstring("exactly " + IntToString(qty), r)
      && IsSubstring("\nTopic: " + topic + "\n", r)
      && EndsWith(r, "\nContent:\n" + Cut(text) + "\n")
  {
    var p := Parts(t, topic, text, qty);
    ConcatRangeIsSubstring(p, 1, 3);
    assert p[1..3] == ["exactly ", IntToString(qty)];
    ConcatRangeIsSubstring(p, 8, 11);
    assert p[8..11] == ["\nTopic: ", topic, "\n"];
    ConcatEndsWith(p, 11);
    assert p[11..] == ["\nContent:\n", Cut(text), "\n"];
    ConcatThree("exactly ", IntToString(qty), "");
    ConcatThree("\nTopic: ", topic, "\n");
    ConcatThree("\nContent:\n", Cut(text), "\n");
  }

  /** The multiple-choice template asks for the options A to D under
      "options" and a single-letter "answer"; the true/false template asks for
      an "answer" of "True" or "False". */
  lemma TemplateSchemas(topic: string, text: string, qty: int)
    ensures IsSubstring("\"options\": {\n        \"A\": \"Option A\",\n        \"B\": \"Option B\",\n        \"C\": \"Option C\",\n        \"D\": \"Option D\"\n    },\n    \"answer\": \"B\"",
                        Render(MultipleChoiceTemplate, topic, text, qty))
    ensures IsSubstring("\"answer\": \"True\"  # or \"False\"", Render(TrueFalseTemplate, topic, text, qty))
  {
    var mc := Parts(MultipleChoiceTemplate, topic, text, qty);
    ConcatRangeIsSubstring(mc, 4, 5);
    assert mc[4..5] == [McSchema];
    var tf := Parts(TrueFalseTemplate, topic, text, qty);
    ConcatRangeIsSubstring(tf, 4, 5);
    assert tf[4..5] == [TfSchema];
  }

  /** The short-answer and default templates are the same text except for
      the word naming the kind of question. */
  lemma ShortAndDefaultDifferInOneWord(topic: string, text: string, qty: int)
    ensures exists pre: string, post: string ::
      && Render(ShortAnswerTemplate, topic, text, qty) == pre + "short-answer" + post
      && Render(DefaultTemplate, topic, text, qty) == pre + "varied" + post
  {
    var s := Parts(ShortAnswerTemplate, topic, text, qty);
    var d := Parts(DefaultTemplate, topic, text, qty);
    ConcatAround(s, 4);
    ConcatAround(d, 4);
    assert s[..4] == d[..4];
    assert s[5..] == d[5..];
    assert s[4] == "short-answer" && d[4] == "varied";
    var pre, post := Concat(s[..4]), Concat(s[5..]);
    assert Render(ShortAnswerTemplate, topic, text, qty) == pre + "short-answer" + post;
  }

  /** `generate_prompt_questions`: the table has entries for multiple choice
      and true/false only; every other type gets the default template. */
  function SelectTemplate(kind: QuestionKind): (t: Template)
    ensures t != ShortAnswerTemplate
    ensures kind == MultipleChoiceKind <==> t == MultipleChoiceTemplate
    ensures kind == TrueFalseKind <==> t == TrueFalseTemplate
  {
    match kind
    case MultipleChoiceKind => MultipleChoiceTemplate
    case TrueFalseKind => TrueFalseTemplate
    case _ => DefaultTemplate
  }

  function GeneratePromptQuestions(text: string, topic: string, qty: int, kind: QuestionKind): string
  {
    Render(SelectTemplate(kind), topic, text, qty)
  }

  /** Asking for short-answer questions sends the default ("varied")
      prompt, never the short-answer one, and the two prompts differ. */
  lemma ShortAnswerNeverSelected(text: string, topic: string, qty: int)
    ensures GeneratePromptQuestions(text, topic, qty, ShortAnswerKind) == Render(DefaultTemplate, topic, text, qty)
    ensures GeneratePromptQuestions(text, topic, qty, ShortAnswerKind) != Render(ShortAnswerTemplate, topic, text, qty)
  {
    ShortAndDefaultDifferInOneWord(topic, text, qty);
    var pre: string, post: string :|
      && Render(ShortAnswerTemplate, topic, text, qty) == pre + "short-answer" + post
      && Render(DefaultTemplate, topic, text, qty) == pre + "varied" + post;
    assert Render(ShortAnswerTemplate, topic, text, qty)[|pre|] == 's';
    assert Render(DefaultTemplate, topic, text, qty)[|pre|] == 'v';
  }

  // ---------------------------------------------------------------------------
  // The older prompt

  const OldIntro: string := "\nEres un generador de preguntas. Bas\U{E1}ndote en el siguiente contenido, "
  const OldRequest: string := "genera 50 preguntas de verdadero o falso"
  const OldFormat: string := ".\nDevu\U{E9}lvelas en formato JSON como este:\n[\n  "
  const OldSchema: string := "{ \"pregunta\": \"...\", \"respuesta\": \"V\" }"
  const OldClose: string := ",\n  ...\n]\n"

  /** The text that follows the content: a code comment written inside the
      template, so it is sent to the model. */
  const OldTrailer: string := "  # limitamos para tokens, ajustable\n"

  function OldParts(texto: string, topico: string): (p: seq<string>)
    ensures |p| == 11
  {
    [OldIntro, OldRequest, OldFormat, OldSchema, OldClose, "\nTema: ", topico, "\n", "\nContenido:\n", Cut(texto), OldTrailer]
  }

  /** `generar_prompt` */
  function GenerarPrompt(texto: string, topico: string): string
  {
    Concat(OldParts(texto, topico))
  }

  /** The older prompt always asks for 50 true/false questions with a
      `pregunta`/`respuesta` schema whatever the topic or text, and the cut
      content is followed on the same line by the stray comment, which sits
      inside the f-string. */
  lemma OldPromptShape(texto: string, topico: string)
    ensures var r := GenerarPrompt(texto, topico);
      && IsSubstring("genera 50 preguntas de verdadero o falso", r)
      && IsSubstring("{ \"pregunta\": \"...\", \"respuesta\": \"V\" }", r)
      && IsSubstring("\nTema: " + topico + "\n", r)
      && EndsWith(r, "\nContenido:\n" + Cut(texto) + "  # limitamos para tokens, ajustable\n")
  {
    var p := OldParts(texto, topico);
    ConcatRangeIsSubstring(p, 1, 2);
    assert p[1..2] == [OldRequest];
    ConcatRangeIsSubstring(p, 3, 4);
    assert p[3..4] == [OldSchema];
    ConcatRangeIsSubstring(p, 5, 8);
    assert p[5..8] == ["\nTema: ", topico, "\n"];
    ConcatEndsWith(p, 8);
    assert p[8..] == ["\nContenido:\n", Cut(texto), OldTrailer];
    ConcatThree("\nTema: ", topico, "\n");
    ConcatThree("\nContenido:\n", Cut(texto), OldTrailer);
  }
}
