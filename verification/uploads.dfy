/** Receiving PDF files: the `!upload` handler of utils/uploader.py and the
    `save_pdf`, `/topics` and `/upload_topic` parts of
    commands/topics_commands.py. The local disk is the set of paths that
    hold a file; the storage upload, the permission helpers and the topic
    listing of the repository are parameters, because their code is not
    part of this model. */
module Uploads {
  import opened Common
  import opened Prompts
  import opened Generation

  // ---------------------------------------------------------------------------
  // utils/uploader.py: handle_upload

  datatype UploadOutcome =
    | NoAttachment
    | NotPdf
      /** The file was saved at `path`; the generation call that follows
          raised `failure`, so the last message is the error message. */
    | SavedButFailed(path: string, failure: Failure)

  /** `handle_upload`: the first attachment, if any, must be named "*.pdf"
      (letter case matters). It is saved as docs/<topic>.pdf, and then
      `generate_questions_from_pdf(topic_name)` is called with one argument
      where six are required, which raises TypeError before anything runs. */
  function HandleUpload(topic: string, attachments: seq<string>, disk: set<string>): (r: (UploadOutcome, set<string>))
    ensures attachments == [] ==> r == (NoAttachment, disk)
    ensures attachments != [] && !EndsWith(attachments[0], ".pdf") ==> r == (NotPdf, disk)
    ensures attachments != [] && EndsWith(attachments[0], ".pdf") ==>
      r == (SavedButFailed(PdfPath(topic), TypeError), disk + {PdfPath(topic)})
  {
    if attachments == [] then (NoAttachment, disk)
    else if !EndsWith(attachments[0], ".pdf") then (NotPdf, disk)
    else (SavedButFailed(PdfPath(topic), TypeError), disk + {PdfPath(topic)})
  }

  /** The handler writes to disk exactly when it is given a PDF, only ever
      the one path, and never reports generated questions. */
  lemma HandleUploadNeverGenerates(topic: string, attachments: seq<string>, disk: set<string>)
    ensures var (outcome, after) := HandleUpload(topic, attachments, disk);
      && (after != disk ==> after - disk == {PdfPath(topic)})
      && (outcome.SavedButFailed? <==> attachments != [] && EndsWith(attachments[0], ".pdf"))
      && (outcome.SavedButFailed? ==> PdfPath(topic) in after && outcome.failure == TypeError)
      && (!outcome.SavedButFailed? ==> after == disk)
  {
  }

  // ---------------------------------------------------------------------------
  // commands/topics_commands.py: save_pdf

  datatype SaveNote = NoNote | OnlyPdf | NoUrl

  /** What `save_pdf` leaves behind: the value it returns (`Null` for
      Python's None), the local disk, and the message it sent if any. */
  datatype SaveOutcome = SaveOutcome(url: Value, disk: set<string>, note: SaveNote)

  /** `save_pdf`. `verified` is false when `professor_verification` raises;
      `upload` is `save_topic_pdf`, `None` when it raises. Every exception is
      caught and logged, and the function then returns None. After a
      successful upload the local copy is removed; a falsy url is reported
      but still returned. */
  function SavePdf(verified: bool, filename: string, topic: string, disk: set<string>,
                   upload: string -> Option<Value>): (r: SaveOutcome)
    ensures !verified ==> r == SaveOutcome(Null, disk, NoNote)
    ensures verified && !EndsWith(filename, ".pdf") ==> r == SaveOutcome(Null, disk, OnlyPdf)
    ensures verified && EndsWith(filename, ".pdf") && upload(PdfPath(topic)).None? ==>
      r == SaveOutcome(Null, disk + {PdfPath(topic)}, NoNote)
    ensures verified && EndsWith(filename, ".pdf") && upload(PdfPath(topic)).Some? ==>
      && r.url == upload(PdfPath(topic)).value
      && r.disk == disk - {PdfPath(topic)}
      && (r.note == NoUrl <==> !Truthy(r.url))
  {
    if !verified then SaveOutcome(Null, disk, NoNote)
    else if !EndsWith(filename, ".pdf") then SaveOutcome(Null, disk, OnlyPdf)
    else
      var path := PdfPath(topic);
      var saved := disk + {path};
      match upload(path)
      case None => SaveOutcome(Null, saved, NoNote)
      case Some(url) => SaveOutcome(url, saved - {path}, if Truthy(url) then NoNote else NoUrl)
  }

  /** A returned url is exactly what the storage upload gave for
      docs/<topic>.pdf, and only a ".pdf" name from a verified professor
      gets that far; any other file is neither uploaded nor kept. */
  lemma SavePdfUrlComesFromUpload(verified: bool, filename: string, topic: string, disk: set<string>,
                                  upload: string -> Option<Value>)
    ensures var r := SavePdf(verified, filename, topic, disk, upload);
      && (r.url != Null ==> verified && EndsWith(filename, ".pdf") && upload(PdfPath(topic)) == Some(r.url))
      && (!EndsWith(filename, ".pdf") ==> r.disk == disk)
      && r.disk - disk <= {PdfPath(topic)}
      && EndsWith(PdfPath(topic), ".pdf")
  {
  }

  // ---------------------------------------------------------------------------
  // commands/topics_commands.py: /topics

  const TopicsHeader: string := "\U{1F4DA} Available topics:\n"

  datatype TopicsReply = TopicsRefused | TopicsFailed | TopicList(text: string)

  /** "- {title}", with "Untitled" for a topic without a title. */
  function TopicLine(d: Doc, show: Value -> string): string
  {
    "- " + show(Get(d, "title", Str("Untitled")))
  }

  /** The lines of every topic, in order. */
  function TopicLines(topics: seq<Doc>, show: Value -> string): (r: seq<string>)
    ensures |r| == |topics|
    ensures forall i :: 0 <= i < |topics| ==> r[i] == TopicLine(topics[i], show)
  {
    seq(|topics|, i requires 0 <= i < |topics| => TopicLine(topics[i], show))
  }

  /** `/topics`: non-professors are refused before anything is read;
      `verified` is false when the later `professor_verification` raises,
      which is caught and answered with the error message. */
  function ListTopics(isProfessor: bool, verified: bool, topics: seq<Doc>, show: Value -> string): (r: TopicsReply)
    ensures !isProfessor ==> r == TopicsRefused
    ensures isProfessor && !verified ==> r == TopicsFailed
    ensures isProfessor && verified ==> r == TopicList(TopicsHeader + Join("\n", TopicLines(topics, show)))
    ensures isProfessor && verified ==> r.TopicList? && TopicsHeader <= r.text
    ensures isProfessor && verified && topics == [] ==> r == TopicList(TopicsHeader)
  {
    if !isProfessor then TopicsRefused
    else if !verified then TopicsFailed
    else TopicList(TopicsHeader + Join("\n", TopicLines(topics, show)))
  }

  lemma {:induction false} SubstringAfter(a: string, sub: string, t: string)
    requires IsSubstring(sub, t)
    ensures IsSubstring(sub, a + t)
    decreases |a|
  {
    if |a| > 0 {
      assert (a + t)[1..] == a[1..] + t;
      SubstringAfter(a[1..], sub, t);
    } else {
      assert a + t == t;
    }
  }

  /** Every part occurs in the joined text. */
  lemma {:induction false} JoinHasPart(sep: string, parts: seq<string>, i: nat)
    requires i < |parts|
    ensures IsSubstring(parts[i], Join(sep, parts))
    decreases |parts|
  {
    if |parts| == 1 {
      assert parts[0] <= parts[0];
    } else if i == 0 {
      SubstringOfConcat("", parts[0], sep + Join(sep, parts[1..]));
      assert "" + (parts[0] + (sep + Join(sep, parts[1..]))) == Join(sep, parts);
    } else {
      JoinHasPart(sep, parts[1..], i - 1);
      SubstringAfter(parts[0] + sep, parts[i], Join(sep, parts[1..]));
    }
  }

  /** Every topic has its line in the listing, "Untitled" standing in for a
      missing title. */
  lemma EveryTopicListed(topics: seq<Doc>, show: Value -> string, i: nat)
    requires i < |topics|
    ensures IsSubstring("- " + show(Get(topics[i], "title", Str("Untitled"))), ListTopics(true, true, topics, show).text)
  {
    JoinHasPart("\n", TopicLines(topics, show), i);
    SubstringAfter(TopicsHeader, TopicLine(topics[i], show), Join("\n", TopicLines(topics, show)));
  }

  // ---------------------------------------------------------------------------
  // commands/topics_commands.py: /upload_topic

  /** The arguments `/upload_topic` hands to the generation pipeline. */
  datatype PipelineCall = PipelineCall(topicName: string, topicId: Value, guildId: string, pdfUrl: Value,
                                       qty: int, kind: QuestionKind)

  datatype UploadTopicReply =
    | UploadTopicFailed(failure: Failure)
    | QuestionsGenerated(call: PipelineCall, generated: Generated)

  /** `/upload_topic`: the professor check (raising when `verified` is
      false), `save_pdf`, then the pipeline with no topic id, 50 questions
      and the true/false type. A url that is not a string cannot be fetched,
      and a failed download raises; both end in the error message. */
  function UploadTopic(verified: bool, filename: string, topic: string, guildId: string, disk: set<string>,
                       upload: string -> Option<Value>, extract: string -> Option<string>,
                       ask: string -> Option<Value>, parse: string -> Parsed,
                       create: CreateCall -> Result<()>, file: Option<Parsed>): (r: UploadTopicReply)
    ensures !verified ==> r == UploadTopicFailed(PermissionDenied)
    ensures r.QuestionsGenerated? ==>
      var url := SavePdf(verified, filename, topic, disk, upload).url;
      && verified && url.Str?
      && r.call == PipelineCall(topic, Null, guildId, url, 50, TrueFalseKind)
      && Ok(r.generated) == GenerateQuestionsFromPdf(topic, Null, guildId, url.s, 50, TrueFalseKind, extract, ask, parse, create, file)
    ensures r.QuestionsGenerated? ==> r.generated.saved.outcome.Ok?
    ensures verified && SavePdf(verified, filename, topic, disk, upload).url.Str? ==>
      var url := SavePdf(verified, filename, topic, disk, upload).url;
      && (extract(url.s).None? ==> r == UploadTopicFailed(RequestError))
      && (r.QuestionsGenerated? <==>
            extract(url.s).Some? &&
            GenerateQuestionsFromPdf(topic, Null, guildId, url.s, 50, TrueFalseKind, extract, ask, parse, create, file)
              .value.saved.outcome.Ok?)
      && (r.UploadTopicFailed? && extract(url.s).Some? ==>
            GenerateQuestionsFromPdf(topic, Null, guildId, url.s, 50, TrueFalseKind, extract, ask, parse, create, file)
              .value.saved.outcome == Err(r.failure))
  {
    if !verified then UploadTopicFailed(PermissionDenied)
    else
      var url := SavePdf(verified, filename, topic, disk, upload).url;
      if !url.Str? then UploadTopicFailed(RequestError)
      else
        match GenerateQuestionsFromPdf(topic, Null, guildId, url.s, 50, TrueFalseKind, extract, ask, parse, create, file)
        case Err(e) => UploadTopicFailed(e)
        case Ok(g) =>
          if g.saved.outcome.Err? then UploadTopicFailed(g.saved.outcome.failure)
          else QuestionsGenerated(PipelineCall(topic, Null, guildId, url, 50, TrueFalseKind), g)
  }

  /** The true/false prompt for 50 questions. */
  lemma FiftyTrueFalsePrompt(topic: string, text: string)
    ensures var p := Render(TrueFalseTemplate, topic, text, 50);
      && IsSubstring("exactly 50", p)
      && IsSubstring("\"answer\": \"True\"  # or \"False\"", p)
      && EndsWith(p, "\nContent:\n" + Cut(text) + "\n")
  {
    TemplateShape(TrueFalseTemplate, topic, text, 50);
    TemplateSchemas(topic, text, 50);
    assert IntToString(50) == "50";
    assert "exactly " + IntToString(50) == "exactly 50";
  }

  /** Whatever was uploaded, the model is asked for exactly 50 true/false
      questions on the first 4000 characters of the document. */
  lemma UploadTopicAsksForFiftyTrueFalse(verified: bool, filename: string, topic: string, guildId: string,
                                        disk: set<string>, upload: string -> Option<Value>,
                                        extract: string -> Option<string>, ask: string -> Option<Value>,
                                        parse: string -> Parsed, create: CreateCall -> Result<()>,
                                        file: Option<Parsed>)
    requires UploadTopic(verified, filename, topic, guildId, disk, upload, extract, ask, parse, create, file).QuestionsGenerated?
    ensures var r := UploadTopic(verified, filename, topic, guildId, disk, upload, extract, ask, parse, create, file);
            var text := extract(r.call.pdfUrl.s).value;
      && r.generated.prompt == Render(TrueFalseTemplate, topic, text, 50)
      && IsSubstring("exactly 50", r.generated.prompt)
      && IsSubstring("\"answer\": \"True\"  # or \"False\"", r.generated.prompt)
      && EndsWith(r.generated.prompt, "\nContent:\n" + Cut(text) + "\n")
  {
    var r := UploadTopic(verified, filename, topic, guildId, disk, upload, extract, ask, parse, create, file);
    var text := extract(r.call.pdfUrl.s).value;
    assert r.generated.prompt == GeneratePromptQuestions(text, topic, 50, TrueFalseKind);
    FiftyTrueFalsePrompt(topic, text);
  }
}
