/** Quiz grading in its three revisions: the slash command of
    commands/quiz_commands.py, the older slash command of bot.py, and the
    prefix command of utils/uploader.py that reads the local questions file.
    Each samples some stored questions, waits for the first reply of the right
    length from the same user in the same channel, and counts the positions
    where the reply's character equals the question's expected answer. */
module Grading {
  import opened Common

  // ---------------------------------------------------------------------------
  // Sampling and waiting for the reply

  /** `random.sample(xs, k)` is abstracted as the positions it picks: `k`
      distinct indexes into a sequence of `n` elements. */
  predicate IsSample(n: nat, k: nat, picks: seq<nat>)
  {
    && |picks| == k
    && (forall i :: 0 <= i < k ==> picks[i] < n)
    && (forall i, j :: 0 <= i < j < k ==> picks[i] != picks[j])
  }

  function Min(a: nat, b: nat): nat
  {
    if a < b then a else b
  }

  function Pick<T>(xs: seq<T>, picks: seq<nat>): (r: seq<T>)
    requires forall i :: 0 <= i < |picks| ==> picks[i] < |xs|
    ensures |r| == |picks|
    ensures forall i :: 0 <= i < |picks| ==> r[i] == xs[picks[i]]
  {
    seq(|picks|, i requires 0 <= i < |picks| => xs[picks[i]])
  }

  /** A chat message as the reply check sees it. */
  datatype Message = Message(author: string, channel: string, content: string)

  /** The reply check: same author, same channel, and a content (stripped
      first in the slash commands, raw in the prefix command) of exactly one
      character per question. */
  predicate Accepts(m: Message, user: string, channel: string, k: nat, stripFirst: bool)
  {
    && m.author == user
    && m.channel == channel
    && |if stripFirst then Strip(m.content) else m.content| == k
  }

  /** `wait_for("message", check=...)` over the messages that arrive before
      the timeout: the first one the check accepts, if any. */
  function FirstReply(msgs: seq<Message>, user: string, channel: string, k: nat, stripFirst: bool): (r: Option<nat>)
    ensures r.Some? ==> r.value < |msgs| && Accepts(msgs[r.value], user, channel, k, stripFirst)
    ensures r.Some? ==> forall j :: 0 <= j < r.value ==> !Accepts(msgs[j], user, channel, k, stripFirst)
    ensures r.None? ==> forall j :: 0 <= j < |msgs| ==> !Accepts(msgs[j], user, channel, k, stripFirst)
    decreases |msgs|
  {
    if |msgs| == 0 then None
    else if Accepts(msgs[0], user, channel, k, stripFirst) then Some(0)
    else
      match FirstReply(msgs[1..], user, channel, k, stripFirst)
      case None => None
      case Some(j) => Some(j + 1)
  }

  // ---------------------------------------------------------------------------
  // Scoring

  /** One position is correct when the reply's character, as a one-character
      string, equals the expected answer. */
  predicate Hit(c: char, expected: string)
  {
    expected == [c]
  }

  /** The number of correct positions, counted from the back so that a
      left-to-right loop extends it one position at a time. */
  function Matches(answer: string, expected: seq<string>): (n: nat)
    requires |answer| == |expected|
    ensures n <= |answer|
    decreases |answer|
  {
    if |answer| == 0 then 0
    else
      var k := |answer| - 1;
      Matches(answer[..k], expected[..k]) + (if Hit(answer[k], expected[k]) then 1 else 0)
  }

  /** The grading loop: `correctas += 1` on every hit. */
  method CountCorrect(answer: string, expected: seq<string>) returns (correct: nat)
    requires |answer| == |expected|
    ensures correct == Matches(answer, expected)
    ensures correct <= |answer|
  {
    correct := 0;
    var i := 0;
    while i < |answer|
      invariant 0 <= i <= |answer|
      invariant correct == Matches(answer[..i], expected[..i])
    {
      assert answer[..i + 1][..i] == answer[..i];
      assert expected[..i + 1][..i] == expected[..i];
      if |expected[i]| == 1 && answer[i] == expected[i][0] {
        assert Hit(answer[i], expected[i]) by {
          assert expected[i] == [expected[i][0]];
        }
        correct := correct + 1;
      }
      i := i + 1;
    }
    assert answer[..i] == answer && expected[..i] == expected;
  }

  /** A perfect score means every position is a hit, and conversely. */
  lemma {:induction false} PerfectScoreIffAllHit(answer: string, expected: seq<string>)
    requires |answer| == |expected|
    ensures Matches(answer, expected) == |answer| <==>
            forall i :: 0 <= i < |answer| ==> Hit(answer[i], expected[i])
    decreases |answer|
  {
    if |answer| > 0 {
      var k := |answer| - 1;
      PerfectScoreIffAllHit(answer[..k], expected[..k]);
      assert forall i :: 0 <= i < k ==> answer[..k][i] == answer[i] && expected[..k][i] == expected[i];
    }
  }

  /** A score of zero means no position is a hit, and conversely. */
  lemma {:induction false} ZeroScoreIffNoHit(answer: string, expected: seq<string>)
    requires |answer| == |expected|
    ensures Matches(answer, expected) == 0 <==>
            forall i :: 0 <= i < |answer| ==> !Hit(answer[i], expected[i])
    decreases |answer|
  {
    if |answer| > 0 {
      var k := |answer| - 1;
      ZeroScoreIffNoHit(answer[..k], expected[..k]);
      assert forall i :: 0 <= i < k ==> answer[..k][i] == answer[i] && expected[..k][i] == expected[i];
    }
  }

  /** An expected answer that is not exactly one character long (an empty
      multiple-choice answer, a "TRUE" in the local file) is never matched. */
  lemma NotOneCharNeverHit(c: char, expected: string)
    requires |expected| != 1
    ensures !Hit(c, expected)
  {
  }

  // ---------------------------------------------------------------------------
  // Expected answers, one rule per revision

  const MultipleChoice: string := "Multiple Choice"

  /** `question_type`, default "True/False". */
  function QuestionTypeOf(d: Doc): (v: Value)
    ensures "question_type" !in d ==> v == Str("True/False")
  {
    Get(d, "question_type", Str("True/False"))
  }

  /** quiz_commands: a multiple-choice question expects its uppercased
      "correct_answer" (default empty); any other question expects "V" when its
      uppercased "resposta" (default "V") starts with V, and "F" otherwise.
      `.upper()` on a stored value that is not a string raises. */
  function ExpectedAnswer(d: Doc): (r: Result<string>)
    ensures QuestionTypeOf(d) == Str(MultipleChoice) ==>
      var stored := Get(d, "correct_answer", Str(""));
      && (r.Ok? <==> stored.Str?)
      && (r.Ok? ==> |r.value| == |stored.s| && forall i :: 0 <= i < |r.value| ==> r.value[i] == UpperChar(stored.s[i]))
    ensures QuestionTypeOf(d) != Str(MultipleChoice) ==>
      var stored := Get(d, "resposta", Str("V"));
      && (r.Ok? <==> stored.Str?)
      && (r.Ok? ==> (r.value == "V" || r.value == "F"))
      && (r.Ok? ==> (r.value == "V" <==> |stored.s| > 0 && (stored.s[0] == 'V' || stored.s[0] == 'v')))
    ensures r.Err? ==> r.failure == AttributeError
  {
    if QuestionTypeOf(d) == Str(MultipleChoice) then
      match Get(d, "correct_answer", Str(""))
      case Str(s) => Ok(Upper(s))
      case _ => Err(AttributeError)
    else
      match Get(d, "resposta", Str("V"))
      case Str(s) => Ok(if StartsWith(Upper(s), "V") then "V" else "F")
      case _ => Err(AttributeError)
  }

  /** A true/false question whose stored answer is spelled out in English is
      graded against "F" whatever it says: "TRUE" does not start with V. */
  lemma TrueGradesAsF()
    ensures ExpectedAnswer(map["resposta" := Str("True")]) == Ok("F")
    ensures ExpectedAnswer(map["resposta" := Str("False")]) == Ok("F")
    ensures ExpectedAnswer(map["resposta" := Str("verdadero")]) == Ok("V")
    ensures ExpectedAnswer(map[]) == Ok("V")
  {
    assert !StartsWith(Upper("True"), "V") by { assert Upper("True")[0] == 'T'; }
    assert !StartsWith(Upper("False"), "V") by { assert Upper("False")[0] == 'F'; }
    assert StartsWith(Upper("verdadero"), "V") by { assert Upper("verdadero")[..1] == "V"; }
    assert StartsWith(Upper("V"), "V") by { assert Upper("V") == "V"; }
  }

  /** A multiple-choice question stored without an answer expects "", which
      no reply character matches. */
  lemma MissingChoiceNeverHit(d: Doc, c: char)
    requires QuestionTypeOf(d) == Str(MultipleChoice) && "correct_answer" !in d
    ensures ExpectedAnswer(d) == Ok("")
    ensures !Hit(c, ExpectedAnswer(d).value)
  {
  }

  /** `d[key].upper()`: the stored answer under `key` ("respuesta" in bot.py,
      "answer" in utils/uploader.py), which must be present and a string. */
  function UpperAnswer(d: Doc, key: string): (r: Result<string>)
    ensures key !in d ==> r == Err(KeyError)
    ensures key in d && !d[key].Str? ==> r == Err(AttributeError)
    ensures key in d && d[key].Str? ==>
              r.Ok? && |r.value| == |d[key].s| &&
              forall i :: 0 <= i < |r.value| ==> r.value[i] == UpperChar(d[key].s[i])
  {
    if key !in d then Err(KeyError)
    else match d[key]
      case Str(s) => Ok(Upper(s))
      case _ => Err(AttributeError)
  }

  /** Deriving every expected answer in order: the first failure aborts. */
  function AllOk(rs: seq<Result<string>>): (r: Result<seq<string>>)
    ensures r.Ok? <==> forall i :: 0 <= i < |rs| ==> rs[i].Ok?
    ensures r.Ok? ==> |r.value| == |rs| && forall i :: 0 <= i < |rs| ==> r.value[i] == rs[i].value
    ensures r.Err? ==> exists i :: 0 <= i < |rs| && rs[i] == Err(r.failure)
    decreases |rs|
  {
    if |rs| == 0 then Ok([])
    else match rs[0]
      case Err(f) => Err(f)
      case Ok(v) =>
        match AllOk(rs[1..])
        case Err(f) =>
          var i :| 0 <= i < |rs[1..]| && rs[1..][i] == Err(f);
          assert rs[i + 1] == Err(f);
          Err(f)
        case Ok(vs) => Ok([v] + vs)
  }

  /** `ts` is what `set.add` makes of the question types of `qs`, added in
      order: one element per key class, namely the first type of that class
      met, and nothing else. */
  ghost predicate TypesOf(qs: seq<Doc>, ts: set<Value>)
  {
    && (forall i :: 0 <= i < |qs| ==> exists v :: v in ts && KeyClass(v) == KeyClass(QuestionTypeOf(qs[i])))
    && (forall v, w :: v in ts && w in ts && KeyClass(v) == KeyClass(w) ==> v == w)
    && (forall v :: v in ts ==> FirstOfClass(qs, v))
  }

  /** `v` is a type of `qs` and no earlier type is in its key class. */
  ghost predicate FirstOfClass(qs: seq<Doc>, v: Value)
  {
    exists i :: 0 <= i < |qs| && QuestionTypeOf(qs[i]) == v &&
      forall j :: 0 <= j < i ==> KeyClass(QuestionTypeOf(qs[j])) != KeyClass(v)
  }

  predicate TypesHashable(qs: seq<Doc>)
  {
    forall i :: 0 <= i < |qs| ==> Hashable(QuestionTypeOf(qs[i]))
  }

  lemma FirstOfClassSnoc(qs: seq<Doc>, v: Value)
    requires |qs| > 0 && FirstOfClass(qs[..|qs| - 1], v)
    ensures FirstOfClass(qs, v)
  {
    var init := qs[..|qs| - 1];
    var i :| 0 <= i < |init| && QuestionTypeOf(init[i]) == v &&
      forall j :: 0 <= j < i ==> KeyClass(QuestionTypeOf(init[j])) != KeyClass(v);
    assert QuestionTypeOf(qs[i]) == v;
    assert forall j :: 0 <= j < i ==> qs[j] == init[j];
  }

  /** Adding the last question's type keeps `TypesOf`. */
  lemma {:induction false} TypesSnoc(qs: seq<Doc>, ts: set<Value>)
    requires |qs| > 0 && TypesOf(qs[..|qs| - 1], ts)
    ensures var t := QuestionTypeOf(qs[|qs| - 1]);
      TypesOf(qs, if exists v :: v in ts && KeyClass(v) == KeyClass(t) then ts else ts + {t})
  {
    var n := |qs| - 1;
    var init := qs[..n];
    var t := QuestionTypeOf(qs[n]);
    assert forall j :: 0 <= j < n ==> qs[j] == init[j];
    forall v | v in ts ensures FirstOfClass(qs, v) { FirstOfClassSnoc(qs, v); }
    if !exists v :: v in ts && KeyClass(v) == KeyClass(t) {
      forall j | 0 <= j < n ensures KeyClass(QuestionTypeOf(qs[j])) != KeyClass(t) {
        assert QuestionTypeOf(init[j]) == QuestionTypeOf(qs[j]);
      }
      assert FirstOfClass(qs, t);
    }
  }

  lemma TypesHashableSnoc(qs: seq<Doc>)
    requires |qs| > 0
    ensures TypesHashable(qs) <==> TypesHashable(qs[..|qs| - 1]) && Hashable(QuestionTypeOf(qs[|qs| - 1]))
  {
    assert forall j :: 0 <= j < |qs| - 1 ==> qs[j] == qs[..|qs| - 1][j];
  }

  /** `tipos_perguntas`: the `question_type` of every sampled question
      (default "True/False") added to a set in order. A list or dict value
      is not hashable and raises. */
  function QuestionTypes(qs: seq<Doc>): (r: Result<set<Value>>)
    ensures r.Ok? <==> TypesHashable(qs)
    ensures r.Err? ==> r.failure == TypeError
    ensures r.Ok? ==> TypesOf(qs, r.value)
    ensures r.Ok? ==> |r.value| <= |qs|
    decreases |qs|
  {
    if |qs| == 0 then Ok({})
    else
      var n := |qs| - 1;
      TypesHashableSnoc(qs);
      match QuestionTypes(qs[..n])
      case Err(f) => Err(f)
      case Ok(ts) =>
        var t := QuestionTypeOf(qs[n]);
        if !Hashable(t) then Err(TypeError)
        else
          TypesSnoc(qs, ts);
          if exists v :: v in ts && KeyClass(v) == KeyClass(t) then Ok(ts) else Ok(ts + {t})
  }

  /** When every type is a string, as the stored ones are, the set holds
      exactly the distinct types. */
  lemma StringTypesAreDistinctTypes(qs: seq<Doc>)
    requires forall i :: 0 <= i < |qs| ==> QuestionTypeOf(qs[i]).Str?
    ensures QuestionTypes(qs).Ok?
    ensures forall v :: v in QuestionTypes(qs).value <==> exists i :: 0 <= i < |qs| && QuestionTypeOf(qs[i]) == v
  {
    var ts := QuestionTypes(qs).value;
    forall v | v in ts ensures exists i :: 0 <= i < |qs| && QuestionTypeOf(qs[i]) == v {
      assert FirstOfClass(qs, v);
    }
    forall i | 0 <= i < |qs| ensures QuestionTypeOf(qs[i]) in ts {
      var v :| v in ts && KeyClass(v) == KeyClass(QuestionTypeOf(qs[i]));
      assert FirstOfClass(qs, v);
    }
  }

  /** Types `1` and `True` are one set element, the first one added. */
  lemma OneAndTrueOneType(a: Doc, b: Doc)
    requires QuestionTypeOf(a) == Int(1) && QuestionTypeOf(b) == Bool(true)
    ensures QuestionTypes([a, b]) == Ok({Int(1)})
  {
    assert [a][..0] == [];
    assert QuestionTypes([a]) == Ok({Int(1)});
    assert [a, b][..1] == [a];
    assert KeyClass(Bool(true)) == KeyClass(Int(1));
  }

  // ---------------------------------------------------------------------------
  // The three quiz commands

  /** What grading a reply produced: the graded reply text, the expected
      answer of each question, and the count of correct positions. */
  datatype Grade = Grade(answer: string, expected: seq<string>, correct: nat, total: nat)

  datatype QuizOutcome =
    | NoQuestions
    | TimedOut
    | QuizFailed(failure: Failure)
    | Graded(grade: Grade)

  /** Grades a reply against the derived expected answers. */
  function GradeWith(answer: string, derived: seq<Result<string>>): (r: QuizOutcome)
    requires |answer| == |derived|
    ensures r.Graded? <==> forall i :: 0 <= i < |derived| ==> derived[i].Ok?
    ensures !r.Graded? ==> r.QuizFailed?
    ensures r.Graded? ==>
      && r.grade.answer == answer
      && r.grade.total == |answer|
      && |r.grade.expected| == |answer|
      && (forall i :: 0 <= i < |answer| ==> r.grade.expected[i] == derived[i].value)
      && r.grade.correct == Matches(answer, r.grade.expected)
      && r.grade.correct <= r.grade.total
  {
    match AllOk(derived)
    case Err(f) => QuizFailed(f)
    case Ok(exp) => Graded(Grade(answer, exp, Matches(answer, exp), |answer|))
  }

  /** The part every revision shares once the questions are shown: wait for
      the first acceptable reply (none before the timeout ends the quiz),
      normalise it, and grade it against the derived expected answers. */
  function Conduct(derived: seq<Result<string>>, msgs: seq<Message>, user: string, channel: string,
                   stripFirst: bool): (r: QuizOutcome)
    ensures r.NoQuestions? == false
    ensures r.TimedOut? <==> FirstReply(msgs, user, channel, |derived|, stripFirst).None?
    ensures r.TimedOut? ==> forall j :: 0 <= j < |msgs| ==> !Accepts(msgs[j], user, channel, |derived|, stripFirst)
    ensures r.QuizFailed? ==> exists i :: 0 <= i < |derived| && derived[i].Err?
    ensures r.Graded? ==>
      var j := FirstReply(msgs, user, channel, |derived|, stripFirst);
      var content := msgs[j.value].content;
      && j.Some?
      && r.grade.answer == Upper(if stripFirst then Strip(content) else content)
      && r.grade.total == |derived|
      && |r.grade.expected| == |derived|
      && (forall i :: 0 <= i < |derived| ==> derived[i] == Ok(r.grade.expected[i]))
      && r.grade.correct == Matches(r.grade.answer, r.grade.expected)
  {
    match FirstReply(msgs, user, channel, |derived|, stripFirst)
    case None => TimedOut
    case Some(j) =>
      var content := msgs[j].content;
      GradeWith(Upper(if stripFirst then Strip(content) else content), derived)
  }

  /** Rendering a multiple-choice question iterates `alternatives.items()`
      (default `{}`), which raises on anything but a dict. */
  predicate RendersInQuizCommands(d: Doc)
  {
    QuestionTypeOf(d) == Str(MultipleChoice) ==> Get(d, "alternatives", Obj(map[])).Obj?
  }

  function ExpectedAll(sample: seq<Doc>): (r: seq<Result<string>>)
    ensures |r| == |sample| && forall i :: 0 <= i < |sample| ==> r[i] == ExpectedAnswer(sample[i])
  {
    seq(|sample|, i requires 0 <= i < |sample| => ExpectedAnswer(sample[i]))
  }

  function ExpectedAllUpper(sample: seq<Doc>, key: string): (r: seq<Result<string>>)
    ensures |r| == |sample| && forall i :: 0 <= i < |sample| ==> r[i] == UpperAnswer(sample[i], key)
  {
    seq(|sample|, i requires 0 <= i < |sample| => UpperAnswer(sample[i], key))
  }

  /** `quiz` of commands/quiz_commands.py: up to five stored questions, a
      stripped reply of one character per question. */
  function QuizCommands(questions: seq<Doc>, picks: seq<nat>, msgs: seq<Message>,
                        user: string, channel: string): (r: QuizOutcome)
    requires IsSample(|questions|, Min(5, |questions|), picks)
    ensures r.NoQuestions? <==> |questions| == 0
    ensures r.TimedOut? ==>
      forall j :: 0 <= j < |msgs| ==> !Accepts(msgs[j], user, channel, |picks|, true)
    ensures r.Graded? ==>
      var sample := Pick(questions, picks);
      var j := FirstReply(msgs, user, channel, |picks|, true);
      && j.Some?
      && r.grade.answer == Upper(Strip(msgs[j.value].content))
      && r.grade.total == |picks| == Min(5, |questions|)
      && |r.grade.expected| == |picks|
      && (forall i :: 0 <= i < |picks| ==> RendersInQuizCommands(sample[i]))
      && (forall i :: 0 <= i < |picks| ==> ExpectedAnswer(sample[i]) == Ok(r.grade.expected[i]))
      && r.grade.correct == Matches(r.grade.answer, r.grade.expected)
    ensures r.QuizFailed? ==>
      var sample := Pick(questions, picks);
      exists i :: 0 <= i < |picks| &&
        (!RendersInQuizCommands(sample[i]) || ExpectedAnswer(sample[i]).Err?)
    ensures |questions| > 0 ==>
      var sample := Pick(questions, picks);
      && ((exists i :: 0 <= i < |picks| && !RendersInQuizCommands(sample[i])) ==> r.QuizFailed?)
      && ((forall i :: 0 <= i < |picks| ==> RendersInQuizCommands(sample[i])) ==>
            (r.TimedOut? <==> FirstReply(msgs, user, channel, |picks|, true).None?))
      && ((forall i :: 0 <= i < |picks| ==> RendersInQuizCommands(sample[i])) &&
          FirstReply(msgs, user, channel, |picks|, true).Some? ==>
            (r.Graded? <==> forall i :: 0 <= i < |picks| ==> ExpectedAnswer(sample[i]).Ok?))
  {
    if |questions| == 0 then NoQuestions
    else ShowAndGrade(Pick(questions, picks), msgs, user, channel)
  }

  /** quiz_commands once the sample is drawn: render every question, then
      wait for the reply and grade it. */
  function ShowAndGrade(sample: seq<Doc>, msgs: seq<Message>, user: string, channel: string): (r: QuizOutcome)
    ensures !r.NoQuestions?
    ensures r.TimedOut? ==>
      forall j :: 0 <= j < |msgs| ==> !Accepts(msgs[j], user, channel, |sample|, true)
    ensures r.Graded? ==>
      var j := FirstReply(msgs, user, channel, |sample|, true);
      && j.Some?
      && r.grade.answer == Upper(Strip(msgs[j.value].content))
      && r.grade.total == |sample|
      && |r.grade.expected| == |sample|
      && (forall i :: 0 <= i < |sample| ==> RendersInQuizCommands(sample[i]))
      && (forall i :: 0 <= i < |sample| ==> ExpectedAnswer(sample[i]) == Ok(r.grade.expected[i]))
      && r.grade.correct == Matches(r.grade.answer, r.grade.expected)
    ensures r.QuizFailed? ==>
      exists i :: 0 <= i < |sample| && (!RendersInQuizCommands(sample[i]) || ExpectedAnswer(sample[i]).Err?)
    ensures (exists i :: 0 <= i < |sample| && !RendersInQuizCommands(sample[i])) ==> r.QuizFailed?
    ensures (forall i :: 0 <= i < |sample| ==> RendersInQuizCommands(sample[i])) ==>
      (r.TimedOut? <==> FirstReply(msgs, user, channel, |sample|, true).None?)
    ensures (forall i :: 0 <= i < |sample| ==> RendersInQuizCommands(sample[i])) &&
            FirstReply(msgs, user, channel, |sample|, true).Some? ==>
      (r.Graded? <==> forall i :: 0 <= i < |sample| ==> ExpectedAnswer(sample[i]).Ok?)
  {
    if exists i :: 0 <= i < |sample| && !RendersInQuizCommands(sample[i]) then QuizFailed(AttributeError)
    else Conduct(ExpectedAll(sample), msgs, user, channel, true)
  }

  /** `quiz` of bot.py: every shown question needs its "pregunta". */
  function QuizBot(questions: seq<Doc>, picks: seq<nat>, msgs: seq<Message>,
                   user: string, channel: string): (r: QuizOutcome)
    requires IsSample(|questions|, Min(5, |questions|), picks)
    ensures r.NoQuestions? <==> |questions| == 0
    ensures r.TimedOut? ==>
      forall j :: 0 <= j < |msgs| ==> !Accepts(msgs[j], user, channel, |picks|, true)
    ensures r.Graded? ==>
      var sample := Pick(questions, picks);
      var j := FirstReply(msgs, user, channel, |picks|, true);
      && j.Some?
      && r.grade.answer == Upper(Strip(msgs[j.value].content))
      && r.grade.total == |picks| == Min(5, |questions|)
      && |r.grade.expected| == |picks|
      && (forall i :: 0 <= i < |picks| ==> "pregunta" in sample[i])
      && (forall i :: 0 <= i < |picks| ==> UpperAnswer(sample[i], "respuesta") == Ok(r.grade.expected[i]))
      && r.grade.correct == Matches(r.grade.answer, r.grade.expected)
    ensures r.QuizFailed? ==>
      var sample := Pick(questions, picks);
      exists i :: 0 <= i < |picks| && ("pregunta" !in sample[i] || UpperAnswer(sample[i], "respuesta").Err?)
    ensures |questions| > 0 ==>
      var sample := Pick(questions, picks);
      && ((exists i :: 0 <= i < |picks| && "pregunta" !in sample[i]) ==> r.QuizFailed?)
      && ((forall i :: 0 <= i < |picks| ==> "pregunta" in sample[i]) ==>
            (r.TimedOut? <==> FirstReply(msgs, user, channel, |picks|, true).None?))
      && ((forall i :: 0 <= i < |picks| ==> "pregunta" in sample[i]) &&
          FirstReply(msgs, user, channel, |picks|, true).Some? ==>
            (r.Graded? <==> forall i :: 0 <= i < |picks| ==> UpperAnswer(sample[i], "respuesta").Ok?))
  {
    if |questions| == 0 then NoQuestions
    else ShowAndGradeBot(Pick(questions, picks), msgs, user, channel)
  }

  /** bot.py once the sample is drawn. */
  function ShowAndGradeBot(sample: seq<Doc>, msgs: seq<Message>, user: string, channel: string): (r: QuizOutcome)
    ensures !r.NoQuestions?
    ensures r.TimedOut? ==>
      forall j :: 0 <= j < |msgs| ==> !Accepts(msgs[j], user, channel, |sample|, true)
    ensures r.Graded? ==>
      var j := FirstReply(msgs, user, channel, |sample|, true);
      && j.Some?
      && r.grade.answer == Upper(Strip(msgs[j.value].content))
      && r.grade.total == |sample|
      && |r.grade.expected| == |sample|
      && (forall i :: 0 <= i < |sample| ==> "pregunta" in sample[i])
      && (forall i :: 0 <= i < |sample| ==> UpperAnswer(sample[i], "respuesta") == Ok(r.grade.expected[i]))
      && r.grade.correct == Matches(r.grade.answer, r.grade.expected)
    ensures r.QuizFailed? ==>
      exists i :: 0 <= i < |sample| && ("pregunta" !in sample[i] || UpperAnswer(sample[i], "respuesta").Err?)
    ensures (exists i :: 0 <= i < |sample| && "pregunta" !in sample[i]) ==> r.QuizFailed?
    ensures (forall i :: 0 <= i < |sample| ==> "pregunta" in sample[i]) ==>
      (r.TimedOut? <==> FirstReply(msgs, user, channel, |sample|, true).None?)
    ensures (forall i :: 0 <= i < |sample| ==> "pregunta" in sample[i]) &&
            FirstReply(msgs, user, channel, |sample|, true).Some? ==>
      (r.Graded? <==> forall i :: 0 <= i < |sample| ==> UpperAnswer(sample[i], "respuesta").Ok?)
  {
    if exists i :: 0 <= i < |sample| && "pregunta" !in sample[i] then QuizFailed(KeyError)
    else Conduct(ExpectedAllUpper(sample, "respuesta"), msgs, user, channel, true)
  }

  /** `handle_quiz` of utils/uploader.py over the local questions file
      (`None` when it does not exist, otherwise what `json.load` made of it):
      up to ten questions, and the raw reply must have exactly one character
      per question. The command has no error handler, so a failure ends it
      without a reply. */
  datatype LocalQuiz = NoFile | NoTopic | LocalOutcome(outcome: QuizOutcome)

  /** The outcome of `topic not in data` followed by `data[topic]`. */
  datatype Lookup = Absent | LookupFailed(failure: Failure) | Found(entry: Value)

  /** `topic not in data` is a key test on a dict, a membership test on a
      list and a substring test on a string, and raises on anything else;
      indexing a list or a string by a string then raises. */
  function TopicEntry(data: Value, topic: string): (r: Lookup)
    ensures data.Obj? ==> r == (if topic in data.fields then Found(data.fields[topic]) else Absent)
    ensures data.List? ==> (r.Absent? <==> Str(topic) !in data.items)
    ensures data.Str? ==> (r.Absent? <==> !IsSubstring(topic, data.s))
    ensures !data.Obj? ==> !r.Found?
    ensures r.LookupFailed? ==> r.failure == TypeError
  {
    match data
    case Obj(m) => if topic in m then Found(m[topic]) else Absent
    case List(xs) => if Str(topic) in xs then LookupFailed(TypeError) else Absent
    case Str(s) => if IsSubstring(topic, s) then LookupFailed(TypeError) else Absent
    case _ => LookupFailed(TypeError)
  }

  /** What `random.sample` can draw from: the items of a list, or the
      one-character strings of a string. A dict or a scalar raises. */
  function Population(v: Value): (r: Option<seq<Value>>)
    ensures v.List? ==> r == Some(v.items)
    ensures v.Str? ==> r.Some? && |r.value| == |v.s| && forall i :: 0 <= i < |v.s| ==> r.value[i] == Str([v.s[i]])
    ensures !v.List? && !v.Str? ==> r.None?
  {
    match v
    case List(xs) => Some(xs)
    case Str(s) => Some(seq(|s|, i requires 0 <= i < |s| => Str([s[i]])))
    case _ => None
  }

  /** The question of a local entry is shown with `q['question']`. */
  predicate ShownLocal(q: Value)
  {
    q.Obj? && "question" in q.fields
  }

  /** The population of the topic's entry, when the file decodes, holds the
      topic, and the entry can be sampled. */
  function LocalPopulation(file: Option<Parsed>, topic: string): Option<seq<Value>>
  {
    if file.Some? && file.value.Json? && TopicEntry(file.value.value, topic).Found? then
      Population(TopicEntry(file.value.value, topic).entry)
    else None
  }

  function QuizLocal(file: Option<Parsed>, topic: string, picks: seq<nat>,
                     msgs: seq<Message>, user: string, channel: string): (r: LocalQuiz)
    requires LocalPopulation(file, topic).Some? ==>
               IsSample(|LocalPopulation(file, topic).value|, Min(10, |LocalPopulation(file, topic).value|), picks)
    ensures r.NoFile? <==> file.None?
    ensures file == Some(DecodeError) ==> r == LocalOutcome(QuizFailed(ValueError))
    ensures r.NoTopic? <==> file.Some? && file.value.Json? && TopicEntry(file.value.value, topic).Absent?
    ensures file.Some? && file.value.Json? && TopicEntry(file.value.value, topic).LookupFailed? ==>
      r == LocalOutcome(QuizFailed(TypeError))
    ensures (file.Some? && file.value.Json? && TopicEntry(file.value.value, topic).Found? &&
             LocalPopulation(file, topic).None?) ==> r == LocalOutcome(QuizFailed(TypeError))
    ensures LocalPopulation(file, topic).Some? ==>
      var items := LocalPopulation(file, topic).value;
      var sample := Pick(items, picks);
      && r == LocalOutcome(ShowAndGradeLocal(sample, msgs, user, channel))
      && |sample| == Min(10, |items|)
      && (r.outcome.Graded? ==> r.outcome.grade.total == Min(10, |items|))
      && (r.outcome.QuizFailed? ==>
            exists i :: 0 <= i < |sample| && (!ShownLocal(sample[i]) || UpperAnswer(sample[i].fields, "answer").Err?))
    ensures r.LocalOutcome? ==> !r.outcome.NoQuestions?
  {
    match file
    case None => NoFile
    case Some(DecodeError) => LocalOutcome(QuizFailed(ValueError))
    case Some(Json(data)) =>
      match TopicEntry(data, topic)
      case Absent => NoTopic
      case LookupFailed(f) => LocalOutcome(QuizFailed(f))
      case Found(entry) =>
        match Population(entry)
        case None => LocalOutcome(QuizFailed(TypeError))
        case Some(items) => LocalOutcome(ShowAndGradeLocal(Pick(items, picks), msgs, user, channel))
  }

  /** utils/uploader.py once the sample is drawn: every question must be a
      dict with a "question" before the wait; the answers are read after
      it. */
  function ShowAndGradeLocal(sample: seq<Value>, msgs: seq<Message>, user: string, channel: string): (r: QuizOutcome)
    ensures !r.NoQuestions?
    ensures r.TimedOut? ==>
      forall j :: 0 <= j < |msgs| ==> !Accepts(msgs[j], user, channel, |sample|, false)
    ensures r.Graded? ==>
      var j := FirstReply(msgs, user, channel, |sample|, false);
      && j.Some?
      && r.grade.answer == Upper(msgs[j.value].content)
      && r.grade.total == |sample|
      && |r.grade.expected| == |sample|
      && (forall i :: 0 <= i < |sample| ==> ShownLocal(sample[i]))
      && (forall i :: 0 <= i < |sample| ==> UpperAnswer(sample[i].fields, "answer") == Ok(r.grade.expected[i]))
      && r.grade.correct == Matches(r.grade.answer, r.grade.expected)
    ensures r.QuizFailed? ==>
      exists i :: 0 <= i < |sample| && (!ShownLocal(sample[i]) || UpperAnswer(sample[i].fields, "answer").Err?)
    ensures (exists i :: 0 <= i < |sample| && !ShownLocal(sample[i])) ==> r.QuizFailed?
    ensures (forall i :: 0 <= i < |sample| ==> ShownLocal(sample[i])) ==>
      (r.TimedOut? <==> FirstReply(msgs, user, channel, |sample|, false).None?)
    ensures (forall i :: 0 <= i < |sample| ==> ShownLocal(sample[i])) &&
            FirstReply(msgs, user, channel, |sample|, false).Some? ==>
      (r.Graded? <==> forall i :: 0 <= i < |sample| ==> UpperAnswer(sample[i].fields, "answer").Ok?)
  {
    if exists i :: 0 <= i < |sample| && !sample[i].Obj? then QuizFailed(TypeError)
    else if exists i :: 0 <= i < |sample| && "question" !in sample[i].fields then QuizFailed(KeyError)
    else
      var docs := seq(|sample|, i requires 0 <= i < |sample| => sample[i].fields);
      Conduct(ExpectedAllUpper(docs, "answer"), msgs, user, channel, false)
  }

  /** The local file the question generator writes stores the model's
      "True"/"False" answers; every such question is graded against a
      five-letter or four-letter string, so no reply ever scores. */
  lemma SpelledOutAnswersScoreZero(answer: string, expected: seq<string>)
    requires |answer| == |expected|
    requires forall i :: 0 <= i < |expected| ==> expected[i] == "TRUE" || expected[i] == "FALSE"
    ensures Matches(answer, expected) == 0
  {
    ZeroScoreIffNoHit(answer, expected);
  }
}
