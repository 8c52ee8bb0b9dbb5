# A Dafny model of the Discord quiz bot

The bot lets professors turn PDF documents into quiz questions. It sends the
text to a language model, stores the generated questions per server in a
document database, and lets students take short quizzes that are graded and
recorded. Around that it keeps XP, levels and streaks, leaderboards,
statistics per user and per day, and a handful of question-management slash
commands.

The model covers the rules underneath the handlers.

- **Database.** One subtree per server (`Store`). It holds the server
  document and the `topics` (each with its `questions`), `users` and `stats`
  collections. A collection is a sequence of documents in ascending id order
  (`Collection`), and a document maps field names to dynamically typed
  values (`Common.Value`).
- **Operations.** Every repository operation is a pure function from one
  database state to the next, together with what the function returns.
- **Inputs.** Discord events, the language-model reply, the PDF text,
  random sampling, freshly generated document ids, the storage upload and
  `json.loads` are all function arguments.

| module | file | what it models |
|---|---|---|
| `Common` | common.dfy | results and failures, field values, `dict.get`, Python `upper`/`lower`/`strip`, slicing, `"".join`, decimal rendering, code-point string order |
| `Collection` | collection.dfy | a collection in id order, with `set` and `delete` of one document |
| `Store` | store.dfy | the per-server subtree and the first-match lookup of a topic by title |
| `Sorting` | sorting.dfy | an insertion sort for the two ordered queries |
| `Level` | level.dfy | level, XP, streak and leaderboard (repositories/level_repository.py) |
| `Rank` | rank.dfy | `/rank`, `/my_rank` and `/user_rank` (commands/level_commands.py) |
| `Grading` | grading.dfy | the three quiz revisions: commands/quiz_commands.py, bot.py, utils/uploader.py |
| `Prompts` | prompts.dfy | the prompt templates and the choice between them |
| `Generation` | generation.dfy | the generation pipeline in both revisions (utils/llm_utils.py, llm_utils.py) |
| `Topics` | topics.dfy | topic creation with numbered questions, title lists, lookup by title |
| `Questions` | questions.dfy | listing, adding and deleting the questions of a topic |
| `Users` | users.dfy | user registration and the quiz history |
| `Servers` | servers.dfy | the server document and the guild join and leave events |
| `Stats` | stats.dfy | statistic records, the per-user projection, quizzes per day |
| `StatsReport` | statsreport.dfy | `/stats` in bot.py and in commands/stats_commands.py |
| `Chunking` | chunking.dfy | the greedy split of the `/list_questions` listing into blocks of at most 2000 characters |
| `Commands` | commands.dfy | the professor check, autocompletion, `/add_question`, `/list_questions` (2000-character blocks), `/delete_question`, `/generate_questions` |
| `Uploads` | uploads.dfy | `handle_upload`, `save_pdf`, `/topics`, `/upload_topic` |
| `Pagination` | pagination.dfy | the paginated question view and its two buttons |

The source files come from several revisions of the bot, and they call each
other under names that do not exist in this snapshot. Each revision is
therefore modelled on its own terms. A call into code that is missing
becomes a parameter, or the `TypeError` Python would raise.

## Model

| member | source | states |
|---|---|---|
| Level.CalculateLevel | repositories/level_repository.py:30-32 | The level is the one whose 100-XP band holds the XP: 100·(level−1) ≤ xp < 100·level. So the level is at least 1 for any non-negative XP. |
| Level.LevelIsUnique | repositories/level_repository.py:30-32 | No other level fits the band property, so that property pins the level down. |
| Level.LevelMonotone | repositories/level_repository.py:30-32 | More XP never gives a lower level. |
| Level.LevelSamples | repositories/level_repository.py:30-32 | 0 XP and 99 XP are level 1; 100 XP is level 2. |
| Level.UserData | repositories/level_repository.py:7 | A user with no document reads as the empty dict; otherwise the stored document is read. |
| Level.Merge | repositories/level_repository.py:12-15 | A merge write overlays the given fields on the stored document, creating the document if it is missing. No other user changes, and id order is kept. |
| Level.AddXp | repositories/level_repository.py:5-17 | Fails exactly when the stored XP (default 0) is not a number. The new XP is `max(0, xp + delta)`, so it is never negative. The user ends up with that XP and the level of that XP. Every other field and every other user is unchanged. |
| Level.GetUserXp | repositories/level_repository.py:19-24 | A missing user reads as (0, 1). Otherwise the stored XP and level are returned, each defaulting to 0 and 1 separately. |
| Level.AddXpThenGetUserXp | repositories/level_repository.py:5-24 | Reading a user back after `add_xp` gives the XP it returned and the level of that XP. |
| Level.UpdateStreak | repositories/level_repository.py:36-47 | A correct result gives the stored streak (default 0) plus one, and a wrong one gives 0. Only the "streak" field of that user is written. A correct result fails only on a non-numeric stored streak. |
| Level.CorrectRunAdds | repositories/level_repository.py:36-47 | k consecutive correct results raise a streak of s to s + k. |
| Level.CorrectRunFromZero | repositories/level_repository.py:36-47 | k correct results from a streak of 0 give streak k. |
| Level.StreakFromScratch | repositories/level_repository.py:36-47 | A user without a streak reaches k after k correct results, and one wrong result then resets the streak to 0. |
| Level.WrongResets | repositories/level_repository.py:41-46 | A wrong result always succeeds and always leaves the streak at 0. |
| Level.TopRows | repositories/level_repository.py:27 | Gives `min(limit, n)` of the rows, best first. They form a sub-multiset of the input, and every row left out has no more XP than each row shown. |
| Level.GetLeaderboard | repositories/level_repository.py:26-28 | Gives at most `limit` (id, xp, level) triples of users with numeric XP, in non-increasing XP order. Every user left out is matched or beaten by each user listed. |
| Rank.TruncDiv | commands/level_commands.py:58 | Python's `int(a / b)`: the quotient truncated toward zero, with the bounds and sign that rounding implies. |
| Rank.Bar | commands/level_commands.py:59 | The bar has `percent` filled and `10 − percent` empty symbols, 10 in total, when 0 ≤ percent ≤ 10. A negative percent gives no filled symbols, and a percent above 10 gives no empty ones. |
| Rank.MyRank | commands/level_commands.py:53-59 | The reply is shown exactly when XP and level are numbers. The XP inside the level is `xp − 100·(level−1)`, measured against 100, with the bar of `int(inLevel/100·10)`. |
| Rank.MyRankConsistent | commands/level_commands.py:56-59 | When the level is the level of the XP, the XP inside the level lies in [0, 99]. The bar then has `inLevel // 10` filled symbols out of 10. |
| Rank.MyRankAfterAddXp | commands/level_commands.py:53-59 | After any successful XP update, `/my_rank` shows the level of the new XP and `xp mod 100` inside it, with a well-formed 10-symbol bar. |
| Rank.UserRank | commands/level_commands.py:78-88 | A raising professor check stops the command before any lookup. Otherwise the progress is measured against `100·level`, and a level of 0 fails as a division by zero. |
| Rank.UserRankNotAhead | commands/level_commands.py:85-88 | For the same stored numbers at level ≥ 1, `/user_rank` never fills more of the bar than `/my_rank`. |
| Rank.RankLines | commands/level_commands.py:34-37 | Each row is numbered from the start index and names its member. One member that cannot be fetched fails the whole listing. |
| Rank.GlobalRank | commands/level_commands.py:25-37 | An empty top-5 leaderboard gives the no-data reply. Otherwise the reply is the numbered listing of that leaderboard, or the error reply when a member lookup fails. |
| Rank.GlobalRankIsTopFive | commands/level_commands.py:25-37 | A listing shows 1 to 5 users, numbered 1, 2, … in non-increasing XP order. No user left out has more XP than any user shown. |
| Prompts.Cut | utils/prompts.py:25 | `text[:4000]` is the prefix of length `min(|text|, 4000)`. |
| Prompts.TemplateShape | utils/prompts.py:1-84 | Every template asks for "exactly {qty}" and names the topic on a line of its own. It ends with the content section holding the cut text. |
| Prompts.TemplateSchemas | utils/prompts.py:5-40 | The multiple-choice schema has options A to D and a single-letter answer. The true/false schema answers "True" or "False". |
| Prompts.ShortAndDefaultDifferInOneWord | utils/prompts.py:49-84 | The short-answer and default prompts are the same text except that one says "short-answer" where the other says "varied". |
| Prompts.SelectTemplate | utils/llm_utils.py:34-40 | Multiple choice selects its own template, and so does true/false. Every other kind gets the default, so the short-answer template is never selected. |
| Prompts.ShortAnswerNeverSelected | utils/llm_utils.py:32-40 | Asking for short-answer questions sends the default prompt, which differs from the short-answer one. |
| Prompts.OldPromptShape | llm_utils.py:36-49 | Whatever the input, the older prompt asks for 50 true/false questions with a `pregunta`/`respuesta: "V"` schema. It names the topic, and it ends with the cut text followed by the in-string comment "# limitamos para tokens, ajustable". |
| Grading.Pick | commands/quiz_commands.py:28 | The sample is the questions at the picked positions, in pick order. |
| Grading.FirstReply | commands/quiz_commands.py:47-55 | The reply taken is the first message that passes the check: same user, same channel, and a (stripped) length equal to the question count. No earlier message passes. "None" means no message passes, which is the timeout. |
| Grading.CountCorrect | commands/quiz_commands.py:61-79 | The grading loop computes exactly the number of positions where the reply character equals the expected answer, and never more than the number of questions. |
| Grading.PerfectScoreIffAllHit | commands/quiz_commands.py:73-75 | Full marks if and only if every position is a hit. |
| Grading.ZeroScoreIffNoHit | commands/quiz_commands.py:73-75 | A score of zero if and only if no position is a hit. |
| Grading.NotOneCharNeverHit | utils/uploader.py:71-73 | An expected answer that is not exactly one character long is never matched by a reply character. |
| Grading.QuestionTypeOf | commands/quiz_commands.py:65 | A question without `question_type` counts as "True/False". |
| Grading.ExpectedAnswer | commands/quiz_commands.py:64-71 | Multiple choice expects `correct_answer` uppercased (default ""). Any other type expects "V" when `resposta` (default "V") starts with v/V, and "F" otherwise. A non-string answer fails. |
| Grading.TrueGradesAsF | commands/quiz_commands.py:69-71 | "True" and "False" are both graded against "F", "verdadero" against "V", and a missing answer against "V". |
| Grading.MissingChoiceNeverHit | commands/quiz_commands.py:67-68 | A multiple-choice question stored without an answer expects "", which no reply character matches. |
| Grading.UpperAnswer | bot.py:213 | The expected answer is the stored answer under its key uppercased, character by character. A missing key raises KeyError, and a non-string raises AttributeError. bot.py reads `respuesta` and utils/uploader.py:72 reads `answer` in the same way. |
| Grading.QuestionTypes | commands/quiz_commands.py:82-86 | The set holds one `question_type` (default "True/False") per key class of the sample's types, namely the first met in sample order. Python's set treats `1` and `True`, and `0` and `False`, as one element. Every question's type has its class in the set, nothing else is in it, and it has no more elements than there are questions. It fails with TypeError exactly when some type is a list or dict, which cannot be hashed. |
| Grading.StringTypesAreDistinctTypes | commands/quiz_commands.py:82-86 | When every type is a string, as stored types are, the set holds exactly the distinct types of the sample. |
| Grading.OneAndTrueOneType | commands/quiz_commands.py:82-85 | A question of type `1` followed by one of type `True` gives the one-element set `{1}`. |
| Grading.Conduct | commands/quiz_commands.py:47-79 | The part every revision shares. It times out exactly when no message passes the check. Otherwise it grades the first accepted reply (stripped when the revision strips, then uppercased) against every expected answer, or fails when one cannot be derived. |
| Grading.QuizCommands | commands/quiz_commands.py:22-79 | No stored questions gives the no-questions reply. Otherwise `min(5, n)` questions are sampled. A question that cannot be rendered fails the quiz before the wait. When all render, the quiz times out exactly when no message passes the check. Otherwise it is graded exactly when every `ExpectedAnswer` can be derived, against the stripped, uppercased first accepted reply. A failure names a question that cannot be rendered or graded. |
| Grading.ShowAndGrade | commands/quiz_commands.py:33-79 | Once the sample is drawn, a question that does not render fails the quiz. When all render, it times out exactly when no message passes the check, and otherwise it is graded exactly when every answer can be derived. The grade counts the hits, with the total equal to the sample size. |
| Grading.QuizBot | bot.py:183-220 | No questions gives the no-questions reply. Otherwise `min(5, n)` questions are sampled. A missing `pregunta` fails before the wait. When all are present, the quiz times out exactly when no message passes the check. Otherwise it is graded exactly when every `respuesta` uppercases, against the stripped, uppercased reply. |
| Grading.ShowAndGradeBot | bot.py:191-220 | Once the sample is drawn, a missing `pregunta` fails the quiz. When every `pregunta` is present, it times out exactly when no message passes the check. Otherwise it is graded exactly when every `respuesta` is a present string, counting the hits against the uppercased values. |
| Grading.QuizLocal | utils/uploader.py:36-80 | A missing file and a topic the `in` test does not find each give their own reply. A file that does not decode raises ValueError. A top-level value that cannot be indexed by the topic, or an entry that cannot be sampled, raises TypeError. Otherwise `min(10, n)` items are sampled from the entry (the items of a list, the characters of a string) and shown and graded as `ShowAndGradeLocal` says. A graded quiz has `min(10, n)` questions, and a failed one names a sampled item that cannot be shown or graded. |
| Grading.ShowAndGradeLocal | utils/uploader.py:51-79 | A sampled item that is not a dict with a "question" fails the quiz before the wait. When all are shown, it times out exactly when no message has the raw reply length. Otherwise it is graded exactly when every `answer` is a present string. The grade counts the hits of the uppercased raw reply, and a failure names an item that cannot be shown or graded. |
| Grading.TopicEntry | utils/uploader.py:44-48 | `topic not in data` is a key test on a dict, a membership test on a list and a substring test on a string. Only a dict yields the entry. A found topic in a list or string raises TypeError when indexed, and any other value raises at the test. |
| Grading.Population | utils/uploader.py:48 | `random.sample` draws from the items of a list or the one-character strings of a string, and from nothing else. |
| Grading.SpelledOutAnswersScoreZero | utils/uploader.py:69-79 | When the stored answers are "True"/"False", as the generator writes them, every reply scores 0. |
| Generation.ResponseContent | utils/llm_utils.py:65 | `["choices"][0]["message"]["content"]` is found exactly when every step of that path exists, and the content is returned then. |
| Generation.SendToOpenRouter | utils/llm_utils.py:43-67 | A failed request or a reply without the content path gives None; otherwise the message content is returned. Nothing is raised. |
| Generation.SendToOpenRouterSamples | utils/llm_utils.py:63-67 | A well-formed reply yields its content. A reply without choices yields None, and so does an error body. |
| Generation.Truncate | utils/llm_utils.py:73-75 | A list becomes its prefix of `qty` elements (Python slice semantics, also for negative `qty`). Any other value passes through unchanged. |
| Generation.TruncateShortList | utils/llm_utils.py:74-75 | A list no longer than `qty` is kept whole. |
| Generation.LocalLoop | utils/llm_utils.py:94-96 | The id-stamping loop fails exactly when the topic entry is not a list or a new question is not a dict. No questions means no change. |
| Generation.LocalLoopClosedForm | utils/llm_utils.py:94-96 | The old list is kept, and new question j (from 0) is appended with id `str(m + 2j + 1)`, where m is the prior length, because `len` is re-read after every append. |
| Generation.UpdateLocal | utils/llm_utils.py:91-96 | The topic key is added with `[]` if absent and the new questions are appended in closed form. Other topics are untouched. The update fails exactly when the entry is not a list, or a question is not a dict. |
| Generation.WriteBack | utils/llm_utils.py:85-99 | A missing file starts from `{}`, and a file that does not decode raises ValueError. An object is updated exactly as `UpdateLocal` says. Any other top-level value raises TypeError, except a list holding the topic or a string containing it when there are no new questions, which is written back unchanged. |
| Generation.LocalIdsCollide | utils/llm_utils.py:94-96 | Two questions saved into an empty topic get ids "1" and "3". One more saved later also gets "3". |
| Generation.LocalIdsIncrease | utils/llm_utils.py:94-96 | Within one call the ids strictly increase, by two per question. |
| Generation.SaveQuestionsJson | utils/llm_utils.py:70-99 | A reply that is not a string raises TypeError before the repository call. A decode error returns quietly before the repository call and before any file write. A parsed value reaches the repository truncated to `qty`, with every other argument unchanged. A failing repository call ends the save with its error, and nothing is written. A value without a length then raises TypeError. Otherwise the save succeeds exactly when `WriteBack` of the truncated questions does, and the local file then holds exactly that value. |
| Generation.SaveListOfQuestions | utils/llm_utils.py:73-96 | A list of question objects reaches the repository cut to `qty`. Once the repository call returns, a new local file holds only that topic, listing exactly those questions, each with its re-read-length id. |
| Generation.GenerateQuestionsFromPdf | utils/llm_utils.py:102-108 | A failed download raises before anything else. Otherwise the prompt for the type is built from the extracted text, sent, and its result saved, each stage feeding the next. |
| Generation.GenerateFacts | utils/llm_utils.py:102-108 | The prompt carries the requested count and ends with the first 4000 characters of the text. A failed request hands `None` to the saver, which raises TypeError in `json.loads`. |
| Generation.GuardarPreguntasJson | llm_utils.py:75-111 | A decode error writes nothing. Every parsed question is stored, with no cut, under ids "1".."n" of the topic path, as exactly {pregunta, respuesta} with defaults "" and "V". Question ids outside "1".."n" keep their documents. No other topic changes, and neither do the server document, users or statistics. The local file and the outcome are what `UpdateLocal` gives for the parsed items: its error is the outcome with nothing written, otherwise its file is written. |
| Generation.GuardarLocalIds | llm_utils.py:97-111 | When the local entry for the topic is absent or a list, the older saver writes the local file, and the new questions get the ids `str(len + i)` of the re-read length, as in the newer saver. |
| Generation.HiddenTopicKeepsLookup | llm_utils.py:86-88 | Adding a topic path that has no document does not change any lookup by title. |
| Generation.OldQuestionsInvisible | llm_utils.py:84-93 | When no topic document has the topic's name as its id, the questions the older pipeline stores are never found by a lookup by title. |
| Generation.PdfPath | llm_utils.py:115 | The path ends in ".pdf", and is "docs/{topic}.pdf" unless the topic name is absolute. |
| Generation.GenerarPreguntasDesdePdf | llm_utils.py:114-123 | A missing PDF raises FileNotFoundError before extraction or the request. Otherwise the fixed prompt is sent; a failed request or malformed reply raises, and a successful reply is saved. |
| Commands.HasRole | bot.py:69-70 | True exactly when some role name, lowercased, equals the given name. |
| Commands.IsProfessor | commands/crud_questions.py:14-18 | True exactly when the interaction is inside a server and some role is named "faculty" in any letter case. |
| Commands.IsProfessorSamples | commands/crud_questions.py:14-18 | "FACULTY" counts. Outside a server nobody counts, and "faculty member" does not count. |
| Commands.Autocomplete | commands/crud_questions.py:23-26 | At most 25 suggestions, in original order, each containing the typed text case-insensitively. When no more than 25 match, every match is offered. |
| Commands.AutocompleteComplete | commands/crud_questions.py:23-26 | When no more than 25 names match, a name is offered if and only if it contains the typed text. |
| Commands.TopicIdSuggestions | bot.py:147-165 | Offers the first `min(25, m)` of the `m` topic document ids that contain the typed text case-insensitively, in id order. |
| Commands.TopicIdSuggestionsComplete | bot.py:155-160 | When no more than 25 ids match, an id is offered if and only if it contains the typed text. |
| Commands.TitleSuggestions | commands/crud_questions.py:21-26 | A non-string title raises AttributeError. Otherwise it offers the first `min(25, m)` of the `m` offered titles that contain the typed text, in their order. |
| Commands.TitleSuggestionsComplete | commands/crud_questions.py:21-26 | When no more than 25 titles match, a title is offered if and only if it contains the typed text. |
| Commands.AddQuestion | commands/crud_questions.py:38-59 | A non-professor is refused, and an answer other than V/F in any case is rejected, both before any write. A missing topic is a ValueError that writes nothing. Otherwise the question is added with the uppercased answer. |
| Commands.AddedAnswerIsUpperVF | commands/crud_questions.py:45-50 | After a successful add, the topic's listing holds the question with answer exactly "V" or "F" and its new id. |
| Commands.DeleteQuestion | commands/crud_questions.py:97-108 | A non-professor is refused. A professor gets a ValueError exactly when the topic is missing, and otherwise the question is deleted. |
| Commands.ListingLines | commands/crud_questions.py:80-81 | One line per question, numbered from the start. The listing fails with KeyError exactly when some question lacks `pregunta` or `respuesta`. |
| Chunking.SplitAtUnique | commands/crud_questions.py:77-88 | The rule leaves no choice: two splits of the same items have the same cuts and the same blocks. |
| Chunking.FilledLoop | commands/crud_questions.py:80-85 | After any number of lines, the loop state keeps the text in order, the blocks chunked, and the cuts consistent with the split rule. |
| Commands.FillBlocks | commands/crud_questions.py:77-85 | The loop leaves exactly the state of the reference fold `Chunking.Filled` over every line. |
| Commands.SplitIntoBlocks | commands/crud_questions.py:77-88 | The blocks are the split `SplitAt` of the header followed by the lines, at the returned cuts. Under that rule each block is the text of the items from its cut to the next. Each block but the last closed because its next item would have taken it past 2000 characters, every other item of a block fitted when it was added, and an empty last block is dropped. They join to exactly the header followed by every line. They are non-empty when the header and lines are. They fit in 2000 characters when the header and every line do. No two neighbours could have been merged. |
| Commands.ListQuestions | commands/crud_questions.py:64-92 | A non-professor is refused and an empty listing gets the no-questions reply. A missing key fails with KeyError. Otherwise the reply is the split `SplitAt` of the header and the numbered lines, which `Chunking.SplitAtUnique` makes the only one. The blocks are non-empty, join to the header and every line, no two neighbours could be merged, and each is within 2000 characters when the lines are. |
| Commands.TypeByName | commands/questions_commands.py:112-120 | Only "Multiple Choice" and "True or False" name a type. |
| Commands.GenerateQuestions | commands/questions_commands.py:94-125 | A non-professor is refused and a missing topic fails. A known type requests generation from the topic's title, id and document url, with 50 questions; an unknown type is a ValueError. |
| Commands.GenerateIgnoresQty | commands/questions_commands.py:122 | The requested quantity never changes the outcome: 50 questions are always requested. |
| Commands.GenerateNeverShortAnswer | commands/questions_commands.py:112-122 | This command can never request short-answer questions. |
| Pagination.FloorDiv | views/pagination_view.py:14 | Python's `//`: the quotient rounded toward negative infinity. |
| Pagination.PySlice | views/pagination_view.py:19 | Python's `s[i:j]`: within bounds it is the slice, and an end past the sequence clamps. |
| Pagination.NewView | views/pagination_view.py:7-14 | The view starts at page 0. A page size of 0 raises. For a positive page size, the page count is 0 exactly for no data, and otherwise the least number of pages that holds all the questions. |
| Pagination.DefaultPageCount | views/pagination_view.py:7-14 | With the default size, n questions fill ⌈n / 10⌉ pages. |
| Pagination.PageCountIsCeiling | views/pagination_view.py:14 | No smaller number of pages holds all questions. |
| Pagination.PageLine | views/pagination_view.py:22 | A line is produced exactly when the question has `pregunta`, `respuesta` and `id`; otherwise KeyError. |
| Pagination.PageLines | views/pagination_view.py:21-22 | One numbered line per question from the first number. KeyError exactly when some question lacks a key. |
| Pagination.FormatPage | views/pagination_view.py:16-23 | The page is the header followed by the lines of `data[p·size : p·size + size]`, numbered from `p·size + 1`. |
| Pagination.PageContents | views/pagination_view.py:17-19 | Page p shows the `size` questions after the first `p·size`, or fewer on the last page. |
| Pagination.EveryQuestionOnOnePage | views/pagination_view.py:14-19 | Question i is shown on page `i // size`, and that page exists. |
| Pagination.PreviousPage | views/pagination_view.py:30-35 | Goes one page back and edits the message when past the first page. Otherwise the click is only acknowledged and the state is unchanged. The valid-page invariant is kept. |
| Pagination.NextPage | views/pagination_view.py:38-43 | Goes one page on and edits the message when before the last page. Otherwise the click is only acknowledged and the state is unchanged. The valid-page invariant is kept. |
| Pagination.ClicksStayValid | views/pagination_view.py:7-43 | A new view starts on a valid page (0 ≤ current ≤ max(0, pages − 1)), and any run of clicks keeps it there. |
| Pagination.ClicksKeepValid | views/pagination_view.py:29-43 | Any run of clicks keeps the page valid and never changes the data or the page count. |
| Pagination.ButtonsUndoEachOther | views/pagination_view.py:29-43 | Back then forward returns to the same view, and so does forward then back, whenever the first click moves. |
| Store.FindTopic | repositories/question_repository.py:4-9 | Finds the first existing topic document whose title equals the name exactly. No earlier one matches, and "none" means no document matches. |
| Topics.QuestionRecord | repositories/topic_repository.py:26-29 | A stored question has exactly `pregunta` (default "") and `respuesta` (default "V"); other keys are dropped. |
| Topics.QuestionIdInjective | repositories/topic_repository.py:24 | Distinct positions get distinct ids, so numbered questions never overwrite each other. |
| Topics.StoreNumbered | repositories/topic_repository.py:22-30 | The batch adds exactly the ids "1".."n" and keeps id order. |
| Topics.StoreNumberedFinds | repositories/topic_repository.py:22-30 | Question i is found under id `str(i+1)`, and every other id keeps what it had. |
| Topics.TopicData | repositories/topic_repository.py:13-19 | The topic document has exactly the title, creation time, document name, storage url and the number of questions. |
| Topics.CriarTopicoComPerguntas | repositories/topic_repository.py:9-31 | The topic document is written under the fresh id first, so a value without a length raises before that write and one that cannot be iterated raises after it. Otherwise the numbered question records are written, and the call returns the fresh id. No other topic changes. |
| Topics.ObterTopicsParaAutocompletar | repositories/topic_repository.py:46-48 | One title per topic document, in document order, "Sem título" when one is missing. |
| Topics.CreatedTopicIsOffered | repositories/topic_repository.py:9-48 | A topic just created is offered by its title. |
| Topics.ObterPreguntasPorTopic | repositories/topic_repository.py:50-66 | Gives the questions of the first topic document, in stream order, whose title is exactly the name. No earlier document has that title. Gives nothing when no title matches. |
| Topics.CreatedTopicQuestionsFound | repositories/topic_repository.py:9-62 | When the title was free, looking it up right after creation finds exactly the numbered records of the given questions. |
| Questions.WithQuestionText | repositories/question_repository.py:14 | An ordered query returns exactly the documents that have the ordering field. |
| Questions.WithId | repositories/question_repository.py:15 | The stored fields with "id" set to the document id, which overrides any stored "id". |
| Questions.Listing | repositories/question_repository.py:14-15 | Lists every question that has a `pregunta`, each exactly once with its id, ordered by `pregunta`. |
| Questions.ListarPerguntasPorTopico | repositories/question_repository.py:3-15 | A missing topic gives `[]`; otherwise the listing of the first topic with that title. |
| Questions.AdicionarPergunta | repositories/question_repository.py:17-35 | A missing topic raises ValueError and writes nothing. Otherwise exactly one question {pregunta, respuesta} is added under the fresh id, which is returned, and everything else is unchanged. |
| Questions.DeletarPergunta | repositories/question_repository.py:37-49 | A missing topic raises ValueError. Otherwise only that question of that topic is removed, and a missing id changes nothing. |
| Questions.FindTopicSameDocs | repositories/question_repository.py:38-43 | Lookups by title see only topic documents, so changing questions never changes which topic a title resolves to. |
| Questions.AddedQuestionIsListed | repositories/question_repository.py:3-35 | A question just added is listed under its topic, with its new id. |
| Questions.DeletedQuestionNotListed | repositories/question_repository.py:3-49 | After a deletion, no listed question of the topic carries the deleted id. |
| Users.UserRecord | repositories/user_repository.py:19-23 | The user record has exactly `user_id`, `name` and `joined_bot_at`. |
| Users.RegisterMember | repositories/user_repository.py:12-23 | A bot changes nothing. A human's record replaces whatever was stored under its id. No other user changes. |
| Users.RegisterGuildUsers | repositories/user_repository.py:9-33 | Adds exactly the ids of the members that are not bots, and leaves every other id untouched. |
| Users.RegisterGuildUsersLastWins | repositories/user_repository.py:12-24 | Each non-bot member ends with exactly the record of its last occurrence. |
| Users.RegisterSingleUser | repositories/user_repository.py:36-73 | Writes and returns True exactly for a non-bot that is not yet registered. A bot or a known user changes nothing and gets None. |
| Users.RegisterSingleUserOnce | repositories/user_repository.py:46-52 | A second registration of the same member changes nothing and returns None. |
| Users.GuildRegistrationResetsKnownUser | repositories/user_repository.py:9-65 | A known user keeps its XP under a single registration but loses it under the guild-wide one. |
| Users.HistoryEntry | repositories/user_repository.py:86-92 | The entry holds the date, the topic, the types, `success = correct` and `failures = total − correct`. |
| Users.ArrayUnion | repositories/user_repository.py:85-86 | The stored array gains the entry at the end unless an equal entry is already there. A missing or non-array field becomes `[entry]`. |
| Users.RegisterUserHistory | repositories/user_repository.py:76-110 | A user with no document is left as is, because the error is swallowed. Otherwise only that user's "history" changes, by `ArrayUnion`. |
| Users.HistoryOnlyGrows | repositories/user_repository.py:85-93 | The history keeps every earlier entry in order, grows by at most one, and holds the new entry. The entry's successes plus failures equal the total. |
| Servers.ServerRecord | repositories/server_repository.py:7-12 | The record has exactly owner, id, join time and status "Active". |
| Servers.RegisterServer | repositories/server_repository.py:5-20 | The server document is replaced by the record. The sub-collections and other servers are untouched. |
| Servers.UpdateServerField | repositories/server_repository.py:23-36 | An update sets one field and keeps the rest. On a missing document nothing changes, because the error is swallowed. |
| Servers.UpdateServerStatus | repositories/server_repository.py:23-36 | The status becomes the given value, or nothing changes when the server has no document. |
| Servers.UpdateServerLastInteraction | repositories/server_repository.py:39-51 | `last_interaction` becomes the server timestamp, or nothing changes when the server has no document. |
| Servers.DeactivateServer | repositories/server_repository.py:54-66 | The status becomes lower-case "disabled", or nothing changes when the server has no document. |
| Servers.StatusChangesTouchOneField | repositories/server_repository.py:23-66 | Each update changes exactly its one field, and deactivation is a status update to "disabled". |
| Servers.OnGuildJoin | bot.py:265-294 | Writes the "Active" server record and adds exactly the non-bot members' ids. Other users, topics, statistics and other servers are untouched. |
| Servers.OnGuildRemove | bot.py:308-319 | The same update as deactivation. |
| Servers.JoinThenRemove | bot.py:265-319 | Leaving only marks the server "disabled". The owner, id, join time, users, topics and statistics stay. |
| Servers.RemoveUnknownGuild | bot.py:313-319 | Leaving a server that was never registered changes nothing. |
| Stats.StatRecord | repositories/stats_repository.py:7-14 | The record has exactly user id, name, topic, correct, total and timestamp. |
| Stats.SaveStatistic | repositories/stats_repository.py:5-19 | Exactly one record is added under the generated id. Nothing else in the collection changes. |
| Stats.UserStats | repositories/stats_repository.py:36-44 | An entry holds the name (default "No name") and the stored history unchanged. |
| Stats.GetStatisticsByServer | repositories/stats_repository.py:22-51 | Users whose history is missing or falsy are left out. Every other user appears under their id with their projected entry, in document order. |
| Stats.AllDaysDefined | repositories/quiz_repository.py:16-24 | The days are collected exactly when no user's history raises. |
| Stats.CountLast | repositories/quiz_repository.py:24 | Counting the last day turns the tally of all but the last day into the tally of all days. |
| Stats.CountDays | repositories/quiz_repository.py:14-24 | Each day's count is its number of occurrences. Keys are ascending and counts are at least 1. |
| Stats.ObterQuizzesPorPeriodo | repositories/quiz_repository.py:6-32 | The counts sum to the number of datetime-dated entries. Each day's count is its multiplicity, with keys ascending and every count ≥ 1. A history that raises gives `{}`. |
| Stats.RecordedQuizIsCounted | repositories/quiz_repository.py:16-26 | A quiz result newly appended to a user's history adds one to its day's count and changes no other day. |
| StatsReport.JoinGroup | bot.py:82-84 | The record is appended to the group of its user. Every other group is unchanged. |
| StatsReport.AddRecordKeeps | bot.py:79-84 | One more streamed record keeps the groups faithful to the records of each user, with distinct users. |
| StatsReport.Grouped | bot.py:77-84 | One group per dict-key class of the user ids that have a record, so `1` and `True` share a group. The group holds exactly that user's records in stream order, with the name of its first record. |
| StatsReport.OneAndTrueShareAGroup | bot.py:79-83 | A record with user id `1` and one with user id `True` land in one group, because Python's dict treats them as the same key. |
| StatsReport.GroupOf | bot.py:79-84 | Every record's user has exactly one group, which holds all of that user's records. |
| StatsReport.RecordOf | bot.py:79-84 | Every group comes from some record. |
| StatsReport.AttemptLineBot | bot.py:94 | An attempt prints "tema: correctas/total", or fails exactly when one of those keys is missing. |
| StatsReport.UserBlockBot | bot.py:92-94 | A user block is the user's line with the name and number of records, followed by the attempt lines of its last three records in order. It fails exactly when one of those records lacks a key. |
| StatsReport.UserBlocksBot | bot.py:91-94 | One block per group, in order, each the printed block of that group. |
| StatsReport.PrintableIffGroups | bot.py:91-94 | The summary prints exactly when every group's block prints. |
| StatsReport.EstadisticasBot | bot.py:66-99 | Users without a "faculty" role are refused before any read. No records gives the no-statistics reply. An unhashable user id, or a missing key among the shown attempts, gives the error reply. Otherwise the summary is the header followed by every group's block, in group order. |
| StatsReport.SummaryListsEveryUser | bot.py:90-96 | Every user with a record has a line in the summary with its record count and the name from its first record. |
| StatsReport.PyAdd | commands/stats_commands.py:30 | Python's `+` on stored values: numbers add (booleans as 0/1), strings and lists concatenate, and anything else raises TypeError. |
| StatsReport.AttemptLineCmd | commands/stats_commands.py:30 | An attempt prints "topic_id: success/(success+failures)" with defaults "Desconocido" and 0. It fails when it is not a dict or the sum raises. |
| StatsReport.RecordedEntryShowsScore | commands/stats_commands.py:30 | An entry written by the history update prints `correct/total`. |
| StatsReport.RecentLinesCmd | commands/stats_commands.py:29-30 | Only the last three attempts are shown, in order. |
| StatsReport.UserBlockCmd | commands/stats_commands.py:27-30 | A user block is the name and attempt count followed by the recent lines. It fails when a key is missing. |
| StatsReport.UserBlocksCmd | commands/stats_commands.py:27-30 | One block per user entry, in order, each the printed block of that entry. |
| StatsReport.EstadisticasCmd | commands/stats_commands.py:12-35 | Never refuses anyone. Empty data gives the no-statistics reply. The summary prints exactly when every user block does, and is then the header followed by every user's block in order. |
| StatsReport.StudentsPassOnlyTheCommandGate | commands/stats_commands.py:15-17 | A student is refused by bot.py's `/stats` and served by this one, because the gate tests the function object. |
| StatsReport.RepositoryShapeNeverPrints | commands/stats_commands.py:27-30 | The entries the statistics repository produces carry `name`/`attempts`, not `nombre`/`intentos`, so a non-empty result always ends in the error reply. |
| Uploads.HandleUpload | utils/uploader.py:10-33 | No attachment and a name not ending in ".pdf" both stop before saving. A PDF is saved at `docs/{topic}.pdf`, and the generation call then raises TypeError. |
| Uploads.HandleUploadNeverGenerates | utils/uploader.py:10-33 | The disk changes exactly when a PDF is given, only at that one path, and questions are never reported as generated. |
| Uploads.SavePdf | commands/topics_commands.py:15-39 | A failed check or a non-PDF returns None and saves nothing. A failed upload leaves the saved file. A successful upload removes the local copy and returns the url, and a falsy url is reported but still returned. |
| Uploads.SavePdfUrlComesFromUpload | commands/topics_commands.py:15-39 | Any returned url is exactly what the upload gave for `docs/{topic}.pdf`. Only that path can appear on disk. |
| Uploads.TopicLines | commands/topics_commands.py:78-79 | One line per topic, in order. |
| Uploads.ListTopics | commands/topics_commands.py:48-110 | Non-professors are refused before anything is read, and a failing later check gives the error reply. Otherwise the reply is exactly the header followed by the topics' "- {title}" lines ("Untitled" by default), in order and joined by newlines. |
| Uploads.EveryTopicListed | commands/topics_commands.py:77-91 | Every topic has its "- {title}" line, with "Untitled" for a missing title. |
| Uploads.UploadTopic | commands/topics_commands.py:192-248 | A failed check raises before saving. Questions are reported generated exactly when the saved url is a string, extraction succeeds and the save returns. A failed save reports its failure. The pipeline always runs with topic id None, 50 questions and the true/false type. |
| Uploads.FiftyTrueFalsePrompt | utils/prompts.py:29-46 | The true/false prompt for 50 asks for exactly 50, answers "True"/"False", and ends with the cut text. |
| Uploads.UploadTopicAsksForFiftyTrueFalse | commands/topics_commands.py:216-218 | Whatever was uploaded, the model is asked for exactly 50 true/false questions on the first 4000 characters of the text. |

## Left out

- Discord I/O is not modelled: replies, deferrals, follow-ups, intents, the
  command-tree sync, the welcome message and the `/help` text. Replies are
  values of reply datatypes.
- `wait_for` and its 60-second timeout become a finite stream of messages:
  the first one that passes the check is taken, and none passing is the
  timeout.
- `random.sample` becomes an argument listing distinct positions of the
  right count.
- The following are parameters, because they are network or file I/O:
  - HTTP calls (the language model, the PDF download);
  - PDF text extraction;
  - storage uploads and downloads;
  - `json.loads`, and what `json.load` made of a local file;
  - the outcome of `create_topic_with_questions`, which is not part of this
    snapshot.
- The server timestamp and `datetime.now` are opaque values. A history date
  is modelled as its ISO day plus an opaque clock.
- Generated document ids are parameters.
- Python's `str()` of a value is the parameter `show`.
- `professor_verification`, `is_professor` of utils/utils.py,
  `get_topics_by_server`, `get_topic_by_name`, `save_topic_pdf`,
  `get_user_xp_by_name` and `update_question_stats` are not part of this
  snapshot. Their outcomes arrive as arguments: `Rank.UserRank`, for one,
  takes what `get_user_xp_by_name` returns as its `xp` and `level`.
  `update_question_stats` is only imported by commands/level_commands.py.
- The calls to the "last interaction" helpers are left out. Each is a
  logged, swallowed update of one field; `Servers.UpdateServerLastInteraction`
  models the one that exists.
- `utils/enum.py` (QuestionType) is not part of this snapshot. Its values
  are a datatype whose multiple-choice value is "Multiple Choice".
- The `/upload_pdf` command is left out, because it depends on
  `create_topic_without_questions`, which is not in the snapshot.
- bot.py's `/upload`, `/topics` and `registrar_estadistica` are left out.
  They are the oldest revision's wrappers around the pipeline and the
  database.
- keep_alive.py, firebase_init.py, the root uploader.py, utils/utils.py,
  the logging modules and the commented-out views/pagination.py are left
  out. They hold I/O, setup, delegation or logging only.
- Logging is left out entirely. Every swallowed exception becomes "nothing
  changes" or the reply the handler sends.
- Batch atomicity and concurrent handlers are not modelled. Each operation
  is one sequential state transition.
- Case mapping is ASCII-only, and `strip` uses Python's whitespace set.
  There is no Unicode normalisation.
- Dict keys: `datos` in bot.py is the one dict keyed by stored values, and
  `tipos_perguntas` in commands/quiz_commands.py the one set of them. Their
  key classes (`True` with `1`, `False` with `0`) are modelled. Every
  other dict is keyed by field names, which are strings.
- The document database's code-point id order is the order of an unordered
  stream. Sorting.Sort promises a sorted permutation of
  that stream. It does not promise that ties of `order_by` keep stream order.
- Rank.MyRank: `int((x / 100) * 10)` is computed on exact rationals.
  Binary floating-point rounding of that expression is not modelled.
- Rank.UserRank: `int((x / (100·level)) * 10)` is computed on exact
  rationals, as for `MyRank`.
- Level.AddXp: a stored boolean XP fails with TypeError in the model, while
  Python would add `True`/`False` as 1/0.
- Level.AddXp: floating-point XP is not modelled. A stored float, or a
  float delta, would make Python compute `max(0, xp + delta)` in floating
  point and store a float.
- Level.GetLeaderboard: only users whose stored XP is an integer are
  ranked. Firestore's `order_by("xp")` skips only documents without the
  field. It returns the others ordered across types: floating-point XP among
  the integers, booleans below numbers, and timestamps, strings, arrays and
  maps above them. The model has no floating-point values and drops the
  non-integer ones.
- Level.UpdateStreak: a stored boolean streak fails with TypeError in the
  model, while Python would add `True` as 1.
- StatsReport.Grouped: the contract does not state that the groups come in
  the order in which each user first appears, although the definition
  builds them in that order.
- Stats.GetStatisticsByServer: the `except` branch returning `{}` is not
  modelled, because no step of the model raises there.
- Generation.GuardarPreguntasJson: the local `preguntas.json` is assumed to
  decode to a JSON object (the newer saver models the other cases).
- StatsReport.EstadisticasBot: bot.py writes its emoji as the surrogate
  escapes `"\ud83d\udcca"` (and likewise at lines 87, 190 and 210). In Python 3
  that string holds two lone surrogates, not U+1F4CA. Dafny strings cannot
  hold lone surrogates, so the model uses U+1F4CA, the character
  commands/stats_commands.py writes.
- Failure kinds (KeyError, TypeError, AttributeError, ValueError) follow
  Python where the contract names them. Elsewhere the model only
  distinguishes failure from success.
- Deleting the local PDF and creating the `docs` directory are modelled
  only as changes to the set of files on disk.
