# Exam trainer core in Dafny

This project models the core of a Django self-study exam trainer. The trainer keeps a bank of
multiple-choice questions grouped into 19 chapters. It assembles 40-question mock exams that
follow a per-chapter quota table, walks a learner through one exam in the session, and explains
wrong answers with a character diff and keyword hints. Management commands export and import
the question bank.

The model covers:

- **Quota table and selector** (`selector.dfy`). `CHAPTER_QUOTA` is a 19-entry table. The
  selector draws up to `n` non-excluded questions from each chapter with a positive quota,
  concatenates the draws and shuffles them. Random choices are nondeterministic
  (`:|`): any draw of the right size and any permutation.
- **Quality gate** (`quality.dfy`). It lists the chapters whose stock is below their effective
  quota, and the total quota.
- **Explainer** (`smart_explain.dfy`):
  - the HTML escaper;
  - the `<del>`/`<ins>` diff renderer over an opcode list supplied by the caller;
  - a hand-written scanner equal to the token regular expression;
  - the normaliser and the capped, first-occurrence hint extraction.
- **Views** (`views.dfy`):
  - the progress percentage;
  - the per-question choice order kept in the session;
  - the dashboard totals;
  - the `mock_start`, `mock_session` and `mock_result` transitions.

  The session is a `class` whose fields the views update in place. `SessionStep` and
  `AnswerStep` describe one request as a function of the session before it.
- **Records** (`models.dfy`): chapters, questions, choices and attempts, the kind and mode
  enumerations, and the `__str__` formatters.
- **Database** (`store.dfy`). The tables are one value, `Tables`: chapters sorted by number,
  questions and choices in ascending primary key, and the next free keys. The ORM writes the
  commands use are functions on that value.
- **Management commands**:
  - `export_questions` and the bundle records (`bundle.dfy`);
  - `import_bundle` (`import_bundle.dfy`);
  - `import_questions` (`import_questions.dfy`).

  Each command is a method whose loops are proved equal to a specification function. An error
  result carries no tables, which models `@transaction.atomic`: a failed import changes nothing.

`seqs.dfy` and `wrappers.dfy` hold generic sequence facts and the `Option`/`Result` types.

Three places where the code does something other than what its own text suggests. The model
follows the code:

- The docstring of `extract_hints` (exam/logic/smart_explain.py:55-57) promises at most
  `max_items` hints. The cap is checked only after a hint is appended (lines 76-78), so a
  `max_items` of 0 or less still yields one hint (`SmartExplain.Cap`).
- The normaliser (exam/logic/smart_explain.py:62) maps both `[::-1]` and `[:]` to `slice`, but
  `TOKEN_RE` (line 26) never produces `[::-1]`: its bracket alternatives match only `[:]` and
  `[:-1]`, spaces allowed. So only `[:]` ever becomes `slice` (`SmartExplain.ReversalNeverToken`).
- The answer branch of `mock_session` (exam/views.py:202) has only a placeholder comment where
  an attempt would be saved, and no code writes an `Attempt`. So `mock_result` takes the attempt
  table as an input.

## Model

| member | source | states |
|---|---|---|
| Selector.QuotaLookup | exam/logic/selector.py:9-29 | a lookup in a quota table is absent exactly when no entry has that chapter number |
| Selector.QuotaLookupEntry | exam/logic/selector.py:9-29 | with distinct keys, looking up an entry's chapter returns that entry's count |
| Selector.ChapterQuotaKeys | exam/logic/selector.py:9-29 | `CHAPTER_QUOTA` has 19 entries, for chapters 1..19 in order, with no key repeated |
| Selector.ChapterQuotaTotal | exam/logic/selector.py:8-29 | the counts of `CHAPTER_QUOTA` add up to 40 |
| Selector.CountSumTotal | exam/logic/selector.py:9-29 | the per-chapter counts of chapters 1..19 add up to 40 |
| Selector.ChapterQuotaPrefix | exam/logic/selector.py:9-29 | the first k table entries add up to the counts of chapters 1..k |
| Selector.DrawFromChapter | exam/logic/selector.py:43-45 | a chapter's draw is min(n, stock) distinct ids of non-excluded questions of that chapter |
| Selector.AddDraw | exam/logic/selector.py:48 | appending one chapter's draw makes that chapter's picked set exactly the draw, leaves other chapters' sets alone and adds no id already picked |
| Selector.PickedStep | exam/logic/selector.py:38-48 | after one more chapter the picked ids stay distinct and selectable, each processed chapter has min(quota, stock) ids, and the total stays within the summed quotas |
| Selector.CountsStep | exam/logic/selector.py:38-48 | the per-chapter counts min(quota, stock) extend to one more table entry |
| Selector.DrawnStep | exam/logic/selector.py:38-48 | the loop invariant (draws made, picked = their concatenation, per-chapter counts) extends to one more entry |
| Selector.PickedChapters | exam/logic/selector.py:38-48 | every picked id belongs to a chapter already processed |
| Selector.DrawAll | exam/logic/selector.py:36-48 | the loop yields one valid draw per table entry, and the picked ids are their concatenation with the per-chapter counts |
| Selector.ShuffleKeeps | exam/logic/selector.py:51 | a shuffle keeps the length, the members, distinctness and every per-chapter set |
| Selector.BuildMockSetIds | exam/logic/selector.py:31-53 | the result is a permutation of the per-chapter draws; ids are distinct and belong to non-excluded questions of chapters with positive quota; each chapter has exactly min(quota, stock) ids; at most 40 ids |
| Quality.EffectiveQuota | exam/logic/quality.py:22 | the table's count for chapters 1..19, even when it is 0; otherwise the chapter's own `official_quota` |
| Quality.ZeroTableEntryOverrides | exam/logic/quality.py:22 | chapters 7, 12, 15 and 19 have effective quota 0 whatever their stored quota |
| Quality.QuotaDeficits | exam/logic/quality.py:9-34 | the loop over the chapters (sorted by number) returns exactly `DeficitsOf`, the records of the short chapters in chapter order |
| Quality.DeficitsSound | exam/logic/quality.py:24-33 | every record describes a listed chapter with positive effective quota and stock below it, and lack = quota - stock >= 1 |
| Quality.DeficitsComplete | exam/logic/quality.py:24 | every chapter with positive quota and stock below it is reported |
| Quality.DeficitIndex | exam/logic/quality.py:20-33 | each record names the number of some listed chapter |
| Quality.DeficitsOrdered | exam/logic/quality.py:14-17 | records come in strictly ascending chapter number |
| Quality.TotalQuota | exam/logic/quality.py:36-38 | `total_quota()` is 40 |
| Models.ParseKind | exam/models.py:39-46 | a kind read back from text spells that text |
| Models.KindNameRoundTrip | exam/models.py:39-51 | every declared kind reads back as itself |
| Models.NatToString | exam/models.py:28-30 | the decimal rendering is non-empty digits without a leading zero |
| Models.NatToStringRoundTrip | exam/models.py:28-30 | reading the decimal rendering back gives the number |
| Models.Truncate | exam/models.py:71 | `s[:n]` is a prefix of `s` of length min(n, len s) |
| Models.ChapterStr | exam/models.py:28-30 | `Ch`, then the chapter number in decimal (which reads back as the number), then `: `, the title, then ` (`, the official quota in decimal and `)` |
| Models.QuestionStr | exam/models.py:69-71 | `[Ch`, the chapter number in decimal, `] `, then the first 40 characters of the stem (all of it when shorter), then `...` |
| Models.ChoiceStr | exam/models.py:98-101 | the first character is the check mark exactly when the choice is correct and a space otherwise, then a space, then the first 40 characters of the text (all of it when shorter), then `...` |
| Models.AttemptStr | exam/models.py:144-147 | the username, a space, a check mark for a correct attempt or a cross otherwise, then ` Q`, the question id in decimal, ` (`, the mode name and `)` |
| Store.FindChapter | exam/management/commands/import_bundle.py:60 | the chapter found has that number; none found means no chapter has it |
| Store.FindQuestion | exam/views.py:176 | the question found has that key; none found means no row has it |
| Store.FindQuestionOfRow | exam/views.py:176 | with unique keys every row is found by its own key |
| Store.ChoicesOf | exam/views.py:60 | exactly the choices of that question, in table order |
| Store.ChoicesOfAscending | exam/management/commands/export_questions.py:47-49 | a question's choices keep ascending primary keys |
| Store.FindChoiceOf | exam/views.py:195 | `Choice.objects.get(pk=..., question=q)` finds a choice with that key and question, or there is none |
| Store.FindChoiceOfRow | exam/views.py:195 | with unique keys every choice is found by its key and question |
| Store.EligibleIds | exam/logic/selector.py:43-45 | exactly the ids of non-excluded questions of the chapter |
| Store.EligibleIdsFound | exam/logic/selector.py:43-45 | each eligible id looks up to a non-excluded question of the chapter |
| Store.EligibleIdsNoDuplicates | exam/logic/selector.py:43-45 | eligible ids are distinct |
| Store.UpsertChapter | exam/management/commands/import_bundle.py:39-42 | `update_or_create` by number: afterwards that number holds the given chapter, other numbers are unchanged, no other chapter appears, and the order by number is kept |
| Store.GetOrCreateChapter | exam/management/commands/import_questions.py:86-89 | `get_or_create` by number: an existing chapter is kept, otherwise the default is added; other numbers are unchanged |
| Store.SetOfficialQuota | exam/management/commands/import_questions.py:59-60 | `filter(num=...).update(official_quota=...)` changes only that chapter's quota, and nothing if it is absent |
| Store.CreateQuestion | exam/management/commands/import_bundle.py:64-66 | appends one question under the next key and keeps the tables valid |
| Store.CreateChoice | exam/management/commands/import_bundle.py:68-72 | appends one choice under the next key and keeps the tables valid |
| Store.DeleteAllQuestions | exam/management/commands/import_bundle.py:44-47 | the wipe empties questions and choices and keeps chapters |
| Store.UpsertKeepsValid | exam/management/commands/import_bundle.py:39-42 | an upsert keeps every foreign key valid |
| Bundle.Included | exam/management/commands/export_questions.py:42-44 | exactly the questions that are not excluded, or all with `--include-excluded`, in table order |
| Bundle.IncludedAscending | exam/management/commands/export_questions.py:42 | exported questions keep ascending ids |
| Bundle.ExportBundle | exam/management/commands/export_questions.py:66-74 | `meta` is version 1, `exported_items` gives the lengths of both lists, and the flag is recorded |
| Bundle.Export | exam/management/commands/export_questions.py:29-74 | the export loop builds exactly the bundle; it takes the tables as a value, so they are not modified |
| Bundle.ExportDescribes | exam/management/commands/export_questions.py:35-63 | chapters in ascending number with num, title and quota; chosen questions in ascending id with their fields; each question's choices in ascending id as text and correct |
| Bundle.ExportedContents | exam/management/commands/export_questions.py:53-63 | every exported question object is complete, and reading it gives the question's chapter, fields and choices |
| Bundle.ContentsOf | exam/management/commands/export_questions.py:51-63 | one content item per question, in order, each the question's fields with its own choices |
| Bundle.NewQuestionItem | exam/management/commands/import_bundle.py:64-72 | a new question's content carries exactly the block of choices created for it |
| Bundle.InsertChoices | exam/management/commands/import_bundle.py:67-72 | succeeds exactly when every choice object has `text` and `correct`; then it appends one choice per object, in order, under consecutive keys |
| Bundle.CreateChoices | exam/management/commands/import_bundle.py:67-72 | the choice-creation loop (shared by both importers) computes `InsertChoices` |
| Bundle.ContentsUnaffected | exam/management/commands/import_bundle.py:67-72 | choices of a new question do not change the content of existing questions |
| Bundle.AddQuestionContents | exam/management/commands/import_bundle.py:64-72 | a new question with its choices adds exactly its item at the end of the content |
| ImportBundle.ChapterOf | exam/management/commands/import_bundle.py:36-38 | the title defaults to `Chapter <num>` and the quota to 0 |
| ImportBundle.LastChapterFor | exam/management/commands/import_bundle.py:35-42 | the last chapter object with a given number, or none |
| ImportBundle.UpsertAll | exam/management/commands/import_bundle.py:35-42 | succeeds exactly when every object has `num` (otherwise a missing-key error); keeps every existing number and the order |
| ImportBundle.UpsertAllEffect | exam/management/commands/import_bundle.py:35-42 | after the loop each number holds the last object given for it, and other chapters are untouched |
| ImportBundle.UpsertChapters | exam/management/commands/import_bundle.py:35-42 | the chapter loop computes `UpsertAll` |
| ImportBundle.InsertQuestion | exam/management/commands/import_bundle.py:51-73 | succeeds exactly for a complete object with a non-empty choice list and an existing chapter; missing `chapter`, falsy `choices` and an unknown chapter each give their error; success appends the question (note "", not excluded by default) and its choices |
| ImportBundle.InsertOne | exam/management/commands/import_bundle.py:51-73 | one pass of the question loop computes `InsertQuestion` |
| ImportBundle.InsertQuestions | exam/management/commands/import_bundle.py:50-73 | succeeds exactly when every object is acceptable; chapters are untouched |
| ImportBundle.InsertedContents | exam/management/commands/import_bundle.py:64-72 | one accepted object appends its content (fields and choices) after the existing questions |
| ImportBundle.InsertQuestionsContents | exam/management/commands/import_bundle.py:50-73 | the content grows by exactly the objects' content, in order, one question per object |
| ImportBundle.InsertAll | exam/management/commands/import_bundle.py:49-73 | the question loop computes `InsertQuestions`, and `created` counts the objects |
| ImportBundle.ImportBundleSpec | exam/management/commands/import_bundle.py:20-77 | a bundle without `chapters` or `questions` is rejected; success reports `len(chapters)` and one created question per object, on valid tables |
| ImportBundle.ImportBundleEffect | exam/management/commands/import_bundle.py:20-73 | succeeds exactly when both lists exist, every chapter has a number and every question is acceptable; chapters then hold the last object per number and are otherwise untouched; the content is the old content (none with `--wipe`) followed by the objects' content |
| ImportBundle.Import | exam/management/commands/import_bundle.py:20-77 | `handle` computes `ImportBundleSpec`, and an error leaves no tables |
| ImportBundle.ExportedChaptersLast | exam/management/commands/export_questions.py:35-39 | exported chapters have distinct numbers, so the last object per number is the chapter itself |
| ImportBundle.ExportedAcceptable | exam/management/commands/import_bundle.py:50-62 | exported question objects whose questions have choices are all acceptable |
| ImportBundle.ExportedChaptersUpserted | exam/management/commands/import_bundle.py:35-42 | importing exported chapters gives the exported chapter where there is one, else the target's |
| ImportBundle.ExportedUpsertMerged | exam/management/commands/import_bundle.py:35-42 | the same for every chapter number at once |
| ImportBundle.ExportedBundleAccepted | exam/management/commands/import_bundle.py:20-73 | an exported bundle whose questions all have choices is imported successfully |
| ImportBundle.ExportedItems | exam/management/commands/export_questions.py:53-63 | the content the import reads from exported objects is the content of the exported questions |
| ImportBundle.ExportImportRoundTrip | exam/management/commands/import_bundle.py:50-72 | importing an export with `--wipe` recreates the exported questions in order with the same chapter, kind, stem, note, exclusion flag and choices; exported chapters come back as exported and the target's other chapters stay |
| ImportBundle.ChoicelessQuestionBlocksImport | exam/management/commands/export_questions.py:60-63 | a question without choices is exported with an empty list, and the whole bundle then fails to import |
| ImportBundle.EmptyChoicesBlockImport | exam/management/commands/import_bundle.py:56-58 | one question object with an empty choice list makes the whole import fail |
| ImportQuestions.SeedQuotaIsChapterQuota | exam/management/commands/import_questions.py:12-16 | this command's `CHAPTER_QUOTA` equals the selector's, has distinct keys 1..19 and totals 40 |
| ImportQuestions.SeedQuotaLookup | exam/management/commands/import_questions.py:12-16 | a lookup finds exactly chapters 1..19, with the selector's quota |
| ImportQuestions.NewChapter | exam/management/commands/import_questions.py:86-89 | a created chapter is titled `Chapter <n>` with the table's quota, or 0 |
| ImportQuestions.SeedCreate | exam/management/commands/import_questions.py:53-57 | the first pass keeps every existing chapter and the order |
| ImportQuestions.SeedCreateEffect | exam/management/commands/import_questions.py:53-57 | the first pass adds the missing chapters of the table and changes no existing one |
| ImportQuestions.SeedQuotas | exam/management/commands/import_questions.py:59-60 | the second pass keeps every chapter and the order |
| ImportQuestions.SeedQuotasEffect | exam/management/commands/import_questions.py:59-60 | the second pass sets the table's quota on every chapter it names, and only the quota |
| ImportQuestions.SeedPassesEffect | exam/management/commands/import_questions.py:53-60 | both passes with any table: each key's chapter exists with the table's quota and keeps an existing title; other chapters are untouched |
| ImportQuestions.Seed | exam/management/commands/import_questions.py:53-60 | seeding keeps chapters sorted by number and never removes a chapter |
| ImportQuestions.SeedEffect | exam/management/commands/import_questions.py:53-60 | after seeding, chapters 1..19 exist with quota from `CHAPTER_QUOTA`, existing titles are kept and new ones are `Chapter <n>`; other chapters are untouched |
| ImportQuestions.SeedChapters | exam/management/commands/import_questions.py:53-60 | the two seeding loops compute both passes |
| ImportQuestions.Records | exam/management/commands/import_questions.py:18-29 | a list yields its elements in order; a single object yields itself |
| ImportQuestions.EnsureChapter | exam/management/commands/import_questions.py:86-89 | after `get_or_create` the chapter exists and the tables stay valid |
| ImportQuestions.LoadPresent | exam/management/commands/import_questions.py:86-107 | with the keys present: succeeds exactly when `choices` is a non-empty list of complete objects; otherwise a `choices` error naming the file |
| ImportQuestions.LoadRecord | exam/management/commands/import_questions.py:74-107 | a missing `chapter`, `kind`, `stem` or `choices` is reported in that order with the file name; success creates the chapter if missing, one question (note "", not excluded by default) and its choices |
| ImportQuestions.LoadOne | exam/management/commands/import_questions.py:74-109 | one object's load computes `LoadRecord` |
| ImportQuestions.AllLoadableAppend | exam/management/commands/import_questions.py:72-109 | two lists of objects load together exactly when each does |
| ImportQuestions.LoadRecords | exam/management/commands/import_questions.py:73-109 | one file's objects load exactly when all are loadable |
| ImportQuestions.LoadFile | exam/management/commands/import_questions.py:73-109 | the per-file loop computes `LoadRecords` |
| ImportQuestions.AllRecordsLength | exam/management/commands/import_questions.py:71-73 | the objects of all files number as many as the files hold together |
| ImportQuestions.AllRecordsFileByFile | exam/management/commands/import_questions.py:71-73 | file i's objects appear as one block, in order, right after the objects of the files before it |
| ImportQuestions.AllRecordsAppend | exam/management/commands/import_questions.py:71-73 | the objects of two lists of files are those of the first list followed by those of the second |
| ImportQuestions.LoadFiles | exam/management/commands/import_questions.py:72-109 | succeeds exactly when every object of every file is loadable |
| ImportQuestions.LoadAll | exam/management/commands/import_questions.py:71-109 | the file loop computes `LoadFiles`, and the counter equals the number of objects |
| ImportQuestions.ImportQuestionsSpec | exam/management/commands/import_questions.py:46-111 | a missing directory and an empty file list are errors; success exactly when every object is loadable, on valid tables, reporting one question per object |
| ImportQuestions.Import | exam/management/commands/import_questions.py:46-111 | `handle` computes `ImportQuestionsSpec`, and an error leaves no tables |
| ImportQuestions.ChapterNums | exam/management/commands/import_questions.py:75 | exactly the chapter numbers the objects name |
| ImportQuestions.LoadedContents | exam/management/commands/import_questions.py:92-107 | one loaded object appends its content after the existing questions |
| ImportQuestions.LoadRecordsEffect | exam/management/commands/import_questions.py:73-109 | loading grows the content by exactly the objects' content in order; chapters change only by creating missing ones |
| ImportQuestions.ChaptersStep | exam/management/commands/import_questions.py:86-89 | the chapter effect of the first object chains with that of the rest |
| ImportQuestions.LoadFilesEffect | exam/management/commands/import_questions.py:72-109 | the same effect over all files' objects in order |
| ImportQuestions.AppendEffects | exam/management/commands/import_questions.py:72-109 | two consecutive loads compose |
| ImportQuestions.ChapterNumsAppend | exam/management/commands/import_questions.py:72-75 | the chapter numbers named by two lists of objects are those of each list together |
| ImportQuestions.ImportQuestionsEffect | exam/management/commands/import_questions.py:46-109 | success leaves the seeded chapters plus any missing chapter an object names, and the old content (none with `--wipe`) followed by every object's content |
| SmartExplain.EscText | exam/logic/smart_explain.py:30-31 | escaped text has no `<` or `>` |
| SmartExplain.EscTextIdentity | exam/logic/smart_explain.py:30-31 | text without `&`, `<` and `>` is unchanged, so quotes are not escaped |
| SmartExplain.Esc | exam/logic/smart_explain.py:30-31 | an absent value escapes to the empty string; the result has no markup |
| SmartExplain.EscTextAppend | exam/logic/smart_explain.py:30-31 | escaping distributes over concatenation |
| SmartExplain.UnescapeEscText | exam/logic/smart_explain.py:30-31 | unescaping escaped text gives the original text back |
| SmartExplain.Slice | exam/logic/smart_explain.py:44 | Python's `s[i:j]`: within bounds it is the slice, and never longer than `s` |
| SmartExplain.Chunks | exam/logic/smart_explain.py:42-50 | one chunk per opcode, in order: the k-th chunk is the rendering of the k-th opcode |
| SmartExplain.BuildDiffHtml | exam/logic/smart_explain.py:34-51 | absent texts count as empty, and the loop's joined chunks are the rendering |
| SmartExplain.ChunkSide | exam/logic/smart_explain.py:43-50 | each chunk contributes its escaped chosen part to the chosen side and its escaped correct part to the correct side |
| SmartExplain.DiffSide | exam/logic/smart_explain.py:42-51 | under a tiling, a side of the rendering is the escaped remaining text of that side |
| SmartExplain.DiffHtmlRoundTrip | exam/logic/smart_explain.py:34-51 | dropping `<ins>` blocks reads back the chosen text, and dropping `<del>` blocks reads back the correct text |
| SmartExplain.EmptyChosenOnlyInserts | exam/logic/smart_explain.py:38-50 | with an empty chosen text every opcode is an insertion, so the rendering is pure `<ins>` |
| SmartExplain.IdentLen | exam/logic/smart_explain.py:26 | the longest run of identifier characters |
| SmartExplain.SkipSpaces | exam/logic/smart_explain.py:26 | the `\s*` of the bracket alternative: a position at or after the start, within the text |
| SmartExplain.MatchAt | exam/logic/smart_explain.py:25-27 | the length of the match at the start of the text, never beyond its end |
| SmartExplain.MatchWordToken | exam/logic/smart_explain.py:26 | a word match is an identifier, optionally joined to a second by one dot |
| SmartExplain.MatchBracketToken | exam/logic/smart_explain.py:26 | a bracket match is `[:]` or `[:-1]` once whitespace is removed |
| SmartExplain.TokensShape | exam/logic/smart_explain.py:25-27 | every token is a (possibly dotted) identifier or one of the two bracket forms |
| SmartExplain.ReversalNeverToken | exam/logic/smart_explain.py:26 | `[::-1]` is never a token, so it never reaches the normaliser |
| SmartExplain.IsHintKey | exam/logic/smart_explain.py:9-22 | `key in HINTS` holds exactly for the twelve keys |
| SmartExplain.HintKeyRecovered | exam/logic/smart_explain.py:9-22 | every key has a hint text that leads back to the key |
| SmartExplain.HintOfKey | exam/logic/smart_explain.py:9-22 | every key of the knowledge base has a hint |
| SmartExplain.HintsDistinct | exam/logic/smart_explain.py:9-22 | distinct keys hold distinct hint texts |
| SmartExplain.Normalize | exam/logic/smart_explain.py:61-67 | gives `slice` exactly for `[::-1]`, `[:]` or `slice`; gives `list.sort` exactly for `list.sort`, or `sort` when the text contains `list.sort`; otherwise the token is unchanged |
| SmartExplain.FirstIndex | exam/logic/smart_explain.py:71-76 | the position of the first occurrence |
| SmartExplain.Cap | exam/logic/smart_explain.py:76-78 | the effective cap is `max_items` when at least 1, and 1 otherwise |
| SmartExplain.FirstKeysMembers | exam/logic/smart_explain.py:72-75 | the picked keys are exactly the known keys that occur |
| SmartExplain.FirstKeysNoDuplicates | exam/logic/smart_explain.py:74-75 | each key is picked once |
| SmartExplain.FirstKeysOrder | exam/logic/smart_explain.py:71-76 | picked keys follow the order of their first occurrences |
| SmartExplain.FirstKeysPrefix | exam/logic/smart_explain.py:71-76 | scanning more tokens only extends the list of first-occurrence keys |
| SmartExplain.CollectDone | exam/logic/smart_explain.py:76-79 | when the scan ends or reaches the cap, the collected hints are the capped hints |
| SmartExplain.ExtractHintsBounded | exam/logic/smart_explain.py:76-78 | at most `max_items` hints when it is at least 1, and at most one otherwise; none exactly when no token normalises to a key |
| SmartExplain.ExtractHintsContents | exam/logic/smart_explain.py:58-78 | the i-th hint is the hint of the i-th key by first occurrence in `stem + "\n" + correct_text`, and no hint repeats |
| SmartExplain.HintTextsNoDuplicates | exam/logic/smart_explain.py:74-76 | distinct keys give distinct hint lists |
| SmartExplain.Visit | exam/logic/smart_explain.py:73-76 | one token adds its hint exactly when it is a key not yet seen |
| SmartExplain.CollectHints | exam/logic/smart_explain.py:69-79 | the loop with its early break returns the hints of the first capped keys |
| SmartExplain.ExtractHints | exam/logic/smart_explain.py:54-79 | `extract_hints` returns exactly the hints specified by `HintsFor` |
| Views.RoundHalfEven | exam/views.py:41 | Python's `round` of an exact quotient is within half a unit of it |
| Views.RoundedPercentInRange | exam/views.py:40-44 | within range the rounded percentage is at most 100 |
| Views.ProgressPercent | exam/views.py:30-44 | always 0..100, and 0 when the total is not positive |
| Views.ProgressPercentNearest | exam/views.py:40-44 | within range it is the whole percentage nearest to `100 * now / total` |
| Views.Session.constructor | exam/views.py:148-151 | a fresh session holds none of the keys |
| Views.OrderKey | exam/views.py:61-62 | the last position of the id in the stored order, or `10**9` when the order does not list it |
| Views.SortByKey | exam/views.py:62 | the sort is a permutation |
| Views.InsertByKey | exam/views.py:62 | inserting one choice into a sorted run adds exactly that choice |
| Views.SortByKeySorted | exam/views.py:62 | the sorted choices are in ascending key |
| Views.SortByKeyStable | exam/views.py:62 | choices with equal keys keep their relative order |
| Views.IdsOf | exam/views.py:55 | the ids of the choices, in order |
| Views.GetShuffledChoices | exam/views.py:47-63 | a stored non-empty order is reused; otherwise a permutation of the question's choice ids is stored; the choices are returned sorted by that order; nothing else in the session changes |
| Views.StoredOrderReused | exam/views.py:52-57 | once a non-empty order is stored, later calls keep it and show the same order |
| Views.ShuffledIsPermutation | exam/views.py:60-63 | the returned choices are exactly the question's choices, rearranged |
| Views.MissingSortLast | exam/views.py:62 | a choice missing from the order comes after every choice the order lists |
| Views.CoverageOf | exam/views.py:71-73 | one row per chapter, by number, with its count of non-excluded questions |
| Views.StockForQuotaBounded | exam/views.py:76-79 | the stock usable for quotas never exceeds the total quota |
| Views.LiveCount | exam/views.py:68 | the count of non-excluded questions is at most the number of questions |
| Views.Dashboard | exam/views.py:66-96 | `q_count`, coverage, both totals with `total_stock_for_quota <= total_quota`, the deficits, and `has_deficit` exactly when there is one |
| Views.EmptySelection | exam/views.py:124-125 | the selection is empty exactly when no chapter with positive quota has an eligible question |
| Views.SelectMockSet | exam/views.py:124 | the selected ids satisfy the selector's contract and are empty exactly when nothing is selectable |
| Views.MockStart | exam/views.py:114-143 | with nothing selectable: an error, back to the dashboard, session unchanged; otherwise set stored with index 0, score 0 and the start time, plus a warning when shorter than 40; the deficit warning comes first in both cases |
| Views.StoreMockSet | exam/views.py:139-142 | writes exactly the four session keys |
| Views.Explain | exam/views.py:208-214 | the explanation is the diff of the chosen text against the joined correct texts, and at most three hints |
| Views.Judge | exam/views.py:187-214 | a POST with neither a choice nor `next` only warns; any other POST is judged; a correct answer raises the score by one and a wrong one builds the explanation |
| Views.Answer | exam/views.py:176-240 | judging and rendering the current question computes `AnswerStep`; when the question is shown, the stored choice order is a permutation of the question's choice ids |
| Views.MockSession | exam/views.py:146-240 | the view computes `SessionStep` on the session before the request; a rendered question is the current question of a running exam, and its stored choice order is a permutation of that question's choice ids |
| Views.SessionStepAnswers | exam/views.py:158-240 | while the exam is running, a request is the answer step on the current question, with the start time filled in |
| Views.StepInactive | exam/views.py:153-155 | without a question set: back to the dashboard with a prompt, session unchanged |
| Views.StepFinished | exam/views.py:158-174 | after 4500 seconds or past the last question: to the result before any judging, only filling in a missing start time |
| Views.JudgedCorrectMeans | exam/views.py:193-199 | a submission is correct exactly when the posted id names a correct choice of the current question |
| Views.StepKeepsSet | exam/views.py:187-218 | answering keeps the question set and fills in a missing start time |
| Views.StepScore | exam/views.py:204-206 | the score rises by exactly one on a correct judgement and is otherwise unchanged |
| Views.AnswerStepScore | exam/views.py:199-206 | the answer step raises the stored score exactly on a correct judgement |
| Views.StepIndex | exam/views.py:216-218 | the index moves on by exactly one when `next` is posted and is otherwise unchanged; only then does the view redirect |
| Views.AnswerStepSession | exam/views.py:187-218 | the answer step keeps the set and the start time and moves the index only with `next` |
| Views.StepNoChoice | exam/views.py:189-190 | a POST with neither a choice nor `next` only warns: score, index and set are unchanged, and nothing is judged |
| Views.RepostCountsTwice | exam/views.py:204-206 | posting the same correct answer twice without `next` scores two |
| Views.StepExplains | exam/views.py:199-214 | a judged POST without `next` is correct exactly when `JudgedCorrect` holds; a correct one shows no diff or hints; at most three hints |
| Views.RecentMock | exam/views.py:253-257 | exactly the first `total` of the user's mock-mode attempts in the newest-first history (all of them when fewer), so at most `total`, each a mock attempt of the user |
| Views.MockOf | exam/views.py:253-256 | an attempt is kept exactly when it is in the history, belongs to the user and was made in mock mode |
| Views.CorrectAtMostCount | exam/views.py:264-265 | a chapter never has more correct answers than answers |
| Views.TallyStep | exam/views.py:260-265 | one more attempt keeps `ch_stat` the per-chapter tally |
| Views.TallyByChapter | exam/views.py:259-265 | `ch_stat` has a chapter exactly when it was answered, with its correct and total counts |
| Views.MockResult | exam/views.py:243-279 | total and score come from the session; the tally covers the newest `total` mock attempts; the set, index and score are cleared and the start time is kept |

## Left out

- JSON parsing and file I/O are left out. Bundles and question files arrive as parsed records
  with optional fields. A JSON value's type beyond "list", "other truthy value" and "other falsy
  value" is not modelled, nor are the `int()`/`str()`/`bool()` coercions of field values.
- Directory existence is a parameter, and the command takes the sorted list of `*.json` files
  as input.
- Output formatting (`--pretty`, `ensure_ascii`), command-line parsing and the success lines
  written to stdout are left out.
- Randomness (`order_by("?")`, `random.shuffle`) is nondeterministic choice. Any draw of the
  right size and any permutation are allowed; distributions are not modelled.
- difflib's `SequenceMatcher` is not modelled. Its opcodes are an input (the `matcher`
  parameter of the views), and `Tiles` states the shape difflib gives them.
- `html.escape` is modelled only for `&`, `<` and `>`, the characters it escapes with
  `quote=False`.
- Clocks are integer seconds passed in as `now`. Float timestamps and the exception fallbacks
  around `int()` are left out.
- Django's `render`, `redirect`, `login_required` and `csrf_protect` are left out; the response
  is a `Page` value. Messages are values rather than being stored.
- A non-numeric `choice` value, which would raise in the ORM lookup, is left out: a posted
  choice is absent, blank, or a number.
- `signup`, the admin, the URL configuration and the handlers have no modelled behaviour.
- The database is a value, `Tables`. Transactions are modelled as "an error returns no tables",
  not as concurrency control. Primary keys come from counters that deletion does not reset.
- `Question.created_at` and `Attempt.answered_at` are left out. The attempt table is passed to
  `mock_result` newest first.
- `Views.MockResult` takes the attempt table as input because no code writes an `Attempt`. No
  code changes the Leitner `box` either; only its default and documented range are stated.
- Store.DeleteAllQuestions: the `--wipe` of both importers deletes every question, and through
  the cascade on `Attempt.question` (exam/models.py:123) every attempt too. Attempts are not part
  of `Tables`, so the loss of the learners' answer history is not modelled.
- Views.GetShuffledChoices: the choices are sorted starting from ascending id, so choices
  missing from the stored order come last in ascending id. The source's `question.choices.all()`
  (exam/views.py:60) has no ordering, and `Choice.Meta` declares none (exam/models.py:90-96),
  so the database decides the relative order of those choices.
- Views.CorrectText: the correct choices are joined in ascending id. The source's
  `q.choices.filter(is_correct=True)` (exam/views.py:208-209) has no ordering, so the database
  decides the order of the ` / `-joined texts.
- Model field lengths (`max_length`), indexes and `PositiveSmallIntegerField` bounds are left out.
  Integers are unbounded naturals.
- Views.ProgressPercent: `round` is modelled on the exact rational, so floating-point error in
  `now * 100.0 / total` is not captured.
- Views.OrderKey: only the value `10**9` is modelled. With more than `10**9` stored ids a
  listed choice could tie with a missing one; `Views.MissingSortLast` requires fewer.
- Selector.BuildMockSetIds: the per-chapter count is min(quota, stock) for the chapters of the
  table. Chapters outside 1..19 are never drawn from, which follows from `Selectable`.
