/**
 * `import_bundle`: load a bundle written by `export_questions`. Chapters are upserted by
 * number, the question bank is optionally wiped, then every question object becomes one
 * Question row and one Choice row per choice object. The command runs in one transaction,
 * so an error leaves the caller's tables as they were: here an `Err` carries no tables.
 */
module ImportBundle {
  import opened Wrappers
  import opened Models
  import opened Seqs
  import opened Store
  import opened Bundle

  /** What a successful import reports: the new tables, `len(chapters)` and the questions created. */
  datatype Imported = Imported(tables: Tables, chapterCount: nat, created: nat)

  // ---------------------------------------------------------------------------
  // Chapters
  // ---------------------------------------------------------------------------

  /** The chapter a bundle chapter object describes: title defaults to "Chapter <num>", quota to 0. */
  function ChapterOf(r: ChapterRecord): (c: Chapter)
    requires r.num.Some?
    ensures c.num == r.num.value
    ensures c.title == (if r.title.Some? then r.title.value else "Chapter " + NatToString(r.num.value))
    ensures c.officialQuota == (if r.officialQuota.Some? then r.officialQuota.value else 0)
  {
    Chapter(r.num.value, r.title.GetOr("Chapter " + NatToString(r.num.value)), r.officialQuota.GetOr(0))
  }

  predicate NumsPresent(recs: seq<ChapterRecord>) {
    forall k :: 0 <= k < |recs| ==> recs[k].num.Some?
  }

  /** The chapter the last object numbered `n` describes, if any. */
  function LastChapterFor(recs: seq<ChapterRecord>, n: nat): (r: Option<Chapter>)
    requires NumsPresent(recs)
    ensures r.Some? ==>
      exists k :: 0 <= k < |recs| && recs[k].num == Some(n) && r.value == ChapterOf(recs[k])
        && (forall j :: k < j < |recs| ==> recs[j].num != Some(n))
    ensures r.None? ==> forall k :: 0 <= k < |recs| ==> recs[k].num != Some(n)
  {
    if recs == [] then None
    else
      var rest := recs[1..];
      assert forall k :: 0 <= k < |rest| ==> rest[k] == recs[k + 1];
      match LastChapterFor(rest, n)
      case Some(c) => Some(c)
      case None => if recs[0].num == Some(n) then Some(ChapterOf(recs[0])) else None
  }

  /** `for ch in chapters: Chapter.objects.update_or_create(num=int(ch["num"]), ...)`; a missing `num` raises. */
  function UpsertAll(chs: seq<Chapter>, recs: seq<ChapterRecord>): (r: Result<seq<Chapter>, ImportError>)
    requires ChaptersSorted(chs)
    ensures r.Ok? <==> NumsPresent(recs)
    ensures r.Ok? ==> ChaptersSorted(r.value) && forall n :: FindChapter(chs, n).Some? ==> FindChapter(r.value, n).Some?
    ensures r.Err? ==> r.error == KeyMissing("num")
    decreases |recs|
  {
    if recs == [] then Ok(chs)
    else if recs[0].num.None? then Err(KeyMissing("num"))
    else
      var r := UpsertAll(UpsertChapter(chs, ChapterOf(recs[0])), recs[1..]);
      assert NumsPresent(recs) <==> NumsPresent(recs[1..]) by {
        assert forall k :: 0 <= k < |recs[1..]| ==> recs[1..][k] == recs[k + 1];
      }
      r
  }

  /** After the upsert each number holds the last object given for it, and other chapters are untouched. */
  lemma {:induction false} UpsertAllEffect(chs: seq<Chapter>, recs: seq<ChapterRecord>, n: nat)
    requires ChaptersSorted(chs) && NumsPresent(recs)
    ensures FindChapter(UpsertAll(chs, recs).value, n)
         == match LastChapterFor(recs, n)
            case Some(c) => Some(c)
            case None => FindChapter(chs, n)
    decreases |recs|
  {
    if recs != [] {
      var rest := recs[1..];
      assert forall k :: 0 <= k < |rest| ==> rest[k] == recs[k + 1];
      UpsertAllEffect(UpsertChapter(chs, ChapterOf(recs[0])), rest, n);
    }
  }

  // ---------------------------------------------------------------------------
  // Questions
  // ---------------------------------------------------------------------------

  /** `choices = q.get("choices", [])` is truthy. */
  predicate HasChoices(r: QuestionRecord) {
    && r.choices.Some?
    && match r.choices.value
       case ChoiceList(items) => items != []
       case OtherValue(truthy) => truthy
  }

  /** A question object the import turns into rows: complete, with a non-empty choice list and an existing chapter. */
  predicate Acceptable(chs: seq<Chapter>, r: QuestionRecord) {
    && RecordComplete(r)
    && r.choices.value.items != []
    && FindChapter(chs, r.chapter.value).Some?
  }

  /** The rows one acceptable question object adds. */
  function Inserted(t: Tables, r: QuestionRecord): Tables
    requires Acceptable(t.chapters, r)
  {
    var items := r.choices.value.items;
    t.(questions := t.questions + [Question(t.nextQuestionId, r.chapter.value, r.kind.value, r.stem.value,
                                            r.note.GetOr(""), r.isExcluded.GetOr(false))],
       choices := t.choices + NewChoices(t.nextChoiceId, t.nextQuestionId, items),
       nextQuestionId := t.nextQuestionId + 1,
       nextChoiceId := t.nextChoiceId + |items|)
  }

  /**
   * One pass of the question loop: read `chapter`, `kind`, `stem` (a missing one raises), refuse
   * falsy `choices`, find the chapter, create the question, then its choices. A truthy `choices`
   * that is not a list fails while its elements are read.
   */
  function InsertQuestion(t: Tables, r: QuestionRecord): (res: Result<Tables, ImportError>)
    requires Valid(t)
    ensures res.Ok? <==> Acceptable(t.chapters, r)
    ensures res.Ok? ==> Valid(res.value) && res.value == Inserted(t, r)
    ensures r.chapter.None? ==> res == Err(KeyMissing("chapter"))
    ensures r.chapter.Some? && r.kind.Some? && r.stem.Some? && !HasChoices(r) ==> res == Err(EmptyChoices)
    ensures r.chapter.Some? && r.kind.Some? && r.stem.Some? && HasChoices(r) && FindChapter(t.chapters, r.chapter.value).None?
      ==> res == Err(UnknownChapter(r.chapter.value))
  {
    if r.chapter.None? then Err(KeyMissing("chapter"))
    else if r.kind.None? then Err(KeyMissing("kind"))
    else if r.stem.None? then Err(KeyMissing("stem"))
    else if !HasChoices(r) then Err(EmptyChoices)
    else if FindChapter(t.chapters, r.chapter.value).None? then Err(UnknownChapter(r.chapter.value))
    else
      var t1 := CreateQuestion(t, r.chapter.value, r.kind.value, r.stem.value, r.note.GetOr(""), r.isExcluded.GetOr(false));
      var q := t1.questions[|t1.questions| - 1];
      FindQuestionOfRow(t1.questions, q);
      match r.choices.value
      case OtherValue(_) => Err(NotIterable)
      case ChoiceList(items) => InsertChoices(t1, q.id, items)
  }

  predicate AllAcceptable(chs: seq<Chapter>, rs: seq<QuestionRecord>) {
    forall k :: 0 <= k < |rs| ==> Acceptable(chs, rs[k])
  }

  /** `for q in questions: ...`, stopping at the first error. */
  function InsertQuestions(t: Tables, rs: seq<QuestionRecord>): (res: Result<Tables, ImportError>)
    requires Valid(t)
    ensures res.Ok? <==> AllAcceptable(t.chapters, rs)
    ensures res.Ok? ==> Valid(res.value) && res.value.chapters == t.chapters
    decreases |rs|
  {
    if rs == [] then Ok(t)
    else
      var rest := rs[1..];
      assert AllAcceptable(t.chapters, rs) <==> Acceptable(t.chapters, rs[0]) && AllAcceptable(t.chapters, rest) by {
        assert forall k :: 0 <= k < |rest| ==> rest[k] == rs[k + 1];
      }
      match InsertQuestion(t, rs[0])
      case Err(e) => Err(e)
      case Ok(t1) => InsertQuestions(t1, rest)
  }

  /** One accepted object appends its content, with exactly the choices it lists, after the existing questions. */
  lemma {:induction false} InsertedContents(t: Tables, r: QuestionRecord)
    requires Valid(t) && Acceptable(t.chapters, r)
    ensures ContentsOf(Inserted(t, r).questions, Inserted(t, r).choices) == ContentsOf(t.questions, t.choices) + [RecordItem(r)]
  {
    var items := r.choices.value.items;
    var q := Question(t.nextQuestionId, r.chapter.value, r.kind.value, r.stem.value, r.note.GetOr(""), r.isExcluded.GetOr(false));
    var block := NewChoices(t.nextChoiceId, t.nextQuestionId, items);
    AddQuestionContents(t, q, block);
    assert ChoiceContents(block) == ChoiceItems(items);
  }

  /**
   * Every accepted object adds one question and `len(choices)` choices: the content of the
   * tables grows by exactly the objects' content, in order, and nothing before it changes.
   */
  lemma {:induction false} InsertQuestionsContents(t: Tables, rs: seq<QuestionRecord>)
    requires Valid(t) && AllAcceptable(t.chapters, rs)
    ensures ContentsOf(InsertQuestions(t, rs).value.questions, InsertQuestions(t, rs).value.choices)
         == ContentsOf(t.questions, t.choices) + RecordItems(rs)
    ensures |InsertQuestions(t, rs).value.questions| == |t.questions| + |rs|
    decreases |rs|
  {
    if rs == [] {
      assert RecordItems(rs) == [];
    } else {
      var rest := rs[1..];
      assert AllAcceptable(t.chapters, rest) by {
        assert forall k :: 0 <= k < |rest| ==> rest[k] == rs[k + 1];
      }
      var t1 := Inserted(t, rs[0]);
      assert InsertQuestion(t, rs[0]) == Ok(t1);
      var final := InsertQuestions(t1, rest).value;
      assert InsertQuestions(t, rs).value == final;
      InsertedContents(t, rs[0]);
      InsertQuestionsContents(t1, rest);
      RecordItemsCons(rs);
      var c0, head, tail := ContentsOf(t.questions, t.choices), [RecordItem(rs[0])], RecordItems(rest);
      assert ContentsOf(final.questions, final.choices) == (c0 + head) + tail;
      assert RecordItems(rs) == head + tail;
      ConcatAssoc(c0, head, tail);
    }
  }

  // ---------------------------------------------------------------------------
  // The command
  // ---------------------------------------------------------------------------

  /** `import_bundle [--wipe]` on a parsed bundle. */
  function ImportBundleSpec(t: Tables, data: BundleData, wipe: bool): (r: Result<Imported, ImportError>)
    requires Valid(t)
    ensures data.chapters.None? || data.questions.None? ==> r == Err(MalformedBundle)
    ensures r.Ok? ==> Valid(r.value.tables)
    ensures r.Ok? ==> r.value.chapterCount == |data.chapters.value| && r.value.created == |data.questions.value|
  {
    if data.chapters.None? || data.questions.None? then Err(MalformedBundle)
    else
      match UpsertAll(t.chapters, data.chapters.value)
      case Err(e) => Err(e)
      case Ok(chs) =>
        var t1 := WithChapters(t, chs);
        var t2 := if wipe then DeleteAllQuestions(t1) else t1;
        match InsertQuestions(t2, data.questions.value)
        case Err(e) => Err(e)
        case Ok(t3) => Ok(Imported(t3, |data.chapters.value|, |data.questions.value|))
  }

  /**
   * The import succeeds exactly when the bundle has both lists, every chapter object has a number
   * and every question object is acceptable against the upserted chapters. Then the chapters hold
   * the last object per number and are otherwise untouched, and the question content is the old
   * content (none with `--wipe`) followed by the objects' content.
   */
  lemma {:induction false} ImportBundleEffect(t: Tables, data: BundleData, wipe: bool)
    requires Valid(t)
    ensures var r := ImportBundleSpec(t, data, wipe);
      r.Ok? <==>
        && data.chapters.Some? && data.questions.Some?
        && NumsPresent(data.chapters.value)
        && AllAcceptable(UpsertAll(t.chapters, data.chapters.value).value, data.questions.value)
    ensures var r := ImportBundleSpec(t, data, wipe);
      r.Ok? ==>
        && (forall n :: FindChapter(r.value.tables.chapters, n)
                         == match LastChapterFor(data.chapters.value, n)
                            case Some(c) => Some(c)
                            case None => FindChapter(t.chapters, n))
        && ContentsOf(r.value.tables.questions, r.value.tables.choices)
           == (if wipe then [] else ContentsOf(t.questions, t.choices)) + RecordItems(data.questions.value)
  {
    var r := ImportBundleSpec(t, data, wipe);
    if r.Ok? {
      var chs := UpsertAll(t.chapters, data.chapters.value).value;
      forall n ensures FindChapter(chs, n) == match LastChapterFor(data.chapters.value, n)
                                             case Some(c) => Some(c)
                                             case None => FindChapter(t.chapters, n)
      {
        UpsertAllEffect(t.chapters, data.chapters.value, n);
      }
      var t1 := WithChapters(t, chs);
      var t2 := if wipe then DeleteAllQuestions(t1) else t1;
      InsertQuestionsContents(t2, data.questions.value);
      if wipe {
        assert ContentsOf(t2.questions, t2.choices) == [];
      }
    }
  }

  // ---------------------------------------------------------------------------
  // Round trip with `export_questions`
  // ---------------------------------------------------------------------------

  /** Exported chapters carry distinct numbers, so the last object per number is the chapter itself. */
  lemma {:induction false} ExportedChaptersLast(chs: seq<Chapter>, n: nat)
    requires ChaptersSorted(chs)
    ensures NumsPresent(ExportChapters(chs))
    ensures LastChapterFor(ExportChapters(chs), n) == FindChapter(chs, n)
  {
    if chs != [] {
      var recs := ExportChapters(chs);
      assert recs[1..] == ExportChapters(chs[1..]);
      assert ChaptersSorted(chs[1..]);
      ExportedChaptersLast(chs[1..], n);
      assert ChapterOf(recs[0]) == chs[0];
      if chs[0].num == n {
        assert FindChapter(chs[1..], n).None? by {
          forall c | c in chs[1..] ensures c.num != n {
            var j :| 0 <= j < |chs[1..]| && chs[1..][j] == c;
            assert chs[j + 1] == c;
          }
        }
      }
    }
  }

  /** Every exported question object is acceptable against chapters that include the exported ones. */
  lemma {:induction false} ExportedAcceptable(t: Tables, chs: seq<Chapter>, includeExcluded: bool)
    requires Valid(t)
    requires forall n :: FindChapter(t.chapters, n).Some? ==> FindChapter(chs, n).Some?
    requires forall q :: q in Included(t.questions, includeExcluded) ==> ChoicesOf(t.choices, q.id) != []
    ensures AllAcceptable(chs, ExportRecords(t, Included(t.questions, includeExcluded)))
  {
    var qs := Included(t.questions, includeExcluded);
    var rs := ExportRecords(t, qs);
    ExportedContents(t, qs);
    forall k | 0 <= k < |rs| ensures Acceptable(chs, rs[k]) {
      assert qs[k] in qs;
      assert FindChapter(t.chapters, qs[k].chapter).Some?;
    }
  }

  /** The chapters after importing exported ones: the exported chapter where there is one, else the target's. */
  lemma {:induction false} ExportedChaptersUpserted(t: Tables, target: Tables, n: nat)
    requires Valid(t) && Valid(target)
    ensures NumsPresent(ExportChapters(t.chapters))
    ensures FindChapter(UpsertAll(target.chapters, ExportChapters(t.chapters)).value, n)
         == if FindChapter(t.chapters, n).Some? then FindChapter(t.chapters, n) else FindChapter(target.chapters, n)
  {
    ExportedChaptersLast(t.chapters, n);
    UpsertAllEffect(target.chapters, ExportChapters(t.chapters), n);
  }

  /** The chapters the upsert of exported chapters leaves: the exported chapter where there is one, else the target's. */
  ghost predicate ChaptersMerged(chs: seq<Chapter>, t: Tables, target: Tables) {
    forall n :: FindChapter(chs, n) == if FindChapter(t.chapters, n).Some? then FindChapter(t.chapters, n) else FindChapter(target.chapters, n)
  }

  lemma {:induction false} ExportedUpsertMerged(t: Tables, target: Tables)
    requires Valid(t) && Valid(target)
    ensures NumsPresent(ExportChapters(t.chapters))
    ensures ChaptersMerged(UpsertAll(target.chapters, ExportChapters(t.chapters)).value, t, target)
  {
    ExportedChaptersUpserted(t, target, 0);
    forall n ensures FindChapter(UpsertAll(target.chapters, ExportChapters(t.chapters)).value, n)
                     == if FindChapter(t.chapters, n).Some? then FindChapter(t.chapters, n) else FindChapter(target.chapters, n)
    {
      ExportedChaptersUpserted(t, target, n);
    }
  }

  /** An exported bundle whose questions all have choices is accepted, and its chapters merge into the target's. */
  lemma {:induction false} ExportedBundleAccepted(t: Tables, target: Tables, includeExcluded: bool, wipe: bool)
    requires Valid(t) && Valid(target)
    requires forall q :: q in Included(t.questions, includeExcluded) ==> ChoicesOf(t.choices, q.id) != []
    ensures var r := ImportBundleSpec(target, ExportBundle(t, includeExcluded), wipe);
      r.Ok? && ChaptersMerged(r.value.tables.chapters, t, target)
  {
    var b := ExportBundle(t, includeExcluded);
    ExportedUpsertMerged(t, target);
    var chs := UpsertAll(target.chapters, b.chapters.value).value;
    ExportedAcceptable(t, chs, includeExcluded);
    ImportBundleEffect(target, b, wipe);
  }

  /** The content the import reads from exported question objects is the content of the exported questions. */
  lemma {:induction false} ExportedItems(t: Tables, qs: seq<Question>)
    ensures forall k :: 0 <= k < |qs| ==> RecordComplete(ExportRecords(t, qs)[k])
    ensures RecordItems(ExportRecords(t, qs)) == ContentsOf(qs, t.choices)
  {
    ExportedContents(t, qs);
  }

  /**
   * Importing an exported bundle with `--wipe` into any valid tables succeeds when every exported
   * question has a choice; it recreates the exported questions in order with the same chapter,
   * kind, stem, note, exclusion flag and choices, and leaves each exported chapter as it was
   * exported and every other chapter of the target as it was.
   */
  lemma {:induction false} ExportImportRoundTrip(t: Tables, target: Tables, includeExcluded: bool)
    requires Valid(t) && Valid(target)
    requires forall q :: q in Included(t.questions, includeExcluded) ==> ChoicesOf(t.choices, q.id) != []
    ensures var r := ImportBundleSpec(target, ExportBundle(t, includeExcluded), true);
      && r.Ok?
      && ContentsOf(r.value.tables.questions, r.value.tables.choices)
         == ContentsOf(Included(t.questions, includeExcluded), t.choices)
      && r.value.created == |Included(t.questions, includeExcluded)|
      && r.value.chapterCount == |t.chapters|
      && ChaptersMerged(r.value.tables.chapters, t, target)
  {
    var b := ExportBundle(t, includeExcluded);
    var qs := Included(t.questions, includeExcluded);
    ExportedBundleAccepted(t, target, includeExcluded, true);
    ImportBundleEffect(target, b, true);
    ExportedItems(t, qs);
    assert b.questions.value == ExportRecords(t, qs);
  }

  /**
   * `export_questions` writes `"choices": []` for a question that has no choices, and the import
   * refuses such a question: exporting one makes the whole bundle fail to import.
   */
  lemma {:induction false} ChoicelessQuestionBlocksImport(t: Tables, target: Tables, includeExcluded: bool, wipe: bool, q: Question)
    requires Valid(t) && Valid(target)
    requires q in Included(t.questions, includeExcluded) && ChoicesOf(t.choices, q.id) == []
    ensures ImportBundleSpec(target, ExportBundle(t, includeExcluded), wipe).Err?
  {
    var b := ExportBundle(t, includeExcluded);
    var qs := Included(t.questions, includeExcluded);
    var rs := b.questions.value;
    var k :| 0 <= k < |qs| && qs[k] == q;
    assert rs[k] == ExportQuestion(t, q);
    assert |ExportChoices(ChoicesOf(t.choices, q.id))| == 0;
    assert rs[k].choices == Some(ChoiceList([]));
    EmptyChoicesBlockImport(target, b, wipe, k);
  }

  /** A question object whose choice list is empty makes the whole import fail. */
  lemma {:induction false} EmptyChoicesBlockImport(t: Tables, data: BundleData, wipe: bool, k: nat)
    requires Valid(t) && data.chapters.Some? && data.questions.Some?
    requires k < |data.questions.value| && data.questions.value[k].choices == Some(ChoiceList([]))
    ensures ImportBundleSpec(t, data, wipe).Err?
  {
    var rs := data.questions.value;
    assert forall chs :: !AllAcceptable(chs, rs) by {
      forall chs
        ensures !AllAcceptable(chs, rs)
      {
        assert !Acceptable(chs, rs[k]);
      }
    }
  }

  // ---------------------------------------------------------------------------
  // The command as it runs: loops over the chapter, question and choice objects
  // ---------------------------------------------------------------------------

  /** One question object: the checks, `Question.objects.create`, then one `Choice.objects.create` per choice. */
  method InsertOne(t: Tables, r: QuestionRecord) returns (res: Result<Tables, ImportError>)
    requires Valid(t)
    ensures res == InsertQuestion(t, r)
  {
    if r.chapter.None? { return Err(KeyMissing("chapter")); }
    if r.kind.None? { return Err(KeyMissing("kind")); }
    if r.stem.None? { return Err(KeyMissing("stem")); }
    if !HasChoices(r) { return Err(EmptyChoices); }
    if FindChapter(t.chapters, r.chapter.value).None? { return Err(UnknownChapter(r.chapter.value)); }
    var t1 := CreateQuestion(t, r.chapter.value, r.kind.value, r.stem.value, r.note.GetOr(""), r.isExcluded.GetOr(false));
    var qid := t.nextQuestionId;
    FindQuestionOfRow(t1.questions, t1.questions[|t1.questions| - 1]);
    if r.choices.value.OtherValue? { return Err(NotIterable); }
    var items := r.choices.value.items;
    res := CreateChoices(t1, qid, items);
  }

  /** `for ch in chapters: Chapter.objects.update_or_create(...)`. */
  method UpsertChapters(chs0: seq<Chapter>, recs: seq<ChapterRecord>) returns (res: Result<seq<Chapter>, ImportError>)
    requires ChaptersSorted(chs0)
    ensures res == UpsertAll(chs0, recs)
  {
    var chs := chs0;
    var i := 0;
    while i < |recs|
      invariant i <= |recs|
      invariant ChaptersSorted(chs)
      invariant UpsertAll(chs0, recs) == UpsertAll(chs, recs[i..])
    {
      assert recs[i..][1..] == recs[i + 1..];
      if recs[i].num.None? { return Err(KeyMissing("num")); }
      chs := UpsertChapter(chs, ChapterOf(recs[i]));
      i := i + 1;
    }
    assert recs[i..] == [];
    res := Ok(chs);
  }

  /** `for q in questions: ...`, one `InsertOne` each. */
  method InsertAll(t: Tables, rs: seq<QuestionRecord>) returns (res: Result<Tables, ImportError>, created: nat)
    requires Valid(t)
    ensures res == InsertQuestions(t, rs)
    ensures res.Ok? ==> created == |rs|
  {
    var tt := t;
    created := 0;
    var k := 0;
    while k < |rs|
      invariant k <= |rs| && created == k
      invariant Valid(tt)
      invariant InsertQuestions(t, rs) == InsertQuestions(tt, rs[k..])
    {
      assert rs[k..][1..] == rs[k + 1..];
      var one := InsertOne(tt, rs[k]);
      if one.Err? { return Err(one.error), created; }
      tt := one.value;
      created := created + 1;
      k := k + 1;
    }
    assert rs[k..] == [];
    res := Ok(tt);
  }

  /** `import_bundle.Command.handle` on a parsed bundle. */
  method Import(t: Tables, data: BundleData, wipe: bool) returns (r: Result<Imported, ImportError>)
    requires Valid(t)
    ensures r == ImportBundleSpec(t, data, wipe)
  {
    if data.chapters.None? || data.questions.None? { return Err(MalformedBundle); }
    var chapters, questions := data.chapters.value, data.questions.value;
    var upserted := UpsertChapters(t.chapters, chapters);
    if upserted.Err? { return Err(upserted.error); }
    var tt := WithChapters(t, upserted.value);
    if wipe {
      tt := DeleteAllQuestions(tt);
    }
    var inserted, created := InsertAll(tt, questions);
    if inserted.Err? { return Err(inserted.error); }
    r := Ok(Imported(inserted.value, |chapters|, created));
  }
}
