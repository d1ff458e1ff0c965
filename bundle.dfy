/**
 * The single-JSON question bundle: its parsed shape (a missing key is `None`), the export
 * that produces it from the tables, and the content of a question with its choices, which
 * the importers recreate.
 */
module Bundle {
  import opened Wrappers
  import opened Models
  import opened Seqs
  import opened Store

  /** `{"text": ..., "correct": ...}`. */
  datatype ChoiceRecord = ChoiceRecord(text: Option<string>, correct: Option<bool>)

  /** The value under `choices`: a list, or some other JSON value that is truthy or not. */
  datatype ChoicesValue = ChoiceList(items: seq<ChoiceRecord>) | OtherValue(truthy: bool)

  /** One question object: `id`, `chapter` (a chapter number), `kind`, `stem`, `note`, `is_excluded`, `choices`. */
  datatype QuestionRecord = QuestionRecord(
    id: Option<nat>,
    chapter: Option<nat>,
    kind: Option<string>,
    stem: Option<string>,
    note: Option<string>,
    isExcluded: Option<bool>,
    choices: Option<ChoicesValue>)

  /** One chapter object: `num`, `title`, `official_quota`. */
  datatype ChapterRecord = ChapterRecord(num: Option<nat>, title: Option<string>, officialQuota: Option<nat>)

  /** `meta`: format version, `exported_items` counts and the `include_excluded` flag. */
  datatype Meta = Meta(version: nat, chapterCount: nat, questionCount: nat, includeExcluded: bool)

  datatype BundleData = BundleData(
    meta: Option<Meta>,
    chapters: Option<seq<ChapterRecord>>,
    questions: Option<seq<QuestionRecord>>)

  // ---------------------------------------------------------------------------
  // Export (`export_questions`)
  // ---------------------------------------------------------------------------

  function ExportChoices(cs: seq<Choice>): seq<ChoiceRecord> {
    seq(|cs|, k requires 0 <= k < |cs| => ChoiceRecord(Some(cs[k].text), Some(cs[k].isCorrect)))
  }

  function ExportChapters(chs: seq<Chapter>): seq<ChapterRecord> {
    seq(|chs|, k requires 0 <= k < |chs| => ChapterRecord(Some(chs[k].num), Some(chs[k].title), Some(chs[k].officialQuota)))
  }

  /** One exported question; `chapter` is the chapter's number. */
  function ExportQuestion(t: Tables, q: Question): QuestionRecord {
    QuestionRecord(Some(q.id), Some(q.chapter), Some(q.kind), Some(q.stem), Some(q.note), Some(q.isExcluded),
      Some(ChoiceList(ExportChoices(ChoicesOf(t.choices, q.id)))))
  }

  function ExportRecords(t: Tables, qs: seq<Question>): seq<QuestionRecord> {
    seq(|qs|, k requires 0 <= k < |qs| => ExportQuestion(t, qs[k]))
  }

  /** Exporting one more question appends its record. */
  lemma {:induction false} ExportRecordsSnoc(t: Tables, qs: seq<Question>, q: Question)
    ensures ExportRecords(t, qs + [q]) == ExportRecords(t, qs) + [ExportQuestion(t, q)]
  {
  }

  /** The questions exported: all of them with `--include-excluded`, otherwise the non-excluded ones, in table order. */
  function Included(qs: seq<Question>, includeExcluded: bool): (r: seq<Question>)
    ensures |r| <= |qs|
    ensures forall q :: q in r <==> q in qs && (includeExcluded || !q.isExcluded)
  {
    if qs == [] then []
    else
      Included(qs[..|qs| - 1], includeExcluded)
      + (if includeExcluded || !qs[|qs| - 1].isExcluded then [qs[|qs| - 1]] else [])
  }

  /** A filtered table keeps its ascending keys. */
  lemma {:induction false} IncludedAscending(qs: seq<Question>, includeExcluded: bool)
    requires QuestionIdsAscending(qs)
    ensures QuestionIdsAscending(Included(qs, includeExcluded))
  {
    if qs != [] {
      var init := qs[..|qs| - 1];
      var last := qs[|qs| - 1];
      assert QuestionIdsAscending(init) by {
        forall i, j | 0 <= i < j < |init| ensures init[i].id < init[j].id {
          assert init[i] == qs[i] && init[j] == qs[j];
        }
      }
      IncludedAscending(init, includeExcluded);
      forall p | p in Included(init, includeExcluded) ensures p.id < last.id {
        var k :| 0 <= k < |init| && init[k] == p;
        assert qs[k] == p;
      }
    }
  }

  /** The bundle `export_questions` writes. */
  function ExportBundle(t: Tables, includeExcluded: bool): (b: BundleData)
    ensures b.chapters.Some? && b.questions.Some? && b.meta.Some?
    ensures b.meta.value == Meta(1, |b.chapters.value|, |b.questions.value|, includeExcluded)
  {
    var questions := ExportRecords(t, Included(t.questions, includeExcluded));
    BundleData(Some(Meta(1, |t.chapters|, |questions|, includeExcluded)), Some(ExportChapters(t.chapters)), Some(questions))
  }

  /** `export_questions`: chapters by number, then the questions appended one by one in id order. */
  method Export(t: Tables, includeExcluded: bool) returns (b: BundleData)
    ensures b == ExportBundle(t, includeExcluded)
  {
    var chapters := ExportChapters(t.chapters);
    var questions: seq<QuestionRecord> := [];
    var i := 0;
    while i < |t.questions|
      invariant i <= |t.questions|
      invariant questions == ExportRecords(t, Included(t.questions[..i], includeExcluded))
    {
      var q := t.questions[i];
      assert t.questions[..i + 1][..i] == t.questions[..i];
      ghost var before := Included(t.questions[..i], includeExcluded);
      assert Included(t.questions[..i + 1], includeExcluded)
          == before + (if includeExcluded || !q.isExcluded then [q] else []);
      if includeExcluded || !q.isExcluded {
        ExportRecordsSnoc(t, before, q);
        questions := questions + [ExportQuestion(t, q)];
      } else {
        assert before + [] == before;
      }
      i := i + 1;
    }
    assert t.questions[..i] == t.questions;
    b := BundleData(Some(Meta(1, |chapters|, |questions|, includeExcluded)), Some(chapters), Some(questions));
  }

  /**
   * What the bundle says about valid tables: every chapter by ascending number with its
   * fields; the chosen questions by ascending id with their fields; each question's choices
   * in ascending id as text and correctness.
   */
  lemma {:induction false} ExportDescribes(t: Tables, includeExcluded: bool)
    requires Valid(t)
    ensures var b := ExportBundle(t, includeExcluded);
      var qs := Included(t.questions, includeExcluded);
      && |b.chapters.value| == |t.chapters|
      && (forall k :: 0 <= k < |t.chapters| ==>
            b.chapters.value[k] == ChapterRecord(Some(t.chapters[k].num), Some(t.chapters[k].title), Some(t.chapters[k].officialQuota)))
      && (forall i, j :: 0 <= i < j < |t.chapters| ==> b.chapters.value[i].num.value < b.chapters.value[j].num.value)
      && |b.questions.value| == |qs|
      && (forall k :: 0 <= k < |qs| ==> b.questions.value[k] == ExportQuestion(t, qs[k]))
      && (forall i, j :: 0 <= i < j < |qs| ==> b.questions.value[i].id.value < b.questions.value[j].id.value)
      && (forall q :: q in qs <==> q in t.questions && (includeExcluded || !q.isExcluded))
      && (forall q :: q in qs ==> ChoiceIdsAscending(ChoicesOf(t.choices, q.id)))
  {
    IncludedAscending(t.questions, includeExcluded);
    forall q | q in Included(t.questions, includeExcluded) ensures ChoiceIdsAscending(ChoicesOf(t.choices, q.id)) {
      ChoicesOfAscending(t.choices, q.id);
    }
  }

  // ---------------------------------------------------------------------------
  // Question content
  // ---------------------------------------------------------------------------

  /** What the bundle carries about a question: its chapter number, fields and choices (text, correct). */
  datatype Item = Item(chapter: nat, kind: string, stem: string, note: string, isExcluded: bool, choices: seq<(string, bool)>)

  function ChoiceContents(cs: seq<Choice>): seq<(string, bool)> {
    seq(|cs|, k requires 0 <= k < |cs| => (cs[k].text, cs[k].isCorrect))
  }

  function ItemOf(q: Question, cs: seq<Choice>): Item {
    Item(q.chapter, q.kind, q.stem, q.note, q.isExcluded, ChoiceContents(ChoicesOf(cs, q.id)))
  }

  /** The content of the questions `qs` with their choices from `cs`, in order. */
  function ContentsOf(qs: seq<Question>, cs: seq<Choice>): (r: seq<Item>)
    ensures |r| == |qs| && forall k :: 0 <= k < |qs| ==> r[k] == ItemOf(qs[k], cs)
  {
    if qs == [] then [] else ContentsOf(qs[..|qs| - 1], cs) + [ItemOf(qs[|qs| - 1], cs)]
  }

  /** Every choice object has both keys. */
  predicate ChoicesComplete(items: seq<ChoiceRecord>) {
    forall k :: 0 <= k < |items| ==> items[k].text.Some? && items[k].correct.Some?
  }

  /** A question object an importer can turn into rows: the required keys and a list of complete choices. */
  predicate RecordComplete(r: QuestionRecord) {
    && r.chapter.Some? && r.kind.Some? && r.stem.Some?
    && r.choices.Some? && r.choices.value.ChoiceList?
    && ChoicesComplete(r.choices.value.items)
  }

  function ChoiceItems(items: seq<ChoiceRecord>): seq<(string, bool)>
    requires ChoicesComplete(items)
  {
    seq(|items|, k requires 0 <= k < |items| => (items[k].text.value, items[k].correct.value))
  }

  /** The content an importer gives a question object: `note` defaults to "", `is_excluded` to false. */
  function RecordItem(r: QuestionRecord): Item
    requires RecordComplete(r)
  {
    Item(r.chapter.value, r.kind.value, r.stem.value, r.note.GetOr(""), r.isExcluded.GetOr(false),
      ChoiceItems(r.choices.value.items))
  }

  /** The content the import gives each question object, in order. */
  function RecordItems(rs: seq<QuestionRecord>): (r: seq<Item>)
    requires forall k :: 0 <= k < |rs| ==> RecordComplete(rs[k])
    ensures |r| == |rs|
  {
    seq(|rs|, k requires 0 <= k < |rs| => RecordItem(rs[k]))
  }

  /** The content of a non-empty list of objects: the first object's, then the rest's. */
  lemma {:induction false} RecordItemsCons(rs: seq<QuestionRecord>)
    requires rs != [] && forall k :: 0 <= k < |rs| ==> RecordComplete(rs[k])
    ensures forall k :: 0 <= k < |rs[1..]| ==> RecordComplete(rs[1..][k])
    ensures RecordItems(rs) == [RecordItem(rs[0])] + RecordItems(rs[1..])
  {
    assert forall k :: 0 <= k < |rs[1..]| ==> rs[1..][k] == rs[k + 1];
  }

  /** The content of two lists of objects together. */
  lemma {:induction false} RecordItemsAppend(rs: seq<QuestionRecord>, more: seq<QuestionRecord>)
    requires forall k :: 0 <= k < |rs| ==> RecordComplete(rs[k])
    requires forall k :: 0 <= k < |more| ==> RecordComplete(more[k])
    ensures forall k :: 0 <= k < |rs + more| ==> RecordComplete((rs + more)[k])
    ensures RecordItems(rs + more) == RecordItems(rs) + RecordItems(more)
  {
  }

  /** Reading back exported questions gives the content of the questions exported. */
  lemma {:induction false} ExportedContents(t: Tables, qs: seq<Question>)
    ensures forall k :: 0 <= k < |qs| ==>
      RecordComplete(ExportRecords(t, qs)[k]) && RecordItem(ExportRecords(t, qs)[k]) == ItemOf(qs[k], t.choices)
  {
    forall k | 0 <= k < |qs|
      ensures RecordComplete(ExportRecords(t, qs)[k]) && RecordItem(ExportRecords(t, qs)[k]) == ItemOf(qs[k], t.choices)
    {
      var cs := ChoicesOf(t.choices, qs[k].id);
      assert ChoiceItems(ExportChoices(cs)) == ChoiceContents(cs);
    }
  }

  // ---------------------------------------------------------------------------
  // Row creation shared by the importers
  // ---------------------------------------------------------------------------

  /** Why an import stops; every error leaves the tables as they were (`@transaction.atomic`). */
  datatype ImportError =
    | MalformedBundle
    | KeyMissing(key: string)
    | NotIterable
    | EmptyChoices
    | UnknownChapter(num: nat)
    | DirectoryMissing
    | NoJsonFiles
    | RequiredKeyMissing(file: string, key: string)
    | ChoicesNotList(file: string)

  /** The choice rows created for question `qid` from complete choice objects, keys from `next` on. */
  function NewChoices(next: nat, qid: nat, items: seq<ChoiceRecord>): (r: seq<Choice>)
    requires ChoicesComplete(items)
    ensures |r| == |items|
  {
    seq(|items|, k requires 0 <= k < |items| => Choice(next + k, qid, items[k].text.value, items[k].correct.value))
  }

  /** A list of choice objects is complete exactly when its head and its tail are. */
  lemma {:induction false} ChoicesCompleteCons(items: seq<ChoiceRecord>)
    requires items != []
    ensures ChoicesComplete(items) <==> items[0].text.Some? && items[0].correct.Some? && ChoicesComplete(items[1..])
  {
    assert forall k :: 0 <= k < |items[1..]| ==> items[1..][k] == items[k + 1];
  }

  lemma {:induction false} NewChoicesCons(next: nat, qid: nat, items: seq<ChoiceRecord>)
    requires ChoicesComplete(items) && items != []
    ensures ChoicesComplete(items[1..])
    ensures NewChoices(next, qid, items)
         == [Choice(next, qid, items[0].text.value, items[0].correct.value)] + NewChoices(next + 1, qid, items[1..])
  {
  }

  /**
   * `for c in choices: Choice.objects.create(question=q, text=str(c["text"]), is_correct=bool(c["correct"]))`:
   * a choice object without `text` or `correct` raises a KeyError.
   */
  function InsertChoices(t: Tables, qid: nat, items: seq<ChoiceRecord>): (r: Result<Tables, ImportError>)
    requires Valid(t) && FindQuestion(t.questions, qid).Some?
    ensures r.Ok? <==> ChoicesComplete(items)
    ensures r.Ok? ==>
      && Valid(r.value)
      && r.value == t.(choices := t.choices + NewChoices(t.nextChoiceId, qid, items), nextChoiceId := t.nextChoiceId + |items|)
    decreases |items|
  {
    if items == [] then
      assert t.choices + NewChoices(t.nextChoiceId, qid, items) == t.choices;
      Ok(t)
    else if items[0].text.None? then Err(KeyMissing("text"))
    else if items[0].correct.None? then Err(KeyMissing("correct"))
    else
      var t1 := CreateChoice(t, qid, items[0].text.value, items[0].correct.value);
      var r := InsertChoices(t1, qid, items[1..]);
      ChoicesCompleteCons(items);
      if r.Ok? then
        InsertChoicesStep(t, t1, qid, items);
        r
      else
        r
  }

  /** Creating the first choice and then the rest's choices creates all of them. */
  lemma {:induction false} InsertChoicesStep(t: Tables, t1: Tables, qid: nat, items: seq<ChoiceRecord>)
    requires items != [] && ChoicesComplete(items)
    requires t1 == t.(choices := t.choices + [Choice(t.nextChoiceId, qid, items[0].text.value, items[0].correct.value)],
                      nextChoiceId := t.nextChoiceId + 1)
    ensures ChoicesComplete(items[1..])
    ensures t1.(choices := t1.choices + NewChoices(t1.nextChoiceId, qid, items[1..]), nextChoiceId := t1.nextChoiceId + |items[1..]|)
         == t.(choices := t.choices + NewChoices(t.nextChoiceId, qid, items), nextChoiceId := t.nextChoiceId + |items|)
  {
    var c := Choice(t.nextChoiceId, qid, items[0].text.value, items[0].correct.value);
    NewChoicesCons(t.nextChoiceId, qid, items);
    ConcatAssoc(t.choices, [c], NewChoices(t1.nextChoiceId, qid, items[1..]));
  }

  /** The loop both importers run over a question's choice objects, creating one row per object. */
  method CreateChoices(t: Tables, qid: nat, items: seq<ChoiceRecord>) returns (res: Result<Tables, ImportError>)
    requires Valid(t) && FindQuestion(t.questions, qid).Some?
    ensures res == InsertChoices(t, qid, items)
  {
    var cur := t;
    var j := 0;
    while j < |items|
      invariant j <= |items|
      invariant Valid(cur) && FindQuestion(cur.questions, qid).Some?
      invariant InsertChoices(t, qid, items) == InsertChoices(cur, qid, items[j..])
    {
      assert items[j..][1..] == items[j + 1..];
      if items[j].text.None? { return Err(KeyMissing("text")); }
      if items[j].correct.None? { return Err(KeyMissing("correct")); }
      cur := CreateChoice(cur, qid, items[j].text.value, items[j].correct.value);
      j := j + 1;
    }
    assert items[j..] == [];
    res := Ok(cur);
  }

  /** Choices of another question leave the content of `qs` alone. */
  lemma {:induction false} ContentsUnaffected(qs: seq<Question>, cs: seq<Choice>, block: seq<Choice>)
    requires forall p, k :: p in qs && 0 <= k < |block| ==> block[k].question != p.id
    ensures ContentsOf(qs, cs + block) == ContentsOf(qs, cs)
  {
    var before := ContentsOf(qs, cs);
    var after := ContentsOf(qs, cs + block);
    forall j | 0 <= j < |qs| ensures after[j] == before[j] {
      var id := qs[j].id;
      assert qs[j] in qs;
      assert forall k :: 0 <= k < |block| ==> block[k].question != id;
      ChoicesOfAppend(cs, block, id);
      ChoicesOfOther(block, id);
      assert ChoicesOf(cs, id) + [] == ChoicesOf(cs, id);
    }
    assert |after| == |before|;
  }

  /** A new question's content carries exactly the choices created for it. */
  lemma {:induction false} NewQuestionItem(q: Question, cs: seq<Choice>, block: seq<Choice>)
    requires forall k :: 0 <= k < |cs| ==> cs[k].question != q.id
    requires forall k :: 0 <= k < |block| ==> block[k].question == q.id
    ensures ItemOf(q, cs + block) == Item(q.chapter, q.kind, q.stem, q.note, q.isExcluded, ChoiceContents(block))
  {
    ChoicesOfAppend(cs, block, q.id);
    ChoicesOfOther(cs, q.id);
    ChoicesOfOwn(block, q.id);
    assert [] + block == block;
    assert ChoicesOf(cs + block, q.id) == block;
  }

  /** The rows of `t` plus one new question and its choices: the new question comes last in the content, the rest unchanged. */
  lemma {:induction false} AddQuestionContents(t: Tables, q: Question, block: seq<Choice>)
    requires Valid(t) && q.id == t.nextQuestionId
    requires forall k :: 0 <= k < |block| ==> block[k].question == q.id
    ensures ContentsOf(t.questions + [q], t.choices + block)
         == ContentsOf(t.questions, t.choices) + [Item(q.chapter, q.kind, q.stem, q.note, q.isExcluded, ChoiceContents(block))]
  {
    var cs := t.choices + block;
    assert (t.questions + [q])[..|t.questions|] == t.questions;
    assert ContentsOf(t.questions + [q], cs) == ContentsOf(t.questions, cs) + [ItemOf(q, cs)];
    ContentsUnaffected(t.questions, t.choices, block);
    forall k | 0 <= k < |t.choices| ensures t.choices[k].question != q.id {
      assert t.choices[k] in t.choices;
      var p := FindQuestion(t.questions, t.choices[k].question).value;
      assert p in t.questions;
    }
    NewQuestionItem(q, t.choices, block);
  }
}
