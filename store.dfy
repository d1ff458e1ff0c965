/**
 * The question bank's tables (Chapter, Question, Choice) as an in-memory value, with the
 * queries the engine runs against them and the row writes the management commands perform.
 */
module Store {
  import opened Wrappers
  import opened Models
  import opened Seqs

  /**
   * The three tables plus the next primary keys the database will hand out.
   * Chapters are kept in ascending `num` (their unique key); questions and choices in
   * ascending primary key, which is also their creation order.
   */
  datatype Tables = Tables(
    chapters: seq<Chapter>,
    questions: seq<Question>,
    choices: seq<Choice>,
    nextQuestionId: nat,
    nextChoiceId: nat)

  predicate ChaptersSorted(chs: seq<Chapter>) {
    forall i, j :: 0 <= i < j < |chs| ==> chs[i].num < chs[j].num
  }

  predicate QuestionIdsAscending(qs: seq<Question>) {
    forall i, j :: 0 <= i < j < |qs| ==> qs[i].id < qs[j].id
  }

  predicate ChoiceIdsAscending(cs: seq<Choice>) {
    forall i, j :: 0 <= i < j < |cs| ==> cs[i].id < cs[j].id
  }

  /** The chapter whose number is `num`, if any (`Chapter.objects.filter(num=num).first()`). */
  function FindChapter(chs: seq<Chapter>, num: nat): (r: Option<Chapter>)
    ensures r.Some? ==> r.value in chs && r.value.num == num
    ensures r.None? ==> forall c :: c in chs ==> c.num != num
  {
    if chs == [] then None
    else if chs[0].num == num then Some(chs[0])
    else FindChapter(chs[1..], num)
  }

  /** The question whose primary key is `id`, if any. */
  function FindQuestion(qs: seq<Question>, id: nat): (r: Option<Question>)
    ensures r.Some? ==> r.value in qs && r.value.id == id
    ensures r.None? ==> forall q :: q in qs ==> q.id != id
  {
    if qs == [] then None
    else if qs[0].id == id then Some(qs[0])
    else FindQuestion(qs[1..], id)
  }

  /** In a table with unique keys, every row is found by its own key. */
  lemma {:induction false} FindQuestionOfRow(qs: seq<Question>, q: Question)
    requires QuestionIdsAscending(qs) && q in qs
    ensures FindQuestion(qs, q.id) == Some(q)
  {
    if qs[0] != q {
      assert q in qs[1..];
      assert qs[0].id < q.id by {
        var j :| 0 <= j < |qs| && qs[j] == q;
      }
      FindQuestionOfRow(qs[1..], q);
    }
  }

  /** The choices of question `qid`, in ascending primary key (`question.choices.all()`). */
  function ChoicesOf(cs: seq<Choice>, qid: nat): (r: seq<Choice>)
    ensures forall c :: c in r <==> c in cs && c.question == qid
  {
    if cs == [] then []
    else (if cs[0].question == qid then [cs[0]] else []) + ChoicesOf(cs[1..], qid)
  }

  /** The choice with primary key `cid` belonging to question `qid` (`Choice.objects.get(pk=cid, question=q)`). */
  function FindChoiceOf(cs: seq<Choice>, cid: nat, qid: nat): (r: Option<Choice>)
    ensures r.Some? ==> r.value in cs && r.value.id == cid && r.value.question == qid
    ensures r.None? ==> forall c :: c in cs ==> !(c.id == cid && c.question == qid)
  {
    if cs == [] then None
    else if cs[0].id == cid && cs[0].question == qid then Some(cs[0])
    else FindChoiceOf(cs[1..], cid, qid)
  }

  /** `ChoicesOf` distributes over concatenation. */
  lemma {:induction false} ChoicesOfAppend(a: seq<Choice>, b: seq<Choice>, qid: nat)
    ensures ChoicesOf(a + b, qid) == ChoicesOf(a, qid) + ChoicesOf(b, qid)
  {
    if a == [] {
      assert a + b == b;
    } else {
      assert (a + b)[0] == a[0];
      assert (a + b)[1..] == a[1..] + b;
      ChoicesOfAppend(a[1..], b, qid);
    }
  }

  /** Choices that all belong to question `qid` are all of its choices among them, in order. */
  lemma {:induction false} ChoicesOfOwn(cs: seq<Choice>, qid: nat)
    requires forall k :: 0 <= k < |cs| ==> cs[k].question == qid
    ensures ChoicesOf(cs, qid) == cs
  {
    if cs != [] {
      ChoicesOfOwn(cs[1..], qid);
    }
  }

  /** Choices none of which belongs to question `qid` contribute nothing to it. */
  lemma {:induction false} ChoicesOfOther(cs: seq<Choice>, qid: nat)
    requires forall k :: 0 <= k < |cs| ==> cs[k].question != qid
    ensures ChoicesOf(cs, qid) == []
  {
    if cs != [] {
      ChoicesOfOther(cs[1..], qid);
    }
  }

  /** The choices of one question keep the table's ascending primary-key order. */
  lemma {:induction false} ChoicesOfAscending(cs: seq<Choice>, qid: nat)
    requires ChoiceIdsAscending(cs)
    ensures ChoiceIdsAscending(ChoicesOf(cs, qid))
  {
    if cs != [] {
      assert ChoiceIdsAscending(cs[1..]);
      ChoicesOfAscending(cs[1..], qid);
      var rest := ChoicesOf(cs[1..], qid);
      if cs[0].question == qid {
        forall c | c in rest ensures cs[0].id < c.id {
          var j :| 0 <= j < |cs[1..]| && cs[1..][j] == c;
          assert cs[j + 1] == c;
        }
        ChoiceConsAscending(cs[0], rest);
      }
    }
  }

  /** A choice whose key is below every key of an ascending table can go in front of it. */
  lemma {:induction false} ChoiceConsAscending(c: Choice, cs: seq<Choice>)
    requires ChoiceIdsAscending(cs) && forall d :: d in cs ==> c.id < d.id
    ensures ChoiceIdsAscending([c] + cs)
  {
    var r := [c] + cs;
    forall i, j | 0 <= i < j < |r| ensures r[i].id < r[j].id {
      assert r[j] == cs[j - 1];
      if i > 0 { assert r[i] == cs[i - 1]; }
    }
  }

  /** With unique choice keys, every choice is what a lookup of its own key and question returns. */
  lemma {:induction false} FindChoiceOfRow(cs: seq<Choice>, c: Choice)
    requires ChoiceIdsAscending(cs) && c in cs
    ensures FindChoiceOf(cs, c.id, c.question) == Some(c)
  {
    if cs[0] != c {
      assert c in cs[1..];
      assert cs[0].id < c.id by {
        var j :| 0 <= j < |cs| && cs[j] == c;
      }
      FindChoiceOfRow(cs[1..], c);
    }
  }

  /** The question `q` qualifies for sampling from chapter `ch`. */
  predicate EligibleIn(q: Question, ch: nat) {
    q.chapter == ch && !q.isExcluded
  }

  /** Ids of the questions of chapter `ch` that are not excluded, in table order. */
  function EligibleIds(qs: seq<Question>, ch: nat): (r: seq<nat>)
    ensures |r| <= |qs|
    ensures forall id :: id in r <==> exists q :: q in qs && q.id == id && EligibleIn(q, ch)
  {
    if qs == [] then []
    else if EligibleIn(qs[0], ch) then [qs[0].id] + EligibleIds(qs[1..], ch)
    else EligibleIds(qs[1..], ch)
  }

  /** Every eligible id looks up to a non-excluded question of that chapter. */
  lemma {:induction false} EligibleIdsFound(qs: seq<Question>, ch: nat, id: nat)
    requires QuestionIdsAscending(qs) && id in EligibleIds(qs, ch)
    ensures FindQuestion(qs, id).Some? && EligibleIn(FindQuestion(qs, id).value, ch)
  {
    var q :| q in qs && q.id == id && EligibleIn(q, ch);
    FindQuestionOfRow(qs, q);
  }

  /** Unique question keys give unique eligible ids. */
  lemma {:induction false} EligibleIdsNoDuplicates(qs: seq<Question>, ch: nat)
    requires QuestionIdsAscending(qs)
    ensures NoDuplicates(EligibleIds(qs, ch))
  {
    if qs != [] {
      var rest := EligibleIds(qs[1..], ch);
      EligibleIdsNoDuplicates(qs[1..], ch);
      if EligibleIn(qs[0], ch) {
        forall id | id in rest ensures qs[0].id != id {
          var q :| q in qs[1..] && q.id == id && EligibleIn(q, ch);
          var j :| 0 <= j < |qs[1..]| && qs[1..][j] == q;
          assert qs[j + 1] == q;
        }
        NoDuplicatesConcat([qs[0].id], rest);
      }
    }
  }

  /** Number of questions of chapter `ch` available for sampling. */
  function Stock(t: Tables, ch: nat): nat
  {
    |EligibleIds(t.questions, ch)|
  }

  /**
   * The integrity the database maintains: unique, ordered keys below the next key to be
   * issued, and every question's chapter and every choice's question present.
   */
  predicate Valid(t: Tables) {
    && ChaptersSorted(t.chapters)
    && QuestionIdsAscending(t.questions)
    && ChoiceIdsAscending(t.choices)
    && (forall q :: q in t.questions ==> q.id < t.nextQuestionId && FindChapter(t.chapters, q.chapter).Some?)
    && (forall c :: c in t.choices ==> c.id < t.nextChoiceId && FindQuestion(t.questions, c.question).Some?)
  }

  // ---------------------------------------------------------------------------
  // Row writes.

  /** `Chapter.objects.update_or_create(num=c.num, defaults=...)`: replace the chapter with that number or add it. */
  function UpsertChapter(chs: seq<Chapter>, c: Chapter): (r: seq<Chapter>)
    requires ChaptersSorted(chs)
    ensures ChaptersSorted(r)
    ensures FindChapter(r, c.num) == Some(c)
    ensures forall n :: n != c.num ==> FindChapter(r, n) == FindChapter(chs, n)
    ensures forall x :: x in r ==> x == c || x in chs
  {
    if chs == [] then [c]
    else if chs[0].num == c.num then
      ChapterConsSorted(c, chs[1..]);
      assert ([c] + chs[1..])[1..] == chs[1..];
      [c] + chs[1..]
    else if c.num < chs[0].num then
      ChapterConsSorted(c, chs);
      assert ([c] + chs)[1..] == chs;
      [c] + chs
    else
      var rest := UpsertChapter(chs[1..], c);
      ChapterConsSorted(chs[0], rest);
      assert ([chs[0]] + rest)[1..] == rest;
      [chs[0]] + rest
  }

  /** A chapter numbered below every chapter of a sorted list can go in front of it. */
  lemma {:induction false} ChapterConsSorted(c: Chapter, chs: seq<Chapter>)
    requires ChaptersSorted(chs) && forall x :: x in chs ==> c.num < x.num
    ensures ChaptersSorted([c] + chs)
  {
    var r := [c] + chs;
    forall i, j | 0 <= i < j < |r| ensures r[i].num < r[j].num {
      assert r[j] == chs[j - 1];
      if i > 0 { assert r[i] == chs[i - 1]; }
    }
  }

  /** `Chapter.objects.get_or_create(num=num, defaults=...)`: add the chapter only when its number is absent. */
  function GetOrCreateChapter(chs: seq<Chapter>, c: Chapter): (r: seq<Chapter>)
    requires ChaptersSorted(chs)
    ensures ChaptersSorted(r)
    ensures FindChapter(r, c.num) == if FindChapter(chs, c.num).Some? then FindChapter(chs, c.num) else Some(c)
    ensures forall n :: n != c.num ==> FindChapter(r, n) == FindChapter(chs, n)
  {
    if FindChapter(chs, c.num).Some? then chs else UpsertChapter(chs, c)
  }

  /** `Chapter.objects.filter(num=num).update(official_quota=quota)`: no-op when the chapter is absent. */
  function SetOfficialQuota(chs: seq<Chapter>, num: nat, quota: nat): (r: seq<Chapter>)
    requires ChaptersSorted(chs)
    ensures ChaptersSorted(r)
    ensures FindChapter(r, num) == match FindChapter(chs, num)
                                   case Some(c) => Some(c.(officialQuota := quota))
                                   case None => None
    ensures forall n :: n != num ==> FindChapter(r, n) == FindChapter(chs, n)
  {
    match FindChapter(chs, num)
    case Some(c) => UpsertChapter(chs, c.(officialQuota := quota))
    case None => chs
  }

  /** `Question.objects.create(...)`: appends a row under the next primary key. */
  function CreateQuestion(t: Tables, chapter: nat, kind: string, stem: string, note: string, isExcluded: bool): (r: Tables)
    requires Valid(t) && FindChapter(t.chapters, chapter).Some?
    ensures Valid(r)
    ensures r == t.(questions := t.questions + [Question(t.nextQuestionId, chapter, kind, stem, note, isExcluded)],
                    nextQuestionId := t.nextQuestionId + 1)
  {
    var q := Question(t.nextQuestionId, chapter, kind, stem, note, isExcluded);
    var r := t.(questions := t.questions + [q], nextQuestionId := t.nextQuestionId + 1);
    assert forall c :: c in t.choices ==> FindQuestion(r.questions, c.question).Some? by {
      forall c | c in t.choices ensures FindQuestion(r.questions, c.question).Some? {
        var p := FindQuestion(t.questions, c.question).value;
        FindQuestionOfRow(r.questions, p);
      }
    }
    r
  }

  /** `Choice.objects.create(question=..., ...)`: appends a row under the next primary key. */
  function CreateChoice(t: Tables, question: nat, text: string, isCorrect: bool): (r: Tables)
    requires Valid(t) && FindQuestion(t.questions, question).Some?
    ensures Valid(r)
    ensures r == t.(choices := t.choices + [Choice(t.nextChoiceId, question, text, isCorrect)],
                    nextChoiceId := t.nextChoiceId + 1)
  {
    t.(choices := t.choices + [Choice(t.nextChoiceId, question, text, isCorrect)], nextChoiceId := t.nextChoiceId + 1)
  }

  /** The tables with a new chapter list that still holds every chapter number present before. */
  function WithChapters(t: Tables, chs: seq<Chapter>): (r: Tables)
    requires Valid(t) && ChaptersSorted(chs)
    requires forall n :: FindChapter(t.chapters, n).Some? ==> FindChapter(chs, n).Some?
    ensures Valid(r) && r == t.(chapters := chs)
  {
    t.(chapters := chs)
  }

  /** `Choice.objects.all().delete(); Question.objects.all().delete()`: chapters and key counters stay. */
  function DeleteAllQuestions(t: Tables): (r: Tables)
    requires Valid(t)
    ensures Valid(r)
    ensures r.chapters == t.chapters && r.questions == [] && r.choices == []
    ensures r.nextQuestionId == t.nextQuestionId && r.nextChoiceId == t.nextChoiceId
  {
    t.(questions := [], choices := [])
  }

  /** Adding or replacing a chapter keeps every chapter number present, so the tables stay valid. */
  lemma {:induction false} UpsertKeepsValid(t: Tables, c: Chapter)
    requires Valid(t)
    ensures Valid(t.(chapters := UpsertChapter(t.chapters, c)))
  {
    var chs := UpsertChapter(t.chapters, c);
    forall q | q in t.questions ensures FindChapter(chs, q.chapter).Some? {
    }
  }
}
