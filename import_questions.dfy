/**
 * `import_questions`: seed chapters 1..19 from the quota table, optionally wipe the question
 * bank, then load every question object of every `*.json` file of a directory. The command
 * runs in one transaction: an `Err` carries no tables, so the caller's tables stand.
 */
module ImportQuestions {
  import opened Wrappers
  import opened Models
  import opened Seqs
  import opened Store
  import opened Selector
  import opened Bundle
  import opened ImportBundle

  /** The count the command's own copy of `CHAPTER_QUOTA` gives chapter `n`. */
  function SeedCount(n: nat): nat {
    match n
    case 1 => 1 case 2 => 2 case 3 => 7 case 4 => 3 case 5 => 2
    case 6 => 4 case 7 => 0 case 8 => 2 case 9 => 5 case 10 => 2
    case 11 => 2 case 12 => 0 case 13 => 2 case 14 => 2 case 15 => 0
    case 16 => 3 case 17 => 2 case 18 => 1 case 19 => 0
    case _ => 0
  }

  /** The command's own copy of the quota table (`CHAPTER_QUOTA`), used to seed chapters. */
  function SeedQuota(): QuotaTable {
    seq(19, i requires 0 <= i < 19 => (i + 1, SeedCount(i + 1)))
  }

  /** The seeding table is the selector's table, so it too covers chapters 1..19 and totals 40. */
  lemma {:induction false} SeedQuotaIsChapterQuota()
    ensures SeedQuota() == ChapterQuota()
    ensures TableTotal(SeedQuota()) == 40
    ensures KeysDistinct(SeedQuota())
    ensures forall n :: QuotaLookup(SeedQuota(), n).Some? <==> 1 <= n <= 19
  {
    forall i | 0 <= i < 19 ensures SeedQuota()[i] == ChapterQuota()[i] {
      assert SeedCount(i + 1) == QuotaCount(i + 1);
    }
    ChapterQuotaTotal();
    ChapterQuotaKeys();
    forall n | 1 <= n <= 19 ensures QuotaLookup(SeedQuota(), n).Some? {
      assert SeedQuota()[n - 1].0 == n;
    }
  }

  /** A lookup in the seeding table finds exactly chapters 1..19, with the selector's quota. */
  lemma {:induction false} SeedQuotaLookup(n: nat)
    ensures KeysDistinct(SeedQuota())
    ensures QuotaLookup(SeedQuota(), n).Some? <==> 1 <= n <= 19
    ensures QuotaLookup(SeedQuota(), n) == QuotaLookup(ChapterQuota(), n)
  {
    SeedQuotaIsChapterQuota();
  }

  /** The chapter `get_or_create` makes for number `n`: title "Chapter <n>", quota from the table or 0. */
  function NewChapter(table: QuotaTable, n: nat): (c: Chapter)
    ensures c.num == n && c.title == "Chapter " + NatToString(n)
    ensures c.officialQuota == if QuotaLookup(table, n).Some? then QuotaLookup(table, n).value else 0
  {
    Chapter(n, "Chapter " + NatToString(n), QuotaLookup(table, n).GetOr(0))
  }

  // ---------------------------------------------------------------------------
  // Seeding
  // ---------------------------------------------------------------------------

  /** `for num, quota in CHAPTER_QUOTA.items(): Chapter.objects.get_or_create(num=num, defaults=...)`. */
  function SeedCreate(chs: seq<Chapter>, table: QuotaTable): (r: seq<Chapter>)
    requires ChaptersSorted(chs)
    ensures ChaptersSorted(r)
    ensures forall n :: FindChapter(chs, n).Some? ==> FindChapter(r, n).Some?
    decreases |table|
  {
    if table == [] then chs
    else SeedCreate(GetOrCreateChapter(chs, Chapter(table[0].0, "Chapter " + NatToString(table[0].0), table[0].1)), table[1..])
  }

  /** `for num, quota in CHAPTER_QUOTA.items(): Chapter.objects.filter(num=num).update(official_quota=quota)`. */
  function SeedQuotas(chs: seq<Chapter>, table: QuotaTable): (r: seq<Chapter>)
    requires ChaptersSorted(chs)
    ensures ChaptersSorted(r)
    ensures forall n :: FindChapter(chs, n).Some? ==> FindChapter(r, n).Some?
    decreases |table|
  {
    if table == [] then chs
    else SeedQuotas(SetOfficialQuota(chs, table[0].0, table[0].1), table[1..])
  }

  /** The first pass adds the chapters of the table that are missing and touches no existing chapter. */
  lemma {:induction false} SeedCreateEffect(chs: seq<Chapter>, table: QuotaTable, n: nat)
    requires ChaptersSorted(chs)
    ensures FindChapter(SeedCreate(chs, table), n)
         == if FindChapter(chs, n).Some? then FindChapter(chs, n)
            else match QuotaLookup(table, n)
                 case Some(q) => Some(Chapter(n, "Chapter " + NatToString(n), q))
                 case None => None
    decreases |table|
  {
    if table != [] {
      var chs' := GetOrCreateChapter(chs, Chapter(table[0].0, "Chapter " + NatToString(table[0].0), table[0].1));
      SeedCreateEffect(chs', table[1..], n);
    }
  }

  /** The second pass sets the table's quota on every chapter it names, and only the quota. */
  lemma {:induction false} SeedQuotasEffect(chs: seq<Chapter>, table: QuotaTable, n: nat)
    requires ChaptersSorted(chs) && KeysDistinct(table)
    ensures FindChapter(SeedQuotas(chs, table), n)
         == match FindChapter(chs, n)
            case None => None
            case Some(c) => Some(match QuotaLookup(table, n)
                                 case Some(q) => c.(officialQuota := q)
                                 case None => c)
    decreases |table|
  {
    if table != [] {
      var rest := table[1..];
      assert KeysDistinct(rest) by {
        assert forall i :: 0 <= i < |rest| ==> rest[i] == table[i + 1];
      }
      if table[0].0 == n {
        assert QuotaLookup(rest, n).None? by {
          assert forall i :: 0 <= i < |rest| ==> rest[i] == table[i + 1];
        }
      }
      SeedQuotasEffect(SetOfficialQuota(chs, table[0].0, table[0].1), rest, n);
    }
  }

  /** Both seeding passes with `CHAPTER_QUOTA`. */
  function Seed(chs: seq<Chapter>): (r: seq<Chapter>)
    requires ChaptersSorted(chs)
    ensures ChaptersSorted(r)
    ensures forall n :: FindChapter(chs, n).Some? ==> FindChapter(r, n).Some?
  {
    SeedQuotas(SeedCreate(chs, SeedQuota()), SeedQuota())
  }

  /** Both passes with any table of distinct keys: each key's chapter exists with the table's quota, titles are kept. */
  lemma {:induction false} SeedPassesEffect(chs: seq<Chapter>, table: QuotaTable, n: nat)
    requires ChaptersSorted(chs) && KeysDistinct(table)
    ensures QuotaLookup(table, n).Some? ==>
      FindChapter(SeedQuotas(SeedCreate(chs, table), table), n)
      == Some(Chapter(n, if FindChapter(chs, n).Some? then FindChapter(chs, n).value.title else "Chapter " + NatToString(n),
                      QuotaLookup(table, n).value))
    ensures QuotaLookup(table, n).None? ==> FindChapter(SeedQuotas(SeedCreate(chs, table), table), n) == FindChapter(chs, n)
  {
    SeedCreateEffect(chs, table, n);
    SeedQuotasEffect(SeedCreate(chs, table), table, n);
  }

  /**
   * After seeding, chapters 1..19 exist with the table's quota; an existing chapter keeps its
   * title and a new one is titled "Chapter <n>"; every other chapter is untouched.
   */
  lemma {:induction false} SeedEffect(chs: seq<Chapter>, n: nat)
    requires ChaptersSorted(chs)
    ensures 1 <= n <= 19 ==>
      && QuotaLookup(ChapterQuota(), n).Some?
      && FindChapter(Seed(chs), n)
      == Some(Chapter(n,
                      if FindChapter(chs, n).Some? then FindChapter(chs, n).value.title else "Chapter " + NatToString(n),
                      QuotaLookup(ChapterQuota(), n).value))
    ensures !(1 <= n <= 19) ==> FindChapter(Seed(chs), n) == FindChapter(chs, n)
  {
    SeedQuotaLookup(n);
    SeedPassesEffect(chs, SeedQuota(), n);
  }

  // ---------------------------------------------------------------------------
  // Question files
  // ---------------------------------------------------------------------------

  /** A parsed JSON file: a single question object or a list of them. */
  datatype JsonContent = OneObject(obj: QuestionRecord) | ObjectList(objs: seq<QuestionRecord>)

  datatype JsonFile = JsonFile(name: string, content: JsonContent)

  /** `_iter_question_objects_from_file`: a list yields its elements in order, anything else itself. */
  function Records(c: JsonContent): (r: seq<QuestionRecord>)
    ensures c.OneObject? ==> |r| == 1 && r[0] == c.obj
    ensures c.ObjectList? ==> |r| == |c.objs| && forall k :: 0 <= k < |r| ==> r[k] == c.objs[k]
  {
    match c
    case OneObject(obj) => [obj]
    case ObjectList(objs) => objs
  }

  /** A question object the command loads: the required keys and a non-empty list of complete choices. */
  predicate Loadable(r: QuestionRecord) {
    RecordComplete(r) && r.choices.value.items != []
  }

  /** The tables after `get_or_create` of chapter `n`. */
  function EnsureChapter(t: Tables, n: nat): (r: Tables)
    requires Valid(t)
    ensures Valid(r) && r == t.(chapters := GetOrCreateChapter(t.chapters, NewChapter(SeedQuota(), n)))
    ensures FindChapter(r.chapters, n).Some?
  {
    WithChapters(t, GetOrCreateChapter(t.chapters, NewChapter(SeedQuota(), n)))
  }

  /** The rows one loadable object adds: its chapter if missing, one question and its choices. */
  function Loaded(t: Tables, r: QuestionRecord): (res: Tables)
    requires Valid(t) && Loadable(r)
  {
    Inserted(EnsureChapter(t, r.chapter.value), r)
  }

  /** The part of one object's load after the required keys are read. */
  function LoadPresent(t: Tables, file: string, r: QuestionRecord): (res: Result<Tables, ImportError>)
    requires Valid(t)
    requires r.chapter.Some? && r.kind.Some? && r.stem.Some? && r.choices.Some?
    ensures res.Ok? <==> Loadable(r)
    ensures res.Ok? ==> Valid(res.value) && res.value == Loaded(t, r)
    ensures !(r.choices.value.ChoiceList? && r.choices.value.items != []) ==> res == Err(ChoicesNotList(file))
  {
    var t1 := EnsureChapter(t, r.chapter.value);
    var t2 := CreateQuestion(t1, r.chapter.value, r.kind.value, r.stem.value, r.note.GetOr(""), r.isExcluded.GetOr(false));
    var q := t2.questions[|t2.questions| - 1];
    FindQuestionOfRow(t2.questions, q);
    if !(r.choices.value.ChoiceList? && r.choices.value.items != []) then Err(ChoicesNotList(file))
    else
      var res := InsertChoices(t2, q.id, r.choices.value.items);
      assert res.Ok? <==> Loadable(r);
      assert res.Ok? ==> res.value == Inserted(t1, r);
      res
  }

  /**
   * One question object of file `file`: the four required keys (a missing one is reported with
   * the file name), `get_or_create` of the chapter, the question, then the check that `choices`
   * is a non-empty list, then one choice per element.
   */
  function LoadRecord(t: Tables, file: string, r: QuestionRecord): (res: Result<Tables, ImportError>)
    requires Valid(t)
    ensures res.Ok? <==> Loadable(r)
    ensures res.Ok? ==> Valid(res.value) && res.value == Loaded(t, r)
    ensures r.chapter.None? ==> res == Err(RequiredKeyMissing(file, "chapter"))
    ensures r.chapter.Some? && r.kind.None? ==> res == Err(RequiredKeyMissing(file, "kind"))
    ensures r.chapter.Some? && r.kind.Some? && r.stem.None? ==> res == Err(RequiredKeyMissing(file, "stem"))
    ensures r.chapter.Some? && r.kind.Some? && r.stem.Some? && r.choices.None? ==> res == Err(RequiredKeyMissing(file, "choices"))
    ensures r.chapter.Some? && r.kind.Some? && r.stem.Some? && r.choices.Some?
            && !(r.choices.value.ChoiceList? && r.choices.value.items != [])
      ==> res == Err(ChoicesNotList(file))
  {
    if r.chapter.None? then Err(RequiredKeyMissing(file, "chapter"))
    else if r.kind.None? then Err(RequiredKeyMissing(file, "kind"))
    else if r.stem.None? then Err(RequiredKeyMissing(file, "stem"))
    else if r.choices.None? then Err(RequiredKeyMissing(file, "choices"))
    else LoadPresent(t, file, r)
  }

  predicate AllLoadable(rs: seq<QuestionRecord>) {
    forall k :: 0 <= k < |rs| ==> Loadable(rs[k])
  }

  /** Two lists of objects are loadable together exactly when each is. */
  lemma {:induction false} AllLoadableAppend(rs: seq<QuestionRecord>, more: seq<QuestionRecord>)
    ensures AllLoadable(rs + more) <==> AllLoadable(rs) && AllLoadable(more)
  {
    assert forall k :: 0 <= k < |rs| ==> (rs + more)[k] == rs[k];
    assert forall k :: 0 <= k < |more| ==> (rs + more)[|rs| + k] == more[k];
  }

  /** The objects of one file, in order, stopping at the first error. */
  function LoadRecords(t: Tables, file: string, rs: seq<QuestionRecord>): (res: Result<Tables, ImportError>)
    requires Valid(t)
    ensures res.Ok? <==> AllLoadable(rs)
    ensures res.Ok? ==> Valid(res.value)
    decreases |rs|
  {
    if rs == [] then Ok(t)
    else
      var rest := rs[1..];
      assert AllLoadable(rs) <==> Loadable(rs[0]) && AllLoadable(rest) by {
        assert forall k :: 0 <= k < |rest| ==> rest[k] == rs[k + 1];
      }
      match LoadRecord(t, file, rs[0])
      case Err(e) => Err(e)
      case Ok(t1) => LoadRecords(t1, file, rest)
  }

  /** The number of objects in each file. */
  function RecordCounts(files: seq<JsonFile>): (r: seq<nat>)
    ensures |r| == |files| && forall i :: 0 <= i < |files| ==> r[i] == |Records(files[i].content)|
  {
    seq(|files|, i requires 0 <= i < |files| => |Records(files[i].content)|)
  }

  /** The first file's count, then the others'. */
  lemma {:induction false} RecordCountsCons(files: seq<JsonFile>)
    requires files != []
    ensures RecordCounts(files) == [|Records(files[0].content)|] + RecordCounts(files[1..])
  {
    var c, c' := RecordCounts(files), RecordCounts(files[1..]);
    forall k | 0 <= k < |c| ensures c[k] == ([|Records(files[0].content)|] + c')[k] {
      if k > 0 {
        assert files[1..][k - 1] == files[k];
      }
    }
  }

  /** All objects of all files, in file order. */
  function AllRecords(files: seq<JsonFile>): seq<QuestionRecord>
    decreases |files|
  {
    if files == [] then [] else Records(files[0].content) + AllRecords(files[1..])
  }

  /** As many objects as all files hold together. */
  lemma {:induction false} AllRecordsLength(files: seq<JsonFile>)
    ensures |AllRecords(files)| == Sum(RecordCounts(files))
    decreases |files|
  {
    if files != [] {
      AllRecordsLength(files[1..]);
      RecordCountsCons(files);
      SumCons(|Records(files[0].content)|, RecordCounts(files[1..]));
    }
  }


  /** The objects of two lists of files together. */
  lemma {:induction false} AllRecordsAppend(a: seq<JsonFile>, b: seq<JsonFile>)
    ensures AllRecords(a + b) == AllRecords(a) + AllRecords(b)
    decreases |a|
  {
    if a == [] {
      assert a + b == b;
      assert AllRecords(a) + AllRecords(b) == AllRecords(b);
    } else {
      var first := Records(a[0].content);
      assert (a + b)[0] == a[0] && (a + b)[1..] == a[1..] + b;
      assert AllRecords(a + b) == first + AllRecords(a[1..] + b);
      AllRecordsAppend(a[1..], b);
      assert AllRecords(a) == first + AllRecords(a[1..]);
      ConcatAssoc(first, AllRecords(a[1..]), AllRecords(b));
    }
  }

  /** File `i`'s objects form one block of `AllRecords`, right after the objects of the files before it. */
  lemma {:induction false} AllRecordsFileByFile(files: seq<JsonFile>, i: nat)
    requires i < |files|
    ensures var before, mine := AllRecords(files[..i]), Records(files[i].content);
      && |before| + |mine| <= |AllRecords(files)|
      && AllRecords(files)[|before|..|before| + |mine|] == mine
  {
    var before, mine, after := AllRecords(files[..i]), Records(files[i].content), AllRecords(files[i + 1..]);
    assert files == files[..i] + files[i..];
    AllRecordsAppend(files[..i], files[i..]);
    assert files[i..][0] == files[i] && files[i..][1..] == files[i + 1..];
    assert AllRecords(files[i..]) == mine + after;
    assert (before + (mine + after))[|before|..|before| + |mine|] == mine;
  }



  /** The files in order, stopping at the first error. */
  function LoadFiles(t: Tables, files: seq<JsonFile>): (res: Result<Tables, ImportError>)
    requires Valid(t)
    ensures res.Ok? <==> AllLoadable(AllRecords(files))
    ensures res.Ok? ==> Valid(res.value)
    decreases |files|
  {
    if files == [] then Ok(t)
    else
      var rs, more := Records(files[0].content), AllRecords(files[1..]);
      AllLoadableAppend(rs, more);
      match LoadRecords(t, files[0].name, rs)
      case Err(e) => Err(e)
      case Ok(t1) => LoadFiles(t1, files[1..])
  }

  /** What a successful run reports: the new tables and the number of questions created. */
  datatype Outcome = Outcome(tables: Tables, created: nat)

  /**
   * `import_questions [--wipe]`: `dirExists` is whether the directory exists and `files` its
   * `*.json` files in sorted order, already parsed.
   */
  function ImportQuestionsSpec(t: Tables, dirExists: bool, files: seq<JsonFile>, wipe: bool): (r: Result<Outcome, ImportError>)
    requires Valid(t)
    ensures !dirExists ==> r == Err(DirectoryMissing)
    ensures dirExists && files == [] ==> r == Err(NoJsonFiles)
    ensures r.Ok? <==> dirExists && files != [] && AllLoadable(AllRecords(files))
    ensures r.Ok? ==> Valid(r.value.tables) && r.value.created == |AllRecords(files)|
  {
    if !dirExists then Err(DirectoryMissing)
    else
      var t1 := WithChapters(t, Seed(t.chapters));
      var t2 := if wipe then DeleteAllQuestions(t1) else t1;
      if files == [] then Err(NoJsonFiles)
      else
        match LoadFiles(t2, files)
        case Err(e) => Err(e)
        case Ok(t3) => Ok(Outcome(t3, |AllRecords(files)|))
  }

  // ---------------------------------------------------------------------------
  // What loading does to the tables
  // ---------------------------------------------------------------------------

  /** The chapter numbers the objects name. */
  function ChapterNums(rs: seq<QuestionRecord>): (r: set<nat>)
    requires forall k :: 0 <= k < |rs| ==> rs[k].chapter.Some?
    ensures forall n :: n in r <==> exists k :: 0 <= k < |rs| && rs[k].chapter == Some(n)
  {
    set k | 0 <= k < |rs| :: rs[k].chapter.value
  }

  /** Existing chapters are kept as they are; a chapter named by an object and missing is created. */
  ghost predicate ChaptersAfterLoad(before: seq<Chapter>, after: seq<Chapter>, rs: seq<QuestionRecord>)
    requires forall k :: 0 <= k < |rs| ==> rs[k].chapter.Some?
  {
    forall n :: FindChapter(after, n)
                == if FindChapter(before, n).Some? then FindChapter(before, n)
                   else if n in ChapterNums(rs) then Some(NewChapter(SeedQuota(), n))
                   else None
  }

  /** One loaded object appends its content after the existing questions. */
  lemma {:induction false} LoadedContents(t: Tables, r: QuestionRecord)
    requires Valid(t) && Loadable(r)
    ensures ContentsOf(Loaded(t, r).questions, Loaded(t, r).choices) == ContentsOf(t.questions, t.choices) + [RecordItem(r)]
  {
    InsertedContents(EnsureChapter(t, r.chapter.value), r);
  }

  /**
   * Loading objects adds one question and `len(choices)` choices per object: the content grows
   * by exactly the objects' content in order, and the chapters change only by the creation of
   * missing ones.
   */
  lemma {:induction false} LoadRecordsEffect(t: Tables, file: string, rs: seq<QuestionRecord>)
    requires Valid(t) && AllLoadable(rs)
    ensures var t' := LoadRecords(t, file, rs).value;
      && ContentsOf(t'.questions, t'.choices) == ContentsOf(t.questions, t.choices) + RecordItems(rs)
      && ChaptersAfterLoad(t.chapters, t'.chapters, rs)
    decreases |rs|
  {
    if rs == [] {
      assert RecordItems(rs) == [];
    } else {
      var rest := rs[1..];
      assert AllLoadable(rest) by {
        assert forall k :: 0 <= k < |rest| ==> rest[k] == rs[k + 1];
      }
      var t1 := Loaded(t, rs[0]);
      assert LoadRecord(t, file, rs[0]) == Ok(t1);
      var final := LoadRecords(t1, file, rest).value;
      assert LoadRecords(t, file, rs).value == final;
      LoadedContents(t, rs[0]);
      LoadRecordsEffect(t1, file, rest);
      RecordItemsCons(rs);
      var c0, head, tail := ContentsOf(t.questions, t.choices), [RecordItem(rs[0])], RecordItems(rest);
      assert ContentsOf(final.questions, final.choices) == (c0 + head) + tail;
      ConcatAssoc(c0, head, tail);
      ChaptersStep(t.chapters, t1.chapters, final.chapters, rs);
    }
  }

  /** Chaining the chapter effect of the first object with that of the rest. */
  lemma {:induction false} ChaptersStep(before: seq<Chapter>, mid: seq<Chapter>, after: seq<Chapter>, rs: seq<QuestionRecord>)
    requires ChaptersSorted(before) && rs != [] && forall k :: 0 <= k < |rs| ==> rs[k].chapter.Some?
    requires mid == GetOrCreateChapter(before, NewChapter(SeedQuota(), rs[0].chapter.value))
    requires forall k :: 0 <= k < |rs[1..]| ==> rs[1..][k].chapter.Some?
    requires ChaptersAfterLoad(mid, after, rs[1..])
    ensures ChaptersAfterLoad(before, after, rs)
  {
    var rest := rs[1..];
    assert ChapterNums(rs) == {rs[0].chapter.value} + ChapterNums(rest) by {
      assert forall k :: 0 <= k < |rest| ==> rest[k] == rs[k + 1];
      forall n | n in ChapterNums(rs) ensures n == rs[0].chapter.value || n in ChapterNums(rest) {
        var k :| 0 <= k < |rs| && rs[k].chapter == Some(n);
        if k > 0 {
          assert rest[k - 1].chapter == Some(n);
        }
      }
    }
  }

  /** A successful load of several files: the first file's objects, then the other files from the tables they leave. */
  lemma {:induction false} LoadFilesCons(t: Tables, files: seq<JsonFile>)
    requires Valid(t) && files != [] && AllLoadable(AllRecords(files))
    ensures var rs := Records(files[0].content);
      && AllRecords(files) == rs + AllRecords(files[1..])
      && AllLoadable(rs) && AllLoadable(AllRecords(files[1..]))
      && LoadRecords(t, files[0].name, rs).Ok?
      && LoadFiles(t, files) == LoadFiles(LoadRecords(t, files[0].name, rs).value, files[1..])
  {
    var rs, more := Records(files[0].content), AllRecords(files[1..]);
    assert AllRecords(files) == rs + more;
    AllLoadableAppend(rs, more);
  }

  /** The effect of loading `rs + more` is the effect of loading the same objects under another name. */
  lemma {:induction false} EffectOfJoined(t: Tables, t2: Tables, all: seq<QuestionRecord>, rs: seq<QuestionRecord>, more: seq<QuestionRecord>)
    requires all == rs + more && AllLoadable(all)
    requires ContentsOf(t2.questions, t2.choices) == ContentsOf(t.questions, t.choices) + RecordItems(rs + more)
    requires ChaptersAfterLoad(t.chapters, t2.chapters, rs + more)
    ensures ContentsOf(t2.questions, t2.choices) == ContentsOf(t.questions, t.choices) + RecordItems(all)
    ensures ChaptersAfterLoad(t.chapters, t2.chapters, all)
  {
  }

  /** Loading whole files: the same effect over all their objects in order. */
  lemma {:induction false} LoadFilesEffect(t: Tables, files: seq<JsonFile>)
    requires Valid(t) && AllLoadable(AllRecords(files))
    ensures var t' := LoadFiles(t, files).value;
      && ContentsOf(t'.questions, t'.choices) == ContentsOf(t.questions, t.choices) + RecordItems(AllRecords(files))
      && ChaptersAfterLoad(t.chapters, t'.chapters, AllRecords(files))
    decreases |files|
  {
    if files == [] {
      assert RecordItems(AllRecords(files)) == [];
    } else {
      var rs, more := Records(files[0].content), AllRecords(files[1..]);
      LoadFilesCons(t, files);
      var t1 := LoadRecords(t, files[0].name, rs).value;
      LoadRecordsEffect(t, files[0].name, rs);
      LoadFilesEffect(t1, files[1..]);
      var t2 := LoadFiles(t1, files[1..]).value;
      assert LoadFiles(t, files).value == t2;
      AppendEffects(t, t1, t2, rs, more);
      EffectOfJoined(t, t2, AllRecords(files), rs, more);
    }
  }

  /** The chapter numbers of two lists of objects together. */
  lemma {:induction false} ChapterNumsAppend(rs: seq<QuestionRecord>, more: seq<QuestionRecord>)
    requires forall k :: 0 <= k < |rs| ==> rs[k].chapter.Some?
    requires forall k :: 0 <= k < |more| ==> more[k].chapter.Some?
    ensures forall k :: 0 <= k < |rs + more| ==> (rs + more)[k].chapter.Some?
    ensures ChapterNums(rs + more) == ChapterNums(rs) + ChapterNums(more)
  {
    forall n | n in ChapterNums(rs + more) ensures n in ChapterNums(rs) || n in ChapterNums(more) {
      var k :| 0 <= k < |rs + more| && (rs + more)[k].chapter == Some(n);
      if k >= |rs| {
        assert more[k - |rs|].chapter == Some(n);
      }
    }
    forall n | n in ChapterNums(more) ensures n in ChapterNums(rs + more) {
      var k :| 0 <= k < |more| && more[k].chapter == Some(n);
      assert (rs + more)[|rs| + k].chapter == Some(n);
    }
    forall n | n in ChapterNums(rs) ensures n in ChapterNums(rs + more) {
      var k :| 0 <= k < |rs| && rs[k].chapter == Some(n);
      assert (rs + more)[k].chapter == Some(n);
    }
  }

  /** Two consecutive loads compose: contents concatenate and chapter creations accumulate. */
  lemma {:induction false} AppendEffects(t: Tables, t1: Tables, t2: Tables, rs: seq<QuestionRecord>, more: seq<QuestionRecord>)
    requires AllLoadable(rs) && AllLoadable(more) && AllLoadable(rs + more)
    requires ContentsOf(t1.questions, t1.choices) == ContentsOf(t.questions, t.choices) + RecordItems(rs)
    requires ChaptersAfterLoad(t.chapters, t1.chapters, rs)
    requires ContentsOf(t2.questions, t2.choices) == ContentsOf(t1.questions, t1.choices) + RecordItems(more)
    requires ChaptersAfterLoad(t1.chapters, t2.chapters, more)
    ensures ContentsOf(t2.questions, t2.choices) == ContentsOf(t.questions, t.choices) + RecordItems(rs + more)
    ensures ChaptersAfterLoad(t.chapters, t2.chapters, rs + more)
  {
    RecordItemsAppend(rs, more);
    ConcatAssoc(ContentsOf(t.questions, t.choices), RecordItems(rs), RecordItems(more));
    ChapterNumsAppend(rs, more);
  }

  /**
   * A successful run: the chapters are the seeded ones plus any chapter an object names that was
   * still missing, and the question content is the old content (none with `--wipe`) followed by
   * the content of every object of every file, in order.
   */
  lemma {:induction false} ImportQuestionsEffect(t: Tables, dirExists: bool, files: seq<JsonFile>, wipe: bool)
    requires Valid(t)
    ensures var r := ImportQuestionsSpec(t, dirExists, files, wipe);
      r.Ok? ==>
        && ChaptersAfterLoad(Seed(t.chapters), r.value.tables.chapters, AllRecords(files))
        && ContentsOf(r.value.tables.questions, r.value.tables.choices)
           == (if wipe then [] else ContentsOf(t.questions, t.choices)) + RecordItems(AllRecords(files))
  {
    var r := ImportQuestionsSpec(t, dirExists, files, wipe);
    if r.Ok? {
      var t1 := WithChapters(t, Seed(t.chapters));
      var t2 := if wipe then DeleteAllQuestions(t1) else t1;
      LoadFilesEffect(t2, files);
      if wipe {
        assert ContentsOf(t2.questions, t2.choices) == [];
      }
    }
  }

  // ---------------------------------------------------------------------------
  // The command as it runs
  // ---------------------------------------------------------------------------

  /** One object: the key checks, `get_or_create`, `Question.objects.create`, then one choice per element. */
  method LoadOne(t: Tables, file: string, r: QuestionRecord) returns (res: Result<Tables, ImportError>)
    requires Valid(t)
    ensures res == LoadRecord(t, file, r)
  {
    if r.chapter.None? { return Err(RequiredKeyMissing(file, "chapter")); }
    if r.kind.None? { return Err(RequiredKeyMissing(file, "kind")); }
    if r.stem.None? { return Err(RequiredKeyMissing(file, "stem")); }
    if r.choices.None? { return Err(RequiredKeyMissing(file, "choices")); }
    var t1 := EnsureChapter(t, r.chapter.value);
    var t2 := CreateQuestion(t1, r.chapter.value, r.kind.value, r.stem.value, r.note.GetOr(""), r.isExcluded.GetOr(false));
    var qid := t1.nextQuestionId;
    FindQuestionOfRow(t2.questions, t2.questions[|t2.questions| - 1]);
    if !(r.choices.value.ChoiceList? && r.choices.value.items != []) { return Err(ChoicesNotList(file)); }
    var items := r.choices.value.items;
    res := CreateChoices(t2, qid, items);
  }

  /** The two seeding loops over a quota table (`CHAPTER_QUOTA.items()`). */
  method SeedChapters(chs0: seq<Chapter>, table: QuotaTable) returns (chs: seq<Chapter>)
    requires ChaptersSorted(chs0)
    ensures chs == SeedQuotas(SeedCreate(chs0, table), table)
  {
    chs := chs0;
    var i := 0;
    while i < |table|
      invariant i <= |table| && ChaptersSorted(chs)
      invariant SeedCreate(chs0, table) == SeedCreate(chs, table[i..])
    {
      var (num, quota) := table[i];
      assert table[i..][1..] == table[i + 1..];
      chs := GetOrCreateChapter(chs, Chapter(num, "Chapter " + NatToString(num), quota));
      i := i + 1;
    }
    assert table[i..] == [];
    ghost var created := chs;
    i := 0;
    while i < |table|
      invariant i <= |table| && ChaptersSorted(chs)
      invariant SeedQuotas(created, table) == SeedQuotas(chs, table[i..])
    {
      var (num, quota) := table[i];
      assert table[i..][1..] == table[i + 1..];
      chs := SetOfficialQuota(chs, num, quota);
      i := i + 1;
    }
    assert table[i..] == [];
  }

  /** The objects of one file, one `LoadOne` each. */
  method LoadFile(t: Tables, f: JsonFile) returns (res: Result<Tables, ImportError>)
    requires Valid(t)
    ensures res == LoadRecords(t, f.name, Records(f.content))
  {
    var rs := Records(f.content);
    var tt := t;
    var k := 0;
    while k < |rs|
      invariant k <= |rs|
      invariant Valid(tt)
      invariant LoadRecords(t, f.name, rs) == LoadRecords(tt, f.name, rs[k..])
    {
      assert rs[k..][1..] == rs[k + 1..];
      var one := LoadOne(tt, f.name, rs[k]);
      if one.Err? { return Err(one.error); }
      tt := one.value;
      k := k + 1;
    }
    assert rs[k..] == [];
    res := Ok(tt);
  }

  /** `for f in files: for obj in ...`, counting the objects loaded. */
  method LoadAll(t: Tables, files: seq<JsonFile>) returns (res: Result<Tables, ImportError>, count: nat)
    requires Valid(t)
    ensures res == LoadFiles(t, files)
    ensures res.Ok? ==> count == |AllRecords(files)|
  {
    var tt := t;
    count := 0;
    var f := 0;
    while f < |files|
      invariant f <= |files|
      invariant Valid(tt)
      invariant LoadFiles(t, files) == LoadFiles(tt, files[f..])
      invariant count + |AllRecords(files[f..])| == |AllRecords(files)|
    {
      assert files[f..][1..] == files[f + 1..];
      var one := LoadFile(tt, files[f]);
      if one.Err? { return Err(one.error), count; }
      tt := one.value;
      count := count + |Records(files[f].content)|;
      f := f + 1;
    }
    assert files[f..] == [];
    res := Ok(tt);
  }

  /** `import_questions.Command.handle`. */
  method Import(t: Tables, dirExists: bool, files: seq<JsonFile>, wipe: bool) returns (r: Result<Outcome, ImportError>)
    requires Valid(t)
    ensures r == ImportQuestionsSpec(t, dirExists, files, wipe)
  {
    if !dirExists { return Err(DirectoryMissing); }
    var chs := SeedChapters(t.chapters, SeedQuota());
    var tt := WithChapters(t, chs);
    if wipe {
      tt := DeleteAllQuestions(tt);
    }
    if files == [] { return Err(NoJsonFiles); }
    var res, count := LoadAll(tt, files);
    if res.Err? { return Err(res.error); }
    r := Ok(Outcome(res.value, count));
  }
}
