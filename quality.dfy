/**
 * The quality gate: which chapters hold fewer sampleable questions than their quota,
 * and the total length of an official mock exam.
 */
module Quality {
  import opened Wrappers
  import opened Models
  import opened Store
  import opened Selector

  /** One shortfall record: `{"ch", "title", "quota", "stock", "lack"}`. */
  datatype Deficit = Deficit(ch: nat, title: string, quota: nat, stock: nat, lack: nat)

  /**
   * `CHAPTER_QUOTA.get(num, official_quota or 0)`: the table decides whenever it lists the
   * chapter, even with a zero count; the chapter's own quota is used only for other chapters.
   */
  function EffectiveQuota(c: Chapter): (r: nat)
    ensures 1 <= c.num <= 19 ==> r == ChapterQuota()[c.num - 1].1
    ensures !(1 <= c.num <= 19) ==> r == c.officialQuota
  {
    ChapterQuotaKeys();
    if 1 <= c.num <= 19 then
      QuotaLookupEntry(ChapterQuota(), c.num - 1);
      QuotaLookup(ChapterQuota(), c.num).GetOr(c.officialQuota)
    else
      QuotaLookup(ChapterQuota(), c.num).GetOr(c.officialQuota)
  }

  /** A table entry of 0 overrides a positive quota stored on the chapter. */
  lemma {:induction false} ZeroTableEntryOverrides(title: string, official: nat)
    ensures EffectiveQuota(Chapter(7, title, official)) == 0
    ensures EffectiveQuota(Chapter(12, title, official)) == 0
    ensures EffectiveQuota(Chapter(15, title, official)) == 0
    ensures EffectiveQuota(Chapter(19, title, official)) == 0
  {
  }

  /** The chapter is reported: it has a positive quota and fewer sampleable questions. */
  predicate IsShort(t: Tables, c: Chapter) {
    EffectiveQuota(c) > 0 && Stock(t, c.num) < EffectiveQuota(c)
  }

  /** The record reported for a short chapter. */
  function DeficitOf(t: Tables, c: Chapter): Deficit
    requires IsShort(t, c)
  {
    var quota := EffectiveQuota(c);
    var stock := Stock(t, c.num);
    Deficit(c.num, c.title, quota, stock, quota - stock)
  }

  /** The records for the short chapters among `chs`, in the order of `chs`. */
  function DeficitsOf(t: Tables, chs: seq<Chapter>): seq<Deficit> {
    if chs == [] then []
    else
      var last := chs[|chs| - 1];
      DeficitsOf(t, chs[..|chs| - 1]) + (if IsShort(t, last) then [DeficitOf(t, last)] else [])
  }

  /**
   * `quota_deficits`: walks the chapters in ascending number and appends a record for each
   * short one. It only reads the tables, so equal tables give equal answers.
   */
  method QuotaDeficits(t: Tables) returns (deficits: seq<Deficit>)
    requires Valid(t)
    ensures deficits == DeficitsOf(t, t.chapters)
  {
    deficits := [];
    var i := 0;
    while i < |t.chapters|
      invariant 0 <= i <= |t.chapters|
      invariant deficits == DeficitsOf(t, t.chapters[..i])
    {
      var ch := t.chapters[i];
      var quota := QuotaLookup(ChapterQuota(), ch.num).GetOr(ch.officialQuota);
      var stock := Stock(t, ch.num);
      if quota != 0 && stock < quota {
        deficits := deficits + [Deficit(ch.num, ch.title, quota, stock, quota - stock)];
      }
      assert t.chapters[..i + 1][..i] == t.chapters[..i];
      i := i + 1;
    }
    assert t.chapters[..i] == t.chapters;
  }

  /**
   * Every record describes a short chapter of `chs` faithfully: its quota, its stock of
   * non-excluded questions, and a lack of quota minus stock, at least 1.
   */
  lemma {:induction false} DeficitsSound(t: Tables, chs: seq<Chapter>, d: Deficit)
    requires d in DeficitsOf(t, chs)
    ensures exists c :: c in chs && c.num == d.ch && c.title == d.title && IsShort(t, c)
    ensures d.quota > 0 && d.stock < d.quota && d.lack == d.quota - d.stock && d.lack >= 1
    ensures exists c :: c in chs && c.num == d.ch && d.quota == EffectiveQuota(c) && d.stock == Stock(t, c.num)
  {
    var init := chs[..|chs| - 1];
    var last := chs[|chs| - 1];
    if d in DeficitsOf(t, init) {
      DeficitsSound(t, init, d);
      forall c | c in init ensures c in chs { }
    } else {
      assert last in chs;
    }
  }

  /** Every short chapter of `chs` is reported. */
  lemma {:induction false} DeficitsComplete(t: Tables, chs: seq<Chapter>, c: Chapter)
    requires c in chs && IsShort(t, c)
    ensures DeficitOf(t, c) in DeficitsOf(t, chs)
  {
    var init := chs[..|chs| - 1];
    if c != chs[|chs| - 1] {
      assert chs == init + [chs[|chs| - 1]];
      DeficitsComplete(t, init, c);
    }
  }

  /** The position in `chs` of the chapter a record describes. */
  lemma {:induction false} DeficitIndex(t: Tables, chs: seq<Chapter>, d: Deficit) returns (k: nat)
    requires d in DeficitsOf(t, chs)
    ensures k < |chs| && chs[k].num == d.ch
  {
    var init := chs[..|chs| - 1];
    if d in DeficitsOf(t, init) {
      k := DeficitIndex(t, init, d);
      assert chs[k] == init[k];
    } else {
      k := |chs| - 1;
    }
  }

  /** Chapter numbers strictly increase along the records. */
  predicate DeficitsAscending(ds: seq<Deficit>) {
    forall i, j :: 0 <= i < j < |ds| ==> ds[i].ch < ds[j].ch
  }

  /** Records follow the chapters' ascending numbers. */
  lemma {:induction false} DeficitsOrdered(t: Tables, chs: seq<Chapter>)
    requires ChaptersSorted(chs)
    ensures DeficitsAscending(DeficitsOf(t, chs))
  {
    if chs != [] {
      var init := chs[..|chs| - 1];
      var last := chs[|chs| - 1];
      DeficitsOrdered(t, init);
      forall d | d in DeficitsOf(t, init) ensures d.ch < last.num {
        var k := DeficitIndex(t, init, d);
        assert chs[k] == init[k];
        assert chs[k].num < chs[|chs| - 1].num;
      }
      var pre := DeficitsOf(t, init);
      var ds := DeficitsOf(t, chs);
      assert ds == pre + (if IsShort(t, last) then [DeficitOf(t, last)] else []);
      forall i, j | 0 <= i < j < |ds| ensures ds[i].ch < ds[j].ch {
        if j >= |pre| {
          assert ds[i] == pre[i] && ds[i] in pre;
          assert ds[j] == DeficitOf(t, last) && ds[j].ch == last.num;
          assert pre[i].ch < last.num;
        } else {
          assert ds[i] == pre[i] && ds[j] == pre[j];
          assert pre[i].ch < pre[j].ch;
        }
      }
    }
  }

  /** `total_quota`: the intended length of a mock exam, the sum of the table's counts. */
  function TotalQuota(): (r: nat)
    ensures r == 40
  {
    ChapterQuotaTotal();
    TableTotal(ChapterQuota())
  }
}
