/**
 * The per-chapter quota table and the mock-exam selector: from every chapter with a positive
 * quota draw up to that many non-excluded questions, concatenate the draws and shuffle them.
 */
module Selector {
  import opened Wrappers
  import opened Models
  import opened Store
  import opened Seqs

  /** A quota table: (chapter number, required count) pairs in declaration order. */
  type QuotaTable = seq<(nat, nat)>

  /** The count `CHAPTER_QUOTA` gives chapter `n` (chapters 1..19; 0 elsewhere, never looked up). */
  function QuotaCount(n: nat): nat {
    match n
    case 1 => 1 case 2 => 2 case 3 => 7 case 4 => 3 case 5 => 2
    case 6 => 4 case 7 => 0 case 8 => 2 case 9 => 5 case 10 => 2
    case 11 => 2 case 12 => 0 case 13 => 2 case 14 => 2 case 15 => 0
    case 16 => 3 case 17 => 2 case 18 => 1 case 19 => 0
    case _ => 0
  }

  /** The official number of questions per chapter, in declaration order (`CHAPTER_QUOTA`): keys 1..19. */
  function ChapterQuota(): QuotaTable {
    seq(19, i requires 0 <= i < 19 => (i + 1, QuotaCount(i + 1)))
  }

  /** No chapter number occurs twice (a dictionary's keys). */
  predicate KeysDistinct(table: QuotaTable) {
    forall i, j :: 0 <= i < j < |table| ==> table[i].0 != table[j].0
  }

  /** `table.get(num)`. */
  function QuotaLookup(table: QuotaTable, num: nat): (r: Option<nat>)
    ensures r.None? <==> forall i :: 0 <= i < |table| ==> table[i].0 != num
  {
    if table == [] then None
    else if table[0].0 == num then Some(table[0].1)
    else QuotaLookup(table[1..], num)
  }

  /** With distinct keys, each entry is what a lookup of its key returns. */
  lemma {:induction false} QuotaLookupEntry(table: QuotaTable, i: nat)
    requires KeysDistinct(table) && i < |table|
    ensures QuotaLookup(table, table[i].0) == Some(table[i].1)
  {
    if i > 0 {
      assert table[0].0 != table[i].0;
      QuotaLookupEntry(table[1..], i - 1);
    }
  }

  /** Sum of the counts of a quota table. */
  function TableTotal(table: QuotaTable): nat {
    if table == [] then 0 else TableTotal(table[..|table| - 1]) + table[|table| - 1].1
  }

  /** The chapter quota table covers chapters 1..19, once each, in ascending order. */
  lemma {:induction false} ChapterQuotaKeys()
    ensures |ChapterQuota()| == 19
    ensures forall i :: 0 <= i < 19 ==> ChapterQuota()[i].0 == i + 1
    ensures KeysDistinct(ChapterQuota())
  {
  }

  /** Sum of `QuotaCount` over chapters 1..k. */
  function CountSum(k: nat): nat {
    if k == 0 then 0 else CountSum(k - 1) + QuotaCount(k)
  }

  /** The first `k` entries of the table add up to the counts of chapters 1..k. */
  lemma {:induction false} ChapterQuotaPrefix(k: nat)
    requires k <= 19
    ensures TableTotal(ChapterQuota()[..k]) == CountSum(k)
  {
    if k > 0 {
      assert ChapterQuota()[..k][..k - 1] == ChapterQuota()[..k - 1];
      ChapterQuotaPrefix(k - 1);
    }
  }

  /** The counts of chapters 1..19 add up to 40. */
  lemma {:induction false} CountSumTotal()
    ensures CountSum(19) == 40
  {
    assert CountSum(1) == 1;
    assert CountSum(2) == 3;
    assert CountSum(3) == 10;
    assert CountSum(4) == 13;
    assert CountSum(5) == 15;
    assert CountSum(6) == 19;
    assert CountSum(7) == 19;
    assert CountSum(8) == 21;
    assert CountSum(9) == 26;
    assert CountSum(10) == 28;
    assert CountSum(11) == 30;
    assert CountSum(12) == 30;
    assert CountSum(13) == 32;
    assert CountSum(14) == 34;
    assert CountSum(15) == 34;
    assert CountSum(16) == 37;
    assert CountSum(17) == 39;
    assert CountSum(18) == 40;
    assert CountSum(19) == 40;
  }

  /** The counts of the chapter quota table add up to 40. */
  lemma {:induction false} ChapterQuotaTotal()
    ensures TableTotal(ChapterQuota()) == 40
  {
    ChapterQuotaPrefix(19);
    assert ChapterQuota()[..19] == ChapterQuota();
    CountSumTotal();
  }

  function Min(a: nat, b: nat): nat {
    if a < b then a else b
  }

  /**
   * `draw` is a possible outcome of `filter(...).order_by("?")[:n]` over the ids `pool`:
   * min(n, |pool|) distinct ids of the pool, in any order.
   */
  predicate IsDraw(draw: seq<nat>, pool: seq<nat>, n: nat) {
    && |draw| == Min(n, |pool|)
    && NoDuplicates(draw)
    && forall x :: x in draw ==> x in pool
  }

  /** The chapter of question `id`, if the question exists. */
  function ChapterOfId(t: Tables, id: nat): Option<nat> {
    match FindQuestion(t.questions, id)
    case Some(q) => Some(q.chapter)
    case None => None
  }

  /** The ids among `ids` whose question is in chapter `ch`. */
  function FromChapter(t: Tables, ids: seq<nat>, ch: nat): set<nat> {
    set id | id in ids && ChapterOfId(t, id) == Some(ch)
  }

  /** `id` names a non-excluded question of a chapter whose quota in `table` is positive. */
  predicate Selectable(t: Tables, table: QuotaTable, id: nat) {
    match FindQuestion(t.questions, id)
    case Some(q) => !q.isExcluded && QuotaLookup(table, q.chapter).GetOr(0) > 0
    case None => false
  }

  /** The per-chapter draws, concatenated in table order. */
  function Flatten(draws: seq<seq<nat>>): seq<nat> {
    if draws == [] then [] else Flatten(draws[..|draws| - 1]) + draws[|draws| - 1]
  }

  /** Adding chapter `ch`'s draw to ids from other chapters leaves their per-chapter sets alone and makes `ch`'s the draw. */
  lemma {:induction false} AddDraw(t: Tables, picked: seq<nat>, draw: seq<nat>, ch: nat)
    requires forall id :: id in draw ==> ChapterOfId(t, id) == Some(ch)
    requires FromChapter(t, picked, ch) == {}
    ensures FromChapter(t, picked + draw, ch) == Elements(draw)
    ensures forall c :: c != ch ==> FromChapter(t, picked + draw, c) == FromChapter(t, picked, c)
    ensures forall id :: id in picked ==> id !in draw
  {
    forall id | id in picked ensures id !in draw {
      assert id in draw ==> id in FromChapter(t, picked, ch);
    }
    forall id ensures id in FromChapter(t, picked + draw, ch) <==> id in draw {
      assert id in picked && ChapterOfId(t, id) == Some(ch) ==> id in FromChapter(t, picked, ch);
    }
  }

  /** Summing one more entry of a table. */
  lemma {:induction false} TableTotalStep(table: QuotaTable, k: nat)
    requires k < |table|
    ensures TableTotal(table[..k + 1]) == TableTotal(table[..k]) + table[k].1
  {
    assert table[..k + 1][..k] == table[..k];
  }

  /** The draws made for the first `k` entries. */
  ghost predicate DrawsMade(t: Tables, table: QuotaTable, k: nat, draws: seq<seq<nat>>) {
    && k <= |table| && |draws| == k
    && forall i :: 0 <= i < k ==> IsDraw(draws[i], EligibleIds(t.questions, table[i].0), table[i].1)
  }

  /** The ids picked so far are distinct, selectable and come from the first `k` entries' chapters. */
  ghost predicate PickedFromFirst(t: Tables, table: QuotaTable, k: nat, picked: seq<nat>) {
    && k <= |table|
    && NoDuplicates(picked)
    && (forall id :: id in picked ==> Selectable(t, table, id))
    && (forall i :: 0 <= i < k ==>
         |FromChapter(t, picked, table[i].0)| == Min(table[i].1, Stock(t, table[i].0)))
    && (forall i :: k <= i < |table| ==> FromChapter(t, picked, table[i].0) == {})
    && |picked| <= TableTotal(table[..k])
  }

  /** What the selector's loop has established after the first `k` table entries. */
  ghost predicate DrawnUpTo(t: Tables, table: QuotaTable, k: nat, draws: seq<seq<nat>>, picked: seq<nat>) {
    DrawsMade(t, table, k, draws) && picked == Flatten(draws) && PickedFromFirst(t, table, k, picked)
  }

  /** Every picked id's chapter is one of the chapters named by the first `k` entries. */
  lemma {:induction false} PickedChapters(t: Tables, table: QuotaTable, k: nat, picked: seq<nat>, id: nat)
    requires PickedFromFirst(t, table, k, picked) && id in picked
    ensures ChapterOfId(t, id).Some? && forall i :: k <= i < |table| ==> ChapterOfId(t, id) != Some(table[i].0)
  {
    forall i | k <= i < |table| ensures ChapterOfId(t, id) != Some(table[i].0) {
      assert ChapterOfId(t, id) == Some(table[i].0) ==> id in FromChapter(t, picked, table[i].0);
    }
  }

  /** The per-chapter counts after adding entry `k`'s draw. */
  lemma {:induction false} CountsStep(t: Tables, table: QuotaTable, k: nat, picked: seq<nat>, draw: seq<nat>)
    requires k < |table| && KeysDistinct(table)
    requires forall i :: 0 <= i < k ==> |FromChapter(t, picked, table[i].0)| == Min(table[i].1, Stock(t, table[i].0))
    requires forall c :: c != table[k].0 ==> FromChapter(t, picked + draw, c) == FromChapter(t, picked, c)
    requires FromChapter(t, picked + draw, table[k].0) == Elements(draw)
    requires |Elements(draw)| == Min(table[k].1, Stock(t, table[k].0))
    ensures forall i :: 0 <= i < k + 1 ==>
      |FromChapter(t, picked + draw, table[i].0)| == Min(table[i].1, Stock(t, table[i].0))
  {
    forall i | 0 <= i < k + 1
      ensures |FromChapter(t, picked + draw, table[i].0)| == Min(table[i].1, Stock(t, table[i].0))
    {
      if i < k {
        assert table[i].0 != table[k].0;
      }
    }
  }

  /** One more chapter's draw keeps the loop's facts about the picked ids. */
  lemma {:induction false} PickedStep(t: Tables, table: QuotaTable, k: nat, picked: seq<nat>, draw: seq<nat>)
    requires Valid(t) && KeysDistinct(table) && k < |table|
    requires PickedFromFirst(t, table, k, picked)
    requires IsDraw(draw, EligibleIds(t.questions, table[k].0), table[k].1)
    ensures PickedFromFirst(t, table, k + 1, picked + draw)
  {
    var ch, n := table[k].0, table[k].1;
    forall id | id in draw ensures Selectable(t, table, id) && ChapterOfId(t, id) == Some(ch) {
      EligibleIdsFound(t.questions, ch, id);
      QuotaLookupEntry(table, k);
    }
    AddDraw(t, picked, draw, ch);
    NoDuplicatesConcat(picked, draw);
    NoDuplicatesCard(draw);
    assert |draw| == Min(n, |EligibleIds(t.questions, ch)|);
    assert Stock(t, ch) == |EligibleIds(t.questions, ch)|;
    CountsStep(t, table, k, picked, draw);
    forall i | k + 1 <= i < |table| ensures FromChapter(t, picked + draw, table[i].0) == {} {
      assert table[i].0 != ch;
    }
    TableTotalStep(table, k);
  }

  /** Entry `k`'s draw extends what the loop has established to the first `k + 1` entries. */
  lemma {:induction false} DrawnStep(t: Tables, table: QuotaTable, k: nat, draws: seq<seq<nat>>, picked: seq<nat>, draw: seq<nat>)
    requires Valid(t) && KeysDistinct(table) && k < |table|
    requires DrawnUpTo(t, table, k, draws, picked)
    requires IsDraw(draw, EligibleIds(t.questions, table[k].0), table[k].1)
    ensures DrawnUpTo(t, table, k + 1, draws + [draw], picked + draw)
  {
    PickedStep(t, table, k, picked, draw);
    var next := draws + [draw];
    assert next[..k] == draws && next[k] == draw;
    assert Flatten(next) == Flatten(draws) + draw;
    forall i | 0 <= i < k + 1 ensures IsDraw(next[i], EligibleIds(t.questions, table[i].0), table[i].1) {
      if i < k {
        assert next[i] == draws[i];
      }
    }
  }

  /** A shuffle of the concatenated draws keeps every per-chapter fact. */
  lemma {:induction false} ShuffleKeeps(t: Tables, picked: seq<nat>, ids: seq<nat>)
    requires multiset(ids) == multiset(picked)
    ensures |ids| == |picked|
    ensures forall id :: id in ids <==> id in picked
    ensures NoDuplicates(picked) ==> NoDuplicates(ids)
    ensures forall ch :: FromChapter(t, ids, ch) == FromChapter(t, picked, ch)
  {
    forall id ensures id in ids <==> id in picked {
      assert multiset(ids)[id] == multiset(picked)[id];
    }
    assert |ids| == |multiset(ids)| == |multiset(picked)| == |picked|;
  }

  /**
   * `Question.objects.filter(chapter__num=ch, is_excluded=False).order_by("?")[:n]`:
   * any min(n, stock) distinct eligible ids of the chapter, in any order.
   */
  method DrawFromChapter(t: Tables, ch: nat, n: nat) returns (draw: seq<nat>)
    requires Valid(t)
    ensures IsDraw(draw, EligibleIds(t.questions, ch), n)
  {
    var pool := EligibleIds(t.questions, ch);
    EligibleIdsNoDuplicates(t.questions, ch);
    NoDuplicatesPrefix(pool, Min(n, |pool|));
    assert IsDraw(pool[..Min(n, |pool|)], pool, n);
    draw :| IsDraw(draw, pool, n);
  }

  /** The loop of `build_mock_set_ids` over any quota table with distinct keys, before the shuffle. */
  method DrawAll(t: Tables, table: QuotaTable) returns (picked: seq<nat>, ghost draws: seq<seq<nat>>)
    requires Valid(t) && KeysDistinct(table)
    ensures DrawnUpTo(t, table, |table|, draws, picked)
  {
    picked := [];
    draws := [];
    var k := 0;
    while k < |table|
      invariant k <= |table|
      invariant DrawnUpTo(t, table, k, draws, picked)
    {
      var (ch, n) := table[k];
      var draw: seq<nat> := [];
      if n != 0 {
        draw := DrawFromChapter(t, ch, n);
      }
      DrawnStep(t, table, k, draws, picked, draw);
      picked := picked + draw;
      draws := draws + [draw];
      k := k + 1;
    }
  }

  /**
   * `build_mock_set_ids`: for each table entry with a positive quota, draw up to that many
   * non-excluded question ids of the chapter, then shuffle the concatenation.
   * `draws` records the per-chapter draws the ids were shuffled from.
   */
  method BuildMockSetIds(t: Tables) returns (ids: seq<nat>, ghost draws: seq<seq<nat>>)
    requires Valid(t)
    ensures |draws| == |ChapterQuota()|
    ensures forall i :: 0 <= i < |ChapterQuota()| ==>
      IsDraw(draws[i], EligibleIds(t.questions, ChapterQuota()[i].0), ChapterQuota()[i].1)
    ensures multiset(ids) == multiset(Flatten(draws))
    ensures NoDuplicates(ids)
    ensures forall id :: id in ids ==> Selectable(t, ChapterQuota(), id)
    ensures forall i :: 0 <= i < |ChapterQuota()| ==>
      |FromChapter(t, ids, ChapterQuota()[i].0)| == Min(ChapterQuota()[i].1, Stock(t, ChapterQuota()[i].0))
    ensures |ids| <= TableTotal(ChapterQuota())
  {
    ChapterQuotaKeys();
    var picked;
    picked, draws := DrawAll(t, ChapterQuota());
    assert ChapterQuota()[..|ChapterQuota()|] == ChapterQuota();
    ids :| multiset(ids) == multiset(picked);
    ShuffleKeeps(t, picked, ids);
  }
}
