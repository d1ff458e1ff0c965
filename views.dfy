/**
 * The mock-exam views: the session record they share, the progress bar, the per-question
 * choice order, the dashboard totals, and the start / answer / result transitions.
 *
 * The session dict is an explicit record; each view takes it and returns the session it
 * leaves behind together with the response it produces.
 */
module Views {
  import opened Wrappers
  import opened Models
  import opened Seqs
  import opened Store
  import opened Selector
  import opened Quality
  import opened SmartExplain

  /** `EXAM_DURATION_SEC`: 75 minutes. */
  const ExamDurationSec: nat := 75 * 60

  // ---------------------------------------------------------------------------
  // Progress (`_progress_percent`)
  // ---------------------------------------------------------------------------

  function Abs(x: int): nat {
    if x < 0 then -x else x
  }

  /** Python's `round` of the exact quotient `p / q`: to the nearest integer, ties to even. */
  function RoundHalfEven(p: nat, q: nat): (r: nat)
    requires q > 0
    ensures 2 * Abs(r * q - p) <= q
  {
    var f := p / q;
    var m := p % q;
    assert p == f * q + m;
    if 2 * m > q then
      assert (f + 1) * q - p == q - m;
      f + 1
    else if 2 * m < q then f
    else if f % 2 == 0 then f
    else
      assert (f + 1) * q - p == q - m;
      f + 1
  }

  /** A positive factor can be cancelled from both sides of `<`. */
  lemma {:induction false} MulCancel(a: int, b: int, c: int)
    requires c > 0 && a * c < b * c
    ensures a < b
  {
    assert (b - a) * c == b * c - a * c;
  }

  /** Within range the rounded percentage is at most 100, so the clamp leaves it alone. */
  lemma {:induction false} RoundedPercentInRange(now: nat, total: nat)
    requires 0 < total && now <= total
    ensures RoundHalfEven(now * 100, total) <= 100
  {
    var r := RoundHalfEven(now * 100, total);
    assert 2 * (r * total - 100 * now) <= total;
    assert 100 * now <= 100 * total;
    assert r * total < 101 * total;
    MulCancel(r, 101, total);
  }

  /** `_progress_percent`: negative counts read as 0, the percentage is rounded and clamped. */
  function ProgressPercent(now: int, total: int): (r: nat)
    ensures r <= 100
    ensures total <= 0 ==> r == 0
  {
    var nowI: nat := if now > 0 then now else 0;
    var totalI: nat := if total > 0 then total else 0;
    var pct := if totalI > 0 then RoundHalfEven(nowI * 100, totalI) else 0;
    if 0 <= now <= total && total > 0 then
      RoundedPercentInRange(nowI, totalI);
      pct
    else
      if pct > 100 then 100 else pct
  }

  /** Within range the progress is the nearest whole percentage to `100 * now / total`. */
  lemma {:induction false} ProgressPercentNearest(now: int, total: int)
    requires 0 <= now <= total
    ensures 2 * Abs(ProgressPercent(now, total) * total - 100 * now) <= total
  {
  }

  // ---------------------------------------------------------------------------
  // The session
  // ---------------------------------------------------------------------------

  /** The session keys the views use, as one value; an absent key is `None`. */
  datatype SessionRecord = SessionRecord(
    mockIds: Option<seq<nat>>,
    mockIndex: Option<nat>,
    mockCorrect: Option<nat>,
    mockStartedAt: Option<int>,
    choiceOrders: map<nat, seq<nat>>)

  /**
   * `request.session`: `mock_ids`, `mock_index`, `mock_correct`, `mock_started_at` (seconds)
   * and one `choice_order_<question id>` per question shown. The views update it in place.
   */
  class Session {
    var mockIds: Option<seq<nat>>
    var mockIndex: Option<nat>
    var mockCorrect: Option<nat>
    var mockStartedAt: Option<int>
    var choiceOrders: map<nat, seq<nat>>

    /** A fresh session holds none of the keys. */
    constructor ()
      ensures Record() == SessionRecord(None, None, None, None, map[])
    {
      mockIds := None;
      mockIndex := None;
      mockCorrect := None;
      mockStartedAt := None;
      choiceOrders := map[];
    }

    function Record(): SessionRecord
      reads this
    {
      SessionRecord(mockIds, mockIndex, mockCorrect, mockStartedAt, choiceOrders)
    }
  }

  // ---------------------------------------------------------------------------
  // Choice order (`_get_shuffled_choices_for_question`)
  // ---------------------------------------------------------------------------

  /** The sort key of a choice missing from the stored order: `10**9`, after every position. */
  const MissingPos: nat := 1_000_000_000

  /** `pos.get(cid, 10**9)` with `pos = {cid: i for i, cid in enumerate(order)}`: the last position wins. */
  function OrderKey(order: seq<nat>, cid: nat): (r: nat)
    ensures cid in order ==> r < |order| && order[r] == cid && forall k :: r < k < |order| ==> order[k] != cid
    ensures cid !in order ==> r == MissingPos
  {
    if order == [] then MissingPos
    else if order[|order| - 1] == cid then |order| - 1
    else OrderKey(order[..|order| - 1], cid)
  }

  /** Inserts `c` after every element whose key is not greater, so that equal keys keep their order. */
  function InsertByKey(sorted: seq<Choice>, c: Choice, order: seq<nat>): (r: seq<Choice>)
    ensures multiset(r) == multiset(sorted) + multiset{c}
    ensures |r| == |sorted| + 1
  {
    if sorted == [] then [c]
    else
      var last := sorted[|sorted| - 1];
      if OrderKey(order, last.id) <= OrderKey(order, c.id) then sorted + [c]
      else
        var init := sorted[..|sorted| - 1];
        assert sorted == init + [last];
        InsertByKey(init, c, order) + [last]
  }

  /** `choices.sort(key=...)`: a stable sort by `OrderKey`, as an insertion sort. */
  function SortByKey(cs: seq<Choice>, order: seq<nat>): (r: seq<Choice>)
    ensures multiset(r) == multiset(cs)
    ensures |r| == |cs|
  {
    if cs == [] then []
    else
      var init := cs[..|cs| - 1];
      assert cs == init + [cs[|cs| - 1]];
      InsertByKey(SortByKey(init, order), cs[|cs| - 1], order)
  }

  predicate SortedByKey(cs: seq<Choice>, order: seq<nat>) {
    forall i, j :: 0 <= i < j < |cs| ==> OrderKey(order, cs[i].id) <= OrderKey(order, cs[j].id)
  }

  predicate KeysAtMost(cs: seq<Choice>, order: seq<nat>, bound: nat) {
    forall k :: 0 <= k < |cs| ==> OrderKey(order, cs[k].id) <= bound
  }

  lemma {:induction false} AppendSorted(cs: seq<Choice>, c: Choice, order: seq<nat>)
    requires SortedByKey(cs, order) && KeysAtMost(cs, order, OrderKey(order, c.id))
    ensures SortedByKey(cs + [c], order)
  {
    var r := cs + [c];
    forall i, j | 0 <= i < j < |r| ensures OrderKey(order, r[i].id) <= OrderKey(order, r[j].id) {
      assert r[i] == cs[i];
    }
  }

  lemma {:induction false} KeysAtMostInsert(sorted: seq<Choice>, c: Choice, order: seq<nat>, bound: nat)
    requires KeysAtMost(sorted, order, bound) && OrderKey(order, c.id) <= bound
    ensures KeysAtMost(InsertByKey(sorted, c, order), order, bound)
  {
    if sorted != [] {
      var last := sorted[|sorted| - 1];
      if OrderKey(order, last.id) > OrderKey(order, c.id) {
        var init := sorted[..|sorted| - 1];
        assert KeysAtMost(init, order, bound) by {
          forall k | 0 <= k < |init| ensures OrderKey(order, init[k].id) <= bound {
            assert init[k] == sorted[k];
          }
        }
        KeysAtMostInsert(init, c, order, bound);
      }
    }
  }

  lemma {:induction false} InsertSorted(sorted: seq<Choice>, c: Choice, order: seq<nat>)
    requires SortedByKey(sorted, order)
    ensures SortedByKey(InsertByKey(sorted, c, order), order)
  {
    if sorted != [] {
      var last := sorted[|sorted| - 1];
      var init := sorted[..|sorted| - 1];
      assert KeysAtMost(init, order, OrderKey(order, last.id)) by {
        forall k | 0 <= k < |init| ensures OrderKey(order, init[k].id) <= OrderKey(order, last.id) {
          assert init[k] == sorted[k];
        }
      }
      if OrderKey(order, last.id) <= OrderKey(order, c.id) {
        assert KeysAtMost(sorted, order, OrderKey(order, c.id)) by {
          forall k | 0 <= k < |sorted| ensures OrderKey(order, sorted[k].id) <= OrderKey(order, c.id) {
            if k < |init| { assert sorted[k] == init[k]; }
          }
        }
        AppendSorted(sorted, c, order);
      } else {
        assert SortedByKey(init, order) by {
          forall i, j | 0 <= i < j < |init| ensures OrderKey(order, init[i].id) <= OrderKey(order, init[j].id) {
            assert init[i] == sorted[i] && init[j] == sorted[j];
          }
        }
        InsertSorted(init, c, order);
        KeysAtMostInsert(init, c, order, OrderKey(order, last.id));
        AppendSorted(InsertByKey(init, c, order), last, order);
      }
    } else {
      assert InsertByKey(sorted, c, order) == [c];
    }
  }

  /** The sorted choices are in ascending key: stored positions first, missing ones last. */
  lemma {:induction false} SortByKeySorted(cs: seq<Choice>, order: seq<nat>)
    ensures SortedByKey(SortByKey(cs, order), order)
  {
    if cs != [] {
      SortByKeySorted(cs[..|cs| - 1], order);
      InsertSorted(SortByKey(cs[..|cs| - 1], order), cs[|cs| - 1], order);
    }
  }

  /** The choices of `cs` with key `k`, in their order. */
  function WithKey(cs: seq<Choice>, order: seq<nat>, k: nat): seq<Choice> {
    if cs == [] then []
    else WithKey(cs[..|cs| - 1], order, k) + (if OrderKey(order, cs[|cs| - 1].id) == k then [cs[|cs| - 1]] else [])
  }

  lemma {:induction false} WithKeyAppend(a: seq<Choice>, b: seq<Choice>, order: seq<nat>, k: nat)
    ensures WithKey(a + b, order, k) == WithKey(a, order, k) + WithKey(b, order, k)
    decreases |b|
  {
    if b == [] {
      assert a + b == a;
    } else {
      assert (a + b)[..|a + b| - 1] == a + b[..|b| - 1];
      WithKeyAppend(a, b[..|b| - 1], order, k);
    }
  }

  lemma {:induction false} SwapBesideEmpty<T>(x: seq<T>, p: seq<T>, q: seq<T>)
    requires p == [] || q == []
    ensures x + p + q == x + q + p
  {
    if p == [] {
      assert x + p == x && x + q + p == x + q;
    } else {
      assert x + q == x && x + p + q == x + p;
    }
  }

  lemma {:induction false} WithKeyInsert(sorted: seq<Choice>, c: Choice, order: seq<nat>, k: nat)
    ensures WithKey(InsertByKey(sorted, c, order), order, k)
         == WithKey(sorted, order, k) + (if OrderKey(order, c.id) == k then [c] else [])
  {
    if sorted != [] {
      var last := sorted[|sorted| - 1];
      var init := sorted[..|sorted| - 1];
      if OrderKey(order, last.id) <= OrderKey(order, c.id) {
        WithKeyAppend(sorted, [c], order, k);
        assert WithKey([c], order, k) == WithKey([], order, k) + (if OrderKey(order, c.id) == k then [c] else []) by {
          assert [c][..0] == [];
        }
      } else {
        WithKeyInsert(init, c, order, k);
        var ri := InsertByKey(init, c, order);
        var cPart := if OrderKey(order, c.id) == k then [c] else [];
        var lastPart := if OrderKey(order, last.id) == k then [last] else [];
        assert InsertByKey(sorted, c, order) == ri + [last];
        assert (ri + [last])[..|ri + [last]| - 1] == ri;
        assert WithKey(ri + [last], order, k) == WithKey(init, order, k) + cPart + lastPart;
        assert WithKey(sorted, order, k) == WithKey(init, order, k) + lastPart;
        assert cPart == [] || lastPart == [];
        SwapBesideEmpty(WithKey(init, order, k), cPart, lastPart);
      }
    } else {
      assert [c][..0] == [];
    }
  }

  /** The sort is stable: choices with equal keys keep their relative order. */
  lemma {:induction false} SortByKeyStable(cs: seq<Choice>, order: seq<nat>, k: nat)
    ensures WithKey(SortByKey(cs, order), order, k) == WithKey(cs, order, k)
  {
    if cs != [] {
      var init := cs[..|cs| - 1];
      SortByKeyStable(init, order, k);
      WithKeyInsert(SortByKey(init, order), cs[|cs| - 1], order, k);
    }
  }

  /** The ids of a list of choices (`values_list("id", flat=True)`). */
  function IdsOf(cs: seq<Choice>): (r: seq<nat>)
    ensures |r| == |cs| && forall k :: 0 <= k < |cs| ==> r[k] == cs[k].id
  {
    if cs == [] then [] else IdsOf(cs[..|cs| - 1]) + [cs[|cs| - 1].id]
  }

  /** A non-empty order is stored for question `qid` (`if not order` fails). */
  predicate HasOrder(orders: map<nat, seq<nat>>, qid: nat) {
    qid in orders && orders[qid] != []
  }

  /** The stored orders after showing question `qid`, `shuffled` being the fresh shuffle. */
  function OrdersAfter(orders: map<nat, seq<nat>>, qid: nat, shuffled: seq<nat>): map<nat, seq<nat>> {
    if HasOrder(orders, qid) then orders else orders[qid := shuffled]
  }

  /** Question `q`'s choices sorted by the order stored for it. */
  function ShownChoices(t: Tables, orders: map<nat, seq<nat>>, q: Question): seq<Choice> {
    SortByKey(ChoicesOf(t.choices, q.id), if q.id in orders then orders[q.id] else [])
  }

  /**
   * `_get_shuffled_choices_for_question`: a stored non-empty order is reused unchanged;
   * otherwise a shuffle of the question's choice ids is stored. The question's choices
   * are returned stably sorted by their position in that order. `shuffled` is the
   * shuffle that was (or would have been) drawn.
   */
  method GetShuffledChoices(t: Tables, s: Session, q: Question) returns (choices: seq<Choice>, ghost shuffled: seq<nat>)
    modifies s
    ensures multiset(shuffled) == multiset(IdsOf(ChoicesOf(t.choices, q.id)))
    ensures s.Record() == old(s.Record()).(choiceOrders := OrdersAfter(old(s.choiceOrders), q.id, shuffled))
    ensures q.id in s.choiceOrders
    ensures choices == ShownChoices(t, s.choiceOrders, q)
  {
    var all := ChoicesOf(t.choices, q.id);
    var ids := IdsOf(all);
    if HasOrder(s.choiceOrders, q.id) {
      shuffled := ids;
    } else {
      var order: seq<nat> :| multiset(order) == multiset(ids);
      s.choiceOrders := s.choiceOrders[q.id := order];
      shuffled := order;
    }
    choices := SortByKey(all, s.choiceOrders[q.id]);
  }

  /** Once a non-empty order is stored, a later call keeps it and shows the choices in the same order. */
  lemma {:induction false} StoredOrderReused(t: Tables, orders: map<nat, seq<nat>>, q: Question, first: seq<nat>, second: seq<nat>)
    requires first != []
    ensures var after := OrdersAfter(orders, q.id, first);
      OrdersAfter(after, q.id, second) == after && ShownChoices(t, OrdersAfter(after, q.id, second), q) == ShownChoices(t, after, q)
  {
  }

  /** The returned choices are exactly the question's choices, rearranged. */
  lemma {:induction false} ShuffledIsPermutation(t: Tables, q: Question, order: seq<nat>)
    ensures multiset(SortByKey(ChoicesOf(t.choices, q.id), order)) == multiset(ChoicesOf(t.choices, q.id))
    ensures forall c :: c in SortByKey(ChoicesOf(t.choices, q.id), order) <==> c in t.choices && c.question == q.id
  {
    var r := SortByKey(ChoicesOf(t.choices, q.id), order);
    forall c ensures c in r <==> c in ChoicesOf(t.choices, q.id) {
      assert c in r <==> c in multiset(r);
    }
  }

  /** A choice missing from the order comes after every choice the order lists. */
  lemma {:induction false} MissingSortLast(cs: seq<Choice>, order: seq<nat>, i: nat, j: nat)
    requires |order| <= MissingPos
    requires var r := SortByKey(cs, order); i < |r| && j < |r| && r[i].id in order && r[j].id !in order
    ensures i < j
  {
    SortByKeySorted(cs, order);
    var r := SortByKey(cs, order);
    assert OrderKey(order, r[i].id) < OrderKey(order, r[j].id);
  }

  // ---------------------------------------------------------------------------
  // Dashboard
  // ---------------------------------------------------------------------------

  /** One row of `ch_coverage`: a chapter and its number of non-excluded questions. */
  datatype Coverage = Coverage(chapter: Chapter, n: nat)

  datatype DashboardView = DashboardView(
    qCount: nat,
    coverage: seq<Coverage>,
    totalQuota: nat,
    totalStockForQuota: nat,
    deficits: seq<Deficit>,
    hasDeficit: bool)

  function CoverageOf(t: Tables, chs: seq<Chapter>): (r: seq<Coverage>)
    ensures |r| == |chs| && forall k :: 0 <= k < |chs| ==> r[k] == Coverage(chs[k], Stock(t, chs[k].num))
  {
    if chs == [] then [] else CoverageOf(t, chs[..|chs| - 1]) + [Coverage(chs[|chs| - 1], Stock(t, chs[|chs| - 1].num))]
  }

  /** `sum(ch.official_quota for ch in ch_coverage)`. */
  function QuotaSum(cov: seq<Coverage>): nat {
    if cov == [] then 0 else QuotaSum(cov[..|cov| - 1]) + cov[|cov| - 1].chapter.officialQuota
  }

  /** `sum(min(ch.n, ch.official_quota) for ch in ch_coverage)`. */
  function StockForQuotaSum(cov: seq<Coverage>): nat {
    if cov == [] then 0
    else StockForQuotaSum(cov[..|cov| - 1]) + Min(cov[|cov| - 1].n, cov[|cov| - 1].chapter.officialQuota)
  }

  /** The stock usable toward the quotas never exceeds the quotas' total. */
  lemma {:induction false} StockForQuotaBounded(cov: seq<Coverage>)
    ensures StockForQuotaSum(cov) <= QuotaSum(cov)
  {
    if cov != [] {
      StockForQuotaBounded(cov[..|cov| - 1]);
    }
  }

  /** The number of non-excluded questions. */
  function LiveCount(qs: seq<Question>): (r: nat)
    ensures r <= |qs|
  {
    if qs == [] then 0 else LiveCount(qs[..|qs| - 1]) + (if qs[|qs| - 1].isExcluded then 0 else 1)
  }

  /** `dashboard`: the counts and totals it renders. */
  method Dashboard(t: Tables) returns (view: DashboardView)
    requires Valid(t)
    ensures view.qCount == LiveCount(t.questions)
    ensures view.coverage == CoverageOf(t, t.chapters)
    ensures view.totalQuota == QuotaSum(view.coverage)
    ensures view.totalStockForQuota == StockForQuotaSum(view.coverage)
    ensures view.totalStockForQuota <= view.totalQuota
    ensures view.deficits == DeficitsOf(t, t.chapters)
    ensures view.hasDeficit <==> view.deficits != []
  {
    var cov := CoverageOf(t, t.chapters);
    var deficits := QuotaDeficits(t);
    StockForQuotaBounded(cov);
    view := DashboardView(LiveCount(t.questions), cov, QuotaSum(cov), StockForQuotaSum(cov), deficits, |deficits| > 0);
  }

  // ---------------------------------------------------------------------------
  // Messages, requests and responses
  // ---------------------------------------------------------------------------

  datatype Level = Info | Warning | Error

  /** The flash messages the views send (`messages.info` / `warning` / `error`). */
  datatype Message =
    | DeficitWarning(deficits: seq<Deficit>)
    | NoQuestionsError
    | ShortSetWarning(count: nat, intended: nat)
    | StartPrompt
    | ChooseWarning

  function LevelOf(m: Message): Level {
    match m
    case DeficitWarning(_) => Warning
    case NoQuestionsError => Error
    case ShortSetWarning(_, _) => Warning
    case StartPrompt => Info
    case ChooseWarning => Warning
  }

  /** The text shown for each message; the deficit summary lists `Ch<num>不足<lack>` per short chapter. */
  function TextOf(m: Message): string {
    match m
    case DeficitWarning(ds) =>
      "問題数不足の章があります：" + Join(", ", seq(|ds|, k requires 0 <= k < |ds| =>
        "Ch" + NatToString(ds[k].ch) + "不足" + NatToString(ds[k].lack)))
    case NoQuestionsError => "出題可能な問題がありません。管理画面から問題を追加してください。"
    case ShortSetWarning(count, intended) =>
      "今回は " + NatToString(count) + "問です（想定 " + NatToString(intended) + "問）。不足章のため減少しています。"
    case StartPrompt => "モックを開始してください。"
    case ChooseWarning => "選択肢を選んでください。"
  }

  /** The `choice` field of a POST: missing, empty, or a choice id. */
  datatype Submitted = Absent | Blank | Id(n: nat)

  datatype Request = Get | Post(choice: Submitted, next: bool)

  /** What `exam/session.html` is rendered with. */
  datatype SessionView = SessionView(
    question: Question,
    judged: bool,
    wasCorrect: bool,
    chosenId: Option<nat>,
    now: nat,
    total: nat,
    score: nat,
    percent: nat,
    remainingSec: nat,
    durationSec: nat,
    choices: seq<Choice>,
    diffHtml: string,
    hints: seq<string>)

  /** One chapter's entry of `ch_stat`: correct answers `c` out of `n`. */
  datatype Tally = Tally(c: nat, n: nat)

  /** A redirect, a 404, or a rendered page. */
  datatype Page =
    | ToDashboard
    | ToSession
    | ToResult
    | NotFound
    | SessionPage(view: SessionView)
    | ResultPage(total: nat, score: nat, chStat: map<nat, Tally>)

  // ---------------------------------------------------------------------------
  // mock_start
  // ---------------------------------------------------------------------------

  /** `ids` is a possible outcome of `build_mock_set_ids`, as its own contract describes it. */
  predicate IsMockSet(t: Tables, ids: seq<nat>) {
    && NoDuplicates(ids)
    && (forall id :: id in ids ==> Selectable(t, ChapterQuota(), id))
    && (forall i :: 0 <= i < |ChapterQuota()| ==>
         |FromChapter(t, ids, ChapterQuota()[i].0)| == Min(ChapterQuota()[i].1, Stock(t, ChapterQuota()[i].0)))
    && |ids| <= TotalQuota()
  }

  /** No chapter of the quota table can contribute a question. */
  predicate NothingSelectable(t: Tables) {
    forall i :: 0 <= i < |ChapterQuota()| ==> Min(ChapterQuota()[i].1, Stock(t, ChapterQuota()[i].0)) == 0
  }

  /** The selection is empty exactly when no chapter with a positive quota has an eligible question. */
  lemma {:induction false} EmptySelection(t: Tables, ids: seq<nat>)
    requires IsMockSet(t, ids)
    ensures ids == [] <==> NothingSelectable(t)
  {
    if ids == [] {
      forall i | 0 <= i < |ChapterQuota()| ensures Min(ChapterQuota()[i].1, Stock(t, ChapterQuota()[i].0)) == 0 {
        assert FromChapter(t, ids, ChapterQuota()[i].0) == {};
      }
    } else {
      var id := ids[0];
      assert Selectable(t, ChapterQuota(), id);
      var q := FindQuestion(t.questions, id).value;
      var ch := q.chapter;
      assert QuotaLookup(ChapterQuota(), ch).Some?;
      var i :| 0 <= i < |ChapterQuota()| && ChapterQuota()[i].0 == ch;
      assert id in FromChapter(t, ids, ch);
      assert Min(ChapterQuota()[i].1, Stock(t, ChapterQuota()[i].0)) != 0;
    }
  }

  /** `build_mock_set_ids` as `mock_start` sees it. */
  method SelectMockSet(t: Tables) returns (ids: seq<nat>)
    requires Valid(t)
    ensures IsMockSet(t, ids)
    ensures ids == [] <==> NothingSelectable(t)
  {
    ghost var draws;
    ids, draws := BuildMockSetIds(t);
    ChapterQuotaTotal();
    EmptySelection(t, ids);
  }

  /** The warnings `mock_start` flashes before selecting: one deficit summary when a chapter is short. */
  function DeficitNotices(ds: seq<Deficit>): seq<Message> {
    if ds != [] then [DeficitWarning(ds)] else []
  }

  /**
   * `mock_start`: warn about short chapters, select the question set; with nothing to ask
   * flash an error and go back to the dashboard leaving the session alone, otherwise store
   * the set with index 0, score 0 and the start time, warning when it has fewer than 40 questions.
   */
  method MockStart(t: Tables, s: Session, now: int) returns (page: Page, msgs: seq<Message>)
    requires Valid(t)
    modifies s
    ensures page == ToDashboard <==> NothingSelectable(t)
    ensures page == ToDashboard ==>
      && s.Record() == old(s.Record())
      && msgs == DeficitNotices(DeficitsOf(t, t.chapters)) + [NoQuestionsError]
    ensures page != ToDashboard ==>
      && page == ToSession && s.mockIds.Some?
      && IsMockSet(t, s.mockIds.value) && s.mockIds.value != []
      && s.Record() == old(s.Record()).(mockIds := Some(s.mockIds.value), mockIndex := Some(0), mockCorrect := Some(0), mockStartedAt := Some(now))
      && msgs == DeficitNotices(DeficitsOf(t, t.chapters))
           + (if |s.mockIds.value| < TotalQuota() then [ShortSetWarning(|s.mockIds.value|, TotalQuota())] else [])
  {
    var deficits := QuotaDeficits(t);
    msgs := [];
    if deficits != [] {
      msgs := msgs + [DeficitWarning(deficits)];
    }
    assert msgs == DeficitNotices(DeficitsOf(t, t.chapters));
    var ids := SelectMockSet(t);
    if ids == [] {
      msgs := msgs + [NoQuestionsError];
      page := ToDashboard;
      return;
    }
    var intended := TotalQuota();
    if |ids| < intended {
      msgs := msgs + [ShortSetWarning(|ids|, intended)];
    }
    StoreMockSet(s, ids, now);
    page := ToSession;
  }

  /** The session writes of `mock_start`: the set, index 0, score 0 and the start time. */
  method StoreMockSet(s: Session, ids: seq<nat>, now: int)
    modifies s
    ensures s.Record() == old(s.Record()).(mockIds := Some(ids), mockIndex := Some(0), mockCorrect := Some(0), mockStartedAt := Some(now))
  {
    s.mockIds := Some(ids);
    s.mockIndex := Some(0);
    s.mockCorrect := Some(0);
    s.mockStartedAt := Some(now);
  }

  // ---------------------------------------------------------------------------
  // mock_session
  // ---------------------------------------------------------------------------

  /** A question set is in the session (`if not ids` fails). */
  predicate Active(r: SessionRecord) {
    r.mockIds.Some? && r.mockIds.value != []
  }

  /** `max(0, int(now - started))`. */
  function Elapsed(started: int, now: int): nat {
    if now - started > 0 then now - started else 0
  }

  /** `max(0, EXAM_DURATION_SEC - elapsed)`. */
  function Remaining(elapsed: nat): nat {
    if elapsed < ExamDurationSec then ExamDurationSec - elapsed else 0
  }

  /** The choice the POST names, if it is one of question `q`'s. */
  function ChosenChoice(t: Tables, q: Question, c: Submitted): Option<Choice> {
    if c.Id? then FindChoiceOf(t.choices, c.n, q.id) else None
  }

  /** The texts of the correct choices among `cs`, in order. */
  function CorrectTexts(cs: seq<Choice>): seq<string> {
    if cs == [] then [] else CorrectTexts(cs[..|cs| - 1]) + (if cs[|cs| - 1].isCorrect then [cs[|cs| - 1].text] else [])
  }

  /** `" / ".join(...)` of the texts of question `q`'s correct choices. */
  function CorrectText(t: Tables, q: Question): string {
    Join(" / ", CorrectTexts(ChoicesOf(t.choices, q.id)))
  }

  /** `int(chosen_id) if chosen_id else None`. */
  function ChosenId(req: Request): Option<nat> {
    if req.Post? && req.choice.Id? then Some(req.choice.n) else None
  }

  /** The session, response and flash messages a view produces. */
  datatype Outcome = Outcome(session: SessionRecord, page: Page, msgs: seq<Message>)

  /** The explanation shown after a wrong answer: the diff of the chosen text against the correct text, and hints. */
  datatype Explanation = Explanation(diffHtml: string, hints: seq<string>)

  function ExplainWrong(t: Tables, q: Question, chosen: Option<Choice>, matcher: (string, string) -> seq<Opcode>): Explanation {
    var correctText := CorrectText(t, q);
    var chosenText := if chosen.Some? then chosen.value.text else "";
    Explanation(DiffHtml(chosenText, correctText, matcher(chosenText, correctText)), HintsFor(q.stem, correctText, 3))
  }

  /** The answer step for the current question `q` at index `idx`, once the clock and the set allow it. */
  function AnswerStep(t: Tables, r: SessionRecord, q: Question, idx: nat, total: nat, remaining: nat,
                      req: Request, matcher: (string, string) -> seq<Opcode>, shuffled: seq<nat>): Outcome
  {
    var correct := r.mockCorrect.GetOr(0);
    var warn := req.Post? && req.choice.Absent? && !req.next;
    var judged := req.Post? && !warn;
    var chosen := if judged then ChosenChoice(t, q, req.choice) else None;
    var wasCorrect := judged && chosen.Some? && chosen.value.isCorrect;
    var score := if wasCorrect then correct + 1 else correct;
    var r1 := if wasCorrect then r.(mockCorrect := Some(score)) else r;
    var explained := if judged && !wasCorrect then ExplainWrong(t, q, chosen, matcher) else Explanation("", []);
    if judged && req.next then
      Outcome(r1.(mockIndex := Some(idx + 1)), ToSession, [])
    else
      var orders := OrdersAfter(r1.choiceOrders, q.id, shuffled);
      var view := SessionView(
        q, judged, wasCorrect, ChosenId(req), idx + 1, total, score, ProgressPercent(idx, total),
        remaining, ExamDurationSec, ShownChoices(t, orders, q), explained.diffHtml, explained.hints);
      Outcome(r1.(choiceOrders := orders), SessionPage(view), if warn then [ChooseWarning] else [])
  }

  /**
   * `mock_session` as a function of the session before the request, the clock, the request,
   * the diff matcher and the shuffle drawn if the question has no stored choice order.
   */
  function SessionStep(t: Tables, r: SessionRecord, now: int, req: Request,
                       matcher: (string, string) -> seq<Opcode>, shuffled: seq<nat>): Outcome
  {
    if !Active(r) then Outcome(r, ToDashboard, [StartPrompt])
    else
      var ids := r.mockIds.value;
      var idx := r.mockIndex.GetOr(0);
      var started := r.mockStartedAt.GetOr(now);
      var r1 := r.(mockStartedAt := Some(started));
      var remaining := Remaining(Elapsed(started, now));
      if remaining == 0 || idx >= |ids| then Outcome(r1, ToResult, [])
      else match FindQuestion(t.questions, ids[idx])
        case None => Outcome(r1, NotFound, [])
        case Some(q) => AnswerStep(t, r1, q, idx, |ids|, remaining, req, matcher, shuffled)
  }

  /** The explanation after a wrong answer, rendered by `build_diff_html` and `extract_hints`. */
  method Explain(t: Tables, q: Question, chosen: Option<Choice>, matcher: (string, string) -> seq<Opcode>)
      returns (diffHtml: string, hints: seq<string>)
    ensures Explanation(diffHtml, hints) == ExplainWrong(t, q, chosen, matcher)
  {
    var correctText := CorrectText(t, q);
    var chosenText := if chosen.Some? then chosen.value.text else "";
    diffHtml := BuildDiffHtml(Some(chosenText), Some(correctText), matcher(chosenText, correctText));
    hints := ExtractHints(q.stem, correctText, 3);
  }

  lemma {:induction false} RenderMatches(t: Tables, r0: SessionRecord, r1: SessionRecord, q: Question, idx: nat, total: nat, remaining: nat,
                      req: Request, matcher: (string, string) -> seq<Opcode>, shuffled: seq<nat>,
                      judged: bool, wasCorrect: bool, score: nat, explained: Explanation, msgs: seq<Message>)
    requires !(req.Post? && !(req.choice.Absent? && !req.next) && req.next)
    requires judged == (req.Post? && !(req.choice.Absent? && !req.next))
    requires wasCorrect == (judged && ChosenChoice(t, q, req.choice).Some? && ChosenChoice(t, q, req.choice).value.isCorrect)
    requires score == if wasCorrect then r0.mockCorrect.GetOr(0) + 1 else r0.mockCorrect.GetOr(0)
    requires r1 == if wasCorrect then r0.(mockCorrect := Some(score)) else r0
    requires explained == if judged && !wasCorrect then ExplainWrong(t, q, ChosenChoice(t, q, req.choice), matcher) else Explanation("", [])
    requires msgs == if req.Post? && req.choice.Absent? && !req.next then [ChooseWarning] else []
    ensures AnswerStep(t, r0, q, idx, total, remaining, req, matcher, shuffled) == Outcome(
      r1.(choiceOrders := OrdersAfter(r1.choiceOrders, q.id, shuffled)),
      SessionPage(SessionView(q, judged, wasCorrect, ChosenId(req), idx + 1, total, score, ProgressPercent(idx, total),
        remaining, ExamDurationSec, ShownChoices(t, OrdersAfter(r1.choiceOrders, q.id, shuffled), q), explained.diffHtml, explained.hints)),
      msgs)
  {
  }

  /**
   * The judging half of the answer step: a POST without a choice and without `next` only
   * warns; any other POST is judged, a correct answer raising the stored score and a wrong
   * one producing the explanation.
   */
  method Judge(t: Tables, s: Session, q: Question, req: Request, matcher: (string, string) -> seq<Opcode>)
      returns (judged: bool, wasCorrect: bool, score: nat, explained: Explanation, msgs: seq<Message>)
    modifies s
    ensures judged == (req.Post? && !(req.choice.Absent? && !req.next))
    ensures wasCorrect == (judged && ChosenChoice(t, q, req.choice).Some? && ChosenChoice(t, q, req.choice).value.isCorrect)
    ensures score == if wasCorrect then old(s.mockCorrect).GetOr(0) + 1 else old(s.mockCorrect).GetOr(0)
    ensures s.Record() == if wasCorrect then old(s.Record()).(mockCorrect := Some(score)) else old(s.Record())
    ensures explained == if judged && !wasCorrect then ExplainWrong(t, q, ChosenChoice(t, q, req.choice), matcher) else Explanation("", [])
    ensures msgs == if req.Post? && req.choice.Absent? && !req.next then [ChooseWarning] else []
  {
    msgs := [];
    score := s.mockCorrect.GetOr(0);
    judged := false;
    wasCorrect := false;
    explained := Explanation("", []);
    if req.Post? {
      if req.choice.Absent? && !req.next {
        msgs := msgs + [ChooseWarning];
      } else {
        var chosen := ChosenChoice(t, q, req.choice);
        wasCorrect := chosen.Some? && chosen.value.isCorrect;
        judged := true;
        if wasCorrect {
          score := score + 1;
          s.mockCorrect := Some(score);
        } else {
          var diffHtml, hints := Explain(t, q, chosen, matcher);
          explained := Explanation(diffHtml, hints);
        }
      }
    }
  }

  /** The part of `mock_session` that judges a POST and renders question `q`. */
  method Answer(t: Tables, s: Session, q: Question, idx: nat, total: nat, remaining: nat,
                req: Request, matcher: (string, string) -> seq<Opcode>)
      returns (page: Page, msgs: seq<Message>, ghost shuffled: seq<nat>)
    modifies s
    ensures Outcome(s.Record(), page, msgs) == AnswerStep(t, old(s.Record()), q, idx, total, remaining, req, matcher, shuffled)
    ensures page.SessionPage? ==> multiset(shuffled) == multiset(IdsOf(ChoicesOf(t.choices, q.id)))
  {
    shuffled := [];
    ghost var r0 := s.Record();
    var judged, wasCorrect, score, explained;
    judged, wasCorrect, score, explained, msgs := Judge(t, s, q, req, matcher);
    if judged && req.next {
      s.mockIndex := Some(idx + 1);
      page := ToSession;
      return;
    }
    ghost var r1 := s.Record();
    var choices;
    choices, shuffled := GetShuffledChoices(t, s, q);
    page := SessionPage(SessionView(
      q, judged, wasCorrect, ChosenId(req), idx + 1, total, score, ProgressPercent(idx, total),
      remaining, ExamDurationSec, choices, explained.diffHtml, explained.hints));
    RenderMatches(t, r0, r1, q, idx, total, remaining, req, matcher, shuffled, judged, wasCorrect, score, explained, msgs);
  }

  /**
   * `mock_session`: one request against the running mock exam. `matcher` stands for
   * difflib's opcode computation; `shuffled` is the shuffle drawn for the choice order.
   */
  method MockSession(t: Tables, s: Session, now: int, req: Request, matcher: (string, string) -> seq<Opcode>)
      returns (page: Page, msgs: seq<Message>, ghost shuffled: seq<nat>)
    modifies s
    ensures Outcome(s.Record(), page, msgs) == SessionStep(t, old(s.Record()), now, req, matcher, shuffled)
    ensures page.SessionPage? ==>
      && Answering(t, old(s.Record()), now)
      && multiset(shuffled) == multiset(IdsOf(ChoicesOf(t.choices, CurrentQuestion(t, old(s.Record())).id)))
  {
    shuffled := [];
    if s.mockIds.None? || s.mockIds.value == [] {
      page := ToDashboard;
      msgs := [StartPrompt];
      return;
    }
    var ids := s.mockIds.value;
    var idx := s.mockIndex.GetOr(0);
    if s.mockStartedAt.None? {
      s.mockStartedAt := Some(now);
    }
    var elapsed := Elapsed(s.mockStartedAt.value, now);
    var remaining := Remaining(elapsed);
    msgs := [];
    if remaining == 0 || idx >= |ids| {
      page := ToResult;
      return;
    }
    var found := FindQuestion(t.questions, ids[idx]);
    if found.None? {
      page := NotFound;
      return;
    }
    page, msgs, shuffled := Answer(t, s, found.value, idx, |ids|, remaining, req, matcher);
  }

  /** Without a question set the session is left alone and the user is sent to the dashboard. */
  lemma {:induction false} StepInactive(t: Tables, r: SessionRecord, now: int, req: Request, matcher: (string, string) -> seq<Opcode>, shuffled: seq<nat>)
    requires !Active(r)
    ensures SessionStep(t, r, now, req, matcher, shuffled) == Outcome(r, ToDashboard, [StartPrompt])
  {
  }

  /**
   * Once 4500 seconds have passed since the start, or every question has been shown, the
   * request goes to the result before anything is judged: only a missing start time is filled in.
   */
  lemma {:induction false} StepFinished(t: Tables, r: SessionRecord, now: int, req: Request, matcher: (string, string) -> seq<Opcode>, shuffled: seq<nat>)
    requires Active(r)
    requires Elapsed(r.mockStartedAt.GetOr(now), now) >= ExamDurationSec || r.mockIndex.GetOr(0) >= |r.mockIds.value|
    ensures SessionStep(t, r, now, req, matcher, shuffled)
      == Outcome(r.(mockStartedAt := Some(r.mockStartedAt.GetOr(now))), ToResult, [])
  {
  }

  /** The current question exists and may still be answered. */
  predicate Answering(t: Tables, r: SessionRecord, now: int) {
    && Active(r)
    && Elapsed(r.mockStartedAt.GetOr(now), now) < ExamDurationSec
    && r.mockIndex.GetOr(0) < |r.mockIds.value|
    && FindQuestion(t.questions, r.mockIds.value[r.mockIndex.GetOr(0)]).Some?
  }

  function CurrentQuestion(t: Tables, r: SessionRecord): Question
    requires r.mockIds.Some? && r.mockIndex.GetOr(0) < |r.mockIds.value|
    requires FindQuestion(t.questions, r.mockIds.value[r.mockIndex.GetOr(0)]).Some?
  {
    FindQuestion(t.questions, r.mockIds.value[r.mockIndex.GetOr(0)]).value
  }

  /** The POST is judged correct: its choice id names a correct choice of question `q`. */
  predicate JudgedCorrect(t: Tables, q: Question, req: Request) {
    req.Post? && req.choice.Id? && ChosenChoice(t, q, req.choice).Some? && ChosenChoice(t, q, req.choice).value.isCorrect
  }

  /** A submission is correct exactly when some correct choice of the current question has the posted id. */
  lemma {:induction false} JudgedCorrectMeans(t: Tables, q: Question, req: Request)
    requires Valid(t)
    ensures JudgedCorrect(t, q, req) <==>
      req.Post? && req.choice.Id? && exists c :: c in t.choices && c.id == req.choice.n && c.question == q.id && c.isCorrect
  {
    if req.Post? && req.choice.Id? && (exists c :: c in t.choices && c.id == req.choice.n && c.question == q.id && c.isCorrect) {
      var c :| c in t.choices && c.id == req.choice.n && c.question == q.id && c.isCorrect;
      FindChoiceOfRow(t.choices, c);
    }
  }

  /** Answering keeps the question set and fills in the start time if it was missing. */
  lemma {:induction false} StepKeepsSet(t: Tables, r: SessionRecord, now: int, req: Request, matcher: (string, string) -> seq<Opcode>, shuffled: seq<nat>)
    requires Answering(t, r, now)
    ensures var o := SessionStep(t, r, now, req, matcher, shuffled);
      o.session.mockIds == r.mockIds && o.session.mockStartedAt == Some(r.mockStartedAt.GetOr(now))
  {
    var started := r.mockStartedAt.GetOr(now);
    SessionStepAnswers(t, r, now, req, matcher, shuffled);
    AnswerStepSession(t, r.(mockStartedAt := Some(started)), CurrentQuestion(t, r), r.mockIndex.GetOr(0), |r.mockIds.value|,
                      Remaining(Elapsed(started, now)), req, matcher, shuffled);
  }

  /** The score rises by exactly one on a correct judgement and is otherwise unchanged. */
  lemma {:induction false} StepScore(t: Tables, r: SessionRecord, now: int, req: Request, matcher: (string, string) -> seq<Opcode>, shuffled: seq<nat>)
    requires Answering(t, r, now)
    ensures SessionStep(t, r, now, req, matcher, shuffled).session.mockCorrect
      == if JudgedCorrect(t, CurrentQuestion(t, r), req) then Some(r.mockCorrect.GetOr(0) + 1) else r.mockCorrect
  {
    var started := r.mockStartedAt.GetOr(now);
    var r0 := r.(mockStartedAt := Some(started));
    var q := CurrentQuestion(t, r);
    var a := AnswerStep(t, r0, q, r.mockIndex.GetOr(0), |r.mockIds.value|, Remaining(Elapsed(started, now)), req, matcher, shuffled);
    SessionStepAnswers(t, r, now, req, matcher, shuffled);
    AnswerStepScore(t, r0, q, r.mockIndex.GetOr(0), |r.mockIds.value|, Remaining(Elapsed(started, now)), req, matcher, shuffled);
    assert a.session.mockCorrect == if JudgedCorrect(t, q, req) then Some(r0.mockCorrect.GetOr(0) + 1) else r0.mockCorrect;
  }

  /** The answer step raises the stored score by one exactly on a correct judgement. */
  lemma {:induction false} AnswerStepScore(t: Tables, r: SessionRecord, q: Question, idx: nat, total: nat, remaining: nat,
                        req: Request, matcher: (string, string) -> seq<Opcode>, shuffled: seq<nat>)
    ensures AnswerStep(t, r, q, idx, total, remaining, req, matcher, shuffled).session.mockCorrect
      == if JudgedCorrect(t, q, req) then Some(r.mockCorrect.GetOr(0) + 1) else r.mockCorrect
  {
    var warn := req.Post? && req.choice.Absent? && !req.next;
    var judged := req.Post? && !warn;
    var chosen := if judged then ChosenChoice(t, q, req.choice) else None;
    assert (judged && chosen.Some? && chosen.value.isCorrect) == JudgedCorrect(t, q, req);
  }

  /**
   * The index moves on by exactly one when `next` is posted and is otherwise unchanged;
   * only then is the user redirected to the next question.
   */
  lemma {:induction false} StepIndex(t: Tables, r: SessionRecord, now: int, req: Request, matcher: (string, string) -> seq<Opcode>, shuffled: seq<nat>)
    requires Answering(t, r, now)
    ensures var o := SessionStep(t, r, now, req, matcher, shuffled);
      && o.session.mockIndex == (if req.Post? && req.next then Some(r.mockIndex.GetOr(0) + 1) else r.mockIndex)
      && (req.Post? && req.next <==> o.page == ToSession)
  {
    var started := r.mockStartedAt.GetOr(now);
    SessionStepAnswers(t, r, now, req, matcher, shuffled);
    AnswerStepSession(t, r.(mockStartedAt := Some(started)), CurrentQuestion(t, r), r.mockIndex.GetOr(0), |r.mockIds.value|,
                      Remaining(Elapsed(started, now)), req, matcher, shuffled);
  }

  lemma {:induction false} SessionStepAnswers(t: Tables, r: SessionRecord, now: int, req: Request, matcher: (string, string) -> seq<Opcode>, shuffled: seq<nat>)
    requires Answering(t, r, now)
    ensures var started := r.mockStartedAt.GetOr(now);
      SessionStep(t, r, now, req, matcher, shuffled)
      == AnswerStep(t, r.(mockStartedAt := Some(started)), CurrentQuestion(t, r), r.mockIndex.GetOr(0), |r.mockIds.value|,
                    Remaining(Elapsed(started, now)), req, matcher, shuffled)
  {
    var started := r.mockStartedAt.GetOr(now);
    assert Remaining(Elapsed(started, now)) != 0;
  }

  /**
   * The answer step keeps the set and the start time, moves the index on exactly when `next`
   * is posted, and only then redirects.
   */
  lemma {:induction false} AnswerStepSession(t: Tables, r: SessionRecord, q: Question, idx: nat, total: nat, remaining: nat,
                          req: Request, matcher: (string, string) -> seq<Opcode>, shuffled: seq<nat>)
    requires idx == r.mockIndex.GetOr(0)
    ensures var o := AnswerStep(t, r, q, idx, total, remaining, req, matcher, shuffled);
      && o.session.mockIds == r.mockIds
      && o.session.mockStartedAt == r.mockStartedAt
      && o.session.mockIndex == (if req.Post? && req.next then Some(idx + 1) else r.mockIndex)
      && (req.Post? && req.next <==> o.page == ToSession)
  {
    var warn := req.Post? && req.choice.Absent? && !req.next;
    var judged := req.Post? && !warn;
    assert (judged && req.next) == (req.Post? && req.next);
  }

  /** A POST with neither a choice nor `next` only warns: score, index and set stay as they were. */
  lemma {:induction false} StepNoChoice(t: Tables, r: SessionRecord, now: int, matcher: (string, string) -> seq<Opcode>, shuffled: seq<nat>)
    requires Answering(t, r, now)
    ensures var o := SessionStep(t, r, now, Post(Absent, false), matcher, shuffled);
      && o.session.mockIds == r.mockIds && o.session.mockCorrect == r.mockCorrect && o.session.mockIndex == r.mockIndex
      && o.msgs == [ChooseWarning] && o.page.SessionPage? && !o.page.view.judged
  {
  }

  /**
   * The score counts every correct POST, not every question: posting the same correct
   * answer twice without `next` scores two.
   */
  lemma {:induction false} RepostCountsTwice(t: Tables, r: SessionRecord, now: int, cid: nat, matcher: (string, string) -> seq<Opcode>, s1: seq<nat>, s2: seq<nat>)
    requires Answering(t, r, now)
    requires JudgedCorrect(t, CurrentQuestion(t, r), Post(Id(cid), false))
    ensures var r1 := SessionStep(t, r, now, Post(Id(cid), false), matcher, s1).session;
      && Answering(t, r1, now)
      && SessionStep(t, r1, now, Post(Id(cid), false), matcher, s2).session.mockCorrect == Some(r.mockCorrect.GetOr(0) + 2)
  {
    var req := Post(Id(cid), false);
    StepKeepsSet(t, r, now, req, matcher, s1);
    StepScore(t, r, now, req, matcher, s1);
    StepIndex(t, r, now, req, matcher, s1);
    var r1 := SessionStep(t, r, now, req, matcher, s1).session;
    assert CurrentQuestion(t, r1) == CurrentQuestion(t, r);
    StepScore(t, r1, now, req, matcher, s2);
  }

  /**
   * A wrong answer renders the explanation: the diff of the chosen text against the correct
   * text and at most three hints; a correct one renders neither.
   */
  lemma {:induction false} StepExplains(t: Tables, r: SessionRecord, now: int, req: Request, matcher: (string, string) -> seq<Opcode>, shuffled: seq<nat>)
    requires Answering(t, r, now) && req.Post? && !req.next && !req.choice.Absent?
    ensures var o := SessionStep(t, r, now, req, matcher, shuffled);
      var q := CurrentQuestion(t, r);
      && o.page.SessionPage? && o.page.view.judged
      && (o.page.view.wasCorrect <==> JudgedCorrect(t, q, req))
      && (JudgedCorrect(t, q, req) ==> o.page.view.diffHtml == "" && o.page.view.hints == [])
      && |o.page.view.hints| <= 3
  {
    var q := CurrentQuestion(t, r);
    ExtractHintsBounded(q.stem, CorrectText(t, q), 3);
  }

  // ---------------------------------------------------------------------------
  // mock_result
  // ---------------------------------------------------------------------------

  /** The mock-mode attempts of `user`, in the order of `history`. */
  function MockOf(history: seq<Attempt>, user: string): (r: seq<Attempt>)
    ensures |r| <= |history|
    ensures forall a :: a in r <==> a in history && a.user == user && a.mode == MockMode
  {
    if history == [] then []
    else (if history[0].user == user && history[0].mode == MockMode then [history[0]] else []) + MockOf(history[1..], user)
  }

  /** The newest `total` mock-mode attempts of `user`, newest first. */
  function RecentMock(history: seq<Attempt>, user: string, total: nat): (r: seq<Attempt>)
    ensures |r| <= total
    ensures forall a :: a in r ==> a in history && a.user == user && a.mode == MockMode
    ensures r == MockOf(history, user)[..Min(total, |MockOf(history, user)|)]
  {
    if history == [] || total == 0 then []
    else if history[0].user == user && history[0].mode == MockMode then [history[0]] + RecentMock(history[1..], user, total - 1)
    else RecentMock(history[1..], user, total)
  }

  /** Every attempt's question is in the tables (the foreign key holds). */
  predicate AttemptsResolve(t: Tables, atts: seq<Attempt>) {
    forall k :: 0 <= k < |atts| ==> FindQuestion(t.questions, atts[k].question).Some?
  }

  function ChapterOfAttempt(t: Tables, a: Attempt): nat
    requires FindQuestion(t.questions, a.question).Some?
  {
    FindQuestion(t.questions, a.question).value.chapter
  }

  /** The number of attempts on questions of chapter `ch`. */
  function CountIn(t: Tables, atts: seq<Attempt>, ch: nat): nat
    requires AttemptsResolve(t, atts)
  {
    if atts == [] then 0
    else CountIn(t, atts[..|atts| - 1], ch) + (if ChapterOfAttempt(t, atts[|atts| - 1]) == ch then 1 else 0)
  }

  /** The number of correct attempts on questions of chapter `ch`. */
  function CorrectIn(t: Tables, atts: seq<Attempt>, ch: nat): nat
    requires AttemptsResolve(t, atts)
  {
    if atts == [] then 0
    else
      CorrectIn(t, atts[..|atts| - 1], ch)
      + (if ChapterOfAttempt(t, atts[|atts| - 1]) == ch && atts[|atts| - 1].isCorrect then 1 else 0)
  }

  /** A chapter never has more correct answers than answers. */
  lemma {:induction false} CorrectAtMostCount(t: Tables, atts: seq<Attempt>, ch: nat)
    requires AttemptsResolve(t, atts)
    ensures CorrectIn(t, atts, ch) <= CountIn(t, atts, ch)
  {
    if atts != [] {
      CorrectAtMostCount(t, atts[..|atts| - 1], ch);
    }
  }

  /** `stat` is the per-chapter tally of `atts`: a chapter appears iff it was answered at least once. */
  ghost predicate IsTally(t: Tables, atts: seq<Attempt>, stat: map<nat, Tally>)
    requires AttemptsResolve(t, atts)
  {
    forall ch :: (ch in stat <==> CountIn(t, atts, ch) > 0)
      && (ch in stat ==> stat[ch] == Tally(CorrectIn(t, atts, ch), CountIn(t, atts, ch)))
  }

  /** `ch_stat` after counting one more attempt, on chapter `ch`. */
  function TallyAdd(stat: map<nat, Tally>, ch: nat, isCorrect: bool): map<nat, Tally> {
    var prev := if ch in stat then stat[ch] else Tally(0, 0);
    stat[ch := Tally(prev.c + (if isCorrect then 1 else 0), prev.n + 1)]
  }

  lemma {:induction false} TallyStep(t: Tables, atts: seq<Attempt>, stat: map<nat, Tally>, a: Attempt)
    requires FindQuestion(t.questions, a.question).Some?
    requires AttemptsResolve(t, atts + [a]) && AttemptsResolve(t, atts) && IsTally(t, atts, stat)
    ensures IsTally(t, atts + [a], TallyAdd(stat, ChapterOfAttempt(t, a), a.isCorrect))
  {
    assert (atts + [a])[..|atts|] == atts;
    var next := TallyAdd(stat, ChapterOfAttempt(t, a), a.isCorrect);
    forall ch
      ensures (ch in next <==> CountIn(t, atts + [a], ch) > 0)
        && (ch in next ==> next[ch] == Tally(CorrectIn(t, atts + [a], ch), CountIn(t, atts + [a], ch)))
    {
      assert CountIn(t, atts + [a], ch) == CountIn(t, atts, ch) + (if ChapterOfAttempt(t, a) == ch then 1 else 0);
      CorrectAtMostCount(t, atts, ch);
      assert CorrectIn(t, atts + [a], ch) == CorrectIn(t, atts, ch) + (if ChapterOfAttempt(t, a) == ch && a.isCorrect then 1 else 0);
    }
  }

  /** The `ch_stat` loop of `mock_result`. */
  method TallyByChapter(t: Tables, atts: seq<Attempt>) returns (stat: map<nat, Tally>)
    requires AttemptsResolve(t, atts)
    ensures IsTally(t, atts, stat)
  {
    stat := map[];
    var k := 0;
    while k < |atts|
      invariant k <= |atts|
      invariant AttemptsResolve(t, atts[..k])
      invariant IsTally(t, atts[..k], stat)
    {
      var a := atts[k];
      assert atts[..k + 1] == atts[..k] + [a];
      var ch := ChapterOfAttempt(t, a);
      TallyStep(t, atts[..k], stat, a);
      ghost var next := TallyAdd(stat, ch, a.isCorrect);
      if ch !in stat {
        stat := stat[ch := Tally(0, 0)];
      }
      stat := stat[ch := Tally(stat[ch].c + (if a.isCorrect then 1 else 0), stat[ch].n + 1)];
      assert stat == next;
      k := k + 1;
    }
    assert atts[..k] == atts;
  }

  /**
   * `mock_result`: the score of the set in the session and a per-chapter tally of the
   * user's newest mock attempts (as many as the set had questions); clears the set, the
   * index and the score but keeps the start time. `history` is the attempt table, newest first.
   */
  method MockResult(t: Tables, s: Session, user: string, history: seq<Attempt>) returns (page: Page)
    requires AttemptsResolve(t, history)
    modifies s
    ensures var ids := if old(s.mockIds).Some? then old(s.mockIds).value else [];
      var recent := RecentMock(history, user, |ids|);
      && AttemptsResolve(t, recent)
      && page.ResultPage? && page.total == |ids| && page.score == old(s.mockCorrect).GetOr(0)
      && IsTally(t, recent, page.chStat)
    ensures s.Record() == old(s.Record()).(mockIds := None, mockIndex := None, mockCorrect := None)
  {
    var ids := if s.mockIds.Some? then s.mockIds.value else [];
    var total := |ids|;
    var score := s.mockCorrect.GetOr(0);
    var recent := RecentMock(history, user, total);
    assert AttemptsResolve(t, recent) by {
      forall k | 0 <= k < |recent| ensures FindQuestion(t.questions, recent[k].question).Some? {
        assert recent[k] in history;
        var j :| 0 <= j < |history| && history[j] == recent[k];
      }
    }
    var stat := TallyByChapter(t, recent);
    s.mockIds := None;
    s.mockIndex := None;
    s.mockCorrect := None;
    page := ResultPage(total, score, stat);
  }
}
