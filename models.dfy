/**
 * Record shapes of the question bank: chapters, questions, choices and attempts,
 * the enumerations behind their `choices=` declarations, and the `__str__` formatters.
 */
module Models {
  import opened Wrappers

  /** The kinds a question may declare; the column itself is free text. */
  datatype Kind = Single | Multi | Judge

  /** The stored spelling of each kind. */
  function KindName(k: Kind): string {
    match k
    case Single => "single"
    case Multi => "multi"
    case Judge => "judge"
  }

  /** The kind a question gets when none is given. */
  const DefaultKind: Kind := Single

  /** Reads a stored kind back; any other text is not a declared kind. */
  function ParseKind(s: string): (r: Option<Kind>)
    ensures r.Some? ==> KindName(r.value) == s
  {
    if s == "single" then Some(Single)
    else if s == "multi" then Some(Multi)
    else if s == "judge" then Some(Judge)
    else None
  }

  /** Every declared kind is read back as itself, so the stored spellings are distinct. */
  lemma {:induction false} KindNameRoundTrip(k: Kind)
    ensures ParseKind(KindName(k)) == Some(k)
  {
  }

  /** The purpose an attempt was recorded for. */
  datatype Mode = MockMode | RehabMode | SrsMode

  function ModeName(m: Mode): string {
    match m
    case MockMode => "mock"
    case RehabMode => "rehab"
    case SrsMode => "srs"
  }

  /** A chapter of the official syllabus; `num` is its unique identity. */
  datatype Chapter = Chapter(num: nat, title: string, officialQuota: nat)

  /** A question refers to its chapter by number (the chapter's unique key); `kind` is the stored text. */
  datatype Question = Question(id: nat, chapter: nat, kind: string, stem: string, note: string, isExcluded: bool)

  /** One answer option of a question. */
  datatype Choice = Choice(id: nat, question: nat, text: string, isCorrect: bool)

  /** One recorded answer; `box` is the Leitner level, never promoted by any code of the system. */
  datatype Attempt = Attempt(id: nat, user: string, question: nat, isCorrect: bool, mode: Mode, box: nat)

  /** The box an attempt gets when none is given. */
  const DefaultBox: nat := 0

  /** The range the box column is documented to take; nothing enforces it. */
  predicate BoxInDocumentedRange(a: Attempt) {
    a.box <= 4
  }

  // ---------------------------------------------------------------------------
  // Decimal rendering of integers, as `f"{n}"` prints a non-negative int.

  predicate IsDigit(c: char) {
    '0' <= c <= '9'
  }

  predicate AllDigits(s: string) {
    forall i :: 0 <= i < |s| ==> IsDigit(s[i])
  }

  function DigitChar(d: nat): (c: char)
    requires d < 10
    ensures IsDigit(c) && c as int - '0' as int == d
  {
    (d + '0' as int) as char
  }

  /** The decimal digits of `n`, most significant first, without leading zeros. */
  function NatToString(n: nat): (s: string)
    ensures |s| > 0 && AllDigits(s)
    ensures s[0] == '0' ==> n == 0 && s == "0"
    decreases n
  {
    if n < 10 then [DigitChar(n)] else NatToString(n / 10) + [DigitChar(n % 10)]
  }

  /** The number a string of decimal digits denotes. */
  function DigitsValue(s: string): nat
    requires AllDigits(s)
  {
    if s == [] then 0 else DigitsValue(s[..|s| - 1]) * 10 + (s[|s| - 1] as int - '0' as int)
  }

  /** Rendering a number in decimal and reading it back gives the number. */
  lemma {:induction false} NatToStringRoundTrip(n: nat)
    ensures DigitsValue(NatToString(n)) == n
  {
    if n >= 10 {
      NatToStringRoundTrip(n / 10);
      var s := NatToString(n);
      assert s[..|s| - 1] == NatToString(n / 10);
    }
  }

  /** The first `n` characters of `s`, or all of it when shorter (Python's `s[:n]`). */
  function Truncate(s: string, n: nat): (r: string)
    ensures |r| == if |s| <= n then |s| else n
    ensures r <= s
  {
    if |s| <= n then s else s[..n]
  }

  // ---------------------------------------------------------------------------
  // `__str__` of each model.

  /** `Ch{num}: {title} ({official_quota})`. */
  function ChapterStr(c: Chapter): (r: string)
    ensures |r| >= 5 && r[..2] == "Ch" && r[|r| - 1] == ')'
    ensures var k := |NatToString(c.num)|;
      2 + k + 2 <= |r| && AllDigits(r[2..2 + k]) && DigitsValue(r[2..2 + k]) == c.num && r[2 + k..4 + k] == ": "
    ensures var k := |NatToString(c.num)|;
      4 + k + |c.title| <= |r| && r[4 + k..4 + k + |c.title|] == c.title
      && r[4 + k + |c.title|..] == " (" + NatToString(c.officialQuota) + ")"
  {
    var digits := NatToString(c.num);
    NatToStringRoundTrip(c.num);
    var tail := " (" + NatToString(c.officialQuota) + ")";
    var r := "Ch" + digits + ": " + c.title + tail;
    assert r == "Ch" + digits + ": " + (c.title + tail);
    assert r[2..2 + |digits|] == digits;
    assert r[4 + |digits|..] == c.title + tail;
    r
  }

  /** `[Ch{chapter}] {stem[:40]}...`: the stem is cut to its first 40 characters. */
  function QuestionStr(q: Question): (r: string)
    ensures |r| >= 3 + |NatToString(q.chapter)| + 2 + 3
    ensures r[..3] == "[Ch" && r[|r| - 3..] == "..."
    ensures var k := |NatToString(q.chapter)|; r[3..3 + k] == NatToString(q.chapter) && r[3 + k..5 + k] == "] "
    ensures var shown := r[3 + |NatToString(q.chapter)| + 2..|r| - 3];
      shown <= q.stem && |shown| == (if |q.stem| <= 40 then |q.stem| else 40)
  {
    var prefix := "[Ch" + NatToString(q.chapter) + "] ";
    var shown := Truncate(q.stem, 40);
    var r := prefix + shown + "...";
    assert r[|prefix|..|r| - 3] == shown;
    r
  }

  /** The check mark shown before a correct choice. */
  const CheckMark: char := '✓'

  /** `{mark} {text[:40]}...` with the check mark for a correct choice and a space otherwise. */
  function ChoiceStr(c: Choice): (r: string)
    ensures |r| >= 5 && r[1] == ' ' && r[|r| - 3..] == "..."
    ensures r[0] == CheckMark <==> c.isCorrect
    ensures !c.isCorrect ==> r[0] == ' '
    ensures var shown := r[2..|r| - 3]; shown <= c.text && |shown| == (if |c.text| <= 40 then |c.text| else 40)
  {
    var mark := if c.isCorrect then CheckMark else ' ';
    var shown := Truncate(c.text, 40);
    var r := [mark] + " " + shown + "...";
    assert r[2..|r| - 3] == shown;
    r
  }

  /** The cross shown for a wrong attempt. */
  const CrossMark: char := '×'

  /** `{username} {mark} Q{question_id} ({mode})`, the mark being a check for a correct attempt and a cross otherwise. */
  function AttemptStr(a: Attempt): (r: string)
    ensures |r| > |a.user| + 1 && r[..|a.user|] == a.user && r[|a.user|] == ' '
    ensures r[|a.user| + 1] == (if a.isCorrect then CheckMark else CrossMark)
    ensures r[|a.user| + 2..] == " Q" + NatToString(a.question) + " (" + ModeName(a.mode) + ")"
    ensures r[|r| - 1] == ')'
  {
    var tail := " Q" + NatToString(a.question) + " (" + ModeName(a.mode) + ")";
    var r := a.user + " " + [if a.isCorrect then CheckMark else CrossMark] + tail;
    assert r == (a.user + " " + [if a.isCorrect then CheckMark else CrossMark]) + tail;
    r
  }
}
