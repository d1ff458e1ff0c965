/**
 * The wrong-answer explainer: an HTML rendering of a character diff between the chosen
 * and the correct answer, and keyword hints drawn from a small knowledge base.
 *
 * The diff itself comes from difflib's `SequenceMatcher`, which is not modelled: its
 * opcode list is an input, and `Tiles` states the shape difflib promises for it.
 */
module SmartExplain {
  import opened Wrappers
  import opened Seqs

  // ---------------------------------------------------------------------------
  // Escaping (`html.escape(s or "", quote=False)`)
  // ---------------------------------------------------------------------------

  /** The replacement of one character: `&`, `<` and `>` become entities, quotes stay. */
  function EscChar(c: char): string {
    if c == '&' then "&amp;"
    else if c == '<' then "&lt;"
    else if c == '>' then "&gt;"
    else [c]
  }

  /** Text with no `<` or `>`, so no tag. */
  predicate NoMarkup(p: string) {
    forall k :: 0 <= k < |p| ==> p[k] != '<' && p[k] != '>'
  }

  /** No markup character is left in escaped text. */
  function EscText(s: string): (r: string)
    ensures NoMarkup(r)
  {
    if s == [] then [] else EscChar(s[0]) + EscText(s[1..])
  }

  /** Text without `&`, `<` and `>` is left unchanged; in particular quotes are not escaped. */
  lemma {:induction false} EscTextIdentity(s: string)
    requires forall k :: 0 <= k < |s| ==> s[k] != '&' && s[k] != '<' && s[k] != '>'
    ensures EscText(s) == s
  {
    if s != [] {
      EscTextIdentity(s[1..]);
      assert s == [s[0]] + s[1..];
    }
  }

  /** `_esc`: an absent value is escaped as the empty string. */
  function Esc(s: Option<string>): (r: string)
    ensures s.None? ==> r == ""
    ensures NoMarkup(r)
  {
    EscText(s.GetOr(""))
  }

  /** Escaping is applied character by character, so it distributes over concatenation. */
  lemma {:induction false} EscTextAppend(x: string, y: string)
    ensures EscText(x + y) == EscText(x) + EscText(y)
  {
    if x != [] {
      assert (x + y)[1..] == x[1..] + y;
      EscTextAppend(x[1..], y);
    } else {
      assert x + y == y;
    }
  }

  /** The reading of an HTML text node back into characters (the three entities only). */
  function Unescape(s: string): string
    decreases |s|
  {
    if s == [] then []
    else if s[0] == '&' && |s| >= 5 && s[..5] == "&amp;" then "&" + Unescape(s[5..])
    else if s[0] == '&' && |s| >= 4 && s[..4] == "&lt;" then "<" + Unescape(s[4..])
    else if s[0] == '&' && |s| >= 4 && s[..4] == "&gt;" then ">" + Unescape(s[4..])
    else [s[0]] + Unescape(s[1..])
  }

  lemma {:induction false} UnescapeEscChar(c: char, tail: string)
    ensures Unescape(EscChar(c) + tail) == [c] + Unescape(tail)
  {
    var s := EscChar(c) + tail;
    if c == '&' {
      assert s[..5] == "&amp;" && s[5..] == tail;
    } else if c == '<' {
      assert s[..4] == "&lt;" && s[4..] == tail;
      assert !(|s| >= 5 && s[..5] == "&amp;") by {
        assert s[1] == 'l';
      }
    } else if c == '>' {
      assert s[..4] == "&gt;" && s[4..] == tail;
      assert !(|s| >= 5 && s[..5] == "&amp;") by {
        assert s[1] == 'g';
      }
      assert s[..4] != "&lt;" by {
        assert s[..4][1] == 'g';
      }
    } else {
      assert s[0] == c && s[1..] == tail;
    }
  }

  /** Escaping a non-empty text escapes its first character, then the rest. */
  lemma {:induction false} EscTextCons(s: string, rest: string)
    requires s != []
    ensures EscText(s) + rest == EscChar(s[0]) + (EscText(s[1..]) + rest)
  {
    ConcatAssoc(EscChar(s[0]), EscText(s[1..]), rest);
  }

  /** Reading escaped text back gives the original text, whatever follows it. */
  lemma {:induction false} UnescapeEscText(s: string, rest: string)
    ensures Unescape(EscText(s) + rest) == s + Unescape(rest)
  {
    if s != [] {
      var c := s[0];
      var tail := EscText(s[1..]) + rest;
      calc {
        Unescape(EscText(s) + rest);
        { EscTextCons(s, rest); }
        Unescape(EscChar(c) + tail);
        { UnescapeEscChar(c, tail); }
        [c] + Unescape(tail);
        { UnescapeEscText(s[1..], rest); }
        [c] + (s[1..] + Unescape(rest));
        { assert s == [c] + s[1..]; }
        s + Unescape(rest);
      }
    } else {
      assert EscText(s) + rest == rest;
    }
  }

  // ---------------------------------------------------------------------------
  // Diff rendering (`build_diff_html`)
  // ---------------------------------------------------------------------------

  datatype Tag = Equal | Replace | Delete | Insert

  /** One `(tag, i1, i2, j1, j2)` tuple of `get_opcodes()`. */
  datatype Opcode = Opcode(tag: Tag, i1: nat, i2: nat, j1: nat, j2: nat)

  /** Python's `s[i:j]` for non-negative bounds: both are clamped to the length. */
  function Slice(s: string, i: nat, j: nat): (r: string)
    ensures i <= j <= |s| ==> r == s[i..j]
    ensures |r| <= |s|
  {
    var lo := if i < |s| then i else |s|;
    var hi := if j < |s| then j else |s|;
    if lo < hi then s[lo..hi] else []
  }

  /** The chunk rendered for one opcode. */
  function Chunk(a: string, b: string, op: Opcode): string {
    match op.tag
    case Equal => EscText(Slice(a, op.i1, op.i2))
    case Replace => "<del>" + EscText(Slice(a, op.i1, op.i2)) + "</del>" + "<ins>" + EscText(Slice(b, op.j1, op.j2)) + "</ins>"
    case Delete => "<del>" + EscText(Slice(a, op.i1, op.i2)) + "</del>"
    case Insert => "<ins>" + EscText(Slice(b, op.j1, op.j2)) + "</ins>"
  }

  /** The chunks for an opcode list, one per opcode and in its order. */
  function Chunks(a: string, b: string, ops: seq<Opcode>): (r: seq<string>)
    ensures |r| == |ops| && forall k :: 0 <= k < |ops| ==> r[k] == Chunk(a, b, ops[k])
  {
    seq(|ops|, k requires 0 <= k < |ops| => Chunk(a, b, ops[k]))
  }

  /** The rendered diff of `a` against `b`. */
  function DiffHtml(a: string, b: string, ops: seq<Opcode>): string {
    Concat(Chunks(a, b, ops))
  }

  /**
   * `build_diff_html`: absent texts count as empty; one chunk is appended per opcode and
   * the chunks are joined.
   */
  method BuildDiffHtml(chosen: Option<string>, correct: Option<string>, ops: seq<Opcode>) returns (html: string)
    ensures html == DiffHtml(chosen.GetOr(""), correct.GetOr(""), ops)
  {
    var a := chosen.GetOr("");
    var b := correct.GetOr("");
    var chunks: seq<string> := [];
    var k := 0;
    while k < |ops|
      invariant 0 <= k <= |ops|
      invariant chunks == Chunks(a, b, ops[..k])
    {
      var op := ops[k];
      var chunk;
      match op.tag {
        case Equal => chunk := EscText(Slice(a, op.i1, op.i2));
        case Replace =>
          chunk := "<del>" + EscText(Slice(a, op.i1, op.i2)) + "</del>" + "<ins>" + EscText(Slice(b, op.j1, op.j2)) + "</ins>";
        case Delete => chunk := "<del>" + EscText(Slice(a, op.i1, op.i2)) + "</del>";
        case Insert => chunk := "<ins>" + EscText(Slice(b, op.j1, op.j2)) + "</ins>";
      }
      chunks := chunks + [chunk];
      k := k + 1;
    }
    assert ops[..k] == ops;
    html := Concat(chunks);
  }

  /** The shape difflib gives each opcode: non-empty ranges, and equal slices for `equal`. */
  predicate Shaped(op: Opcode, a: string, b: string)
    requires op.i1 <= op.i2 <= |a| && op.j1 <= op.j2 <= |b|
  {
    match op.tag
    case Equal => op.i1 < op.i2 && a[op.i1..op.i2] == b[op.j1..op.j2]
    case Replace => op.i1 < op.i2 && op.j1 < op.j2
    case Delete => op.i1 < op.i2 && op.j1 == op.j2
    case Insert => op.i1 == op.i2 && op.j1 < op.j2
  }

  /** `ops` covers `a[i..]` and `b[j..]` with adjacent, well-shaped ranges, in order. */
  predicate Tiles(ops: seq<Opcode>, a: string, b: string, i: nat, j: nat)
    decreases |ops|
  {
    i <= |a| && j <= |b| &&
    if ops == [] then i == |a| && j == |b|
    else
      var op := ops[0];
      op.i1 == i && op.j1 == j && i <= op.i2 <= |a| && j <= op.j2 <= |b| &&
      Shaped(op, a, b) && Tiles(ops[1..], a, b, op.i2, op.j2)
  }

  // Reading a rendered diff back: escaped text holds no `<` or `>`, so every `<` opens a
  // tag. The chosen side keeps the `<del>` text and drops the `<ins>` blocks; the correct
  // side does the opposite.

  datatype Side = ChosenSide | CorrectSide
  datatype TagName = Del | Ins

  function Open(n: TagName): string {
    if n.Del? then "<del>" else "<ins>"
  }

  function Close(n: TagName): string {
    if n.Del? then "</del>" else "</ins>"
  }

  function Initial(n: TagName): char {
    if n.Del? then 'd' else 'i'
  }

  /** The blocks a side drops. */
  function Hidden(side: Side): TagName {
    if side.ChosenSide? then Ins else Del
  }

  /** Drops everything up to and including the first `>`. */
  function AfterTag(s: string): (r: string)
    ensures s != [] ==> |r| < |s|
  {
    if s == [] then [] else if s[0] == '>' then s[1..] else AfterTag(s[1..])
  }

  /** Drops text up to the next `<`. */
  function ToNextTag(s: string): (r: string)
    ensures |r| <= |s|
  {
    if s == [] then [] else if s[0] == '<' then s else ToNextTag(s[1..])
  }

  /** The still-escaped text of one side of a rendered diff. */
  function SideText(s: string, side: Side): string
    decreases |s|
  {
    if s == [] then []
    else if s[0] != '<' then [s[0]] + SideText(s[1..], side)
    else if |s| > 1 && s[1] == Initial(Hidden(side)) then SideText(AfterTag(ToNextTag(AfterTag(s))), side)
    else SideText(AfterTag(s), side)
  }

  /** One side of a rendered diff, as characters. */
  function SideView(html: string, side: Side): string {
    Unescape(SideText(html, side))
  }

  lemma {:induction false} SideTextPlain(p: string, rest: string, side: Side)
    requires NoMarkup(p)
    ensures SideText(p + rest, side) == p + SideText(rest, side)
  {
    if p != [] {
      var s := p + rest;
      assert s[0] == p[0];
      assert s[1..] == p[1..] + rest;
      SideTextPlain(p[1..], rest, side);
      assert p + SideText(rest, side) == [p[0]] + (p[1..] + SideText(rest, side));
    } else {
      assert p + rest == rest;
    }
  }

  /** A tag is skipped whole. */
  lemma {:induction false} AfterTagSkips(t: string, rest: string)
    requires |t| > 0 && t[|t| - 1] == '>'
    requires forall k :: 0 <= k < |t| - 1 ==> t[k] != '>'
    ensures AfterTag(t + rest) == rest
  {
    var s := t + rest;
    assert s[0] == t[0];
    if |t| == 1 {
      assert s[1..] == rest;
    } else {
      assert s[1..] == t[1..] + rest;
      AfterTagSkips(t[1..], rest);
    }
  }

  lemma {:induction false} ToNextTagPlain(p: string, rest: string)
    requires NoMarkup(p) && |rest| > 0 && rest[0] == '<'
    ensures ToNextTag(p + rest) == rest
  {
    if p == [] {
      assert p + rest == rest;
    } else {
      var s := p + rest;
      assert s[0] == p[0];
      assert s[1..] == p[1..] + rest;
      ToNextTagPlain(p[1..], rest);
    }
  }

  /** A block the side shows contributes its text. */
  lemma {:induction false} BlockShown(n: TagName, e: string, rest: string, side: Side)
    requires n != Hidden(side) && NoMarkup(e)
    ensures SideText(Open(n) + e + Close(n) + rest, side) == e + SideText(rest, side)
  {
    var t := Close(n) + rest;
    var s := Open(n) + (e + t);
    assert Open(n) + e + Close(n) + rest == s;
    assert s[0] == '<' && s[1] == Initial(n) && Initial(n) != Initial(Hidden(side));
    AfterTagSkips(Open(n), e + t);
    assert SideText(s, side) == SideText(e + t, side);
    SideTextPlain(e, t, side);
    assert t[0] == '<' && t[1] == '/';
    AfterTagSkips(Close(n), rest);
    assert SideText(t, side) == SideText(rest, side);
  }

  /** A block the side drops contributes nothing. */
  lemma {:induction false} BlockHidden(n: TagName, e: string, rest: string, side: Side)
    requires n == Hidden(side) && NoMarkup(e)
    ensures SideText(Open(n) + e + Close(n) + rest, side) == SideText(rest, side)
  {
    var t := Close(n) + rest;
    var s := Open(n) + (e + t);
    assert Open(n) + e + Close(n) + rest == s;
    assert s[0] == '<' && s[1] == Initial(n);
    AfterTagSkips(Open(n), e + t);
    ToNextTagPlain(e, t);
    AfterTagSkips(Close(n), rest);
  }

  /** A side shows the blocks it does not drop. */
  lemma {:induction false} Block(n: TagName, e: string, rest: string, side: Side)
    requires NoMarkup(e)
    ensures SideText(Open(n) + e + Close(n) + rest, side) == (if n == Hidden(side) then [] else e) + SideText(rest, side)
  {
    if n == Hidden(side) {
      BlockHidden(n, e, rest, side);
      assert [] + SideText(rest, side) == SideText(rest, side);
    } else {
      BlockShown(n, e, rest, side);
    }
  }

  /** The text one opcode contributes to a side, before escaping. */
  function SidePart(a: string, b: string, op: Opcode, side: Side): string {
    match side
    case ChosenSide => if op.tag.Insert? then [] else Slice(a, op.i1, op.i2)
    case CorrectSide =>
      if op.tag.Delete? then [] else if op.tag.Equal? then Slice(a, op.i1, op.i2) else Slice(b, op.j1, op.j2)
  }

  /** A replace chunk followed by `rest` is its deletion block followed by its insertion block and `rest`. */
  lemma {:induction false} ReplaceChunkSplit(ea: string, eb: string, rest: string)
    ensures "<del>" + ea + "</del>" + "<ins>" + eb + "</ins>" + rest
         == Open(Del) + ea + Close(Del) + (Open(Ins) + eb + Close(Ins) + rest)
  {
    var d := "<del>" + ea + "</del>";
    var i := "<ins>" + eb + "</ins>";
    ConcatAssoc(d, i, rest);
    assert "<del>" + ea + "</del>" + "<ins>" + eb + "</ins>" == d + i;
    assert Open(Ins) + eb + Close(Ins) + rest == i + rest;
  }

  /** One opcode's chunk contributes its side part, escaped, to each side. */
  lemma {:induction false} ChunkSide(a: string, b: string, op: Opcode, rest: string, side: Side)
    ensures SideText(Chunk(a, b, op) + rest, side) == EscText(SidePart(a, b, op, side)) + SideText(rest, side)
  {
    var ea := EscText(Slice(a, op.i1, op.i2));
    var eb := EscText(Slice(b, op.j1, op.j2));
    match op.tag {
      case Equal =>
        assert Chunk(a, b, op) == ea;
        SideTextPlain(ea, rest, side);
      case Delete =>
        DeleteChunkSide(a, b, op, rest, side);
      case Insert =>
        InsertChunkSide(a, b, op, rest, side);
      case Replace =>
        ReplaceChunkSide(a, b, op, rest, side);
    }
  }

  lemma {:induction false} DeleteChunkSide(a: string, b: string, op: Opcode, rest: string, side: Side)
    requires op.tag.Delete?
    ensures SideText(Chunk(a, b, op) + rest, side) == EscText(SidePart(a, b, op, side)) + SideText(rest, side)
  {
    var ea := EscText(Slice(a, op.i1, op.i2));
    assert Chunk(a, b, op) + rest == Open(Del) + ea + Close(Del) + rest;
    Block(Del, ea, rest, side);
    if side.ChosenSide? {
      assert SidePart(a, b, op, side) == Slice(a, op.i1, op.i2);
    } else {
      assert SidePart(a, b, op, side) == [] && EscText([]) == [];
    }
  }

  lemma {:induction false} InsertChunkSide(a: string, b: string, op: Opcode, rest: string, side: Side)
    requires op.tag.Insert?
    ensures SideText(Chunk(a, b, op) + rest, side) == EscText(SidePart(a, b, op, side)) + SideText(rest, side)
  {
    var eb := EscText(Slice(b, op.j1, op.j2));
    assert Chunk(a, b, op) + rest == Open(Ins) + eb + Close(Ins) + rest;
    Block(Ins, eb, rest, side);
    if side.ChosenSide? {
      assert SidePart(a, b, op, side) == [] && EscText([]) == [];
    } else {
      assert SidePart(a, b, op, side) == Slice(b, op.j1, op.j2);
    }
  }

  lemma {:induction false} ReplaceChunkSide(a: string, b: string, op: Opcode, rest: string, side: Side)
    requires op.tag.Replace?
    ensures SideText(Chunk(a, b, op) + rest, side) == EscText(SidePart(a, b, op, side)) + SideText(rest, side)
  {
    var ea := EscText(Slice(a, op.i1, op.i2));
    var eb := EscText(Slice(b, op.j1, op.j2));
    var tail := Open(Ins) + eb + Close(Ins) + rest;
    assert Chunk(a, b, op) == "<del>" + ea + "</del>" + "<ins>" + eb + "</ins>";
    ReplaceChunkSplit(ea, eb, rest);
    if side.ChosenSide? {
      BlockShown(Del, ea, tail, side);
      BlockHidden(Ins, eb, rest, side);
      assert SidePart(a, b, op, side) == Slice(a, op.i1, op.i2);
    } else {
      BlockHidden(Del, ea, tail, side);
      BlockShown(Ins, eb, rest, side);
      assert SidePart(a, b, op, side) == Slice(b, op.j1, op.j2);
    }
  }

  /** The rendering of a non-empty opcode list is the first chunk followed by the rest. */
  lemma {:induction false} DiffHtmlCons(a: string, b: string, ops: seq<Opcode>)
    requires ops != []
    ensures DiffHtml(a, b, ops) == Chunk(a, b, ops[0]) + DiffHtml(a, b, ops[1..])
  {
    var cs := Chunks(a, b, ops);
    assert cs == [cs[0]] + Chunks(a, b, ops[1..]);
    ConcatCons(cs[0], Chunks(a, b, ops[1..]));
  }

  /** Under a tiling, a side's remaining text is the first opcode's part and the text after it. */
  lemma {:induction false} SideRest(a: string, b: string, ops: seq<Opcode>, i: nat, j: nat, side: Side)
    requires Tiles(ops, a, b, i, j) && ops != []
    ensures (if side.ChosenSide? then a[i..] else b[j..])
      == SidePart(a, b, ops[0], side) + (if side.ChosenSide? then a[ops[0].i2..] else b[ops[0].j2..])
  {
    var op := ops[0];
    if side.ChosenSide? {
      assert a[i..] == a[i..op.i2] + a[op.i2..];
    } else {
      assert b[j..] == b[j..op.j2] + b[op.j2..];
    }
  }

  /** Under a tiling, the opcodes' parts of a side add up to that side's remaining text. */
  lemma {:induction false} DiffSide(a: string, b: string, ops: seq<Opcode>, i: nat, j: nat, side: Side)
    requires Tiles(ops, a, b, i, j)
    ensures SideText(DiffHtml(a, b, ops), side) == EscText(if side.ChosenSide? then a[i..] else b[j..])
    decreases |ops|
  {
    if ops == [] {
      assert Chunks(a, b, ops) == [];
      if side.ChosenSide? { assert a[i..] == []; } else { assert b[j..] == []; }
    } else {
      var op := ops[0];
      var part := SidePart(a, b, op, side);
      var whole := if side.ChosenSide? then a[i..] else b[j..];
      var after := if side.ChosenSide? then a[op.i2..] else b[op.j2..];
      SideRest(a, b, ops, i, j, side);
      calc {
        SideText(DiffHtml(a, b, ops), side);
        { DiffHtmlCons(a, b, ops); }
        SideText(Chunk(a, b, op) + DiffHtml(a, b, ops[1..]), side);
        { ChunkSide(a, b, op, DiffHtml(a, b, ops[1..]), side); }
        EscText(part) + SideText(DiffHtml(a, b, ops[1..]), side);
        { DiffSide(a, b, ops[1..], op.i2, op.j2, side); }
        EscText(part) + EscText(after);
        { EscTextAppend(part, after); }
        EscText(whole);
      }
    }
  }

  /**
   * The rendering loses nothing: for opcodes that tile both texts, dropping the `<ins>`
   * blocks reads back the chosen text and dropping the `<del>` blocks the correct one.
   */
  lemma {:induction false} DiffHtmlRoundTrip(a: string, b: string, ops: seq<Opcode>)
    requires Tiles(ops, a, b, 0, 0)
    ensures SideView(DiffHtml(a, b, ops), ChosenSide) == a
    ensures SideView(DiffHtml(a, b, ops), CorrectSide) == b
  {
    DiffSide(a, b, ops, 0, 0, ChosenSide);
    DiffSide(a, b, ops, 0, 0, CorrectSide);
    assert a[0..] == a && b[0..] == b;
    UnescapeEscText(a, []);
    UnescapeEscText(b, []);
    assert EscText(a) + [] == EscText(a) && EscText(b) + [] == EscText(b);
    assert a + [] == a && b + [] == b;
  }

  /** With an empty chosen text every opcode is an insertion, so the rendering is pure `<ins>`. */
  lemma {:induction false} EmptyChosenOnlyInserts(b: string, ops: seq<Opcode>, j: nat)
    requires Tiles(ops, "", b, 0, j)
    ensures forall k :: 0 <= k < |ops| ==> ops[k].tag == Insert
    decreases |ops|
  {
    if ops != [] {
      EmptyChosenOnlyInserts(b, ops[1..], ops[0].j2);
      forall k | 0 <= k < |ops| ensures ops[k].tag == Insert {
        if k > 0 { assert ops[k] == ops[1..][k - 1]; }
      }
    }
  }

  // ---------------------------------------------------------------------------
  // Tokens (`TOKEN_RE`, matched with `findall`)
  // ---------------------------------------------------------------------------

  predicate IsIdentStart(c: char) {
    ('A' <= c <= 'Z') || ('a' <= c <= 'z') || c == '_'
  }

  predicate IsIdentChar(c: char) {
    IsIdentStart(c) || ('0' <= c <= '9')
  }

  /** `\s` of a `str` pattern: the characters Python's `str.isspace` accepts. */
  predicate IsSpace(c: char) {
    c == ' ' || ('\t' <= c <= '\r') || ('\U{1c}' <= c <= '\U{1f}') || c == '\U{85}' || c == '\U{a0}'
    || c == '\U{1680}' || ('\U{2000}' <= c <= '\U{200a}') || c == '\U{2028}' || c == '\U{2029}'
    || c == '\U{202f}' || c == '\U{205f}' || c == '\U{3000}'
  }

  /** The length of the longest prefix of identifier characters. */
  function IdentLen(s: string): (r: nat)
    ensures r <= |s|
    ensures forall k :: 0 <= k < r ==> IsIdentChar(s[k])
    ensures r < |s| ==> !IsIdentChar(s[r])
  {
    if s != [] && IsIdentChar(s[0]) then 1 + IdentLen(s[1..]) else 0
  }

  /** The first position at or after `k` that is not whitespace, or the end. */
  function SkipSpaces(s: string, k: nat): (r: nat)
    requires k <= |s|
    ensures k <= r <= |s|
    decreases |s| - k
  {
    if k < |s| && IsSpace(s[k]) then SkipSpaces(s, k + 1) else k
  }

  /**
   * The length of the match of the word alternative at the start of `s`, 0 if none:
   * a greedy identifier, then optionally a dot and a second greedy identifier.
   */
  function MatchWord(s: string): (r: nat)
    ensures r <= |s|
  {
    if s == [] || !IsIdentStart(s[0]) then 0
    else
      var n := 1 + IdentLen(s[1..]);
      if n + 1 < |s| && s[n] == '.' && IsIdentStart(s[n + 1]) then n + 2 + IdentLen(s[n + 2..]) else n
  }

  /**
   * The length of the match of the two bracket alternatives at the start of `s`, 0 if none:
   * `[`, `:` and `]`, or `[`, `:`, `-`, `1` and `]`, with any whitespace between them.
   */
  function MatchBracket(s: string): (r: nat)
    ensures r <= |s|
  {
    if s == [] || s[0] != '[' then 0
    else
      var p := SkipSpaces(s, 1);
      if p == |s| || s[p] != ':' then 0 else MatchBracketTail(s, SkipSpaces(s, p + 1))
  }

  /**
   * The end of the bracket match once `[` and `:` are read and `q` is the next non-blank
   * position: `]`, or `-`, `1` and `]` with any whitespace between them; 0 if neither.
   */
  function MatchBracketTail(s: string, q: nat): (r: nat)
    requires q <= |s|
    ensures r == 0 || q < r <= |s|
  {
    if q == |s| then 0
    else if s[q] == ']' then q + 1
    else if s[q] != '-' then 0
    else
      var m := SkipSpaces(s, q + 1);
      if m == |s| || s[m] != '1' then 0
      else
        var e := SkipSpaces(s, m + 1);
        if e < |s| && s[e] == ']' then e + 1 else 0
  }

  /** The alternatives start with distinct characters, so at most one of them applies. */
  function MatchAt(s: string): (r: nat)
    ensures r <= |s|
  {
    if MatchWord(s) > 0 then MatchWord(s) else MatchBracket(s)
  }

  /** `TOKEN_RE.findall(s)`: scan left to right, resuming after each match. */
  function Tokens(s: string): seq<string>
    decreases |s|
  {
    if s == [] then []
    else
      var n := MatchAt(s);
      if n > 0 then [s[..n]] + Tokens(s[n..]) else Tokens(s[1..])
  }

  predicate IsIdent(w: string) {
    |w| > 0 && IsIdentStart(w[0]) && forall k :: 1 <= k < |w| ==> IsIdentChar(w[k])
  }

  /** An identifier, or two joined by one dot. */
  predicate IsWordToken(t: string) {
    IsIdent(t) || exists k :: 0 < k < |t| && t[k] == '.' && IsIdent(t[..k]) && IsIdent(t[k + 1..])
  }

  /** The text with whitespace removed. */
  function Squeeze(s: string): string {
    if s == [] then [] else (if IsSpace(s[0]) then [] else [s[0]]) + Squeeze(s[1..])
  }

  /** A bracket token: `[:]` or `[:-1]` once whitespace is removed. */
  predicate IsBracketToken(t: string) {
    Squeeze(t) == "[:]" || Squeeze(t) == "[:-1]"
  }

  lemma {:induction false} SqueezeAppend(x: string, y: string)
    ensures Squeeze(x + y) == Squeeze(x) + Squeeze(y)
  {
    if x == [] {
      assert x + y == y;
    } else {
      assert (x + y)[1..] == x[1..] + y;
      SqueezeAppend(x[1..], y);
    }
  }

  /** An identifier start followed by the greedy identifier run is an identifier. */
  lemma {:induction false} IdentAt(s: string, i: nat)
    requires i < |s| && IsIdentStart(s[i])
    ensures i + 1 + IdentLen(s[i + 1..]) <= |s|
    ensures IsIdent(s[i..i + 1 + IdentLen(s[i + 1..])])
  {
    var w := s[i..i + 1 + IdentLen(s[i + 1..])];
    forall k | 1 <= k < |w|
      ensures IsIdentChar(w[k])
    {
      assert w[k] == s[i + 1..][k - 1];
    }
  }

  lemma {:induction false} MatchWordToken(s: string)
    requires MatchWord(s) > 0
    ensures IsWordToken(s[..MatchWord(s)])
  {
    var n := 1 + IdentLen(s[1..]);
    IdentAt(s, 0);
    assert s[0..n] == s[..n];
    if n + 1 < |s| && s[n] == '.' && IsIdentStart(s[n + 1]) {
      var e := n + 2 + IdentLen(s[n + 2..]);
      IdentAt(s, n + 1);
      var t := s[..e];
      assert t[..n] == s[..n];
      assert t[n + 1..] == s[n + 1..e];
    }
  }

  /** `Squeeze(s[..n])`, built from the end of the prefix. */
  function SqueezeTo(s: string, n: nat): string
    requires n <= |s|
  {
    if n == 0 then [] else SqueezeTo(s, n - 1) + (if IsSpace(s[n - 1]) then [] else [s[n - 1]])
  }

  lemma {:induction false} SqueezeToPrefix(s: string, n: nat)
    requires n <= |s|
    ensures SqueezeTo(s, n) == Squeeze(s[..n])
  {
    if n > 0 {
      SqueezeToPrefix(s, n - 1);
      assert s[..n] == s[..n - 1] + [s[n - 1]];
      SqueezeAppend(s[..n - 1], [s[n - 1]]);
      assert [s[n - 1]][1..] == [];
    }
  }

  /** Blanks skipped from `k` add nothing. */
  lemma {:induction false} SqueezeToSkip(s: string, k: nat)
    requires k <= |s|
    ensures SqueezeTo(s, SkipSpaces(s, k)) == SqueezeTo(s, k)
    decreases |s| - k
  {
    if k < |s| && IsSpace(s[k]) {
      SqueezeToSkip(s, k + 1);
    }
  }

  /** Skipping blanks from `k` to the symbol `c` adds only `c`. */
  lemma {:induction false} SqueezeToSymbol(s: string, k: nat, c: char)
    requires k <= |s| && SkipSpaces(s, k) < |s| && s[SkipSpaces(s, k)] == c && !IsSpace(c)
    ensures SqueezeTo(s, SkipSpaces(s, k) + 1) == SqueezeTo(s, k) + [c]
  {
    SqueezeToSkip(s, k);
  }

  /** The symbols `[` and `:` at `0` and `p`, with blanks before `p`. */
  lemma {:induction false} SqueezeOpen(s: string, p: nat)
    requires p < |s| && s[0] == '[' && s[p] == ':' && p == SkipSpaces(s, 1)
    ensures SqueezeTo(s, p + 1) == "[:"
  {
    assert SqueezeTo(s, 1) == "[";
    SqueezeToSymbol(s, 1, ':');
  }

  /** Three symbols, each after a run of blanks, add just those symbols once blanks are removed. */
  lemma {:induction false} SqueezeThree(s: string, k: nat, q: nat, m: nat, e: nat)
    requires k <= q < m < e < |s|
    requires q == SkipSpaces(s, k) && s[q] == '-'
    requires m == SkipSpaces(s, q + 1) && s[m] == '1'
    requires e == SkipSpaces(s, m + 1) && s[e] == ']'
    ensures SqueezeTo(s, e + 1) == SqueezeTo(s, k) + "-1]"
  {
    SqueezeToSymbol(s, k, '-');
    SqueezeToSymbol(s, q + 1, '1');
    SqueezeToSymbol(s, m + 1, ']');
    assert SqueezeTo(s, k) + ['-'] + ['1'] + [']'] == SqueezeTo(s, k) + "-1]";
  }

  /** The bracket forms are `[:` followed by `]` or by `-1]`. */
  lemma {:induction false} BracketForms()
    ensures "[:" + "]" == "[:]" && "[:" + "-1]" == "[:-1]"
  {
  }

  lemma {:induction false} SqueezeShortSlice(s: string, p: nat, q: nat)
    requires p < q < |s| && s[0] == '[' && s[p] == ':' && p == SkipSpaces(s, 1)
    requires q == SkipSpaces(s, p + 1) && s[q] == ']'
    ensures SqueezeTo(s, q + 1) == "[:]"
  {
    SqueezeOpen(s, p);
    SqueezeToSymbol(s, p + 1, ']');
    BracketForms();
  }

  lemma {:induction false} SqueezeLongSlice(s: string, p: nat, q: nat, m: nat, e: nat)
    requires p < q < m < e < |s| && s[0] == '[' && s[p] == ':' && p == SkipSpaces(s, 1)
    requires q == SkipSpaces(s, p + 1) && s[q] == '-'
    requires m == SkipSpaces(s, q + 1) && s[m] == '1'
    requires e == SkipSpaces(s, m + 1) && s[e] == ']'
    ensures SqueezeTo(s, e + 1) == "[:-1]"
  {
    SqueezeOpen(s, p);
    SqueezeThree(s, p + 1, q, m, e);
    BracketForms();
  }

  /** A prefix that squeezes to one of the two bracket forms is a bracket token. */
  lemma {:induction false} BracketTokenTo(s: string, n: nat)
    requires n <= |s| && (SqueezeTo(s, n) == "[:]" || SqueezeTo(s, n) == "[:-1]")
    ensures IsBracketToken(s[..n])
  {
    SqueezeToPrefix(s, n);
  }

  /** A bracket match reads `[` and then `:` after blanks, and the rest is the tail's. */
  lemma {:induction false} BracketHead(s: string)
    requires MatchBracket(s) > 0
    ensures s[0] == '[' && SkipSpaces(s, 1) < |s| && s[SkipSpaces(s, 1)] == ':'
    ensures MatchBracket(s) == MatchBracketTail(s, SkipSpaces(s, SkipSpaces(s, 1) + 1))
  {
  }

  /** A tail that does not close at once reads `-`, then `1` and `]` after blanks. */
  lemma {:induction false} BracketTailLong(s: string, q: nat)
    requires q <= |s| && MatchBracketTail(s, q) > 0 && s[q] != ']'
    ensures s[q] == '-'
    ensures var m := SkipSpaces(s, q + 1);
      && m < |s| && s[m] == '1'
      && SkipSpaces(s, m + 1) < |s| && s[SkipSpaces(s, m + 1)] == ']'
      && MatchBracketTail(s, q) == SkipSpaces(s, m + 1) + 1
  {
  }

  lemma {:induction false} MatchBracketToken(s: string)
    requires MatchBracket(s) > 0
    ensures IsBracketToken(s[..MatchBracket(s)])
  {
    BracketHead(s);
    var p := SkipSpaces(s, 1);
    var q := SkipSpaces(s, p + 1);
    if s[q] == ']' {
      BracketShortToken(s, p, q);
    } else {
      BracketLongToken(s, p, q);
    }
  }

  lemma {:induction false} BracketShortToken(s: string, p: nat, q: nat)
    requires p < |s| && s[0] == '[' && s[p] == ':' && p == SkipSpaces(s, 1)
    requires q == SkipSpaces(s, p + 1) && q < |s| && s[q] == ']'
    requires MatchBracket(s) == MatchBracketTail(s, q)
    ensures MatchBracket(s) == q + 1 && IsBracketToken(s[..q + 1])
  {
    SqueezeShortSlice(s, p, q);
    BracketTokenTo(s, q + 1);
  }

  lemma {:induction false} BracketLongToken(s: string, p: nat, q: nat)
    requires p < |s| && s[0] == '[' && s[p] == ':' && p == SkipSpaces(s, 1)
    requires q == SkipSpaces(s, p + 1) && q < |s| && s[q] != ']'
    requires MatchBracket(s) == MatchBracketTail(s, q) > 0
    ensures MatchBracket(s) <= |s| && IsBracketToken(s[..MatchBracket(s)])
  {
    BracketTailLong(s, q);
    var m := SkipSpaces(s, q + 1);
    var e := SkipSpaces(s, m + 1);
    SqueezeLongSlice(s, p, q, m, e);
    BracketTokenTo(s, e + 1);
  }

  /** Every token is a (possibly dotted) identifier or one of the two bracket forms. */
  lemma {:induction false} TokensShape(s: string)
    ensures forall t :: t in Tokens(s) ==> IsWordToken(t) || IsBracketToken(t)
    decreases |s|
  {
    if s != [] {
      var n := MatchAt(s);
      if n > 0 {
        TokensShape(s[n..]);
        if MatchWord(s) > 0 { MatchWordToken(s); } else { MatchBracketToken(s); }
      } else {
        TokensShape(s[1..]);
      }
    }
  }

  /**
   * The reversal slice `[::-1]` is never a token (the second bracket alternative matches
   * `[:-1]`), so it never reaches the normaliser.
   */
  lemma {:induction false} ReversalNeverToken(s: string)
    ensures "[::-1]" !in Tokens(s)
  {
    TokensShape(s);
    var r := "[::-1]";
    assert !IsIdentStart(r[0]);
    assert Squeeze(r) == r;
  }

  // ---------------------------------------------------------------------------
  // Hints (`HINTS`, `normalize`, `extract_hints`)
  // ---------------------------------------------------------------------------

  /** The knowledge base, in its declaration order. */
  const HintKeys: seq<string> := ["sorted", "list.sort", "enumerate", "zip", "range", "dict", "set", "tuple", "slice", "len", "open", "with"]

  /** `key in HINTS`. */
  function IsHintKey(key: string): (b: bool)
    ensures b <==> key in Elements(HintKeys)
  {
    key in HintKeys
  }

  /** `HINTS.get(key)`. */
  function Hint(key: string): Option<string> {
    if key == "sorted" then Some("sorted(iterable, ...) は新しいリストを返す（元は変更しない）。")
    else if key == "list.sort" then Some("list.sort() は就地変更で戻り値は None。")
    else if key == "enumerate" then Some("enumerate(iterable) は (index, value) を返す。")
    else if key == "zip" then Some("zip(a, b) はタプルのイテレータ。長さは短い方に揃う。")
    else if key == "range" then Some("range は遅延評価。list(range(...)) で展開。")
    else if key == "dict" then Some("辞書はキー重複不可。3.7+ で挿入順保持。")
    else if key == "set" then Some("set は重複なし・順序なし。in で高速会員判定。")
    else if key == "tuple" then Some("tuple はイミュータブル。")
    else if key == "slice" then Some("s[a:b:c] がスライス。[::-1] は反転。")
    else if key == "len" then Some("len(x) は要素数。カスタム型は __len__ 実装で対応。")
    else if key == "open" then Some("with open(...) as f: でブロック終了時に自動 close。")
    else if key == "with" then Some("with はコンテキストマネージャ（__enter__/__exit__）。")
    else None
  }

  /** The key of a hint text, told apart by its length and its first two characters. */
  function KeyOfHint(h: string): Option<string> {
    if |h| == 42 then Some("sorted")
    else if |h| == 28 then Some("list.sort")
    else if |h| == 41 then Some("enumerate")
    else if |h| == 31 then Some("zip")
    else if |h| == 33 then (if h[0] == 'r' then Some("range") else Some("len"))
    else if |h| == 22 then Some("dict")
    else if |h| == 26 then (if h[1] == 'e' then Some("set") else Some("slice"))
    else if |h| == 15 then Some("tuple")
    else if |h| == 39 then Some("open")
    else if |h| == 38 then Some("with")
    else None
  }

  /** Every hint text leads back to its key. */
  lemma {:induction false} HintKeyRecovered(i: nat)
    requires i < |HintKeys|
    ensures Hint(HintKeys[i]).Some? && KeyOfHint(Hint(HintKeys[i]).value) == Some(HintKeys[i])
  {
    if i < 4 {
      HintKeyRecoveredFirst(i);
    } else if i < 8 {
      HintKeyRecoveredMiddle(i);
    } else {
      HintKeyRecoveredLast(i);
    }
  }

  /** Keys 0..3 of the knowledge base lead back from their hints. */
  lemma {:induction false} HintKeyRecoveredFirst(i: nat)
    requires i < 4 && i < |HintKeys|
    ensures Hint(HintKeys[i]).Some? && KeyOfHint(Hint(HintKeys[i]).value) == Some(HintKeys[i])
  {
    if i == 0 {
      assert KeyOfHint(Hint("sorted").value) == Some("sorted");
    } else if i == 1 {
      assert KeyOfHint(Hint("list.sort").value) == Some("list.sort");
    } else if i == 2 {
      assert KeyOfHint(Hint("enumerate").value) == Some("enumerate");
    } else if i == 3 {
      assert KeyOfHint(Hint("zip").value) == Some("zip");
    }
  }

  /** Keys 4..7 of the knowledge base lead back from their hints. */
  lemma {:induction false} HintKeyRecoveredMiddle(i: nat)
    requires 4 <= i < 8 && i < |HintKeys|
    ensures Hint(HintKeys[i]).Some? && KeyOfHint(Hint(HintKeys[i]).value) == Some(HintKeys[i])
  {
    if i == 4 {
      assert KeyOfHint(Hint("range").value) == Some("range");
    } else if i == 5 {
      assert KeyOfHint(Hint("dict").value) == Some("dict");
    } else if i == 6 {
      assert KeyOfHint(Hint("set").value) == Some("set");
    } else if i == 7 {
      assert KeyOfHint(Hint("tuple").value) == Some("tuple");
    }
  }

  /** Keys 8..11 of the knowledge base lead back from their hints. */
  lemma {:induction false} HintKeyRecoveredLast(i: nat)
    requires 8 <= i < 12 && i < |HintKeys|
    ensures Hint(HintKeys[i]).Some? && KeyOfHint(Hint(HintKeys[i]).value) == Some(HintKeys[i])
  {
    if i == 8 {
      assert KeyOfHint(Hint("slice").value) == Some("slice");
    } else if i == 9 {
      assert KeyOfHint(Hint("len").value) == Some("len");
    } else if i == 10 {
      assert KeyOfHint(Hint("open").value) == Some("open");
    } else if i == 11 {
      assert KeyOfHint(Hint("with").value) == Some("with");
    }
  }

  /** Every key of the knowledge base has a hint. */
  lemma {:induction false} HintOfKey(k: string)
    requires k in HintKeys
    ensures Hint(k).Some?
  {
    var i :| 0 <= i < |HintKeys| && HintKeys[i] == k;
    HintKeyRecovered(i);
  }

  /** Distinct keys hold distinct hints, so hints can be told apart by their text. */
  lemma {:induction false} HintsDistinct(k1: string, k2: string)
    requires k1 in HintKeys && k2 in HintKeys && k1 != k2
    ensures Hint(k1) != Hint(k2)
  {
    var i1 :| 0 <= i1 < |HintKeys| && HintKeys[i1] == k1;
    var i2 :| 0 <= i2 < |HintKeys| && HintKeys[i2] == k2;
    HintKeyRecovered(i1);
    HintKeyRecovered(i2);
  }

  predicate StartsWith(s: string, p: string) {
    |p| <= |s| && s[..|p|] == p
  }

  /** `needle in text` for strings. */
  predicate Contains(text: string, needle: string) {
    StartsWith(text, needle) || (text != [] && Contains(text[1..], needle))
  }

  /**
   * `normalize`: the two slice spellings become `slice`, and a bare `sort` becomes
   * `list.sort` when the text mentions `list.sort`.
   */
  function Normalize(tok: string, text: string): (r: string)
    ensures r == "slice" <==> tok == "[::-1]" || tok == "[:]" || tok == "slice"
    ensures r == "list.sort" <==> tok == "list.sort" || (tok == "sort" && Contains(text, "list.sort"))
    ensures r != tok ==> tok == "[::-1]" || tok == "[:]" || tok == "sort"
  {
    if tok == "[::-1]" || tok == "[:]" then "slice"
    else if tok == "sort" && Contains(text, "list.sort") then "list.sort"
    else tok
  }

  /** The text the hints are drawn from: the stem, a newline, the correct answer. */
  function HintText(stem: string, correctText: string): string {
    stem + "\n" + correctText
  }

  /** The normalised tokens of the text, in order of appearance. */
  function Keys(text: string): seq<string> {
    NormalizeAll(Tokens(text), text)
  }

  function NormalizeAll(toks: seq<string>, text: string): (r: seq<string>)
    ensures |r| == |toks|
  {
    seq(|toks|, k requires 0 <= k < |toks| => Normalize(toks[k], text))
  }

  /** The keys among `ks` that belong to `known`, each once, in order of first appearance. */
  function FirstKeys(ks: seq<string>, known: set<string>): seq<string> {
    if ks == [] then []
    else
      var prior := FirstKeys(ks[..|ks| - 1], known);
      var k := ks[|ks| - 1];
      if k in known && k !in prior then prior + [k] else prior
  }

  /** The position of the first occurrence of `x`. */
  function FirstIndex(ks: seq<string>, x: string): (r: nat)
    requires x in ks
    ensures r < |ks| && ks[r] == x
    ensures forall k :: 0 <= k < r ==> ks[k] != x
  {
    if ks[0] == x then 0 else 1 + FirstIndex(ks[1..], x)
  }

  /** The hint texts of a list of keys. */
  function HintTexts(keys: seq<string>): (r: seq<string>)
    ensures |r| == |keys|
  {
    seq(|keys|, k requires 0 <= k < |keys| => Hint(keys[k]).GetOr(""))
  }

  /** The effective cap: the length check follows the append, so a cap below 1 acts as 1. */
  function Cap(maxItems: int): (r: nat)
    ensures r >= 1 && r >= maxItems
    ensures maxItems >= 1 ==> r == maxItems
  {
    if maxItems < 1 then 1 else maxItems
  }

  /** The hints `extract_hints` returns. */
  function HintsFor(stem: string, correctText: string, maxItems: int): seq<string> {
    HintsOfKeys(Keys(HintText(stem, correctText)), maxItems)
  }

  /** The hints of the first `Cap(maxItems)` distinct knowledge-base keys among `ks`. */
  function HintsOfKeys(ks: seq<string>, maxItems: int): seq<string> {
    var keys := FirstKeys(ks, Elements(HintKeys));
    HintTexts(if |keys| <= Cap(maxItems) then keys else keys[..Cap(maxItems)])
  }

  lemma {:induction false} FirstKeysMembers(ks: seq<string>, known: set<string>)
    ensures forall x :: x in FirstKeys(ks, known) <==> x in ks && x in known
  {
    if ks != [] {
      var init := ks[..|ks| - 1];
      FirstKeysMembers(init, known);
      assert ks == init + [ks[|ks| - 1]];
    }
  }

  lemma {:induction false} FirstKeysNoDuplicates(ks: seq<string>, known: set<string>)
    ensures NoDuplicates(FirstKeys(ks, known))
  {
    if ks != [] {
      var init := ks[..|ks| - 1];
      var k := ks[|ks| - 1];
      var prior := FirstKeys(init, known);
      FirstKeysNoDuplicates(init, known);
      if k in known && k !in prior {
        NoDuplicatesConcat(prior, [k]);
      }
    }
  }

  /** Reading more keys only extends the list of first occurrences. */
  lemma {:induction false} FirstKeysPrefix(ks: seq<string>, known: set<string>, i: nat)
    requires i <= |ks|
    ensures FirstKeys(ks[..i], known) <= FirstKeys(ks, known)
  {
    if i < |ks| {
      var init := ks[..|ks| - 1];
      assert init[..i] == ks[..i];
      FirstKeysPrefix(init, known, i);
    } else {
      assert ks[..i] == ks;
    }
  }

  /** Each key of `fk` occurs in `ks`, and earlier keys occur first earlier. */
  predicate InFirstOrder(ks: seq<string>, fk: seq<string>) {
    forall i, j :: 0 <= i < j < |fk| ==> fk[i] in ks && fk[j] in ks && FirstIndex(ks, fk[i]) < FirstIndex(ks, fk[j])
  }

  /** The keys follow the order of their first occurrences. */
  lemma {:induction false} FirstKeysOrder(ks: seq<string>, known: set<string>)
    ensures InFirstOrder(ks, FirstKeys(ks, known))
  {
    if ks != [] {
      var init := ks[..|ks| - 1];
      var last := ks[|ks| - 1];
      var prior := FirstKeys(init, known);
      var fk := FirstKeys(ks, known);
      FirstKeysOrder(init, known);
      FirstKeysMembers(init, known);
      assert ks == init + [last];
      forall x | x in init ensures x in ks && FirstIndex(ks, x) == FirstIndex(init, x) {
        assert ks[FirstIndex(init, x)] == x;
      }
      assert |prior| <= |fk| && forall k :: 0 <= k < |prior| ==> fk[k] == prior[k];
      if |fk| > |prior| {
        assert fk == prior + [last] && last !in init;
        assert forall k :: 0 <= k < |init| ==> ks[k] == init[k];
        assert FirstIndex(ks, last) == |init|;
      }
      forall i, j | 0 <= i < j < |fk|
        ensures fk[i] in ks && fk[j] in ks && FirstIndex(ks, fk[i]) < FirstIndex(ks, fk[j])
      {
        assert fk[i] == prior[i] && prior[i] in prior;
        if j < |prior| {
          assert fk[j] == prior[j] && prior[j] in prior;
          assert FirstIndex(init, prior[i]) < FirstIndex(init, prior[j]);
        } else {
          assert fk[j] == last;
          assert FirstIndex(ks, prior[i]) == FirstIndex(init, prior[i]) < |init|;
        }
      }
    }
  }

  /** At most `Cap(maxItems)` hints: at most `maxItems` when it is at least 1, one otherwise. */
  lemma {:induction false} ExtractHintsBounded(stem: string, correctText: string, maxItems: int)
    ensures |HintsFor(stem, correctText, maxItems)| <= Cap(maxItems)
    ensures maxItems >= 1 ==> |HintsFor(stem, correctText, maxItems)| <= maxItems
    ensures HintsFor(stem, correctText, maxItems) == []
        <==> forall k :: k in Keys(HintText(stem, correctText)) ==> k !in HintKeys
  {
    var ks := Keys(HintText(stem, correctText));
    FirstKeysMembers(ks, Elements(HintKeys));
    if FirstKeys(ks, Elements(HintKeys)) != [] {
      assert FirstKeys(ks, Elements(HintKeys))[0] in FirstKeys(ks, Elements(HintKeys));
    }
  }

  /**
   * Every hint is a knowledge-base text, no text appears twice, and the `i`-th hint belongs
   * to the `i`-th key by first occurrence in the text.
   */
  lemma {:induction false} ExtractHintsContents(stem: string, correctText: string, maxItems: int)
    ensures var r := HintsFor(stem, correctText, maxItems);
      var fk := FirstKeys(Keys(HintText(stem, correctText)), Elements(HintKeys));
      |r| <= |fk| && forall i :: 0 <= i < |r| ==> fk[i] in HintKeys && Hint(fk[i]) == Some(r[i])
    ensures NoDuplicates(HintsFor(stem, correctText, maxItems))
  {
    var ks := Keys(HintText(stem, correctText));
    var fk := FirstKeys(ks, Elements(HintKeys));
    FirstKeysMembers(ks, Elements(HintKeys));
    FirstKeysNoDuplicates(ks, Elements(HintKeys));
    var n := if |fk| <= Cap(maxItems) then |fk| else Cap(maxItems);
    var taken := fk[..n];
    assert HintsFor(stem, correctText, maxItems) == HintTexts(taken);
    NoDuplicatesPrefix(fk, n);
    forall k | k in taken ensures k in HintKeys {
      assert k in fk;
    }
    HintTextsNoDuplicates(taken);
    forall i | 0 <= i < |taken| ensures taken[i] in HintKeys && Hint(taken[i]) == Some(HintTexts(taken)[i]) {
      assert taken[i] in taken;
      HintOfKey(taken[i]);
    }
  }

  lemma {:induction false} HintTextsNoDuplicates(keys: seq<string>)
    requires NoDuplicates(keys) && forall k :: k in keys ==> k in HintKeys
    ensures NoDuplicates(HintTexts(keys))
  {
    var r := HintTexts(keys);
    forall i, j | 0 <= i < j < |r| ensures r[i] != r[j] {
      var k1, k2 := keys[i], keys[j];
      assert k1 in keys && k2 in keys;
      DistinctPositions(keys, i, j);
      HintOfKey(k1);
      HintOfKey(k2);
      HintsDistinct(k1, k2);
      assert r[i] == Hint(k1).value && r[j] == Hint(k2).value;
    }
    DistinctIndexesNoDuplicates(r);
  }

  /** One more key extends the first occurrences by that key exactly when it is new and known. */
  lemma {:induction false} FirstKeysStep(keys: seq<string>, known: set<string>, i: nat)
    requires i < |keys|
    ensures FirstKeys(keys[..i + 1], known)
         == if keys[i] in known && keys[i] !in FirstKeys(keys[..i], known)
            then FirstKeys(keys[..i], known) + [keys[i]] else FirstKeys(keys[..i], known)
  {
    assert keys[..i + 1][..i] == keys[..i];
  }

  lemma {:induction false} HintTextsAppend(keys: seq<string>, k: string)
    requires Hint(k).Some?
    ensures HintTexts(keys + [k]) == HintTexts(keys) + [Hint(k).value]
  {
  }

  /** Once `Cap(maxItems)` keys are picked from a prefix of the keys, they are the hints' keys. */
  lemma {:induction false} CappedPrefix(keys: seq<string>, known: set<string>, i: nat, maxItems: int)
    requires i <= |keys| && |FirstKeys(keys[..i], known)| == Cap(maxItems)
    ensures var fk := FirstKeys(keys, known);
      |fk| >= Cap(maxItems) && fk[..Cap(maxItems)] == FirstKeys(keys[..i], known)
  {
    FirstKeysPrefix(keys, known, i);
  }

  /** The picked keys are the hints' keys once the scan ends or the cap is reached. */
  lemma {:induction false} CollectDone(keys: seq<string>, i: nat, maxItems: int)
    requires i <= |keys|
    requires var picked := FirstKeys(keys[..i], Elements(HintKeys));
      (i == |keys| && |picked| < Cap(maxItems)) || |picked| == Cap(maxItems)
    ensures HintTexts(FirstKeys(keys[..i], Elements(HintKeys))) == HintsOfKeys(keys, maxItems)
  {
    if i == |keys| {
      assert keys[..i] == keys;
    } else {
      CappedPrefix(keys, Elements(HintKeys), i, maxItems);
    }
  }

  /**
   * `extract_hints`: walks the tokens of the text, keeps each knowledge-base key the first
   * time it appears, and stops once the number of hints reaches `maxItems`.
   */
  method ExtractHints(stem: string, correctText: string, maxItems: int) returns (hints: seq<string>)
    ensures hints == HintsFor(stem, correctText, maxItems)
  {
    var text := HintText(stem, correctText);
    var tokens := Tokens(text);
    hints := CollectHints(tokens, text, maxItems);
  }

  /** One token of `extract_hints`: a knowledge-base key not seen before adds its hint. */
  method Visit(key: string, seen: set<string>, hints: seq<string>, ghost picked: seq<string>)
      returns (added: bool, seen': set<string>, hints': seq<string>, ghost picked': seq<string>)
    requires seen == Elements(picked) && hints == HintTexts(picked)
    ensures added <==> key in Elements(HintKeys) && key !in picked
    ensures picked' == if added then picked + [key] else picked
    ensures seen' == Elements(picked') && hints' == HintTexts(picked')
  {
    added, seen', hints', picked' := false, seen, hints, picked;
    if IsHintKey(key) && key !in seen {
      HintOfKey(key);
      HintTextsAppend(picked, key);
      added := true;
      seen' := seen + {key};
      hints' := hints + [Hint(key).value];
      picked' := picked + [key];
    }
  }

  /** The loop of `extract_hints` over already extracted tokens. */
  method CollectHints(tokens: seq<string>, text: string, maxItems: int) returns (hints: seq<string>)
    ensures hints == HintsOfKeys(NormalizeAll(tokens, text), maxItems)
  {
    ghost var keys := NormalizeAll(tokens, text);
    ghost var known := Elements(HintKeys);
    hints := [];
    var seen: set<string> := {};
    ghost var picked: seq<string> := [];
    var i := 0;
    while i < |tokens|
      invariant 0 <= i <= |tokens|
      invariant picked == FirstKeys(keys[..i], known)
      invariant seen == Elements(picked)
      invariant hints == HintTexts(picked)
      invariant |picked| < Cap(maxItems)
    {
      var key := Normalize(tokens[i], text);
      assert key == keys[i];
      FirstKeysStep(keys, known, i);
      var added;
      added, seen, hints, picked := Visit(key, seen, hints, picked);
      if added && |hints| >= maxItems {
        CollectDone(keys, i + 1, maxItems);
        break;
      }
      i := i + 1;
    }
    if i == |tokens| {
      CollectDone(keys, i, maxItems);
    }
  }
}
