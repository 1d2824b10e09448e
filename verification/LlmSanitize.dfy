/** The Markdown subset of model answers: fences, and in between paragraphs, bullet and numbered lists. */
module LlmSanitize {
  import opened Models
  import opened Text
  import opened Sequences

  /** The line patterns and the two renderers of inline text. */
  datatype Renderer = Renderer(
    bullet: string -> Option<string>,
    numbered: string -> Option<string>,
    inline: string -> string,
    escape: string -> string)

  // ------------------------------------------------------------------ lines and runs

  datatype Kind = Plain | Bullet | Numbered

  datatype Line = Blank | Item(kind: Kind, text: string)

  datatype Block = Block(kind: Kind, items: seq<string>)

  function Classify(r: Renderer, raw: string): Line {
    var line := RStrip(raw);
    if line == "" then Blank
    else if r.bullet(line).Some? then Item(Bullet, r.bullet(line).value)
    else if r.numbered(line).Some? then Item(Numbered, r.numbered(line).value)
    else Item(Plain, line)
  }

  function ClassifyAll(r: Renderer, raws: seq<string>): seq<Line> {
    seq(|raws|, k requires 0 <= k < |raws| => Classify(r, raws[k]))
  }

  /** Finished blocks and the one that lines are still added to. */
  datatype Progress = Progress(done: seq<Block>, current: Option<Block>)

  function Closed(p: Progress): seq<Block> {
    if p.current.None? then p.done else p.done + [p.current.value]
  }

  function Step(p: Progress, line: Line): Progress {
    match line
    case Blank => Progress(Closed(p), None)
    case Item(kind, text) =>
      if p.current.Some? && p.current.value.kind == kind
      then p.(current := Some(Block(kind, p.current.value.items + [text])))
      else Progress(Closed(p), Some(Block(kind, [text])))
  }

  function StepAll(p: Progress, lines: seq<Line>): Progress {
    if lines == [] then p else Step(StepAll(p, lines[..|lines| - 1]), lines[|lines| - 1])
  }

  function Runs(lines: seq<Line>): seq<Block> {
    Closed(StepAll(Progress([], None), lines))
  }

  // ------------------------------------------------------------------ maximal runs

  function Blanks(n: nat): seq<Line> {
    seq(n, _ => Blank)
  }

  function LinesOf(b: Block): seq<Line> {
    seq(|b.items|, k requires 0 <= k < |b.items| => Item(b.kind, b.items[k]))
  }

  /** The blocks with `gaps[k]` blank lines before block `k`, and the last gap after all of them. */
  function Expand(blocks: seq<Block>, gaps: seq<nat>): seq<Line>
    requires |gaps| == |blocks| + 1
  {
    if blocks == [] then Blanks(gaps[0])
    else
      var n := |blocks|;
      Expand(blocks[..n - 1], gaps[..n]) + (LinesOf(blocks[n - 1]) + Blanks(gaps[n]))
  }

  /** No block is empty, and blocks without a blank line between them differ in kind. */
  predicate AreMaximal(blocks: seq<Block>, gaps: seq<nat>)
    requires |gaps| == |blocks| + 1
  {
    && (forall k :: 0 <= k < |blocks| ==> blocks[k].items != [])
    && forall k :: 0 < k < |blocks| && gaps[k] == 0 ==> blocks[k - 1].kind != blocks[k].kind
  }

  lemma {:induction false} StepAllConcat(p: Progress, a: seq<Line>, b: seq<Line>)
    ensures StepAll(p, a + b) == StepAll(StepAll(p, a), b)
    decreases |b|
  {
    if b == [] {
      assert a + b == a;
    } else {
      assert (a + b)[..|a + b| - 1] == a + b[..|b| - 1];
      StepAllConcat(p, a, b[..|b| - 1]);
    }
  }

  lemma {:induction false} StepBlanks(p: Progress, n: nat)
    ensures StepAll(p, Blanks(n)) == if n == 0 then p else Progress(Closed(p), None)
  {
    if n > 0 {
      StepBlanks(p, n - 1);
      assert Blanks(n)[..n - 1] == Blanks(n - 1);
    }
  }

  lemma {:induction false} StepBlock(p: Progress, b: Block)
    requires b.items != [] && (p.current.Some? ==> p.current.value.kind != b.kind)
    ensures StepAll(p, LinesOf(b)) == Progress(Closed(p), Some(b))
    decreases |b.items|
  {
    var n := |b.items| - 1;
    var shorter := Block(b.kind, b.items[..n]);
    assert LinesOf(b)[..n] == LinesOf(shorter);
    assert b.items == b.items[..n] + [b.items[n]];
    if n > 0 {
      StepBlock(p, shorter);
    } else {
      assert LinesOf(shorter) == [];
    }
  }

  /** After a layout the current block is its last one, unless blank lines follow. */
  lemma {:induction false} StepLayout(blocks: seq<Block>, gaps: seq<nat>)
    requires |gaps| == |blocks| + 1 && AreMaximal(blocks, gaps)
    ensures
      var p := StepAll(Progress([], None), Expand(blocks, gaps));
      && Closed(p) == blocks
      && (p.current.Some? <==> blocks != [] && gaps[|blocks|] == 0)
  {
    hide StepAll, Expand, LinesOf, Blanks, AreMaximal;
    var start := Progress([], None);
    var n := |blocks|;
    if n == 0 {
      StepBlanks(start, gaps[0]);
      assert Expand(blocks, gaps) == Blanks(gaps[0]) by {
        ExpandNothing(gaps);
      }
    } else {
      MaximalPrefix(blocks, gaps);
      var before := Expand(blocks[..n - 1], gaps[..n]);
      StepLayout(blocks[..n - 1], gaps[..n]);
      var p := StepAll(start, before);
      assert p.current.Some? ==> Closed(p)[n - 2] == p.current.value;
      StepBlockAndGap(p, blocks[n - 1], gaps[n]);
      StepAllConcat(start, before, LinesOf(blocks[n - 1]) + Blanks(gaps[n]));
      ExpandLast(blocks, gaps);
      assert blocks == blocks[..n - 1] + [blocks[n - 1]];
    }
  }

  lemma ExpandNothing(gaps: seq<nat>)
    requires |gaps| == 1
    ensures Expand([], gaps) == Blanks(gaps[0])
  {}

  lemma MaximalPrefix(blocks: seq<Block>, gaps: seq<nat>)
    requires |gaps| == |blocks| + 1 && AreMaximal(blocks, gaps) && blocks != []
    ensures
      var n := |blocks|;
      && AreMaximal(blocks[..n - 1], gaps[..n])
      && blocks[n - 1].items != []
      && (n > 1 && gaps[n - 1] == 0 ==> blocks[n - 2].kind != blocks[n - 1].kind)
  {}

  lemma StepBlockAndGap(p: Progress, b: Block, gap: nat)
    requires b.items != [] && (p.current.Some? ==> p.current.value.kind != b.kind)
    ensures
      var q := StepAll(p, LinesOf(b) + Blanks(gap));
      Closed(q) == Closed(p) + [b] && (q.current.Some? <==> gap == 0)
  {
    hide StepAll, LinesOf, Blanks;
    StepBlock(p, b);
    StepBlanks(Progress(Closed(p), Some(b)), gap);
    StepAllConcat(p, LinesOf(b), Blanks(gap));
  }

  lemma ExpandLast(blocks: seq<Block>, gaps: seq<nat>)
    requires |gaps| == |blocks| + 1 && blocks != []
    ensures
      var n := |blocks|;
      Expand(blocks, gaps) == Expand(blocks[..n - 1], gaps[..n]) + (LinesOf(blocks[n - 1]) + Blanks(gaps[n]))
  {}

  /** Any way to cut lines into maximal runs is the one that the loop finds. */
  lemma RunsAreUnique(blocks: seq<Block>, gaps: seq<nat>)
    requires |gaps| == |blocks| + 1 && AreMaximal(blocks, gaps)
    ensures Runs(Expand(blocks, gaps)) == blocks
  {
    StepLayout(blocks, gaps);
  }

  /** The blocks so far with some gaps are the lines so far. */
  predicate IsLayout(p: Progress, gaps: seq<nat>, lines: seq<Line>) {
    && |gaps| == |Closed(p)| + 1 && AreMaximal(Closed(p), gaps) && Expand(Closed(p), gaps) == lines
    && (p.current.Some? <==> Closed(p) != [] && gaps[|Closed(p)|] == 0)
  }

  lemma BlankKeepsLayout(p: Progress, gaps: seq<nat>, lines: seq<Line>)
    requires IsLayout(p, gaps, lines)
    ensures
      var n := |Closed(p)|;
      IsLayout(Step(p, Blank), gaps[n := gaps[n] + 1], lines + [Blank])
  {
    OneMoreBlank(Closed(p), gaps);
    hide Expand;
  }

  lemma ItemKeepsLayout(p: Progress, gaps: seq<nat>, lines: seq<Line>, text: string)
    requires IsLayout(p, gaps, lines) && p.current.Some?
    ensures IsLayout(Step(p, Item(p.current.value.kind, text)), gaps, lines + [Item(p.current.value.kind, text)])
  {
    var blocks, current := Closed(p), p.current.value;
    var longer := Block(current.kind, current.items + [text]);
    OneMoreItem(blocks, gaps, text);
    hide Expand;
    assert Closed(Step(p, Item(current.kind, text))) == blocks[|blocks| - 1 := longer];
  }

  lemma NewBlockKeepsLayout(p: Progress, gaps: seq<nat>, lines: seq<Line>, kind: Kind, text: string)
    requires IsLayout(p, gaps, lines) && (p.current.Some? ==> p.current.value.kind != kind)
    ensures IsLayout(Step(p, Item(kind, text)), gaps + [0], lines + [Item(kind, text)])
  {
    OneMoreBlock(Closed(p), gaps, kind, text);
    hide Expand;
  }

  /** The loop finds one: its blocks and some blank lines between them are the input, line by line. */
  lemma {:induction false} RunsAreMaximal(lines: seq<Line>) returns (gaps: seq<nat>)
    ensures IsLayout(StepAll(Progress([], None), lines), gaps, lines)
    ensures |gaps| == |Runs(lines)| + 1 && AreMaximal(Runs(lines), gaps) && Expand(Runs(lines), gaps) == lines
  {
    if lines == [] {
      gaps := [0];
    } else {
      hide IsLayout, Step, AreMaximal, Expand;
      var before, line := lines[..|lines| - 1], lines[|lines| - 1];
      var p := StepAll(Progress([], None), before);
      gaps := RunsAreMaximal(before);
      assert lines == before + [line];
      match line
      case Blank =>
        BlankKeepsLayout(p, gaps, before);
        gaps := gaps[|Closed(p)| := gaps[|Closed(p)|] + 1];
      case Item(kind, text) =>
        if p.current.Some? && p.current.value.kind == kind {
          ItemKeepsLayout(p, gaps, before, text);
        } else {
          NewBlockKeepsLayout(p, gaps, before, kind, text);
          gaps := gaps + [0];
        }
      LayoutParts(StepAll(Progress([], None), lines), gaps, lines);
    }
  }

  lemma LayoutParts(p: Progress, gaps: seq<nat>, lines: seq<Line>)
    requires IsLayout(p, gaps, lines)
    ensures |gaps| == |Closed(p)| + 1 && AreMaximal(Closed(p), gaps) && Expand(Closed(p), gaps) == lines
  {}

  lemma StepAllLast(p: Progress, lines: seq<Line>, line: Line)
    ensures StepAll(p, lines + [line]) == Step(StepAll(p, lines), line)
  {
    assert (lines + [line])[..|lines|] == lines;
  }

  lemma OneMoreBlank(blocks: seq<Block>, gaps: seq<nat>)
    requires |gaps| == |blocks| + 1
    ensures
      var n := |blocks|;
      Expand(blocks, gaps[n := gaps[n] + 1]) == Expand(blocks, gaps) + [Blank]
  {
    var n := |blocks|;
    assert gaps[n := gaps[n] + 1][..n] == gaps[..n];
    assert Blanks(gaps[n] + 1) == Blanks(gaps[n]) + [Blank];
  }

  lemma OneMoreItem(blocks: seq<Block>, gaps: seq<nat>, text: string)
    requires |gaps| == |blocks| + 1 && blocks != [] && gaps[|blocks|] == 0
    ensures
      var n := |blocks| - 1;
      var last := blocks[n];
      Expand(blocks[n := Block(last.kind, last.items + [text])], gaps) == Expand(blocks, gaps) + [Item(last.kind, text)]
  {
    var n := |blocks| - 1;
    var longer := Block(blocks[n].kind, blocks[n].items + [text]);
    assert blocks[n := longer][..n] == blocks[..n];
    assert LinesOf(longer) == LinesOf(blocks[n]) + [Item(blocks[n].kind, text)];
    assert Blanks(0) == [];
  }

  lemma OneMoreBlock(blocks: seq<Block>, gaps: seq<nat>, kind: Kind, text: string)
    requires |gaps| == |blocks| + 1
    ensures Expand(blocks + [Block(kind, [text])], gaps + [0]) == Expand(blocks, gaps) + [Item(kind, text)]
  {
    var n := |blocks|;
    assert (blocks + [Block(kind, [text])])[..n] == blocks && (gaps + [0])[..n + 1] == gaps;
    assert LinesOf(Block(kind, [text])) == [Item(kind, text)];
    assert Blanks(0) == [];
  }

  // ------------------------------------------------------------------ the block loop

  function InlineAll(r: Renderer, items: seq<string>): seq<string> {
    seq(|items|, k requires 0 <= k < |items| => r.inline(items[k]))
  }

  function ListItems(r: Renderer, items: seq<string>): seq<string> {
    seq(|items|, k requires 0 <= k < |items| => "<li>" + r.inline(items[k]) + "</li>")
  }

  function RenderBlock(r: Renderer, b: Block): string {
    match b.kind
    case Plain => "<p>" + Join("<br>", InlineAll(r, b.items)) + "</p>"
    case Bullet => "<ul>" + Join("", ListItems(r, b.items)) + "</ul>"
    case Numbered => "<ol>" + Join("", ListItems(r, b.items)) + "</ol>"
  }

  /** The items of a list: each once, in order, in its own pair of tags. */
  function ItemPieces(r: Renderer, items: seq<string>): seq<string> {
    seq(|items|, k requires 0 <= k < |items| => "<li>" + r.inline(items[k]) + "</li>")
  }

  /** The lines of a paragraph: each once, in order, with a break before every line but the first. */
  function LinePieces(r: Renderer, items: seq<string>): seq<string> {
    seq(|items|, k requires 0 <= k < |items| =>
      if k == 0 then r.inline(items[k]) else "<br>" + r.inline(items[k]))
  }

  /** What stands in a block: the tag of its kind, its items, and the closing tag. */
  function Pieces(r: Renderer, b: Block): seq<string> {
    match b.kind
    case Plain => ["<p>"] + LinePieces(r, b.items) + ["</p>"]
    case Bullet => ["<ul>"] + ItemPieces(r, b.items) + ["</ul>"]
    case Numbered => ["<ol>"] + ItemPieces(r, b.items) + ["</ol>"]
  }

  /** A rendered block is exactly that. */
  lemma BlockSays(r: Renderer, b: Block)
    requires b.items != []
    ensures RenderBlock(r, b) == Flatten(Pieces(r, b))
  {
    hide Flatten, Join;
    if b.kind == Plain {
      ParagraphSays(r, b.items);
      Tagged("<p>", LinePieces(r, b.items), "</p>", Join("<br>", InlineAll(r, b.items)));
    } else {
      assert ListItems(r, b.items) == ItemPieces(r, b.items);
      JoinNothing(ItemPieces(r, b.items));
      var open, close := if b.kind == Bullet then "<ul>" else "<ol>", if b.kind == Bullet then "</ul>" else "</ol>";
      Tagged(open, ItemPieces(r, b.items), close, Join("", ItemPieces(r, b.items)));
    }
  }

  lemma Tagged(open: string, inner: seq<string>, close: string, text: string)
    requires text == Flatten(inner)
    ensures Flatten([open] + inner + [close]) == open + text + close
  {
    FlattenConcat([open] + inner, [close]);
    FlattenCons(open, inner);
    FlattenOne(close);
  }

  lemma {:induction false} JoinNothing(parts: seq<string>)
    ensures Join("", parts) == Flatten(parts)
  {
    if |parts| == 1 {
      FlattenOne(parts[0]);
      assert parts == [parts[0]];
    } else if |parts| > 1 {
      JoinNothing(parts[1..]);
      assert parts[0] + "" + Join("", parts[1..]) == parts[0] + Join("", parts[1..]);
    }
  }

  lemma ParagraphSays(r: Renderer, items: seq<string>)
    requires items != []
    ensures Join("<br>", InlineAll(r, items)) == Flatten(LinePieces(r, items))
  {
    var texts := InlineAll(r, items);
    JoinHead("<br>", texts[0], texts[1..]);
    hide Join, Flatten;
    assert texts == [texts[0]] + texts[1..];
    assert LinePieces(r, items) == [texts[0]] + Prefixed("<br>", texts[1..]);
    FlattenCons(texts[0], Prefixed("<br>", texts[1..]));
  }

  function RenderBlocks(r: Renderer, blocks: seq<Block>): seq<string> {
    seq(|blocks|, k requires 0 <= k < |blocks| => RenderBlock(r, blocks[k]))
  }

  /** The state of the loop: rendered blocks and the three buffers. */
  class BlockRenderer {
    const r: Renderer
    var out: seq<string>
    var paragraphBuf: seq<string>
    var ulBuf: seq<string>
    var olBuf: seq<string>

    constructor (r: Renderer)
      ensures this.r == r && Shows(Progress([], None))
    {
      this.r := r;
      out, paragraphBuf, ulBuf, olBuf := [], [], [], [];
    }

    /** The buffers hold the current block, and at most one of them holds anything. */
    ghost predicate Shows(p: Progress)
      reads this
    {
      && out == RenderBlocks(r, p.done)
      && (p.current.Some? ==> p.current.value.items != [])
      && paragraphBuf == (if p.current.Some? && p.current.value.kind == Plain then p.current.value.items else [])
      && ulBuf == (if p.current.Some? && p.current.value.kind == Bullet then p.current.value.items else [])
      && olBuf == (if p.current.Some? && p.current.value.kind == Numbered then p.current.value.items else [])
    }

    method FlushParagraph(ghost p: Progress)
      requires Shows(p)
      modifies this
      ensures Shows(if p.current.Some? && p.current.value.kind == Plain then Progress(Closed(p), None) else p)
    {
      if paragraphBuf != [] {
        assert RenderBlocks(r, Closed(p)) == RenderBlocks(r, p.done) + [RenderBlock(r, p.current.value)];
        out := out + ["<p>" + Join("<br>", InlineAll(r, paragraphBuf)) + "</p>"];
        paragraphBuf := [];
      }
    }

    method FlushUl(ghost p: Progress)
      requires Shows(p)
      modifies this
      ensures Shows(if p.current.Some? && p.current.value.kind == Bullet then Progress(Closed(p), None) else p)
    {
      if ulBuf != [] {
        assert RenderBlocks(r, Closed(p)) == RenderBlocks(r, p.done) + [RenderBlock(r, p.current.value)];
        out := out + ["<ul>" + Join("", ListItems(r, ulBuf)) + "</ul>"];
        ulBuf := [];
      }
    }

    method FlushOl(ghost p: Progress)
      requires Shows(p)
      modifies this
      ensures Shows(if p.current.Some? && p.current.value.kind == Numbered then Progress(Closed(p), None) else p)
    {
      if olBuf != [] {
        assert RenderBlocks(r, Closed(p)) == RenderBlocks(r, p.done) + [RenderBlock(r, p.current.value)];
        out := out + ["<ol>" + Join("", ListItems(r, olBuf)) + "</ol>"];
        olBuf := [];
      }
    }

    method FlushAll(ghost p: Progress)
      requires Shows(p)
      modifies this
      ensures Shows(Progress(Closed(p), None))
    {
      ghost var q := p;
      FlushParagraph(q);
      q := if q.current.Some? && q.current.value.kind == Plain then Progress(Closed(q), None) else q;
      FlushUl(q);
      q := if q.current.Some? && q.current.value.kind == Bullet then Progress(Closed(q), None) else q;
      FlushOl(q);
    }

    /** The body of the loop. */
    method Feed(rawLine: string, ghost p: Progress)
      requires Shows(p)
      modifies this
      ensures Shows(Step(p, Classify(r, rawLine)))
      ensures (paragraphBuf == [] && ulBuf == []) || (paragraphBuf == [] && olBuf == []) || (ulBuf == [] && olBuf == [])
    {
      hide RenderBlocks, Join, RStrip;
      var line := RStrip(rawLine);
      ghost var q := p;
      if line == "" {
        FlushAll(p);
        return;
      }
      var bullet := r.bullet(line);
      if bullet.Some? {
        FlushParagraph(q);
        q := if q.current.Some? && q.current.value.kind == Plain then Progress(Closed(q), None) else q;
        FlushOl(q);
        ulBuf := ulBuf + [bullet.value];
        return;
      }
      var numbered := r.numbered(line);
      if numbered.Some? {
        FlushParagraph(q);
        q := if q.current.Some? && q.current.value.kind == Plain then Progress(Closed(q), None) else q;
        FlushUl(q);
        olBuf := olBuf + [numbered.value];
        return;
      }
      FlushUl(q);
      q := if q.current.Some? && q.current.value.kind == Bullet then Progress(Closed(q), None) else q;
      FlushOl(q);
      paragraphBuf := paragraphBuf + [line];
    }
  }

  function BlockText(r: Renderer, text: string): string {
    Join("", RenderBlocks(r, Runs(ClassifyAll(r, Split(text, '\n')))))
  }

  lemma ClassifySnoc(r: Renderer, raws: seq<string>)
    ensures ClassifyAll(r, raws[..0]) == []
    ensures forall n :: 0 <= n < |raws| ==>
              ClassifyAll(r, raws[..n + 1]) == ClassifyAll(r, raws[..n]) + [Classify(r, raws[n])]
  {
    hide Classify;
  }

  /** `_render_block_content`: the maximal runs, rendered in order. */
  method RenderBlockContent(r: Renderer, text: string) returns (html: string)
    ensures html == BlockText(r, text)
  {
    hide Split, Join, RenderBlocks, ClassifyAll, Step, Classify;
    var lines := Split(text, '\n');
    var state := new BlockRenderer(r);
    ghost var p := Progress([], None);
    ClassifySnoc(r, lines);
    for n := 0 to |lines|
      invariant fresh(state) && state.r == r
      invariant p == StepAll(Progress([], None), ClassifyAll(r, lines[..n])) && state.Shows(p)
    {
      state.Feed(lines[n], p);
      StepAllLast(Progress([], None), ClassifyAll(r, lines[..n]), Classify(r, lines[n]));
      p := Step(p, Classify(r, lines[n]));
    }
    assert lines[..|lines|] == lines;
    state.FlushAll(p);
    html := Join("", state.out);
  }

  // ------------------------------------------------------------------ fences

  const FENCE: string := "```"

  predicate FenceAt(text: string, k: int) {
    0 <= k && k + 3 <= |text| && text[k] == '`' && text[k + 1] == '`' && text[k + 2] == '`'
  }

  /** The first fence at or after a position. */
  function FindFence(text: string, from: nat): (k: Option<nat>)
    ensures k.Some? ==> from <= k.value && FenceAt(text, k.value)
    ensures k.Some? ==> forall m :: from <= m < k.value ==> !FenceAt(text, m)
    ensures k.None? ==> forall m :: from <= m ==> !FenceAt(text, m)
    decreases |text| - from
  {
    if from + 3 > |text| then None
    else if FenceAt(text, from) then Some(from)
    else FindFence(text, from + 1)
  }

  datatype Segment = Prose(text: string) | Code(body: string)

  function ProseIfAny(text: string): seq<Segment> {
    if text == "" then [] else [Prose(text)]
  }

  /** The segments from a position on: a fence pairs with the next one, an unpaired fence is text. */
  function SegmentsFrom(text: string, pos: nat): seq<Segment>
    requires pos <= |text|
    decreases |text| - pos
  {
    var start := FindFence(text, pos);
    if start.None? || FindFence(text, start.value + 3).None? then ProseIfAny(text[pos..])
    else
      var end := FindFence(text, start.value + 3).value;
      ProseIfAny(text[pos..start.value]) + [Code(text[start.value + 3..end])] + SegmentsFrom(text, end + 3)
  }

  function RenderSegment(r: Renderer, s: Segment): string {
    match s
    case Prose(text) => BlockText(r, text)
    case Code(body) => "<pre><code>" + r.escape(body) + "</code></pre>"
  }

  function RenderSegments(r: Renderer, segments: seq<Segment>): seq<string> {
    seq(|segments|, k requires 0 <= k < |segments| => RenderSegment(r, segments[k]))
  }

  /** `_render_with_fences`. */
  method RenderWithFences(r: Renderer, text: string) returns (html: string)
    ensures html == Join("", RenderSegments(r, SegmentsFrom(text, 0)))
  {
    hide *;
    var parts: seq<string> := [];
    var pos := 0;
    var start := FindFence(text, pos);
    while start.Some? && FindFence(text, start.value + 3).Some?
      invariant pos <= |text| && start == FindFence(text, pos)
      invariant parts + RenderSegments(r, SegmentsFrom(text, pos)) == RenderSegments(r, SegmentsFrom(text, 0))
      decreases |text| - pos
    {
      SegmentsStep(r, text, pos, start.value);
      var end := FindFence(text, start.value + 3).value;
      var before := text[pos..start.value];
      var body := text[start.value + 3..end];
      if before != "" {
        var rendered := RenderBlockContent(r, before);
        parts := parts + [rendered];
      }
      parts := parts + ["<pre><code>" + r.escape(body) + "</code></pre>"];
      pos := end + 3;
      start := FindFence(text, pos);
    }
    var rest := text[pos..];
    SegmentsEnd(r, text, pos);
    if rest != "" {
      var rendered := RenderBlockContent(r, rest);
      parts := parts + [rendered];
    } else {
      assert parts + [] == parts;
    }
    html := Join("", parts);
  }

  /** One pair of fences, rendered. */
  lemma SegmentsStep(r: Renderer, text: string, pos: nat, start: nat)
    requires pos <= |text| && FindFence(text, pos) == Some(start) && FindFence(text, start + 3).Some?
    ensures
      var end := FindFence(text, start + 3).value;
      var before, body := text[pos..start], text[start + 3..end];
      && pos <= start && start + 3 <= end && end + 3 <= |text|
      && RenderSegments(r, SegmentsFrom(text, pos))
         == (if before == "" then [] else [BlockText(r, before)])
          + (["<pre><code>" + r.escape(body) + "</code></pre>"] + RenderSegments(r, SegmentsFrom(text, end + 3)))
  {
    hide *;
    SegmentsAtPair(text, pos);
    var end := FindFence(text, start + 3).value;
    var before, body := text[pos..start], text[start + 3..end];
    var rest := SegmentsFrom(text, end + 3);
    RenderConcat(r, ProseIfAny(before) + [Code(body)], rest);
    RenderConcat(r, ProseIfAny(before), [Code(body)]);
    RenderSmall(r, before, body);
  }

  lemma RenderSmall(r: Renderer, before: string, body: string)
    ensures RenderSegments(r, ProseIfAny(before)) == if before == "" then [] else [BlockText(r, before)]
    ensures RenderSegments(r, [Code(body)]) == ["<pre><code>" + r.escape(body) + "</code></pre>"]
  {
    hide BlockText;
  }

  /** No more pairs. */
  lemma SegmentsEnd(r: Renderer, text: string, pos: nat)
    requires pos <= |text| && (FindFence(text, pos).None? || FindFence(text, FindFence(text, pos).value + 3).None?)
    ensures RenderSegments(r, SegmentsFrom(text, pos)) == if text[pos..] == "" then [] else [BlockText(r, text[pos..])]
  {
    hide BlockText, FindFence;
  }

  lemma RenderConcat(r: Renderer, a: seq<Segment>, b: seq<Segment>)
    ensures RenderSegments(r, a + b) == RenderSegments(r, a) + RenderSegments(r, b)
  {
    hide RenderSegment;
  }

  /** The source text of a segment. */
  function SourceOf(s: Segment): string {
    match s
    case Prose(text) => text
    case Code(body) => Fenced(body)
  }

  function Source(segments: seq<Segment>): string {
    if segments == [] then "" else SourceOf(segments[0]) + Source(segments[1..])
  }

  /** What a segment may contain: no fence inside, and only the last text may have one, unpaired. */
  predicate WellFenced(segments: seq<Segment>) {
    forall k :: 0 <= k < |segments| ==> FitsAt(segments, k)
  }

  predicate FitsAt(segments: seq<Segment>, k: nat)
    requires k < |segments|
  {
    match segments[k]
    case Prose(text) =>
      && text != ""
      && (k + 1 < |segments| ==> segments[k + 1].Code? && FindFence(text + FENCE, 0) == Some(|text|))
      && (k + 1 == |segments| ==> FindFence(text, 0).None? || FindFence(text, FindFence(text, 0).value + 3).None?)
    case Code(body) => FindFence(body + FENCE, 0) == Some(|body|)
  }

  /** The position of a pair of fences, and the segments around it. */
  lemma SegmentsAtPair(text: string, pos: nat)
    requires pos <= |text| && FindFence(text, pos).Some?
    requires FindFence(text, FindFence(text, pos).value + 3).Some?
    ensures
      var start := FindFence(text, pos).value;
      var end := FindFence(text, start + 3).value;
      && pos <= start && start + 3 <= end && end + 3 <= |text|
      && SegmentsFrom(text, pos)
         == ProseIfAny(text[pos..start]) + [Code(text[start + 3..end])] + SegmentsFrom(text, end + 3)
  {}

  lemma SegmentsWithoutPair(text: string, pos: nat)
    requires pos <= |text| && (FindFence(text, pos).None? || FindFence(text, FindFence(text, pos).value + 3).None?)
    ensures SegmentsFrom(text, pos) == ProseIfAny(text[pos..])
  {
    hide FindFence, ProseIfAny;
  }

  /** Splitting at fences loses nothing but the delimiters, and every pair of them is found. */
  lemma {:induction false} SegmentsKeepText(text: string, pos: nat)
    requires pos <= |text|
    ensures Source(SegmentsFrom(text, pos)) == text[pos..]
    ensures WellFenced(SegmentsFrom(text, pos))
    decreases |text| - pos
  {
    hide *;
    var start := FindFence(text, pos);
    if start.None? || FindFence(text, start.value + 3).None? {
      SegmentsWithoutPair(text, pos);
      LastProse(text, pos);
    } else {
      SegmentsAtPair(text, pos);
      var end := FindFence(text, start.value + 3).value;
      SegmentsKeepText(text, end + 3);
      UpToFence(text, pos, start.value);
      UpToFence(text, start.value + 3, end);
      CutAtFences(text, pos, start.value, end);
      SourceConcat(text[pos..start.value], text[start.value + 3..end], SegmentsFrom(text, end + 3));
      WellFencedStep(text[pos..start.value], text[start.value + 3..end], SegmentsFrom(text, end + 3));
    }
  }

  lemma LastProse(text: string, pos: nat)
    requires pos <= |text|
    requires FindFence(text, pos).None? || FindFence(text, FindFence(text, pos).value + 3).None?
    ensures Source(ProseIfAny(text[pos..])) == text[pos..] && WellFenced(ProseIfAny(text[pos..]))
  {
    var rest := text[pos..];
    FindInRest(text, pos, 0);
    if FindFence(text, pos).Some? {
      FindInRest(text, pos, FindFence(text, pos).value - pos + 3);
    }
    if rest != "" {
      assert [Prose(rest)][1..] == [];
      assert rest + "" == rest;
    }
  }

  /** Searching a suffix is searching the text from there. */
  lemma {:induction false} FindInRest(text: string, pos: nat, from: nat)
    requires pos <= |text|
    ensures FindFence(text[pos..], from)
         == if FindFence(text, pos + from).Some? then Some(FindFence(text, pos + from).value - pos) else None
    decreases |text| - from
  {
    if pos + from + 3 <= |text| {
      assert FenceAt(text[pos..], from) <==> FenceAt(text, pos + from);
      if !FenceAt(text, pos + from) {
        FindInRest(text, pos, from + 1);
      }
    }
  }

  /** The text up to the first fence has none, even together with its first characters. */
  lemma UpToFence(text: string, from: nat, k: nat)
    requires from <= |text| && FindFence(text, from) == Some(k)
    ensures FindFence(text[from..k] + FENCE, 0) == Some(k - from)
  {
    var s := text[from..k] + FENCE;
    assert s == text[from..k + 3];
    assert forall m :: 0 <= m < k - from ==> (FenceAt(s, m) ==> FenceAt(text, from + m));
    assert FenceAt(s, k - from);
    var found := FindFence(s, 0);
    assert found.Some?;
  }

  function Fenced(body: string): string {
    FENCE + body + FENCE
  }

  lemma SourceConcat(before: string, body: string, rest: seq<Segment>)
    ensures Source(ProseIfAny(before) + [Code(body)] + rest) == before + (Fenced(body) + Source(rest))
  {
    hide Fenced;
    var tail := [Code(body)] + rest;
    assert tail[1..] == rest;
    assert Source(tail) == Fenced(body) + Source(rest);
    if before == "" {
      assert ProseIfAny(before) + [Code(body)] + rest == tail;
    } else {
      assert ProseIfAny(before) + [Code(body)] + rest == [Prose(before)] + tail;
      assert ([Prose(before)] + tail)[1..] == tail;
    }
  }

  /** The text around one pair of fences. */
  lemma CutAtFences(text: string, pos: nat, start: nat, end: nat)
    requires pos <= start && start + 3 <= end && FenceAt(text, start) && FenceAt(text, end)
    ensures text[pos..] == text[pos..start] + (Fenced(text[start + 3..end]) + text[end + 3..])
  {
    var body, rest := text[start + 3..end], text[end + 3..];
    Cut(text, pos, start);
    FenceHead(text, start);
    Cut(text, start + 3, end);
    FenceHead(text, end);
    Regroup(FENCE, body, FENCE, rest);
  }

  lemma Cut(text: string, a: nat, b: nat)
    requires a <= b <= |text|
    ensures text[a..] == text[a..b] + text[b..]
  {}

  lemma FenceHead(text: string, k: nat)
    requires FenceAt(text, k)
    ensures text[k..] == FENCE + text[k + 3..]
  {}

  lemma Regroup(a: string, b: string, c: string, d: string)
    ensures (a + b + c) + d == a + (b + (c + d))
  {}

  lemma WellFencedStep(before: string, body: string, rest: seq<Segment>)
    requires before == "" || FindFence(before + FENCE, 0) == Some(|before|)
    requires FindFence(body + FENCE, 0) == Some(|body|) && WellFenced(rest)
    ensures WellFenced(ProseIfAny(before) + [Code(body)] + rest)
  {
    hide FindFence;
    var n := |ProseIfAny(before)| + 1;
    var all := ProseIfAny(before) + [Code(body)] + rest;
    assert forall k :: n <= k < |all| ==> all[k] == rest[k - n];
    forall k | 0 <= k < |all|
      ensures FitsAt(all, k)
    {
      if k >= n {
        assert FitsAt(rest, k - n);
      }
    }
  }
}
