/** Rendering in the current revision (src/index.ts): `renderInline`, the `RENDER`
    table and `parse`. A block type with no entry in the table makes `parse` throw; the
    model returns `None` there. */
module CurrentRender {
  import opened Lexer
  import opened Text
  import opened BlockKinds
  import opened CurrentBlock
  import opened CurrentScan
  import opened CurrentTokenize

  /** `renderInline(block)`: the text of all tokens with leading whitespace removed.
      Both branches of the source compute the same thing. */
  function RenderInline(v: BlockValue): (r: string)
    ensures |r| <= |Concat(v.tokens)| && r == Concat(v.tokens)[|Concat(v.tokens)| - |r|..]
    ensures forall j :: 0 <= j < |Concat(v.tokens)| - |r| ==> IsJsSpace(Concat(v.tokens)[j])
    ensures r != [] ==> !IsJsSpace(r[0])
  {
    if !v.hasInline then TrimStart(Concat(v.tokens))
    else TrimStart(Concat(v.tokens))
  }

  /** The flag `append` maintains has no effect on the output. */
  lemma RenderInlineIgnoresFlag(v: BlockValue, w: BlockValue)
    requires v.tokens == w.tokens
    ensures RenderInline(v) == RenderInline(w)
  {}

  /** `RENDER[block.type](block)`, or `None` when the table has no entry for the type. */
  function RenderBlock(v: BlockValue): (r: Option<string>)
    ensures r.Some? <==> v.kind in {ThematicBreak, AtxHeading, Paragraph, BlankLine}
  {
    match v.kind
    case ThematicBreak => Some("<hr />")
    case AtxHeading => Some("<h" + NatToString(v.level) + "></h" + NatToString(v.level) + ">")
    case Paragraph => Some("<p>" + RenderInline(v) + "</p>")
    case BlankLine => Some("")
    case _ => None
  }

  /** A heading renders as an empty element: two headings of the same level render the
      same whatever their tokens. */
  lemma HeadingIgnoresTokens(v: BlockValue, w: BlockValue)
    requires v.kind == AtxHeading && w.kind == AtxHeading && v.level == w.level
    ensures RenderBlock(v) == RenderBlock(w)
  {}

  /** The level can be read back from a heading's opening tag. */
  lemma HeadingLevelReadBack(v: BlockValue)
    requires v.kind == AtxHeading
    ensures var s := RenderBlock(v).value;
      && |s| >= 9 && (|s| - 7) % 2 == 0
      && s[..2] == "<h" && s[|s| - 1] == '>'
      && DigitsValue(s[2..2 + (|s| - 7) / 2]) == v.level
  {
    var d := NatToString(v.level);
    var s := RenderBlock(v).value;
    assert s == "<h" + d + "></h" + d + ">";
    assert |s| == 7 + 2 * |d|;
    assert s[2..2 + |d|] == d;
    NatToStringValue(v.level);
  }

  /** A paragraph is wrapped in `<p>` and `</p>` around its token text with the leading
      whitespace removed, so the part between the tags ends the block's text. */
  lemma ParagraphShape(v: BlockValue)
    requires v.kind == Paragraph
    ensures var s := RenderBlock(v).value;
      && |s| >= 7 && s[..3] == "<p>" && s[|s| - 4..] == "</p>"
      && s[3..|s| - 4] == RenderInline(v)
      && Concat(v.tokens) == Concat(v.tokens)[..|Concat(v.tokens)| - |s| + 7] + s[3..|s| - 4]
  {
    var s := RenderBlock(v).value;
    var text := Concat(v.tokens);
    var r := RenderInline(v);
    assert s == "<p>" + r + "</p>";
    assert s[3..|s| - 4] == r;
    assert text == text[..|text| - |r|] + text[|text| - |r|..];
  }

  /** The output of `parse` for a list of blocks: each rendered block followed by a line
      break, in order; `None` when some block has no renderer. */
  function RenderAll(bs: seq<BlockValue>): (r: Option<string>)
    ensures r.Some? <==> forall j :: 0 <= j < |bs| ==> RenderBlock(bs[j]).Some?
    ensures r.Some? ==> |r.value| >= |bs|
  {
    if bs == [] then Some("")
    else
      var front := RenderAll(bs[..|bs| - 1]);
      assert forall j :: 0 <= j < |bs| - 1 ==> bs[..|bs| - 1][j] == bs[j];
      var last := RenderBlock(bs[|bs| - 1]);
      if front.Some? && last.Some? then Some(front.value + last.value + "\n") else None
  }

  /** Every block contributes its own line break, whatever its rendering holds. */
  lemma {:induction false} RenderAllLineBreaks(bs: seq<BlockValue>)
    requires RenderAll(bs).Some?
    ensures multiset(RenderAll(bs).value)['\n'] >= |bs|
    decreases |bs|
  {
    if bs != [] {
      RenderAllLineBreaks(bs[..|bs| - 1]);
    }
  }

  /** Rendering distributes over concatenation of block lists. */
  lemma {:induction false} RenderAllAppend(a: seq<BlockValue>, b: seq<BlockValue>)
    requires RenderAll(a).Some? && RenderAll(b).Some?
    ensures RenderAll(a + b) == Some(RenderAll(a).value + RenderAll(b).value)
    decreases |b|
  {
    hide RenderBlock;
    if b == [] {
      assert a + b == a;
      assert RenderAll(a).value + "" == RenderAll(a).value;
    } else {
      var b' := b[..|b| - 1];
      assert (a + b)[..|a + b| - 1] == a + b';
      assert (a + b)[|a + b| - 1] == b[|b| - 1];
      assert RenderAll(b').Some?;
      RenderAllAppend(a, b');
      var x, y, z := RenderAll(a).value, RenderAll(b').value, RenderBlock(b[|b| - 1]).value;
      assert x + y + z + "\n" == x + (y + z + "\n");
    }
  }

  /** `parse(input)` is defined exactly when no block of the input is a code block. */
  lemma ParseDefinedIff(input: string)
    ensures RenderAll(BlocksOf(input)).Some?
        <==> forall j :: 0 <= j < |BlocksOf(input)| ==>
               BlocksOf(input)[j].kind != IndentedCode && BlocksOf(input)[j].kind != FencedCode
  {
    var bs := BlocksOf(input);
    ScanSettled(input, |input|);
    forall j | 0 <= j < |bs|
      ensures bs[j].kind in {BlankLine, IndentedCode, ThematicBreak, AtxHeading, FencedCode, Paragraph}
    {
      assert SettledBlock(bs[j]);
      ClassifySpec(bs[j].tokens);
    }
  }

  /** `parse(input)`: tokenize, then append each block's rendering and a line break. */
  method Parse(input: string) returns (r: Option<string>)
    ensures r == RenderAll(BlocksOf(input))
  {
    var blocks := Tokenize(input);
    r := RenderBlocks(blocks);
  }

  /** The loop of `parse` over the blocks `tokenize` returned. */
  method RenderBlocks(blocks: seq<Block>) returns (r: Option<string>)
    ensures r == RenderAll(Values(blocks))
  {
    var result := "";
    for j := 0 to |blocks|
      invariant RenderAll(Values(blocks[..j])) == Some(result)
    {
      var out := RenderBlock(blocks[j].Value());
      ValuesSnoc(blocks, j);
      if out.None? {
        RenderAllFails(Values(blocks), j);
        return None;
      }
      result := result + out.value + "\n";
    }
    assert blocks[..|blocks|] == blocks;
    r := Some(result);
  }

  lemma ValuesSnoc(bs: seq<Block>, j: nat)
    requires j < |bs|
    ensures Values(bs[..j + 1]) == Values(bs[..j]) + [bs[j].Value()]
    ensures |Values(bs)| == |bs| && Values(bs)[j] == bs[j].Value()
  {
    assert bs[..j + 1][..j] == bs[..j];
    ValuesAt(bs, j);
  }

  lemma {:induction false} ValuesAt(bs: seq<Block>, j: nat)
    requires j < |bs|
    ensures |Values(bs)| == |bs| && Values(bs)[j] == bs[j].Value()
    decreases |bs|
  {
    if j < |bs| - 1 {
      ValuesAt(bs[..|bs| - 1], j);
    } else {
      ValuesLength(bs[..|bs| - 1]);
    }
  }

  lemma {:induction false} ValuesLength(bs: seq<Block>)
    ensures |Values(bs)| == |bs|
    decreases |bs|
  {
    if bs != [] {
      ValuesLength(bs[..|bs| - 1]);
    }
  }

  /** One block without a renderer makes the whole of `parse` fail. */
  lemma RenderAllFails(bs: seq<BlockValue>, j: nat)
    requires j < |bs| && RenderBlock(bs[j]).None?
    ensures RenderAll(bs) == None
  {}
}
