/** Rendering in the older revision (old.ts): `renderInline`, the `RENDER` table, which
    also covers headings with their text, HTML blocks and the untouched type, and
    `parse`. A type with no entry makes `parse` throw; the model returns `None` there. */
module OldRender {
  import opened Lexer
  import opened Text
  import opened BlockKinds
  import opened OldBlock
  import opened OldScan
  import opened OldTokenize
  import CurrentBlock
  import CurrentRender

  /** `renderInline(block)`: the text of all tokens with leading whitespace removed.
      Both branches of the source compute the same thing. */
  function OldRenderInline(v: OldBlockValue): (r: string)
    ensures |r| <= |Concat(v.tokens)| && r == Concat(v.tokens)[|Concat(v.tokens)| - |r|..]
    ensures forall j :: 0 <= j < |Concat(v.tokens)| - |r| ==> IsJsSpace(Concat(v.tokens)[j])
    ensures r != [] ==> !IsJsSpace(r[0])
  {
    if !v.inline then TrimStart(Concat(v.tokens))
    else TrimStart(Concat(v.tokens))
  }

  /** How `${block.data.level}` prints: the number, or `undefined` when no level was
      recorded. */
  function LevelText(level: Option<nat>): (r: string)
    ensures level.Some? ==>
      (forall j :: 0 <= j < |r| ==> '0' <= r[j] <= '9') && DigitsValue(r) == level.value
    ensures level.None? <==> r == "undefined"
  {
    if level.Some? then
      NatToStringValue(level.value);
      NatToString(level.value)
    else "undefined"
  }

  /** `RENDER[block.type](block)`, or `None` when the table has no entry for the type. */
  function OldRenderBlock(v: OldBlockValue): (r: Option<string>)
    ensures r.Some? <==> v.kind in {ThematicBreak, AtxHeading, SetextHeading, Paragraph, Html, BlankLine, Unknown}
  {
    match v.kind
    case ThematicBreak => Some("<hr />")
    case AtxHeading => Some("<h" + LevelText(v.level) + ">" + OldRenderInline(v) + "</h" + LevelText(v.level) + ">")
    case SetextHeading => Some("<h" + LevelText(v.level) + ">" + OldRenderInline(v) + "</h" + LevelText(v.level) + ">")
    case Paragraph => Some("<p>" + OldRenderInline(v) + "</p>")
    case Html => Some(OldRenderInline(v))
    case BlankLine => Some("")
    case Unknown => Some("")
    case _ => None
  }

  /** A heading keeps its whole text, `#` marker included, when the text does not start
      with whitespace: the marker is not stripped. */
  lemma HeadingKeepsMarker(v: OldBlockValue)
    requires v.kind == AtxHeading && v.level.Some? && v.tokens != []
    requires v.tokens[0].text != [] && !IsJsSpace(v.tokens[0].text[0])
    ensures var d := NatToString(v.level.value);
      && OldRenderBlock(v) == Some("<h" + d + ">" + Concat(v.tokens) + "</h" + d + ">")
      && v.tokens[0].text <= Concat(v.tokens)
  {
    var ts := v.tokens;
    assert ts == [ts[0]] + ts[1..];
    ConcatAppend([ts[0]], ts[1..]);
    assert Concat([ts[0]]) == ts[0].text by {
      assert [ts[0]][..0] == [];
    }
    var text := Concat(ts);
    assert text[0] == ts[0].text[0];
    TrimNothing(text);
  }

  lemma TrimNothing(s: string)
    requires s != [] && !IsJsSpace(s[0])
    ensures TrimStart(s) == s
  {}

  /** Paragraphs and thematic breaks render alike in both revisions; a heading of the
      current revision loses the text the older one keeps. */
  lemma RevisionsRenderAlike(v: CurrentBlock.BlockValue, w: OldBlockValue)
    requires v.tokens == w.tokens && v.kind == w.kind
    requires v.kind in {ThematicBreak, Paragraph, BlankLine}
    ensures CurrentRender.RenderBlock(v) == OldRenderBlock(w)
  {}

  /** An HTML block renders as its own text without the leading whitespace: nothing is
      escaped and nothing is added. */
  lemma HtmlVerbatim(v: OldBlockValue)
    requires v.kind == Html
    ensures var s := OldRenderBlock(v).value;
      && Concat(v.tokens) == Concat(v.tokens)[..|Concat(v.tokens)| - |s|] + s
      && (s != [] ==> !IsJsSpace(s[0]))
  {
    var text := Concat(v.tokens);
    var s := OldRenderInline(v);
    assert text == text[..|text| - |s|] + text[|text| - |s|..];
  }

  /** The output of `parse` for a list of blocks: each rendered block followed by a line
      break, in order; `None` when some block has no renderer. */
  function OldRenderAll(bs: seq<OldBlockValue>): (r: Option<string>)
    ensures r.Some? <==> forall j :: 0 <= j < |bs| ==> OldRenderBlock(bs[j]).Some?
    ensures r.Some? ==> |r.value| >= |bs|
  {
    if bs == [] then Some("")
    else
      var front := OldRenderAll(bs[..|bs| - 1]);
      assert forall j :: 0 <= j < |bs| - 1 ==> bs[..|bs| - 1][j] == bs[j];
      var last := OldRenderBlock(bs[|bs| - 1]);
      if front.Some? && last.Some? then Some(front.value + last.value + "\n") else None
  }

  /** Every block contributes its own line break, whatever its rendering holds. */
  lemma {:induction false} OldRenderAllLineBreaks(bs: seq<OldBlockValue>)
    requires OldRenderAll(bs).Some?
    ensures multiset(OldRenderAll(bs).value)['\n'] >= |bs|
    decreases |bs|
  {
    if bs != [] {
      OldRenderAllLineBreaks(bs[..|bs| - 1]);
    }
  }

  /** `parse(input)` is defined exactly when no block of the input is a code block or a
      block quote. */
  lemma OldParseDefinedIff(input: string)
    ensures OldRenderAll(OldBlocksOf(input)).Some?
        <==> forall j :: 0 <= j < |OldBlocksOf(input)| ==>
               OldBlocksOf(input)[j].kind !in {IndentedCode, FencedCode, Blockquote}
  {
    var bs := OldBlocksOf(input);
    OldBlocksWellBuilt(input);
    assert forall j :: 0 <= j < |bs| ==> Reachable(bs[j].kind);
  }

  /** `parse(input)`: tokenize, then append each block's rendering and a line break. */
  method OldParse(input: string) returns (r: Option<string>)
    ensures r == OldRenderAll(OldBlocksOf(input))
  {
    var blocks := OldTokenizeBlocks(input);
    r := OldRenderBlocks(blocks);
  }

  /** The loop of `parse` over the blocks `tokenize` returned. */
  method OldRenderBlocks(blocks: seq<OldBlock>) returns (r: Option<string>)
    ensures r == OldRenderAll(OldValues(blocks))
  {
    var result := "";
    for j := 0 to |blocks|
      invariant OldRenderAll(OldValues(blocks[..j])) == Some(result)
    {
      var out := OldRenderBlock(blocks[j].Value());
      OldValuesSnoc(blocks, j);
      if out.None? {
        OldRenderAllFails(OldValues(blocks), j);
        return None;
      }
      result := result + out.value + "\n";
    }
    assert blocks[..|blocks|] == blocks;
    r := Some(result);
  }

  lemma OldValuesSnoc(bs: seq<OldBlock>, j: nat)
    requires j < |bs|
    ensures OldValues(bs[..j + 1]) == OldValues(bs[..j]) + [bs[j].Value()]
    ensures |OldValues(bs)| == |bs| && OldValues(bs)[j] == bs[j].Value()
  {
    assert bs[..j + 1][..j] == bs[..j];
    OldValuesAt(bs, j);
  }

  lemma {:induction false} OldValuesAt(bs: seq<OldBlock>, j: nat)
    requires j < |bs|
    ensures |OldValues(bs)| == |bs| && OldValues(bs)[j] == bs[j].Value()
    decreases |bs|
  {
    if j < |bs| - 1 {
      OldValuesAt(bs[..|bs| - 1], j);
    } else {
      OldValuesLength(bs[..|bs| - 1]);
    }
  }

  lemma {:induction false} OldValuesLength(bs: seq<OldBlock>)
    ensures |OldValues(bs)| == |bs|
    decreases |bs|
  {
    if bs != [] {
      OldValuesLength(bs[..|bs| - 1]);
    }
  }

  /** One block without a renderer makes the whole of `parse` fail. */
  lemma OldRenderAllFails(bs: seq<OldBlockValue>, j: nat)
    requires j < |bs| && OldRenderBlock(bs[j]).None?
    ensures OldRenderAll(bs) == None
  {}
}
