/** The older revision's tokenizer loop (old.ts, `tokenize` and `canExit`) as a state
    machine, and the invariants the proofs about it establish. Unlike the current
    revision it pushes the open block at the input's last code unit whenever that
    changes the kind, and at a line ending only when `canExit` allows it. */
module OldScan {
  import opened Lexer
  import opened Text
  import opened BlockKinds
  import opened OldBlock
  import opened RunScan

  /** `BLOCK_HTML_CLOSE_RE[condition].test(text)`, or `None` for the start conditions
      that have no entry. The first pattern ignores ASCII case; the others are literal. */
  function CloseTest(condition: nat, text: string): (r: Option<bool>)
    ensures r.Some? <==> condition < 5
  {
    if condition == 0 then
      var lower := AsciiLowerString(text);
      Some(|| Contains(lower, "</pre>") || Contains(lower, "</script>")
           || Contains(lower, "</style>") || Contains(lower, "</textarea>"))
    else if condition == 1 then Some(Contains(text, "-->"))
    else if condition == 2 then Some(Contains(text, "?>"))
    else if condition == 3 then Some(Contains(text, ">"))
    else if condition == 4 then Some(Contains(text, "]]>"))
    else None
  }

  /** The `pre`-group close pattern ignores ASCII case: texts that differ only in the
      case of ASCII letters close alike. */
  lemma CloseTestIgnoresCase(a: string, b: string)
    requires AsciiLowerString(a) == AsciiLowerString(b)
    ensures CloseTest(0, a) == CloseTest(0, b)
  {}

  /** So an upper-case closing tag closes, and a line without `>` closes none of the
      patterns that need one. */
  lemma CloseTestExamples()
    ensures CloseTest(0, "</PRE>") == Some(true)
    ensures CloseTest(3, "<!DOCTYPE") == Some(false)
  {
    assert AsciiLowerString("</PRE>") == "</pre>";
    assert OccursAt("</pre>", "</pre>", 0);
    forall at: nat | at + 1 <= |"<!DOCTYPE"|
      ensures !OccursAt("<!DOCTYPE", ">", at)
    {
      assert "<!DOCTYPE"[at] != '>';
    }
  }

  /** `canExit(blocks, block)`: every block but an HTML one may end at a line ending; an
      HTML block ends when its start condition's close pattern occurs in its text, or,
      for a condition without a pattern, when its last token is a line ending. (On an
      HTML block without tokens the source would throw; such a block never arises, see
      `ProcessedHtmlHasTokens`.) */
  function CanExit(v: OldBlockValue): (r: bool)
    ensures v.kind != Html ==> r
    ensures v.kind == Html && v.condition == Some(5) ==>
      (r <==> v.tokens != [] && v.tokens[|v.tokens| - 1].kind == LineEnding)
    ensures v.kind == Html && v.condition == Some(1) ==> (r <==> Contains(Concat(v.tokens), "-->"))
  {
    if v.kind == Html then
      var test := if v.condition.Some? then CloseTest(v.condition.value, Concat(v.tokens)) else None;
      if test.Some? then test.value
      else v.tokens != [] && v.tokens[|v.tokens| - 1].kind == LineEnding
    else true
  }

  /** The loop's variables between two iterations: `p`, `prevTokenType`, the pushed
      blocks and the open block. */
  datatype OldState = OldState(p: int, prev: Kind, blocks: seq<OldBlockValue>, cur: OldBlockValue)

  const OldStart := OldState(-1, Initial, [], OldEmpty)

  /** The open block once the run that ends at `i` has been appended (when not empty). */
  function OldOpened(input: string, i: nat, st: OldState): OldBlockValue {
    var chunk := JsSlice(input, st.p, i);
    if chunk != [] then OldAppended(st.cur, Token(chunk, st.prev)) else st.cur
  }

  /** `i === input.length - 1`, where `input.length` counts UTF-16 code units. The model
      indexes characters; the two indexings agree up to the last character, and a last
      character outside the Basic Multilingual Plane ends in a second code unit whose
      kind (`Any`) never differs from the first one's, so the source never reaches the
      push test at that last index. */
  predicate AtLastCodeUnit(input: string, i: nat) {
    i == |input| - 1 && IsBmp(input[i])
  }

  /** Whether the iteration at `i`, whose kind is `k`, pushes the block `c`. */
  predicate Pushes(input: string, i: nat, k: Kind, c: OldBlockValue) {
    AtLastCodeUnit(input, i) || (k == LineEnding && CanExit(c))
  }

  /** One iteration of the loop, at index `i`. */
  function OldStep(input: string, i: nat, st: OldState): OldState
    requires i < |input|
  {
    var k := NextKind(OldTokenOf, st.prev, input[i]);
    if k == st.prev then st
    else
      var cur := OldOpened(input, i, st);
      var c := if k == LineEnding then Processed(cur) else cur;
      if Pushes(input, i, k, c) then OldState(i, k, st.blocks + [c], OldEmpty)
      else OldState(i, k, st.blocks, c)
  }

  /** The state after the first `n` iterations. */
  function OldScanOf(input: string, n: nat): OldState
    requires n <= |input|
  {
    if n == 0 then OldStart else OldStep(input, n - 1, OldScanOf(input, n - 1))
  }

  /** What `tokenize` returns. */
  function OldBlocksOf(input: string): seq<OldBlockValue> {
    OldScanOf(input, |input|).blocks
  }

  /** All tokens of a list of blocks, in order. */
  function OldFlatten(bs: seq<OldBlockValue>): seq<Token> {
    if bs == [] then [] else OldFlatten(bs[..|bs| - 1]) + bs[|bs| - 1].tokens
  }

  lemma OldFlattenSnoc(bs: seq<OldBlockValue>, b: OldBlockValue)
    ensures OldFlatten(bs + [b]) == OldFlatten(bs) + b.tokens
  {
    assert (bs + [b])[..|bs|] == bs;
  }

  /** The ways a change of kind can leave the pushed blocks and the open block, once the
      open block has become `cur`: it stays open or is pushed, processed or not. */
  ghost predicate OldCloses(st: OldState, cur: OldBlockValue, st': OldState) {
    || (st'.blocks == st.blocks && (st'.cur == cur || st'.cur == Processed(cur)))
    || (st'.cur == OldEmpty && (st'.blocks == st.blocks + [cur] || st'.blocks == st.blocks + [Processed(cur)]))
  }

  /** How the loop's variables follow the maximal runs of the input. */
  ghost predicate OldFollowsRuns(input: string, n: nat, st: OldState)
    requires n <= |input|
  {
    RunsUpTo(OldTokenOf, input, n, st.p, st.prev, OldFlatten(st.blocks) + st.cur.tokens)
  }

  /** The types `processBlock` can give, plus the untouched one. */
  predicate Reachable(k: BlockKind) {
    k in {Unknown, BlankLine, IndentedCode, ThematicBreak, AtxHeading, FencedCode, Html, Blockquote, Paragraph}
  }

  /** What holds of every block the loop builds: a reachable type, a level for every
      heading, tokens and a start condition for every HTML block, an exact flag. */
  ghost predicate WellBuilt(b: OldBlockValue) {
    && Reachable(b.kind)
    && (b.kind == AtxHeading ==> b.level.Some?)
    && (b.kind == Html ==> b.tokens != [] && b.condition.Some? && b.condition.value < HtmlOpenCount)
    && OldInlineExact(b)
  }

  ghost predicate AllWellBuilt(bs: seq<OldBlockValue>) {
    forall j :: 0 <= j < |bs| ==> WellBuilt(bs[j])
  }

  ghost predicate WellBuiltState(st: OldState) {
    AllWellBuilt(st.blocks) && WellBuilt(st.cur)
  }

  /** An HTML block opened by a standard tag: it has no close pattern. */
  predicate IsStandardHtml(b: OldBlockValue) {
    b.kind == Html && b.condition == Some(5)
  }

  /** After `n` iterations a standard-tag HTML block has been pushed only as the last
      block, and only once the whole input has been read. */
  ghost predicate StandardHtmlLastUpTo(input: string, n: nat, bs: seq<OldBlockValue>) {
    forall j :: 0 <= j < |bs| && IsStandardHtml(bs[j]) ==> n == |input| && j == |bs| - 1
  }
}
