/** The tokenizer of the older revision (old.ts, `tokenize`): the same run splitting
    as the current one with the older table, a block classified at its first line
    ending only, and a push at the input's last code unit or wherever `canExit` lets
    a block end at a line ending. */
module OldTokenize {
  import opened Lexer
  import opened Text
  import opened BlockKinds
  import opened OldBlock
  import opened OldScan
  import opened RunScan

  /** `OldScanOf` unfolded by one iteration. */
  lemma OldScanNext(input: string, n: nat)
    requires 0 < n <= |input|
    ensures OldScanOf(input, n) == OldStep(input, n - 1, OldScanOf(input, n - 1))
  {}

  // ---------------------------------------------------------------------------
  // The tokens: a prefix of the maximal runs of the input

  lemma {:induction false} OldScanRuns(input: string, n: nat)
    requires n <= |input|
    ensures OldFollowsRuns(input, n, OldScanOf(input, n))
  {
    if n > 0 {
      hide OldStep, OldFollowsRuns;
      OldScanRuns(input, n - 1);
      OldRunsStep(input, n, OldScanOf(input, n - 1));
    }
  }

  lemma OldRunsStep(input: string, n: nat, st: OldState)
    requires 0 < n <= |input| && OldFollowsRuns(input, n - 1, st)
    ensures OldFollowsRuns(input, n, OldStep(input, n - 1, st))
  {
    hide OldStep, RunsUpTo, Flushed;
    OldTokenOfProper();
    RunsAdvance(OldTokenOf, input, n, st.p, st.prev, OldFlatten(st.blocks) + st.cur.tokens);
    if NextKind(OldTokenOf, st.prev, input[n - 1]) == st.prev {
      OldStepSame(input, n - 1, st);
    } else {
      OldFlushTokens(input, n - 1, st);
    }
  }

  /** A character of the kind in progress leaves the state alone. */
  lemma OldStepSame(input: string, i: nat, st: OldState)
    requires i < |input| && NextKind(OldTokenOf, st.prev, input[i]) == st.prev
    ensures OldStep(input, i, st) == st
  {}

  /** A change of kind flushes the run in progress (unless it is empty) and starts the
      next one at `i`; pushing or processing the block loses and reorders no token. */
  lemma OldFlushTokens(input: string, i: nat, st: OldState)
    requires i < |input| && NextKind(OldTokenOf, st.prev, input[i]) != st.prev
    ensures OldStep(input, i, st).p == i && OldStep(input, i, st).prev == NextKind(OldTokenOf, st.prev, input[i])
    ensures OldFlatten(OldStep(input, i, st).blocks) + OldStep(input, i, st).cur.tokens
         == Flushed(input, st.p, i, st.prev, OldFlatten(st.blocks) + st.cur.tokens)
  {
    hide OldStep;
    OldFlushShape(input, i, st);
    OldTokensKept(st, OldOpened(input, i, st), OldStep(input, i, st));
    FlushedAfter(input, st.p, i, st.prev, OldFlatten(st.blocks), st.cur.tokens);
  }

  lemma OldFlushShape(input: string, i: nat, st: OldState)
    requires i < |input| && NextKind(OldTokenOf, st.prev, input[i]) != st.prev
    ensures OldOpened(input, i, st).tokens == Flushed(input, st.p, i, st.prev, st.cur.tokens)
    ensures OldStep(input, i, st).p == i && OldStep(input, i, st).prev == NextKind(OldTokenOf, st.prev, input[i])
    ensures OldCloses(st, OldOpened(input, i, st), OldStep(input, i, st))
  {}

  /** Whether the block is pushed or processed, its tokens stay after the pushed ones. */
  lemma OldTokensKept(st: OldState, cur: OldBlockValue, st': OldState)
    requires OldCloses(st, cur, st')
    ensures OldFlatten(st'.blocks) + st'.cur.tokens == OldFlatten(st.blocks) + cur.tokens
  {
    ProcessedOnce(cur);
    OldFlattenSnoc(st.blocks, cur);
    OldFlattenSnoc(st.blocks, Processed(cur));
  }

  /** Every iteration after the first flushes a non-empty chunk when the kind changes. */
  lemma OldChunkAt(input: string, i: nat)
    requires 0 < i < |input|
    ensures 0 <= OldScanOf(input, i).p < i
    ensures JsSlice(input, OldScanOf(input, i).p, i) == input[OldScanOf(input, i).p..i] != []
  {
    OldScanRuns(input, i);
    var st := OldScanOf(input, i);
    RunsChunk(OldTokenOf, input, i, st.p, st.prev, OldFlatten(st.blocks) + st.cur.tokens);
  }

  /** The tokens of the returned blocks are the input's maximal runs (under the older
      table), in order, minus at least the last run. */
  lemma OldBlocksFollowRuns(input: string)
    ensures OldFlatten(OldBlocksOf(input)) <= Runs(OldTokenOf, input)
    ensures input != [] ==> |OldFlatten(OldBlocksOf(input))| < |Runs(OldTokenOf, input)|
  {
    var st := OldScanOf(input, |input|);
    OldScanRuns(input, |input|);
    RunsFinal(OldTokenOf, input, st.p, st.prev, OldFlatten(st.blocks), st.cur.tokens);
  }

  /** So the blocks' text is a prefix of the input, and their tokens are non-empty,
      alternate in kind and never hold more than one backslash. */
  lemma OldBlockTokensWellFormed(input: string)
    ensures Concat(OldFlatten(OldBlocksOf(input))) <= input
    ensures var ts := OldFlatten(OldBlocksOf(input));
      && (forall j :: 0 <= j < |ts| ==> ts[j].text != [] && ts[j].kind != Initial)
      && (forall j :: 0 < j < |ts| ==> ts[j - 1].kind != ts[j].kind)
      && (forall j :: 0 <= j < |ts| && ts[j].kind == Backslash ==> |ts[j].text| == 1)
  {
    OldBlocksFollowRuns(input);
    OldTokenOfProper();
    RunsPrefixWellFormed(OldTokenOf, input, OldFlatten(OldBlocksOf(input)));
  }

  // ---------------------------------------------------------------------------
  // The pushed blocks

  /** When a block is pushed: exactly when the kind changes and either the character is
      the input's last UTF-16 code unit or it is a line ending and `canExit` holds for the block, which
      has been processed at that line ending. Nothing else is pushed. */
  lemma OldPushRule(input: string, i: nat, st: OldState)
    requires i < |input|
    ensures var k := NextKind(OldTokenOf, st.prev, input[i]);
      var c := if k == LineEnding then Processed(OldOpened(input, i, st)) else OldOpened(input, i, st);
      var bs := OldStep(input, i, st).blocks;
      if k != st.prev && Pushes(input, i, k, c) then bs == st.blocks + [c] else bs == st.blocks
  {}

  /** An input whose last character takes two UTF-16 code units gets no push at its
      last index: a dash followed by an emoji yields no block at all. */
  lemma SurrogatePairEndNoPush()
    ensures OldBlocksOf("-\U{1F600}") == []
  {
    hide CanExit, Processed;
    var input := "-\U{1F600}";
    assert OldScanOf(input, 1) == OldState(0, Dash, [], OldEmpty);
    assert !AtLastCodeUnit(input, 1);
  }

  /** A pushed block is never revised. */
  lemma {:induction false} OldScanGrows(input: string, m: nat, n: nat)
    requires m <= n <= |input|
    ensures OldScanOf(input, m).blocks <= OldScanOf(input, n).blocks
    decreases n - m
  {
    if m < n {
      OldScanGrows(input, m, n - 1);
      OldGrowsStep(input, n, OldScanOf(input, m).blocks, OldScanOf(input, n - 1));
    }
  }

  lemma OldGrowsStep(input: string, n: nat, bs: seq<OldBlockValue>, st: OldState)
    requires 0 < n <= |input| && bs <= st.blocks
    ensures bs <= OldStep(input, n - 1, st).blocks
  {
    OldPushRule(input, n - 1, st);
    PrefixTrans(bs, st.blocks, OldStep(input, n - 1, st).blocks);
  }

  // ---------------------------------------------------------------------------
  // Every block is well built

  lemma {:induction false} OldScanWellBuilt(input: string, n: nat)
    requires n <= |input|
    ensures WellBuiltState(OldScanOf(input, n))
  {
    if n > 0 {
      OldScanWellBuilt(input, n - 1);
      WellBuiltStep(input, n, OldScanOf(input, n - 1));
    }
  }

  lemma WellBuiltStep(input: string, n: nat, st: OldState)
    requires 0 < n <= |input| && WellBuiltState(st)
    ensures WellBuiltState(OldStep(input, n - 1, st))
  {
    hide OldStep;
    if NextKind(OldTokenOf, st.prev, input[n - 1]) == st.prev {
      OldStepSame(input, n - 1, st);
    } else {
      var cur := OldOpened(input, n - 1, st);
      OpenedWellBuilt(input, n - 1, st);
      ProcessedWellBuilt(cur);
      OldFlushShape(input, n - 1, st);
      WellBuiltKept(st, cur, OldStep(input, n - 1, st));
    }
  }

  lemma OpenedWellBuilt(input: string, i: nat, st: OldState)
    requires WellBuilt(st.cur)
    ensures WellBuilt(OldOpened(input, i, st))
  {
    if JsSlice(input, st.p, i) != [] {
      OldAppendedSpec(st.cur, Token(JsSlice(input, st.p, i), st.prev));
    }
  }

  /** Processing a well-built block gives a well-built block. */
  lemma ProcessedWellBuilt(v: OldBlockValue)
    requires WellBuilt(v)
    ensures WellBuilt(Processed(v))
  {
    OldClassifySpec(v.tokens);
  }

  lemma WellBuiltKept(st: OldState, cur: OldBlockValue, st': OldState)
    requires WellBuiltState(st) && WellBuilt(cur) && WellBuilt(Processed(cur))
    requires OldCloses(st, cur, st')
    ensures WellBuiltState(st')
  {
    if st'.blocks != st.blocks {
      var c := st'.blocks[|st.blocks|];
      assert c == cur || c == Processed(cur);
      assert forall j :: 0 <= j < |st.blocks| ==> st'.blocks[j] == st.blocks[j];
    }
  }

  /** The blocks `tokenize` returns are well built: in particular no setext heading,
      link reference or list, a level for every heading and a start condition for
      every HTML block. */
  lemma OldBlocksWellBuilt(input: string)
    ensures AllWellBuilt(OldBlocksOf(input))
  {
    OldScanWellBuilt(input, |input|);
  }

  // ---------------------------------------------------------------------------
  // HTML blocks opened by a standard tag never end at a line ending

  /** At a line ending, the open block's last token is the run before it, which is not
      a line ending; so the fallback of `canExit` never lets such a block end. */
  lemma ExitNotStandard(input: string, i: nat, st: OldState)
    requires i < |input| && NextKind(OldTokenOf, st.prev, input[i]) == LineEnding != st.prev
    requires i == 0 ==> st == OldStart
    requires i > 0 ==> JsSlice(input, st.p, i) != []
    ensures var c := Processed(OldOpened(input, i, st));
      CanExit(c) ==> !IsStandardHtml(c)
  {
    var cur := OldOpened(input, i, st);
    ProcessedOnce(cur);
    OldClassifySpec(cur.tokens);
    if i > 0 {
      assert cur.tokens[|cur.tokens| - 1].kind == st.prev;
    }
  }

  lemma {:induction false} OldScanStandardHtml(input: string, n: nat)
    requires n <= |input|
    ensures StandardHtmlLastUpTo(input, n, OldScanOf(input, n).blocks)
  {
    if n > 0 {
      OldScanStandardHtml(input, n - 1);
      if n > 1 {
        OldChunkAt(input, n - 1);
      }
      StandardHtmlStep(input, n, OldScanOf(input, n - 1));
    }
  }

  lemma StandardHtmlStep(input: string, n: nat, st: OldState)
    requires 0 < n <= |input| && StandardHtmlLastUpTo(input, n - 1, st.blocks)
    requires n == 1 ==> st == OldStart
    requires n > 1 ==> JsSlice(input, st.p, n - 1) != []
    ensures StandardHtmlLastUpTo(input, n, OldStep(input, n - 1, st).blocks)
  {
    var i := n - 1;
    var k := NextKind(OldTokenOf, st.prev, input[i]);
    var c := if k == LineEnding then Processed(OldOpened(input, i, st)) else OldOpened(input, i, st);
    OldPushRule(input, i, st);
    if k != st.prev && Pushes(input, i, k, c) {
      if i != |input| - 1 {
        ExitNotStandard(input, i, st);
      }
      StandardHtmlPush(input, n, st.blocks, c);
    }
  }

  lemma StandardHtmlPush(input: string, n: nat, bs: seq<OldBlockValue>, c: OldBlockValue)
    requires 0 < n <= |input| && StandardHtmlLastUpTo(input, n - 1, bs)
    requires IsStandardHtml(c) ==> n == |input|
    ensures StandardHtmlLastUpTo(input, n, bs + [c])
  {
    var bs' := bs + [c];
    assert forall j :: 0 <= j < |bs| ==> !IsStandardHtml(bs[j]);
    assert forall j :: 0 <= j < |bs| ==> bs'[j] == bs[j];
  }

  /** An HTML block opened by a standard tag has no close pattern, and its last token
      is never a line ending when `canExit` is asked, so it stays open to the end of
      the input: it can only be the last block. */
  lemma StandardHtmlOnlyLast(input: string)
    ensures var bs := OldBlocksOf(input);
      forall j :: 0 <= j < |bs| - 1 ==> !IsStandardHtml(bs[j])
  {
    OldScanStandardHtml(input, |input|);
  }

  // ---------------------------------------------------------------------------
  // The imperative tokenizer

  /** The values of a list of block records. */
  ghost function OldValues(bs: seq<OldBlock>): seq<OldBlockValue>
    reads bs
  {
    if bs == [] then [] else OldValues(bs[..|bs| - 1]) + [bs[|bs| - 1].Value()]
  }

  /** `tokenize(input)`. */
  method OldTokenizeBlocks(input: string) returns (blocks: seq<OldBlock>)
    ensures OldValues(blocks) == OldBlocksOf(input)
  {
    var p := -1;
    var prev := Initial;
    blocks := [];
    var block := new OldBlock();
    for i := 0 to |input|
      invariant OldState(p, prev, OldValues(blocks), block.Value()) == OldScanOf(input, i)
      invariant fresh(block) && block !in blocks
    {
      p, prev, blocks, block := OldAdvance(input, i, p, prev, blocks, block);
    }
  }

  /** The body of the tokenizer's loop for the character at index `i`. */
  method OldAdvance(input: string, i: nat, p: int, prev: Kind, blocks: seq<OldBlock>, block: OldBlock)
    returns (p': int, prev': Kind, blocks': seq<OldBlock>, block': OldBlock)
    requires i < |input| && block !in blocks
    requires OldState(p, prev, OldValues(blocks), block.Value()) == OldScanOf(input, i)
    modifies block
    ensures block' !in blocks' && (block' == block || fresh(block'))
    ensures OldState(p', prev', OldValues(blocks'), block'.Value()) == OldScanOf(input, i + 1)
  {
    OldScanNext(input, i + 1);
    var c := input[i];
    var k := OldTokenOf(c);
    if prev == Backslash {
      k := Any;
    }
    if k == prev {
      OldStepSame(input, i, OldScanOf(input, i));
      return p, prev, blocks, block;
    }
    blocks', block' := OldFlush(input, i, p, prev, k, blocks, block);
    p', prev' := i, k;
  }

  /** A change of kind: the run that just ended goes into the open block, a line ending
      processes the block, and the block is pushed when `Pushes` says so. */
  method OldFlush(input: string, i: nat, p: int, prev: Kind, k: Kind, blocks: seq<OldBlock>, block: OldBlock)
    returns (blocks': seq<OldBlock>, block': OldBlock)
    requires i < |input| && block !in blocks
    requires k == NextKind(OldTokenOf, prev, input[i]) && k != prev
    modifies block
    ensures block' !in blocks' && (block' == block || fresh(block'))
    ensures OldState(i, k, OldValues(blocks'), block'.Value())
         == OldStep(input, i, OldState(p, prev, old(OldValues(blocks)), old(block.Value())))
  {
    ghost var st := OldState(p, prev, OldValues(blocks), block.Value());
    var chunk := JsSlice(input, p, i);
    if chunk != [] {
      block.Append(Token(chunk, prev));
    }
    assert block.Value() == OldOpened(input, i, st);
    if k == LineEnding {
      block.ProcessBlock();
    }
    blocks', block' := blocks, block;
    if AtLastCodeUnit(input, i) || (k == LineEnding && CanExit(block.Value())) {
      blocks', block' := OldPush(blocks, block);
    }
  }

  /** `blocks.push(block)` and a fresh record for the next block. */
  method OldPush(blocks: seq<OldBlock>, block: OldBlock) returns (blocks': seq<OldBlock>, block': OldBlock)
    requires block !in blocks
    ensures OldValues(blocks') == OldValues(blocks) + [block.Value()]
    ensures fresh(block') && block'.Value() == OldEmpty && block' !in blocks'
  {
    assert OldValues(blocks + [block]) == OldValues(blocks) + [block.Value()] by {
      assert (blocks + [block])[..|blocks|] == blocks;
    }
    blocks' := blocks + [block];
    block' := new OldBlock();
  }
}
