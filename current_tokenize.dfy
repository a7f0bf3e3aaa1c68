/** The tokenizer of the current revision (src/index.ts, `tokenize`): one pass over the
    input that flushes a token whenever the kind changes and, at each line ending,
    classifies the open block and pushes it, except that a paragraph following a
    paragraph is held back (it stays open and takes the next line's tokens too). */
module CurrentTokenize {
  import opened Lexer
  import opened Text
  import opened BlockKinds
  import opened CurrentBlock
  import opened CurrentScan
  import opened RunScan

  /** `Scan` unfolded by one iteration. */
  lemma ScanNext(input: string, n: nat)
    requires 0 < n <= |input|
    ensures Scan(input, n) == Step(input, n - 1, Scan(input, n - 1))
  {}

  // ---------------------------------------------------------------------------
  // The tokens: a prefix of the maximal runs of the input

  lemma {:induction false} ScanRuns(input: string, n: nat)
    requires n <= |input|
    ensures FollowsRuns(input, n, Scan(input, n))
  {
    if n > 0 {
      ScanRuns(input, n - 1);
      RunsStep(input, n, Scan(input, n - 1));
    }
  }

  /** The iteration that reads character `n - 1` keeps `FollowsRuns`. */
  lemma RunsStep(input: string, n: nat, st: ScanState)
    requires 0 < n <= |input| && FollowsRuns(input, n - 1, st)
    ensures FollowsRuns(input, n, Step(input, n - 1, st))
  {
    hide Step, RunsUpTo, Flushed;
    TokenOfProper();
    RunsAdvance(TokenOf, input, n, st.p, st.prev, Flatten(st.blocks) + st.cur.tokens);
    if NextKind(TokenOf, st.prev, input[n - 1]) == st.prev {
      StepSame(input, n - 1, st);
    } else {
      FlushTokens(input, n - 1, st);
    }
  }

  /** A character of the kind in progress leaves the state alone. */
  lemma StepSame(input: string, i: nat, st: ScanState)
    requires i < |input| && NextKind(TokenOf, st.prev, input[i]) == st.prev
    ensures Step(input, i, st) == st
  {}

  /** A change of kind flushes the run in progress (unless it is empty) and starts the
      next one at `i`; no token is lost or reordered by closing the line. */
  lemma FlushTokens(input: string, i: nat, st: ScanState)
    requires i < |input| && NextKind(TokenOf, st.prev, input[i]) != st.prev
    ensures Step(input, i, st).p == i && Step(input, i, st).prev == NextKind(TokenOf, st.prev, input[i])
    ensures Flatten(Step(input, i, st).blocks) + Step(input, i, st).cur.tokens
         == Flushed(input, st.p, i, st.prev, Flatten(st.blocks) + st.cur.tokens)
  {
    hide Step;
    var cur := FlushShape(input, i, st);
    TokensKept(st, cur, Step(input, i, st));
    FlushedAfter(input, st.p, i, st.prev, Flatten(st.blocks), st.cur.tokens);
  }

  /** Closing a line keeps the open block's tokens, in order, after the pushed ones. */
  lemma TokensKept(st: ScanState, cur: BlockValue, st': ScanState)
    requires Closes(st, cur, st')
    ensures Flatten(st'.blocks) + st'.cur.tokens == Flatten(st.blocks) + cur.tokens
  {
    if st'.blocks != st.blocks {
      FlattenSnoc(st.blocks, Classified(cur));
    }
  }

  /** A change of kind appends the run in progress, when it is not empty, to the open
      block and then closes the line in one of the ways `Closes` allows. */
  lemma FlushShape(input: string, i: nat, st: ScanState) returns (cur: BlockValue)
    requires i < |input| && NextKind(TokenOf, st.prev, input[i]) != st.prev
    ensures cur.tokens == Flushed(input, st.p, i, st.prev, st.cur.tokens)
    ensures Step(input, i, st).p == i && Step(input, i, st).prev == NextKind(TokenOf, st.prev, input[i])
    ensures Closes(st, cur, Step(input, i, st))
  {
    var chunk := JsSlice(input, st.p, i);
    cur := if chunk != [] then Appended(st.cur, Token(chunk, st.prev)) else st.cur;
  }

  /** How an iteration ends, in terms of the open block after the chunk (if any) has
      been appended: the pushed blocks and the open block are left alone, or the line
      is closed in one of the ways `Closes` allows. */
  lemma StepShape(input: string, i: nat, st: ScanState) returns (cur: BlockValue)
    requires i < |input|
    ensures cur == st.cur || cur == Appended(st.cur, Token(JsSlice(input, st.p, i), st.prev))
    ensures var st' := Step(input, i, st);
      (st'.blocks == st.blocks && st'.cur == st.cur) || Closes(st, cur, st')
  {
    var chunk := JsSlice(input, st.p, i);
    cur := if chunk != [] then Appended(st.cur, Token(chunk, st.prev)) else st.cur;
  }

  /** Every iteration after the first flushes a non-empty chunk when the kind changes. */
  lemma ChunkAt(input: string, i: nat)
    requires 0 < i < |input|
    ensures 0 <= Scan(input, i).p < i
    ensures JsSlice(input, Scan(input, i).p, i) == input[Scan(input, i).p..i] != []
  {
    ScanRuns(input, i);
    var st := Scan(input, i);
    RunsChunk(TokenOf, input, i, st.p, st.prev, Flatten(st.blocks) + st.cur.tokens);
  }

  /** The tokens of the returned blocks are the input's maximal runs, in order, minus
      at least the last run (which is never flushed). */
  lemma BlocksFollowRuns(input: string)
    ensures Flatten(BlocksOf(input)) <= Runs(TokenOf, input)
    ensures input != [] ==> |Flatten(BlocksOf(input))| < |Runs(TokenOf, input)|
  {
    var st := Scan(input, |input|);
    ScanRuns(input, |input|);
    RunsFinal(TokenOf, input, st.p, st.prev, Flatten(st.blocks), st.cur.tokens);
  }

  /** So the blocks' text is a prefix of the input, and their tokens are non-empty,
      alternate in kind and never hold more than one backslash. */
  lemma BlockTokensWellFormed(input: string)
    ensures Concat(Flatten(BlocksOf(input))) <= input
    ensures var ts := Flatten(BlocksOf(input));
      && (forall j :: 0 <= j < |ts| ==> ts[j].text != [] && ts[j].kind != Initial)
      && (forall j :: 0 < j < |ts| ==> ts[j - 1].kind != ts[j].kind)
      && (forall j :: 0 <= j < |ts| && ts[j].kind == Backslash ==> |ts[j].text| == 1)
  {
    BlocksFollowRuns(input);
    TokenOfProper();
    RunsPrefixWellFormed(TokenOf, input, Flatten(BlocksOf(input)));
  }

  // ---------------------------------------------------------------------------
  // The pushed blocks

  /** One iteration either leaves the pushed blocks alone or pushes one block, at a
      line ending, when the hold-back rule does not apply. */
  lemma StepBlocks(input: string, i: nat, st: ScanState)
    requires i < |input|
    ensures st.blocks <= Step(input, i, st).blocks
    ensures var bs := Step(input, i, st).blocks;
      || bs == st.blocks
      || (&& |bs| == |st.blocks| + 1 && bs[..|st.blocks|] == st.blocks
          && NextKind(TokenOf, st.prev, input[i]) == LineEnding && IsLineEndingChar(input[i])
          && !HeldBack(input, i, bs[|st.blocks|], st.blocks))
  {
    var bs := Step(input, i, st).blocks;
    if bs != st.blocks {
      assert bs[..|st.blocks|] == st.blocks;
    }
  }

  lemma {:induction false} ScanSettled(input: string, n: nat)
    requires n <= |input|
    ensures SettledState(Scan(input, n))
  {
    if n > 0 {
      ScanSettled(input, n - 1);
      SettledStep(input, n, Scan(input, n - 1));
    }
  }

  lemma SettledStep(input: string, n: nat, st: ScanState)
    requires 0 < n <= |input| && SettledState(st)
    ensures SettledState(Step(input, n - 1, st))
  {
    hide Step;
    var cur := StepShape(input, n - 1, st);
    if cur != st.cur {
      AppendedInline(st.cur, Token(JsSlice(input, st.p, n - 1), st.prev));
    }
    SettledKept(st, cur, Step(input, n - 1, st));
  }

  /** Whichever way a line is closed, settled blocks stay settled. */
  lemma SettledKept(st: ScanState, cur: BlockValue, st': ScanState)
    requires SettledState(st) && InlineExact(cur)
    requires (st'.blocks == st.blocks && st'.cur == st.cur) || Closes(st, cur, st')
    ensures SettledState(st')
  {
    if st'.blocks != st.blocks {
      var bs := st.blocks + [Classified(cur)];
      assert bs[|st.blocks|] == Classified(cur);
      assert forall j :: 0 <= j < |st.blocks| ==> bs[j] == st.blocks[j];
    }
  }

  /** A pushed block is never revised: the blocks after `m` iterations begin the blocks
      after any later number of iterations. */
  lemma {:induction false} ScanGrows(input: string, m: nat, n: nat)
    requires m <= n <= |input|
    ensures Scan(input, m).blocks <= Scan(input, n).blocks
    decreases n - m
  {
    if m < n {
      ScanGrows(input, m, n - 1);
      GrowsStep(input, n, Scan(input, m).blocks, Scan(input, n - 1));
    }
  }

  lemma GrowsStep(input: string, n: nat, bs: seq<BlockValue>, st: ScanState)
    requires 0 < n <= |input| && bs <= st.blocks
    ensures bs <= Step(input, n - 1, st).blocks
  {
    StepBlocks(input, n - 1, st);
    PrefixTrans(bs, st.blocks, Step(input, n - 1, st).blocks);
  }

  lemma {:induction false} ScanLineLed(input: string, n: nat)
    requires n <= |input|
    ensures LineLed(Scan(input, n))
  {
    if n > 0 {
      ScanLineLed(input, n - 1);
      if n > 1 {
        ChunkAt(input, n - 1);
      }
      LineLedStep(input, n, Scan(input, n - 1));
    }
  }

  lemma LineLedStep(input: string, n: nat, st: ScanState)
    requires 0 < n <= |input| && LineLed(st)
    requires n == 1 ==> st == Start
    requires n > 1 ==> 0 <= st.p < n - 1 && JsSlice(input, st.p, n - 1) != []
    ensures LineLed(Step(input, n - 1, st))
  {
    var i := n - 1;
    var k := NextKind(TokenOf, st.prev, input[i]);
    var bs := Step(input, i, st).blocks;
    StepBlocks(input, i, st);
    if k != st.prev && st.blocks != [] {
      var cur := Appended(st.cur, Token(JsSlice(input, st.p, i), st.prev));
      assert cur.tokens[0].kind == LineEnding;
      if bs != st.blocks {
        assert bs == st.blocks + [Classified(cur)];
      }
    }
  }

  /** Every block after the first starts with a line-ending token, so it is never blank
      and never indented code: indentation is only ever looked for on the input's
      first line. */
  lemma LaterBlocksStartWithLineEnding(input: string)
    ensures var bs := BlocksOf(input);
      forall j :: 0 < j < |bs| ==>
        && bs[j].tokens != [] && bs[j].tokens[0].kind == LineEnding
        && bs[j].kind != BlankLine && bs[j].kind != IndentedCode
  {
    ScanLineLed(input, |input|);
    ScanSettled(input, |input|);
  }

  lemma {:induction false} ScanParagraphs(input: string, n: nat)
    requires n <= |input|
    ensures ParagraphsApartUpTo(input, n, Scan(input, n).blocks)
  {
    if n > 0 {
      ScanParagraphs(input, n - 1);
      ParagraphStep(input, n, Scan(input, n - 1));
    }
  }

  /** A push that makes two paragraphs neighbours happens only at the last character. */
  lemma ParagraphStep(input: string, n: nat, st: ScanState)
    requires 0 < n <= |input| && ParagraphsApartUpTo(input, n - 1, st.blocks)
    ensures ParagraphsApartUpTo(input, n, Step(input, n - 1, st).blocks)
  {
    var bs := Step(input, n - 1, st).blocks;
    StepBlocks(input, n - 1, st);
    if bs == st.blocks {
      ApartLater(input, n, st.blocks);
    } else {
      ApartAfterPush(input, n, st.blocks, bs);
    }
  }

  lemma ApartLater(input: string, n: nat, bs: seq<BlockValue>)
    requires 0 < n <= |input| && ParagraphsApartUpTo(input, n - 1, bs)
    ensures ParagraphsApartUpTo(input, n, bs)
  {}

  /** Pushing a block that the hold-back rule let through. */
  lemma ApartAfterPush(input: string, n: nat, bs: seq<BlockValue>, bs': seq<BlockValue>)
    requires 0 < n <= |input| && ParagraphsApartUpTo(input, n - 1, bs)
    requires |bs'| == |bs| + 1 && bs'[..|bs|] == bs
    requires IsLineEndingChar(input[n - 1]) && !HeldBack(input, n - 1, bs'[|bs|], bs)
    ensures ParagraphsApartUpTo(input, n, bs')
  {
    forall j | 0 < j < |bs'| - 1
      ensures !(bs'[j - 1].kind == Paragraph && bs'[j].kind == Paragraph)
    {
      assert bs'[j - 1] == bs[j - 1] && bs'[j] == bs[j];
    }
  }

  /** The hold-back rule: two paragraphs are pushed one after the other only by the
      line ending that is the input's last character. */
  lemma ParagraphsApart(input: string)
    ensures var bs := BlocksOf(input);
      forall j :: 0 < j < |bs| && bs[j - 1].kind == Paragraph && bs[j].kind == Paragraph ==>
        j == |bs| - 1 && IsLineEndingChar(input[|input| - 1])
  {
    var bs := BlocksOf(input);
    ScanParagraphs(input, |input|);
    forall j | 0 < j < |bs| && bs[j - 1].kind == Paragraph && bs[j].kind == Paragraph
      ensures j == |bs| - 1 && IsLineEndingChar(input[|input| - 1])
    {
      assert LastPair(bs);
    }
  }

  // ---------------------------------------------------------------------------
  // The imperative tokenizer

  /** The values of a list of block records. */
  ghost function Values(bs: seq<Block>): seq<BlockValue>
    reads bs
  {
    if bs == [] then [] else Values(bs[..|bs| - 1]) + [bs[|bs| - 1].Value()]
  }

  /** `Step` taken apart by the branch the loop body goes through. */
  lemma StepCases(input: string, i: nat, st: ScanState)
    requires i < |input|
    ensures var k := NextKind(TokenOf, st.prev, input[i]);
      var chunk := JsSlice(input, st.p, i);
      var cur := if chunk != [] then Appended(st.cur, Token(chunk, st.prev)) else st.cur;
      && (k == st.prev ==> Step(input, i, st) == st)
      && (k != st.prev && k != LineEnding ==> Step(input, i, st) == ScanState(i, k, st.blocks, cur))
      && (k == LineEnding && k != st.prev && HeldBack(input, i, Classified(cur), st.blocks) ==>
            Step(input, i, st) == ScanState(i, k, st.blocks, Classified(cur)))
      && (k == LineEnding && k != st.prev && !HeldBack(input, i, Classified(cur), st.blocks) ==>
            Step(input, i, st) == ScanState(i, k, st.blocks + [Classified(cur)], EmptyBlock))
  {}

  /** `tokenize(input)`. */
  method Tokenize(input: string) returns (blocks: seq<Block>)
    ensures Values(blocks) == BlocksOf(input)
  {
    var p := -1;
    var prev := Initial;
    blocks := [];
    var block := new Block();
    for i := 0 to |input|
      invariant ScanState(p, prev, Values(blocks), block.Value()) == Scan(input, i)
      invariant fresh(block) && block !in blocks
    {
      p, prev, blocks, block := Advance(input, i, p, prev, blocks, block);
    }
  }

  /** The body of the tokenizer's loop for the character at index `i`. */
  method Advance(input: string, i: nat, p: int, prev: Kind, blocks: seq<Block>, block: Block)
    returns (p': int, prev': Kind, blocks': seq<Block>, block': Block)
    requires i < |input| && block !in blocks
    requires ScanState(p, prev, Values(blocks), block.Value()) == Scan(input, i)
    modifies block
    ensures block' !in blocks' && (block' == block || fresh(block'))
    ensures ScanState(p', prev', Values(blocks'), block'.Value()) == Scan(input, i + 1)
  {
    ScanNext(input, i + 1);
    var c := input[i];
    var k := TokenOf(c);
    if prev == Backslash {
      k := Any;
    }
    if k == prev {
      StepSame(input, i, Scan(input, i));
      return p, prev, blocks, block;
    }
    blocks', block' := Flush(input, i, p, prev, k, blocks, block);
    p', prev' := i, k;
  }

  /** A change of kind: the run that just ended goes into the open block, and a line
      ending then closes the line. */
  method Flush(input: string, i: nat, p: int, prev: Kind, k: Kind, blocks: seq<Block>, block: Block)
    returns (blocks': seq<Block>, block': Block)
    requires i < |input| && block !in blocks
    requires k == NextKind(TokenOf, prev, input[i]) && k != prev
    modifies block
    ensures block' !in blocks' && (block' == block || fresh(block'))
    ensures ScanState(i, k, Values(blocks'), block'.Value())
         == Step(input, i, ScanState(p, prev, old(Values(blocks)), old(block.Value())))
  {
    ghost var st := ScanState(p, prev, Values(blocks), block.Value());
    StepCases(input, i, st);
    var chunk := JsSlice(input, p, i);
    if chunk != [] {
      block.Append(Token(chunk, prev));
    }
    blocks', block' := blocks, block;
    if k == LineEnding {
      blocks', block' := EndLine(input, i, blocks, block);
    }
  }

  /** The line-ending branch of the loop body: classify the open block, then push it
      and open a new one unless the hold-back rule keeps it open. */
  method EndLine(input: string, i: nat, blocks: seq<Block>, block: Block)
    returns (blocks': seq<Block>, block': Block)
    requires block !in blocks
    modifies block
    ensures block' !in blocks' && (block' == block || fresh(block'))
    ensures var c := Classified(old(block.Value()));
      if HeldBack(input, i, c, Values(blocks)) then
        blocks' == blocks && block' == block && block.Value() == c
      else
        Values(blocks') == Values(blocks) + [c] && fresh(block') && block'.Value() == EmptyBlock
  {
    block.ProcessBlock();
    if i != |input| - 1 && block.kind == Paragraph && |blocks| > 0 && blocks[|blocks| - 1].kind == Paragraph {
      return blocks, block;
    }
    assert Values(blocks + [block]) == Values(blocks) + [block.Value()] by {
      assert (blocks + [block])[..|blocks|] == blocks;
    }
    blocks' := blocks + [block];
    block' := new Block();
  }
}
