/** The current revision's tokenizer loop as a state machine: one `Step` per input
    character, `Scan` for the first `n` characters, and the invariants the proofs about
    it establish. */
module CurrentScan {
  import opened Lexer
  import opened Text
  import opened BlockKinds
  import opened CurrentBlock
  import opened RunScan

  /** The loop's variables between two iterations: `p`, `prevTokenType`, the pushed
      blocks and the open block. */
  datatype ScanState = ScanState(p: int, prev: Kind, blocks: seq<BlockValue>, cur: BlockValue)

  const Start := ScanState(-1, Initial, [], EmptyBlock)

  /** The condition under which a classified line is not pushed. */
  predicate HeldBack(input: string, i: nat, c: BlockValue, blocks: seq<BlockValue>) {
    i != |input| - 1 && c.kind == Paragraph && |blocks| > 0 && blocks[|blocks| - 1].kind == Paragraph
  }

  /** One iteration of the loop, at index `i`. */
  function Step(input: string, i: nat, st: ScanState): ScanState
    requires i < |input|
  {
    var k := NextKind(TokenOf, st.prev, input[i]);
    if k == st.prev then st
    else
      var chunk := JsSlice(input, st.p, i);
      var cur := if chunk != [] then Appended(st.cur, Token(chunk, st.prev)) else st.cur;
      if k != LineEnding then ScanState(i, k, st.blocks, cur)
      else
        var c := Classified(cur);
        if HeldBack(input, i, c, st.blocks) then ScanState(i, k, st.blocks, c)
        else ScanState(i, k, st.blocks + [c], EmptyBlock)
  }

  /** The state after the first `n` iterations. */
  function Scan(input: string, n: nat): ScanState
    requires n <= |input|
  {
    if n == 0 then Start else Step(input, n - 1, Scan(input, n - 1))
  }

  /** What `tokenize` returns: the pushed blocks (the block still open at the end is dropped). */
  function BlocksOf(input: string): seq<BlockValue> {
    Scan(input, |input|).blocks
  }

  /** All tokens of a list of blocks, in order. */
  function Flatten(bs: seq<BlockValue>): seq<Token> {
    if bs == [] then [] else Flatten(bs[..|bs| - 1]) + bs[|bs| - 1].tokens
  }

  lemma FlattenSnoc(bs: seq<BlockValue>, b: BlockValue)
    ensures Flatten(bs + [b]) == Flatten(bs) + b.tokens
  {
    assert (bs + [b])[..|bs|] == bs;
  }

  /** The ways a change of kind can leave the pushed blocks and the open block, once
      the open block has become `cur`: it stays open, or it is classified and held
      back, or the classified block is pushed and an empty one opened. */
  ghost predicate Closes(st: ScanState, cur: BlockValue, st': ScanState) {
    || (st'.blocks == st.blocks && st'.cur == cur)
    || (st'.blocks == st.blocks && st'.cur == Classified(cur))
    || (st'.blocks == st.blocks + [Classified(cur)] && st'.cur == EmptyBlock)
  }

  /** How the loop's variables describe the runs: `p` starts the run in progress,
      `prevTokenType` is its kind, and the tokens handed out so far are exactly the
      runs before it. */
  ghost predicate FollowsRuns(input: string, n: nat, st: ScanState)
    requires n <= |input|
  {
    RunsUpTo(TokenOf, input, n, st.p, st.prev, Flatten(st.blocks) + st.cur.tokens)
  }

  /** Every pushed block has been classified and carries an exact `hasInline` flag. */
  ghost predicate Settled(bs: seq<BlockValue>) {
    forall j :: 0 <= j < |bs| ==> SettledBlock(bs[j])
  }

  ghost predicate SettledBlock(b: BlockValue) {
    Classified(b) == b && InlineExact(b)
  }

  /** The pushed blocks are settled and the open block's flag is exact. */
  ghost predicate SettledState(st: ScanState) {
    Settled(st.blocks) && InlineExact(st.cur)
  }

  /** After the first push, the open block begins with the line-ending token that ended
      the previous line (or, while still empty, a line-ending run is in progress). */
  ghost predicate LineLed(st: ScanState) {
    && (forall j :: 0 < j < |st.blocks| ==>
          st.blocks[j].tokens != [] && st.blocks[j].tokens[0].kind == LineEnding)
    && (st.blocks != [] ==>
          if st.cur.tokens == [] then st.prev == LineEnding else st.cur.tokens[0].kind == LineEnding)
  }

  /** No two neighbouring paragraphs, except possibly the last two blocks. */
  ghost predicate NoEarlyPair(bs: seq<BlockValue>) {
    forall j :: 0 < j < |bs| - 1 ==> !(bs[j - 1].kind == Paragraph && bs[j].kind == Paragraph)
  }

  ghost predicate LastPair(bs: seq<BlockValue>) {
    |bs| >= 2 && bs[|bs| - 2].kind == Paragraph && bs[|bs| - 1].kind == Paragraph
  }

  /** After `n` iterations no two neighbouring blocks are paragraphs, unless they are
      the last two and the input ended with a line ending at character `n - 1`. */
  ghost predicate ParagraphsApartUpTo(input: string, n: nat, bs: seq<BlockValue>)
    requires n <= |input|
  {
    NoEarlyPair(bs) && (LastPair(bs) ==> 0 < n == |input| && IsLineEndingChar(input[n - 1]))
  }
}
