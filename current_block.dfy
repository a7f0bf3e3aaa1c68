/** The block record of the current revision (src/index.ts): the token table, the
    `append` that adds a token to the open block, and `processBlock`, which looks at
    the first two tokens of a finished line to decide the block's type. */
module CurrentBlock {
  import opened Lexer
  import opened BlockKinds

  /** The `TOKEN` table, with the literal kind for every character it has no entry for. */
  function TokenOf(c: char): (k: Kind)
    ensures k != Initial && k != Exclamation
    ensures k == Whitespace <==> IsWhitespaceChar(c)
    ensures k == LineEnding <==> IsLineEndingChar(c)
    ensures k == Backslash <==> c == '\\'
  {
    match c
    case '*' => Asterisk
    case '_' => Underline
    case '\\' => Backslash
    case '-' => Dash
    case '=' => Equals
    case '~' => Tilde
    case '|' => Pipe
    case ':' => Colon
    case '`' => Backtick
    case '#' => Hash
    case '>' => GreaterThan
    case '<' => LessThan
    case '[' => OpenBrace
    case ']' => CloseBrace
    case ' ' => Whitespace
    case '\t' => Whitespace
    case '\U{0C}' => Whitespace
    case '\U{0B}' => Whitespace
    case '\r' => LineEnding
    case '\n' => LineEnding
    case _ => Any
  }

  lemma TokenOfProper()
    ensures ProperTable(TokenOf)
  {}

  /** A block as a value: its tokens, its type, the heading level kept in `data`
      (0 while never set) and the `hasInline` flag (false while never set). */
  datatype BlockValue = BlockValue(tokens: seq<Token>, kind: BlockKind, level: nat, hasInline: bool)

  /** The record the tokenizer opens for every new line. */
  const EmptyBlock := BlockValue([], BlankLine, 0, false)

  /** The flag is set exactly when some token has an inline kind. */
  ghost predicate InlineExact(v: BlockValue) {
    v.hasInline <==> exists j :: 0 <= j < |v.tokens| && IsInline(v.tokens[j].kind)
  }

  /** `append(block, token)`: the token goes at the end, and the flag is raised when the
      token's kind is inline. */
  function Appended(v: BlockValue, t: Token): BlockValue {
    v.(tokens := v.tokens + [t], hasInline := v.hasInline || IsInline(t.kind))
  }

  /** Appending keeps the flag exact. */
  lemma AppendedInline(v: BlockValue, t: Token)
    requires InlineExact(v)
    ensures InlineExact(Appended(v, t))
  {
    var r := Appended(v, t);
    assert r.tokens[|v.tokens|] == t;
    assert forall j :: 0 <= j < |v.tokens| ==> r.tokens[j] == v.tokens[j];
  }

  /** The outcome of classifying a line: a type, and the level when it is a heading. */
  datatype Verdict = Verdict(kind: BlockKind, level: nat)

  predicate IsThematicMarker(k: Kind) {
    k == Dash || k == Underline || k == Asterisk
  }

  /** Every token from `j` on is a line ending, whitespace or the same marker as token `j`. */
  predicate ThematicTail(ts: seq<Token>, j: nat)
    requires j < |ts|
  {
    forall q :: j <= q < |ts| ==> ts[q].kind in {LineEnding, Whitespace, ts[j].kind}
  }

  /** What token `j` decides on its own, if anything: a thematic break (or a paragraph
      when other text follows the marker), a heading of at most six hashes, or a fence
      of at least three backticks or tildes. */
  function MarkerAt(ts: seq<Token>, j: nat): Option<Verdict>
    requires j < |ts|
  {
    var t := ts[j];
    if IsThematicMarker(t.kind) then
      Some(Verdict(if ThematicTail(ts, j) then ThematicBreak else Paragraph, 0))
    else if t.kind == Hash && |t.text| < 7 then Some(Verdict(AtxHeading, |t.text|))
    else if |t.text| > 2 && (t.kind == Backtick || t.kind == Tilde) then Some(Verdict(FencedCode, 0))
    else None
  }

  predicate IsFence(t: Token) {
    (t.kind == Backtick || t.kind == Tilde) && |t.text| >= 3
  }

  /** The decision `processBlock` takes for a line made of `ts`. */
  function Classify(ts: seq<Token>): Verdict
  {
    if ts == [] then Verdict(BlankLine, 0)
    else if ts[0].kind == Whitespace && |ts[0].text| > 3 then Verdict(IndentedCode, 0)
    else if MarkerAt(ts, 0).Some? then MarkerAt(ts, 0).value
    else if |ts| > 1 && MarkerAt(ts, 1).Some? then MarkerAt(ts, 1).value
    else Verdict(Paragraph, 0)
  }

  /** What the decision means: a blank line has no tokens, indented code opens with more
      than three spaces, and a heading, fence or thematic break is decided by the first
      or the second token; a line opening with a marker is a break when only that
      marker, whitespace and line endings follow, and a paragraph otherwise. */
  lemma ClassifySpec(ts: seq<Token>)
    ensures Classify(ts).kind in {BlankLine, IndentedCode, ThematicBreak, AtxHeading, FencedCode, Paragraph}
    ensures Classify(ts).kind == BlankLine <==> ts == []
    ensures Classify(ts).kind == IndentedCode <==> ts != [] && ts[0].kind == Whitespace && |ts[0].text| > 3
    ensures Classify(ts).kind == AtxHeading ==>
      && Classify(ts).level <= 6
      && ((ts[0].kind == Hash && |ts[0].text| == Classify(ts).level)
          || (|ts| > 1 && ts[1].kind == Hash && |ts[1].text| == Classify(ts).level))
    ensures Classify(ts).kind == FencedCode ==> IsFence(ts[0]) || (|ts| > 1 && IsFence(ts[1]))
    ensures Classify(ts).kind == ThematicBreak ==>
      || (IsThematicMarker(ts[0].kind) && ThematicTail(ts, 0))
      || (|ts| > 1 && IsThematicMarker(ts[1].kind) && ThematicTail(ts, 1))
    ensures ts != [] && IsThematicMarker(ts[0].kind) ==>
      Classify(ts) == Verdict(if ThematicTail(ts, 0) then ThematicBreak else Paragraph, 0)
  {}

  /** What the first token decides: a `#` run shorter than 7 is a heading of that level,
      and a fence is fenced code. */
  lemma ClassifyFirstToken(ts: seq<Token>)
    requires ts != []
    ensures ts[0].kind == Hash && |ts[0].text| < 7 ==> Classify(ts) == Verdict(AtxHeading, |ts[0].text|)
    ensures IsFence(ts[0]) ==> Classify(ts).kind == FencedCode
  {}

  /** When the first token decides nothing (a leading whitespace token of at most three
      characters never does), the second token decides the same way, and a line neither
      token decides for is a paragraph. */
  lemma ClassifySecondToken(ts: seq<Token>)
    requires ts != [] && !(ts[0].kind == Whitespace && |ts[0].text| > 3)
    requires MarkerAt(ts, 0).None?
    ensures |ts| == 1 ==> Classify(ts) == Verdict(Paragraph, 0)
    ensures |ts| > 1 && ts[1].kind == Hash && |ts[1].text| < 7 ==> Classify(ts) == Verdict(AtxHeading, |ts[1].text|)
    ensures |ts| > 1 && IsFence(ts[1]) ==> Classify(ts).kind == FencedCode
    ensures |ts| > 1 && IsThematicMarker(ts[1].kind) ==>
      Classify(ts) == Verdict(if ThematicTail(ts, 1) then ThematicBreak else Paragraph, 0)
    ensures |ts| > 1 && MarkerAt(ts, 1).None? ==> Classify(ts) == Verdict(Paragraph, 0)
  {}

  /** `processBlock(block)`: the type follows the tokens, and the level is written only
      for a heading (otherwise whatever `data` held before stays). */
  function Classified(v: BlockValue): BlockValue
  {
    var c := Classify(v.tokens);
    v.(kind := c.kind, level := if c.kind == AtxHeading then c.level else v.level)
  }

  /** Only the first two tokens decide, so once a line has two tokens, more tokens can
      change its type only by putting text after a thematic-break marker. */
  lemma ClassifyExtend(ts: seq<Token>, more: seq<Token>)
    requires |ts| >= 2
    ensures Classify(ts + more) == Classify(ts)
         || (Classify(ts).kind == ThematicBreak && Classify(ts + more).kind == Paragraph)
  {
    var all := ts + more;
    assert all[0] == ts[0] && all[1] == ts[1];
    forall j | 0 <= j < 2 && IsThematicMarker(ts[j].kind) && ThematicTail(all, j)
      ensures ThematicTail(ts, j)
    {
      forall q | j <= q < |ts|
        ensures ts[q].kind in {LineEnding, Whitespace, ts[j].kind}
      {
        assert all[q] == ts[q];
      }
    }
  }

  /** The thematic-break scan of `processBlock`: walks the tokens from the marker at
      `j` on and stops at the first one that is neither a line ending, whitespace nor
      the same marker. */
  method OnlyMarksFrom(ts: seq<Token>, j: nat) returns (onlyMarks: bool)
    requires j < |ts|
    ensures onlyMarks == ThematicTail(ts, j)
  {
    var marker := ts[j].kind;
    var rest := ts[j..];
    for m := 0 to |rest|
      invariant forall q :: j <= q < j + m ==> ts[q].kind in {LineEnding, Whitespace, marker}
    {
      var t := rest[m];
      assert t == ts[j + m];
      if t.kind == LineEnding {
        continue;
      }
      if t.kind == Whitespace || t.kind == marker {
        continue;
      }
      return false;
    }
    return true;
  }

  /** The block record, updated in place by `append` and `processBlock`. */
  class Block {
    var tokens: seq<Token>
    var kind: BlockKind
    var level: nat
    var hasInline: bool

    function Value(): BlockValue
      reads this
    {
      BlockValue(tokens, kind, level, hasInline)
    }

    constructor ()
      ensures Value() == EmptyBlock
    {
      tokens := [];
      kind := BlankLine;
      level := 0;
      hasInline := false;
    }

    method Append(t: Token)
      modifies this
      ensures Value() == Appended(old(Value()), t)
    {
      if IsInline(t.kind) {
        hasInline := true;
      }
      tokens := tokens + [t];
    }

    method ProcessBlock()
      modifies this
      ensures Value() == Classified(old(Value()))
    {
      if |tokens| == 0 {
        kind := BlankLine;
        return;
      }
      var i := 0;
      while i < |tokens|
        invariant 0 <= i <= |tokens|
        invariant Value() == old(Value())
        invariant i > 0 ==> !(tokens[0].kind == Whitespace && |tokens[0].text| > 3) && MarkerAt(tokens, 0).None?
        invariant i > 1 ==> MarkerAt(tokens, 1).None?
      {
        var token := tokens[i];
        if i == 0 && token.kind == Whitespace {
          if |token.text| > 3 {
            kind := IndentedCode;
            return;
          }
        }
        if i == 0 || i == 1 {
          if token.kind == Dash || token.kind == Underline || token.kind == Asterisk {
            kind := ThematicBreak;
            var onlyMarks := OnlyMarksFrom(tokens, i);
            if !onlyMarks {
              kind := Paragraph;
            }
            return;
          }
          if token.kind == Hash && |token.text| < 7 {
            kind := AtxHeading;
            level := |token.text|;
            return;
          }
          if |token.text| > 2 && (token.kind == Backtick || token.kind == Tilde) {
            kind := FencedCode;
            return;
          }
        }
        i := i + 1;
      }
      kind := Paragraph;
    }
  }
}
