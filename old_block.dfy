/** The block record of the older revision (old.ts): its token table (which also
    knows `!`), `append`, the HTML start conditions, and `processBlock`, which classifies
    a block at most once, skips a short leading indentation, and also recognises HTML
    blocks and block quotes. */
module OldBlock {
  import opened Lexer
  import opened Text
  import opened BlockKinds
  import CurrentBlock

  /** The older `TOKEN` table: the current one plus `!`. */
  function OldTokenOf(c: char): (k: Kind)
    ensures k != Initial
    ensures k == Exclamation <==> c == '!'
    ensures c != '!' ==> k == CurrentBlock.TokenOf(c)
  {
    if c == '!' then Exclamation else CurrentBlock.TokenOf(c)
  }

  lemma OldTokenOfProper()
    ensures ProperTable(OldTokenOf)
  {}

  /** A block as a value. `level` and `condition` are the entries of `data` that
      `processBlock` may set (`None` while never set), `inline` is `data.inline`. */
  datatype OldBlockValue = OldBlockValue(
    tokens: seq<Token>, kind: BlockKind, level: Option<nat>, condition: Option<nat>, inline: bool)

  /** The record the tokenizer opens for every new block. */
  const OldEmpty := OldBlockValue([], Unknown, None, None, false)

  /** The flag is set exactly when some token has an inline kind. */
  ghost predicate OldInlineExact(v: OldBlockValue) {
    v.inline <==> exists j :: 0 <= j < |v.tokens| && IsInline(v.tokens[j].kind)
  }

  /** `append(block, token)`. */
  function OldAppended(v: OldBlockValue, t: Token): OldBlockValue {
    v.(tokens := v.tokens + [t], inline := v.inline || IsInline(t.kind))
  }

  /** Appending puts the token last, keeps everything before it, and keeps the flag exact. */
  lemma OldAppendedSpec(v: OldBlockValue, t: Token)
    requires OldInlineExact(v)
    ensures var r := OldAppended(v, t);
      && r.tokens[..|v.tokens|] == v.tokens && r.tokens[|v.tokens|] == t && |r.tokens| == |v.tokens| + 1
      && r.kind == v.kind && r.level == v.level && r.condition == v.condition
      && OldInlineExact(r)
  {
    var r := OldAppended(v, t);
    assert r.tokens[|v.tokens|] == t;
    assert forall j :: 0 <= j < |v.tokens| ==> r.tokens[j] == v.tokens[j];
  }

  const PreTags: set<string> := {"pre", "script", "style", "textarea"}

  const StandardTags: set<string> := {
    "address", "article", "aside", "base", "basefont", "blockquote", "body", "caption",
    "center", "col", "colgroup", "dd", "details", "dialog", "dir", "div", "dl", "dt",
    "fieldset", "figcaption", "figure", "footer", "form", "frame", "frameset",
    "h1", "h2", "h3", "h4", "h5", "h6", "head", "header", "hr", "html", "iframe",
    "legend", "li", "link", "main", "menu", "menuitem", "nav", "noframes", "ol",
    "optgroup", "option", "p", "param", "section", "source", "summary", "table",
    "tbody", "td", "tfoot", "th", "thead", "title", "tr", "track", "ul"}

  /** The number of entries of `BLOCK_HTML_OPEN`. */
  const HtmlOpenCount := 6

  /** `BLOCK_HTML_OPEN[k](tokens)`: a tag of the `pre` group, `<!--`, `<?`, `<!` and a
      letter, `<![CDATA[`, a standard tag. The letter test is a regular expression
      applied to the first character of the third token; an empty token would hand it
      the string "undefined", which contains a letter. */
  predicate HtmlOpens(ts: seq<Token>, k: nat) {
    if k == 0 then |ts| > 1 && ts[1].kind == Any && ts[1].text in PreTags
    else if k == 1 then |ts| > 2 && ts[1].kind == Exclamation && ts[2].kind == Dash && |ts[2].text| > 1
    else if k == 2 then |ts| > 1 && |ts[1].text| > 0 && ts[1].text[0] == '?'
    else if k == 3 then
      |ts| > 2 && ts[1].kind == Exclamation && (ts[2].text == [] || IsAsciiLetter(ts[2].text[0]))
    else if k == 4 then
      && |ts| > 4 && ts[1].kind == Exclamation && ts[2].kind == OpenBrace
      && ts[3].text == "CDATA" && ts[4].kind == OpenBrace
    else if k == 5 then |ts| > 1 && ts[1].kind == Any && ts[1].text in StandardTags
    else false
  }

  /** The first start condition from `k` on that holds, if any. */
  function FirstOpenFrom(ts: seq<Token>, k: nat): (r: Option<nat>)
    requires k <= HtmlOpenCount
    ensures r.Some? ==> k <= r.value < HtmlOpenCount && HtmlOpens(ts, r.value)
    ensures forall c :: k <= c < HtmlOpenCount && (r.None? || c < r.value) ==> !HtmlOpens(ts, c)
    decreases HtmlOpenCount - k
  {
    if k == HtmlOpenCount then None
    else if HtmlOpens(ts, k) then Some(k)
    else FirstOpenFrom(ts, k + 1)
  }

  /** The outcome of classifying a line: a type, the heading level and the HTML start
      condition (each meaningful only for its type). */
  datatype OldVerdict = OldVerdict(kind: BlockKind, level: nat, condition: nat)

  /** What token `j` decides on its own, if anything: the current revision's markers,
      then `<` with a matching start condition (HTML), then `>` (block quote). */
  function OldMarkerAt(ts: seq<Token>, j: nat): Option<OldVerdict>
    requires j < |ts|
  {
    var t := ts[j];
    if CurrentBlock.IsThematicMarker(t.kind) then
      Some(OldVerdict(if CurrentBlock.ThematicTail(ts, j) then ThematicBreak else Paragraph, 0, 0))
    else if t.kind == Hash && |t.text| < 7 then Some(OldVerdict(AtxHeading, |t.text|, 0))
    else if |t.text| > 2 && (t.kind == Backtick || t.kind == Tilde) then Some(OldVerdict(FencedCode, 0, 0))
    else if t.kind == LessThan && FirstOpenFrom(ts, 0).Some? then
      Some(OldVerdict(Html, 0, FirstOpenFrom(ts, 0).value))
    else if t.kind == GreaterThan then Some(OldVerdict(Blockquote, 0, 0))
    else None
  }

  /** The decision `processBlock` takes for a line made of `ts`: a leading whitespace
      token is indented code when longer than three characters and is skipped
      otherwise; only the first two tokens are looked at. */
  function OldClassify(ts: seq<Token>): OldVerdict {
    if ts == [] then OldVerdict(BlankLine, 0, 0)
    else if ts[0].kind == Whitespace && |ts[0].text| > 3 then OldVerdict(IndentedCode, 0, 0)
    else if ts[0].kind != Whitespace && OldMarkerAt(ts, 0).Some? then OldMarkerAt(ts, 0).value
    else if |ts| > 1 && OldMarkerAt(ts, 1).Some? then OldMarkerAt(ts, 1).value
    else OldVerdict(Paragraph, 0, 0)
  }

  /** What the decision means: never the untouched type nor a setext heading, link
      reference or list; blank exactly for no tokens; indented code exactly for a long
      leading indentation; HTML only for `<` at one of the first two tokens with the
      first matching start condition; a block quote only for `>` there. */
  lemma OldClassifySpec(ts: seq<Token>)
    ensures OldClassify(ts).kind in
      {BlankLine, IndentedCode, ThematicBreak, AtxHeading, FencedCode, Html, Blockquote, Paragraph}
    ensures OldClassify(ts).kind == BlankLine <==> ts == []
    ensures OldClassify(ts).kind == IndentedCode <==> ts != [] && ts[0].kind == Whitespace && |ts[0].text| > 3
    ensures OldClassify(ts).kind == AtxHeading ==>
      && OldClassify(ts).level <= 6
      && ((ts[0].kind == Hash && |ts[0].text| == OldClassify(ts).level)
          || (|ts| > 1 && ts[1].kind == Hash && |ts[1].text| == OldClassify(ts).level))
    ensures OldClassify(ts).kind == Html ==>
      && (ts[0].kind == LessThan || (|ts| > 1 && ts[1].kind == LessThan))
      && FirstOpenFrom(ts, 0) == Some(OldClassify(ts).condition)
    ensures OldClassify(ts).kind == Blockquote ==>
      ts[0].kind == GreaterThan || (|ts| > 1 && ts[1].kind == GreaterThan)
  {}

  /** The type a thematic break or fenced code gets always comes from one of the first
      two tokens: a marker followed only by itself, whitespace and line endings, or a
      backtick or tilde run of at least three. */
  lemma OldClassifyBreaksAndFences(ts: seq<Token>)
    ensures OldClassify(ts).kind == ThematicBreak ==>
      || (CurrentBlock.IsThematicMarker(ts[0].kind) && CurrentBlock.ThematicTail(ts, 0))
      || (|ts| > 1 && CurrentBlock.IsThematicMarker(ts[1].kind) && CurrentBlock.ThematicTail(ts, 1))
    ensures OldClassify(ts).kind == FencedCode ==>
      CurrentBlock.IsFence(ts[0]) || (|ts| > 1 && CurrentBlock.IsFence(ts[1]))
  {}

  /** What a first token that is not whitespace decides: a `#` run shorter than 7 is a
      heading of that level, a fence is fenced code, `>` is a block quote, `<` with a
      matching start condition is HTML with the first such condition, and a thematic
      marker is a break when only itself, whitespace and line endings follow, and a
      paragraph otherwise. */
  lemma OldClassifyFirstToken(ts: seq<Token>)
    requires ts != []
    ensures ts[0].kind == Hash && |ts[0].text| < 7 ==>
      OldClassify(ts) == OldVerdict(AtxHeading, |ts[0].text|, 0)
    ensures CurrentBlock.IsFence(ts[0]) ==> OldClassify(ts).kind == FencedCode
    ensures ts[0].kind == GreaterThan ==> OldClassify(ts).kind == Blockquote
    ensures ts[0].kind == LessThan && FirstOpenFrom(ts, 0).Some? ==>
      OldClassify(ts) == OldVerdict(Html, 0, FirstOpenFrom(ts, 0).value)
    ensures CurrentBlock.IsThematicMarker(ts[0].kind) ==>
      OldClassify(ts) == OldVerdict(if CurrentBlock.ThematicTail(ts, 0) then ThematicBreak else Paragraph, 0, 0)
  {}

  /** When the first token decides nothing (in particular a leading whitespace token of
      at most three characters, which is skipped), the second token decides the same
      way, and a line neither token decides for is a paragraph. */
  lemma OldClassifySecondToken(ts: seq<Token>)
    requires ts != [] && !(ts[0].kind == Whitespace && |ts[0].text| > 3)
    requires ts[0].kind == Whitespace || OldMarkerAt(ts, 0).None?
    ensures |ts| == 1 ==> OldClassify(ts) == OldVerdict(Paragraph, 0, 0)
    ensures |ts| > 1 && ts[1].kind == Hash && |ts[1].text| < 7 ==>
      OldClassify(ts) == OldVerdict(AtxHeading, |ts[1].text|, 0)
    ensures |ts| > 1 && CurrentBlock.IsFence(ts[1]) ==> OldClassify(ts).kind == FencedCode
    ensures |ts| > 1 && ts[1].kind == GreaterThan ==> OldClassify(ts).kind == Blockquote
    ensures |ts| > 1 && ts[1].kind == LessThan && FirstOpenFrom(ts, 0).Some? ==>
      OldClassify(ts) == OldVerdict(Html, 0, FirstOpenFrom(ts, 0).value)
    ensures |ts| > 1 && CurrentBlock.IsThematicMarker(ts[1].kind) ==>
      OldClassify(ts) == OldVerdict(if CurrentBlock.ThematicTail(ts, 1) then ThematicBreak else Paragraph, 0, 0)
    ensures |ts| > 1 && OldMarkerAt(ts, 1).None? ==> OldClassify(ts) == OldVerdict(Paragraph, 0, 0)
  {}

  /** Where the revisions agree: on lines whose first two tokens hold neither `<` nor
      `>`, the older decision is the current one (the current revision never
      recognises HTML or block quotes). */
  lemma RevisionsAgree(ts: seq<Token>)
    requires forall j :: 0 <= j < |ts| && j < 2 ==> ts[j].kind != LessThan && ts[j].kind != GreaterThan
    ensures OldClassify(ts).kind == CurrentBlock.Classify(ts).kind
    ensures OldClassify(ts).kind == AtxHeading ==> OldClassify(ts).level == CurrentBlock.Classify(ts).level
  {
    if ts != [] && ts[0].kind == Whitespace {
      assert CurrentBlock.MarkerAt(ts, 0).None?;
    }
  }

  /** `processBlock(block)`: a block that already has a type is left alone; otherwise it
      gets the decision's type, and the level or start condition that goes with it. */
  function Processed(v: OldBlockValue): OldBlockValue {
    if v.kind != Unknown then v
    else
      var c := OldClassify(v.tokens);
      v.(kind := c.kind,
         level := if c.kind == AtxHeading then Some(c.level) else v.level,
         condition := if c.kind == Html then Some(c.condition) else v.condition)
  }

  /** A block is classified at most once: processing gives a type, and processing again
      changes nothing. */
  lemma ProcessedOnce(v: OldBlockValue)
    ensures Processed(v).kind != Unknown
    ensures Processed(Processed(v)) == Processed(v)
    ensures v.kind != Unknown ==> Processed(v) == v
    ensures Processed(v).tokens == v.tokens && Processed(v).inline == v.inline
  {
    OldClassifySpec(v.tokens);
  }

  /** A block marked HTML has tokens, so `canExit` can always read its last token. */
  lemma ProcessedHtmlHasTokens(v: OldBlockValue)
    requires v.kind != Html
    ensures Processed(v).kind == Html ==> Processed(v).tokens != []
  {
    OldClassifySpec(v.tokens);
  }

  /** The start-condition loop of `processBlock`: tries the entries of
      `BLOCK_HTML_OPEN` in order and stops at the first that holds. */
  method FindHtmlOpen(ts: seq<Token>) returns (r: Option<nat>)
    ensures r == FirstOpenFrom(ts, 0)
  {
    for k := 0 to HtmlOpenCount
      invariant FirstOpenFrom(ts, 0) == FirstOpenFrom(ts, k)
    {
      if HtmlOpens(ts, k) {
        return Some(k);
      }
    }
    return None;
  }

  /** The block record, updated in place by `append` and `processBlock`. */
  class OldBlock {
    var tokens: seq<Token>
    var kind: BlockKind
    var level: Option<nat>
    var condition: Option<nat>
    var inline: bool

    function Value(): OldBlockValue
      reads this
    {
      OldBlockValue(tokens, kind, level, condition, inline)
    }

    constructor ()
      ensures Value() == OldEmpty
    {
      tokens := [];
      kind := Unknown;
      level := None;
      condition := None;
      inline := false;
    }

    method Append(t: Token)
      modifies this
      ensures Value() == OldAppended(old(Value()), t)
    {
      if IsInline(t.kind) {
        inline := true;
      }
      tokens := tokens + [t];
    }

    method ProcessBlock()
      modifies this
      ensures Value() == Processed(old(Value()))
    {
      if kind != Unknown {
        return;
      }
      if |tokens| == 0 {
        kind := BlankLine;
        return;
      }
      var i := 0;
      while i < |tokens|
        invariant 0 <= i <= |tokens|
        invariant Value() == old(Value())
        invariant i > 0 ==> !(tokens[0].kind == Whitespace && |tokens[0].text| > 3)
        invariant i > 0 && tokens[0].kind != Whitespace ==> OldMarkerAt(tokens, 0).None?
        invariant i > 1 ==> OldMarkerAt(tokens, 1).None?
      {
        var token := tokens[i];
        if i == 0 && token.kind == Whitespace {
          if |token.text| > 3 {
            kind := IndentedCode;
            return;
          }
          i := i + 1;
          continue;
        }
        if i == 0 || i == 1 {
          var found := CheckMarker(tokens, i);
          if found.Some? {
            SetVerdict(found.value);
            return;
          }
        }
        i := i + 1;
      }
      kind := Paragraph;
    }

    /** Stores a decision in the record's fields. */
    method SetVerdict(c: OldVerdict)
      modifies this
      ensures tokens == old(tokens) && inline == old(inline) && kind == c.kind
      ensures level == (if c.kind == AtxHeading then Some(c.level) else old(level))
      ensures condition == (if c.kind == Html then Some(c.condition) else old(condition))
    {
      kind := c.kind;
      if c.kind == AtxHeading {
        level := Some(c.level);
      }
      if c.kind == Html {
        condition := Some(c.condition);
      }
    }
  }

  /** The marker tests `processBlock` applies to token `i` (one of the first two). */
  method CheckMarker(ts: seq<Token>, i: nat) returns (r: Option<OldVerdict>)
    requires i < |ts|
    ensures r == OldMarkerAt(ts, i)
  {
    var token := ts[i];
    if token.kind == Dash || token.kind == Underline || token.kind == Asterisk {
      var onlyMarks := CurrentBlock.OnlyMarksFrom(ts, i);
      return Some(OldVerdict(if onlyMarks then ThematicBreak else Paragraph, 0, 0));
    }
    if token.kind == Hash && |token.text| < 7 {
      return Some(OldVerdict(AtxHeading, |token.text|, 0));
    }
    if |token.text| > 2 && (token.kind == Backtick || token.kind == Tilde) {
      return Some(OldVerdict(FencedCode, 0, 0));
    }
    if token.kind == LessThan {
      var open := FindHtmlOpen(ts);
      if open.Some? {
        return Some(OldVerdict(Html, 0, open.value));
      }
    }
    if token.kind == GreaterThan {
      return Some(OldVerdict(Blockquote, 0, 0));
    }
    return None;
  }
}
