/** The part of the tokenizer loop both revisions share: `p`, `prevTokenType` and the
    tokens flushed so far, and how they follow the maximal runs of the input. Only the
    character table differs between the revisions. */
module RunScan {
  import opened Lexer
  import opened Text

  /** After the first `n` characters, `p` starts the run in progress, `prev` is its
      kind, and the tokens flushed so far are exactly the runs before it; before the
      first character `p` is -1 and `prev` the sentinel. */
  ghost predicate RunsUpTo(table: char -> Kind, input: string, n: nat, p: int, prev: Kind, toks: seq<Token>)
    requires n <= |input|
  {
    var ks := KindsOf(table, input);
    if n == 0 then p == -1 && prev == Initial && toks == []
    else
      && 0 <= p && OpenRun(ks, p, n) && prev == ks[p]
      && toks == Runs(table, input[..p])
  }

  /** The tokens after the kind changes at `i`: `input.slice(p, i)` is flushed with kind
      `prev` unless it is empty. */
  function Flushed(input: string, p: int, i: nat, prev: Kind, toks: seq<Token>): seq<Token> {
    var chunk := JsSlice(input, p, i);
    if chunk != [] then toks + [Token(chunk, prev)] else toks
  }

  /** Tokens flushed after others stay after them. */
  lemma FlushedAfter(input: string, p: int, i: nat, prev: Kind, before: seq<Token>, toks: seq<Token>)
    ensures before + Flushed(input, p, i, prev, toks) == Flushed(input, p, i, prev, before + toks)
  {
    if JsSlice(input, p, i) != [] {
      assert before + (toks + [Token(JsSlice(input, p, i), prev)])
          == (before + toks) + [Token(JsSlice(input, p, i), prev)];
    }
  }

  /** One iteration keeps the description: a character of the run's kind changes
      nothing, any other kind flushes the run and opens a new one at `n - 1`. */
  lemma RunsAdvance(table: char -> Kind, input: string, n: nat, p: int, prev: Kind, toks: seq<Token>)
    requires ProperTable(table)
    requires 0 < n <= |input| && RunsUpTo(table, input, n - 1, p, prev, toks)
    ensures NextKind(table, prev, input[n - 1]) == prev ==> RunsUpTo(table, input, n, p, prev, toks)
    ensures NextKind(table, prev, input[n - 1]) != prev ==>
      RunsUpTo(table, input, n, n - 1, NextKind(table, prev, input[n - 1]), Flushed(input, p, n - 1, prev, toks))
  {
    hide RunsUpTo;
    if n == 1 {
      RunsOpen(table, input, p, prev, toks);
    } else if NextKind(table, prev, input[n - 1]) == prev {
      RunsKeep(table, input, n, p, prev, toks);
    } else {
      RunsClose(table, input, n, p, prev, toks);
    }
  }

  lemma RunsOpen(table: char -> Kind, input: string, p: int, prev: Kind, toks: seq<Token>)
    requires ProperTable(table)
    requires 0 < |input| && RunsUpTo(table, input, 0, p, prev, toks)
    ensures NextKind(table, prev, input[0]) != prev
    ensures RunsUpTo(table, input, 1, 0, NextKind(table, prev, input[0]), Flushed(input, p, 0, prev, toks))
  {
    KindsOfAt(table, input, 0);
    assert JsSlice(input, p, 0) == [];
    assert input[..0] == [];
  }

  lemma RunsKeep(table: char -> Kind, input: string, n: nat, p: int, prev: Kind, toks: seq<Token>)
    requires 1 < n <= |input| && RunsUpTo(table, input, n - 1, p, prev, toks)
    requires NextKind(table, prev, input[n - 1]) == prev
    ensures RunsUpTo(table, input, n, p, prev, toks)
  {
    KindsOfAt(table, input, n - 1);
    OpenRunExtend(KindsOf(table, input), p, n - 1);
  }

  lemma RunsClose(table: char -> Kind, input: string, n: nat, p: int, prev: Kind, toks: seq<Token>)
    requires 1 < n <= |input| && RunsUpTo(table, input, n - 1, p, prev, toks)
    requires NextKind(table, prev, input[n - 1]) != prev
    ensures RunsUpTo(table, input, n, n - 1, NextKind(table, prev, input[n - 1]), Flushed(input, p, n - 1, prev, toks))
  {
    var i := n - 1;
    var ks := KindsOf(table, input);
    KindsOfAt(table, input, i);
    assert ks[i - 1] == ks[p];
    RunsExtend(table, input, p, i);
    assert JsSlice(input, p, i) == input[p..i];
    OpenRunStart(ks, i, n);
  }

  /** After the first character, the run in progress is a non-empty slice. */
  lemma RunsChunk(table: char -> Kind, input: string, n: nat, p: int, prev: Kind, toks: seq<Token>)
    requires 0 < n <= |input| && RunsUpTo(table, input, n, p, prev, toks)
    ensures 0 <= p < n && JsSlice(input, p, n) == input[p..n] != []
  {}

  /** At the end of the input, the flushed tokens are the runs minus at least the last
      one (the run in progress is never flushed), whatever tokens the open block holds. */
  lemma RunsFinal(table: char -> Kind, input: string, p: int, prev: Kind, toks: seq<Token>, open: seq<Token>)
    requires RunsUpTo(table, input, |input|, p, prev, toks + open)
    ensures toks <= Runs(table, input)
    ensures input != [] ==> |toks| < |Runs(table, input)|
  {
    var rs := Runs(table, input);
    if input != [] {
      RunsLast(table, input, p);
      assert rs == toks + (open + [Token(input[p..], KindsOf(table, input)[p])]);
      assert rs[..|toks|] == toks;
    } else {
      assert toks == [];
    }
  }

  /** A prefix of the runs inherits their shape: its text is a prefix of the input, its
      tokens are non-empty, neighbours differ in kind and a backslash stands alone. */
  lemma RunsPrefixWellFormed(table: char -> Kind, input: string, toks: seq<Token>)
    requires ProperTable(table) && toks <= Runs(table, input)
    ensures Concat(toks) <= input
    ensures forall j :: 0 <= j < |toks| ==> toks[j].text != [] && toks[j].kind != Initial
    ensures forall j :: 0 < j < |toks| ==> toks[j - 1].kind != toks[j].kind
    ensures forall j :: 0 <= j < |toks| && toks[j].kind == Backslash ==> |toks[j].text| == 1
  {
    var rs := Runs(table, input);
    RunsWellFormed(table, input);
    assert rs == toks + rs[|toks|..];
    ConcatAppend(toks, rs[|toks|..]);
    assert forall j :: 0 <= j < |toks| ==> toks[j] == rs[j];
  }

  lemma PrefixTrans<T>(a: seq<T>, b: seq<T>, c: seq<T>)
    requires a <= b && b <= c
    ensures a <= c
  {
    assert c[..|a|] == b[..|a|];
  }
}
