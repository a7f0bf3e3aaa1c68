/** Token kinds and the character-level tokenizer shared by both revisions of the
    block pipeline: every character gets a kind from a fixed table (the character
    after a backslash is forced to literal), and maximal runs of equal kinds form
    the tokens. */
module Lexer {

  /** One constructor per token-kind predicate of the source, plus `Initial`, the
      fresh sentinel the tokenizer starts from (it is distinct from every kind the
      table can produce). `Exclamation` exists only in the older revision's table. */
  datatype Kind =
    | Asterisk | Underline | Backslash | Exclamation | Dash | Equals | Tilde | Pipe
    | Colon | Backtick | Hash | GreaterThan | LessThan | OpenBrace | CloseBrace
    | Whitespace | LineEnding | Any
    | Initial

  /** A token: a non-empty slice of the input together with its kind. */
  datatype Token = Token(text: string, kind: Kind)

  /** The whitespace predicate's character class: space, tab, form feed, vertical tab. */
  predicate IsWhitespaceChar(c: char) {
    c == ' ' || c == '\t' || c == '\U{0C}' || c == '\U{0B}'
  }

  /** The line-ending predicate's character class: carriage return and line feed. */
  predicate IsLineEndingChar(c: char) {
    c == '\r' || c == '\n'
  }

  /** The kinds that mark a block as holding inline syntax. */
  predicate IsInline(k: Kind) {
    k == Asterisk || k == Underline || k == Tilde || k == Backtick || k == OpenBrace || k == Backslash
  }

  /** A table never hands out the sentinel. */
  ghost predicate ProperTable(table: char -> Kind) {
    forall c :: table(c) != Initial
  }

  /** The kind the tokenizer gives character `c` when the previous character had kind
      `prev`: the table's kind, except that after a backslash every character is literal. */
  function NextKind(table: char -> Kind, prev: Kind, c: char): (k: Kind)
    ensures prev == Backslash ==> k == Any
    ensures prev != Backslash ==> k == table(c)
  {
    if prev == Backslash then Any else table(c)
  }

  /** The kind of every character of `s`, left to right. */
  function KindsOf(table: char -> Kind, s: string): (ks: seq<Kind>)
    ensures |ks| == |s|
  {
    if s == [] then []
    else
      var prior := KindsOf(table, s[..|s| - 1]);
      prior + [NextKind(table, if prior == [] then Initial else prior[|prior| - 1], s[|s| - 1])]
  }

  /** Kinds of a prefix are the prefix of the kinds. */
  lemma {:induction false} KindsOfPrefix(table: char -> Kind, s: string, i: nat)
    requires i <= |s|
    ensures KindsOf(table, s[..i]) == KindsOf(table, s)[..i]
    decreases |s|
  {
    if i < |s| {
      assert s[..|s| - 1][..i] == s[..i];
      KindsOfPrefix(table, s[..|s| - 1], i);
    } else {
      assert s[..i] == s;
    }
  }

  /** The kind of character `i` depends only on the character and on the kind before it. */
  lemma KindsOfAt(table: char -> Kind, s: string, i: nat)
    requires i < |s|
    ensures KindsOf(table, s)[i]
         == NextKind(table, if i == 0 then Initial else KindsOf(table, s)[i - 1], s[i])
  {
    var t := s[..i + 1];
    KindsOfPrefix(table, s, i + 1);
    KindsOfPrefix(table, s, i);
    PrefixSlices(s, i, i + 1);
    KindsOfLast(table, t);
  }

  /** The definition of `KindsOf`, read at its last character. */
  lemma KindsOfLast(table: char -> Kind, t: string)
    requires t != []
    ensures var prior := KindsOf(table, t[..|t| - 1]);
      KindsOf(table, t)[|t| - 1]
      == NextKind(table, if |t| == 1 then Initial else prior[|t| - 2], t[|t| - 1])
  {}

  /** After a backslash comes a literal. */
  ghost predicate EscapeClosed(ks: seq<Kind>) {
    forall j :: 0 <= j < |ks| - 1 && ks[j] == Backslash ==> ks[j + 1] == Any
  }

  lemma KindsOfEscapeClosed(table: char -> Kind, s: string)
    ensures EscapeClosed(KindsOf(table, s))
  {
    forall j | 0 <= j < |s| - 1 && KindsOf(table, s)[j] == Backslash
      ensures KindsOf(table, s)[j + 1] == Any
    {
      KindsOfAt(table, s, j + 1);
    }
  }

  lemma KindsOfProper(table: char -> Kind, s: string)
    requires ProperTable(table)
    ensures Initial !in KindsOf(table, s)
  {
    forall j | 0 <= j < |s| ensures KindsOf(table, s)[j] != Initial {
      KindsOfAt(table, s, j);
    }
  }

  /** `p` starts a run of `ks` that extends at least to `i`. */
  ghost predicate OpenRun(ks: seq<Kind>, p: nat, i: nat) {
    p < i <= |ks| && (p == 0 || ks[p - 1] != ks[p]) && forall j :: p <= j < i ==> ks[j] == ks[p]
  }

  /** A kind that differs from its predecessor opens a run. */
  lemma OpenRunStart(ks: seq<Kind>, i: nat, n: nat)
    requires 0 < i && n == i + 1 <= |ks| && ks[i - 1] != ks[i]
    ensures OpenRun(ks, i, n)
  {}

  /** A kind equal to the run's kind extends the run. */
  lemma OpenRunExtend(ks: seq<Kind>, p: nat, i: nat)
    requires OpenRun(ks, p, i) && i < |ks| && ks[i] == ks[p]
    ensures OpenRun(ks, p, i + 1)
  {}

  /** Where the last run of equal kinds of `ks` starts. */
  function LastRunStart(ks: seq<Kind>): (p: nat)
    requires ks != []
    ensures p < |ks| && (p == 0 || ks[p - 1] != ks[p])
    ensures forall j :: p <= j < |ks| ==> ks[j] == ks[p]
  {
    if |ks| == 1 || ks[|ks| - 2] != ks[|ks| - 1] then |ks| - 1
    else LastRunStart(ks[..|ks| - 1])
  }

  /** The last run has only one possible start. */
  lemma LastRunUnique(ks: seq<Kind>, p: nat)
    requires OpenRun(ks, p, |ks|)
    ensures LastRunStart(ks) == p
  {
  }

  /** The maximal runs of `s` whose characters have equal kinds in `ks`, each as a token. */
  function Group(s: string, ks: seq<Kind>): seq<Token>
    requires |s| == |ks|
    decreases |s|
  {
    if s == [] then []
    else
      var p := LastRunStart(ks);
      Group(s[..p], ks[..p]) + [Token(s[p..], ks[p])]
  }

  /** The tokens of `s`: its maximal same-kind runs. */
  function Runs(table: char -> Kind, s: string): seq<Token> {
    Group(s, KindsOf(table, s))
  }

  /** The texts of a token sequence, concatenated. */
  function Concat(ts: seq<Token>): string {
    if ts == [] then [] else Concat(ts[..|ts| - 1]) + ts[|ts| - 1].text
  }

  lemma {:induction false} ConcatAppend(a: seq<Token>, b: seq<Token>)
    ensures Concat(a + b) == Concat(a) + Concat(b)
    decreases |b|
  {
    if b == [] {
      assert a + b == a;
    } else {
      assert (a + b)[..|a + b| - 1] == a + b[..|b| - 1];
      ConcatAppend(a, b[..|b| - 1]);
    }
  }

  lemma ConcatSnoc(ts: seq<Token>, t: Token)
    ensures Concat(ts + [t]) == Concat(ts) + t.text
  {
    assert (ts + [t])[..|ts|] == ts;
  }

  /** A grouping ends with its last run. */
  lemma GroupLast(s: string, ks: seq<Kind>, p: nat)
    requires |s| == |ks| && OpenRun(ks, p, |s|)
    ensures Group(s, ks) == Group(s[..p], ks[..p]) + [Token(s[p..], ks[p])]
  {
    LastRunUnique(ks, p);
  }

  /** The tokens of `s` are the tokens before its last run, followed by that run. */
  lemma RunsLast(table: char -> Kind, s: string, p: nat)
    requires OpenRun(KindsOf(table, s), p, |s|)
    ensures Runs(table, s) == Runs(table, s[..p]) + [Token(s[p..], KindsOf(table, s)[p])]
  {
    GroupLast(s, KindsOf(table, s), p);
    KindsOfPrefix(table, s, p);
  }

  /** The tokens of a prefix that ends inside a run are the tokens before that run,
      followed by the run's part inside the prefix. This is what the tokenizer's
      flush of `input.slice(p, i)` at each change of kind relies on. */
  lemma RunsExtend(table: char -> Kind, s: string, p: nat, i: nat)
    requires i <= |s| && OpenRun(KindsOf(table, s), p, i)
    ensures Runs(table, s[..i]) == Runs(table, s[..p]) + [Token(s[p..i], KindsOf(table, s)[p])]
  {
    var ks := KindsOf(table, s);
    KindsOfPrefix(table, s, i);
    KindsOfPrefix(table, s, p);
    OpenRunPrefix(ks, p, i);
    GroupLast(s[..i], ks[..i], p);
    PrefixSlices(s, p, i);
    PrefixSlices(ks, p, i);
  }

  lemma OpenRunPrefix(ks: seq<Kind>, p: nat, i: nat)
    requires OpenRun(ks, p, i)
    ensures OpenRun(ks[..i], p, i) && ks[..i][p] == ks[p]
  {}

  lemma PrefixSlices<T>(s: seq<T>, p: nat, i: nat)
    requires p <= i <= |s|
    ensures s[..i][..p] == s[..p] && s[..i][p..] == s[p..i] && |s[..i]| == i
  {}

  /** Grouping loses no character. */
  lemma {:induction false} GroupLossless(s: string, ks: seq<Kind>)
    requires |s| == |ks|
    ensures Concat(Group(s, ks)) == s
    decreases |s|
  {
    if s != [] {
      var p := LastRunStart(ks);
      var t := Token(s[p..], ks[p]);
      calc {
        Concat(Group(s, ks));
        Concat(Group(s[..p], ks[..p]) + [t]);
        { ConcatSnoc(Group(s[..p], ks[..p]), t); }
        Concat(Group(s[..p], ks[..p])) + s[p..];
        { GroupLossless(s[..p], ks[..p]); }
        s[..p] + s[p..];
        { Rejoin(s, p); }
        s;
      }
    }
  }

  /** Every run is non-empty and has a kind of `ks`, neighbours differ in kind, and
      the last run has the last kind. */
  lemma {:induction false} GroupShape(s: string, ks: seq<Kind>)
    requires |s| == |ks|
    ensures var ts := Group(s, ks);
      && (forall j :: 0 <= j < |ts| ==> ts[j].text != [] && ts[j].kind in ks)
      && (forall j :: 0 < j < |ts| ==> ts[j - 1].kind != ts[j].kind)
      && (ts != [] ==> ts[|ts| - 1].kind == ks[|ks| - 1])
    decreases |s|
  {
    if s != [] {
      var p := LastRunStart(ks);
      var ts := Group(s, ks);
      var rest := Group(s[..p], ks[..p]);
      GroupShape(s[..p], ks[..p]);
      assert ts == rest + [Token(s[p..], ks[p])];
      PrefixMembers(ks, p);
      if rest != [] {
        assert rest[|rest| - 1].kind == ks[p - 1];
      }
    }
  }

  /** In a kind sequence where a backslash is always followed by a literal, every
      backslash run is a single character. */
  lemma {:induction false} GroupBackslash(s: string, ks: seq<Kind>)
    requires |s| == |ks| && EscapeClosed(ks)
    ensures var ts := Group(s, ks);
      forall j :: 0 <= j < |ts| && ts[j].kind == Backslash ==> |ts[j].text| == 1
    decreases |s|
  {
    if s != [] {
      var p := LastRunStart(ks);
      PrefixEscapeClosed(ks, p);
      GroupBackslash(s[..p], ks[..p]);
      assert p + 1 < |ks| ==> ks[p + 1] == ks[p];
      assert Group(s, ks) == Group(s[..p], ks[..p]) + [Token(s[p..], ks[p])];
    }
  }

  lemma Rejoin<T>(s: seq<T>, n: nat)
    requires n <= |s|
    ensures s[..n] + s[n..] == s
  {}

  lemma PrefixMembers<T>(s: seq<T>, n: nat)
    requires n <= |s|
    ensures forall x :: x in s[..n] ==> x in s
  {}

  lemma PrefixEscapeClosed(ks: seq<Kind>, n: nat)
    requires n <= |ks| && EscapeClosed(ks)
    ensures EscapeClosed(ks[..n])
  {
    forall j | 0 <= j < |ks[..n]| - 1 && ks[..n][j] == Backslash
      ensures ks[..n][j + 1] == Any
    {
      assert ks[j] == Backslash;
    }
  }

  /** The tokenizer's runs put back together give the input, each is non-empty,
      neighbours never share a kind, no token carries the sentinel kind and every
      backslash token is exactly one character long. */
  /** The kind of every character of `ts`, each token's kind repeated over its text. */
  function SpreadKinds(ts: seq<Token>): (ks: seq<Kind>)
    ensures |ks| == |Concat(ts)|
  {
    if ts == [] then []
    else SpreadKinds(ts[..|ts| - 1]) + seq(|ts[|ts| - 1].text|, _ => ts[|ts| - 1].kind)
  }

  /** Every run is uniform: each character inside a run has the run's kind. */
  lemma {:induction false} GroupUniform(s: string, ks: seq<Kind>)
    requires |s| == |ks|
    ensures SpreadKinds(Group(s, ks)) == ks
    decreases |s|
  {
    if s != [] {
      var p := LastRunStart(ks);
      var front := Group(s[..p], ks[..p]);
      GroupUniform(s[..p], ks[..p]);
      assert (front + [Token(s[p..], ks[p])])[..|front|] == front;
      assert ks == ks[..p] + ks[p..];
    }
  }

  /** The runs of a string, read character by character, give back its kinds. */
  lemma RunsUniform(table: char -> Kind, s: string)
    ensures SpreadKinds(Runs(table, s)) == KindsOf(table, s)
  {
    GroupUniform(s, KindsOf(table, s));
  }

  lemma RunsWellFormed(table: char -> Kind, s: string)
    requires ProperTable(table)
    ensures var ts := Runs(table, s);
      && Concat(ts) == s
      && (forall j :: 0 <= j < |ts| ==> ts[j].text != [] && ts[j].kind != Initial)
      && (forall j :: 0 < j < |ts| ==> ts[j - 1].kind != ts[j].kind)
      && (forall j :: 0 <= j < |ts| && ts[j].kind == Backslash ==> |ts[j].text| == 1)
  {
    var ks := KindsOf(table, s);
    var ts := Runs(table, s);
    GroupLossless(s, ks);
    GroupShape(s, ks);
    KindsOfProper(table, s);
    forall j | 0 <= j < |ts| ensures ts[j].kind != Initial {
      assert ts[j].kind in ks;
    }
    KindsOfEscapeClosed(table, s);
    GroupBackslash(s, ks);
  }
}
