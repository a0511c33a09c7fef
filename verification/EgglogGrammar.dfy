/**
 The reader against a grammar: which tokens a text has, said by position and
 without scanning, and which commands they form.  Both directions: the reader
 finds the tokens and commands of the grammar, and fails when there are none.
 */
module EgglogGrammar {
  import opened Prelude
  import opened EgglogText

  // ---- Tokens ----------------------------------------------------------------------------

  /** The inside of a quotation: no quote and no backslash, except a backslash with the character it takes. */
  predicate Body(s: string)
    decreases |s|
  {
    || s == []
    || (s[0] != '"' && s[0] != '\\' && Body(s[1..]))
    || (|s| >= 2 && s[0] == '\\' && s[1] != '\n' && Body(s[2..]))
  }

  predicate Quotation(s: string) {
    |s| >= 2 && s[0] == '"' && s[|s| - 1] == '"' && Body(s[1..|s| - 1])
  }

  /** Neither white space nor a parenthesis, semicolon or quote. */
  predicate Plain(c: char) { !IsSpace(c) && c != '(' && c != ')' && c != ';' && c != '"' }

  /** `s[i..j]` is a token where it stands: a parenthesis, a comment up to its line's end, a quotation, or a whole atom. */
  predicate TokenAt(s: string, i: nat, j: nat)
    requires i < j <= |s|
  {
    || (s[i] in {'(', ')'} && j == i + 1)
    || (s[i] == ';' && (forall k :: i <= k < j ==> s[k] != '\n') && (j == |s| || s[j] == '\n'))
    || Quotation(s[i..j])
    || ((forall k :: i <= k < j ==> Plain(s[k])) && (j == |s| || !Plain(s[j])))
  }

  predicate Covers(t: Token, i: nat) { t.start <= i < t.end }

  predicate Placed(s: string, p: nat, t: Token) {
    p <= t.start < t.end <= |s| && t.text == s[t.start..t.end] && TokenAt(s, t.start, t.end)
  }

  /** The tokens of `s` from position `p` on: in order, with nothing but white space outside them. */
  ghost predicate Tokenized(s: string, p: nat, ts: seq<Token>) {
    && (forall k :: 0 <= k < |ts| ==> Placed(s, p, ts[k]))
    && (forall j, k :: 0 <= j < k < |ts| ==> ts[j].end <= ts[k].start)
    && (forall i :: p <= i < |s| && (forall k :: 0 <= k < |ts| ==> !Covers(ts[k], i)) ==> IsSpace(s[i]))
  }

  lemma {:induction false} CommentIs(s: string, n: nat)
    requires n <= |s| && (forall k :: 0 <= k < n ==> s[k] != '\n') && (n == |s| || s[n] == '\n')
    ensures CommentLength(s) == n
  {
    if n > 0 { CommentIs(s[1..], n - 1); }
  }

  lemma {:induction false} CommentMeans(s: string)
    ensures var n := CommentLength(s); (forall k :: 0 <= k < n ==> s[k] != '\n') && (n == |s| || s[n] == '\n')
  {
    if s != [] && s[0] != '\n' { CommentMeans(s[1..]); }
  }

  lemma {:induction false} AtomIs(s: string, n: nat)
    requires n <= |s| && (forall k :: 0 <= k < n ==> Plain(s[k])) && (n == |s| || !Plain(s[n]))
    ensures AtomLength(s) == n
  {
    if n > 0 { AtomIs(s[1..], n - 1); }
  }

  lemma {:induction false} AtomMeans(s: string)
    ensures var n := AtomLength(s); (forall k :: 0 <= k < n ==> Plain(s[k])) && (n == |s| || !Plain(s[n]))
  {
    if s != [] && InAtom(s[0]) { AtomMeans(s[1..]); }
  }

  lemma {:induction false} QuotedIs(s: string, n: nat)
    requires n < |s| && Body(s[..n]) && s[n] == '"'
    ensures QuotedLength(s) == Some(n + 1)
    decreases n
  {
    if n > 0 {
      if s[0] == '\\' {
        assert s[2..][..n - 2] == s[..n][2..];
        QuotedIs(s[2..], n - 2);
      } else {
        assert s[1..][..n - 1] == s[..n][1..];
        QuotedIs(s[1..], n - 1);
      }
    }
  }

  lemma {:induction false} QuotedMeans(s: string)
    requires QuotedLength(s).Some?
    ensures var n := QuotedLength(s).value - 1; n < |s| && Body(s[..n]) && s[n] == '"'
  {
    var n := QuotedLength(s).value - 1;
    if s[0] == '"' {
    } else if s[0] == '\\' {
      QuotedMeans(s[2..]);
      assert s[2..][..n - 2] == s[..n][2..];
    } else {
      QuotedMeans(s[1..]);
      assert s[1..][..n - 1] == s[..n][1..];
    }
  }

  lemma {:induction false} Inside(s: string, i: nat, j: nat)
    requires i + 2 <= j <= |s|
    ensures s[i..j][1..j - i - 1] == s[i..][1..][..j - i - 2] && s[i..][1..][j - i - 2] == s[j - 1] == s[i..j][j - i - 1]
  {
    var a, b := s[i..j][1..j - i - 1], s[i..][1..][..j - i - 2];
    assert |a| == |b| == j - i - 2;
    forall k | 0 <= k < |a| ensures a[k] == b[k] { assert a[k] == s[i + 1 + k] == b[k]; }
  }

  /** The scanner's token is the grammar's. */
  lemma {:induction false} ScannedIs(s: string, i: nat)
    requires i < |s| && !IsSpace(s[i]) && TokenLength(s[i..]).Some?
    ensures var j := i + TokenLength(s[i..]).value; j <= |s| && TokenAt(s, i, j)
  {
    var r := s[i..];
    var j := i + TokenLength(r).value;
    if r[0] == ';' {
      CommentMeans(r[1..]);
      forall k | i < k < j ensures s[k] != '\n' { assert s[k] == r[1..][k - i - 1]; }
      if j < |s| { assert s[j] == r[1..][j - i - 1]; }
    } else if r[0] == '"' {
      QuotedMeans(r[1..]);
      var n := QuotedLength(r[1..]).value - 1;
      Inside(s, i, j);
    } else if r[0] != '(' && r[0] != ')' {
      AtomMeans(r);
      forall k | i <= k < j ensures Plain(s[k]) { assert s[k] == r[k - i]; }
      if j < |s| { assert s[j] == r[j - i]; }
      assert Plain(r[0]) && j > i;
    }
  }

  /** And the grammar's is the scanner's. */
  lemma {:induction false} IsScanned(s: string, i: nat, j: nat)
    requires i < j <= |s| && TokenAt(s, i, j)
    ensures !IsSpace(s[i]) && TokenLength(s[i..]) == Some(j - i)
  {
    var r, n := s[i..], j - i;
    assert r[0] == s[i];
    if r[0] == ';' {
      CommentScanned(s, i, j);
    } else if r[0] == '"' {
      QuotationScanned(s, i, j);
    } else if r[0] != '(' && r[0] != ')' {
      AtomScanned(s, i, j);
    }
  }

  lemma {:induction false} CommentScanned(s: string, i: nat, j: nat)
    requires i < j <= |s| && TokenAt(s, i, j) && s[i] == ';'
    ensures CommentLength(s[i..][1..]) == j - i - 1
  {
    var r := s[i..][1..];
    forall k | 0 <= k < j - i - 1 ensures r[k] != '\n' { assert r[k] == s[i + 1 + k]; }
    if j < |s| { assert r[j - i - 1] == s[j]; }
    CommentIs(r, j - i - 1);
  }

  lemma {:induction false} QuotationScanned(s: string, i: nat, j: nat)
    requires i < j <= |s| && TokenAt(s, i, j) && s[i] == '"'
    ensures QuotedLength(s[i..][1..]) == Some(j - i - 1)
  {
    var r, n := s[i..][1..], j - i - 2;
    assert Quotation(s[i..j]) by { assert !Plain(s[i]); }
    Inside(s, i, j);
    QuotedIs(r, n);
  }

  lemma {:induction false} AtomScanned(s: string, i: nat, j: nat)
    requires i < j <= |s| && TokenAt(s, i, j) && s[i] !in {';', '"', '(', ')'}
    ensures !IsSpace(s[i]) && AtomLength(s[i..]) == j - i
  {
    var r := s[i..];
    assert s[i..j][0] == s[i];
    assert Plain(s[i]);
    forall k | 0 <= k < j - i ensures Plain(r[k]) { assert r[k] == s[i + k]; }
    if j < |s| { assert r[j - i] == s[j]; }
    AtomIs(r, j - i);
  }

  lemma {:induction false} TailIs(s: string, p: nat, n: nat)
    requires p + n <= |s|
    ensures s[p..][n..] == s[p + n..]
  {
  }

  // ---- From the scanner to the grammar -----------------------------------------------------------

  lemma {:induction false} TokenizedSpace(s: string, p: nat, ts: seq<Token>)
    requires p < |s| && IsSpace(s[p])
    ensures Tokenized(s, p, ts) <==> Tokenized(s, p + 1, ts)
  {
    hide TokenAt;
    if Tokenized(s, p + 1, ts) {
      forall k | 0 <= k < |ts| ensures Placed(s, p, ts[k]) { assert Placed(s, p + 1, ts[k]); }
    }
    if Tokenized(s, p, ts) {
      forall k | 0 <= k < |ts| ensures Placed(s, p + 1, ts[k]) {
        assert Placed(s, p, ts[k]);
        IsScanned(s, ts[k].start, ts[k].end);
      }
    }
  }

  lemma {:induction false} TokenizedCons(s: string, p: nat, q: nat, ts: seq<Token>)
    requires p < q <= |s| && TokenAt(s, p, q) && Tokenized(s, q, ts)
    ensures Tokenized(s, p, [Token(s[p..q], p, q)] + ts)
  {
    hide TokenAt;
    var t := Token(s[p..q], p, q);
    var us := [t] + ts;
    forall k | 0 <= k < |us| ensures Placed(s, p, us[k]) {
      if k > 0 { assert us[k] == ts[k - 1] && Placed(s, q, ts[k - 1]); }
    }
    forall j, k | 0 <= j < k < |us| ensures us[j].end <= us[k].start {
      assert us[k] == ts[k - 1] && Placed(s, q, ts[k - 1]);
      if j > 0 { assert us[j] == ts[j - 1]; }
    }
    forall i | p <= i < |s| && (forall k :: 0 <= k < |us| ==> !Covers(us[k], i)) ensures IsSpace(s[i]) {
      assert !Covers(us[0], i);
      forall k | 0 <= k < |ts| ensures !Covers(ts[k], i) { assert !Covers(us[k + 1], i); }
    }
  }

  lemma {:induction false} LexIsTokenized(s: string, p: nat)
    requires p <= |s| && Lex(s[p..], p).Some?
    ensures Tokenized(s, p, Lex(s[p..], p).value)
    decreases |s| - p
  {
    hide Lex, TokenLength, Tokenized, IsSpace, TokenAt;
    if p == |s| {
      LexNothing(p);
      NoTokens(s);
    } else if IsSpace(s[p]) {
      LexSpace(s[p..], p);
      TailIs(s, p, 1);
      LexIsTokenized(s, p + 1);
      TokenizedSpace(s, p, Lex(s[p..], p).value);
    } else {
      LexHead(s[p..], p);
      var n := TokenLength(s[p..]).value;
      TailIs(s, p, n);
      ScannedIs(s, p);
      LexIsTokenized(s, p + n);
      assert s[p..][..n] == s[p..p + n];
      TokenizedCons(s, p, p + n, Lex(s[p + n..], p + n).value);
    }
  }

  lemma {:induction false} NoTokens(s: string)
    ensures Tokenized(s, |s|, [])
  {
  }

  // ---- And back -----------------------------------------------------------------------------------

  lemma {:induction false} NoneLeft(s: string, ts: seq<Token>)
    requires Tokenized(s, |s|, ts)
    ensures ts == []
  {
    assert ts != [] ==> Placed(s, |s|, ts[0]);
  }

  /** A position that is no white space is the start of the first token. */
  lemma {:induction false} FirstStarts(s: string, p: nat, ts: seq<Token>)
    requires p < |s| && !IsSpace(s[p]) && Tokenized(s, p, ts)
    ensures ts != [] && ts[0].start == p && Placed(s, p, ts[0])
  {
    hide TokenAt, IsSpace;
    var k :| 0 <= k < |ts| && Covers(ts[k], p);
    assert Placed(s, p, ts[k]) && Placed(s, p, ts[0]);
  }

  lemma {:induction false} TokenizedTail(s: string, p: nat, ts: seq<Token>)
    requires p < |s| && Tokenized(s, p, ts) && ts != [] && ts[0].start == p
    ensures p < ts[0].end <= |s| && TokenAt(s, p, ts[0].end) && ts[0] == Token(s[p..ts[0].end], p, ts[0].end)
    ensures Tokenized(s, ts[0].end, ts[1..])
  {
    hide TokenAt, IsSpace;
    assert Placed(s, p, ts[0]);
    var q, us := ts[0].end, ts[1..];
    forall k | 0 <= k < |us| ensures Placed(s, q, us[k]) { assert us[k] == ts[k + 1] && Placed(s, p, ts[k + 1]); }
    forall j, k | 0 <= j < k < |us| ensures us[j].end <= us[k].start { assert us[j] == ts[j + 1] && us[k] == ts[k + 1]; }
    forall i | q <= i < |s| && (forall k :: 0 <= k < |us| ==> !Covers(us[k], i)) ensures IsSpace(s[i]) {
      forall k | 0 <= k < |ts| ensures !Covers(ts[k], i) { if k > 0 { assert !Covers(us[k - 1], i); } }
    }
  }

  lemma {:induction false} TokenizedIsLex(s: string, p: nat, ts: seq<Token>)
    requires p <= |s| && Tokenized(s, p, ts)
    ensures Lex(s[p..], p) == Some(ts)
    decreases |s| - p
  {
    hide Lex, TokenLength, Tokenized, IsSpace, TokenAt;
    if p == |s| {
      NoneLeft(s, ts);
      LexNothing(p);
    } else if IsSpace(s[p]) {
      TokenizedSpace(s, p, ts);
      TokenizedIsLex(s, p + 1, ts);
      LexSpace(s[p..], p);
      TailIs(s, p, 1);
    } else {
      FirstStarts(s, p, ts);
      TokenizedTail(s, p, ts);
      var q := ts[0].end;
      IsScanned(s, p, q);
      TokenizedIsLex(s, q, ts[1..]);
      TailIs(s, p, q - p);
      assert s[p..][..q - p] == s[p..q];
      LexCons(s[p..], p, q - p, ts[1..]);
      assert ts == [ts[0]] + ts[1..];
    }
  }

  /** The reader finds tokens in a text if and only if they are the tokens of the grammar. */
  lemma {:induction false} LexIff(s: string, ts: seq<Token>)
    ensures Lex(s, 0) == Some(ts) <==> Tokenized(s, 0, ts)
  {
    hide Lex, Tokenized;
    assert s[0..] == s;
    if Lex(s, 0) == Some(ts) { LexIsTokenized(s, 0); }
    if Tokenized(s, 0, ts) { TokenizedIsLex(s, 0, ts); }
  }

  // ---- Commands -------------------------------------------------------------------------------------

  /** Parentheses opened and not closed by the first `j` tokens. */
  function Nest(c: seq<string>, j: nat): int
    requires j <= |c|
  {
    if j == 0 then 0 else Nest(c, j - 1) + if c[j - 1] == "(" then 1 else if c[j - 1] == ")" then -1 else 0
  }

  /** A command: at least three tokens, from a parenthesis that opens to the one that closes it. */
  predicate IsCommand(c: seq<string>) {
    |c| >= 3 && Nest(c, |c|) == 0 && forall j :: 0 < j < |c| ==> Nest(c, j) >= 1
  }

  function Words(ts: seq<Token>): seq<string> { seq(|ts|, i requires 0 <= i < |ts| => ts[i].text) }

  /** The tokens that are no comments. */
  function Code(ts: seq<Token>): seq<Token> {
    if ts == [] then [] else Code(ts[..|ts| - 1]) + if IsComment(ts[|ts| - 1]) then [] else [ts[|ts| - 1]]
  }

  function Joined(gs: seq<seq<Token>>): seq<Token> {
    if gs == [] then [] else Joined(gs[..|gs| - 1]) + gs[|gs| - 1]
  }

  predicate Grouped(gs: seq<seq<Token>>) { forall i :: 0 <= i < |gs| ==> IsCommand(Words(gs[i])) }

  /** The form of a group of tokens: from the start of its first to the end of its last. */
  function FormOf(g: seq<Token>): Form
    requires g != []
  {
    Form(g[0].start, g[|g| - 1].end, Words(g))
  }

  function FormsOf(gs: seq<seq<Token>>): seq<Form>
    requires Grouped(gs)
  {
    if gs == [] then []
    else
      assert IsCommand(Words(gs[|gs| - 1]));
      FormsOf(gs[..|gs| - 1]) + [FormOf(gs[|gs| - 1])]
  }

  lemma {:induction false} NestPrefix(c: seq<string>, x: string, j: nat)
    requires j <= |c|
    ensures Nest(c + [x], j) == Nest(c, j)
  {
    if j > 0 { NestPrefix(c, x, j - 1); }
  }

  lemma {:induction false} NestLast(c: seq<string>, x: string)
    ensures Nest(c + [x], |c| + 1) == Nest(c, |c|) + if x == "(" then 1 else if x == ")" then -1 else 0
  {
    NestPrefix(c, x, |c|);
  }

  lemma {:induction false} WordsSnoc(ts: seq<Token>, t: Token)
    ensures Words(ts + [t]) == Words(ts) + [t.text] && |Words(ts)| == |ts| && |Words(ts + [t])| == |ts| + 1
  {
  }

  // ---- From the reader to the commands -----------------------------------------------------------------

  /** The beginning of a command: its first parenthesis is not closed yet. */
  predicate IsOpen(c: seq<string>) { c != [] && forall j :: 0 < j <= |c| ==> Nest(c, j) >= 1 }

  lemma {:induction false} OpenSnoc(c: seq<string>, x: string)
    requires c == [] || IsOpen(c)
    ensures
      var n := Nest(c, |c|) + if x == "(" then 1 else if x == ")" then -1 else 0;
      && Nest(c + [x], |c| + 1) == n && (n >= 1 ==> IsOpen(c + [x])) && (n == 0 && |c| >= 2 ==> IsCommand(c + [x]))
  {
    NestLast(c, x);
    forall j | 0 < j <= |c| ensures Nest(c + [x], j) == Nest(c, j) { NestPrefix(c, x, j); }
  }

  /** What the reader holds are the forms of the groups so far and the open group. */
  ghost predicate Holds(r: Reader, gs: seq<seq<Token>>, open: seq<Token>) {
    && Grouped(gs) && r.forms == FormsOf(gs)
    && (r.depth == 0 ==> open == [] && r.start == 0 && r.tokens == [])
    && (r.depth > 0 ==> IsOpen(Words(open)) && r.tokens == Words(open) && r.start == open[0].start && r.depth == Nest(Words(open), |open|))
  }

  lemma {:induction false} GroupsSnoc(gs: seq<seq<Token>>, g: seq<Token>)
    requires Grouped(gs) && IsCommand(Words(g))
    ensures Grouped(gs + [g]) && FormsOf(gs + [g]) == FormsOf(gs) + [FormOf(g)] && Joined(gs + [g]) == Joined(gs) + g
  {
    assert (gs + [g])[..|gs|] == gs;
  }

  lemma {:induction false} HoldsStep(r: Reader, t: Token, gs: seq<seq<Token>>, open: seq<Token>)
      returns (hs: seq<seq<Token>>, more: seq<Token>)
    requires Holds(r, gs, open) && Feed(r, t).Some?
    ensures Holds(Feed(r, t).value, hs, more)
    ensures Joined(hs) + more == Joined(gs) + open + if IsComment(t) then [] else [t]
  {
    hide Nest, IsCommand, FormsOf, Joined, IsOpen, Words;
    hs, more := gs, open;
    if IsComment(t) {
      assert Joined(gs) + open + [] == Joined(gs) + open;
    } else {
      WordsSnoc(open, t);
      NothingNests();
      OpenStart(Words(open));
      OpenSnoc(Words(open), t.text);
      assert r.depth == 0 ==> Words(open) == [] && [] + [t.text] == [t.text];
      if Feed(r, t).value.depth == 0 {
        assert Words(open + [t]) == r.tokens + [")"];
        GroupsSnoc(gs, open + [t]);
        hs, more := gs + [open + [t]], [];
      } else {
        more := open + [t];
      }
    }
  }

  lemma {:induction false} NothingNests()
    ensures Nest([], 0) == 0 && Words([]) == []
  {
  }

  lemma {:induction false} OpenStart(c: seq<string>)
    ensures IsOpen(c) ==> c != []
  {
  }

  /** Everything the reader was fed, in groups. */
  lemma {:induction false} Groups(ts: seq<Token>) returns (gs: seq<seq<Token>>, open: seq<Token>)
    requires FeedAll(FRESH, ts).Some?
    ensures Holds(FeedAll(FRESH, ts).value, gs, open) && Code(ts) == Joined(gs) + open
  {
    hide Holds, Feed;
    gs, open := [], [];
    if ts == [] {
      HoldsNothing();
    } else {
      var n := |ts| - 1;
      gs, open := Groups(ts[..n]);
      gs, open := HoldsStep(FeedAll(FRESH, ts[..n]).value, ts[n], gs, open);
    }
  }

  lemma {:induction false} HoldsNothing()
    ensures Holds(FRESH, [], [])
  {
  }

  // ---- And back ------------------------------------------------------------------------------------------

  lemma {:induction false} FeedCode(r: Reader, ts: seq<Token>)
    ensures FeedAll(r, ts) == FeedAll(r, Code(ts))
  {
    hide Feed;
    if ts != [] {
      var n := |ts| - 1;
      FeedCode(r, ts[..n]);
      if IsComment(ts[n]) {
        SkipComment(ts[n]);
        assert Code(ts[..n]) + [] == Code(ts[..n]);
      } else {
        assert Code(ts)[..|Code(ts)| - 1] == Code(ts[..n]);
      }
    }
  }

  lemma {:induction false} SkipComment(t: Token)
    requires IsComment(t)
    ensures forall r :: Feed(r, t) == Some(r)
  {
  }

  predicate NoComments(ts: seq<Token>) { forall i :: 0 <= i < |ts| ==> !IsComment(ts[i]) }

  lemma {:induction false} CodeHasNone(ts: seq<Token>)
    ensures NoComments(Code(ts))
  {
    if ts != [] { CodeHasNone(ts[..|ts| - 1]); }
  }

  function During(fs: seq<Form>, g: seq<Token>, j: nat): Reader
    requires 0 < j <= |g| && Nest(Words(g), j) >= 0
  {
    Reader(Nest(Words(g), j), g[0].start, Words(g[..j]), fs)
  }

  lemma {:induction false} FeedToken(fs: seq<Form>, g: seq<Token>, j: nat)
    requires IsCommand(Words(g)) && NoComments(g) && 0 < j < |g| - 1
    ensures Feed(During(fs, g, j), g[j]) == Some(During(fs, g, j + 1))
  {
    assert Words(g)[j] == g[j].text;
    assert Nest(Words(g), j + 1) >= 1 && Nest(Words(g), j) >= 1;
    assert Words(g[..j + 1]) == Words(g[..j]) + [g[j].text];
  }

  lemma {:induction false} FeedFirst(fs: seq<Form>, g: seq<Token>)
    requires IsCommand(Words(g)) && NoComments(g)
    ensures Nest(Words(g), 1) >= 1 && Feed(Reader(0, 0, [], fs), g[0]) == Some(During(fs, g, 1))
  {
    assert Nest(Words(g), 1) >= 1 && Nest(Words(g), 0) == 0;
    assert Words(g)[0] == g[0].text;
    assert Words(g[..1]) == [g[0].text];
  }

  lemma {:induction false} FeedFinal(fs: seq<Form>, g: seq<Token>)
    requires IsCommand(Words(g)) && NoComments(g)
    ensures Nest(Words(g), |g| - 1) >= 1 && Feed(During(fs, g, |g| - 1), g[|g| - 1]) == Some(Reader(0, 0, [], fs + [FormOf(g)]))
  {
    var n := |g| - 1;
    assert Nest(Words(g), n) >= 1 && Nest(Words(g), n + 1) == 0;
    assert Words(g)[n] == g[n].text;
    assert Words(g) == Words(g[..n]) + [g[n].text];
  }

  lemma {:induction false} FeedRun(fs: seq<Form>, g: seq<Token>, j: nat)
    requires IsCommand(Words(g)) && NoComments(g) && 0 < j < |g|
    ensures Nest(Words(g), j) >= 1 && FeedAll(Reader(0, 0, [], fs), g[..j]) == Some(During(fs, g, j))
  {
    hide Feed, Nest;
    var r := Reader(0, 0, [], fs);
    assert g[..j][..j - 1] == g[..j - 1] && g[..j][j - 1] == g[j - 1];
    if j == 1 {
      FeedFirst(fs, g);
      assert FeedAll(r, g[..0]) == Some(r) by { assert g[..0] == []; }
    } else {
      FeedRun(fs, g, j - 1);
      FeedToken(fs, g, j - 1);
    }
  }

  lemma {:induction false} FeedGroup(fs: seq<Form>, g: seq<Token>)
    requires IsCommand(Words(g)) && NoComments(g)
    ensures FeedAll(Reader(0, 0, [], fs), g) == Some(Reader(0, 0, [], fs + [FormOf(g)]))
  {
    hide Feed, Nest, During;
    FeedRun(fs, g, |g| - 1);
    FeedFinal(fs, g);
  }

  lemma {:induction false} FeedGroups(gs: seq<seq<Token>>)
    requires Grouped(gs) && NoComments(Joined(gs))
    ensures FeedAll(FRESH, Joined(gs)) == Some(Reader(0, 0, [], FormsOf(gs)))
  {
    hide Feed, IsCommand, FeedAll;
    if gs == [] {
      FeedNothing();
    } else {
      var n := |gs| - 1;
      var before, g := Joined(gs[..n]), gs[n];
      assert Joined(gs) == before + g;
      forall i | 0 <= i < |before| ensures !IsComment(before[i]) { assert Joined(gs)[i] == before[i]; }
      forall i | 0 <= i < |g| ensures !IsComment(g[i]) { assert Joined(gs)[|before| + i] == g[i]; }
      FeedGroups(gs[..n]);
      FeedAppend(FRESH, before, g);
      FeedGroup(FormsOf(gs[..n]), g);
    }
  }

  lemma {:induction false} FeedNothing()
    ensures FeedAll(FRESH, []) == Some(FRESH)
  {
  }

  // ---- The reader and the grammar ------------------------------------------------------------------------

  /** `gs` are the commands of a text, as groups of its tokens. */
  ghost predicate Parsed(s: string, ts: seq<Token>, gs: seq<seq<Token>>) {
    Tokenized(s, 0, ts) && Grouped(gs) && Joined(gs) == Code(ts)
  }

  /** Whatever the grammar makes of a text, the reader returns, with the offsets of its commands. */
  lemma {:induction false} ParsedIsRead(s: string, ts: seq<Token>, gs: seq<seq<Token>>)
    requires Parsed(s, ts, gs)
    ensures Forms(s) == Some(FormsOf(gs))
  {
    hide Lex, Tokenized, FeedAll, FormsOf, Code;
    LexIff(s, ts);
    FeedCode(FRESH, ts);
    CodeHasNone(ts);
    FeedGroups(gs);
  }

  /** Whatever the reader returns, the grammar makes of the text. */
  lemma {:induction false} ReadIsParsed(s: string) returns (ts: seq<Token>, gs: seq<seq<Token>>)
    requires Forms(s).Some?
    ensures Parsed(s, ts, gs) && Forms(s).value == FormsOf(gs)
  {
    hide Lex, Tokenized, FeedAll, Code, FormsOf;
    ts := Lex(s, 0).value;
    LexIff(s, ts);
    var open;
    gs, open := Groups(ts);
    assert Joined(gs) + [] == Joined(gs);
  }

  /** The reader succeeds exactly on the texts of the grammar, and returns their commands with their offsets. */
  lemma {:induction false} FormsIff(s: string, fs: seq<Form>)
    ensures Forms(s) == Some(fs) <==> exists ts, gs :: Parsed(s, ts, gs) && fs == FormsOf(gs)
  {
    hide Forms, FormsOf, Tokenized, Code, Joined, Grouped;
    if Forms(s) == Some(fs) {
      var ts, gs := ReadIsParsed(s);
      ParsedGrouped(s, ts, gs);
    }
    if ts, gs :| Parsed(s, ts, gs) && fs == FormsOf(gs) { ParsedIsRead(s, ts, gs); }
  }

  lemma {:induction false} ParsedGrouped(s: string, ts: seq<Token>, gs: seq<seq<Token>>)
    requires Parsed(s, ts, gs)
    ensures Grouped(gs)
  {
  }
}
