/**
 Egglog source text: the tokens of the reader's pattern with their offsets, and
 the balanced top-level forms.  The two facts every text edit rests on are that
 reading a concatenation is reading its parts (`ConcatForms`) and that a text
 may be cut before or after any of its forms (`CutAfter`, `CutBefore`).
 */
module EgglogText {
  import opened Prelude

  datatype Token = Token(text: string, start: nat, end: nat)

  /** White space as the reader's pattern and `strip` see it. */
  predicate IsSpace(c: char) {
    var n := c as int;
    9 <= n <= 13 || 28 <= n <= 32 || n in {133, 160, 5760, 8232, 8233, 8239, 8287, 12288} || 8192 <= n <= 8202
  }

  predicate IsDelimiter(c: char) {
    c in {'(', ')', ';', '"'}
  }

  predicate InAtom(c: char) {
    !IsSpace(c) && !IsDelimiter(c)
  }

  // ---- One token -----------------------------------------------------------------

  /** A comment runs up to the end of its line. */
  function CommentLength(s: string): (n: nat)
    ensures n <= |s|
  {
    if s == [] || s[0] == '\n' then 0 else 1 + CommentLength(s[1..])
  }

  function AtomLength(s: string): (n: nat)
    ensures n <= |s|
  {
    if s == [] || !InAtom(s[0]) then 0 else 1 + AtomLength(s[1..])
  }

  /** What follows an opening quote, through the closing one; a backslash takes the next character of the line. */
  function QuotedLength(s: string): (n: Option<nat>)
    ensures n.Some? ==> 1 <= n.value <= |s|
  {
    if s == [] then None
    else if s[0] == '"' then Some(1)
    else if s[0] == '\\' then
      if |s| < 2 || s[1] == '\n' then None
      else var r := QuotedLength(s[2..]); if r.None? then None else Some(2 + r.value)
    else var r := QuotedLength(s[1..]); if r.None? then None else Some(1 + r.value)
  }

  /** The length of the token at the start of a text that does not start with white space. */
  function TokenLength(s: string): (n: Option<nat>)
    requires s != [] && !IsSpace(s[0])
    ensures n.Some? ==> 1 <= n.value <= |s|
  {
    if s[0] == ';' then Some(1 + CommentLength(s[1..]))
    else if s[0] == '"' then var r := QuotedLength(s[1..]); if r.None? then None else Some(1 + r.value)
    else if s[0] == '(' || s[0] == ')' then Some(1)
    else Some(AtomLength(s))
  }

  /** All tokens, comments included; `None` for an unterminated quotation. */
  function Lex(s: string, base: nat): Option<seq<Token>>
    decreases |s|
  {
    if s == [] then Some([])
    else if IsSpace(s[0]) then Lex(s[1..], base + 1)
    else
      var n := TokenLength(s);
      if n.None? then None
      else
        var rest := Lex(s[n.value..], base + n.value);
        if rest.None? then None else Some([Token(s[..n.value], base, base + n.value)] + rest.value)
  }

  /** No atom or comment runs into the end of the text. */
  predicate Closed(s: string)
    decreases |s|
  {
    if s == [] then true
    else if IsSpace(s[0]) then Closed(s[1..])
    else
      var n := TokenLength(s);
      n.Some? && (if n.value == |s| then s[0] in {'(', ')', '"'} else Closed(s[n.value..]))
  }

  // ---- Lexing a concatenation ---------------------------------------------------------

  function ShiftTokens(ts: seq<Token>, d: nat): seq<Token> {
    seq(|ts|, i requires 0 <= i < |ts| => Token(ts[i].text, ts[i].start + d, ts[i].end + d))
  }

  /** The first token of a text, and the rest. */
  lemma {:induction false} LexHead(s: string, base: nat)
    requires s != [] && !IsSpace(s[0]) && Lex(s, base).Some?
    ensures TokenLength(s).Some?
    ensures
      var n := TokenLength(s).value;
      && Lex(s[n..], base + n).Some?
      && Lex(s, base).value == [Token(s[..n], base, base + n)] + Lex(s[n..], base + n).value
  {
  }

  lemma {:induction false} LexCons(s: string, base: nat, n: nat, rest: seq<Token>)
    requires s != [] && !IsSpace(s[0]) && TokenLength(s) == Some(n) && Lex(s[n..], base + n) == Some(rest)
    ensures Lex(s, base) == Some([Token(s[..n], base, base + n)] + rest)
  {
  }

  lemma {:induction false} LexSpace(s: string, base: nat)
    requires s != [] && IsSpace(s[0])
    ensures Lex(s, base) == Lex(s[1..], base + 1) && Closed(s) == Closed(s[1..])
  {
  }

  lemma {:induction false} LexNothing(base: nat)
    ensures Lex([], base) == Some([]) && Closed([])
  {
  }

  /** A text that cannot be read: its first token, or what follows it. */
  lemma {:induction false} LexFails(s: string, base: nat)
    requires s != [] && !IsSpace(s[0])
    ensures Lex(s, base).None? <==> TokenLength(s).None? || Lex(s[TokenLength(s).value..], base + TokenLength(s).value).None?
  {
  }

  lemma {:induction false} LexShift(s: string, base: nat, d: nat)
    ensures Lex(s, base).None? ==> Lex(s, base + d).None?
    ensures Lex(s, base).Some? ==> Lex(s, base + d) == Some(ShiftTokens(Lex(s, base).value, d))
    decreases |s|
  {
    hide Lex, TokenLength, IsSpace;
    if s == [] {
      LexNothing(base);
      LexNothing(base + d);
      assert ShiftTokens([], d) == [];
    } else if IsSpace(s[0]) {
      LexSpace(s, base);
      LexSpace(s, base + d);
      LexShift(s[1..], base + 1, d);
    } else if TokenLength(s).None? {
      LexFails(s, base);
      LexFails(s, base + d);
    } else {
      LexFails(s, base);
      LexFails(s, base + d);
      var n := TokenLength(s).value;
      LexShift(s[n..], base + n, d);
      if Lex(s, base).Some? {
        LexHead(s, base);
        LexHead(s, base + d);
        var t, rest := Token(s[..n], base, base + n), Lex(s[n..], base + n).value;
        assert ShiftTokens([t] + rest, d) == [Token(s[..n], base + d, base + n + d)] + ShiftTokens(rest, d);
      }
    }
  }

  lemma {:induction false} CommentStops(a: string, b: string)
    requires CommentLength(a) < |a|
    ensures CommentLength(a + b) == CommentLength(a)
  {
    if a[0] != '\n' {
      assert (a + b)[1..] == a[1..] + b;
      CommentStops(a[1..], b);
    }
  }

  lemma {:induction false} AtomStops(a: string, b: string)
    requires AtomLength(a) < |a| || (b != [] && !InAtom(b[0]))
    ensures AtomLength(a + b) == AtomLength(a)
  {
    if a == [] {
      assert a + b == b;
    } else if InAtom(a[0]) {
      assert (a + b)[1..] == a[1..] + b;
      AtomStops(a[1..], b);
    }
  }

  lemma {:induction false} QuotedStops(a: string, b: string)
    requires QuotedLength(a).Some?
    ensures QuotedLength(a + b) == QuotedLength(a)
  {
    if a[0] == '"' {
    } else if a[0] == '\\' {
      assert (a + b)[2..] == a[2..] + b;
      QuotedStops(a[2..], b);
    } else {
      assert (a + b)[1..] == a[1..] + b;
      QuotedStops(a[1..], b);
    }
  }

  /** A token that ends before the end of its text, or ends itself, is not changed by what follows. */
  lemma {:induction false} TokenStops(a: string, b: string)
    requires a != [] && !IsSpace(a[0]) && TokenLength(a).Some?
    requires TokenLength(a).value < |a| || a[0] in {'(', ')', '"'}
    ensures TokenLength(a + b) == TokenLength(a)
  {
    assert (a + b)[1..] == a[1..] + b;
    if a[0] == ';' {
      CommentStops(a[1..], b);
    } else if a[0] == '"' {
      QuotedStops(a[1..], b);
    } else if a[0] != '(' && a[0] != ')' {
      AtomStops(a, b);
    }
  }

  /** Reading a closed text and then another is reading both. */
  lemma {:induction false} LexConcat(a: string, b: string, base: nat)
    requires Closed(a) && Lex(a, base).Some? && Lex(b, base + |a|).Some?
    ensures Lex(a + b, base) == Some(Lex(a, base).value + Lex(b, base + |a|).value)
    decreases |a|
  {
    hide Lex, TokenLength, IsSpace;
    if a == [] {
      LexNothing(base);
      assert a + b == b && [] + Lex(b, base + |a|).value == Lex(b, base + |a|).value;
    } else if IsSpace(a[0]) {
      LexSpace(a, base);
      LexSpace(a + b, base);
      assert (a + b)[1..] == a[1..] + b;
      LexConcat(a[1..], b, base + 1);
    } else {
      LexHead(a, base);
      var n := TokenLength(a).value;
      TokenStops(a, b);
      assert (a + b)[n..] == a[n..] + b && (a + b)[..n] == a[..n];
      ClosedTail(a, n);
      LexConcat(a[n..], b, base + n);
      var t := Token(a[..n], base, base + n);
      LexCons(a + b, base, n, Lex(a[n..], base + n).value + Lex(b, base + |a|).value);
      assert [t] + (Lex(a[n..], base + n).value + Lex(b, base + |a|).value)
             == ([t] + Lex(a[n..], base + n).value) + Lex(b, base + |a|).value;
    }
  }

  lemma {:induction false} ClosedTail(a: string, n: nat)
    requires a != [] && !IsSpace(a[0]) && Closed(a) && TokenLength(a) == Some(n)
    ensures n <= |a| && Closed(a[n..])
  {
  }

  lemma {:induction false} ClosedConcat(a: string, b: string)
    requires Closed(a) && Closed(b)
    ensures Closed(a + b)
    decreases |a|
  {
    if a == [] {
      assert a + b == b;
    } else if IsSpace(a[0]) {
      assert (a + b)[1..] == a[1..] + b;
      ClosedConcat(a[1..], b);
    } else {
      var n := TokenLength(a).value;
      TokenStops(a, b);
      assert (a + b)[n..] == a[n..] + b;
      ClosedConcat(a[n..], b);
      if n == |a| && b == [] { assert a + b == a; }
    }
  }

  // ---- Cutting a text between tokens --------------------------------------------------

  /** `p` is not inside a token, and a token that ends at `p` ends itself. */
  predicate Boundary(ts: seq<Token>, p: nat) {
    forall t :: t in ts ==> (t.end < p || p <= t.start || (t.end == p && t.text != [] && t.text[0] in {'(', ')', '"'}))
  }

  /** Tokens lie in their text, in order. */
  lemma {:induction false} LexPositions(s: string, base: nat)
    requires Lex(s, base).Some?
    ensures forall t :: t in Lex(s, base).value ==> base <= t.start < t.end <= base + |s| && t.text != []
    decreases |s|
  {
    if s != [] {
      if IsSpace(s[0]) {
        LexPositions(s[1..], base + 1);
      } else {
        LexPositions(s[TokenLength(s).value..], base + TokenLength(s).value);
      }
    }
  }

  lemma {:induction false} TokenInPrefix(s: string, p: nat)
    requires s != [] && !IsSpace(s[0]) && TokenLength(s).Some? && p <= |s|
    requires TokenLength(s).value < p || (TokenLength(s).value == p && s[0] in {'(', ')', '"'})
    ensures TokenLength(s[..p]) == TokenLength(s)
  {
    assert s[1..][..p - 1] == s[..p][1..];
    if s[0] == ';' {
      CommentInPrefix(s[1..], p - 1);
    } else if s[0] == '"' {
      QuotedInPrefix(s[1..], p - 1);
    } else if s[0] != '(' && s[0] != ')' {
      AtomInPrefix(s, p);
    }
  }

  lemma {:induction false} CommentInPrefix(s: string, p: nat)
    requires CommentLength(s) < p <= |s|
    ensures CommentLength(s[..p]) == CommentLength(s)
  {
    if s[0] != '\n' {
      assert s[1..][..p - 1] == s[..p][1..];
      CommentInPrefix(s[1..], p - 1);
    }
  }

  lemma {:induction false} AtomInPrefix(s: string, p: nat)
    requires AtomLength(s) < p <= |s|
    ensures AtomLength(s[..p]) == AtomLength(s)
  {
    if InAtom(s[0]) {
      assert s[1..][..p - 1] == s[..p][1..];
      AtomInPrefix(s[1..], p - 1);
    }
  }

  lemma {:induction false} QuotedInPrefix(s: string, p: nat)
    requires QuotedLength(s).Some? && QuotedLength(s).value <= p <= |s|
    ensures QuotedLength(s[..p]) == QuotedLength(s)
  {
    if s[0] == '"' {
    } else if s[0] == '\\' {
      assert s[2..][..p - 2] == s[..p][2..];
      QuotedInPrefix(s[2..], p - 2);
    } else {
      assert s[1..][..p - 1] == s[..p][1..];
      QuotedInPrefix(s[1..], p - 1);
    }
  }

  /** Both sides of a cut read as the tokens on that side. */
  lemma {:induction false} LexCut(s: string, base: nat, p: nat) returns (k: nat)
    requires Lex(s, base).Some? && p <= |s| && Boundary(Lex(s, base).value, base + p)
    ensures k <= |Lex(s, base).value| && Closed(s[..p])
    ensures Lex(s[..p], base) == Some(Lex(s, base).value[..k]) && Lex(s[p..], base + p) == Some(Lex(s, base).value[k..])
    decreases |s|
  {
    hide Lex, TokenLength, IsSpace;
    if p == 0 {
      assert s[p..] == s && s[..p] == [];
      LexNothing(base);
      k := 0;
    } else if IsSpace(s[0]) {
      LexSpace(s, base);
      LexSpace(s[..p], base);
      k := LexCut(s[1..], base + 1, p - 1);
      assert s[..p][1..] == s[1..][..p - 1] && s[p..] == s[1..][p - 1..];
    } else {
      k := LexCutToken(s, base, p);
    }
  }

  lemma {:induction false} LexCutToken(s: string, base: nat, p: nat) returns (k: nat)
    requires s != [] && !IsSpace(s[0]) && 0 < p <= |s|
    requires Lex(s, base).Some? && Boundary(Lex(s, base).value, base + p)
    ensures k <= |Lex(s, base).value| && Closed(s[..p])
    ensures Lex(s[..p], base) == Some(Lex(s, base).value[..k]) && Lex(s[p..], base + p) == Some(Lex(s, base).value[k..])
    decreases |s|, 0
  {
    hide Lex, TokenLength;
    LexHead(s, base);
    var n := TokenLength(s).value;
    var ts, t, rest := Lex(s, base).value, Token(s[..n], base, base + n), Lex(s[n..], base + n).value;
    assert t in ts && forall x :: x in rest ==> x in ts;
    assert n <= p;
    TokenInPrefix(s, p);
    var j := LexCut(s[n..], base + n, p - n);
    k := j + 1;
    assert s[..p][n..] == s[n..][..p - n] && s[p..] == s[n..][p - n..] && s[..p][..n] == s[..n];
    assert ts[..k] == [t] + rest[..j] && ts[k..] == rest[j..];
    LexCons(s[..p], base, n, rest[..j]);
  }

  // ---- Forms ---------------------------------------------------------------------------

  datatype Form = Form(start: nat, end: nat, tokens: seq<string>)

  /** The reader between two tokens: nesting depth, the open form's start and tokens, the forms read. */
  datatype Reader = Reader(depth: nat, start: nat, tokens: seq<string>, forms: seq<Form>)

  const FRESH := Reader(0, 0, [], [])

  predicate IsComment(t: Token) { t.text != [] && t.text[0] == ';' }

  /** One token; `None` is the raised error. */
  function Feed(r: Reader, t: Token): Option<Reader> {
    if IsComment(t) then Some(r)
    else if t.text == "(" then
      Some(if r.depth == 0 then Reader(1, t.start, ["("], r.forms)
           else r.(depth := r.depth + 1, tokens := r.tokens + ["("]))
    else if r.depth == 0 then None
    else if t.text == ")" then
      if r.depth > 1 then Some(r.(depth := r.depth - 1, tokens := r.tokens + [")"]))
      else if |r.tokens| < 2 then None
      else Some(Reader(0, 0, [], r.forms + [Form(r.start, t.end, r.tokens + [")"])]))
    else Some(r.(tokens := r.tokens + [t.text]))
  }

  function FeedAll(r: Reader, ts: seq<Token>): Option<Reader> {
    if ts == [] then Some(r)
    else
      var before := FeedAll(r, ts[..|ts| - 1]);
      if before.None? then None else Feed(before.value, ts[|ts| - 1])
  }

  /** The balanced top-level forms of a text with their offsets. */
  function Forms(s: string): Option<seq<Form>> {
    var ts := Lex(s, 0);
    if ts.None? then None
    else
      var r := FeedAll(FRESH, ts.value);
      if r.None? || r.value.depth != 0 then None else Some(r.value.forms)
  }

  function TokensOf(fs: seq<Form>): seq<seq<string>> {
    seq(|fs|, i requires 0 <= i < |fs| => fs[i].tokens)
  }

  /** The commands of a text: its forms without their offsets. */
  function Commands(s: string): Option<seq<seq<string>>> {
    var fs := Forms(s);
    if fs.None? then None else Some(TokensOf(fs.value))
  }

  /** The reader's loop over the tokens. */
  method EgglogForms(source: string) returns (r: Option<seq<Form>>)
    ensures r == Forms(source)
  {
    hide Lex, Feed;
    var lexed := Lex(source, 0);
    if lexed.None? {
      return None;
    }
    var tokens := lexed.value;
    var reader := FRESH;
    for i := 0 to |tokens|
      invariant FeedAll(FRESH, tokens[..i]) == Some(reader)
    {
      assert tokens[..i + 1][..i] == tokens[..i];
      var next := Feed(reader, tokens[i]);
      if next.None? {
        FeedStuck(tokens, i + 1);
        return None;
      }
      reader := next.value;
    }
    assert tokens[..|tokens|] == tokens;
    r := if reader.depth != 0 then None else Some(reader.forms);
  }

  lemma {:induction false} FeedStuck(ts: seq<Token>, k: nat)
    requires k <= |ts| && FeedAll(FRESH, ts[..k]).None?
    ensures FeedAll(FRESH, ts).None?
    decreases |ts| - k
  {
    if k < |ts| {
      assert ts[..k + 1][..k] == ts[..k];
      FeedStuck(ts, k + 1);
    } else {
      assert ts[..k] == ts;
    }
  }

  lemma {:induction false} FeedAppend(r: Reader, a: seq<Token>, b: seq<Token>)
    ensures FeedAll(r, a + b) == if FeedAll(r, a).None? then None else FeedAll(FeedAll(r, a).value, b)
  {
    hide Feed;
    if b == [] {
      assert a + b == a;
    } else {
      var n := |b| - 1;
      FeedAppend(r, a, b[..n]);
      assert (a + b)[..|a| + n] == a + b[..n];
    }
  }

  function Ahead(fs: seq<Form>, r: Reader): Reader {
    r.(forms := fs + r.forms)
  }

  /** Forms read earlier do not influence the reader. */
  lemma {:induction false} FeedAhead(fs: seq<Form>, r: Reader, ts: seq<Token>)
    ensures FeedAll(Ahead(fs, r), ts) == if FeedAll(r, ts).None? then None else Some(Ahead(fs, FeedAll(r, ts).value))
  {
    if ts != [] {
      var n := |ts| - 1;
      FeedAhead(fs, r, ts[..n]);
      if FeedAll(r, ts[..n]).Some? { FeedOneAhead(fs, FeedAll(r, ts[..n]).value, ts[n]); }
    }
  }

  lemma {:induction false} FeedOneAhead(fs: seq<Form>, r: Reader, t: Token)
    ensures Feed(Ahead(fs, r), t) == if Feed(r, t).None? then None else Some(Ahead(fs, Feed(r, t).value))
  {
    var x := Form(r.start, t.end, r.tokens + [")"]);
    assert fs + r.forms + [x] == fs + (r.forms + [x]);
  }

  function ShiftForms(fs: seq<Form>, d: nat): seq<Form> {
    seq(|fs|, i requires 0 <= i < |fs| => Form(fs[i].start + d, fs[i].end + d, fs[i].tokens))
  }

  function ShiftReader(r: Reader, d: nat): Reader {
    Reader(r.depth, if r.depth == 0 then r.start else r.start + d, r.tokens, ShiftForms(r.forms, d))
  }

  /** Idle readers have no open form. */
  predicate Tidy(r: Reader) { r.depth == 0 ==> r.start == 0 && r.tokens == [] }

  lemma {:induction false} FeedShift(r: Reader, ts: seq<Token>, d: nat)
    requires Tidy(r)
    ensures FeedAll(r, ts).None? ==> FeedAll(ShiftReader(r, d), ShiftTokens(ts, d)).None?
    ensures FeedAll(r, ts).Some? ==>
              Tidy(FeedAll(r, ts).value)
              && FeedAll(ShiftReader(r, d), ShiftTokens(ts, d)) == Some(ShiftReader(FeedAll(r, ts).value, d))
  {
    hide Feed;
    if ts == [] {
      assert ShiftTokens(ts, d) == [];
    } else {
      var n := |ts| - 1;
      FeedShift(r, ts[..n], d);
      assert ShiftTokens(ts, d)[..n] == ShiftTokens(ts[..n], d);
      if FeedAll(r, ts[..n]).Some? { FeedOneShift(FeedAll(r, ts[..n]).value, ts[n], d); }
    }
  }

  lemma {:induction false} FeedOneShift(r: Reader, t: Token, d: nat)
    requires Tidy(r)
    ensures
      var t' := Token(t.text, t.start + d, t.end + d);
      if Feed(r, t).None? then Feed(ShiftReader(r, d), t').None?
      else Tidy(Feed(r, t).value) && Feed(ShiftReader(r, d), t') == Some(ShiftReader(Feed(r, t).value, d))
  {
    var x := Form(r.start, t.end, r.tokens + [")"]);
    assert ShiftForms(r.forms + [x], d) == ShiftForms(r.forms, d) + [Form(r.start + d, t.end + d, r.tokens + [")"])];
  }

  /** Reading two texts one after the other: the forms of both, the second moved to its place. */
  lemma {:induction false} ConcatForms(a: string, b: string)
    requires Closed(a) && Forms(a).Some? && Forms(b).Some?
    ensures Forms(a + b) == Some(Forms(a).value + ShiftForms(Forms(b).value, |a|))
  {
    hide Lex, FeedAll, Closed;
    var x, y := Lex(a, 0).value, Lex(b, 0).value;
    LexShift(b, 0, |a|);
    LexConcat(a, b, 0);
    var ra, rb := FeedAll(FRESH, x).value, FeedAll(FRESH, y).value;
    FeedAppend(FRESH, x, ShiftTokens(y, |a|));
    FeedTidy(x);
    FeedShift(FRESH, y, |a|);
    assert ShiftReader(FRESH, |a|) == FRESH by { assert ShiftForms([], |a|) == []; }
    FeedAhead(ra.forms, FRESH, ShiftTokens(y, |a|));
    assert Ahead(ra.forms, FRESH) == ra by { assert ra.forms + [] == ra.forms; }
  }

  lemma {:induction false} FeedTidy(ts: seq<Token>)
    requires FeedAll(FRESH, ts).Some?
    ensures Tidy(FeedAll(FRESH, ts).value)
  {
    hide FeedAll;
    FeedShift(FRESH, ts, 0);
  }

  // ---- Cutting a text between forms ---------------------------------------------------------

  /** Tokens are in order, and a comment is followed by the end of its line. */
  predicate InOrder(ts: seq<Token>) {
    forall i, j :: 0 <= i < j < |ts| ==> ts[i].end <= ts[j].start && (IsComment(ts[i]) ==> ts[i].end < ts[j].start)
  }

  lemma {:induction false} CommentEnds(s: string)
    ensures CommentLength(s) < |s| ==> s[CommentLength(s)] == '\n'
  {
    if s != [] && s[0] != '\n' { CommentEnds(s[1..]); }
  }

  lemma {:induction false} LexInOrder(s: string, base: nat)
    requires Lex(s, base).Some?
    ensures InOrder(Lex(s, base).value)
    decreases |s|
  {
    hide Lex, TokenLength, IsSpace;
    if s == [] {
      LexNothing(base);
    } else if IsSpace(s[0]) {
      LexSpace(s, base);
      LexInOrder(s[1..], base + 1);
    } else {
      LexHead(s, base);
      var n := TokenLength(s).value;
      LexInOrder(s[n..], base + n);
      LexPositions(s[n..], base + n);
      if s[0] == ';' && n < |s| { AfterComment(s, n, base); }
      var t, rest := Token(s[..n], base, base + n), Lex(s[n..], base + n).value;
      forall j | 0 <= j < |rest| ensures t.end <= rest[j].start && (IsComment(t) ==> t.end < rest[j].start) {
        assert rest[j] in rest;
      }
    }
  }

  lemma {:induction false} AfterComment(s: string, n: nat, base: nat)
    requires s != [] && s[0] == ';' && TokenLength(s) == Some(n) && n < |s| && Lex(s[n..], base + n).Some?
    ensures forall t :: t in Lex(s[n..], base + n).value ==> base + n < t.start
  {
    CommentEnds(s[1..]);
    assert s[n..][0] == '\n';
    LexSpace(s[n..], base + n);
    LexPositions(s[n..][1..], base + n + 1);
  }

  /** Where the reader finished form `i`. */
  lemma {:induction false} FormClosed(ts: seq<Token>, i: nat) returns (k: nat)
    requires FeedAll(FRESH, ts).Some? && i < |FeedAll(FRESH, ts).value.forms|
    ensures 0 < k <= |ts| && ts[k - 1].text == ")" && ts[k - 1].end == FeedAll(FRESH, ts).value.forms[i].end
    ensures FeedAll(FRESH, ts[..k]) == Some(Reader(0, 0, [], FeedAll(FRESH, ts).value.forms[..i + 1]))
    ensures FeedAll(FRESH, ts[..k - 1]).Some? && FeedAll(FRESH, ts[..k - 1]).value.depth == 1
    ensures FeedAll(FRESH, ts[..k - 1]).value.start == FeedAll(FRESH, ts).value.forms[i].start
    ensures FeedAll(FRESH, ts[..k - 1]).value.forms == FeedAll(FRESH, ts).value.forms[..i]
  {
    var n := |ts| - 1;
    var before, after := FeedAll(FRESH, ts[..n]).value, FeedAll(FRESH, ts).value;
    assert before.forms <= after.forms;
    if i < |before.forms| {
      k := FormClosed(ts[..n], i);
      assert ts[..n][..k] == ts[..k] && ts[..n][..k - 1] == ts[..k - 1];
      assert before.forms[..i + 1] == after.forms[..i + 1] && before.forms[..i] == after.forms[..i];
    } else {
      k := |ts|;
      assert ts[..k] == ts && after.forms[..i + 1] == after.forms && after.forms[..i] == before.forms;
    }
  }

  /** Where the reader opened the form it is in. */
  lemma {:induction false} FormOpened(ts: seq<Token>) returns (k: nat)
    requires FeedAll(FRESH, ts).Some? && FeedAll(FRESH, ts).value.depth > 0
    ensures k < |ts| && ts[k].text == "(" && ts[k].start == FeedAll(FRESH, ts).value.start
    ensures FeedAll(FRESH, ts[..k]) == Some(Reader(0, 0, [], FeedAll(FRESH, ts).value.forms))
    ensures forall p :: k < p <= |ts| ==> FeedAll(FRESH, ts[..p]).Some? && FeedAll(FRESH, ts[..p]).value.depth > 0
  {
    hide Feed;
    var n := |ts| - 1;
    var before := FeedAll(FRESH, ts[..n]).value;
    FeedTidy(ts[..n]);
    FeedOpen(before, ts[n]);
    assert ts[..n + 1] == ts;
    if before.depth > 0 {
      k := FormOpened(ts[..n]);
      assert forall p :: 0 <= p <= n ==> ts[..n][..p] == ts[..p];
    } else {
      k := n;
    }
  }

  /** A token after which a form is open: it opened it, or the form was open before. */
  lemma {:induction false} FeedOpen(r: Reader, t: Token)
    requires Tidy(r) && Feed(r, t).Some? && Feed(r, t).value.depth > 0
    ensures Feed(r, t).value.forms == r.forms
    ensures r.depth == 0 ==> t.text == "(" && t.start == Feed(r, t).value.start && r == Reader(0, 0, [], r.forms)
    ensures r.depth > 0 ==> Feed(r, t).value.start == r.start
  {
  }

  /** At depth zero the last token read, if any, is a comment or a closing parenthesis. */
  lemma {:induction false} IdleAfter(ts: seq<Token>)
    requires ts != [] && FeedAll(FRESH, ts).Some? && FeedAll(FRESH, ts).value.depth == 0
    ensures IsComment(ts[|ts| - 1]) || ts[|ts| - 1].text == ")"
  {
  }

  /** A cut at a token position where the reader is idle splits the forms. */
  lemma {:induction false} CutAt(s: string, p: nat, k: nat, i: nat)
    requires Forms(s).Some? && i <= |Forms(s).value| && p <= |s|
    requires
      var ts := Lex(s, 0).value;
      && k <= |ts| && FeedAll(FRESH, ts[..k]) == Some(Reader(0, 0, [], Forms(s).value[..i]))
      && (forall j :: 0 <= j < k ==> ts[j].end <= p) && (forall j :: k <= j < |ts| ==> p <= ts[j].start)
      && Boundary(ts, p)
    ensures Closed(s[..p]) && Forms(s[..p]) == Some(Forms(s).value[..i])
    ensures Forms(s[p..]).Some? && ShiftForms(Forms(s[p..]).value, p) == Forms(s).value[i..]
  {
    hide Lex, FeedAll, Closed;
    var ts, fs := Lex(s, 0).value, Forms(s).value;
    var c := LexCut(s, 0, p);
    LexPositions(s, 0);
    LexPositions(s[..p], 0);
    LexPositions(s[p..], p);
    forall j | c <= j < |ts| ensures p <= ts[j].start < ts[j].end { assert ts[j] in ts[c..]; }
    forall j | 0 <= j < c ensures ts[j].start < ts[j].end <= p { assert ts[j] in ts[..c]; }
    assert c < |ts| ==> p <= ts[c].start < ts[c].end;
    assert k < |ts| ==> p <= ts[k].start;
    assert c == k;
    RestOfForms(s, p, k, i);
  }

  lemma {:induction false} RestOfForms(s: string, p: nat, k: nat, i: nat)
    requires Forms(s).Some? && i <= |Forms(s).value| && p <= |s|
    requires k <= |Lex(s, 0).value| && FeedAll(FRESH, Lex(s, 0).value[..k]) == Some(Reader(0, 0, [], Forms(s).value[..i]))
    requires Lex(s[p..], p) == Some(Lex(s, 0).value[k..])
    ensures Forms(s[p..]).Some? && ShiftForms(Forms(s[p..]).value, p) == Forms(s).value[i..]
  {
    hide Lex, FeedAll;
    var ts, fs := Lex(s, 0).value, Forms(s).value;
    LexShift(s[p..], 0, p);
    var y := Lex(s[p..], 0).value;
    assert ts == ts[..k] + ts[k..];
    FeedAppend(FRESH, ts[..k], ts[k..]);
    FeedAhead(fs[..i], FRESH, ts[k..]);
    assert Ahead(fs[..i], FRESH) == Reader(0, 0, [], fs[..i]) by { assert fs[..i] + [] == fs[..i]; }
    FeedShift(FRESH, y, p);
    assert ShiftReader(FRESH, p) == FRESH by { assert ShiftForms([], p) == []; }
    var r := FeedAll(FRESH, y).value;
    assert fs == fs[..i] + ShiftForms(r.forms, p);
  }

  /** A text may be cut right after any of its forms. */
  lemma {:induction false} CutAfter(s: string, i: nat)
    requires Forms(s).Some? && i < |Forms(s).value|
    ensures
      var fs := Forms(s).value;
      var p := fs[i].end;
      && p <= |s| && Closed(s[..p]) && Forms(s[..p]) == Some(fs[..i + 1])
      && Forms(s[p..]).Some? && ShiftForms(Forms(s[p..]).value, p) == fs[i + 1..]
  {
    hide Lex, FeedAll, Closed;
    var ts, fs := Lex(s, 0).value, Forms(s).value;
    var k := FormClosed(ts, i);
    LexInOrder(s, 0);
    LexPositions(s, 0);
    assert ts[k - 1] in ts;
    var p := fs[i].end;
    forall j | 0 <= j < |ts| ensures (j < k ==> ts[j].end <= p) && (k <= j ==> p <= ts[j].start) && (j < k - 1 ==> ts[j].end < p) {
      assert ts[j] in ts;
      if j < k - 1 { assert ts[j].end <= ts[k - 1].start < ts[k - 1].end; }
    }
    assert Boundary(ts, p);
    CutAt(s, p, k, i + 1);
  }

  /** A text may be cut right before any of its forms. */
  lemma {:induction false} CutBefore(s: string, i: nat)
    requires Forms(s).Some? && i < |Forms(s).value|
    ensures
      var fs := Forms(s).value;
      var p := fs[i].start;
      && p <= |s| && Closed(s[..p]) && Forms(s[..p]) == Some(fs[..i])
      && Forms(s[p..]).Some? && ShiftForms(Forms(s[p..]).value, p) == fs[i..]
  {
    hide Lex, FeedAll, Closed;
    var ts, fs := Lex(s, 0).value, Forms(s).value;
    var c := FormClosed(ts, i);
    var k := FormOpened(ts[..c - 1]);
    assert ts[..c - 1][..k] == ts[..k] && ts[..c - 1][k] == ts[k];
    if k > 0 { IdleAfter(ts[..k]); }
    LexInOrder(s, 0);
    LexPositions(s, 0);
    assert ts[k] in ts;
    var p := fs[i].start;
    forall j | 0 <= j < |ts|
      ensures (j < k ==> ts[j].end <= p) && (k <= j ==> p <= ts[j].start)
              && (j < k ==> ts[j].end < p || ts[j].text == ")")
    {
      assert ts[j] in ts;
      if j < k - 1 { assert ts[j].end <= ts[k - 1].start < ts[k - 1].end <= ts[k].start by { assert ts[k - 1] in ts; } }
    }
    assert Boundary(ts, p);
    CutAt(s, p, k, i);
  }
}
