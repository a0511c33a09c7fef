/**
 The loop that collects the edits of one program form by form, the check that
 aliases are fresh, and the threading of aliases through a session's parts.
 */
module ChurchroadRename {
  import opened Prelude
  import opened EgglogText
  import opened HardboiledReplay
  import opened TokenEdits
  import opened GlobalNames
  import opened ChurchroadGlobals

  // ---- The tokens of one form ---------------------------------------------------------------

  function Atoms(ts: seq<Token>): seq<Token> {
    if ts == [] then []
    else
      var n := |ts| - 1;
      Atoms(ts[..n]) + if IsComment(ts[n]) then [] else [ts[n]]
  }

  /** The tokens of a program's form, read from its span. */
  function AtomsIn(program: string, f: Form): seq<Token>
    requires f.start <= f.end <= |program|
  {
    var ts := Lex(program[f.start..f.end], f.start);
    if ts.None? then [] else Atoms(ts.value)
  }

  /** Form `i` is the tokens `k` to `c`; between, the reader is inside it. */
  ghost predicate Spans(s: string, i: nat, k: nat, c: nat)
    requires Forms(s).Some? && i < |Forms(s).value|
  {
    var ts, fs := Lex(s, 0).value, Forms(s).value;
    && k < c <= |ts| && fs[i].start <= fs[i].end <= |s|
    && FeedAll(FRESH, ts[..k]) == Some(Reader(0, 0, [], fs[..i]))
    && FeedAll(FRESH, ts[..c]) == Some(Reader(0, 0, [], fs[..i + 1]))
    && (forall p :: k < p < c ==> FeedAll(FRESH, ts[..p]).Some? && FeedAll(FRESH, ts[..p]).value.depth > 0)
    && ts[k].text == "(" && ts[c - 1].text == ")" && ts[k].start == fs[i].start && ts[c - 1].end == fs[i].end
  }

  lemma {:induction false} FormSpans(s: string, i: nat) returns (k: nat, c: nat)
    requires Forms(s).Some? && i < |Forms(s).value|
    ensures Spans(s, i, k, c)
  {
    hide Lex, FeedAll;
    var ts := Lex(s, 0).value;
    FormSpan(s, i);
    c := FormClosed(ts, i);
    k := FormOpened(ts[..c - 1]);
    assert forall p :: 0 <= p <= c - 1 ==> ts[..c - 1][..p] == ts[..p];
    assert ts[..c - 1][k] == ts[k];
  }

  /** Reading a form's span gives its tokens. */
  lemma {:induction false} SpanReads(s: string, i: nat, k: nat, c: nat)
    requires Forms(s).Some? && i < |Forms(s).value| && Spans(s, i, k, c)
    ensures
      var f := Forms(s).value[i];
      Lex(s[f.start..f.end], f.start) == Some(Lex(s, 0).value[k..c])
  {
    hide Lex, FeedAll, Closed;
    var ts, f := Lex(s, 0).value, Forms(s).value[i];
    LexInOrder(s, 0);
    LexPositions(s, 0);
    assert ts[k] in ts && ts[c - 1] in ts;
    CutAfterToken(s, c);
    var u := s[..f.end];
    assert ts[..c][k] == ts[k];
    if k > 0 {
      assert ts[..k] != [];
      IdleAfter(ts[..k]);
      assert ts[..k][k - 1] == ts[..c][k - 1];
    }
    CutBeforeToken(u, k);
    assert u[f.start..] == s[f.start..f.end] && ts[..c][k..] == ts[k..c];
  }

  /** A text may be cut after a closing parenthesis. */
  lemma {:induction false} CutAfterToken(s: string, c: nat)
    requires Lex(s, 0).Some? && 0 < c <= |Lex(s, 0).value| && Lex(s, 0).value[c - 1].text == ")"
    ensures Lex(s, 0).value[c - 1].end <= |s| && Lex(s[..Lex(s, 0).value[c - 1].end], 0) == Some(Lex(s, 0).value[..c])
  {
    hide Lex, Closed;
    var ts := Lex(s, 0).value;
    var p := ts[c - 1].end;
    LexInOrder(s, 0);
    LexPositions(s, 0);
    assert ts[c - 1] in ts;
    forall j | 0 <= j < |ts| ensures (j < c - 1 ==> ts[j].end < p) && (j >= c ==> p <= ts[j].start) && ts[j].start < ts[j].end {
      assert ts[j] in ts;
    }
    var n := LexCut(s, 0, p);
    SameCount(ts, s[..p], s[p..], n, c);
  }

  /** A text may be cut before an opening parenthesis that follows a closing one, a comment or nothing. */
  lemma {:induction false} CutBeforeToken(s: string, k: nat)
    requires Lex(s, 0).Some? && k < |Lex(s, 0).value| && Lex(s, 0).value[k].text == "("
    requires k > 0 ==> IsComment(Lex(s, 0).value[k - 1]) || Lex(s, 0).value[k - 1].text == ")"
    ensures var p := Lex(s, 0).value[k].start; p <= |s| && Lex(s[p..], p) == Some(Lex(s, 0).value[k..])
  {
    hide Lex, Closed;
    var ts := Lex(s, 0).value;
    var p := ts[k].start;
    LexInOrder(s, 0);
    LexPositions(s, 0);
    assert ts[k] in ts;
    forall j | 0 <= j < |ts|
      ensures (j < k ==> ts[j].end <= p) && (j < k ==> ts[j].end < p || ts[j].text == ")") && (j >= k ==> p <= ts[j].start)
              && ts[j].start < ts[j].end
    {
      assert ts[j] in ts;
      if j < k - 1 { assert ts[j].end <= ts[k - 1].start < ts[k - 1].end <= ts[k].start by { assert ts[k - 1] in ts; } }
    }
    assert Boundary(ts, p);
    var n := LexCut(s, 0, p);
    SameCount(ts, s[..p], s[p..], n, k);
  }

  /** The number of tokens before a cut. */
  lemma {:induction false} SameCount(ts: seq<Token>, left: string, right: string, n: nat, k: nat)
    requires n <= |ts| && k <= |ts| && Lex(left, 0) == Some(ts[..n]) && Lex(right, |left|) == Some(ts[n..])
    requires forall j :: 0 <= j < k ==> ts[j].end <= |left|
    requires forall j :: k <= j < |ts| ==> |left| <= ts[j].start
    ensures n == k
  {
    hide Lex;
    LexPositions(left, 0);
    LexPositions(right, |left|);
    forall j | 0 <= j < n ensures ts[j].start < ts[j].end <= |left| { assert ts[j] in ts[..n]; }
    forall j | n <= j < |ts| ensures |left| <= ts[j].start < ts[j].end { assert ts[j] in ts[n..]; }
    assert n < |ts| ==> |left| <= ts[n].start < ts[n].end;
    assert k < |ts| ==> |left| <= ts[k].start;
  }

  // ---- Marks of one form --------------------------------------------------------------------

  function CommandMarks(c: Command, b: Bindings): (m: Marks)
    requires |c| >= 3
    ensures |m| == |c|
  {
    seq(|c|, j requires 0 <= j < |c| => Mark(c, j, b))
  }

  lemma {:induction false} AtomsSnoc(ts: seq<Token>, k: nat, p: nat)
    requires k <= p < |ts|
    ensures Atoms(ts[k..p + 1]) == Atoms(ts[k..p]) + if IsComment(ts[p]) then [] else [ts[p]]
  {
    var u := ts[k..p + 1];
    assert u[..|u| - 1] == ts[k..p] && u[|u| - 1] == ts[p];
  }

  lemma {:induction false} TextsSnoc(ts: seq<Token>, t: Token)
    ensures Texts(ts + [t]) == Texts(ts) + [t.text] && |Texts(ts)| == |ts|
  {
  }

  /** Inside a form the reader holds the form's tokens so far. */
  lemma {:induction false} InsideForm(s: string, i: nat, k: nat, c: nat, p: nat)
    requires Forms(s).Some? && i < |Forms(s).value| && Spans(s, i, k, c) && k < p < c
    ensures
      var r := FeedAll(FRESH, Lex(s, 0).value[..p]);
      && r.Some? && r.value.depth > 0 && r.value.forms == Forms(s).value[..i]
      && r.value.tokens == Texts(Atoms(Lex(s, 0).value[k..p]))
  {
    hide Lex, Atoms, Texts, Feed, FeedAll;
    var ts, n := Lex(s, 0).value, p - 1;
    LastFeed(ts, n);
    AtomsSnoc(ts, k, n);
    TextsSnoc(Atoms(ts[k..n]), ts[n]);
    if p == k + 1 {
      assert ts[k..k] == [];
      AtomsNothing();
      OpenStep(Forms(s).value[..i], ts[k]);
      assert [] + ["("] == ["("] && [] + [ts[k]] == [ts[k]];
    } else {
      InsideForm(s, i, k, c, n);
      InsideStep(FeedAll(FRESH, ts[..n]).value, ts[n]);
      assert Atoms(ts[k..n]) + [] == Atoms(ts[k..n]);
    }
  }

  lemma {:induction false} LastFeed(ts: seq<Token>, n: nat)
    requires n < |ts|
    ensures FeedAll(FRESH, ts[..n + 1]) == if FeedAll(FRESH, ts[..n]).None? then None else Feed(FeedAll(FRESH, ts[..n]).value, ts[n])
  {
    assert ts[..n + 1][..n] == ts[..n];
  }

  lemma {:induction false} OpenStep(fs: seq<Form>, t: Token)
    requires t.text == "("
    ensures Feed(Reader(0, 0, [], fs), t) == Some(Reader(1, t.start, ["("], fs)) && !IsComment(t)
  {
  }

  lemma {:induction false} AtomsNothing()
    ensures Atoms([]) == [] && Texts([]) == []
  {
  }

  lemma {:induction false} InsideStep(r: Reader, t: Token)
    requires r.depth > 0 && Feed(r, t).Some? && Feed(r, t).value.depth > 0
    ensures Feed(r, t).value.forms == r.forms
    ensures Feed(r, t).value.tokens == r.tokens + if IsComment(t) then [] else [t.text]
  {
  }

  /** The tokens of a form's span are the form. */
  lemma {:induction false} SpanIsForm(s: string, i: nat, k: nat, c: nat)
    requires Forms(s).Some? && i < |Forms(s).value| && Spans(s, i, k, c)
    ensures Texts(Atoms(Lex(s, 0).value[k..c])) == Forms(s).value[i].tokens && c > k + 1
  {
    hide Lex, Atoms, Texts, Feed;
    var ts, fs, n := Lex(s, 0).value, Forms(s).value, c - 1;
    assert ts[..c][..n] == ts[..n];
    OpenAndClose(s, i, k, c);
    InsideForm(s, i, k, c, n);
    AtomsSnoc(ts, k, n);
    TextsSnoc(Atoms(ts[k..n]), ts[n]);
    LastStep(FeedAll(FRESH, ts[..n]).value, ts[n], fs[..i + 1]);
    assert fs[..i + 1][i] == fs[i];
  }

  lemma {:induction false} OpenAndClose(s: string, i: nat, k: nat, c: nat)
    requires Forms(s).Some? && i < |Forms(s).value| && Spans(s, i, k, c)
    ensures c > k + 1
  {
    hide Lex, FeedAll;
    var ts := Lex(s, 0).value;
    assert ts[k].text == "(" && ts[c - 1].text == ")";
  }

  lemma {:induction false} LastStep(r: Reader, t: Token, fs: seq<Form>)
    requires r.depth > 0 && Feed(r, t) == Some(Reader(0, 0, [], fs)) && fs != []
    ensures fs[|fs| - 1].tokens == r.tokens + [t.text] && !IsComment(t)
  {
  }

  /** The mark of a form's token is the mark of its place in the command. */
  lemma {:induction false} MarkInForm(s: string, i: nat, k: nat, c: nat, p: nat, b: Bindings)
    requires Forms(s).Some? && i < |Forms(s).value| && Spans(s, i, k, c) && k <= p < c
    requires Commanding(Commands(s).value)
    ensures
      var ts, cmds := Lex(s, 0).value, Commands(s).value;
      var j, m := |Atoms(ts[k..p])|, MarkAt(Texts(ts), cmds, b, p);
      m == if IsComment(ts[p]) || j >= |cmds[i]| then None else Mark(cmds[i], j, After(cmds[..i], b))
  {
    hide Lex, FeedTexts, After, Atoms, FeedAll;
    var ts, cmds := Lex(s, 0).value, Commands(s).value;
    assert Texts(ts)[..p] == Texts(ts[..p]);
    FeedShapes(ts[..p]);
    var fs := Forms(s).value;
    if p == k {
      assert ts[k..k] == [];
      AtomsNothing();
      assert !Expression(cmds[i], 0);
    } else {
      InsideForm(s, i, k, c, p);
      TextsSnoc(Atoms(ts[k..p]), ts[p]);
      assert |TokensOf(fs[..i])| == i;
    }
  }

  lemma {:induction false} FlatSnocStep(ts: seq<Token>, marks: Marks, k: nat, p: nat)
    requires |ts| == |marks| && k <= p < |ts|
    ensures FlatEdits(ts[k..p + 1], marks[k..p + 1]) == FlatEdits(ts[k..p], marks[k..p]) + OneEdit(ts[p], marks[p])
  {
    hide FlatEdits, OneEdit;
    assert ts[k..p + 1] == ts[k..p] + [ts[p]] && marks[k..p + 1] == marks[k..p] + [marks[p]];
    FlatConcat(ts[k..p], marks[k..p], [ts[p]], [marks[p]]);
    FlatSingle(ts[p], marks[p]);
  }

  lemma {:induction false} FlatSingle(t: Token, mark: Option<string>)
    ensures FlatEdits([t], [mark]) == OneEdit(t, mark)
  {
    assert [t][1..] == [] && [mark][1..] == [];
    assert OneEdit(t, mark) + [] == OneEdit(t, mark);
  }

  lemma {:induction false} AtomsLength(ts: seq<Token>, k: nat, p: nat, c: nat)
    requires k <= p <= c <= |ts|
    ensures |Atoms(ts[k..p])| <= |Atoms(ts[k..c])| && Atoms(ts[k..p]) == Atoms(ts[k..c])[..|Atoms(ts[k..p])|]
    decreases c - p
  {
    hide Atoms;
    if p < c {
      AtomsLength(ts, k, p, c - 1);
      AtomsSnoc(ts, k, c - 1);
    }
  }

  /** The edits of a form, taken from the flat tokens or from the command. */
  lemma {:induction false} EditsInForm(s: string, i: nat, k: nat, c: nat, p: nat, b: Bindings)
    requires Forms(s).Some? && i < |Forms(s).value| && Spans(s, i, k, c) && k <= p <= c
    requires Commanding(Commands(s).value)
    ensures |Texts(Lex(s, 0).value)| == |Lex(s, 0).value|
    ensures
      var ts, cmds := Lex(s, 0).value, Commands(s).value;
      var M, CM := MarksOf(Texts(ts), cmds, b), CommandMarks(cmds[i], After(cmds[..i], b));
      var atoms := Atoms(ts[k..p]);
      |atoms| <= |CM| && FlatEdits(ts[k..p], M[k..p]) == FlatEdits(atoms, CM[..|atoms|])
    decreases p - k
  {
    hide Lex, FeedAll, FlatEdits, After, Atoms, OneEdit, MarkAt, Mark, Spans, Forms;
    SpanBounds(s, i, k, c);
    var ts, cmds := Lex(s, 0).value, Commands(s).value;
    SpanIsForm(s, i, k, c);
    TextsLength(ts);
    var M, CM := MarksOf(Texts(ts), cmds, b), CommandMarks(cmds[i], After(cmds[..i], b));
    AtomsLength(ts, k, p, c);
    TextsLength(Atoms(ts[k..c]));
    if p == k {
      assert ts[k..k] == [] && M[k..k] == [] && CM[..0] == [];
      AtomsNothing();
    } else {
      var n := p - 1;
      EditsInForm(s, i, k, c, n, b);
      FlatSnocStep(ts, M, k, n);
      AtomsSnoc(ts, k, n);
      MarkInForm(s, i, k, c, n, b);
      AddAtom(ts[n], Atoms(ts[k..n]), M[n], CM, |cmds[i]|);
    }
  }

  lemma {:induction false} SpanBounds(s: string, i: nat, k: nat, c: nat)
    requires Forms(s).Some? && i < |Forms(s).value| && Spans(s, i, k, c)
    ensures k < c <= |Lex(s, 0).value| && Lex(s, 0).Some? && i < |Commands(s).value|
    ensures Commands(s).value[i] == Forms(s).value[i].tokens
  {
  }

  lemma {:induction false} AddAtom(t: Token, atoms: seq<Token>, mark: Option<string>, CM: Marks, n: nat)
    requires |CM| == n && |atoms| + (if IsComment(t) then 0 else 1) <= n
    requires mark == if IsComment(t) then None else CM[|atoms|]
    ensures
      var all := atoms + if IsComment(t) then [] else [t];
      FlatEdits(all, CM[..|all|]) == FlatEdits(atoms, CM[..|atoms|]) + OneEdit(t, mark)
  {
    hide FlatEdits;
    var j := |atoms|;
    if IsComment(t) {
      assert atoms + [] == atoms;
      assert FlatEdits(atoms, CM[..j]) + [] == FlatEdits(atoms, CM[..j]);
    } else {
      assert CM[..j + 1] == CM[..j] + [CM[j]];
      FlatConcat(atoms, CM[..j], [t], [CM[j]]);
      FlatSingle(t, mark);
    }
  }

  // ---- Tokens between forms ----------------------------------------------------------------

  lemma {:induction false} FormsGrow(ts: seq<Token>, a: nat, p: nat)
    requires a <= p <= |ts| && FeedAll(FRESH, ts[..p]).Some?
    ensures FeedAll(FRESH, ts[..a]).Some? && |FeedAll(FRESH, ts[..a]).value.forms| <= |FeedAll(FRESH, ts[..p]).value.forms|
    decreases p - a
  {
    if a < p {
      assert ts[..p][..p - 1] == ts[..p - 1];
      FormsGrow(ts, a, p - 1);
    }
  }

  /** Between two idle readings without a new form there are only comments. */
  lemma {:induction false} IdleBetween(ts: seq<Token>, a: nat, z: nat, p: nat)
    requires a <= p < z <= |ts| && FeedAll(FRESH, ts[..a]).Some? && FeedAll(FRESH, ts[..z]).Some?
    requires FeedAll(FRESH, ts[..z]).value.depth == 0
    requires |FeedAll(FRESH, ts[..a]).value.forms| == |FeedAll(FRESH, ts[..z]).value.forms|
    ensures FeedAll(FRESH, ts[..p]).Some? && FeedAll(FRESH, ts[..p]).value.depth == 0
    decreases z - p
  {
    hide FeedAll;
    var n := z - 1;
    FormsGrow(ts, a, z);
    FormsGrow(ts, n, z);
    FormsGrow(ts, a, n);
    assert ts[..z][..n] == ts[..n];
    LastToken(ts, z);
    if p < n { IdleBetween(ts, a, n, p); }
  }

  lemma {:induction false} LastToken(ts: seq<Token>, z: nat)
    requires 0 < z <= |ts| && FeedAll(FRESH, ts[..z]).Some? && FeedAll(FRESH, ts[..z]).value.depth == 0
    requires FeedAll(FRESH, ts[..z - 1]).Some?
    requires |FeedAll(FRESH, ts[..z - 1]).value.forms| == |FeedAll(FRESH, ts[..z]).value.forms|
    ensures FeedAll(FRESH, ts[..z - 1]).value.depth == 0
  {
    assert ts[..z][..z - 1] == ts[..z - 1];
  }

  /** No edits between forms. */
  lemma {:induction false} EditsBetween(s: string, a: nat, z: nat, b: Bindings)
    requires Forms(s).Some? && a <= z <= |Lex(s, 0).value| && Commanding(Commands(s).value)
    requires
      var ts := Lex(s, 0).value;
      && FeedAll(FRESH, ts[..a]).Some? && FeedAll(FRESH, ts[..z]).Some?
      && FeedAll(FRESH, ts[..z]).value.depth == 0
      && |FeedAll(FRESH, ts[..a]).value.forms| == |FeedAll(FRESH, ts[..z]).value.forms|
    ensures |Texts(Lex(s, 0).value)| == |Lex(s, 0).value|
    ensures
      var ts := Lex(s, 0).value;
      FlatEdits(ts[a..z], MarksOf(Texts(ts), Commands(s).value, b)[a..z]) == []
  {
    hide Lex, FeedAll, FlatEdits, FeedTexts;
    var ts := Lex(s, 0).value;
    TextsLength(ts);
    var M := MarksOf(Texts(ts), Commands(s).value, b);
    forall p | a <= p < z ensures M[p].None? {
      IdleBetween(ts, a, z, p);
      assert Texts(ts)[..p] == Texts(ts[..p]);
      FeedShapes(ts[..p]);
    }
    FlatNone(ts[a..z], M[a..z]);
  }

  // ---- The loops --------------------------------------------------------------------------------

  /** The edits of one command, or `None` when it needs a reviewed adaptation. */
  method FormEdits(atoms: seq<Token>, c: Command, b: Bindings, occupied: set<string>) returns (r: Option<seq<Edit>>)
    requires Texts(atoms) == c && |c| >= 3 && c[0] == "("
    ensures |atoms| == |c|
    ensures r.Some? <==> Admitted(c, b, occupied)
    ensures r.Some? ==> r.value == FlatEdits(atoms, CommandMarks(c, b))
  {
    hide FlatEdits, Expression, Alias, Stripped;
    TextsLength(atoms);
    var kind := c[1];
    var nested := false;
    for i := 2 to |c|
      invariant nested <==> exists j :: 2 <= j < i && c[j] == "let" && c[j - 1] == "("
    {
      if c[i - 1] == "(" && c[i] == "let" {
        nested := true;
      }
    }
    if kind in SCOPES || nested {
      return None;
    }
    var edits: seq<Edit> := [];
    if kind == "let" {
      if c[2] in b || Stripped(Alias(c[2])) in occupied {
        return None;
      }
      edits := [Edit(atoms[2].start, atoms[2].end, Alias(c[2]))];
    }
    if kind in DECLARATIONS {
      if b != map[] && (":default" in c || ":merge" in c || ":until" in c) {
        return None;
      }
      DeclarationKeeps(atoms, c, b);
    } else {
      edits := ExpressionEdits(atoms, c, b, edits);
    }
    r := Some(edits);
  }

  lemma {:induction false} DeclarationKeeps(atoms: seq<Token>, c: Command, b: Bindings)
    requires |atoms| == |c| >= 3 && c[1] in DECLARATIONS
    ensures FlatEdits(atoms, CommandMarks(c, b)) == []
  {
    hide FlatEdits;
    FlatNone(atoms, CommandMarks(c, b));
  }

  /** The name a let binds comes first; the other edits follow in order. */
  lemma {:induction false} LetEditsStart(atoms: seq<Token>, c: Command, b: Bindings, i: nat)
    requires |atoms| == |c| >= 3 && c[0] == "(" && i <= 3
    ensures FlatEdits(atoms[..i], CommandMarks(c, b)[..i])
            == if i == 3 then OneEdit(atoms[2], Mark(c, 2, b)) else []
  {
    hide FlatEdits, Expression, OneEdit;
    var m := CommandMarks(c, b);
    var n := if i == 3 then 2 else i;
    forall k | 0 <= k < n ensures m[..n][k].None? {
      HeadIsKept(c, k, b);
    }
    FlatNone(atoms[..n], m[..n]);
    if i == 3 {
      assert atoms[0..3] == atoms[..3] && m[0..3] == m[..3] && atoms[0..2] == atoms[..2] && m[0..2] == m[..2];
      FlatSnocStep(atoms, m, 0, 2);
      assert [] + OneEdit(atoms[2], m[2]) == OneEdit(atoms[2], m[2]);
    }
  }

  lemma {:induction false} HeadIsKept(c: Command, k: nat, b: Bindings)
    requires k < 2 && |c| >= 3 && c[0] == "("
    ensures Mark(c, k, b).None?
  {
    assert !Expression(c, k);
  }

  /** The walk through a command with its nesting depth and attribute flag. */
  method ExpressionEdits(atoms: seq<Token>, c: Command, b: Bindings, named: seq<Edit>) returns (edits: seq<Edit>)
    requires |atoms| == |c| >= 3 && Texts(atoms) == c && c[0] == "(" && c[1] !in DECLARATIONS
    requires named == if IsLet(c) then OneEdit(atoms[2], Some(Alias(c[2]))) else []
    ensures edits == FlatEdits(atoms, CommandMarks(c, b))
  {
    hide FlatEdits, Alias, OneEdit, CommandMarks;
    edits := named;
    var depth, attributes := 0, false;
    ghost var m := CommandMarks(c, b);
    LetEditsStart(atoms, c, b, 0);
    for i := 0 to |atoms|
      invariant depth == Depth(c, i) && (attributes <==> AfterKeyword(c, i))
      invariant edits == if IsLet(c) && i <= 2 then named else FlatEdits(atoms[..i], m[..i])
    {
      assert atoms[i].text == c[i];
      EditStep(atoms, c, b, i);
      if i < 3 {
        LetEditsStart(atoms, c, b, i);
        LetEditsStart(atoms, c, b, i + 1);
      }
      if c[i] == "(" {
        depth := depth + 1;
      } else if c[i] == ")" {
        depth := depth - 1;
      } else if depth == 1 && c[i] != [] && c[i][0] == ':' {
        attributes := true;
      } else if !attributes && !(IsLet(c) && i == 2) && i > 0 && c[i - 1] != "(" && c[i] in b {
        edits := edits + [Edit(atoms[i].start, atoms[i].end, b[c[i]])];
      }
    }
    assert atoms[..|atoms|] == atoms && m[..|atoms|] == m;
  }

  lemma {:induction false} EditStep(atoms: seq<Token>, c: Command, b: Bindings, i: nat)
    requires |atoms| == |c| >= 3 && Texts(atoms) == c && c[0] == "(" && c[1] !in DECLARATIONS && i < |c|
    ensures
      var m := CommandMarks(c, b);
      var expression := !IsParen(c[i]) && !Keyword(c, i) && !AfterKeyword(c, i) && !(IsLet(c) && i == 2) && i > 0 && c[i - 1] != "(";
      FlatEdits(atoms[..i + 1], m[..i + 1]) == FlatEdits(atoms[..i], m[..i])
        + if IsLet(c) && i == 2 then OneEdit(atoms[2], Some(Alias(c[2])))
          else if expression && c[i] in b then [Edit(atoms[i].start, atoms[i].end, b[c[i]])]
          else []
    ensures AfterKeyword(c, i + 1) <==> AfterKeyword(c, i) || Keyword(c, i)
  {
    hide FlatEdits, Keyword, Depth;
    var m := CommandMarks(c, b);
    assert atoms[0..i + 1] == atoms[..i + 1] && m[0..i + 1] == m[..i + 1] && atoms[0..i] == atoms[..i] && m[0..i] == m[..i];
    FlatSnocStep(atoms, m, 0, i);
  }

  /** One program: the edits of its forms in order, applied from the last to the first. */
  method RenameProgram(program: string, aliases: Bindings, occupied: set<string>) returns (r: Option<(string, Bindings)>)
    ensures Commands(program).None? ==> r.None?
    ensures Commands(program).Some? ==>
              && Commanding(Commands(program).value)
              && (r.Some? <==> AllAdmitted(Commands(program).value, aliases, occupied))
              && (r.Some? ==> r.value == (RenamedText(program, aliases), After(Commands(program).value, aliases)))
  {
    hide Forms, Lex, FeedAll, FlatEdits, Admitted, Spans, CommandMarks, Patched, Fits, RenamedText, MarksOf, Commanding, Edited,
         AtomsIn, Atoms, Alias;
    var parsed := EgglogForms(program);
    if parsed.None? {
      return None;
    }
    var fs := parsed.value;
    ghost var cmds := Commands(program).value;
    CommandsAreCommanding(program);
    var bindings, edits := aliases, [];
    ghost var c := 0;
    EditedStart(program, aliases);
    for i := 0 to |fs|
      invariant bindings == After(cmds[..i], aliases)
      invariant forall k :: 0 <= k < i ==> Admissible(cmds, aliases, occupied, k)
      invariant Edited(program, aliases, i, c, edits)
    {
      ghost var k, c' := FormSpans(program, i);
      SpanAtoms(program, i, k, c');
      var atoms := AtomsIn(program, fs[i]);
      var more := FormEdits(atoms, fs[i].tokens, bindings, occupied);
      assert cmds[..i + 1][..i] == cmds[..i] && cmds[i] == fs[i].tokens;
      if more.None? {
        NotAdmitted(cmds, aliases, occupied, i);
        return None;
      }
      EditedStep(program, aliases, i, c, edits, k, c');
      edits := edits + more.value;
      c := c';
      if fs[i].tokens[1] == "let" {
        bindings := bindings[fs[i].tokens[2] := Alias(fs[i].tokens[2])];
      }
    }
    assert cmds[..|fs|] == cmds;
    EditedEnd(program, aliases, c, edits);
    var text := ApplyEdits(program, edits);
    AdmittedAll(cmds, aliases, occupied);
    r := Some((text, bindings));
  }

  /** The edits applied from the last to the first. */
  method ApplyEdits(program: string, edits: seq<Edit>) returns (text: string)
    requires Fits(edits, |program|)
    ensures text == Patched(program, edits)
  {
    text := program;
    var n := |edits|;
    assert edits[..n] == edits;
    while n > 0
      invariant 0 <= n <= |edits| && Fits(edits[..n], |text|)
      invariant Patched(text, edits[..n]) == Patched(program, edits)
    {
      n := n - 1;
      var e := edits[n];
      assert edits[..n + 1][n] == e && edits[..n + 1][..n] == edits[..n];
      text := text[..e.start] + e.text + text[e.end..];
    }
  }

  ghost predicate Admissible(cmds: seq<Command>, b: Bindings, occupied: set<string>, i: nat)
    requires i < |cmds|
  {
    |cmds[i]| >= 3 && Admitted(cmds[i], After(cmds[..i], b), occupied)
  }

  lemma {:induction false} NotAdmitted(cmds: seq<Command>, b: Bindings, occupied: set<string>, i: nat)
    requires Commanding(cmds) && i < |cmds| && !Admitted(cmds[i], After(cmds[..i], b), occupied)
    ensures !AllAdmitted(cmds, b, occupied)
  {
    hide Admitted;
  }

  lemma {:induction false} AdmittedAll(cmds: seq<Command>, b: Bindings, occupied: set<string>)
    requires Commanding(cmds) && forall k :: 0 <= k < |cmds| ==> Admissible(cmds, b, occupied, k)
    ensures AllAdmitted(cmds, b, occupied)
  {
    hide Admitted, After;
    forall i | 0 <= i < |cmds| ensures Admitted(cmds[i], After(cmds[..i], b), occupied) {
      assert Admissible(cmds, b, occupied, i);
    }
  }

  /** The edits collected after `i` forms are those of the first `c` tokens. */
  ghost predicate Edited(s: string, b: Bindings, i: nat, c: nat, edits: seq<Edit>) {
    && Forms(s).Some? && i <= |Forms(s).value| && Commanding(Commands(s).value)
    && var ts := Lex(s, 0).value;
    && c <= |ts| && FeedAll(FRESH, ts[..c]) == Some(Reader(0, 0, [], Forms(s).value[..i])) && |Texts(ts)| == |ts|
    && edits == FlatEdits(ts[..c], MarksOf(Texts(ts), Commands(s).value, b)[..c])
  }

  lemma {:induction false} EditedStart(s: string, b: Bindings)
    requires Forms(s).Some? && Commanding(Commands(s).value)
    ensures Edited(s, b, 0, 0, [])
  {
    hide Lex;
    var ts := Lex(s, 0).value;
    TextsLength(ts);
    assert ts[..0] == [] && MarksOf(Texts(ts), Commands(s).value, b)[..0] == [];
    assert Forms(s).value[..0] == [];
    assert FeedAll(FRESH, []) == Some(FRESH);
  }

  lemma {:induction false} SpanAtoms(s: string, i: nat, k: nat, c: nat)
    requires Forms(s).Some? && i < |Forms(s).value| && Spans(s, i, k, c)
    ensures
      var f := Forms(s).value[i];
      && f.start <= f.end <= |s| && AtomsIn(s, f) == Atoms(Lex(s, 0).value[k..c])
      && Texts(AtomsIn(s, f)) == f.tokens && |f.tokens| >= 3 && f.tokens[0] == "("
  {
    hide Lex, FeedAll, Atoms, Spans, Texts, Forms;
    FormSpan(s, i);
    SpanReads(s, i, k, c);
    SpanIsForm(s, i, k, c);
  }

  lemma {:induction false} EditedStep(s: string, b: Bindings, i: nat, c: nat, edits: seq<Edit>, k: nat, c': nat)
    requires Edited(s, b, i, c, edits) && i < |Forms(s).value| && Spans(s, i, k, c')
    ensures
      var ts, cmds := Lex(s, 0).value, Commands(s).value;
      var atoms, marks := Atoms(ts[k..c']), CommandMarks(cmds[i], After(cmds[..i], b));
      |atoms| == |marks| && Edited(s, b, i + 1, c', edits + FlatEdits(atoms, marks))
  {
    hide Lex, FlatEdits, After, Atoms, Forms, FeedAll, MarksOf, CommandMarks;
    EditedOrder(s, b, i, c, edits, k, c');
    var ts, cmds := Lex(s, 0).value, Commands(s).value;
    var M, CM := MarksOf(Texts(ts), cmds, b), CommandMarks(cmds[i], After(cmds[..i], b));
    EditsBetween(s, c, k, b);
    EditsInForm(s, i, k, c', c', b);
    SpanIsForm(s, i, k, c');
    var atoms := Atoms(ts[k..c']);
    TextsLength(atoms);
    assert CM[..|atoms|] == CM;
    JoinFlat(ts, M, c, k, c');
  }

  lemma {:induction false} EditedOrder(s: string, b: Bindings, i: nat, c: nat, edits: seq<Edit>, k: nat, c': nat)
    requires Edited(s, b, i, c, edits) && i < |Forms(s).value| && Spans(s, i, k, c')
    ensures
      && Lex(s, 0).Some? && i < |Commands(s).value|
      && c <= k < c' <= |Lex(s, 0).value| && |Commands(s).value[i]| >= 3 && Commands(s).value[i] == Forms(s).value[i].tokens
  {
    hide Lex, FeedAll, FlatEdits, MarksOf;
    var ts := Lex(s, 0).value;
    if k < c {
      InsideOrAfter(s, i, k, c', c);
    }
  }

  /** A reading that is past a form's opening and idle is past its end, and has read it. */
  lemma {:induction false} InsideOrAfter(s: string, i: nat, k: nat, c: nat, p: nat)
    requires Forms(s).Some? && i < |Forms(s).value| && Spans(s, i, k, c) && k < p <= |Lex(s, 0).value|
    requires FeedAll(FRESH, Lex(s, 0).value[..p]).Some? && FeedAll(FRESH, Lex(s, 0).value[..p]).value.depth == 0
    ensures |FeedAll(FRESH, Lex(s, 0).value[..p]).value.forms| > i
  {
    hide Lex, FeedAll;
    FormsGrow(Lex(s, 0).value, if p < c then p else c, p);
  }

  lemma {:induction false} JoinFlat(ts: seq<Token>, M: Marks, c: nat, k: nat, c': nat)
    requires |ts| == |M| && c <= k <= c' <= |ts| && FlatEdits(ts[c..k], M[c..k]) == []
    ensures FlatEdits(ts[..c'], M[..c']) == FlatEdits(ts[..c], M[..c]) + FlatEdits(ts[k..c'], M[k..c'])
  {
    hide FlatEdits;
    assert ts[..k] == ts[..c] + ts[c..k] && M[..k] == M[..c] + M[c..k];
    FlatConcat(ts[..c], M[..c], ts[c..k], M[c..k]);
    assert FlatEdits(ts[..c], M[..c]) + [] == FlatEdits(ts[..c], M[..c]);
    assert ts[..c'] == ts[..k] + ts[k..c'] && M[..c'] == M[..k] + M[k..c'];
    FlatConcat(ts[..k], M[..k], ts[k..c'], M[k..c']);
  }

  lemma {:induction false} EditedEnd(s: string, b: Bindings, c: nat, edits: seq<Edit>)
    requires Forms(s).Some? && Edited(s, b, |Forms(s).value|, c, edits)
    ensures Fits(edits, |s|) && Patched(s, edits) == RenamedText(s, b)
  {
    hide Lex, FlatEdits, FeedAll, Fits, Patched, Rewrite;
    var ts, cmds, fs := Lex(s, 0).value, Commands(s).value, Forms(s).value;
    var M := MarksOf(Texts(ts), cmds, b);
    assert ts[..|ts|] == ts && M[..|ts|] == M && fs[..|fs|] == fs;
    EditsBetween(s, c, |ts|, b);
    assert ts[|ts|..] == [] && M[|ts|..] == [];
    FlatNone([], []);
    JoinFlat(ts, M, c, |ts|, |ts|);
    assert FlatEdits(ts[..c], M[..c]) + [] == FlatEdits(ts[..c], M[..c]);
    LexFits(s, 0, M);
    assert [] + s == s && [] + Rewrite(s, M) == Rewrite(s, M);
    PatchIsRewrite([], s, M);
  }
}
