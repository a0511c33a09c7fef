/**
 Edits of a replay text by offset: a check inserted after every extraction, and
 dead rules replaced by comments.  Re-reading the edited text gives exactly the
 intended command sequence.
 */
module HardboiledReplay {
  import opened Prelude
  import opened EgglogText

  type Command = seq<string>

  // ---- One edit --------------------------------------------------------------------

  lemma {:induction false} ShiftTwice(fs: seq<Form>, d: nat, e: nat)
    ensures ShiftForms(ShiftForms(fs, d), e) == ShiftForms(fs, d + e) && TokensOf(ShiftForms(fs, d)) == TokensOf(fs)
  {
  }

  /** Text inserted right after form `i` adds its own forms there and moves the later ones. */
  lemma {:induction false} InsertAfter(s: string, i: nat, x: string)
    requires Forms(s).Some? && i < |Forms(s).value| && Closed(x) && Forms(x).Some?
    ensures
      var fs := Forms(s).value;
      var p := fs[i].end;
      && p <= |s|
      && Forms(s[..p] + x + s[p..]) == Some(fs[..i + 1] + ShiftForms(Forms(x).value, p) + ShiftForms(fs[i + 1..], |x|))
  {
    hide Forms, Closed;
    CutAfter(s, i);
    var fs := Forms(s).value;
    var p := fs[i].end;
    ConcatForms(s[..p], x);
    ClosedConcat(s[..p], x);
    ConcatForms(s[..p] + x, s[p..]);
    ShiftTwice(Forms(s[p..]).value, p, |x|);
  }

  /** Form `i` replaced by text without forms: the earlier forms stay in place, the later commands stay. */
  lemma {:induction false} EraseForm(s: string, i: nat, x: string)
    requires Forms(s).Some? && i < |Forms(s).value| && Closed(x) && Forms(x) == Some([])
    ensures
      var fs := Forms(s).value;
      && fs[i].start <= fs[i].end <= |s|
      && var t := s[..fs[i].start] + x + s[fs[i].end..];
      && Forms(t).Some? && |Forms(t).value| == |fs| - 1 && Forms(t).value[..i] == fs[..i]
      && TokensOf(Forms(t).value) == TokensOf(fs[..i]) + TokensOf(fs[i + 1..])
  {
    hide Forms, Closed;
    CutBefore(s, i);
    CutAfter(s, i);
    FormSpan(s, i);
    var fs := Forms(s).value;
    var a, b := s[..fs[i].start], s[fs[i].end..];
    ConcatForms(a, x);
    ClosedConcat(a, x);
    assert fs[..i] + ShiftForms([], |a|) == fs[..i];
    ConcatForms(a + x, b);
    ShiftTwice(Forms(b).value, fs[i].end, 0);
    var gs := Forms(b).value;
    assert TokensOf(fs[..i] + ShiftForms(gs, |a + x|)) == TokensOf(fs[..i]) + TokensOf(gs);
    assert TokensOf(gs) == TokensOf(fs[i + 1..]) by { ShiftTwice(gs, fs[i].end, 0); }
  }

  lemma {:induction false} FormSpan(s: string, i: nat)
    requires Forms(s).Some? && i < |Forms(s).value|
    ensures Forms(s).value[i].start < Forms(s).value[i].end <= |s| && |Forms(s).value[i].tokens| >= 3
    ensures Forms(s).value[i].tokens[0] == "("
  {
    hide Lex, FeedAll;
    var ts := Lex(s, 0).value;
    FormTokens(ts, i);
    var c := FormClosed(ts, i);
    var k := FormOpened(ts[..c - 1]);
    LexInOrder(s, 0);
    LexPositions(s, 0);
    assert ts[..c - 1][k] == ts[k] && ts[k] in ts && ts[c - 1] in ts;
  }

  lemma {:induction false} FormTokens(ts: seq<Token>, i: nat)
    requires FeedAll(FRESH, ts).Some? && i < |FeedAll(FRESH, ts).value.forms|
    ensures |FeedAll(FRESH, ts).value.forms[i].tokens| >= 3 && FeedAll(FRESH, ts).value.forms[i].tokens[0] == "("
  {
    AllOpen(ts);
  }

  lemma {:induction false} AllOpen(ts: seq<Token>)
    requires FeedAll(FRESH, ts).Some?
    ensures
      var r := FeedAll(FRESH, ts).value;
      && (r.depth > 0 ==> |r.tokens| > 0 && r.tokens[0] == "(")
      && forall i :: 0 <= i < |r.forms| ==> |r.forms[i].tokens| >= 3 && r.forms[i].tokens[0] == "("
  {
    if ts != [] { AllOpen(ts[..|ts| - 1]); }
  }

  // ---- Reading the inserted check ------------------------------------------------------

  predicate IsAtom(a: string) {
    a != [] && forall i :: 0 <= i < |a| ==> InAtom(a[i])
  }

  lemma {:induction false} AtomLengthOf(a: string, rest: string)
    requires IsAtom(a) && (rest == [] || !InAtom(rest[0]))
    ensures AtomLength(a + rest) == |a|
  {
    assert (a + rest)[0] == a[0] && (a + rest)[1..] == a[1..] + rest;
    if |a| == 1 {
      assert a[1..] + rest == rest;
    } else {
      AtomLengthOf(a[1..], rest);
    }
  }

  lemma {:induction false} LexAtom(a: string, rest: string, base: nat, ts: seq<Token>)
    requires IsAtom(a) && (rest == [] || !InAtom(rest[0])) && Lex(rest, base + |a|) == Some(ts)
    ensures Lex(a + rest, base) == Some([Token(a, base, base + |a|)] + ts)
  {
    AtomLengthOf(a, rest);
    assert (a + rest)[|a|..] == rest && (a + rest)[..|a|] == a && (a + rest)[0] == a[0];
    LexCons(a + rest, base, |a|, ts);
  }

  lemma {:induction false} LexParen(c: char, rest: string, base: nat, ts: seq<Token>)
    requires c in {'(', ')'} && Lex(rest, base + 1) == Some(ts)
    ensures Lex([c] + rest, base) == Some([Token([c], base, base + 1)] + ts)
  {
    assert ([c] + rest)[1..] == rest && ([c] + rest)[..1] == [c];
    LexCons([c] + rest, base, 1, ts);
  }

  lemma {:induction false} LexBlank(c: char, rest: string, base: nat)
    requires c in {' ', '\n'}
    ensures Lex([c] + rest, base) == Lex(rest, base + 1)
  {
    assert ([c] + rest)[1..] == rest;
    LexSpace([c] + rest, base);
  }

  function CheckText(root: string, selected: string): string {
    "(check (= " + root + " " + selected + "))"
  }

  /** The tokens of a check command. */
  function CheckCommand(root: string, selected: Command): Command {
    ["(", "check", "(", "=", root] + selected + [")", ")"]
  }

  function Texts(ts: seq<Token>): seq<string> {
    seq(|ts|, i requires 0 <= i < |ts| => ts[i].text)
  }

  /** The head of a check, character by character. */
  lemma {:induction false} LexHeadOfCheck(root: string, rest: string, base: nat, ts: seq<Token>)
    requires IsAtom(root) && rest != [] && !InAtom(rest[0]) && Lex(rest, base + 10 + |root|) == Some(ts)
    ensures
      var x := "(check (= " + root + rest;
      && Lex(x, base).Some? && |Lex(x, base).value| == 5 + |ts|
      && Texts(Lex(x, base).value[..5]) == ["(", "check", "(", "=", root] && Lex(x, base).value[5..] == ts
  {
    hide Lex;
    LexAtom(root, rest, base + 10, ts);
    var t5 := [Token(root, base + 10, base + 10 + |root|)] + ts;
    LexBlank(' ', root + rest, base + 9);
    LexAtom("=", " " + (root + rest), base + 8, t5);
    var t4 := [Token("=", base + 8, base + 9)] + t5;
    LexParen('(', "=" + (" " + (root + rest)), base + 7, t4);
    var t3 := [Token("(", base + 7, base + 8)] + t4;
    var y := "(" + ("=" + (" " + (root + rest)));
    LexBlank(' ', y, base + 6);
    LexAtom("check", " " + y, base + 1, t3);
    var t2 := [Token("check", base + 1, base + 6)] + t3;
    LexParen('(', "check" + (" " + y), base, t2);
    var t1 := [Token("(", base, base + 1)] + t2;
    assert "(check (= " + root + rest == "(" + ("check" + (" " + y)) by {
      assert "(check (= " == "(" + ("check" + (" " + ("(" + ("=" + " "))));
    }
    assert t1[..5] == [Token("(", base, base + 1), Token("check", base + 1, base + 6), Token("(", base + 7, base + 8),
                       Token("=", base + 8, base + 9), Token(root, base + 10, base + 10 + |root|)];
    assert t1[5..] == ts;
  }

  function Flat(fs: seq<Form>): seq<string> {
    if fs == [] then [] else Flat(fs[..|fs| - 1]) + fs[|fs| - 1].tokens
  }

  /** Read inside an open form, a text contributes the tokens of its forms. */
  lemma {:induction false} FeedInside(o: Reader, ts: seq<Token>)
    requires o.depth > 0 && FeedAll(FRESH, ts).Some?
    ensures
      var r := FeedAll(FRESH, ts).value;
      FeedAll(o, ts) == Some(o.(depth := o.depth + r.depth, tokens := o.tokens + (Flat(r.forms) + r.tokens)))
  {
    hide Feed, Flat;
    if ts == [] {
      assert Flat([]) + [] == [] by { FlatNothing(); }
      assert o.tokens + [] == o.tokens;
    } else {
      var n := |ts| - 1;
      FeedInside(o, ts[..n]);
      FeedTidy(ts[..n]);
      FeedOneInside(o, FeedAll(FRESH, ts[..n]).value, ts[n]);
    }
  }

  lemma {:induction false} FlatNothing()
    ensures Flat([]) == []
  {
  }

  lemma {:induction false} FeedOneInside(o: Reader, r: Reader, t: Token)
    requires o.depth > 0 && Tidy(r) && Feed(r, t).Some?
    ensures
      var r' := Feed(r, t).value;
      Feed(o.(depth := o.depth + r.depth, tokens := o.tokens + (Flat(r.forms) + r.tokens)), t)
      == Some(o.(depth := o.depth + r'.depth, tokens := o.tokens + (Flat(r'.forms) + r'.tokens)))
  {
    hide Flat;
    var f := Form(r.start, t.end, r.tokens + [")"]);
    FlatSnoc(r.forms, f);
    assert r.depth == 0 ==> r.tokens + [t.text] == [t.text];
    assert o.tokens + (Flat(r.forms) + r.tokens) + [t.text] == o.tokens + (Flat(r.forms) + (r.tokens + [t.text]));
    assert o.tokens + (Flat(r.forms) + (r.tokens + [")"])) == o.tokens + (Flat(r.forms + [f]) + []);
  }

  lemma {:induction false} FlatSnoc(fs: seq<Form>, f: Form)
    ensures Flat(fs + [f]) == Flat(fs) + f.tokens
  {
    assert (fs + [f])[..|fs|] == fs;
  }

  lemma {:induction false} FlatOne(f: Form)
    ensures Flat([f]) == f.tokens
  {
    FlatSnoc([], f);
    assert [] + [f] == [f];
  }

  /** The reader on the head of a check: two levels deep, with the head's tokens. */
  lemma {:induction false} FeedHeadOfCheck(ts: seq<Token>, root: string)
    requires |ts| == 5 && Texts(ts) == ["(", "check", "(", "=", root] && IsAtom(root)
    ensures FeedAll(FRESH, ts) == Some(Reader(2, ts[0].start, ["(", "check", "(", "=", root], []))
  {
    hide FeedAll;
    assert ts[0].text == Texts(ts)[0] && ts[1].text == Texts(ts)[1] && ts[2].text == Texts(ts)[2];
    assert ts[3].text == Texts(ts)[3] && ts[4].text == Texts(ts)[4];
    assert root[0] != ';' && root != "(" && root != ")" by { assert InAtom(root[0]); }
    var a := Reader(1, ts[0].start, ["("], []);
    assert ["("] + ["check"] == ["(", "check"] && ["(", "check"] + ["("] == ["(", "check", "("];
    assert ["(", "check", "("] + ["="] == ["(", "check", "(", "="];
    assert ["(", "check", "(", "="] + [root] == ["(", "check", "(", "=", root];
    FeedSnoc(FRESH, [], ts[0], FRESH);
    assert [] + [ts[0]] == ts[..1];
    FeedSnoc(FRESH, ts[..1], ts[1], a);
    assert ts[..1] + [ts[1]] == ts[..2];
    FeedSnoc(FRESH, ts[..2], ts[2], a.(tokens := ["(", "check"]));
    assert ts[..2] + [ts[2]] == ts[..3];
    FeedSnoc(FRESH, ts[..3], ts[3], Reader(2, ts[0].start, ["(", "check", "("], []));
    assert ts[..3] + [ts[3]] == ts[..4];
    FeedSnoc(FRESH, ts[..4], ts[4], Reader(2, ts[0].start, ["(", "check", "(", "="], []));
    assert ts[..4] + [ts[4]] == ts;
  }

  lemma {:induction false} FeedSnoc(r: Reader, ts: seq<Token>, t: Token, mid: Reader)
    requires (ts == [] && mid == r) || FeedAll(r, ts) == Some(mid)
    ensures FeedAll(r, ts + [t]) == Feed(mid, t)
  {
    assert (ts + [t])[..|ts|] == ts;
  }

  /** Two closing parentheses end the check. */
  lemma {:induction false} FeedEndOfCheck(r: Reader, ts: seq<Token>)
    requires r.depth == 2 && |r.tokens| >= 2 && |ts| == 2 && ts[0].text == ")" && ts[1].text == ")"
    ensures FeedAll(r, ts) == Some(Reader(0, 0, [], r.forms + [Form(r.start, ts[1].end, r.tokens + [")"] + [")"])]))
  {
    FeedSnoc(r, [], ts[0], r);
    assert [] + [ts[0]] == ts[..1];
    FeedSnoc(r, ts[..1], ts[1], Feed(r, ts[0]).value);
    assert ts[..1] + [ts[1]] == ts;
  }

  lemma {:induction false} LexTailOfCheck(selected: string, base: nat)
    requires Closed(selected) && Lex(selected, base + 1).Some?
    ensures
      var n := base + 1 + |selected|;
      Lex(" " + (selected + "))"), base) == Some(Lex(selected, base + 1).value + [Token(")", n, n + 1), Token(")", n + 1, n + 2)])
  {
    hide Lex, Closed;
    var n := base + 1 + |selected|;
    LexNothing(n + 2);
    LexParen(')', "", n + 1, []);
    assert ")" + "" == ")" && ")" + ")" == "))";
    assert [Token(")", n + 1, n + 2)] + [] == [Token(")", n + 1, n + 2)];
    LexParen(')', ")", n, [Token(")", n + 1, n + 2)]);
    LexConcat(selected, "))", base + 1);
    LexBlank(' ', selected + "))", base);
    assert [Token(")", n, n + 1)] + [Token(")", n + 1, n + 2)] == [Token(")", n, n + 1), Token(")", n + 1, n + 2)];
  }

  /** The check text is one command with the expected tokens, and ends itself. */
  lemma {:induction false} CheckForms(root: string, selected: string, g: Form)
    requires IsAtom(root) && Closed(selected) && Forms(selected) == Some([g])
    ensures
      var x := CheckText(root, selected);
      Closed(x) && Forms(x) == Some([Form(0, |x|, CheckCommand(root, g.tokens))])
  {
    hide Lex, FeedAll, Closed, Feed;
    var x := CheckText(root, selected);
    var base := 10 + |root|;
    LexShift(selected, 0, base + 1);
    LexTailOfCheck(selected, base);
    var rest := " " + (selected + "))");
    var ts := Lex(rest, base).value;
    LexHeadOfCheck(root, rest, 0, ts);
    assert x == "(check (= " + root + rest;
    var all := Lex(x, 0).value;
    assert all == all[..5] + ts;
    FeedHeadOfCheck(all[..5], root);
    var head := FeedAll(FRESH, all[..5]).value;
    LexStart(x);
    assert all[..5][0] == all[0];
    FeedTidy(Lex(selected, 0).value);
    FeedMiddle(head, Lex(selected, 0).value, base + 1, g);
    var mid, n := Lex(selected, base + 1).value, base + 1 + |selected|;
    var close := [Token(")", n, n + 1), Token(")", n + 1, n + 2)];
    var inner := head.(tokens := head.tokens + g.tokens);
    FeedEndOfCheck(inner, close);
    FeedAppend(head, mid, close);
    FeedAppend(FRESH, all[..5], ts);
    assert inner.tokens + [")"] + [")"] == CheckCommand(root, g.tokens);
    var f := Form(0, |x|, CheckCommand(root, g.tokens));
    assert inner.forms + [f] == [f] && n + 2 == |x|;
    assert FeedAll(FRESH, all) == Some(Reader(0, 0, [], [f]));
    CutAfter(x, 0);
    assert x[..|x|] == x;
  }

  lemma {:induction false} LexStart(x: string)
    requires x != [] && x[0] == '(' && Lex(x, 0).Some?
    ensures |Lex(x, 0).value| > 0 && Lex(x, 0).value[0].start == 0
  {
    LexHead(x, 0);
  }

  lemma {:induction false} FeedMiddle(head: Reader, sel: seq<Token>, d: nat, g: Form)
    requires head.depth > 0 && FeedAll(FRESH, sel) == Some(Reader(0, 0, [], [g]))
    ensures FeedAll(head, ShiftTokens(sel, d)) == Some(head.(tokens := head.tokens + g.tokens))
  {
    hide FeedAll;
    FeedShift(FRESH, sel, d);
    var g' := Form(g.start + d, g.end + d, g.tokens);
    assert ShiftForms([g], d) == [g'];
    assert ShiftReader(FRESH, d) == FRESH by { assert ShiftForms([], d) == []; }
    FeedInside(head, ShiftTokens(sel, d));
    FlatOne(g');
    assert g.tokens + [] == g.tokens;
  }

  // ---- Kinds of tokens ---------------------------------------------------------------

  /** A token that is not a comment: a parenthesis, a quotation or an atom. */
  predicate Kind(x: string) {
    x == "(" || x == ")" || (x != [] && x[0] == '"') || IsAtom(x)
  }

  lemma {:induction false} AtomPrefix(s: string)
    ensures forall i :: 0 <= i < AtomLength(s) ==> InAtom(s[i])
  {
    if s != [] && InAtom(s[0]) {
      AtomPrefix(s[1..]);
      forall i | 0 <= i < AtomLength(s) ensures InAtom(s[i]) { if i > 0 { assert s[i] == s[1..][i - 1]; } }
    }
  }

  lemma {:induction false} LexKinds(s: string, base: nat)
    requires Lex(s, base).Some?
    ensures forall i :: 0 <= i < |Lex(s, base).value| ==> IsComment(Lex(s, base).value[i]) || Kind(Lex(s, base).value[i].text)
    decreases |s|
  {
    hide Lex, IsSpace;
    if s == [] {
      LexNothing(base);
    } else if IsSpace(s[0]) {
      LexSpace(s, base);
      LexKinds(s[1..], base + 1);
    } else {
      LexHead(s, base);
      var n := TokenLength(s).value;
      LexKinds(s[n..], base + n);
      AtomPrefix(s);
      assert s[0] == '(' ==> s[..n] == "(";
      assert s[0] == ')' ==> s[..n] == ")";
    }
  }

  predicate AllKinds(c: Command) { forall i :: 0 <= i < |c| ==> Kind(c[i]) }

  lemma {:induction false} FeedKinds(ts: seq<Token>)
    requires FeedAll(FRESH, ts).Some? && forall i :: 0 <= i < |ts| ==> IsComment(ts[i]) || Kind(ts[i].text)
    ensures
      var r := FeedAll(FRESH, ts).value;
      AllKinds(r.tokens) && forall i :: 0 <= i < |r.forms| ==> AllKinds(r.forms[i].tokens)
  {
    hide Kind;
    if ts != [] {
      FeedKinds(ts[..|ts| - 1]);
      ParensAreKinds();
    }
  }

  lemma {:induction false} ParensAreKinds()
    ensures Kind("(") && Kind(")")
  {
  }

  lemma {:induction false} FormKinds(s: string, i: nat)
    requires Forms(s).Some? && i < |Forms(s).value|
    ensures AllKinds(Forms(s).value[i].tokens)
  {
    hide Lex, FeedAll, Kind;
    LexKinds(s, 0);
    FeedKinds(Lex(s, 0).value);
  }
}
