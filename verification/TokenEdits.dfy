/**
 Replacing atoms of an egglog text by offset.  Applying the edits last one first
 copies every character outside the edited atoms, and the result reads as the
 original tokens with those atoms exchanged.
 */
module TokenEdits {
  import opened Prelude
  import opened EgglogText
  import opened HardboiledReplay

  datatype Edit = Edit(start: nat, end: nat, text: string)

  /** The new text of each token, if it has one. */
  type Marks = seq<Option<string>>

  predicate Fits(es: seq<Edit>, n: nat) {
    && (forall i :: 0 <= i < |es| ==> es[i].start <= es[i].end <= n)
    && (forall i, j :: 0 <= i < j < |es| ==> es[i].end <= es[j].start)
  }

  /** The edits applied, last one first. */
  function Patched(s: string, es: seq<Edit>): string
    requires Fits(es, |s|)
    decreases |es|
  {
    if es == [] then s
    else
      var e := es[|es| - 1];
      Patched(s[..e.start] + e.text + s[e.end..], es[..|es| - 1])
  }

  /** The text copied, with the marked tokens replaced. */
  function Rewrite(s: string, marks: Marks): string
    decreases |s|
  {
    if s == [] then []
    else if IsSpace(s[0]) then [s[0]] + Rewrite(s[1..], marks)
    else if marks == [] || TokenLength(s).None? then s
    else
      var n := TokenLength(s).value;
      (if marks[0].Some? then marks[0].value else s[..n]) + Rewrite(s[n..], marks[1..])
  }

  function FlatEdits(ts: seq<Token>, marks: Marks): seq<Edit>
    requires |ts| == |marks|
  {
    if ts == [] then []
    else OneEdit(ts[0], marks[0]) + FlatEdits(ts[1..], marks[1..])
  }

  function OneEdit(t: Token, mark: Option<string>): seq<Edit> {
    if mark.Some? then [Edit(t.start, t.end, mark.value)] else []
  }

  lemma {:induction false} FlatConcat(a: seq<Token>, m: Marks, b: seq<Token>, l: Marks)
    requires |a| == |m| && |b| == |l|
    ensures FlatEdits(a + b, m + l) == FlatEdits(a, m) + FlatEdits(b, l)
  {
    hide OneEdit;
    if a == [] {
      assert a + b == b && m + l == l;
    } else {
      assert (a + b)[1..] == a[1..] + b && (m + l)[1..] == m[1..] + l && (a + b)[0] == a[0] && (m + l)[0] == m[0];
      FlatConcat(a[1..], m[1..], b, l);
      EditsAssociate(OneEdit(a[0], m[0]), FlatEdits(a[1..], m[1..]), FlatEdits(b, l));
    }
  }

  lemma {:induction false} EditsAssociate(a: seq<Edit>, b: seq<Edit>, c: seq<Edit>)
    ensures a + (b + c) == (a + b) + c
  {
  }

  /** Without marks there is nothing to edit. */
  lemma {:induction false} FlatNone(ts: seq<Token>, marks: Marks)
    requires |ts| == |marks| && forall k :: 0 <= k < |marks| ==> marks[k].None?
    ensures FlatEdits(ts, marks) == []
  {
    if ts != [] { FlatNone(ts[1..], marks[1..]); }
  }

  // ---- Applying edits backwards is rewriting ---------------------------------------------

  /** The edits after a place leave the text before it alone. */
  lemma {:induction false} PatchedPrefix(s: string, es: seq<Edit>, p: nat)
    requires Fits(es, |s|) && p <= |s| && forall i :: 0 <= i < |es| ==> p <= es[i].start
    ensures p <= |Patched(s, es)| && Patched(s, es)[..p] == s[..p]
    decreases |es|
  {
    if es != [] {
      var e := es[|es| - 1];
      var s' := s[..e.start] + e.text + s[e.end..];
      PatchedPrefix(s', es[..|es| - 1], p);
      assert s'[..p] == s[..p];
    }
  }

  /** The first edit may be applied last. */
  lemma {:induction false} PatchedCons(s: string, e: Edit, es: seq<Edit>)
    requires Fits([e] + es, |s|) && Fits(es, |s|) && e.start <= e.end
    ensures e.end <= |Patched(s, es)|
    ensures Patched(s, [e] + es) == Patched(s, es)[..e.start] + e.text + Patched(s, es)[e.end..]
    decreases |es|
  {
    hide Fits;
    FitsFirst(s, e, es);
    var all := [e] + es;
    if es == [] {
      assert all == [e] && all[..0] == [];
    } else {
      var n := |es| - 1;
      var l := es[n];
      LastFits(es, |s|);
      var s' := s[..l.start] + l.text + s[l.end..];
      assert all[..n + 1] == [e] + es[..n] && all[n + 1] == l;
      FitsRest(all, |s|, |s'|);
      FitsRest(es, |s|, |s'|);
      PatchedCons(s', e, es[..n]);
    }
  }

  lemma {:induction false} LastFits(es: seq<Edit>, n: nat)
    requires es != [] && Fits(es, n)
    ensures es[|es| - 1].start <= es[|es| - 1].end <= n
  {
  }

  lemma {:induction false} FitsFirst(s: string, e: Edit, es: seq<Edit>)
    requires Fits([e] + es, |s|) && Fits(es, |s|)
    ensures e.end <= |s| && e.end <= |Patched(s, es)|
  {
    var all := [e] + es;
    assert all[0] == e;
    forall i | 0 <= i < |es| ensures e.end <= es[i].start { assert all[i + 1] == es[i]; }
    PatchedPrefix(s, es, e.end);
  }

  lemma {:induction false} FitsRest(es: seq<Edit>, n: nat, n': nat)
    requires es != [] && Fits(es, n) && es[|es| - 1].start <= n'
    ensures Fits(es[..|es| - 1], n')
  {
  }

  /** Edits of a text's tokens lie in it, in order. */
  lemma {:induction false} FlatFits(ts: seq<Token>, marks: Marks, lo: nat, hi: nat)
    requires |ts| == |marks| && InOrder(ts)
    requires forall k :: 0 <= k < |ts| ==> lo <= ts[k].start <= ts[k].end <= hi
    ensures Fits(FlatEdits(ts, marks), hi)
    ensures forall i :: 0 <= i < |FlatEdits(ts, marks)| ==> lo <= FlatEdits(ts, marks)[i].start
  {
    if ts != [] {
      var rest := ts[1..];
      assert forall k :: 0 <= k < |rest| ==> rest[k] == ts[k + 1];
      FlatFits(rest, marks[1..], ts[0].end, hi);
    }
  }

  lemma {:induction false} LexFits(s: string, base: nat, marks: Marks)
    requires Lex(s, base).Some? && |marks| == |Lex(s, base).value|
    ensures Fits(FlatEdits(Lex(s, base).value, marks), base + |s|)
    ensures forall i :: 0 <= i < |FlatEdits(Lex(s, base).value, marks)| ==> base <= FlatEdits(Lex(s, base).value, marks)[i].start
  {
    hide Lex, FlatEdits;
    LexInOrder(s, base);
    LexPositions(s, base);
    var ts := Lex(s, base).value;
    assert forall k :: 0 <= k < |ts| ==> ts[k] in ts;
    FlatFits(ts, marks, base, base + |s|);
  }

  lemma {:induction false} PatchIsRewrite(pre: string, s: string, marks: Marks)
    requires Lex(s, |pre|).Some? && |marks| == |Lex(s, |pre|).value|
    requires Fits(FlatEdits(Lex(s, |pre|).value, marks), |pre + s|)
    ensures Patched(pre + s, FlatEdits(Lex(s, |pre|).value, marks)) == pre + Rewrite(s, marks)
    decreases |s|
  {
    hide Lex, TokenLength, IsSpace, Fits, FlatEdits;
    if s == [] {
      LexNothing(|pre|);
      FlatNothing();
    } else if IsSpace(s[0]) {
      LexSpace(s, |pre|);
      assert pre + s == (pre + [s[0]]) + s[1..];
      PatchIsRewrite(pre + [s[0]], s[1..], marks);
      assert pre + ([s[0]] + Rewrite(s[1..], marks)) == (pre + [s[0]]) + Rewrite(s[1..], marks);
    } else {
      PatchToken(pre, s, marks);
    }
  }

  lemma {:induction false} FlatNothing()
    ensures FlatEdits([], []) == []
  {
  }

  lemma {:induction false} FlatCons(t: Token, ts: seq<Token>, marks: Marks)
    requires |marks| == |ts| + 1
    ensures FlatEdits([t] + ts, marks) == OneEdit(t, marks[0]) + FlatEdits(ts, marks[1..])
  {
    assert ([t] + ts)[1..] == ts;
  }

  lemma {:induction false} PatchToken(pre: string, s: string, marks: Marks)
    requires s != [] && !IsSpace(s[0]) && Lex(s, |pre|).Some? && |marks| == |Lex(s, |pre|).value|
    requires Fits(FlatEdits(Lex(s, |pre|).value, marks), |pre + s|)
    ensures Patched(pre + s, FlatEdits(Lex(s, |pre|).value, marks)) == pre + Rewrite(s, marks)
    decreases |s|, 0
  {
    hide Lex, TokenLength, IsSpace, Fits, FlatEdits, Patched;
    LexHead(s, |pre|);
    var n := TokenLength(s).value;
    var rest := Lex(s[n..], |pre| + n).value;
    FlatCons(Token(s[..n], |pre|, |pre| + n), rest, marks);
    var es, pre' := FlatEdits(rest, marks[1..]), pre + s[..n];
    assert pre + s == pre' + s[n..] && |pre'| == |pre| + n;
    LexFits(s[n..], |pre'|, marks[1..]);
    PatchIsRewrite(pre', s[n..], marks[1..]);
    var done := Patched(pre + s, es);
    assert done == pre' + Rewrite(s[n..], marks[1..]);
    if marks[0].Some? {
      PatchedCons(pre + s, Edit(|pre|, |pre| + n, marks[0].value), es);
      assert done[..|pre|] == pre && done[|pre| + n..] == Rewrite(s[n..], marks[1..]);
      assert pre + (marks[0].value + Rewrite(s[n..], marks[1..])) == pre + marks[0].value + Rewrite(s[n..], marks[1..]);
    } else {
      assert [] + es == es;
      assert pre + (s[..n] + Rewrite(s[n..], marks[1..])) == pre' + Rewrite(s[n..], marks[1..]);
    }
  }

  // ---- Reading the result ---------------------------------------------------------------------

  function NewTexts(ts: seq<Token>, marks: Marks): seq<string>
    requires |ts| == |marks|
  {
    seq(|ts|, k requires 0 <= k < |ts| => if marks[k].Some? then marks[k].value else ts[k].text)
  }

  /** Only atoms are marked, and with atoms. */
  ghost predicate Proper(ts: seq<Token>, marks: Marks) {
    && |ts| == |marks|
    && forall k :: 0 <= k < |ts| && marks[k].Some? ==> IsAtom(ts[k].text) && IsAtom(marks[k].value)
  }

  lemma {:induction false} RewriteStart(s: string, base: nat, marks: Marks)
    requires Lex(s, base).Some? && Proper(Lex(s, base).value, marks)
    ensures s == [] ==> Rewrite(s, marks) == []
    ensures s != [] && !InAtom(s[0]) ==> Rewrite(s, marks) != [] && Rewrite(s, marks)[0] == s[0]
  {
    hide Lex, TokenLength, IsSpace;
    if s != [] && !IsSpace(s[0]) {
      LexHead(s, base);
      var n := TokenLength(s).value;
      assert s[..n][0] == s[0];
    }
  }

  lemma {:induction false} AtomToken(s: string)
    requires s != [] && InAtom(s[0])
    ensures AtomLength(s) > 0 && IsAtom(s[..AtomLength(s)]) && (AtomLength(s) < |s| ==> !InAtom(s[AtomLength(s)]))
  {
    var n := AtomLength(s);
    if |s| > 1 && InAtom(s[1]) {
      AtomToken(s[1..]);
      forall i | 0 <= i < n ensures InAtom(s[..n][i]) { if i > 0 { assert s[i] == s[1..][..n - 1][i - 1]; } }
    }
  }

  lemma {:induction false} CommentAlone(a: string, b: string)
    requires CommentLength(a) == |a| && (b == [] || b[0] == '\n')
    ensures CommentLength(a + b) == |a|
  {
    if a == [] {
      assert a + b == b;
    } else {
      assert (a + b)[1..] == a[1..] + b;
      CommentAlone(a[1..], b);
    }
  }

  lemma {:induction false} CommentPrefix(s: string)
    ensures CommentLength(s[..CommentLength(s)]) == CommentLength(s)
  {
    var n := CommentLength(s);
    if n > 0 {
      CommentPrefix(s[1..]);
      assert s[..n][1..] == s[1..][..n - 1];
    }
  }

  /** A token other than an atom is read the same before rewritten text. */
  lemma {:induction false} KeptToken(s: string, n: nat, out: string)
    requires s != [] && !IsSpace(s[0]) && !InAtom(s[0]) && TokenLength(s) == Some(n)
    requires s[0] == ';' ==> out == [] || out[0] == '\n'
    ensures TokenLength(s[..n] + out) == Some(n)
  {
    var a := s[..n];
    assert (a + out)[0] == s[0] && (a + out)[1..] == a[1..] + out && a[1..] == s[1..][..n - 1];
    if s[0] == ';' {
      CommentPrefix(s[1..]);
      CommentAlone(a[1..], out);
    } else if s[0] == '"' {
      QuotedInPrefix(s[1..], n - 1);
      QuotedStops(a[1..], out);
    }
  }

  lemma {:induction false} NewTextsCons(t: Token, ts: seq<Token>, marks: Marks)
    requires |marks| == |ts| + 1
    ensures NewTexts([t] + ts, marks) == [if marks[0].Some? then marks[0].value else t.text] + NewTexts(ts, marks[1..])
  {
  }

  lemma {:induction false} TextsCons(t: Token, ts: seq<Token>)
    ensures Texts([t] + ts) == [t.text] + Texts(ts)
  {
  }

  /** The rewritten text reads as the same tokens with the marked ones exchanged. */
  lemma {:induction false} RewriteReads(s: string, base: nat, marks: Marks, at: nat)
    requires Lex(s, base).Some? && Proper(Lex(s, base).value, marks)
    ensures Lex(Rewrite(s, marks), at).Some?
    ensures Texts(Lex(Rewrite(s, marks), at).value) == NewTexts(Lex(s, base).value, marks)
    decreases |s|
  {
    hide Lex, TokenLength, IsSpace, Proper, InAtom;
    ProperLength(Lex(s, base).value, marks);
    if s == [] {
      LexNothing(base);
      LexNothing(at);
    } else if IsSpace(s[0]) {
      LexSpace(s, base);
      RewriteReads(s[1..], base + 1, marks, at + 1);
      var r := Rewrite(s[1..], marks);
      assert ([s[0]] + r)[1..] == r;
      LexSpace([s[0]] + r, at);
    } else {
      LexHead(s, base);
      var n := TokenLength(s).value;
      var t, rest := Token(s[..n], base, base + n), Lex(s[n..], base + n).value;
      ProperRest(t, rest, marks);
      var x := if marks[0].Some? then marks[0].value else s[..n];
      RewriteReads(s[n..], base + n, marks[1..], at + |x|);
      RewriteStart(s[n..], base + n, marks[1..]);
      RewriteToken(s, n, marks, at, Lex(Rewrite(s[n..], marks[1..]), at + |x|).value, t, rest);
      NewTextsCons(t, rest, marks);
    }
  }

  lemma {:induction false} ProperLength(ts: seq<Token>, marks: Marks)
    requires Proper(ts, marks)
    ensures |ts| == |marks|
  {
  }

  lemma {:induction false} ProperRest(t: Token, ts: seq<Token>, marks: Marks)
    requires Proper([t] + ts, marks)
    ensures |marks| == |ts| + 1 && Proper(ts, marks[1..]) && (marks[0].Some? ==> IsAtom(t.text) && IsAtom(marks[0].value))
  {
    assert ([t] + ts)[0] == t;
    forall k | 0 <= k < |ts| && marks[1..][k].Some? ensures IsAtom(ts[k].text) && IsAtom(marks[1..][k].value) {
      assert ([t] + ts)[k + 1] == ts[k] && marks[k + 1] == marks[1..][k];
    }
  }

  /** One token of the result. */
  lemma {:induction false} RewriteToken(s: string, n: nat, marks: Marks, at: nat, read: seq<Token>, t: Token, rest: seq<Token>)
    requires s != [] && !IsSpace(s[0]) && TokenLength(s) == Some(n) && marks != []
    requires t.text == s[..n] && (marks[0].Some? ==> IsAtom(t.text) && IsAtom(marks[0].value))
    requires
      var x := if marks[0].Some? then marks[0].value else s[..n];
      Lex(Rewrite(s[n..], marks[1..]), at + |x|) == Some(read)
    requires n == |s| ==> Rewrite(s[n..], marks[1..]) == []
    requires n < |s| && !InAtom(s[n]) ==> Rewrite(s[n..], marks[1..]) != [] && Rewrite(s[n..], marks[1..])[0] == s[n]
    ensures Lex(Rewrite(s, marks), at).Some?
    ensures Texts(Lex(Rewrite(s, marks), at).value) == [if marks[0].Some? then marks[0].value else s[..n]] + Texts(read)
  {
    hide Lex, IsSpace;
    var out := Rewrite(s[n..], marks[1..]);
    var x := if marks[0].Some? then marks[0].value else s[..n];
    assert t.text[0] == s[0];
    if InAtom(s[0]) {
      AtomToken(s);
      LexAtom(x, out, at, read);
    } else {
      assert marks[0].None?;
      CommentEnds(s[1..]);
      NewlineIsSpace();
      KeptToken(s, n, out);
      assert (x + out)[n..] == out && (x + out)[..n] == x && (x + out)[0] == s[0];
      LexCons(x + out, at, n, read);
    }
    TextsCons(Token(x, at, at + |x|), read);
  }

  lemma {:induction false} NewlineIsSpace()
    ensures !InAtom('\n')
  {
  }

  // ---- Commands from token texts ----------------------------------------------------------------

  /** The reader without offsets. */
  datatype Shape = Shape(depth: nat, tokens: seq<string>, commands: seq<Command>)

  const BLANK := Shape(0, [], [])

  function FeedText(r: Shape, x: string): Option<Shape> {
    if x != [] && x[0] == ';' then Some(r)
    else if x == "(" then
      Some(if r.depth == 0 then Shape(1, ["("], r.commands) else r.(depth := r.depth + 1, tokens := r.tokens + ["("]))
    else if r.depth == 0 then None
    else if x == ")" then
      if r.depth > 1 then Some(r.(depth := r.depth - 1, tokens := r.tokens + [")"]))
      else if |r.tokens| < 2 then None
      else Some(Shape(0, [], r.commands + [r.tokens + [")"]]))
    else Some(r.(tokens := r.tokens + [x]))
  }

  function FeedTexts(xs: seq<string>): Option<Shape> {
    if xs == [] then Some(BLANK)
    else
      var before := FeedTexts(xs[..|xs| - 1]);
      if before.None? then None else FeedText(before.value, xs[|xs| - 1])
  }

  function ShapeOf(r: Reader): Shape { Shape(r.depth, r.tokens, TokensOf(r.forms)) }

  lemma {:induction false} FeedShape(r: Reader, t: Token)
    ensures FeedText(ShapeOf(r), t.text) == if Feed(r, t).None? then None else Some(ShapeOf(Feed(r, t).value))
  {
    var f := Form(r.start, t.end, r.tokens + [")"]);
    assert TokensOf(r.forms + [f]) == TokensOf(r.forms) + [f.tokens];
  }

  lemma {:induction false} FeedShapes(ts: seq<Token>)
    ensures FeedTexts(Texts(ts)) == if FeedAll(FRESH, ts).None? then None else Some(ShapeOf(FeedAll(FRESH, ts).value))
  {
    hide Feed, FeedText;
    if ts == [] {
      assert ShapeOf(FRESH) == BLANK by { assert TokensOf([]) == []; }
    } else {
      var n := |ts| - 1;
      FeedShapes(ts[..n]);
      assert Texts(ts)[..n] == Texts(ts[..n]) && Texts(ts)[n] == ts[n].text;
      if FeedAll(FRESH, ts[..n]).Some? { FeedShape(FeedAll(FRESH, ts[..n]).value, ts[n]); }
    }
  }

  /** The commands of a text depend on its tokens' texts alone. */
  lemma {:induction false} CommandsFromTexts(s: string)
    requires Lex(s, 0).Some?
    ensures
      var r := FeedTexts(Texts(Lex(s, 0).value));
      Commands(s) == if r.None? || r.value.depth != 0 then None else Some(r.value.commands)
  {
    hide Lex, FeedAll, FeedTexts;
    FeedShapes(Lex(s, 0).value);
  }
}
