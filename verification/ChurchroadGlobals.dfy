/**
 The adaptation of a captured Churchroad session: each source part's references
 to earlier globals are replaced, by offset, with fresh aliases that later parts
 keep using.
 */
module ChurchroadGlobals {
  import opened Prelude
  import opened EgglogText
  import opened HardboiledReplay
  import opened TokenEdits
  import opened GlobalNames

  // ---- Which token belongs where in its command --------------------------------------------

  predicate IsCommentText(x: string) { x != [] && x[0] == ';' }

  /** The mark of the token at index `k` of a text with the given commands. */
  function MarkAt(xs: seq<string>, cmds: seq<Command>, b: Bindings, k: nat): Option<string>
    requires k < |xs| && Commanding(cmds)
  {
    var r := FeedTexts(xs[..k]);
    if r.None? || IsCommentText(xs[k]) || r.value.depth == 0 || |r.value.commands| >= |cmds| then None
    else
      var c, j := cmds[|r.value.commands|], |r.value.tokens|;
      if j >= |c| then None else Mark(c, j, After(cmds[..|r.value.commands|], b))
  }

  function MarksOf(xs: seq<string>, cmds: seq<Command>, b: Bindings): (m: Marks)
    requires Commanding(cmds)
    ensures |m| == |xs|
  {
    seq(|xs|, k requires 0 <= k < |xs| => MarkAt(xs, cmds, b, k))
  }

  /** An unfinished reading of the commands. */
  ghost predicate Within(r: Shape, cmds: seq<Command>) {
    && |r.commands| <= |cmds| && r.commands == cmds[..|r.commands|]
    && (r.depth > 0 ==>
          |r.commands| < |cmds| && |r.tokens| <= |cmds[|r.commands|]| && r.tokens == cmds[|r.commands|][..|r.tokens|])
    && (r.depth == 0 ==> r.tokens == [])
  }

  /** The token read from here is the next token of the command being read. */
  ghost predicate Next(r: Shape, cmds: seq<Command>, x: string) {
    r.depth > 0 && !IsCommentText(x) ==>
      |r.commands| < |cmds| && |r.tokens| < |cmds[|r.commands|]| && cmds[|r.commands|][|r.tokens|] == x
  }

  lemma {:induction false} StepBack(r: Shape, x: string, cmds: seq<Command>)
    requires FeedText(r, x).Some? && Within(FeedText(r, x).value, cmds) && (r.depth == 0 ==> r.tokens == [])
    ensures Within(r, cmds) && Next(r, cmds, x)
  {
    var r' := FeedText(r, x).value;
    var n := |r.commands|;
    if !IsCommentText(x) && r.depth > 0 {
      if x == ")" && r.depth == 1 {
        assert r'.commands[n] == r.tokens + [")"] == cmds[n];
        assert r'.commands[..n] == r.commands;
      } else {
        assert r'.tokens == r.tokens + [x];
        assert r'.tokens[|r.tokens|] == x && r'.tokens[..|r.tokens|] == r.tokens;
      }
    }
  }

  lemma {:induction false} ShapeTidy(xs: seq<string>)
    requires FeedTexts(xs).Some?
    ensures FeedTexts(xs).value.depth == 0 ==> FeedTexts(xs).value.tokens == []
  {
    if xs != [] { ShapeTidy(xs[..|xs| - 1]); }
  }

  /** At every token the reading is within the commands it ends with. */
  lemma {:induction false} AllWithin(xs: seq<string>, cmds: seq<Command>, k: nat)
    requires FeedTexts(xs) == Some(Shape(0, [], cmds)) && k <= |xs|
    ensures FeedTexts(xs[..k]).Some? && Within(FeedTexts(xs[..k]).value, cmds)
    ensures k < |xs| ==> Next(FeedTexts(xs[..k]).value, cmds, xs[k])
    decreases |xs| - k
  {
    hide FeedText, Within, Next;
    if k == |xs| {
      assert xs[..k] == xs;
      WithinEnd(cmds);
    } else {
      AllWithin(xs, cmds, k + 1);
      assert xs[..k + 1][..k] == xs[..k];
      ShapeTidy(xs[..k]);
      StepBack(FeedTexts(xs[..k]).value, xs[k], cmds);
    }
  }

  lemma {:induction false} WithinEnd(cmds: seq<Command>)
    ensures Within(Shape(0, [], cmds), cmds)
  {
    assert cmds[..|cmds|] == cmds;
  }

  // ---- The renamed text reads as the renamed commands ------------------------------------------

  /** Names bound by lets are atoms, as the language has it. */
  predicate NamesAreAtoms(cmds: seq<Command>) {
    forall i :: 0 <= i < |cmds| && IsLet(cmds[i]) ==> IsAtom(cmds[i][2])
  }

  ghost predicate AtomAliases(b: Bindings) {
    Aliases(b) && forall x :: x in b ==> IsAtom(x)
  }

  lemma {:induction false} AliasIsAtom(x: string)
    requires IsAtom(x)
    ensures IsAtom(Alias(x))
  {
    assert forall i :: 0 <= i < |PREFIX| ==> InAtom(PREFIX[i]);
    forall i | 0 <= i < |Alias(x)| ensures InAtom(Alias(x)[i]) {
      assert Alias(x)[i] == if i < |PREFIX| then PREFIX[i] else x[i - |PREFIX|];
    }
  }

  lemma {:induction false} AfterAtoms(cmds: seq<Command>, b: Bindings)
    requires AtomAliases(b) && NamesAreAtoms(cmds)
    ensures AtomAliases(After(cmds, b))
  {
    hide After, IsAtom;
    AfterBinds(cmds, b);
  }

  lemma {:induction false} PrefixNames(cmds: seq<Command>, i: nat)
    requires NamesAreAtoms(cmds) && i <= |cmds|
    ensures NamesAreAtoms(cmds[..i])
  {
  }

  /** A marked token is an atom and becomes one. */
  lemma {:induction false} MarkIsProper(cmds: seq<Command>, b: Bindings, i: nat, j: nat)
    requires Commanding(cmds) && NamesAreAtoms(cmds) && AtomAliases(b) && i < |cmds| && j < |cmds[i]|
    requires Mark(cmds[i], j, After(cmds[..i], b)).Some?
    ensures IsAtom(cmds[i][j]) && IsAtom(Mark(cmds[i], j, After(cmds[..i], b)).value)
  {
    hide After, IsAtom, Expression, Alias;
    PrefixNames(cmds, i);
    AfterAtoms(cmds[..i], b);
    AliasIsAtom(cmds[i][j]);
  }

  /** Reading the renamed tokens so far. */
  function RenamedShape(r: Shape, cmds: seq<Command>, b: Bindings): Shape
    requires Commanding(cmds) && |r.commands| <= |cmds|
    requires r.depth > 0 ==> |r.commands| < |cmds| && |r.tokens| <= |cmds[|r.commands|]|
  {
    var i := |r.commands|;
    Shape(r.depth, if r.depth == 0 then [] else Translated(cmds, b)[i][..|r.tokens|], Translated(cmds, b)[..i])
  }

  lemma {:induction false} AtomIsNoMark(x: string)
    requires IsAtom(x)
    ensures !IsCommentText(x) && x != "(" && x != ")"
  {
    assert InAtom(x[0]);
  }

  lemma {:induction false} StepRenamed(r: Shape, x: string, y: string, cmds: seq<Command>, b: Bindings)
    requires Commanding(cmds) && Within(r, cmds) && Next(r, cmds, x) && FeedText(r, x).Some? && Within(FeedText(r, x).value, cmds)
    requires y == x || (IsAtom(x) && IsAtom(y))
    requires r.depth > 0 && !IsCommentText(x) ==> y == Translated(cmds, b)[|r.commands|][|r.tokens|]
    requires r.depth == 0 ==> y == x
    ensures FeedText(RenamedShape(r, cmds, b), y) == Some(RenamedShape(FeedText(r, x).value, cmds, b))
  {
    hide IsAtom, Renamed, After;
    if y != x {
      AtomIsNoMark(x);
      AtomIsNoMark(y);
    }
    var i, j, tr := |r.commands|, |r.tokens|, Translated(cmds, b);
    if r.depth > 0 && !IsCommentText(x) {
      var c := tr[i];
      assert c[..j] + [y] == c[..j + 1];
      if x == ")" && r.depth == 1 {
        assert FeedText(r, x).value.commands[i] == r.tokens + [")"] == cmds[i];
        assert j + 1 == |cmds[i]| == |c|;
        assert c[..j + 1] == c && tr[..i] + [c] == tr[..i + 1];
      }
    } else if r.depth == 0 && x == "(" {
      StepOpens(cmds, b, r);
    }
  }

  /** A command's first token is its parenthesis, renamed or not. */
  lemma {:induction false} StepOpens(cmds: seq<Command>, b: Bindings, r: Shape)
    requires Commanding(cmds) && |r.commands| < |cmds|
    ensures Translated(cmds, b)[|r.commands|][..1] == ["("]
  {
    hide After;
    var c := cmds[|r.commands|];
    assert !Expression(c, 0);
  }

  /** The marks make the tokens those of the renamed commands. */
  lemma {:induction false} MarkedToken(ts: seq<Token>, cmds: seq<Command>, b: Bindings, k: nat)
    requires Commanding(cmds) && NamesAreAtoms(cmds) && AtomAliases(b)
    requires FeedTexts(Texts(ts)) == Some(Shape(0, [], cmds)) && k < |ts|
    ensures
      var xs, m := Texts(ts), MarkAt(Texts(ts), cmds, b, k);
      var y := if m.Some? then m.value else xs[k];
      && FeedTexts(xs[..k]).Some?
      && var r := FeedTexts(xs[..k]).value;
      && Within(r, cmds) && Next(r, cmds, xs[k])
      && (m.Some? ==> IsAtom(xs[k]) && IsAtom(y))
      && (r.depth > 0 && !IsCommentText(xs[k]) ==> y == Translated(cmds, b)[|r.commands|][|r.tokens|])
      && (r.depth == 0 ==> y == xs[k])
  {
    hide FeedTexts, After, IsAtom, Mark;
    var xs := Texts(ts);
    AllWithin(xs, cmds, k);
    var r := FeedTexts(xs[..k]).value;
    if r.depth > 0 && !IsCommentText(xs[k]) && MarkAt(xs, cmds, b, k).Some? {
      MarkIsProper(cmds, b, |r.commands|, |r.tokens|);
    }
  }

  lemma {:induction false} RenamedSoFar(ts: seq<Token>, cmds: seq<Command>, b: Bindings, k: nat)
    requires Commanding(cmds) && NamesAreAtoms(cmds) && AtomAliases(b)
    requires FeedTexts(Texts(ts)) == Some(Shape(0, [], cmds)) && k <= |ts|
    ensures
      && FeedTexts(Texts(ts)[..k]).Some? && Within(FeedTexts(Texts(ts)[..k]).value, cmds)
      && FeedTexts(NewTexts(ts, MarksOf(Texts(ts), cmds, b))[..k]) == Some(RenamedShape(FeedTexts(Texts(ts)[..k]).value, cmds, b))
  {
    hide FeedText, Within, Next, IsAtom, Translated, MarkAt, RenamedShape;
    var xs, ys := Texts(ts), NewTexts(ts, MarksOf(Texts(ts), cmds, b));
    AllWithin(xs, cmds, k);
    if k == 0 {
      RenamedBlank(cmds, b);
    } else {
      RenamedSoFar(ts, cmds, b, k - 1);
      assert xs[..k][..k - 1] == xs[..k - 1] && ys[..k][..k - 1] == ys[..k - 1];
      MarkedToken(ts, cmds, b, k - 1);
      StepRenamed(FeedTexts(xs[..k - 1]).value, xs[k - 1], ys[k - 1], cmds, b);
    }
  }

  lemma {:induction false} RenamedBlank(cmds: seq<Command>, b: Bindings)
    requires Commanding(cmds)
    ensures RenamedShape(BLANK, cmds, b) == BLANK
  {
  }

  lemma {:induction false} RenamedEnd(cmds: seq<Command>, b: Bindings)
    requires Commanding(cmds)
    ensures RenamedShape(Shape(0, [], cmds), cmds, b) == Shape(0, [], Translated(cmds, b))
  {
    assert Translated(cmds, b)[..|cmds|] == Translated(cmds, b);
  }

  lemma {:induction false} CommandsAreCommanding(s: string)
    requires Commands(s).Some?
    ensures Commanding(Commands(s).value)
  {
    hide Forms;
    var fs := Forms(s).value;
    forall i | 0 <= i < |fs| ensures |TokensOf(fs)[i]| >= 3 && TokensOf(fs)[i][0] == "(" { FormSpan(s, i); }
  }

  /** The rewritten program. */
  function RenamedText(s: string, b: Bindings): string
    requires Commands(s).Some?
  {
    CommandsAreCommanding(s);
    Rewrite(s, MarksOf(Texts(Lex(s, 0).value), Commands(s).value, b))
  }

  lemma {:induction false} TextsOfCommands(s: string)
    requires Commands(s).Some?
    ensures Lex(s, 0).Some? && FeedTexts(Texts(Lex(s, 0).value)) == Some(Shape(0, [], Commands(s).value))
  {
    hide Lex, FeedAll, FeedTexts;
    CommandsFromTexts(s);
    ShapeTidy(Texts(Lex(s, 0).value));
  }

  /** The rewritten program reads as the renamed commands, if and only if the lets bind atoms. */
  lemma {:induction false} RenamedTextReads(s: string, b: Bindings)
    requires Commands(s).Some? && AtomAliases(b)
    ensures Commanding(Commands(s).value)
    ensures Commands(RenamedText(s, b)) == Some(Translated(Commands(s).value, b)) <==> NamesAreAtoms(Commands(s).value)
  {
    hide Commands, NamesAreAtoms, AtomAliases, Translated, RenamedText;
    CommandsAreCommanding(s);
    if NamesAreAtoms(Commands(s).value) {
      RenamedAtomsRead(s, b);
    } else if Commands(RenamedText(s, b)) == Some(Translated(Commands(s).value, b)) {
      ReadNamesAreAtoms(s, RenamedText(s, b), b);
    }
  }

  /** What reads as the renamed commands has atoms for its aliases, so their names are atoms too. */
  lemma {:induction false} ReadNamesAreAtoms(s: string, t: string, b: Bindings)
    requires Commands(s).Some? && Commanding(Commands(s).value) && Commands(t) == Some(Translated(Commands(s).value, b))
    ensures NamesAreAtoms(Commands(s).value)
  {
    hide Forms, After, Alias, Kind, IsAtom;
    var cmds := Commands(s).value;
    forall i | 0 <= i < |cmds| && IsLet(cmds[i]) ensures IsAtom(cmds[i][2]) {
      FormKinds(t, i);
      assert TokensOf(Forms(t).value)[i] == Translated(cmds, b)[i];
      assert Translated(cmds, b)[i][2] == Alias(cmds[i][2]);
      FormKinds(s, i);
      assert TokensOf(Forms(s).value)[i] == cmds[i];
      AtomBehindAlias(cmds[i][2]);
    }
  }

  lemma {:induction false} AtomBehindAlias(x: string)
    requires Kind(Alias(x)) && Kind(x)
    ensures IsAtom(x)
  {
    assert Alias(x)[0] == '$' && |Alias(x)| > 1;
    forall i | 0 <= i < |x| ensures InAtom(x[i]) { assert Alias(x)[|PREFIX| + i] == x[i]; }
  }

  lemma {:induction false} RenamedAtomsRead(s: string, b: Bindings)
    requires Commands(s).Some? && NamesAreAtoms(Commands(s).value) && AtomAliases(b)
    ensures Commanding(Commands(s).value) && Commands(RenamedText(s, b)) == Some(Translated(Commands(s).value, b))
  {
    hide Commands, Lex, FeedTexts, Rewrite, MarksOf, NamesAreAtoms, AtomAliases, Translated, Proper, Texts, NewTexts, RenamedShape;
    CommandsAreCommanding(s);
    TextsOfCommands(s);
    var ts, cmds := Lex(s, 0).value, Commands(s).value;
    var marks := MarksOf(Texts(ts), cmds, b);
    MarksAreProper(ts, cmds, b);
    RewriteReads(s, 0, marks, 0);
    CommandsFromTexts(RenamedText(s, b));
    AllRenamed(ts, cmds, b);
  }

  lemma {:induction false} TextsLength(ts: seq<Token>)
    ensures |Texts(ts)| == |ts|
  {
  }

  lemma {:induction false} AllRenamed(ts: seq<Token>, cmds: seq<Command>, b: Bindings)
    requires Commanding(cmds) && NamesAreAtoms(cmds) && AtomAliases(b) && FeedTexts(Texts(ts)) == Some(Shape(0, [], cmds))
    ensures FeedTexts(NewTexts(ts, MarksOf(Texts(ts), cmds, b))) == Some(Shape(0, [], Translated(cmds, b)))
  {
    hide FeedTexts, MarkAt, Translated, RenamedShape, Within;
    RenamedSoFar(ts, cmds, b, |ts|);
    var ys := NewTexts(ts, MarksOf(Texts(ts), cmds, b));
    assert Texts(ts)[..|ts|] == Texts(ts) && ys[..|ts|] == ys;
    RenamedEnd(cmds, b);
  }

  lemma {:induction false} MarksAreProper(ts: seq<Token>, cmds: seq<Command>, b: Bindings)
    requires Commanding(cmds) && NamesAreAtoms(cmds) && AtomAliases(b) && FeedTexts(Texts(ts)) == Some(Shape(0, [], cmds))
    ensures Proper(ts, MarksOf(Texts(ts), cmds, b)) && |Texts(ts)| == |ts|
  {
    hide FeedTexts, MarkAt, IsAtom, Translated;
    forall k | 0 <= k < |ts| && MarksOf(Texts(ts), cmds, b)[k].Some?
      ensures IsAtom(ts[k].text) && IsAtom(MarksOf(Texts(ts), cmds, b)[k].value)
    {
      MarkedToken(ts, cmds, b, k);
    }
  }
}
