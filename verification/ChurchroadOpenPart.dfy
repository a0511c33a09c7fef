/**
 A session in which an alias is not fresh.  Its second part ends in an open
 comment, which hides the first line of the session's program; the alias made
 there is already a token of the first part, which then refers to the wrong thing.
 */
module ChurchroadOpenPart {
  import opened Prelude
  import opened EgglogText
  import opened HardboiledReplay
  import opened TokenEdits
  import opened GlobalNames
  import opened ChurchroadGlobals
  import opened ChurchroadRename
  import opened ChurchroadSession

  const TAKEN := "$churchroad-global-x"
  const USE := "(f " + TAKEN + ")"
  const BIND := "(let x 1)"
  const OPENED := BIND + " ;"
  const PARTS := [USE, OPENED]
  const PROGRAM := USE + "\n" + OPENED
  const USING: Command := ["(", "f", TAKEN, ")"]
  const BINDING: Command := ["(", "let", "x", "1", ")"]

  // ---- Reading the two parts -----------------------------------------------------------------

  lemma {:induction false} Atomic()
    ensures IsAtom("f") && IsAtom(TAKEN) && IsAtom("let") && IsAtom("x") && IsAtom("1")
    ensures TAKEN == Alias("x")
  {
    AliasIsAtom("x");
    assert TAKEN == PREFIX + "x";
  }

  /** An atom, a blank and what follows. */
  lemma {:induction false} LexWord(a: string, rest: string, base: nat, ts: seq<Token>)
    requires IsAtom(a) && Lex(rest, base + |a| + 1) == Some(ts)
    ensures Lex(a + (" " + rest), base) == Some([Token(a, base, base + |a|)] + ts)
  {
    hide Lex, IsAtom;
    LexBlank(' ', rest, base + |a|);
    LexAtom(a, " " + rest, base, ts);
  }

  /** The last atom and the closing parenthesis. */
  lemma {:induction false} LexLast(a: string, base: nat)
    requires IsAtom(a)
    ensures Lex(a + ")", base) == Some([Token(a, base, base + |a|), Token(")", base + |a|, base + |a| + 1)])
  {
    hide Lex, IsAtom;
    LexNothing(base + |a| + 1);
    LexParen(')', "", base + |a|, []);
    assert ")" + "" == ")";
    var t := Token(")", base + |a|, base + |a| + 1);
    assert [t] + [] == [t];
    LexAtom(a, ")", base, [t]);
    assert [Token(a, base, base + |a|)] + [t] == [Token(a, base, base + |a|), t];
  }

  lemma {:induction false} LexUse(base: nat)
    ensures Lex(USE, base).Some? && Texts(Lex(USE, base).value) == USING
  {
    hide Lex, TAKEN, IsAtom;
    Atomic();
    LexLast(TAKEN, base + 3);
    var t2 := Lex(TAKEN + ")", base + 3).value;
    LexWord("f", TAKEN + ")", base + 1, t2);
    var t1 := [Token("f", base + 1, base + 2)] + t2;
    LexParen('(', "f" + (" " + (TAKEN + ")")), base, t1);
    assert USE == "(" + ("f" + (" " + (TAKEN + ")")));
    assert Texts([Token("(", base, base + 1)] + t1) == USING;
  }

  lemma {:induction false} LexBind(base: nat)
    ensures Lex(BIND, base).Some? && Texts(Lex(BIND, base).value) == BINDING
  {
    hide Lex, IsAtom;
    Atomic();
    LexLast("1", base + 7);
    var t3 := Lex("1" + ")", base + 7).value;
    LexWord("x", "1" + ")", base + 5, t3);
    var t2 := [Token("x", base + 5, base + 6)] + t3;
    LexWord("let", "x" + (" " + ("1" + ")")), base + 1, t2);
    var t1 := [Token("let", base + 1, base + 4)] + t2;
    LexParen('(', "let" + (" " + ("x" + (" " + ("1" + ")")))), base, t1);
    assert BIND == "(" + ("let" + (" " + ("x" + (" " + ("1" + ")")))));
    assert Texts([Token("(", base, base + 1)] + t1) == BINDING;
  }

  /** A text whose last token ends itself is closed. */
  lemma {:induction false} EndsClosed(s: string, base: nat)
    requires Lex(s, base).Some?
    requires var ts := Lex(s, base).value; ts != [] && ts[|ts| - 1].text == ")"
    ensures Closed(s)
    decreases |s|
  {
    hide Lex, TokenLength, IsSpace;
    if s == [] {
      LexNothing(base);
    } else if IsSpace(s[0]) {
      LexSpace(s, base);
      EndsClosed(s[1..], base + 1);
    } else {
      LexHead(s, base);
      var n := TokenLength(s).value;
      var rest := Lex(s[n..], base + n).value;
      if rest == [] {
        LastAlone(s, n, base);
      } else {
        EndsClosed(s[n..], base + n);
        assert n < |s| by { if n == |s| { LexNothing(base + n); } }
        ClosedCons(s, n);
      }
    }
  }

  lemma {:induction false} ClosedCons(s: string, n: nat)
    requires s != [] && !IsSpace(s[0]) && TokenLength(s) == Some(n) && Closed(s[n..])
    requires n == |s| ==> s[0] in {'(', ')', '"'}
    ensures Closed(s)
  {
  }

  lemma {:induction false} LastAlone(s: string, n: nat, base: nat)
    requires s != [] && !IsSpace(s[0]) && TokenLength(s) == Some(n) && s[..n] == ")" && Lex(s[n..], base + n) == Some([])
    ensures Closed(s)
  {
    hide Lex, TokenLength;
    assert s[..n][0] == s[0];
    NoTokensClosed(s[n..], base + n);
    ClosedCons(s, n);
  }

  lemma {:induction false} NoTokensClosed(s: string, base: nat)
    requires Lex(s, base) == Some([])
    ensures Closed(s)
    decreases |s|
  {
    if s != [] && IsSpace(s[0]) { NoTokensClosed(s[1..], base + 1); }
  }

  lemma {:induction false} PartsClosed()
    ensures Closed(USE) && Closed(BIND)
  {
    hide Lex, Closed, USE, BIND, USING, BINDING;
    LexUse(0);
    LexBind(0);
    LastText(Lex(USE, 0).value, USING);
    LastText(Lex(BIND, 0).value, BINDING);
    EndsClosed(USE, 0);
    EndsClosed(BIND, 0);
  }

  lemma {:induction false} LastText(ts: seq<Token>, c: Command)
    requires Texts(ts) == c && c in {USING, BINDING}
    ensures ts != [] && ts[|ts| - 1].text == ")"
  {
    assert |Texts(ts)| == |ts|;
    assert ts[|ts| - 1].text == Texts(ts)[|ts| - 1];
  }

  /** Reading a list of tokens as one command. */
  lemma {:induction false} ReadOne(c: Command)
    requires |c| >= 3 && c[0] == "(" && c[|c| - 1] == ")"
    requires forall i :: 0 < i < |c| - 1 ==> IsAtom(c[i])
    ensures FeedTexts(c) == Some(Shape(0, [], [c]))
  {
    hide FeedText, IsAtom;
    var n := |c| - 1;
    ReadSome(c, n);
    FeedLast(Shape(1, c[..n], []));
    assert c[..n] + [")"] == c && [] + [c] == [c];
  }

  lemma {:induction false} FeedLast(r: Shape)
    requires r.depth == 1 && |r.tokens| >= 2
    ensures FeedText(r, ")") == Some(Shape(0, [], r.commands + [r.tokens + [")"]]))
  {
  }

  lemma {:induction false} FeedMore(r: Shape, x: string)
    requires r.depth > 0 && IsAtom(x)
    ensures FeedText(r, x) == Some(r.(tokens := r.tokens + [x]))
  {
    AtomIsNoMark(x);
  }

  lemma {:induction false} ReadSome(c: Command, n: nat)
    requires 0 < n < |c| && c[0] == "(" && forall i :: 0 < i < n ==> IsAtom(c[i])
    ensures FeedTexts(c[..n]) == Some(Shape(1, c[..n], []))
  {
    hide IsAtom, FeedText;
    if n == 1 {
      assert c[..1][..0] == [] && c[..1] == ["("];
      FeedFirst();
    } else {
      ReadSome(c, n - 1);
      assert c[..n][..n - 1] == c[..n - 1] && c[..n] == c[..n - 1] + [c[n - 1]];
      FeedMore(Shape(1, c[..n - 1], []), c[n - 1]);
    }
  }

  lemma {:induction false} FeedFirst()
    ensures FeedText(BLANK, "(") == Some(Shape(1, ["("], []))
  {
  }

  lemma {:induction false} CommandsOfUse()
    ensures Commands(USE) == Some([USING])
  {
    hide Lex, FeedTexts, USE, TAKEN, IsAtom;
    LexUse(0);
    Atomic();
    ReadOne(USING);
    CommandsFromTexts(USE);
  }

  lemma {:induction false} CommandsOfOpened()
    ensures Commands(OPENED) == Some([BINDING])
  {
    hide Lex, FeedTexts, BIND, IsAtom, Closed;
    LexBind(0);
    Atomic();
    ReadOne(BINDING);
    PartsClosed();
    LexOpen(|BIND|);
    LexConcat(BIND, " ;", 0);
    CommandsFromTexts(OPENED);
    var ts := Lex(OPENED, 0).value;
    assert Texts(ts) == BINDING + [";"];
    FeedComment(BINDING);
  }

  lemma {:induction false} LexOpen(base: nat)
    ensures Lex(" ;", base).Some? && Texts(Lex(" ;", base).value) == [";"]
  {
    assert " ;"[1..] == ";" && ";"[1..] == "" && ";"[..1] == ";";
    LexSpace(" ;", base);
    LexNothing(base + 2);
    LexCons(";", base + 1, 1, []);
  }

  lemma {:induction false} FeedComment(xs: seq<string>)
    requires FeedTexts(xs).Some?
    ensures FeedTexts(xs + [";"]) == FeedTexts(xs)
  {
    assert (xs + [";"])[..|xs|] == xs;
  }

  /** The second part is open. */
  lemma {:induction false} OpenedIsOpen()
    ensures !Closed(OPENED)
  {
    hide BIND, Lex;
    PartsClosed();
    LexBind(0);
    StaysOpen(BIND, 0);
  }

  lemma {:induction false} StaysOpen(a: string, base: nat)
    requires Closed(a) && Lex(a, base).Some?
    ensures !Closed(a + " ;")
    decreases |a|
  {
    hide Lex, TokenLength, IsSpace;
    if a == [] {
      OpenAlone();
      assert a + " ;" == " ;";
    } else if IsSpace(a[0]) {
      LexSpace(a, base);
      assert (a + " ;")[1..] == a[1..] + " ;" && (a + " ;")[0] == a[0];
      StaysOpen(a[1..], base + 1);
    } else {
      LexHead(a, base);
      var n := TokenLength(a).value;
      ClosedTail(a, n);
      ClosedToken(a, n);
      TokenStops(a, " ;");
      assert (a + " ;")[n..] == a[n..] + " ;" && (a + " ;")[0] == a[0];
      StaysOpen(a[n..], base + n);
      if Closed(a + " ;") { ClosedTail(a + " ;", n); }
    }
  }

  lemma {:induction false} OpenAlone()
    ensures !Closed(" ;")
  {
    assert " ;"[1..] == ";" && ";"[1..] == "";
  }

  // ---- What is occupied ---------------------------------------------------------------------------

  lemma {:induction false} FindConcat(a: string, base: nat, b: string)
    requires Closed(a) && Lex(a, base).Some?
    ensures FindAll(a + b) == Texts(Lex(a, base).value) + FindAll(b)
    decreases |a|
  {
    hide Lex, TokenLength, IsSpace;
    if a == [] {
      LexNothing(base);
      assert a + b == b && Texts([]) + FindAll(b) == FindAll(b);
    } else if IsSpace(a[0]) {
      LexSpace(a, base);
      assert (a + b)[1..] == a[1..] + b && (a + b)[0] == a[0];
      FindConcat(a[1..], base + 1, b);
    } else {
      LexHead(a, base);
      var n := TokenLength(a).value;
      ClosedTail(a, n);
      ClosedToken(a, n);
      TokenStops(a, b);
      assert (a + b)[n..] == a[n..] + b && (a + b)[..n] == a[..n] && (a + b)[0] == a[0];
      FindConcat(a[n..], base + n, b);
      var t, rest := Token(a[..n], base, base + n), Lex(a[n..], base + n).value;
      TextsCons(t, rest);
      assert [a[..n]] + (Texts(rest) + FindAll(b)) == ([a[..n]] + Texts(rest)) + FindAll(b);
    }
  }

  lemma {:induction false} LineRuns(s: string, rest: string)
    requires '\n' !in s && (rest == [] || rest[0] == '\n')
    ensures CommentLength(s + rest) == |s|
  {
    if s == [] {
      assert s + rest == rest;
    } else {
      assert (s + rest)[1..] == s[1..] + rest && (s + rest)[0] == s[0];
      LineRuns(s[1..], rest);
    }
  }

  /** A comment in front of a line takes it in. */
  lemma {:induction false} FindLine(note: string, rest: string)
    requires '\n' !in note && (rest == [] || rest[0] == '\n')
    ensures FindAll(" ;" + note + rest) == [";" + note] + FindAll(rest)
  {
    hide FindAll;
    var s := ";" + note + rest;
    assert " ;" + note + rest == " " + s && (" " + s)[1..] == s;
    FindSpace(" " + s);
    LineRuns(note, rest);
    SemicolonIsText();
    assert s[1..] == note + rest && s[0] == ';';
    assert TokenLength(s) == Some(1 + |note|);
    FindHead(s, 1 + |note|);
    assert s[..1 + |note|] == ";" + note && s[1 + |note|..] == rest;
  }

  lemma {:induction false} FindSpace(s: string)
    requires s != [] && IsSpace(s[0])
    ensures FindAll(s) == FindAll(s[1..])
  {
  }

  lemma {:induction false} FindNothing()
    ensures FindAll("") == [] && FindAll("\n") == []
  {
    assert "\n"[1..] == "";
  }

  lemma {:induction false} FindOpened()
    ensures FindAll(OPENED) == BINDING + [";"] && FindAll("\n" + OPENED) == BINDING + [";"]
  {
    hide FindAll, BIND, Lex, Closed;
    PartsClosed();
    LexBind(0);
    FindConcat(BIND, 0, " ;");
    FindNothing();
    FindLine("", "");
    assert " ;" + "" + "" == " ;" && ";" + "" == ";" && [";"] + [] == [";"];
    FindSpace("\n" + OPENED);
    assert ("\n" + OPENED)[1..] == OPENED;
  }

  lemma {:induction false} NoNewline()
    ensures '\n' !in USE
  {
    assert '\n' !in "(f " && '\n' !in TAKEN && '\n' !in ")";
  }

  /** What the second part takes as occupied: the program's first line is one comment. */
  lemma {:induction false} FindSecond()
    ensures FindAll(OPENED + PROGRAM) == BINDING + ([";" + USE] + (BINDING + [";"]))
  {
    hide FindAll, BIND, USE, Lex, Closed;
    PartsClosed();
    LexBind(0);
    NoNewline();
    FindOpened();
    FindLine(USE, "\n" + OPENED);
    assert OPENED + PROGRAM == BIND + (" ;" + USE + ("\n" + OPENED));
    FindConcat(BIND, 0, " ;" + USE + ("\n" + OPENED));
  }

  lemma {:induction false} NotOccupied()
    ensures Stripped(Alias("x")) !in Occupied(OPENED + PROGRAM)
  {
    hide FindAll, USE, BINDING;
    FindSecond();
    StrippedAlias();
    forall t | t in FindAll(OPENED + PROGRAM) ensures Stripped(t) != Stripped(Alias("x")) {
      if t == ";" + USE {
        CommentNotStripped(USE);
      } else if t == ";" {
        CommentNotStripped("");
        assert ";" + "" == ";";
      } else {
        assert t in BINDING;
        BindingTokens(t);
      }
    }
  }

  lemma {:induction false} StrippedAlias()
    ensures Stripped(Alias("x")) == "churchroad-global-x"
  {
    assert Alias("x") == "$" + "churchroad-global-x";
    assert ("$" + "churchroad-global-x")[1..] == "churchroad-global-x";
    assert "churchroad-global-x"[0] == 'c';
  }

  lemma {:induction false} CommentNotStripped(s: string)
    ensures Stripped(";" + s) == ";" + s && (";" + s)[0] == ';' && ";" + s != "churchroad-global-x"
  {
    assert "churchroad-global-x"[0] == 'c';
  }

  lemma {:induction false} BindingTokens(t: string)
    requires t in BINDING
    ensures Stripped(t) == t && |t| < 4 && !Reserved(t)
  {
    assert "("[0] != '$' && "let"[0] != '$' && "x"[0] != '$' && "1"[0] != '$' && ")"[0] != '$';
    assert |PREFIX| > 5;
  }

  // ---- The session ----------------------------------------------------------------------------------

  lemma {:induction false} PlainAdmitted(occupied: set<string>)
    ensures Admitted(USING, map[], occupied)
  {
  }

  lemma {:induction false} BindAdmitted(occupied: set<string>)
    requires Stripped(Alias("x")) !in occupied
    ensures Admitted(BINDING, map[], occupied) && IsLet(BINDING)
  {
    hide Stripped, Alias;
  }

  lemma {:induction false} OneAdmitted(c: Command, occupied: set<string>)
    requires |c| >= 3 && c[0] == "(" && Admitted(c, map[], occupied)
    ensures Commanding([c]) && AllAdmitted([c], map[], occupied)
  {
    hide Admitted;
    assert [c][..0] == [] && After([], map[]) == map[];
  }

  lemma {:induction false} FirstCommands()
    ensures AllCommands([]) == [] && AllCommands([USE]) == [USING] && AllCommands(PARTS) == [USING, BINDING]
    ensures After([USING], map[]) == map[] && After([USING, BINDING], map[]) == map["x" := Alias("x")]
  {
    hide Commands, USE, OPENED, Alias;
    CommandsOfUse();
    CommandsOfOpened();
    assert [USE][..0] == [] && PARTS[..1] == [USE];
    assert [] + [USING] == [USING] && [USING] + [BINDING] == [USING, BINDING];
    assert [USING][..0] == [] && [USING, BINDING][..1] == [USING];
    assert AllCommands([USE]) == AllCommands([]) + [USING];
    assert After([USING], map[]) == After([], map[]);
  }

  function Chunks(): seq<string>
    requires Commands(USE).Some? && Commands(OPENED).Some?
  {
    [RenamedText(USE, map[]), RenamedText(OPENED, map[])]
  }

  lemma {:induction false} PartZero(chunks: seq<string>)
    requires |chunks| == 2 && Commands(USE).Some? && chunks[0] == RenamedText(USE, map[])
    ensures PartDone(PARTS, PROGRAM, chunks, 0)
  {
    hide Commands, USE, OPENED, Occupied, RenamedText, Admitted, USING;
    CommandsOfUse();
    FirstCommands();
    assert PARTS[..0] == [] && After([], map[]) == map[];
    PlainAdmitted(Occupied(USE + PROGRAM));
    UsingShape();
    OneAdmitted(USING, Occupied(USE + PROGRAM));
  }

  lemma {:induction false} UsingShape()
    ensures |USING| >= 3 && USING[0] == "("
  {
  }

  lemma {:induction false} PartOne(chunks: seq<string>)
    requires |chunks| == 2 && Commands(OPENED).Some? && chunks[1] == RenamedText(OPENED, map[])
    ensures PartDone(PARTS, PROGRAM, chunks, 1)
  {
    hide Commands, USE, OPENED, Occupied, RenamedText, Admitted, USING, Alias, Stripped;
    CommandsOfOpened();
    FirstCommands();
    assert PARTS[..1] == [USE];
    NotOccupied();
    BindAdmitted(Occupied(OPENED + PROGRAM));
    OneAdmitted(BINDING, Occupied(OPENED + PROGRAM));
  }

  lemma {:induction false} LookAlikes()
    ensures Contained(PARTS, PROGRAM)
  {
    hide Commands, USE, OPENED, FindAll, Reserved, USING, BINDING, Lex, Closed;
    CommandsOfUse();
    CommandsOfOpened();
    PartsClosed();
    LexUse(0);
    FindConcat(USE, 0, "\n" + OPENED);
    assert PROGRAM == USE + ("\n" + OPENED);
    forall c, j | c in [USING] && 0 <= j < |c| && Reserved(c[j]) ensures c[j] in FindAll(PROGRAM) { assert c[j] in USING; }
    forall t | t in BINDING ensures !Reserved(t) { BindingTokens(t); }
  }

  /**
   The session is adapted without complaint, all its look-alike tokens occur in its program, and yet an alias is not
   fresh: the first part's token is taken for the global of the second.
   */
  lemma {:induction false} OpenPartIsStale()
    ensures Commands(USE).Some? && Commands(OPENED).Some? && AllCommands(PARTS) == [USING, BINDING]
    ensures SessionDone(PARTS, PROGRAM, Chunks()) && Contained(PARTS, PROGRAM)
    ensures !Closed(OPENED) && Hidden(PARTS, PROGRAM)
    ensures !Fresh([USING, BINDING], After([USING, BINDING], map[]))
    ensures Commanding([USING, BINDING])
    ensures
      var cmds := [USING, BINDING];
      AdaptedTarget(Translated(cmds, map[])[0][2], After(cmds, map[])) == Global("x")
      && OriginalTarget(cmds, 0, 2, map[]) == Plain(TAKEN)
  {
    hide Commands, RenamedText, Occupied, Closed, Fresh, Hidden, USE, OPENED, Contained, PartDone, AdaptedTarget, OriginalTarget,
         Translated, USING, BINDING;
    CommandsOfUse();
    CommandsOfOpened();
    FirstCommands();
    PartZero(Chunks());
    PartOne(Chunks());
    LookAlikes();
    OpenedIsOpen();
    UseIsStale();
    SessionIsFresh(PARTS, PROGRAM, Chunks());
    UseResolves();
  }

  lemma {:induction false} UseIsStale()
    ensures !Fresh([USING, BINDING], After([USING, BINDING], map[]))
  {
    hide Alias, After;
    FirstCommands();
    Atomic();
    var cmds := [USING, BINDING];
    assert cmds[0][2] == Alias("x") && "x" in After(cmds, map[]);
  }

  lemma {:induction false} UseResolves()
    ensures Commanding([USING, BINDING])
    ensures
      var cmds := [USING, BINDING];
      AdaptedTarget(Translated(cmds, map[])[0][2], After(cmds, map[])) == Global("x")
      && OriginalTarget(cmds, 0, 2, map[]) == Plain(TAKEN)
  {
    hide Alias, AdaptedTarget, TAKEN, Expression;
    FirstCommands();
    Atomic();
    var cmds := [USING, BINDING];
    assert cmds[..0] == [] && After([], map[]) == map[];
    assert Mark(USING, 2, map[]).None?;
    assert Translated(cmds, map[])[0][2] == TAKEN;
    AliasTarget("x", After(cmds, map[]));
  }
}
