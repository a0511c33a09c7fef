/**
 Freshness of the aliases, and a whole session: parts renamed one after the other
 resolve every reference as the original session did.
 */
module ChurchroadSession {
  import opened Prelude
  import opened EgglogText
  import opened HardboiledReplay
  import opened GlobalNames
  import opened ChurchroadGlobals
  import opened ChurchroadRename

  // ---- The occupied names ------------------------------------------------------------------

  /** Every token of a text; a quote that opens no quotation is passed over. */
  function FindAll(s: string): seq<string>
    decreases |s|
  {
    if s == [] then []
    else if IsSpace(s[0]) || TokenLength(s).None? then FindAll(s[1..])
    else [s[..TokenLength(s).value]] + FindAll(s[TokenLength(s).value..])
  }

  function Occupied(s: string): set<string> {
    set x | x in FindAll(s) :: Stripped(x)
  }

  /** Not an atom: what follows cannot prolong it, unless it is a comment. */
  predicate EndsItself(x: string) { x != [] && !InAtom(x[0]) }

  /** The tokens of a readable text that does not end inside an atom are found in front of any other text. */
  lemma {:induction false} TokensFound(a: string, base: nat, b: string)
    requires Lex(a, base).Some?
    requires var ts := Lex(a, base).value; ts != [] ==> EndsItself(ts[|ts| - 1].text)
    ensures forall t :: t in Lex(a, base).value && !IsComment(t) ==> t.text in FindAll(a + b)
    decreases |a|
  {
    hide Lex, TokenLength, IsSpace, InAtom;
    if a == [] {
      LexNothing(base);
    } else if IsSpace(a[0]) {
      LexSpace(a, base);
      assert (a + b)[1..] == a[1..] + b;
      TokensFound(a[1..], base + 1, b);
    } else {
      FoundToken(a, base, b);
    }
  }

  lemma {:induction false} FoundToken(a: string, base: nat, b: string)
    requires a != [] && !IsSpace(a[0]) && Lex(a, base).Some?
    requires var ts := Lex(a, base).value; ts != [] ==> EndsItself(ts[|ts| - 1].text)
    ensures forall t :: t in Lex(a, base).value && !IsComment(t) ==> t.text in FindAll(a + b)
    decreases |a|, 0
  {
    hide Lex, TokenLength, IsSpace;
    LexHead(a, base);
    var n := TokenLength(a).value;
    var t, rest := Token(a[..n], base, base + n), Lex(a[n..], base + n).value;
    assert t.text[0] == a[0];
    if n < |a| || a[0] in {'(', ')', '"'} {
      TokenStops(a, b);
      assert (a + b)[n..] == a[n..] + b && (a + b)[..n] == a[..n] && (a + b)[0] == a[0];
      TokensFound(a[n..], base + n, b);
    } else {
      assert a[n..] == [];
      LexNothing(base + n);
      LastIsComment(a);
    }
  }

  lemma {:induction false} LastIsComment(a: string)
    requires a != [] && !IsSpace(a[0]) && a[0] !in {'(', ')', '"'} && !InAtom(a[0])
    ensures a[0] == ';'
  {
  }

  /** In front of a closed text nothing of what follows is hidden. */
  lemma {:induction false} FoundAfter(a: string, base: nat, b: string)
    requires Closed(a) && Lex(a, base).Some?
    ensures forall x :: x in FindAll(b) ==> x in FindAll(a + b)
    decreases |a|
  {
    hide Lex, TokenLength, IsSpace;
    if a == [] {
      assert a + b == b;
    } else if IsSpace(a[0]) {
      LexSpace(a, base);
      assert (a + b)[1..] == a[1..] + b && (a + b)[0] == a[0];
      FoundAfter(a[1..], base + 1, b);
    } else {
      LexHead(a, base);
      var n := TokenLength(a).value;
      ClosedTail(a, n);
      ClosedToken(a, n);
      TokenStops(a, b);
      assert (a + b)[n..] == a[n..] + b && (a + b)[0] == a[0];
      FoundAfter(a[n..], base + n, b);
    }
  }

  lemma {:induction false} ClosedToken(a: string, n: nat)
    requires a != [] && !IsSpace(a[0]) && Closed(a) && TokenLength(a) == Some(n)
    ensures n < |a| || a[0] in {'(', ')', '"'}
  {
  }

  /** What follows the first line. */
  function AfterLine(s: string): string { s[CommentLength(s)..] }

  lemma {:induction false} CommentRuns(a: string, b: string)
    requires CommentLength(a) == |a|
    ensures CommentLength(a + b) == |a| + CommentLength(b)
  {
    if a == [] {
      assert a + b == b;
    } else {
      assert (a + b)[1..] == a[1..] + b;
      CommentRuns(a[1..], b);
    }
  }

  /** A text that ends in an open comment hides the first line of what follows, and nothing after it. */
  lemma {:induction false} FoundPastLine(a: string, base: nat, b: string)
    requires Lex(a, base).Some? && !Closed(a)
    requires var ts := Lex(a, base).value; ts != [] ==> EndsItself(ts[|ts| - 1].text)
    ensures forall x :: x in FindAll(AfterLine(b)) ==> x in FindAll(a + b)
    decreases |a|
  {
    hide Lex, TokenLength, IsSpace, AfterLine;
    if a == [] {
      ClosedNothing();
    } else if IsSpace(a[0]) {
      LexSpace(a, base);
      assert (a + b)[1..] == a[1..] + b && (a + b)[0] == a[0];
      FoundPastLine(a[1..], base + 1, b);
    } else {
      PastToken(a, base, b);
    }
  }

  lemma {:induction false} ClosedNothing()
    ensures Closed("")
  {
  }

  lemma {:induction false} OpenTail(a: string, n: nat)
    requires a != [] && !IsSpace(a[0]) && !Closed(a) && TokenLength(a) == Some(n)
    ensures if n == |a| then a[0] !in {'(', ')', '"'} else !Closed(a[n..])
  {
  }

  lemma {:induction false} PastToken(a: string, base: nat, b: string)
    requires a != [] && !IsSpace(a[0]) && Lex(a, base).Some? && !Closed(a)
    requires var ts := Lex(a, base).value; ts != [] ==> EndsItself(ts[|ts| - 1].text)
    ensures forall x :: x in FindAll(AfterLine(b)) ==> x in FindAll(a + b)
    decreases |a|, 0
  {
    hide Lex, TokenLength, IsSpace, AfterLine;
    LexHead(a, base);
    var n := TokenLength(a).value;
    OpenTail(a, n);
    var t, rest := Token(a[..n], base, base + n), Lex(a[n..], base + n).value;
    assert t.text[0] == a[0];
    if n < |a| {
      TokenStops(a, b);
      assert (a + b)[n..] == a[n..] + b && (a + b)[0] == a[0];
      FoundPastLine(a[n..], base + n, b);
    } else {
      assert a[n..] == [];
      LexNothing(base + n);
      LastIsComment(a);
      LastComment(a, b);
    }
  }

  /** The comment at the end takes in the line that follows. */
  lemma {:induction false} LastComment(a: string, b: string)
    requires a != [] && a[0] == ';' && TokenLength(a) == Some(|a|)
    ensures forall x :: x in FindAll(AfterLine(b)) ==> x in FindAll(a + b)
  {
    hide FindAll;
    CommentRuns(a[1..], b);
    assert (a + b)[1..] == a[1..] + b && (a + b)[0] == ';';
    var n := |a| + CommentLength(b);
    assert TokenLength(a + b) == Some(n) && (a + b)[n..] == AfterLine(b);
    SemicolonIsText();
    FindHead(a + b, n);
  }

  lemma {:induction false} FindHead(s: string, n: nat)
    requires s != [] && !IsSpace(s[0]) && TokenLength(s) == Some(n)
    ensures FindAll(s) == [s[..n]] + FindAll(s[n..])
  {
  }

  lemma {:induction false} SemicolonIsText()
    ensures !IsSpace(';')
  {
  }

  // ---- Aliases are fresh ----------------------------------------------------------------------

  lemma {:induction false} AtomsAreTokens(ts: seq<Token>, j: nat)
    requires j < |Atoms(ts)|
    ensures Atoms(ts)[j] in ts && !IsComment(Atoms(ts)[j])
  {
    var n := |ts| - 1;
    if j < |Atoms(ts[..n])| { AtomsAreTokens(ts[..n], j); }
  }

  /** A command's tokens are tokens of its text. */
  lemma {:induction false} CommandToken(s: string, i: nat, j: nat) returns (t: Token)
    requires Commands(s).Some? && i < |Commands(s).value| && j < |Commands(s).value[i]|
    ensures Lex(s, 0).Some? && t in Lex(s, 0).value && t.text == Commands(s).value[i][j] && !IsComment(t)
  {
    hide Lex, FeedAll, Atoms, Forms, Spans;
    TextsOfCommands(s);
    var k, c := FormSpans(s, i);
    SpanIsForm(s, i, k, c);
    SpanBounds(s, i, k, c);
    var atoms := Atoms(Lex(s, 0).value[k..c]);
    assert Texts(atoms)[j] == atoms[j].text;
    AtomsAreTokens(Lex(s, 0).value[k..c], j);
    t := atoms[j];
  }

  /** A readable program does not end inside an atom. */
  lemma {:induction false} ProgramEnd(s: string)
    requires Commands(s).Some?
    ensures Lex(s, 0).Some?
    ensures var ts := Lex(s, 0).value; ts != [] ==> EndsItself(ts[|ts| - 1].text)
  {
    hide Lex, FeedAll;
    var ts := Lex(s, 0).value;
    if ts != [] {
      IdleAfter(ts);
      assert !InAtom(';') && !InAtom(')');
    }
  }

  lemma {:induction false} OwnTokensOccupied(s: string, b: string, i: nat, j: nat)
    requires Commands(s).Some? && i < |Commands(s).value| && j < |Commands(s).value[i]|
    ensures Stripped(Commands(s).value[i][j]) in Occupied(s + b)
  {
    hide Lex, Commands, Stripped, FindAll;
    ProgramEnd(s);
    var t := CommandToken(s, i, j);
    TokensFound(s, 0, b);
  }

  /** The name of a let that was admitted is not occupied. */
  lemma {:induction false} LetIsFree(cmds: seq<Command>, b: Bindings, occupied: set<string>, x: string)
    requires Commanding(cmds) && AllAdmitted(cmds, b, occupied) && Declared(cmds, x)
    ensures Stripped(Alias(x)) !in occupied
  {
    hide After, Stripped, Alias;
    var k :| 0 <= k < |cmds| && IsLet(cmds[k]) && cmds[k][2] == x;
    assert Admitted(cmds[k], After(cmds[..k], b), occupied);
  }

  /** Whatever the other texts are, no alias made in a program is a token of that program. */
  lemma {:induction false} OwnAliasesAreFresh(s: string, rest: string, b: Bindings, x: string, i: nat, j: nat)
    requires Commands(s).Some? && Commanding(Commands(s).value) && AllAdmitted(Commands(s).value, b, Occupied(s + rest))
    requires Declared(Commands(s).value, x) && i < |Commands(s).value| && j < |Commands(s).value[i]|
    ensures Commands(s).value[i][j] != Alias(x)
  {
    hide Commands, Stripped, FindAll, Alias, AllAdmitted, Occupied;
    LetIsFree(Commands(s).value, b, Occupied(s + rest), x);
    OwnTokensOccupied(s, rest, i, j);
  }

  // ---- One call ---------------------------------------------------------------------------------

  method RenameChurchroadGlobals(source: string, query: string, rules: string, aliases: Bindings)
    returns (r: Option<(string, string, Bindings)>)
    ensures Commands(source).None? || Commands(query).None? ==> r.None?
    ensures Commands(source).Some? && Commands(query).Some? ==>
              var cs, cq, occupied := Commands(source).value, Commands(query).value, Occupied(source + query + rules);
              && Commanding(cs) && Commanding(cq)
              && (r.Some? <==> AllAdmitted(cs, aliases, occupied) && AllAdmitted(cq, After(cs, aliases), occupied))
              && (r.Some? ==> r.value == (RenamedText(source, aliases), RenamedText(query, After(cs, aliases)), After(cs + cq, aliases)))
  {
    hide Commands, RenamedText, AllAdmitted, After, Occupied, Commanding;
    var occupied := Occupied(source + query + rules);
    var first := RenameProgram(source, aliases, occupied);
    if first.None? {
      if Commands(query).Some? { CommandsAreCommanding(query); }
      return None;
    }
    var second := RenameProgram(query, first.value.1, occupied);
    if second.None? {
      return None;
    }
    AfterConcat(Commands(source).value, Commands(query).value, aliases);
    r := Some((first.value.0, second.value.0, second.value.1));
  }

  // ---- A session ----------------------------------------------------------------------------------

  /** All commands of a session, in order. */
  function AllCommands(parts: seq<string>): seq<Command> {
    if parts == [] then []
    else
      var last := Commands(parts[|parts| - 1]);
      AllCommands(parts[..|parts| - 1]) + if last.Some? then last.value else []
  }

  /** Part `p` was renamed with the aliases of the parts before it. */
  ghost predicate PartDone(parts: seq<string>, rules: string, chunks: seq<string>, p: nat)
    requires p < |parts| && |chunks| == |parts|
  {
    var before := After(AllCommands(parts[..p]), map[]);
    && Commands(parts[p]).Some? && Commanding(Commands(parts[p]).value)
    && AllAdmitted(Commands(parts[p]).value, before, Occupied(parts[p] + rules))
    && chunks[p] == RenamedText(parts[p], before)
  }

  ghost predicate SessionDone(parts: seq<string>, rules: string, chunks: seq<string>) {
    |chunks| == |parts| && forall p :: 0 <= p < |parts| ==> PartDone(parts, rules, chunks, p)
  }

  lemma {:induction false} NoCommands()
    ensures Commands("") == Some([])
  {
    LexNothing(0);
    assert FeedAll(FRESH, []) == Some(FRESH);
    assert TokensOf([]) == [];
  }

  lemma {:induction false} SessionSnoc(parts: seq<string>, rules: string, chunks: seq<string>, part: string, chunk: string)
    requires SessionDone(parts, rules, chunks)
    requires
      var before := After(AllCommands(parts), map[]);
      && Commands(part).Some? && Commanding(Commands(part).value)
      && AllAdmitted(Commands(part).value, before, Occupied(part + rules)) && chunk == RenamedText(part, before)
    ensures SessionDone(parts + [part], rules, chunks + [chunk])
    ensures After(AllCommands(parts + [part]), map[]) == After(Commands(part).value, After(AllCommands(parts), map[]))
  {
    hide Commands, Commanding, AllAdmitted, RenamedText, After, Occupied;
    var all, outs := parts + [part], chunks + [chunk];
    assert all[..|parts|] == parts;
    AfterConcat(AllCommands(parts), Commands(part).value, map[]);
    forall p | 0 <= p < |all| ensures PartDone(all, rules, outs, p) {
      if p < |parts| {
        assert PartDone(parts, rules, chunks, p);
        assert all[..p] == parts[..p];
      }
    }
  }

  /** The parts of a session in order, threading the aliases. */
  method RenameSession(parts: seq<string>, rules: string) returns (r: Option<(seq<string>, Bindings)>)
    ensures r.Some? ==> SessionDone(parts, rules, r.value.0) && r.value.1 == After(AllCommands(parts), map[])
    ensures r.None? ==> forall chunks :: !SessionDone(parts, rules, chunks)
  {
    hide SessionDone, Commands, Commanding, AllAdmitted, RenamedText, After, Occupied, AllCommands;
    var chunks, aliases: Bindings := [], map[];
    NoCommands();
    SessionStart(rules);
    for i := 0 to |parts|
      invariant SessionDone(parts[..i], rules, chunks) && aliases == After(AllCommands(parts[..i]), map[])
    {
      var part := parts[i];
      var done := RenameChurchroadGlobals(part, "", rules, aliases);
      assert part + "" + rules == part + rules;
      if done.None? {
        NothingAdmitted(if Commands(part).Some? then After(Commands(part).value, aliases) else map[], Occupied(part + rules));
        SessionFails(parts, rules, i);
        return None;
      }
      assert Commands(part).value + [] == Commands(part).value;
      SessionSnoc(parts[..i], rules, chunks, part, done.value.0);
      assert parts[..i + 1] == parts[..i] + [part];
      chunks := chunks + [done.value.0];
      aliases := done.value.2;
    }
    assert parts[..|parts|] == parts;
    r := Some((chunks, aliases));
  }

  lemma {:induction false} NothingAdmitted(b: Bindings, occupied: set<string>)
    ensures Commanding([]) && AllAdmitted([], b, occupied)
  {
  }

  lemma {:induction false} SessionFails(parts: seq<string>, rules: string, i: nat)
    requires i < |parts|
    requires Commands(parts[i]).Some? ==>
               && Commanding(Commands(parts[i]).value)
               && !AllAdmitted(Commands(parts[i]).value, After(AllCommands(parts[..i]), map[]), Occupied(parts[i] + rules))
    ensures forall chunks :: !SessionDone(parts, rules, chunks)
  {
    hide Commands, AllAdmitted, RenamedText, After, Occupied, AllCommands;
    forall chunks ensures !SessionDone(parts, rules, chunks) {
      assert |chunks| == |parts| ==> !PartDone(parts, rules, chunks, i);
    }
  }

  lemma {:induction false} SessionStart(rules: string)
    ensures SessionDone([], rules, []) && After(AllCommands([]), map[]) == map[]
  {
  }

  // ---- Resolution over a session ---------------------------------------------------------------------

  /** A token that could be taken for an alias. */
  predicate Reserved(x: string) {
    |Stripped(x)| >= |PREFIX| - 1 && Stripped(x)[..|PREFIX| - 1] == PREFIX[1..]
  }

  /** Every token of a part that could be taken for an alias occurs in the session's program. */
  ghost predicate Contained(parts: seq<string>, rules: string) {
    forall p :: 0 <= p < |parts| ==>
                  Commands(parts[p]).Some?
                  && forall c, j :: c in Commands(parts[p]).value && 0 <= j < |c| && Reserved(c[j]) ==> c[j] in FindAll(rules)
  }

  /** A let of part `q`, whose comment is open, has an alias that is a token of part `p`, found only in the line it hides. */
  ghost predicate HiddenAt(parts: seq<string>, rules: string, q: nat, l: nat, p: nat, k: nat, j: nat) {
    && q < |parts| && p < |parts| && Commands(parts[q]).Some? && Commands(parts[p]).Some?
    && l < |Commands(parts[q]).value| && IsLet(Commands(parts[q]).value[l]) && !Closed(parts[q])
    && k < |Commands(parts[p]).value| && j < |Commands(parts[p]).value[k]|
    && Commands(parts[p]).value[k][j] == Alias(Commands(parts[q]).value[l][2])
    && Commands(parts[p]).value[k][j] !in FindAll(AfterLine(rules))
  }

  ghost predicate Hidden(parts: seq<string>, rules: string) {
    exists q: nat, l: nat, p: nat, k: nat, j: nat :: HiddenAt(parts, rules, q, l, p, k, j)
  }

  lemma {:induction false} AllCommandsFrom(parts: seq<string>, i: nat) returns (p: nat, k: nat)
    requires i < |AllCommands(parts)|
    ensures p < |parts| && Commands(parts[p]).Some? && k < |Commands(parts[p]).value|
    ensures AllCommands(parts)[i] == Commands(parts[p]).value[k]
  {
    hide Commands;
    var n := |parts| - 1;
    if i < |AllCommands(parts[..n])| {
      p, k := AllCommandsFrom(parts[..n], i);
      assert parts[..n][p] == parts[p];
    } else {
      p, k := n, i - |AllCommands(parts[..n])|;
    }
  }

  lemma {:induction false} SessionCommanding(parts: seq<string>)
    ensures Commanding(AllCommands(parts))
  {
    hide Commands, AllCommands;
    forall i | 0 <= i < |AllCommands(parts)| ensures |AllCommands(parts)[i]| >= 3 && AllCommands(parts)[i][0] == "(" {
      var p, k := AllCommandsFrom(parts, i);
      CommandsAreCommanding(parts[p]);
    }
  }

  lemma {:induction false} InAllCommands(parts: seq<string>, p: nat, k: nat) returns (i: nat)
    requires p < |parts| && Commands(parts[p]).Some? && k < |Commands(parts[p]).value|
    ensures i < |AllCommands(parts)| && AllCommands(parts)[i] == Commands(parts[p]).value[k]
  {
    hide Commands;
    var n := |parts| - 1;
    if p < n {
      assert parts[..n][p] == parts[p];
      i := InAllCommands(parts[..n], p, k);
    } else {
      i := |AllCommands(parts[..n])| + k;
    }
  }

  lemma {:induction false} AliasIsReserved(x: string)
    ensures Reserved(Alias(x))
  {
    assert Alias(x)[1..] == PREFIX[1..] + x && Alias(x)[0] == '$' && Alias(x)[1] == 'c';
    assert Stripped(Alias(x)[1..]) == Alias(x)[1..];
    assert Stripped(Alias(x)) == PREFIX[1..] + x;
  }

  /**
   In a session whose look-alike tokens occur in its program, the aliases are fresh if and only if no alias of a part
   with an open comment is a token found only in the line that comment hides.
   */
  lemma {:induction false} SessionIsFresh(parts: seq<string>, rules: string, chunks: seq<string>)
    requires SessionDone(parts, rules, chunks) && Contained(parts, rules)
    ensures Fresh(AllCommands(parts), After(AllCommands(parts), map[])) <==> !Hidden(parts, rules)
  {
    hide Commands, AllCommands, After, SessionDone, Contained, Alias, HiddenAt, Fresh;
    if Hidden(parts, rules) {
      var q: nat, l: nat, p: nat, k: nat, j: nat :| HiddenAt(parts, rules, q, l, p, k, j);
      HiddenIsStale(parts, rules, q, l, p, k, j);
    } else {
      NotHiddenIsFresh(parts, rules, chunks);
    }
  }

  lemma {:induction false} HiddenIsStale(parts: seq<string>, rules: string, q: nat, l: nat, p: nat, k: nat, j: nat)
    requires HiddenAt(parts, rules, q, l, p, k, j)
    ensures !Fresh(AllCommands(parts), After(AllCommands(parts), map[]))
  {
    hide Commands, AllCommands, After, Alias, FindAll;
    var all := AllCommands(parts);
    AfterBinds(all, map[]);
    var d := InAllCommands(parts, q, l);
    var i := InAllCommands(parts, p, k);
    var g := all[d][2];
    assert Declared(all, g);
    assert all[i][j] == Alias(g) && g in After(all, map[]);
  }

  lemma {:induction false} NotHiddenIsFresh(parts: seq<string>, rules: string, chunks: seq<string>)
    requires SessionDone(parts, rules, chunks) && Contained(parts, rules) && !Hidden(parts, rules)
    ensures Fresh(AllCommands(parts), After(AllCommands(parts), map[]))
  {
    hide Commands, AllCommands, After, SessionDone, Contained, Alias, Hidden;
    var all := AllCommands(parts);
    AfterBinds(all, map[]);
    forall i, j, g | 0 <= i < |all| && 0 <= j < |all[i]| && g in After(all, map[]) ensures all[i][j] != Alias(g) {
      var d :| 0 <= d < |all| && IsLet(all[d]) && all[d][2] == g;
      var q, l := AllCommandsFrom(parts, d);
      var p, k := AllCommandsFrom(parts, i);
      AliasAndToken(parts, rules, chunks, q, l, p, k, j);
    }
  }

  /** The program's tokens that a part's adaptation takes as occupied. */
  lemma {:induction false} SeenPast(part: string, rules: string, x: string)
    requires Commands(part).Some? && x in FindAll(if Closed(part) then rules else AfterLine(rules))
    ensures Stripped(x) in Occupied(part + rules)
  {
    hide Commands, Stripped, FindAll, Closed, AfterLine;
    ProgramEnd(part);
    if Closed(part) {
      FoundAfter(part, 0, rules);
    } else {
      FoundPastLine(part, 0, rules);
    }
  }

  lemma {:induction false} AliasAndToken(parts: seq<string>, rules: string, chunks: seq<string>, q: nat, l: nat, p: nat, k: nat, j: nat)
    requires SessionDone(parts, rules, chunks) && Contained(parts, rules) && !Hidden(parts, rules) && q < |parts| && p < |parts|
    requires Commands(parts[q]).Some? && l < |Commands(parts[q]).value| && IsLet(Commands(parts[q]).value[l])
    requires Commands(parts[p]).Some? && k < |Commands(parts[p]).value| && j < |Commands(parts[p]).value[k]|
    ensures Commands(parts[p]).value[k][j] != Alias(Commands(parts[q]).value[l][2])
  {
    hide Commands, AllCommands, After, Alias, Stripped, FindAll, AllAdmitted, RenamedText, Closed, Occupied, Reserved, AfterLine;
    assert PartDone(parts, rules, chunks, q);
    var x, t := Commands(parts[q]).value[l][2], Commands(parts[p]).value[k][j];
    LetIsFree(Commands(parts[q]).value, After(AllCommands(parts[..q]), map[]), Occupied(parts[q] + rules), x);
    AliasIsReserved(x);
    assert Commands(parts[p]).value[k] in Commands(parts[p]).value;
    assert !HiddenAt(parts, rules, q, l, p, k, j);
    if t in FindAll(if Closed(parts[q]) then rules else AfterLine(rules)) { SeenPast(parts[q], rules, t); }
  }

  /** The renamed parts, read one after the other, are the session's commands renamed together. */
  lemma {:induction false} SessionReads(parts: seq<string>, rules: string, chunks: seq<string>)
    requires SessionDone(parts, rules, chunks) && NamesAreAtoms(AllCommands(parts))
    ensures Commanding(AllCommands(parts)) && AllCommands(chunks) == Translated(AllCommands(parts), map[])
  {
    hide Commands, After, RenamedText, Translated, AllAdmitted, Occupied;
    SessionCommanding(parts);
    if parts == [] {
      TranslatedNothing();
    } else {
      var n := |parts| - 1;
      assert PartDone(parts, rules, chunks, n);
      SessionPrefix(parts, rules, chunks);
      var a, c := AllCommands(parts[..n]), Commands(parts[n]).value;
      NamesSplit(a, c);
      SessionReads(parts[..n], rules, chunks[..n]);
      SessionNames(a);
      RenamedTextReads(parts[n], After(a, map[]));
      TranslatedConcat(a, c, map[]);
    }
  }

  lemma {:induction false} TranslatedNothing()
    ensures Translated([], map[]) == []
  {
  }

  lemma {:induction false} NamesSplit(a: seq<Command>, c: seq<Command>)
    requires NamesAreAtoms(a + c)
    ensures NamesAreAtoms(a) && NamesAreAtoms(c)
  {
    hide IsAtom;
    forall i | 0 <= i < |a| && IsLet(a[i]) ensures IsAtom(a[i][2]) { assert (a + c)[i] == a[i]; }
    forall i | 0 <= i < |c| && IsLet(c[i]) ensures IsAtom(c[i][2]) { assert (a + c)[|a| + i] == c[i]; }
  }

  lemma {:induction false} SessionNames(a: seq<Command>)
    requires NamesAreAtoms(a)
    ensures AtomAliases(After(a, map[]))
  {
    hide After, IsAtom;
    AfterAtoms(a, map[]);
  }

  lemma {:induction false} SessionPrefix(parts: seq<string>, rules: string, chunks: seq<string>)
    requires SessionDone(parts, rules, chunks) && parts != []
    ensures SessionDone(parts[..|parts| - 1], rules, chunks[..|parts| - 1])
  {
    hide Commands, After, RenamedText, AllAdmitted, Occupied, AllCommands;
    var n := |parts| - 1;
    forall p | 0 <= p < n ensures PartDone(parts[..n], rules, chunks[..n], p) {
      assert PartDone(parts, rules, chunks, p);
      assert parts[..n][..p] == parts[..p];
    }
  }

  /**
   A session keeps every reference: each token of the renamed parts, read by name alone, refers to what it referred
   to in the original session, where a bare name is the global that a let before it declared, if one did.
   */
  lemma {:induction false} SessionResolves(parts: seq<string>, rules: string, chunks: seq<string>, i: nat, j: nat)
    requires SessionDone(parts, rules, chunks) && Contained(parts, rules) && !Hidden(parts, rules) && NamesAreAtoms(AllCommands(parts))
    requires i < |AllCommands(parts)| && j < |AllCommands(parts)[i]|
    ensures Commanding(AllCommands(parts)) && |AllCommands(chunks)| == |AllCommands(parts)|
    ensures |AllCommands(chunks)[i]| == |AllCommands(parts)[i]|
    ensures AdaptedTarget(AllCommands(chunks)[i][j], After(AllCommands(parts), map[])) == OriginalTarget(AllCommands(parts), i, j, map[])
  {
    hide SessionDone, Contained, Hidden, NamesAreAtoms, AllCommands, After, AdaptedTarget, OriginalTarget, Fresh, Renamed;
    SessionReads(parts, rules, chunks);
    SessionIsFresh(parts, rules, chunks);
    ResolutionPreserved(AllCommands(parts), map[], i, j);
  }

  /**
   Token by token: a let's name and every reference to a name that an earlier let of the session binds become the alias,
   and every other token of the renamed parts is the original one.
   */
  lemma {:induction false} SessionTokens(parts: seq<string>, rules: string, chunks: seq<string>, i: nat, j: nat)
    requires SessionDone(parts, rules, chunks) && NamesAreAtoms(AllCommands(parts))
    requires i < |AllCommands(parts)| && j < |AllCommands(parts)[i]|
    ensures Commanding(AllCommands(parts)) && |AllCommands(chunks)| == |AllCommands(parts)|
    ensures |AllCommands(chunks)[i]| == |AllCommands(parts)[i]|
    ensures
      var cmds := AllCommands(parts);
      var c, x := cmds[i], cmds[i][j];
      AllCommands(chunks)[i][j] ==
      if (c[1] == "let" && j == 2)
         || (Refers(c, j) && exists k :: 0 <= k < i && |cmds[k]| >= 3 && cmds[k][1] == "let" && cmds[k][2] == x)
      then "$churchroad-global-" + x else x
  {
    hide SessionDone, NamesAreAtoms, AllCommands, Refers, Renamed;
    SessionReads(parts, rules, chunks);
    ReferencesBecomeAliases(AllCommands(parts), map[], i, j);
  }
}
