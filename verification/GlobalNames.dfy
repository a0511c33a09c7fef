/**
 Global renaming on commands: which atoms are references to a global declared
 earlier, and why naming each such reference by a fresh alias keeps every
 reference's target without looking at declaration order again.
 */
module GlobalNames {
  import opened Prelude
  import opened HardboiledReplay

  type Bindings = map<string, string>

  const PREFIX := "$churchroad-global-"
  const SCOPES := {"push", "pop", "include"}
  const DECLARATIONS := {"sort", "datatype", "function", "constructor", "relation", "ruleset", "run", "run-schedule"}
  const OPTIONS := [":default", ":merge", ":until"]

  function Alias(x: string): string { PREFIX + x }

  predicate IsLet(c: Command) { |c| >= 3 && c[1] == "let" }

  predicate IsParen(x: string) { x == "(" || x == ")" }

  /** The nesting depth in front of a token. */
  function Depth(c: Command, j: nat): int
    requires j <= |c|
  {
    if j == 0 then 0
    else Depth(c, j - 1) + if c[j - 1] == "(" then 1 else if c[j - 1] == ")" then -1 else 0
  }

  /** An attribute keyword of the command itself. */
  predicate Keyword(c: Command, j: nat)
    requires j < |c|
  {
    !IsParen(c[j]) && Depth(c, j) == 1 && c[j] != [] && c[j][0] == ':'
  }

  predicate AfterKeyword(c: Command, j: nat)
    requires j <= |c|
  {
    exists i :: 0 <= i < j && Keyword(c, i)
  }

  /** A position that holds an expression variable: no head, no declaration, no attribute, not the name a let binds. */
  predicate Expression(c: Command, j: nat)
    requires j < |c| && |c| >= 3
  {
    && c[1] !in DECLARATIONS
    && j > 0 && !IsParen(c[j]) && c[j - 1] != "("
    && !Keyword(c, j) && !AfterKeyword(c, j)
    && !(IsLet(c) && j == 2)
  }

  /** What a token is replaced by, if at all. */
  function Mark(c: Command, j: nat, b: Bindings): Option<string>
    requires j < |c| && |c| >= 3
  {
    if IsLet(c) && j == 2 then Some(Alias(c[2]))
    else if Expression(c, j) && c[j] in b then Some(b[c[j]])
    else None
  }

  function Renamed(c: Command, b: Bindings): (r: Command)
    requires |c| >= 3
    ensures |r| == |c|
  {
    seq(|c|, j requires 0 <= j < |c| => var m := Mark(c, j, b); if m.Some? then m.value else c[j])
  }

  /** The bindings after some commands. */
  function After(cmds: seq<Command>, b: Bindings): Bindings {
    if cmds == [] then b
    else
      var c := cmds[|cmds| - 1];
      var before := After(cmds[..|cmds| - 1], b);
      if IsLet(c) then before[c[2] := Alias(c[2])] else before
  }

  predicate Commanding(cmds: seq<Command>) {
    forall i :: 0 <= i < |cmds| ==> |cmds[i]| >= 3 && cmds[i][0] == "("
  }

  /** Every command renamed with the bindings of the commands before it. */
  function Translated(cmds: seq<Command>, b: Bindings): (r: seq<Command>)
    requires Commanding(cmds)
    ensures |r| == |cmds|
  {
    seq(|cmds|, i requires 0 <= i < |cmds| => Renamed(cmds[i], After(cmds[..i], b)))
  }

  function Stripped(x: string): string {
    if x != [] && x[0] == '$' then Stripped(x[1..]) else x
  }

  /** Stripping takes off exactly the leading dollar signs. */
  lemma {:induction false} StrippedMeans(x: string)
    ensures |Stripped(x)| <= |x| && x[|x| - |Stripped(x)|..] == Stripped(x)
    ensures forall i :: 0 <= i < |x| - |Stripped(x)| ==> x[i] == '$'
    ensures Stripped(x) == [] || Stripped(x)[0] != '$'
  {
    if x != [] && x[0] == '$' {
      StrippedMeans(x[1..]);
      forall i | 0 <= i < |x| - |Stripped(x)| ensures x[i] == '$' { if i > 0 { assert x[i] == x[1..][i - 1]; } }
    }
  }

  predicate NestedLet(c: Command) {
    exists i :: 2 <= i < |c| && c[i] == "let" && c[i - 1] == "("
  }

  /** The commands the adaptation accepts under some bindings. */
  predicate Admitted(c: Command, b: Bindings, occupied: set<string>)
    requires |c| >= 3
  {
    && c[1] !in SCOPES && !NestedLet(c)
    && (IsLet(c) ==> c[2] !in b && Stripped(Alias(c[2])) !in occupied)
    && (c[1] in DECLARATIONS && b != map[] ==> forall o :: o in OPTIONS ==> o !in c)
  }

  predicate AllAdmitted(cmds: seq<Command>, b: Bindings, occupied: set<string>)
    requires Commanding(cmds)
  {
    forall i :: 0 <= i < |cmds| ==> Admitted(cmds[i], After(cmds[..i], b), occupied)
  }

  // ---- What is bound where ---------------------------------------------------------------

  ghost predicate Declared(cmds: seq<Command>, x: string) {
    exists k :: 0 <= k < |cmds| && IsLet(cmds[k]) && cmds[k][2] == x
  }

  ghost predicate Aliases(b: Bindings) {
    forall x :: x in b ==> b[x] == Alias(x)
  }

  /** A name is bound exactly when it was, or a let among the commands declares it; and always to its alias. */
  lemma {:induction false} AfterBinds(cmds: seq<Command>, b: Bindings)
    requires Aliases(b)
    ensures forall x :: x in After(cmds, b) <==> x in b || Declared(cmds, x)
    ensures Aliases(After(cmds, b))
  {
    if cmds != [] {
      var n := |cmds| - 1;
      AfterBinds(cmds[..n], b);
      forall x ensures x in After(cmds, b) <==> x in b || Declared(cmds, x) {
        DeclaredSnoc(cmds, x);
      }
    }
  }

  lemma {:induction false} DeclaredSnoc(cmds: seq<Command>, x: string)
    requires cmds != []
    ensures
      var n := |cmds| - 1;
      Declared(cmds, x) <==> Declared(cmds[..n], x) || (IsLet(cmds[n]) && cmds[n][2] == x)
  {
    var n := |cmds| - 1;
    if Declared(cmds[..n], x) {
      var k :| 0 <= k < n && IsLet(cmds[..n][k]) && cmds[..n][k][2] == x;
      assert cmds[k] == cmds[..n][k];
    }
    if Declared(cmds, x) {
      var k :| 0 <= k < |cmds| && IsLet(cmds[k]) && cmds[k][2] == x;
      if k < n { assert cmds[..n][k] == cmds[k]; }
    }
  }

  lemma {:induction false} AfterConcat(a: seq<Command>, c: seq<Command>, b: Bindings)
    ensures After(a + c, b) == After(c, After(a, b))
  {
    if c == [] {
      assert a + c == a;
    } else {
      var n := |c| - 1;
      AfterConcat(a, c[..n], b);
      assert (a + c)[..|a| + n] == a + c[..n];
    }
  }

  /** Renaming source parts one after the other, threading the bindings, is renaming them together. */
  lemma {:induction false} TranslatedConcat(a: seq<Command>, c: seq<Command>, b: Bindings)
    requires Commanding(a) && Commanding(c)
    ensures Commanding(a + c) && Translated(a + c, b) == Translated(a, b) + Translated(c, After(a, b))
  {
    hide Renamed, After;
    assert forall i :: 0 <= i < |a| ==> (a + c)[..i] == a[..i];
    forall i | 0 <= i < |c| ensures After((a + c)[..|a| + i], b) == After(c[..i], After(a, b)) {
      assert (a + c)[..|a| + i] == a + c[..i];
      AfterConcat(a, c[..i], b);
    }
    forall i | 0 <= i < |a + c| ensures |(a + c)[i]| >= 3 && (a + c)[i][0] == "(" {
      assert (a + c)[i] == if i < |a| then a[i] else c[i - |a|];
    }
    forall i | 0 <= i < |a + c| ensures Translated(a + c, b)[i] == (Translated(a, b) + Translated(c, After(a, b)))[i] {
      if i >= |a| { assert (a + c)[..|a| + (i - |a|)] == (a + c)[..i]; }
    }
  }

  // ---- What a reference is -------------------------------------------------------------------

  /** Parentheses open in front of a token. */
  function Nesting(c: Command, j: nat): int
    requires j <= |c|
  {
    multiset(c[..j])["("] as int - multiset(c[..j])[")"] as int
  }

  /** An attribute keyword of the command itself stands at `k`. */
  ghost predicate AttributeAt(c: Command, k: nat)
    requires k < |c|
  {
    c[k] != [] && c[k][0] == ':' && Nesting(c, k) == 1
  }

  /**
   A bare name that the engine resolves: in a command that declares and schedules nothing, not the head of a list, not
   an attribute or after one, and not the name a let binds.
   */
  ghost predicate Refers(c: Command, j: nat)
    requires j < |c| && |c| >= 3
  {
    && c[1] != "sort" && c[1] != "datatype" && c[1] != "function" && c[1] != "constructor" && c[1] != "relation"
    && c[1] != "ruleset" && c[1] != "run" && c[1] != "run-schedule"
    && c[j] != "(" && c[j] != ")" && j > 0 && c[j - 1] != "("
    && (forall k :: 0 <= k <= j ==> !AttributeAt(c, k))
    && !(c[1] == "let" && j == 2)
  }

  lemma {:induction false} DepthIsNesting(c: Command, j: nat)
    requires j <= |c|
    ensures Depth(c, j) == Nesting(c, j)
  {
    if j > 0 {
      DepthIsNesting(c, j - 1);
      assert c[..j] == c[..j - 1] + [c[j - 1]];
    }
  }

  lemma {:induction false} KeywordIsAttribute(c: Command, j: nat)
    requires j < |c|
    ensures Keyword(c, j) <==> AttributeAt(c, j)
  {
    hide Depth, Nesting;
    DepthIsNesting(c, j);
  }

  lemma {:induction false} ExpressionRefers(c: Command, j: nat)
    requires j < |c| && |c| >= 3
    ensures Expression(c, j) <==> Refers(c, j)
  {
    hide Keyword, AttributeAt;
    forall k | 0 <= k <= j ensures Keyword(c, k) <==> AttributeAt(c, k) { KeywordIsAttribute(c, k); }
    DeclarationHeads(c[1]);
  }

  lemma {:induction false} DeclarationHeads(x: string)
    ensures x in DECLARATIONS <==>
            x == "sort" || x == "datatype" || x == "function" || x == "constructor" || x == "relation" || x == "ruleset"
            || x == "run" || x == "run-schedule"
  {
  }

  /** A token that refers to a name bound by an earlier let becomes that name's alias; so does the name a let binds. */
  lemma {:induction false} ReferencesBecomeAliases(cmds: seq<Command>, b: Bindings, i: nat, j: nat)
    requires Commanding(cmds) && Aliases(b) && i < |cmds| && j < |cmds[i]|
    ensures
      var c, x := cmds[i], cmds[i][j];
      Translated(cmds, b)[i][j] ==
      if (c[1] == "let" && j == 2)
         || (Refers(c, j) && (x in b || exists k :: 0 <= k < i && |cmds[k]| >= 3 && cmds[k][1] == "let" && cmds[k][2] == x))
      then "$churchroad-global-" + x else x
  {
    hide After, Expression, Refers;
    AfterBinds(cmds[..i], b);
    ExpressionRefers(cmds[i], j);
    var x := cmds[i][j];
    assert Declared(cmds[..i], x) <==> exists k :: 0 <= k < i && |cmds[k]| >= 3 && cmds[k][1] == "let" && cmds[k][2] == x by {
      assert forall k :: 0 <= k < i ==> cmds[..i][k] == cmds[k];
      if k :| 0 <= k < i && |cmds[k]| >= 3 && cmds[k][1] == "let" && cmds[k][2] == x { assert IsLet(cmds[..i][k]); }
    }
  }

  /** A declaration or a schedule is left as it is. */
  lemma {:induction false} DeclarationsStay(cmds: seq<Command>, b: Bindings, i: nat)
    requires Commanding(cmds) && i < |cmds|
    requires cmds[i][1] == "sort" || cmds[i][1] == "datatype" || cmds[i][1] == "function" || cmds[i][1] == "constructor"
             || cmds[i][1] == "relation" || cmds[i][1] == "ruleset" || cmds[i][1] == "run" || cmds[i][1] == "run-schedule"
    ensures Translated(cmds, b)[i] == cmds[i]
  {
    hide After;
    DeclarationHeads(cmds[i][1]);
    forall j | 0 <= j < |cmds[i]| ensures Translated(cmds, b)[i][j] == cmds[i][j] { assert !Expression(cmds[i], j); }
  }

  /** Exactly which commands need a reviewed adaptation. */
  lemma {:induction false} RefusedExactly(c: Command, b: Bindings, occupied: set<string>)
    requires |c| >= 3
    ensures !Admitted(c, b, occupied) <==>
            || c[1] == "push" || c[1] == "pop" || c[1] == "include"
            || (exists i :: 2 <= i < |c| && c[i] == "let" && c[i - 1] == "(")
            || (c[1] == "let" && (c[2] in b || Stripped("$churchroad-global-" + c[2]) in occupied))
            || (b != map[] && (":default" in c || ":merge" in c || ":until" in c)
                && (c[1] == "sort" || c[1] == "datatype" || c[1] == "function" || c[1] == "constructor" || c[1] == "relation"
                    || c[1] == "ruleset" || c[1] == "run" || c[1] == "run-schedule"))
  {
    hide Stripped;
    DeclarationHeads(c[1]);
  }

  // ---- Resolution ----------------------------------------------------------------------------

  /** What a token refers to. */
  datatype Target = Global(name: string) | Plain(text: string)

  /** In the original: a bare name in expression position is the global a let declared before, if one did. */
  ghost function OriginalTarget(cmds: seq<Command>, i: nat, j: nat, inherited: Bindings): Target
    requires Commanding(cmds) && i < |cmds| && j < |cmds[i]|
  {
    var x := cmds[i][j];
    if IsLet(cmds[i]) && j == 2 then Global(x)
    else if Refers(cmds[i], j) && (x in inherited || Declared(cmds[..i], x)) then Global(x)
    else Plain(x)
  }

  /** In the adapted program: an alias is its global, wherever it stands. */
  ghost function AdaptedTarget(x: string, names: Bindings): Target {
    if exists g :: g in names && x == Alias(g) then
      var g :| g in names && x == Alias(g);
      Global(g)
    else Plain(x)
  }

  lemma {:induction false} AliasInjective(x: string, y: string)
    requires Alias(x) == Alias(y)
    ensures x == y
  {
    assert Alias(x)[|PREFIX|..] == x && Alias(y)[|PREFIX|..] == y;
  }

  lemma {:induction false} AliasTarget(g: string, names: Bindings)
    requires g in names
    ensures AdaptedTarget(Alias(g), names) == Global(g)
  {
    hide Alias;
    forall h | h in names && Alias(g) == Alias(h) ensures h == g { AliasInjective(h, g); }
  }

  /** No token of the commands is an alias of one of the names. */
  ghost predicate Fresh(cmds: seq<Command>, names: Bindings) {
    forall i, j, g :: 0 <= i < |cmds| && 0 <= j < |cmds[i]| && g in names ==> cmds[i][j] != Alias(g)
  }

  /**
   Resolution is preserved: every token of the adapted commands, read by name alone, refers to what the original
   token referred to at its place.
   */
  lemma {:induction false} ResolutionPreserved(cmds: seq<Command>, b: Bindings, i: nat, j: nat)
    requires Commanding(cmds) && Aliases(b) && i < |cmds| && j < |cmds[i]|
    requires Fresh(cmds, After(cmds, b))
    ensures AdaptedTarget(Translated(cmds, b)[i][j], After(cmds, b)) == OriginalTarget(cmds, i, j, b)
  {
    hide After, AdaptedTarget, Expression, Refers, Alias;
    ExpressionRefers(cmds[i], j);
    var c, x, names := cmds[i], cmds[i][j], After(cmds, b);
    AfterBinds(cmds[..i], b);
    AfterBinds(cmds, b);
    var m := Mark(c, j, After(cmds[..i], b));
    if IsLet(c) && j == 2 {
      assert Declared(cmds, x);
      AliasTarget(x, names);
    } else if m.Some? {
      DeclaredLater(cmds, i, x);
      AliasTarget(x, names);
    } else {
      PlainTarget(cmds, i, j, names);
    }
  }

  lemma {:induction false} PlainTarget(cmds: seq<Command>, i: nat, j: nat, names: Bindings)
    requires i < |cmds| && j < |cmds[i]| && Fresh(cmds, names)
    ensures AdaptedTarget(cmds[i][j], names) == Plain(cmds[i][j])
  {
    hide Alias;
  }

  lemma {:induction false} DeclaredLater(cmds: seq<Command>, i: nat, x: string)
    requires i <= |cmds|
    ensures Declared(cmds[..i], x) ==> Declared(cmds, x)
  {
    if Declared(cmds[..i], x) {
      var k :| 0 <= k < i && IsLet(cmds[..i][k]) && cmds[..i][k][2] == x;
      assert cmds[k] == cmds[..i][k];
    }
  }

  /** Only aliases change, and every changed token becomes its own alias. */
  lemma {:induction false} OnlyReferencesChange(cmds: seq<Command>, b: Bindings, i: nat, j: nat)
    requires Commanding(cmds) && Aliases(b) && i < |cmds| && j < |cmds[i]|
    ensures Translated(cmds, b)[i][j] == if OriginalTarget(cmds, i, j, b).Global? then Alias(cmds[i][j]) else cmds[i][j]
  {
    hide After, Expression, Refers, Alias;
    ExpressionRefers(cmds[i], j);
    AfterBinds(cmds[..i], b);
  }
}
