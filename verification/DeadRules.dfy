/**
 Higher-order rules that the one closed schedule never fires are replaced by
 comments.  The edited text reads as the original commands without exactly those
 rules, and in every engine whose schedules fire only the rulesets they name the
 final database and every output are the same.
 */
module DeadRules {
  import opened Prelude
  import opened EgglogText
  import opened HardboiledReplay

  const ORIGINAL_SCHEDULE: Command := [
    "(", "run-schedule", "(", "repeat", "20", "(", "saturate", "(", "run", "typechecking", ")", ")",
    "(", "run", ")", "(", "run", "amx", ")", ")", ")"]

  const SCHEDULING := {"run", "run-schedule", "include", "unstable-combined-ruleset", "push", "pop"}
  const RULES := {"rule", "rewrite", "birewrite"}

  function Head(c: Command): string { if |c| >= 2 then c[1] else "" }

  predicate HigherOrder(c: Command) { "unstable-app" in c || "unstable-fn" in c }

  predicate IsSchedule(c: Command) { Head(c) in SCHEDULING }

  /** A rule whose last attribute puts it into the canonicalize ruleset. */
  predicate Canonicalize(c: Command) {
    Head(c) == "rule" && |c| >= 3 && c[|c| - 3..] == [":ruleset", "canonicalize", ")"]
  }

  function Kept(cmds: seq<Command>): seq<Command> {
    if cmds == [] then []
    else
      var n := |cmds| - 1;
      Kept(cmds[..n]) + if HigherOrder(cmds[n]) then [] else [cmds[n]]
  }

  function Schedules(cmds: seq<Command>): seq<Command> {
    if cmds == [] then []
    else
      var n := |cmds| - 1;
      Schedules(cmds[..n]) + if IsSchedule(cmds[n]) then [cmds[n]] else []
  }

  /** The closed case in which the omission is allowed. */
  predicate Omissible(cmds: seq<Command>) {
    && Schedules(cmds) == [ORIGINAL_SCHEDULE]
    && forall i :: 0 <= i < |cmds| && HigherOrder(cmds[i]) ==> Canonicalize(cmds[i])
  }

  // ---- The comment that takes a rule's place ------------------------------------------

  const NOTE := " Unexecuted" + " higher-order" + " canonicalize" + " rule omitted."
  const NOTICE := ";" + NOTE + "\n"

  lemma {:induction false} LineComment(s: string, rest: string)
    requires '\n' !in s
    ensures CommentLength(s + "\n" + rest) == |s|
  {
    if s == [] {
      assert s + "\n" + rest == "\n" + rest;
    } else {
      assert (s + "\n" + rest)[1..] == s[1..] + "\n" + rest && (s + "\n" + rest)[0] == s[0];
      LineComment(s[1..], rest);
    }
  }

  lemma {:induction false} CommentForms(s: string)
    requires '\n' !in s
    ensures Closed(";" + s + "\n") && Forms(";" + s + "\n") == Some([])
  {
    hide FeedAll;
    var x := ";" + s + "\n";
    assert x[1..] == s + "\n" + "" && x[0] == ';';
    LineComment(s, "");
    var n := 1 + |s|;
    assert TokenLength(x) == Some(n) && x[n..] == "\n";
    LexSpace("\n", n);
    LexNothing(n + 1);
    assert "\n"[1..] == [];
    LexCons(x, 0, n, []);
    FeedComment(Token(x[..n], 0, n));
  }

  lemma {:induction false} FeedComment(t: Token)
    requires IsComment(t)
    ensures FeedAll(FRESH, [t]) == Some(FRESH) && [t] + [] == [t]
  {
    assert [t][..0] == [];
  }

  lemma {:induction false} NoteIsOneLine()
    ensures '\n' !in NOTE
  {
    assert '\n' !in " Unexecuted" && '\n' !in " higher-order";
    assert '\n' !in " canonicalize" && '\n' !in " rule omitted.";
  }

  lemma {:induction false} NoticeForms()
    ensures Closed(NOTICE) && Forms(NOTICE) == Some([])
  {
    hide NOTE;
    NoteIsOneLine();
    CommentForms(NOTE);
  }

  // ---- The edit --------------------------------------------------------------------------

  lemma {:induction false} KeptConcat(a: seq<Command>, b: seq<Command>)
    ensures Kept(a + b) == Kept(a) + Kept(b)
  {
    if b == [] {
      assert a + b == a;
    } else {
      var n := |b| - 1;
      KeptConcat(a, b[..n]);
      assert (a + b)[..|a| + n] == a + b[..n];
    }
  }

  lemma {:induction false} KeptPlain(a: seq<Command>)
    requires forall i :: 0 <= i < |a| ==> !HigherOrder(a[i])
    ensures Kept(a) == a
  {
    if a != [] {
      KeptPlain(a[..|a| - 1]);
      assert a == a[..|a| - 1] + [a[|a| - 1]];
    }
  }

  /** The text with every higher-order rule from form `q` on removed. */
  ghost predicate Trimmed(cur: string, fs: seq<Form>, q: nat) {
    && Forms(cur).Some? && q <= |fs| && q <= |Forms(cur).value|
    && Forms(cur).value[..q] == fs[..q]
    && TokensOf(Forms(cur).value) == TokensOf(fs[..q]) + Kept(TokensOf(fs[q..]))
  }

  lemma {:induction false} TrimmedStart(s: string)
    requires Forms(s).Some?
    ensures Trimmed(s, Forms(s).value, |Forms(s).value|)
  {
    var fs := Forms(s).value;
    assert fs[..|fs|] == fs && TokensOf(fs[|fs|..]) == [] && TokensOf(fs) + [] == TokensOf(fs);
  }

  /** Passing over a form that stays. */
  lemma {:induction false} TrimmedKeep(cur: string, fs: seq<Form>, q: nat)
    requires Trimmed(cur, fs, q + 1) && q < |fs| && !HigherOrder(fs[q].tokens)
    ensures Trimmed(cur, fs, q)
  {
    hide Forms, Kept;
    var gs := Forms(cur).value;
    assert gs[..q] == gs[..q + 1][..q] && fs[..q] == fs[..q + 1][..q];
    KeptConcat([fs[q].tokens], TokensOf(fs[q + 1..]));
    KeptPlain([fs[q].tokens]);
    assert TokensOf(fs[q..]) == [fs[q].tokens] + TokensOf(fs[q + 1..]);
    assert TokensOf(fs[..q + 1]) == TokensOf(fs[..q]) + [fs[q].tokens];
  }

  lemma {:induction false} KeptDrops(c: Command)
    requires HigherOrder(c)
    ensures Kept([c]) == []
  {
    assert [c][..0] == [];
  }

  /** Replacing a higher-order rule by the notice. */
  lemma {:induction false} TrimmedDrop(cur: string, fs: seq<Form>, q: nat)
    requires Trimmed(cur, fs, q + 1) && q < |fs| && HigherOrder(fs[q].tokens)
    ensures fs[q].start <= fs[q].end <= |cur| && Trimmed(cur[..fs[q].start] + NOTICE + cur[fs[q].end..], fs, q)
  {
    hide Forms, Kept, Closed, NOTICE, HigherOrder;
    var gs := Forms(cur).value;
    assert gs[q] == gs[..q + 1][q] == fs[..q + 1][q] == fs[q];
    assert gs[..q] == gs[..q + 1][..q] && fs[..q] == fs[..q + 1][..q];
    NoticeForms();
    EraseForm(cur, q, NOTICE);
    KeptConcat([fs[q].tokens], TokensOf(fs[q + 1..]));
    KeptDrops(fs[q].tokens);
    assert TokensOf(fs[q..]) == [fs[q].tokens] + TokensOf(fs[q + 1..]);
    assert [] + Kept(TokensOf(fs[q + 1..])) == Kept(TokensOf(fs[q + 1..]));
    assert TokensOf(gs[q + 1..]) == TokensOf(gs)[q + 1..];
    assert |TokensOf(fs[..q + 1])| == q + 1;
    assert TokensOf(gs)[q + 1..] == Kept(TokensOf(fs[q + 1..]));
  }

  lemma {:induction false} TrimmedEnd(cur: string, fs: seq<Form>)
    requires Trimmed(cur, fs, 0)
    ensures Commands(cur) == Some(Kept(TokensOf(fs)))
  {
    hide Forms, Kept;
    assert fs[0..] == fs && TokensOf(fs[..0]) == [] && [] + Kept(TokensOf(fs)) == Kept(TokensOf(fs));
  }

  /**
   Replace the higher-order rules, last one first.  The text is returned unchanged when there are none;
   otherwise the edit succeeds exactly in the closed case, and the result reads as the other commands.
   */
  method OmitUnexecutedHigherOrderRules(source: string) returns (r: Result<string>)
    ensures r.Success? <==>
              Commands(source).Some? && (Kept(Commands(source).value) == Commands(source).value || Omissible(Commands(source).value))
    ensures r.Success? ==> Commands(r.value) == Some(Kept(Commands(source).value))
    ensures r.Success? ==> forall c :: c in Commands(r.value).value <==>
              c in Commands(source).value && "unstable-app" !in c && "unstable-fn" !in c
    ensures r.Success? && Kept(Commands(source).value) == Commands(source).value ==> r.value == source
  {
    hide Forms, Kept, Schedules, NOTICE, HigherOrder, Canonicalize;
    if Commands(source).Some? { KeptMembers(Commands(source).value); }
    var parsed := EgglogForms(source);
    if parsed.None? {
      return Failure("not a sequence of forms");
    }
    var fs := parsed.value;
    var uses, closed := Survey(fs);
    if !uses {
      KeptPlain(TokensOf(fs));
      return Success(source);
    }
    KeptLoses(TokensOf(fs));
    if !closed {
      return Failure("higher-order omission requires the closed original schedule and canonicalize rules");
    }
    var text := source;
    TrimmedStart(source);
    var q := |fs|;
    while q > 0
      invariant 0 <= q <= |fs| && Trimmed(text, fs, q)
    {
      q := q - 1;
      if HigherOrder(fs[q].tokens) {
        TrimmedDrop(text, fs, q);
        text := text[..fs[q].start] + NOTICE + text[fs[q].end..];
      } else {
        TrimmedKeep(text, fs, q);
      }
    }
    TrimmedEnd(text, fs);
    r := Success(text);
  }

  lemma {:induction false} KeptLoses(cmds: seq<Command>)
    requires exists i :: 0 <= i < |cmds| && HigherOrder(cmds[i])
    ensures Kept(cmds) != cmds
  {
    KeptLength(cmds);
  }

  lemma {:induction false} KeptLength(cmds: seq<Command>)
    ensures |Kept(cmds)| <= |cmds|
    ensures (exists i :: 0 <= i < |cmds| && HigherOrder(cmds[i])) ==> |Kept(cmds)| < |cmds|
  {
    if cmds != [] {
      var n := |cmds| - 1;
      KeptLength(cmds[..n]);
      if i :| 0 <= i < n && HigherOrder(cmds[i]) { assert cmds[..n][i] == cmds[i]; }
    }
  }

  /** Whether any form is higher-order, and whether the omission is allowed. */
  method Survey(fs: seq<Form>) returns (uses: bool, closed: bool)
    ensures uses <==> exists i :: 0 <= i < |fs| && HigherOrder(TokensOf(fs)[i])
    ensures closed <==> Omissible(TokensOf(fs))
  {
    hide HigherOrder, Canonicalize;
    var cmds := TokensOf(fs);
    var schedules: seq<Command> := [];
    uses, closed := false, true;
    for i := 0 to |cmds|
      invariant schedules == Schedules(cmds[..i])
      invariant uses <==> exists j :: 0 <= j < i && HigherOrder(cmds[j])
      invariant closed <==> forall j :: 0 <= j < i && HigherOrder(cmds[j]) ==> Canonicalize(cmds[j])
    {
      assert cmds[..i + 1][..i] == cmds[..i];
      if HigherOrder(cmds[i]) {
        uses := true;
        if !Canonicalize(cmds[i]) {
          closed := false;
        }
      }
      if IsSchedule(cmds[i]) {
        schedules := schedules + [cmds[i]];
      }
    }
    assert cmds[..|cmds|] == cmds;
    closed := closed && schedules == [ORIGINAL_SCHEDULE];
  }

  /** Exactly the commands without either higher-order primitive stay. */
  lemma {:induction false} KeptMembers(cmds: seq<Command>)
    ensures forall c :: c in Kept(cmds) <==> c in cmds && "unstable-app" !in c && "unstable-fn" !in c
  {
    if cmds != [] { KeptMembers(cmds[..|cmds| - 1]); }
  }

  lemma {:induction false} SchedulingHeads(x: string)
    ensures x in SCHEDULING <==> x == "run" || x == "run-schedule" || x == "include" || x == "unstable-combined-ruleset" || x == "push" || x == "pop"
  {
  }

  /**
   The closed case written out: exactly one command schedules, includes, combines rulesets or changes scope, it is the
   original twenty-fold schedule, and every higher-order command is a rule put into the canonicalize ruleset.
   */
  lemma {:induction false} OmissibleMeans(cmds: seq<Command>)
    ensures Omissible(cmds) <==>
            && (exists i :: 0 <= i < |cmds| && OnlySchedule(cmds, i)
                            && cmds[i] == ["(", "run-schedule", "(", "repeat", "20", "(", "saturate", "(", "run", "typechecking", ")", ")",
                                           "(", "run", ")", "(", "run", "amx", ")", ")", ")"])
            && forall i :: 0 <= i < |cmds| && ("unstable-app" in cmds[i] || "unstable-fn" in cmds[i]) ==>
                 |cmds[i]| >= 3 && cmds[i][1] == "rule" && cmds[i][|cmds[i]| - 3] == ":ruleset" && cmds[i][|cmds[i]| - 2] == "canonicalize"
                 && cmds[i][|cmds[i]| - 1] == ")"
  {
    hide ORIGINAL_SCHEDULE, Schedules;
    ScheduleWritten();
    SingleSchedule(cmds);
    forall i | 0 <= i < |cmds|
      ensures Canonicalize(cmds[i]) <==>
              |cmds[i]| >= 3 && cmds[i][1] == "rule" && cmds[i][|cmds[i]| - 3] == ":ruleset" && cmds[i][|cmds[i]| - 2] == "canonicalize"
              && cmds[i][|cmds[i]| - 1] == ")"
    {
      CanonicalizeMeans(cmds[i]);
    }
  }

  lemma {:induction false} ScheduleWritten()
    ensures ORIGINAL_SCHEDULE == ["(", "run-schedule", "(", "repeat", "20", "(", "saturate", "(", "run", "typechecking", ")", ")",
                                  "(", "run", ")", "(", "run", "amx", ")", ")", ")"]
  {
  }

  lemma {:induction false} CanonicalizeMeans(c: Command)
    ensures Canonicalize(c) <==>
            |c| >= 3 && c[1] == "rule" && c[|c| - 3] == ":ruleset" && c[|c| - 2] == "canonicalize" && c[|c| - 1] == ")"
  {
    if |c| >= 3 {
      var t := c[|c| - 3..];
      assert t[0] == c[|c| - 3] && t[1] == c[|c| - 2] && t[2] == c[|c| - 1] && |t| == 3;
      assert t == [t[0], t[1], t[2]];
    }
  }

  predicate Scheduling(c: Command) {
    |c| >= 2 && (c[1] == "run" || c[1] == "run-schedule" || c[1] == "include" || c[1] == "unstable-combined-ruleset" || c[1] == "push" || c[1] == "pop")
  }

  /** Command `i` is the only one that schedules. */
  ghost predicate OnlySchedule(cmds: seq<Command>, i: nat)
    requires i < |cmds|
  {
    Scheduling(cmds[i]) && forall j :: 0 <= j < |cmds| && j != i ==> !Scheduling(cmds[j])
  }

  lemma {:induction false} IsScheduling(c: Command)
    ensures IsSchedule(c) <==> Scheduling(c)
  {
    SchedulingHeads(Head(c));
  }

  lemma {:induction false} NoSchedules(cmds: seq<Command>)
    ensures Schedules(cmds) == [] <==> forall i :: 0 <= i < |cmds| ==> !Scheduling(cmds[i])
  {
    hide IsSchedule, Scheduling;
    if cmds != [] {
      var n := |cmds| - 1;
      NoSchedules(cmds[..n]);
      IsScheduling(cmds[n]);
      assert forall i :: 0 <= i < n ==> cmds[..n][i] == cmds[i];
    }
  }

  lemma {:induction false} SingleSchedule(cmds: seq<Command>)
    ensures Schedules(cmds) == [ORIGINAL_SCHEDULE] <==> exists i :: 0 <= i < |cmds| && OnlySchedule(cmds, i) && cmds[i] == ORIGINAL_SCHEDULE
  {
    hide IsSchedule, Scheduling, ORIGINAL_SCHEDULE, OnlySchedule;
    if cmds != [] {
      var n := |cmds| - 1;
      var before := Schedules(cmds[..n]);
      SingleSchedule(cmds[..n]);
      NoSchedules(cmds[..n]);
      IsScheduling(cmds[n]);
      if Scheduling(cmds[n]) {
        LastSchedules(cmds);
        assert |before + [cmds[n]]| == |before| + 1 && (before + [cmds[n]])[|before|] == cmds[n];
        assert before == [] ==> before + [cmds[n]] == [cmds[n]];
      } else {
        LastIsPlain(cmds);
      }
    }
  }

  lemma {:induction false} LastSchedules(cmds: seq<Command>)
    requires cmds != [] && Scheduling(cmds[|cmds| - 1])
    ensures forall i :: 0 <= i < |cmds| && OnlySchedule(cmds, i) ==> i == |cmds| - 1
    ensures OnlySchedule(cmds, |cmds| - 1) <==> Schedules(cmds[..|cmds| - 1]) == []
    ensures Schedules(cmds) == Schedules(cmds[..|cmds| - 1]) + [cmds[|cmds| - 1]]
  {
    hide Scheduling, IsSchedule;
    var n := |cmds| - 1;
    NoSchedules(cmds[..n]);
    IsScheduling(cmds[n]);
    assert forall i :: 0 <= i < n ==> cmds[..n][i] == cmds[i];
  }

  lemma {:induction false} LastIsPlain(cmds: seq<Command>)
    requires cmds != [] && !Scheduling(cmds[|cmds| - 1])
    ensures Schedules(cmds) == Schedules(cmds[..|cmds| - 1])
    ensures forall i :: 0 <= i < |cmds| - 1 ==> (OnlySchedule(cmds, i) <==> OnlySchedule(cmds[..|cmds| - 1], i))
    ensures !OnlySchedule(cmds, |cmds| - 1)
  {
    hide Scheduling, IsSchedule;
    var n := |cmds| - 1;
    IsScheduling(cmds[n]);
    assert forall i :: 0 <= i < n ==> cmds[..n][i] == cmds[i];
  }

  // ---- What the engine sees ------------------------------------------------------------------

  /** The rulesets a schedule names; a bare run names the default ruleset. */
  function Named(c: Command): set<string> {
    if |c| < 2 then {} else Named(c[1..]) + if c[0] == "run" then {if c[1] == ")" then "" else c[1]} else {}
  }

  /** Every ruleset a schedule names is one of its tokens, or the default. */
  lemma {:induction false} NamedAreTokens(c: Command, r: string)
    requires r in Named(c)
    ensures r == "" || r in c
  {
    if r in Named(c[1..]) { NamedAreTokens(c[1..], r); }
  }

  /**
   An engine over databases `D` with outputs `O`: where a rule command puts its rule, what a schedule does with
   the rules it is given, which rulesets any other command looks at, and what it does with their rules.
   */
  datatype Engine<!D, !O> = Engine(
    ruleset: Command -> string,
    fire: (D, Command, map<string, seq<Command>>) -> (D, O),
    looks: Command -> set<string>,
    plain: (D, Command, map<string, seq<Command>>) -> (D, O))

  /** A final ruleset attribute decides the ruleset. */
  ghost predicate Attributed<D, O>(e: Engine<D, O>) {
    forall c: Command :: |c| >= 3 && c[|c| - 3] == ":ruleset" && c[|c| - 1] == ")" ==> e.ruleset(c) == c[|c| - 2]
  }

  datatype World<D, O> = World(db: D, rules: map<string, seq<Command>>, outputs: seq<O>)

  function Defined(rules: map<string, seq<Command>>, r: string): seq<Command> {
    if r in rules then rules[r] else []
  }

  /** A schedule is handed the rules of the rulesets it names and no others. */
  function Visible(rules: map<string, seq<Command>>, names: set<string>): map<string, seq<Command>> {
    map r | r in names && r in rules :: rules[r]
  }

  function Exec<D, O>(e: Engine<D, O>, w: World<D, O>, c: Command): World<D, O> {
    if Head(c) in RULES then
      w.(rules := w.rules[e.ruleset(c) := Defined(w.rules, e.ruleset(c)) + [c]])
    else
      var (db, o) := if IsSchedule(c) then e.fire(w.db, c, Visible(w.rules, Named(c))) else e.plain(w.db, c, Visible(w.rules, e.looks(c)));
      World(db, w.rules, w.outputs + [o])
  }

  function Play<D, O>(e: Engine<D, O>, w: World<D, O>, cmds: seq<Command>): World<D, O> {
    if cmds == [] then w else Exec(e, Play(e, w, cmds[..|cmds| - 1]), cmds[|cmds| - 1])
  }

  /** Same database and outputs, and the same rules outside the canonicalize ruleset. */
  ghost predicate Alike<D, O>(v: World<D, O>, w: World<D, O>) {
    && v.db == w.db && v.outputs == w.outputs
    && forall r :: r != "canonicalize" ==> (r in v.rules <==> r in w.rules) && (r in v.rules ==> v.rules[r] == w.rules[r])
  }

  lemma {:induction false} ScheduleNames()
    ensures "canonicalize" !in Named(ORIGINAL_SCHEDULE)
  {
    hide Named;
    assert "canonicalize" !in ORIGINAL_SCHEDULE && "canonicalize" != "";
    forall r | r in Named(ORIGINAL_SCHEDULE) ensures r != "canonicalize" { NamedAreTokens(ORIGINAL_SCHEDULE, r); }
  }

  /** A rule, a schedule, or a command that does not look at the canonicalize rules. */
  predicate Unaware<D, O>(e: Engine<D, O>, c: Command) {
    Head(c) in RULES || IsSchedule(c) || "canonicalize" !in e.looks(c)
  }

  lemma {:induction false} ExecAlike<D, O>(e: Engine<D, O>, v: World<D, O>, w: World<D, O>, c: Command)
    requires Alike(v, w) && (IsSchedule(c) ==> c == ORIGINAL_SCHEDULE) && Unaware(e, c)
    ensures Alike(Exec(e, v, c), Exec(e, w, c))
  {
    hide ORIGINAL_SCHEDULE, Named;
    ScheduleNames();
    if "canonicalize" !in e.looks(c) { assert Visible(v.rules, e.looks(c)) == Visible(w.rules, e.looks(c)); }
    if IsSchedule(c) && Head(c) !in RULES {
      assert Visible(v.rules, Named(c)) == Visible(w.rules, Named(c));
    }
  }

  lemma {:induction false} DeadAlike<D, O>(e: Engine<D, O>, v: World<D, O>, w: World<D, O>, c: Command)
    requires Attributed(e) && Alike(v, w) && Canonicalize(c)
    ensures Alike(Exec(e, v, c), w)
  {
    assert c[|c| - 3..][0] == ":ruleset" && c[|c| - 3..][1] == "canonicalize" && c[|c| - 3..][2] == ")";
    assert e.ruleset(c) == "canonicalize";
  }

  lemma {:induction false} SchedulesAre(cmds: seq<Command>, i: nat)
    requires i < |cmds| && IsSchedule(cmds[i])
    ensures cmds[i] in Schedules(cmds)
  {
    var n := |cmds| - 1;
    if i < n {
      SchedulesAre(cmds[..n], i);
      assert cmds[..n][i] == cmds[i];
    }
  }

  lemma {:induction false} PlayAlike<D, O>(e: Engine<D, O>, w: World<D, O>, cmds: seq<Command>)
    requires Attributed(e) && LooksElsewhere(e, cmds)
    requires forall i :: 0 <= i < |cmds| && IsSchedule(cmds[i]) ==> cmds[i] == ORIGINAL_SCHEDULE
    requires forall i :: 0 <= i < |cmds| && HigherOrder(cmds[i]) ==> Canonicalize(cmds[i])
    ensures Alike(Play(e, w, cmds), Play(e, w, Kept(cmds)))
  {
    hide HigherOrder, Canonicalize, Exec, Attributed, ORIGINAL_SCHEDULE, IsSchedule, Alike;
    if cmds == [] {
      AlikeRefl(w);
    } else {
      var n := |cmds| - 1;
      PlayAlike(e, w, cmds[..n]);
      var v, u := Play(e, w, cmds[..n]), Play(e, w, Kept(cmds[..n]));
      if HigherOrder(cmds[n]) {
        DeadAlike(e, v, u, cmds[n]);
        assert Kept(cmds) == Kept(cmds[..n]);
      } else {
        ExecAlike(e, v, u, cmds[n]);
        assert Kept(cmds)[..|Kept(cmds[..n])|] == Kept(cmds[..n]);
      }
    }
  }

  /** No command that stays looks at the canonicalize rules. */
  ghost predicate LooksElsewhere<D, O>(e: Engine<D, O>, cmds: seq<Command>) {
    forall i :: 0 <= i < |cmds| && !HigherOrder(cmds[i]) ==> Unaware(e, cmds[i])
  }

  lemma {:induction false} AlikeRefl<D, O>(w: World<D, O>)
    ensures Alike(w, w)
  {
  }

  /**
   The omission preserves meaning: in every engine whose schedules fire only the rulesets they name, when no other
   command looks at the canonicalize rules, the edited commands end in the same database with the same outputs.
   */
  lemma {:induction false} OmissionPreservesMeaning<D, O>(e: Engine<D, O>, w: World<D, O>, cmds: seq<Command>)
    requires Attributed(e) && Omissible(cmds) && LooksElsewhere(e, cmds)
    ensures Play(e, w, Kept(cmds)).db == Play(e, w, cmds).db
    ensures Play(e, w, Kept(cmds)).outputs == Play(e, w, cmds).outputs
  {
    hide HigherOrder, Canonicalize, Play, Kept, Attributed, ORIGINAL_SCHEDULE, Schedules;
    forall i | 0 <= i < |cmds| && IsSchedule(cmds[i]) ensures cmds[i] == ORIGINAL_SCHEDULE { SchedulesAre(cmds, i); }
    PlayAlike(e, w, cmds);
  }
}
