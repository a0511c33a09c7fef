/**
 A native recording factors shared terms into temporary lets, per workload
 context.  Normalizing inlines them, renames two rulesets per context, sorts
 adjacent constructor declarations and drops the final extractions.
 */
module Recording {
  import opened Prelude
  import opened Substitution
  import opened TextOrder
  import opened ConstructorBlocks

  const TEMPORARY := "$__expr_"
  const LET_HEAD := "(let $__expr_"
  const PUSH := "(push 1)"
  const POP := "(pop 1)"
  const TRANSFORM := "parseIR.transform"
  const EXPAND := "parseIR.expand"

  /** A workload's name and its lower-case form. */
  datatype Benchmark = Benchmark(name: string, lowered: string)

  // ---- Names ---------------------------------------------------------------------------

  predicate InSlug(c: char) { 'a' <= c <= 'z' || '0' <= c <= '9' }

  /** Every run of other characters becomes one dash. */
  function Dashed(s: string, after: bool): string {
    if s == [] then []
    else if InSlug(s[0]) then [s[0]] + Dashed(s[1..], false)
    else (if after then [] else "-") + Dashed(s[1..], true)
  }

  function StripLeft(s: string): string {
    if s != [] && s[0] == '-' then StripLeft(s[1..]) else s
  }

  function StripRight(s: string): string {
    if s != [] && s[|s| - 1] == '-' then StripRight(s[..|s| - 1]) else s
  }

  function Slug(b: Benchmark): string {
    StripRight(StripLeft(Dashed(b.lowered, false)))
  }

  predicate SlugText(s: string) { forall i :: 0 <= i < |s| ==> InSlug(s[i]) || s[i] == '-' }

  lemma {:induction false} DashedText(s: string, after: bool)
    ensures SlugText(Dashed(s, after))
  {
    if s != [] {
      DashedText(s[1..], false);
      DashedText(s[1..], true);
    }
  }

  lemma {:induction false} StripText(s: string)
    requires SlugText(s)
    ensures SlugText(StripLeft(s)) && SlugText(StripRight(s))
    decreases |s|
  {
    if s != [] {
      StripText(s[1..]);
      StripText(s[..|s| - 1]);
    }
  }

  /** A slug is lower-case letters, digits and dashes. */
  lemma {:induction false} SlugIsPlain(b: Benchmark)
    ensures SlugText(Slug(b))
  {
    DashedText(b.lowered, false);
    StripText(Dashed(b.lowered, false));
    StripText(StripLeft(Dashed(b.lowered, false)));
  }

  function Renames(b: Benchmark): map<string, string> {
    map[TRANSFORM := TRANSFORM + "-" + Slug(b), EXPAND := EXPAND + "-" + Slug(b)]
  }

  // ---- Lines --------------------------------------------------------------------------------

  function DigitsLength(s: string): (n: nat)
    ensures n <= |s|
  {
    if s == [] || !('0' <= s[0] <= '9') then 0 else 1 + DigitsLength(s[1..])
  }

  /** The name and expression of a temporary let. */
  function TemporaryLet(line: string): (r: Option<(string, string)>)
    ensures r.Some? ==> |r.value.0| > |TEMPORARY| && r.value.0[..|TEMPORARY|] == TEMPORARY
  {
    var h := |LET_HEAD|;
    if |line| < h || line[..h] != LET_HEAD then None
    else
      var d := DigitsLength(line[h..]);
      if d == 0 || |line| < h + d + 2 || line[h + d] != ' ' || line[|line| - 1] != ')' then None
      else
        assert line[5..h + d][..8] == LET_HEAD[5..] == TEMPORARY;
        Some((line[5..h + d], line[h + d + 1..|line| - 1]))
  }

  datatype Recorder = Recorder(lets: map<string, string>, renamed: map<string, string>, output: seq<string>, count: nat, context: nat)

  const START := Recorder(map[], map[], [], 0, 0)

  function Heading(b: Benchmark): string { ";; Preserved artifact workload: " + b.name }

  /** One line; `None` is the raised error. */
  function Take(r: Recorder, line: string, bs: seq<Benchmark>): Option<Recorder> {
    if line == PUSH then
      if r.context >= |bs| then None
      else
        var b := bs[r.context];
        Some(Recorder(map[], Renames(b), r.output + [Heading(b), line], r.count, r.context + 1))
    else if line == POP then Some(r.(lets := map[], renamed := map[], output := r.output + [line]))
    else
      var bound, temporary := r.renamed + r.lets, TemporaryLet(line);
      if temporary.None? then Some(r.(output := r.output + [Substitute(line, bound)]))
      else
        var (name, expression) := temporary.value;
        Some(r.(lets := r.lets[name := Substitute(expression, bound)], count := r.count + 1))
  }

  function TakeAll(lines: seq<string>, bs: seq<Benchmark>): Option<Recorder> {
    if lines == [] then Some(START)
    else
      var before := TakeAll(lines[..|lines| - 1], bs);
      if before.None? then None else Take(before.value, lines[|lines| - 1], bs)
  }

  // ---- The meaning of a recording under its lets ---------------------------------------------

  datatype Effect<V> = Note | Command(values: Option<seq<V>>)

  predicate IsNote(line: string) { line != [] && line[0] == ';' }

  /** A comment, or the values of a command's terms. */
  function EffectOf<V>(g: Algebra<V>, env: string -> V, line: string): Effect<V> {
    if IsNote(line) then Note
    else
      var ts := Read(line);
      Command(if ts.None? then None else Denote(g, env, ts.value))
  }

  /** What is in force at a line: the values let-bound in the context, and its ruleset names. */
  datatype Scope<V> = Scope(lets: map<string, V>, renamed: map<string, string>, effects: seq<Effect<V>>, context: nat)

  function Env<V>(base: string -> V, sc: Scope<V>): string -> V {
    (a: string) => if a in sc.lets then sc.lets[a] else if a in sc.renamed then base(sc.renamed[a]) else base(a)
  }

  /** One line executed: a let binds the one value its expression denotes here; `None` if it denotes no one value. */
  function Live<V>(g: Algebra<V>, base: string -> V, sc: Scope<V>, line: string, bs: seq<Benchmark>): Option<Scope<V>> {
    if line == PUSH then
      if sc.context >= |bs| then None
      else
        var b := bs[sc.context];
        Some(Scope(map[], Renames(b), sc.effects + [Note, EffectOf(g, base, line)], sc.context + 1))
    else if line == POP then
      Some(Scope(map[], map[], sc.effects + [EffectOf(g, base, line)], sc.context))
    else
      var temporary := TemporaryLet(line);
      if temporary.None? then Some(sc.(effects := sc.effects + [EffectOf(g, Env(base, sc), line)]))
      else
        var (name, expression) := temporary.value;
        match EffectOf(g, Env(base, sc), expression)
        case Command(Some(vs)) => if |vs| == 1 then Some(sc.(lets := sc.lets[name := vs[0]])) else None
        case _ => None
  }

  function LiveAll<V>(g: Algebra<V>, base: string -> V, lines: seq<string>, bs: seq<Benchmark>): Option<Scope<V>> {
    if lines == [] then Some(Scope(map[], map[], [], 0))
    else
      var before := LiveAll(g, base, lines[..|lines| - 1], bs);
      if before.None? then None else Live(g, base, before.value, lines[|lines| - 1], bs)
  }

  function Effects<V>(g: Algebra<V>, env: string -> V, lines: seq<string>): seq<Effect<V>> {
    seq(|lines|, i requires 0 <= i < |lines| => EffectOf(g, env, lines[i]))
  }

  // ---- Inlining preserves that meaning --------------------------------------------------------

  /** Replacement texts and replaced names are not comments. */
  predicate Harmless(m: map<string, string>) {
    forall a :: a in m ==> m[a] != [] && !IsNote(m[a]) && !IsNote(a)
  }

  /** The recorder's texts stand for the scope's values, and what was written means what was executed. */
  ghost predicate Agrees<V>(g: Algebra<V>, base: string -> V, r: Recorder, sc: Scope<V>) {
    && Resolves(g, base, Env(base, sc), r.renamed + r.lets)
    && Harmless(r.renamed + r.lets)
    && r.lets.Keys == sc.lets.Keys && r.renamed == sc.renamed && r.context == sc.context
    && Effects(g, base, r.output) == sc.effects
  }

  lemma {:induction false} EffectsSnoc<V>(g: Algebra<V>, env: string -> V, lines: seq<string>, line: string)
    ensures Effects(g, env, lines + [line]) == Effects(g, env, lines) + [EffectOf(g, env, line)]
  {
  }

  lemma {:induction false} DenoteName<V>(g: Algebra<V>, env: string -> V, a: string)
    ensures Denote(g, env, [Name(a)]) == Some([env(a)])
  {
    EvalOne(g, env, Name(a), [[]]);
    var none: seq<V> := [];
    assert none + [env(a)] == [env(a)] && [none][..0] + [[env(a)]] == [[env(a)]];
    assert AddTop([none], env(a)) == [[env(a)]];
  }

  lemma {:induction false} AliasReads(head: string, b: Benchmark)
    requires head in {TRANSFORM, EXPAND}
    ensures var a := head + "-" + Slug(b); Read(a) == Some([Name(a)]) && a[0] == 'p'
  {
    hide Slug, Read;
    SlugIsPlain(b);
    var a := head + "-" + Slug(b);
    assert forall i :: 0 <= i < |head| ==> InWord(head[i]);
    forall i | 0 <= i < |a| ensures InWord(a[i]) {
      assert a[i] == if i < |head| then head[i] else if i == |head| then '-' else Slug(b)[i - |head| - 1];
    }
    ReadWord(a);
  }

  /** On entering a context the two ruleset names stand for their renamed selves. */
  lemma {:induction false} RenamesResolve<V>(g: Algebra<V>, base: string -> V, b: Benchmark, sc: Scope<V>)
    requires sc.lets == map[] && sc.renamed == Renames(b)
    ensures Resolves(g, base, Env(base, sc), Renames(b) + map[]) && Harmless(Renames(b) + map[])
  {
    hide Slug, Read, Denote;
    assert Renames(b) + map[] == Renames(b);
    AliasReads(TRANSFORM, b);
    AliasReads(EXPAND, b);
    DenoteName(g, base, Renames(b)[TRANSFORM]);
    DenoteName(g, base, Renames(b)[EXPAND]);
  }

  lemma {:induction false} NothingResolves<V>(g: Algebra<V>, base: string -> V, sc: Scope<V>)
    requires sc.lets == map[] && sc.renamed == map[]
    ensures Resolves(g, base, Env(base, sc), map[] + map[]) && Harmless(map[] + map[])
  {
  }

  lemma {:induction false} FirstPiece(s: string, m: map<string, string>)
    requires s != [] && Harmless(m)
    ensures Substitute(s, m) != [] && IsNote(Substitute(s, m)) == IsNote(s)
  {
    var n := PieceLength(s);
    assert s[..n][0] == s[0];
    if InWord(s[0]) {
      assert IsNote(s[..n]) == IsNote(s) && Value(m, s[..n]) != [];
    }
  }

  /** A retained line means after inlining what it meant under the lets. */
  lemma {:induction false} EffectKept<V>(g: Algebra<V>, base: string -> V, env: string -> V, m: map<string, string>, line: string)
    requires Resolves(g, base, env, m) && Harmless(m)
    ensures EffectOf(g, base, Substitute(line, m)) == EffectOf(g, env, line)
  {
    hide Read, Denote, Substitute, Resolves, Harmless;
    ResolvesReadable(g, base, env, m);
    if line == [] {
      SubstituteStart(line, m);
      SubstitutionPreservesMeaning(g, base, env, m, line) by { NothingReads(); }
    } else {
      FirstPiece(line, m);
      if Read(line).None? {
        UnreadableStays(line, m);
      } else {
        SubstitutionPreservesMeaning(g, base, env, m, line);
      }
    }
  }

  lemma {:induction false} NothingReads()
    ensures Read([]) == Some([])
  {
  }

  lemma {:induction false} ResolvesReadable<V>(g: Algebra<V>, base: string -> V, env: string -> V, m: map<string, string>)
    requires Resolves(g, base, env, m)
    ensures Readable(m)
  {
  }

  /** A let keeps the agreement: its inlined text stands for the value it binds. */
  lemma {:induction false} LetKept<V>(g: Algebra<V>, base: string -> V, r: Recorder, sc: Scope<V>, name: string, text: string, v: V)
    requires Agrees(g, base, r, sc) && !IsNote(name) && text != [] && EffectOf(g, base, text) == Command(Some([v]))
    ensures Agrees(g, base, r.(lets := r.lets[name := text], count := r.count + 1), sc.(lets := sc.lets[name := v]))
  {
    hide EffectOf, Resolves;
    var m, m' := r.renamed + r.lets, r.renamed + r.lets[name := text];
    var sc' := sc.(lets := sc.lets[name := v]);
    assert m' == m[name := text];
    EnvUpdate(base, sc, name, v);
    LetResolves(g, base, Env(base, sc), Env(base, sc'), m, name, text, v);
    assert !IsNote(text) by { assert EffectOf(g, base, text) != Note; CommandIsNoNote(g, base, text); }
  }

  lemma {:induction false} CommandIsNoNote<V>(g: Algebra<V>, env: string -> V, line: string)
    requires EffectOf(g, env, line).Command?
    ensures !IsNote(line)
  {
  }

  lemma {:induction false} EnvUpdate<V>(base: string -> V, sc: Scope<V>, name: string, v: V)
    ensures forall a: string :: Env(base, sc.(lets := sc.lets[name := v]))(a) == if a == name then v else Env(base, sc)(a)
  {
    var sc' := sc.(lets := sc.lets[name := v]);
    forall a: string ensures Env(base, sc')(a) == if a == name then v else Env(base, sc)(a) {
      assert a in sc'.lets <==> a == name || a in sc.lets;
      assert a != name && a in sc.lets ==> sc'.lets[a] == sc.lets[a];
    }
  }

  lemma {:induction false} LetResolves<V>(g: Algebra<V>, base: string -> V, env: string -> V, env': string -> V, m: map<string, string>,
                                          name: string, text: string, v: V)
    requires Resolves(g, base, env, m) && EffectOf(g, base, text) == Command(Some([v]))
    requires forall a: string :: env'(a) == if a == name then v else env(a)
    ensures Resolves(g, base, env', m[name := text])
  {
    hide Read, Denote;
  }

  lemma {:induction false} TakePush<V>(g: Algebra<V>, base: string -> V, r: Recorder, sc: Scope<V>, bs: seq<Benchmark>)
    requires Agrees(g, base, r, sc) && r.context < |bs|
    ensures Agrees(g, base, Take(r, PUSH, bs).value, Live(g, base, sc, PUSH, bs).value)
  {
    hide EffectOf, Resolves, Harmless, Renames;
    var b := bs[r.context];
    RenamesResolve(g, base, b, Live(g, base, sc, PUSH, bs).value);
    EffectsSnoc(g, base, r.output, Heading(b));
    EffectsSnoc(g, base, r.output + [Heading(b)], PUSH);
    HeadingIsNote(g, base, b);
    assert r.output + [Heading(b), PUSH] == r.output + [Heading(b)] + [PUSH];
    var e, f := EffectOf(g, base, Heading(b)), EffectOf(g, base, PUSH);
    assert sc.effects + [e, f] == sc.effects + [e] + [f];
  }

  lemma {:induction false} HeadingIsNote<V>(g: Algebra<V>, base: string -> V, b: Benchmark)
    ensures EffectOf(g, base, Heading(b)) == Note
  {
    hide Read, Denote;
    assert Heading(b)[0] == ';';
  }

  lemma {:induction false} TakePop<V>(g: Algebra<V>, base: string -> V, r: Recorder, sc: Scope<V>, bs: seq<Benchmark>)
    requires Agrees(g, base, r, sc)
    ensures Agrees(g, base, Take(r, POP, bs).value, Live(g, base, sc, POP, bs).value)
  {
    hide EffectOf, Resolves, Harmless;
    NothingResolves(g, base, Live(g, base, sc, POP, bs).value);
    EffectsSnoc(g, base, r.output, POP);
  }

  lemma {:induction false} TakePlain<V>(g: Algebra<V>, base: string -> V, r: Recorder, sc: Scope<V>, line: string)
    requires Agrees(g, base, r, sc)
    ensures Agrees(g, base, r.(output := r.output + [Substitute(line, r.renamed + r.lets)]),
                   sc.(effects := sc.effects + [EffectOf(g, Env(base, sc), line)]))
  {
    hide EffectOf, Resolves, Harmless, Env, Substitute;
    var m := r.renamed + r.lets;
    var sc' := sc.(effects := sc.effects + [EffectOf(g, Env(base, sc), line)]);
    EffectKept(g, base, Env(base, sc), m, line);
    EffectsSnoc(g, base, r.output, Substitute(line, m));
    EnvByScope(g, base, sc, sc', m);
  }

  lemma {:induction false} EnvByScope<V>(g: Algebra<V>, base: string -> V, sc: Scope<V>, sc': Scope<V>, m: map<string, string>)
    requires sc.lets == sc'.lets && sc.renamed == sc'.renamed && Resolves(g, base, Env(base, sc), m)
    ensures Resolves(g, base, Env(base, sc'), m)
  {
    hide Read, Denote;
    assert forall a: string :: Env(base, sc)(a) == Env(base, sc')(a);
  }

  lemma {:induction false} TakeLet<V>(g: Algebra<V>, base: string -> V, r: Recorder, sc: Scope<V>, line: string, bs: seq<Benchmark>)
    requires Agrees(g, base, r, sc) && TemporaryLet(line).Some? && line != PUSH && line != POP
    requires Live(g, base, sc, line, bs).Some?
    ensures Agrees(g, base, Take(r, line, bs).value, Live(g, base, sc, line, bs).value)
  {
    hide TemporaryLet, Agrees, EffectOf, Substitute;
    var m := r.renamed + r.lets;
    var (name, expression) := TemporaryLet(line).value;
    AgreesParts(g, base, r, sc);
    EffectKept(g, base, Env(base, sc), m, expression);
    TemporaryName(line);
    var vs := EffectOf(g, Env(base, sc), expression).values.value;
    assert vs == [vs[0]];
    ExpressionIsText(g, base, Env(base, sc), expression, m);
    LetKept(g, base, r, sc, name, Substitute(expression, m), vs[0]);
  }

  lemma {:induction false} AgreesParts<V>(g: Algebra<V>, base: string -> V, r: Recorder, sc: Scope<V>)
    requires Agrees(g, base, r, sc)
    ensures Resolves(g, base, Env(base, sc), r.renamed + r.lets) && Harmless(r.renamed + r.lets)
    ensures r.context == sc.context && Effects(g, base, r.output) == sc.effects
  {
  }

  lemma {:induction false} TemporaryName(line: string)
    requires TemporaryLet(line).Some?
    ensures !IsNote(TemporaryLet(line).value.0)
  {
    hide TemporaryLet;
    var name := TemporaryLet(line).value.0;
    assert name[0] == name[..|TEMPORARY|][0] == TEMPORARY[0];
  }

  /** An expression with a value is not empty, and neither is what it is inlined to. */
  lemma {:induction false} ExpressionIsText<V>(g: Algebra<V>, base: string -> V, env: string -> V, s: string, m: map<string, string>)
    requires EffectOf(g, env, s).Command? && EffectOf(g, env, s).values.Some? && EffectOf(g, env, s).values.value != [] && Harmless(m)
    ensures Substitute(s, m) != []
  {
    hide Harmless, Substitute;
    if s != [] { FirstPiece(s, m); }
  }

  lemma {:induction false} TakeAgrees<V>(g: Algebra<V>, base: string -> V, r: Recorder, sc: Scope<V>, line: string, bs: seq<Benchmark>)
    requires Agrees(g, base, r, sc) && Take(r, line, bs).Some? && Live(g, base, sc, line, bs).Some?
    ensures Agrees(g, base, Take(r, line, bs).value, Live(g, base, sc, line, bs).value)
  {
    hide Agrees, EffectOf, TemporaryLet, Substitute, Renames;
    if line == PUSH {
      TakePush(g, base, r, sc, bs);
    } else if line == POP {
      TakePop(g, base, r, sc, bs);
    } else if TemporaryLet(line).None? {
      TakePlain(g, base, r, sc, line);
    } else {
      TakeLet(g, base, r, sc, line, bs);
    }
  }

  lemma {:induction false} StartAgrees<V>(g: Algebra<V>, base: string -> V)
    ensures Agrees(g, base, START, Scope(map[], map[], [], 0))
  {
    hide EffectOf, Resolves, Harmless;
    NothingResolves(g, base, Scope(map[], map[], [], 0));
  }

  lemma {:induction false} AllAgree<V>(g: Algebra<V>, base: string -> V, lines: seq<string>, bs: seq<Benchmark>)
    requires TakeAll(lines, bs).Some? && LiveAll(g, base, lines, bs).Some?
    ensures Agrees(g, base, TakeAll(lines, bs).value, LiveAll(g, base, lines, bs).value)
  {
    hide Agrees, Take, Live;
    if lines == [] {
      StartAgrees(g, base);
    } else {
      AllAgree(g, base, lines[..|lines| - 1], bs);
      TakeAgrees(g, base, TakeAll(lines[..|lines| - 1], bs).value, LiveAll(g, base, lines[..|lines| - 1], bs).value, lines[|lines| - 1], bs);
    }
  }

  /**
   Inlining preserves meaning: under every interpretation, the written lines denote in the outer environment, line
   for line, what the recording's retained lines denoted where its lets were in force.
   */
  lemma {:induction false} InliningPreservesMeaning<V>(g: Algebra<V>, base: string -> V, lines: seq<string>, bs: seq<Benchmark>)
    requires TakeAll(lines, bs).Some? && LiveAll(g, base, lines, bs).Some?
    ensures Effects(g, base, TakeAll(lines, bs).value.output) == LiveAll(g, base, lines, bs).value.effects
  {
    hide TakeAll, LiveAll, Agrees;
    AllAgree(g, base, lines, bs);
    AgreesParts(g, base, TakeAll(lines, bs).value, LiveAll(g, base, lines, bs).value);
  }

  // ---- The written text -----------------------------------------------------------------------

  /** Lines, each with its end. */
  function Ended(lines: seq<string>): string {
    if lines == [] then [] else Ended(lines[..|lines| - 1]) + (lines[|lines| - 1] + "\n")
  }

  /** The first place of `p` in `s`. */
  function Find(s: string, p: string): (r: Option<nat>)
    ensures r.Some? ==> r.value + |p| <= |s| && s[r.value..][..|p|] == p
    ensures r.Some? ==> forall i :: 0 <= i < r.value ==> !At(s, p, i)
    ensures r.None? ==> !Contains(s, p)
  {
    FindFrom(s, p, 0)
  }

  function FindFrom(s: string, p: string, i: nat): (r: Option<nat>)
    requires i <= |s| && forall j :: 0 <= j < i ==> !At(s, p, j)
    ensures r.Some? ==> r.value + |p| <= |s| && s[r.value..][..|p|] == p
    ensures r.Some? ==> forall j :: 0 <= j < r.value ==> !At(s, p, j)
    ensures r.None? ==> !Contains(s, p)
    decreases |s| - i
  {
    if At(s, p, i) then Some(i)
    else if i == |s| then None
    else FindFrom(s, p, i + 1)
  }

  predicate At(s: string, p: string, i: nat) {
    i <= |s| && |p| <= |s| - i && s[i..][..|p|] == p
  }

  ghost predicate Contains(s: string, p: string) {
    exists i: nat :: At(s, p, i)
  }

  /** Remove a text that must occur exactly once. */
  function RemoveOnly(s: string, p: string): Option<string> {
    var i := Find(s, p);
    if i.None? || Find(s[i.value + |p|..], p).Some? then None
    else Some(s[..i.value] + s[i.value + |p|..])
  }

  function Extraction(b: Benchmark): string { "(extract $speq-root-" + Slug(b) + " 0)" }

  function DropExtractions(s: string, bs: seq<Benchmark>): Option<string> {
    if bs == [] then Some(s)
    else
      var before := DropExtractions(s, bs[..|bs| - 1]);
      if before.None? then None else RemoveOnly(before.value, Extraction(bs[|bs| - 1]) + "\n")
  }

  function Text(lines: seq<string>): string {
    if lines == [] then "\n" else Ended(lines)
  }

  function Normalized(lines: seq<string>, bs: seq<Benchmark>): Option<string> {
    var r := TakeAll(lines, bs);
    if r.None? then None
    else
      var text := Text(Blocks(r.value.output, []));
      if r.value.context != |bs| || r.value.count < |bs| || Find(text, TEMPORARY).Some? then None
      else DropExtractions(text, bs)
  }

  lemma {:induction false} TakeStuck(lines: seq<string>, bs: seq<Benchmark>, k: nat)
    requires k <= |lines| && TakeAll(lines[..k], bs).None?
    ensures TakeAll(lines, bs).None?
    decreases |lines| - k
  {
    hide Take;
    if k < |lines| {
      assert lines[..k + 1][..k] == lines[..k];
      TakeStuck(lines, bs, k + 1);
    } else {
      assert lines[..k] == lines;
    }
  }

  lemma {:induction false} DropStuck(s: string, bs: seq<Benchmark>, k: nat)
    requires k <= |bs| && DropExtractions(s, bs[..k]).None?
    ensures DropExtractions(s, bs).None?
    decreases |bs| - k
  {
    hide RemoveOnly, Extraction;
    if k < |bs| {
      assert bs[..k + 1][..k] == bs[..k];
      DropStuck(s, bs, k + 1);
    } else {
      assert bs[..k] == bs;
    }
  }

  /** One line of the loop. */
  method TakeLine(r: Recorder, line: string, bs: seq<Benchmark>) returns (next: Option<Recorder>)
    ensures next == Take(r, line, bs)
  {
    hide Substitute, TemporaryLet, Renames, Heading;
    if line == PUSH {
      if r.context >= |bs| {
        return None;
      }
      var b := bs[r.context];
      return Some(Recorder(map[], Renames(b), r.output + [Heading(b), line], r.count, r.context + 1));
    }
    if line == POP {
      return Some(r.(lets := map[], renamed := map[], output := r.output + [line]));
    }
    var bound := r.renamed + r.lets;
    var temporary := TemporaryLet(line);
    if temporary.None? {
      var written := SubstituteAtoms(line, bound);
      return Some(r.(output := r.output + [written]));
    }
    var (name, expression) := temporary.value;
    var inlined := SubstituteAtoms(expression, bound);
    next := Some(r.(lets := r.lets[name := inlined], count := r.count + 1));
  }

  method NormalizeRecording(lines: seq<string>, bs: seq<Benchmark>) returns (result: Option<string>)
    ensures result == Normalized(lines, bs)
  {
    hide Take, RemoveOnly, Extraction, Blocks, Text;
    var r := START;
    for i := 0 to |lines|
      invariant TakeAll(lines[..i], bs) == Some(r)
    {
      assert lines[..i + 1][..i] == lines[..i];
      var next := TakeLine(r, lines[i], bs);
      if next.None? {
        TakeStuck(lines, bs, i + 1);
        return None;
      }
      r := next.value;
    }
    assert lines[..|lines|] == lines;
    var blocks := SortConstructorBlocks(r.output);
    var text := Text(blocks);
    if r.context != |bs| || r.count < |bs| || Find(text, TEMPORARY).Some? {
      return None;
    }
    result := DropAll(text, bs);
  }

  method DropAll(text: string, bs: seq<Benchmark>) returns (result: Option<string>)
    ensures result == DropExtractions(text, bs)
  {
    hide RemoveOnly, Extraction;
    var normalized := text;
    for i := 0 to |bs|
      invariant DropExtractions(text, bs[..i]) == Some(normalized)
    {
      assert bs[..i + 1][..i] == bs[..i];
      var next := RemoveOnly(normalized, Extraction(bs[i]) + "\n");
      if next.None? {
        DropStuck(text, bs, i + 1);
        return None;
      }
      normalized := next.value;
    }
    assert bs[..|bs|] == bs;
    result := Some(normalized);
  }

  // ---- No temporary remains ---------------------------------------------------------------------

  predicate JoinsAt(a: string, b: string, p: string, k: nat) {
    0 < k < |p| && k <= |a| && |p| - k <= |b| && a[|a| - k..] == p[..k] && b[..|p| - k] == p[k..]
  }

  /** The two sides of a removal meet in the middle of `p`. */
  ghost predicate Joins(a: string, b: string, p: string) {
    exists k: nat :: JoinsAt(a, b, p, k)
  }

  /** Removing text brings `p` into being exactly where the two sides join into it. */
  lemma {:induction false} RemovalJoins(a: string, b: string, p: string)
    requires p != [] && !Contains(a, p) && !Contains(b, p)
    ensures Contains(a + b, p) <==> Joins(a, b, p)
  {
    if Contains(a + b, p) {
      var i: nat :| At(a + b, p, i);
      SplitPlace(a, b, p, i);
    }
    if Joins(a, b, p) {
      var k: nat :| JoinsAt(a, b, p, k);
      var i := |a| - k;
      assert (a + b)[i..][..|p|] == a[i..] + b[..|p| - k];
      assert At(a + b, p, i);
    }
  }

  lemma {:induction false} AtLeft(a: string, b: string, p: string, i: nat)
    requires i + |p| <= |a|
    ensures At(a + b, p, i) == At(a, p, i)
  {
    assert (a + b)[i..][..|p|] == a[i..][..|p|];
  }

  lemma {:induction false} AtRight(a: string, b: string, p: string, i: nat)
    requires i >= |a|
    ensures At(a + b, p, i) == At(b, p, i - |a|)
  {
    assert i <= |a + b| ==> (a + b)[i..] == b[i - |a|..];
  }

  lemma {:induction false} SplitPlace(a: string, b: string, p: string, i: nat)
    requires p != [] && !Contains(a, p) && !Contains(b, p) && At(a + b, p, i)
    ensures Joins(a, b, p)
  {
    if i + |p| <= |a| { AtLeft(a, b, p, i); }
    if i >= |a| { AtRight(a, b, p, i); }
    var k := |a| - i;
    assert (a + b)[i..][..|p|] == a[i..] + b[..|p| - k];
    assert a[i..] == p[..k] && b[..|p| - k] == p[k..];
    assert JoinsAt(a, b, p, k);
  }

  /** What a text contains, a longer text contains. */
  lemma {:induction false} ContainsAround(a: string, x: string, b: string, p: string)
    requires Contains(x, p)
    ensures Contains(a + x + b, p)
  {
    var i: nat :| At(x, p, i);
    assert (a + x + b)[|a| + i..][..|p|] == x[i..][..|p|];
    assert At(a + x + b, p, |a| + i);
  }

  /** A removal that starts a line joins no text that ends with its line or stays within it. */
  lemma {:induction false} LineJoinsNothing(a: string, b: string, p: string)
    requires (forall i :: 0 <= i < |p| - 1 ==> p[i] != '\n') && (a == [] || a[|a| - 1] == '\n')
    ensures !Joins(a, b, p)
  {
    forall k: nat ensures !JoinsAt(a, b, p, k) {
      assert 0 < k < |p| && k <= |a| ==> a[|a| - k..][k - 1] == a[|a| - 1] && p[..k][k - 1] == p[k - 1];
    }
  }

  /** Text that a whole-line removal leaves behind contains only what was there before. */
  lemma {:induction false} LineRemovalAddsNothing(a: string, x: string, b: string, p: string)
    requires p != [] && (forall i :: 0 <= i < |p| - 1 ==> p[i] != '\n') && (a == [] || a[|a| - 1] == '\n')
    requires !Contains(a + x + b, p)
    ensures !Contains(a + b, p)
  {
    hide Contains, Joins;
    assert [] + a + (x + b) == a + x + b && a + x + b + [] == a + x + b;
    if Contains(a, p) { ContainsAround([], a, x + b, p); }
    if Contains(b, p) { ContainsAround(a + x, b, [], p); }
    RemovalJoins(a, b, p);
    LineJoinsNothing(a, b, p);
  }

  // ---- Dropping whole lines ---------------------------------------------------------------------

  function Without(lines: seq<string>, l: string): seq<string> {
    if lines == [] then []
    else
      var n := |lines| - 1;
      Without(lines[..n], l) + if lines[n] == l then [] else [lines[n]]
  }

  /** The lines without the workloads' extractions. */
  function Retained(lines: seq<string>, bs: seq<Benchmark>): seq<string> {
    if bs == [] then lines else Without(Retained(lines, bs[..|bs| - 1]), Extraction(bs[|bs| - 1]))
  }

  lemma {:induction false} EndedConcat(a: seq<string>, b: seq<string>)
    ensures Ended(a + b) == Ended(a) + Ended(b)
  {
    if b == [] {
      assert a + b == a;
    } else {
      var n := |b| - 1;
      EndedConcat(a, b[..n]);
      assert (a + b)[..|a| + n] == a + b[..n];
    }
  }

  lemma {:induction false} EndedOne(l: string)
    ensures Ended([l]) == l + "\n"
  {
    assert [l][..0] == [] && [] + (l + "\n") == l + "\n";
  }

  lemma {:induction false} EndedLast(lines: seq<string>)
    ensures Ended(lines) == [] || Ended(lines)[|Ended(lines)| - 1] == '\n'
  {
  }

  /** A line cut out of its text. */
  lemma {:induction false} EndedCut(lines: seq<string>, k: nat)
    requires k < |lines|
    ensures Ended(lines) == Ended(lines[..k]) + (lines[k] + "\n") + Ended(lines[k + 1..])
    ensures Ended(lines[..k] + lines[k + 1..]) == Ended(lines[..k]) + Ended(lines[k + 1..])
  {
    hide Ended;
    assert lines == lines[..k] + [lines[k]] + lines[k + 1..];
    EndedOne(lines[k]);
    EndedConcat(lines[..k], [lines[k]]);
    EndedConcat(lines[..k] + [lines[k]], lines[k + 1..]);
    EndedConcat(lines[..k], lines[k + 1..]);
  }

  /** A text whose first character occurs in it only once does not overlap itself. */
  predicate Rigid(q: string) {
    q != [] && forall i :: 0 < i < |q| ==> q[i] != q[0]
  }

  lemma {:induction false} NoOverlap(s: string, q: string, i: nat, j: nat)
    requires Rigid(q) && At(s, q, i) && At(s, q, j) && i < j
    ensures i + |q| <= j
  {
    forall e | i < e < i + |q| ensures s[e] != q[0] { assert s[i..][..|q|][e - i] == s[e]; }
    assert s[j..][..|q|][0] == s[j];
  }

  /** The one occurrence that is removed is the one known. */
  lemma {:induction false} RemovesThere(a: string, q: string, b: string)
    requires Rigid(q) && RemoveOnly(a + q + b, q).Some?
    ensures RemoveOnly(a + q + b, q).value == a + b && !Contains(a, q) && !Contains(b, q)
  {
    var s, j := a + q + b, |a|;
    var i := Find(s, q).value;
    assert s[j..][..|q|] == q && At(s, q, j) && At(s, q, i);
    if i < j {
      NoOverlap(s, q, i, j);
      assert s == s[..i + |q|] + s[i + |q|..];
      AtRight(s[..i + |q|], s[i + |q|..], q, j);
    }
    assert i == j;
    assert s[i + |q|..] == b && s[..i] == a;
    assert s == a + (q + b);
    forall k: nat ensures !At(a, q, k) {
      if k + |q| <= |a| { AtLeft(a, q + b, q, k); }
    }
  }

  lemma {:induction false} ExtractionIsRigid(b: Benchmark)
    ensures Rigid(Extraction(b) + "\n")
    ensures forall i :: 0 <= i < |Extraction(b)| ==> Extraction(b)[i] != '\n'
  {
    hide Slug;
    SlugIsPlain(b);
    var h, e := "(extract $speq-root-", Extraction(b);
    assert forall i :: 0 < i < |h| ==> h[i] != '(' && h[i] != '\n';
    forall i | 0 <= i < |e| ensures (i > 0 ==> e[i] != '(') && e[i] != '\n' {
      assert e[i] == if i < |h| then h[i] else if i < |h| + |Slug(b)| then Slug(b)[i - |h|] else " 0)"[i - |h| - |Slug(b)|];
    }
  }

  lemma {:induction false} WithoutSplit(a: seq<string>, l: string, b: seq<string>)
    requires l !in a && l !in b
    ensures Without(a + [l] + b, l) == a + b
  {
    if b == [] {
      assert (a + [l] + b)[..|a|] == a;
      WithoutNone(a, l);
    } else {
      var n := |b| - 1;
      WithoutSplit(a, l, b[..n]);
      assert (a + [l] + b)[..|a| + 1 + n] == a + [l] + b[..n];
      assert a + b == a + b[..n] + [b[n]];
    }
  }

  lemma {:induction false} WithoutNone(a: seq<string>, l: string)
    requires l !in a
    ensures Without(a, l) == a
  {
    if a != [] {
      WithoutNone(a[..|a| - 1], l);
      assert a == a[..|a| - 1] + [a[|a| - 1]];
    }
  }

  lemma {:induction false} WithoutOther(lines: seq<string>, l: string, x: string)
    requires x in lines && x != l
    ensures x in Without(lines, l)
  {
    var n := |lines| - 1;
    if lines[n] != x {
      assert x in lines[..n];
      WithoutOther(lines[..n], l, x);
    }
  }

  lemma {:induction false} LineIsContained(lines: seq<string>, l: string)
    requires l in lines
    ensures Contains(Ended(lines), l + "\n")
  {
    hide Ended;
    var k :| 0 <= k < |lines| && lines[k] == l;
    EndedCut(lines, k);
    assert At(l + "\n", l + "\n", 0);
    ContainsAround(Ended(lines[..k]), l + "\n", Ended(lines[k + 1..]), l + "\n");
  }

  /** Removing a line's text from the text is removing the line. */
  lemma {:induction false} RemoveLine(lines: seq<string>, l: string)
    requires l in lines && Rigid(l + "\n") && RemoveOnly(Ended(lines), l + "\n").Some?
    ensures RemoveOnly(Ended(lines), l + "\n").value == Ended(Without(lines, l))
  {
    hide Ended, RemoveOnly, Contains, Without, Rigid;
    var k :| 0 <= k < |lines| && lines[k] == l;
    var a, b, q := lines[..k], lines[k + 1..], l + "\n";
    EndedCut(lines, k);
    RemovesThere(Ended(a), q, Ended(b));
    if l in a { LineIsContained(a, l); }
    if l in b { LineIsContained(b, l); }
    assert lines == a + [l] + b;
    WithoutSplit(a, l, b);
  }

  /** And the line is then nowhere in the text. */
  lemma {:induction false} RemovedLineIsGone(lines: seq<string>, l: string)
    requires l in lines && Rigid(l + "\n") && RemoveOnly(Ended(lines), l + "\n").Some?
    requires forall i :: 0 <= i < |l| ==> l[i] != '\n'
    ensures !Contains(Ended(Without(lines, l)), l + "\n")
  {
    hide Ended, RemoveOnly, Contains, Without, Rigid, Joins;
    RemoveLine(lines, l);
    var k :| 0 <= k < |lines| && lines[k] == l;
    var a, b, q := Ended(lines[..k]), Ended(lines[k + 1..]), l + "\n";
    EndedCut(lines, k);
    RemovesThere(a, q, b);
    EndedLast(lines[..k]);
    RemovalJoins(a, b, q);
    LineJoinsNothing(a, b, q);
  }

  /** Every removal of a line leaves what is not contained not contained. */
  lemma {:induction false} RemoveLineAddsNothing(lines: seq<string>, l: string, p: string)
    requires l in lines && Rigid(l + "\n") && RemoveOnly(Ended(lines), l + "\n").Some?
    requires p != [] && (forall i :: 0 <= i < |p| - 1 ==> p[i] != '\n') && !Contains(Ended(lines), p)
    ensures !Contains(Ended(Without(lines, l)), p)
  {
    hide Ended, RemoveOnly, Contains, Without, Rigid;
    RemoveLine(lines, l);
    var k :| 0 <= k < |lines| && lines[k] == l;
    EndedCut(lines, k);
    RemovesThere(Ended(lines[..k]), l + "\n", Ended(lines[k + 1..]));
    EndedLast(lines[..k]);
    LineRemovalAddsNothing(Ended(lines[..k]), l + "\n", Ended(lines[k + 1..]), p);
  }

  lemma {:induction false} TemporaryIsPlain()
    ensures TEMPORARY != [] && forall i :: 0 <= i < |TEMPORARY| - 1 ==> TEMPORARY[i] != '\n'
  {
  }

  /** After some removals: the text of the retained lines, without a temporary and without those extractions. */
  ghost predicate Dropped(lines: seq<string>, bs: seq<Benchmark>, text: string) {
    && text == Ended(Retained(lines, bs))
    && !Contains(text, TEMPORARY)
    && (forall b :: b in bs ==> !Contains(text, Extraction(b) + "\n"))
    && (forall x :: x in lines && (forall b :: b in bs ==> x != Extraction(b)) ==> x in Retained(lines, bs))
  }

  lemma {:induction false} DropOne(lines: seq<string>, bs: seq<Benchmark>, b: Benchmark, text: string)
    requires Dropped(lines, bs, text) && Extraction(b) in lines && RemoveOnly(text, Extraction(b) + "\n").Some?
    ensures Dropped(lines, bs + [b], RemoveOnly(text, Extraction(b) + "\n").value)
  {
    hide Ended, Contains, Without, Rigid, Extraction;
    var e, kept := Extraction(b), Retained(lines, bs);
    RemoveFinds(text, e + "\n");
    assert forall c :: c in bs ==> Extraction(c) != e;
    ExtractionIsRigid(b);
    hide RemoveOnly;
    RemoveLine(kept, e);
    var text' := Ended(Without(kept, e));
    assert (bs + [b])[..|bs|] == bs;
    TemporaryIsPlain();
    RemoveLineAddsNothing(kept, e, TEMPORARY);
    forall c | c in bs + [b] ensures !Contains(text', Extraction(c) + "\n") {
      if c in bs {
        ExtractionIsRigid(c);
        RemoveLineAddsNothing(kept, e, Extraction(c) + "\n");
      } else {
        RemovedLineIsGone(kept, e);
      }
    }
    forall x | x in lines && (forall c :: c in bs + [b] ==> x != Extraction(c)) ensures x in Retained(lines, bs + [b]) {
      assert b in bs + [b] && forall c :: c in bs ==> c in bs + [b];
      WithoutOther(kept, e, x);
    }
  }

  lemma {:induction false} RemoveFinds(s: string, p: string)
    requires RemoveOnly(s, p).Some?
    ensures Contains(s, p)
  {
    assert At(s, p, Find(s, p).value);
  }

  lemma {:induction false} DropSeveral(lines: seq<string>, bs: seq<Benchmark>)
    requires !Contains(Ended(lines), TEMPORARY) && DropExtractions(Ended(lines), bs).Some?
    requires forall b :: b in bs ==> Extraction(b) in lines
    ensures Dropped(lines, bs, DropExtractions(Ended(lines), bs).value)
  {
    hide Ended, Contains, RemoveOnly, Extraction, Dropped;
    if bs == [] {
      DroppedNothing(lines);
    } else {
      var n := |bs| - 1;
      DropSeveral(lines, bs[..n]);
      DropOne(lines, bs[..n], bs[n], DropExtractions(Ended(lines), bs[..n]).value);
      assert bs == bs[..n] + [bs[n]];
    }
  }

  lemma {:induction false} DroppedNothing(lines: seq<string>)
    requires !Contains(Ended(lines), TEMPORARY)
    ensures Dropped(lines, [], Ended(lines))
  {
  }

  /**
   A normalized recording whose extractions are whole lines is its sorted lines without them, and holds no
   temporary.
   */
  lemma {:induction false} NoTemporaryRemains(lines: seq<string>, bs: seq<Benchmark>)
    requires Normalized(lines, bs).Some?
    requires forall b :: b in bs ==> Extraction(b) in TakeAll(lines, bs).value.output
    ensures !Contains(Normalized(lines, bs).value, TEMPORARY)
    ensures TakeAll(lines, bs).value.output != [] ==>
              Normalized(lines, bs).value == Ended(Retained(Blocks(TakeAll(lines, bs).value.output, []), bs))
  {
    hide TakeAll, Ended, Contains, Extraction, Blocks, DropExtractions, OutlineOf;
    var output := TakeAll(lines, bs).value.output;
    var sorted := Blocks(output, []);
    BlocksContents(output, []);
    assert output != [] ==> sorted != [] by { assert output != [] ==> output[0] in output; }
    if bs == [] {
      DropNone(Text(sorted));
    } else {
      assert bs[0] in bs;
      DropSeveral(sorted, bs);
      DroppedParts(sorted, bs, DropExtractions(Ended(sorted), bs).value);
    }
  }

  lemma {:induction false} DroppedParts(lines: seq<string>, bs: seq<Benchmark>, text: string)
    requires Dropped(lines, bs, text)
    ensures text == Ended(Retained(lines, bs)) && !Contains(text, TEMPORARY)
  {
  }

  lemma {:induction false} DropNone(s: string)
    ensures DropExtractions(s, []) == Some(s)
  {
  }

  /** Sorting keeps every line. */
  lemma {:induction false} BlocksContents(lines: seq<string>, run: seq<string>)
    ensures multiset(Blocks(lines, run)) == multiset(run) + multiset(lines)
    ensures forall x :: x in lines ==> x in Blocks(lines, run)
    decreases |lines|
  {
    hide Sort, Declares;
    SortFacts(run);
    if lines != [] {
      assert lines == [lines[0]] + lines[1..];
      if Declares(lines[0]) {
        BlocksContents(lines[1..], run + [lines[0]]);
      } else {
        BlocksContents(lines[1..], []);
      }
    }
    forall x | x in lines ensures x in Blocks(lines, run) { assert x in multiset(Blocks(lines, run)); }
  }
}
