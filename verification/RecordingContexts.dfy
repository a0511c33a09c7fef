/**
 What the line loop of a recording keeps at every line, from the lines alone:
 the number of contexts, the two ruleset names of the open one, the temporaries
 bound since it was opened, and what is written.  With it the exact conditions
 under which a recording is normalized at all.
 */
module RecordingContexts {
  import opened Prelude
  import opened Substitution
  import opened ConstructorBlocks
  import opened Recording

  // ---- Slugs -------------------------------------------------------------------------------

  function RunLength(s: string): (n: nat)
    ensures n <= |s|
    ensures forall i :: 0 <= i < n ==> InSlug(s[i])
    ensures n < |s| ==> !InSlug(s[n])
  {
    if s == [] || !InSlug(s[0]) then 0 else 1 + RunLength(s[1..])
  }

  /** The maximal runs of lower-case letters and digits. */
  function Runs(s: string): seq<string>
    decreases |s|
  {
    if s == [] then []
    else if !InSlug(s[0]) then Runs(s[1..])
    else
      var n := RunLength(s);
      assert n > 0;
      [s[..n]] + Runs(s[n..])
  }

  function DashJoin(rs: seq<string>): string {
    if rs == [] then "" else if |rs| == 1 then rs[0] else rs[0] + "-" + DashJoin(rs[1..])
  }

  lemma {:induction false} DashedStart(s: string)
    ensures Dashed(s, true) != [] ==> Dashed(s, true)[0] != '-'
    ensures StripLeft(Dashed(s, true)) == Dashed(s, true)
  {
    if s != [] && !InSlug(s[0]) { DashedStart(s[1..]); }
  }

  /** Stripping on the left is as if a dash had just been written. */
  lemma {:induction false} StripLeftDashed(s: string)
    ensures StripLeft(Dashed(s, false)) == Dashed(s, true)
  {
    if s != [] {
      if InSlug(s[0]) {
        assert Dashed(s, false)[0] == s[0];
      } else {
        DashedStart(s[1..]);
        assert ("-" + Dashed(s[1..], true))[1..] == Dashed(s[1..], true);
      }
    }
  }

  lemma {:induction false} DashedRun(s: string, after: bool)
    ensures var n := RunLength(s); n > 0 ==> Dashed(s, after) == s[..n] + Dashed(s[n..], false)
  {
    if s != [] && InSlug(s[0]) {
      var n := RunLength(s);
      DashedRun(s[1..], false);
      if n == 1 {
        assert s[..1] == [s[0]];
      } else {
        assert s[1..][n - 1..] == s[n..];
        assert s[..n] == [s[0]] + s[1..][..n - 1];
      }
    }
  }

  lemma {:induction false} StripRun(a: string, b: string)
    requires a != [] && a[|a| - 1] != '-'
    ensures StripRight(a + b) == a + StripRight(b)
    ensures StripRight(a + "-" + b) == if StripRight(b) == [] then a else a + "-" + StripRight(b)
    decreases |b|
  {
    if b == [] {
      assert a + b == a && a + "-" + b == a + "-";
      assert (a + "-")[..|a|] == a;
      assert StripRight(a) == a;
    } else {
      var n := |b| - 1;
      StripRun(a, b[..n]);
      assert (a + b)[..|a| + n] == a + b[..n] && (a + "-" + b)[..|a| + 1 + n] == a + "-" + b[..n];
    }
  }

  lemma {:induction false} RunsFilled(s: string)
    ensures forall i :: 0 <= i < |Runs(s)| ==> Runs(s)[i] != []
    decreases |s|
  {
    if s != [] {
      if InSlug(s[0]) { RunsFilled(s[RunLength(s)..]); } else { RunsFilled(s[1..]); }
    }
  }

  lemma {:induction false} JoinEmpty(rs: seq<string>)
    requires forall i :: 0 <= i < |rs| ==> rs[i] != []
    ensures DashJoin(rs) == [] <==> rs == []
  {
  }

  lemma {:induction false} DashedRuns(s: string)
    ensures StripRight(Dashed(s, true)) == DashJoin(Runs(s))
    decreases |s|
  {
    if s != [] {
      if InSlug(s[0]) {
        DashedRunFirst(s);
      } else {
        DashedRuns(s[1..]);
        assert Dashed(s, true) == Dashed(s[1..], true);
      }
    }
  }

  lemma {:induction false} DashedRunFirst(s: string)
    requires s != [] && InSlug(s[0])
    ensures StripRight(Dashed(s, true)) == DashJoin(Runs(s))
    decreases |s|, 0
  {
    hide Dashed, StripRight, DashJoin;
    var n := RunLength(s);
    var run, rest := s[..n], s[n..];
    assert n > 0 && run[|run| - 1] == s[n - 1];
    DashedRun(s, true);
    if rest == [] {
      DashedNothing();
      StripRun(run, "");
      JoinOne(run);
      assert Runs(s) == [run];
    } else {
      DashedGap(rest);
      DashedRuns(rest[1..]);
      StripRun(run, Dashed(rest[1..], true));
      RunsFilled(rest);
      JoinEmpty(Runs(rest));
      JoinMore(run, Runs(rest));
      assert run + ("-" + Dashed(rest[1..], true)) == run + "-" + Dashed(rest[1..], true);
    }
  }

  lemma {:induction false} DashedNothing()
    ensures Dashed("", false) == "" && StripRight("") == ""
  {
  }

  lemma {:induction false} DashedGap(s: string)
    requires s != [] && !InSlug(s[0])
    ensures Dashed(s, false) == "-" + Dashed(s[1..], true) && Runs(s) == Runs(s[1..])
  {
  }

  lemma {:induction false} JoinOne(r: string)
    ensures DashJoin([r]) == r
  {
  }

  lemma {:induction false} JoinMore(r: string, rs: seq<string>)
    ensures DashJoin([r] + rs) == if rs == [] then r else r + "-" + DashJoin(rs)
  {
    assert ([r] + rs)[1..] == rs;
  }

  /** A slug is the runs of lower-case letters and digits of the lowered name, joined by single dashes. */
  lemma {:induction false} SlugJoinsRuns(b: Benchmark)
    ensures Slug(b) == DashJoin(Runs(b.lowered))
  {
    StripLeftDashed(b.lowered);
    DashedRuns(b.lowered);
  }

  // ---- Temporary lets -----------------------------------------------------------------------

  /** `$__expr_` and at least one digit, and nothing else. */
  predicate IsTemporary(n: string) {
    |n| > 8 && n[..8] == "$__expr_" && forall i :: 8 <= i < |n| ==> '0' <= n[i] <= '9'
  }

  ghost predicate LetOf(line: string, n: string, e: string) { IsTemporary(n) && line == "(let " + n + " " + e + ")" }

  ghost predicate LetNamed(line: string, n: string) { exists e :: LetOf(line, n, e) }

  lemma {:induction false} DigitsAre(s: string)
    ensures forall i :: 0 <= i < DigitsLength(s) ==> '0' <= s[i] <= '9'
    ensures DigitsLength(s) < |s| ==> !('0' <= s[DigitsLength(s)] <= '9')
  {
    if s != [] && '0' <= s[0] <= '9' { DigitsAre(s[1..]); }
  }

  lemma {:induction false} DigitsOf(d: string, rest: string)
    requires (forall i :: 0 <= i < |d| ==> '0' <= d[i] <= '9') && rest != [] && !('0' <= rest[0] <= '9')
    ensures DigitsLength(d + rest) == |d|
  {
    if d == [] {
      assert d + rest == rest;
    } else {
      DigitsOf(d[1..], rest);
      assert (d + rest)[1..] == d[1..] + rest;
    }
  }

  lemma {:induction false} LetIsRead(line: string, n: string, e: string)
    requires LetOf(line, n, e)
    ensures TemporaryLet(line) == Some((n, e))
  {
    hide DigitsLength;
    var d := n[8..];
    assert n == "$__expr_" + d;
    assert LET_HEAD == "(let " + "$__expr_";
    assert line == LET_HEAD + (d + (" " + e + ")"));
    assert line[..|LET_HEAD|] == LET_HEAD && line[|LET_HEAD|..] == d + (" " + e + ")");
    forall i | 0 <= i < |d| ensures '0' <= d[i] <= '9' { assert d[i] == n[8 + i]; }
    DigitsOf(d, " " + e + ")");
    var k := |LET_HEAD| + |d|;
    assert line[k] == ' ' && line[|line| - 1] == ')';
    assert line[5..k] == n && line[k + 1..|line| - 1] == e;
  }

  lemma {:induction false} ReadIsLet(line: string)
    requires TemporaryLet(line).Some?
    ensures LetOf(line, TemporaryLet(line).value.0, TemporaryLet(line).value.1)
  {
    hide DigitsLength;
    var h := |LET_HEAD|;
    var d := DigitsLength(line[h..]);
    DigitsAre(line[h..]);
    var n, e := line[5..h + d], line[h + d + 1..|line| - 1];
    assert LET_HEAD[..5] == "(let " && LET_HEAD[5..] == "$__expr_" && |LET_HEAD| == 13;
    assert line[..5] == line[..h][..5] && n[..8] == line[..h][5..];
    forall i | 8 <= i < |n| ensures '0' <= n[i] <= '9' { assert n[i] == line[h..][i - 8]; }
    assert line == line[..5] + n + [line[h + d]] + e + [line[|line| - 1]];
  }

  /** The recorder takes a line for a temporary let exactly if it has that form, and then reads its name and expression. */
  lemma {:induction false} TemporaryLetIff(line: string, n: string, e: string)
    ensures TemporaryLet(line) == Some((n, e)) <==> LetOf(line, n, e)
  {
    hide TemporaryLet, LetOf;
    if LetOf(line, n, e) { LetIsRead(line, n, e); }
    if TemporaryLet(line) == Some((n, e)) { ReadIsLet(line); }
  }

  // ---- The loop, line by line ------------------------------------------------------------------

  predicate Marks(line: string) { line == "(push 1)" || line == "(pop 1)" }

  function Pushes(lines: seq<string>): nat {
    if lines == [] then 0 else Pushes(lines[..|lines| - 1]) + if lines[|lines| - 1] == "(push 1)" then 1 else 0
  }

  function Lets(lines: seq<string>): nat {
    if lines == [] then 0 else Lets(lines[..|lines| - 1]) + if TemporaryLet(lines[|lines| - 1]).Some? then 1 else 0
  }

  /** The context in force after the lines was opened or closed just before line `m`. */
  ghost predicate Boundary(lines: seq<string>, m: nat) {
    && m <= |lines| && (m == 0 || Marks(lines[m - 1]))
    && forall j :: m <= j < |lines| ==> !Marks(lines[j])
  }

  /** What is substituted in a line after these. */
  function Bound(lines: seq<string>, bs: seq<Benchmark>): map<string, string>
    requires TakeAll(lines, bs).Some?
  {
    TakeAll(lines, bs).value.renamed + TakeAll(lines, bs).value.lets
  }

  lemma {:induction false} MarksAreNoLets(line: string)
    requires Marks(line)
    ensures TemporaryLet(line).None?
  {
    assert |line| < |LET_HEAD|;
  }

  /** The loop fails exactly at a context too many, and counts contexts and lets. */
  lemma {:induction false} TakeAllIff(lines: seq<string>, bs: seq<Benchmark>)
    ensures TakeAll(lines, bs).Some? <==> Pushes(lines) <= |bs|
    ensures TakeAll(lines, bs).Some? ==> TakeAll(lines, bs).value.context == Pushes(lines) && TakeAll(lines, bs).value.count == Lets(lines)
  {
    hide TemporaryLet, Substitute, Renames, Heading;
    if lines != [] {
      var line := lines[|lines| - 1];
      TakeAllIff(lines[..|lines| - 1], bs);
      if Marks(line) { MarksAreNoLets(line); }
    }
  }

  /** The names of the open context: the two rulesets with the slug of its workload, and none outside a context. */
  lemma {:induction false} ContextNames(lines: seq<string>, bs: seq<Benchmark>, m: nat)
    requires TakeAll(lines, bs).Some? && Boundary(lines, m)
    ensures
      var r := TakeAll(lines, bs).value;
      if m > 0 && lines[m - 1] == "(push 1)" then
        && 0 < Pushes(lines) <= |bs|
        && var slug := DashJoin(Runs(bs[Pushes(lines) - 1].lowered));
        r.renamed == map["parseIR.transform" := "parseIR.transform" + "-" + slug, "parseIR.expand" := "parseIR.expand" + "-" + slug]
      else r.renamed == map[]
  {
    hide TemporaryLet, Substitute, Heading, Slug, DashJoin, Runs;
    TakeAllIff(lines, bs);
    if lines != [] {
      var n := |lines| - 1;
      if m == |lines| {
        TakeAllIff(lines[..n], bs);
        if lines[n] == "(push 1)" { SlugJoinsRuns(bs[Pushes(lines) - 1]); }
      } else {
        ContextNames(lines[..n], bs, m);
      }
    }
  }

  /** The temporaries in force are those bound since the context was opened, each with its last expression, inlined where it stood. */
  lemma {:induction false} ContextLets(lines: seq<string>, bs: seq<Benchmark>, m: nat, name: string)
    requires TakeAll(lines, bs).Some? && Boundary(lines, m)
    ensures name in TakeAll(lines, bs).value.lets <==> exists j, e :: m <= j < |lines| && LetOf(lines[j], name, e)
  {
    hide TemporaryLet, Substitute, Heading, Renames, LetOf;
    if lines != [] {
      var n := |lines| - 1;
      if m < |lines| {
        ContextLets(lines[..n], bs, m, name);
        LastLet(lines, bs, m, name);
      }
    }
  }

  ghost predicate Bindings(lines: seq<string>, m: nat, name: string) { exists j, e :: m <= j < |lines| && LetOf(lines[j], name, e) }

  lemma {:induction false} BindingsSnoc(lines: seq<string>, m: nat, name: string)
    requires m < |lines|
    ensures Bindings(lines, m, name) <==> Bindings(lines[..|lines| - 1], m, name) || LetNamed(lines[|lines| - 1], name)
  {
    hide LetOf;
    var n := |lines| - 1;
    if Bindings(lines, m, name) {
      var j, e :| m <= j < |lines| && LetOf(lines[j], name, e);
      if j < n { assert LetOf(lines[..n][j], name, e); }
    }
    if Bindings(lines[..n], m, name) {
      var j, e :| m <= j < n && LetOf(lines[..n][j], name, e);
      assert LetOf(lines[j], name, e);
    }
    if e :| LetOf(lines[n], name, e) { assert m <= n < |lines|; }
  }

  lemma {:induction false} LastLet(lines: seq<string>, bs: seq<Benchmark>, m: nat, name: string)
    requires TakeAll(lines, bs).Some? && Boundary(lines, m) && m < |lines| && TakeAll(lines[..|lines| - 1], bs).Some?
    requires name in TakeAll(lines[..|lines| - 1], bs).value.lets <==> Bindings(lines[..|lines| - 1], m, name)
    ensures name in TakeAll(lines, bs).value.lets <==> Bindings(lines, m, name)
  {
    hide TemporaryLet, Substitute, Heading, Renames, LetOf, Bindings;
    var line := lines[|lines| - 1];
    BindingsSnoc(lines, m, name);
    if TemporaryLet(line).Some? {
      ReadIsLet(line);
      var (x, e) := TemporaryLet(line).value;
      forall y, f | LetOf(line, y, f) ensures y == x { LetIsRead(line, y, f); }
    } else {
      forall f | LetOf(line, name, f) ensures false { LetIsRead(line, name, f); }
    }
  }

  /** A let binds its expression, inlined; it stays until the name is bound again or the context ends. */
  lemma {:induction false} LetValue(lines: seq<string>, bs: seq<Benchmark>, m: nat, j: nat, name: string, e: string)
    requires TakeAll(lines, bs).Some? && Boundary(lines, m) && m <= j < |lines| && LetOf(lines[j], name, e)
    requires forall k :: j < k < |lines| ==> !LetNamed(lines[k], name)
    ensures
      var r := TakeAll(lines, bs).value;
      TakeAll(lines[..j], bs).Some? && name in r.lets && r.lets[name] == Substitute(e, Bound(lines[..j], bs))
  {
    hide TemporaryLet, Substitute, Heading, Renames, LetOf;
    var n := |lines| - 1;
    if j == n {
      LetIsRead(lines[n], name, e);
    } else {
      assert lines[..n][..j] == lines[..j];
      LetValue(lines[..n], bs, m, j, name, e);
      if TemporaryLet(lines[n]).Some? { ReadIsLet(lines[n]); }
    }
  }

  /** What a line adds to the text. */
  ghost predicate Writes(lines: seq<string>, bs: seq<Benchmark>, j: nat, written: seq<string>)
    requires j < |lines| && TakeAll(lines[..j], bs).Some?
  {
    if lines[j] == "(push 1)" then
      Pushes(lines[..j]) < |bs| && written == [";; Preserved artifact workload: " + bs[Pushes(lines[..j])].name, "(push 1)"]
    else if lines[j] == "(pop 1)" then written == ["(pop 1)"]
    else if exists n, e :: LetOf(lines[j], n, e) then written == []
    else written == [Substitute(lines[j], Bound(lines[..j], bs))]
  }

  /** Every line writes its own part: a heading before each context, nothing for a let, and the inlined text for the rest. */
  lemma {:induction false} OutputSnoc(lines: seq<string>, bs: seq<Benchmark>)
    requires lines != [] && TakeAll(lines, bs).Some?
    ensures
      var n := |lines| - 1;
      && TakeAll(lines[..n], bs).Some?
      && var before, after := TakeAll(lines[..n], bs).value.output, TakeAll(lines, bs).value.output;
      before <= after && Writes(lines, bs, n, after[|before|..])
  {
    hide TemporaryLet, Substitute, Renames, LetOf;
    var n := |lines| - 1;
    var line := lines[n];
    TakeAllIff(lines[..n], bs);
    if TemporaryLet(line).Some? {
      ReadIsLet(line);
    } else {
      forall x, e | LetOf(line, x, e) ensures false { LetIsRead(line, x, e); }
    }
  }

  // ---- When a recording is normalized -------------------------------------------------------------

  /** `q` occurs in `s` exactly once. */
  ghost predicate Once(s: string, q: string) { exists a, b :: s == a + q + b && !Contains(a, q) && !Contains(b, q) }

  /** Removing succeeds exactly for a text that occurs once, and takes it out. */
  lemma {:induction false} RemoveOnlyIff(s: string, q: string, t: string)
    requires Rigid(q)
    ensures RemoveOnly(s, q) == Some(t) <==> exists a, b :: s == a + q + b && t == a + b && !Contains(a, q) && !Contains(b, q)
  {
    hide Contains;
    if RemoveOnly(s, q) == Some(t) {
      var i := Find(s, q).value;
      var a, b := s[..i], s[i + |q|..];
      assert s == a + q + b;
      RemovesThere(a, q, b);
    }
    if a, b :| s == a + q + b && t == a + b && !Contains(a, q) && !Contains(b, q) { RemovesOnce(a, q, b); }
  }

  lemma {:induction false} RemovesOnce(a: string, q: string, b: string)
    requires Rigid(q) && !Contains(a, q) && !Contains(b, q)
    ensures RemoveOnly(a + q + b, q) == Some(a + b)
  {
    var s := a + q + b;
    assert At(s, q, |a|) by { assert s[|a|..][..|q|] == q; }
    var i := Find(s, q);
    assert i.Some? && i.value <= |a|;
    assert At(s, q, i.value);
    if i.value < |a| {
      NoOverlap(s, q, i.value, |a|);
      assert s == a + (q + b);
      AtLeft(a, q + b, q, i.value);
    }
    assert s[..|a|] == a && s[|a| + |q|..] == b;
    var j := Find(b, q);
    if j.Some? { assert At(b, q, j.value); }
  }

  /**
   A recording is normalized if and only if it has as many contexts as there are workloads, at least as many temporary
   lets, no temporary in its sorted text, and each workload's extraction can be removed in turn.
   */
  lemma {:induction false} NormalizedIff(lines: seq<string>, bs: seq<Benchmark>, t: string)
    ensures Normalized(lines, bs) == Some(t) <==>
            && Pushes(lines) == |bs| && Lets(lines) >= |bs| && TakeAll(lines, bs).Some?
            && var text := Text(Blocks(TakeAll(lines, bs).value.output, []));
            !Contains(text, "$__expr_") && DropExtractions(text, bs) == Some(t)
  {
    hide TakeAll, DropExtractions, Blocks, Text, Contains, Find, Pushes, Lets;
    TakeAllIff(lines, bs);
    if TakeAll(lines, bs).Some? {
      FindIff(Text(Blocks(TakeAll(lines, bs).value.output, [])), "$__expr_");
    }
  }

  lemma {:induction false} FindIff(s: string, p: string)
    ensures Find(s, p).Some? <==> Contains(s, p)
  {
    if Find(s, p).Some? { assert At(s, p, Find(s, p).value); }
  }

  /** The removals one by one: the text of each extraction line occurs exactly once when its turn comes. */
  lemma {:induction false} DropIff(s: string, bs: seq<Benchmark>, t: string)
    requires bs != []
    ensures
      var n := |bs| - 1;
      var q := "(extract $speq-root-" + DashJoin(Runs(bs[n].lowered)) + " 0)" + "\n";
      DropExtractions(s, bs) == Some(t) <==>
        exists a, b :: DropExtractions(s, bs[..n]) == Some(a + q + b) && t == a + b && !Contains(a, q) && !Contains(b, q)
  {
    hide Contains, RemoveOnly, DashJoin, Runs, Slug, Rigid;
    var n := |bs| - 1;
    SlugJoinsRuns(bs[n]);
    ExtractionIsRigid(bs[n]);
    var q, before := Extraction(bs[n]) + "\n", DropExtractions(s, bs[..n]);
    if before.Some? { RemoveOnlyIff(before.value, q, t); }
  }
}
