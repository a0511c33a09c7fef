/**
 Whether a temporary is left in a normalized recording.  The check for them
 comes before the extractions are removed, so one is left exactly when at some
 removal the two sides of the extraction join into it; a recording that does
 this is given.
 */
module RecordingSplices {
  import opened Prelude
  import opened Substitution
  import opened TextOrder
  import opened ConstructorBlocks
  import opened Recording

  // ---- One removal ------------------------------------------------------------------------

  lemma {:induction false} AtText(s: string, p: string, i: nat, d: nat)
    requires At(s, p, i) && d < |p|
    ensures i + d < |s| && s[i + d] == p[d]
  {
    assert s[i..][..|p|][d] == s[i + d];
  }

  lemma {:induction false} TemporaryText()
    ensures |TEMPORARY| == 8 && TEMPORARY[0] == '$' && TEMPORARY[1] == '_'
    ensures forall d :: 0 <= d < 8 ==> TEMPORARY[d] != '(' && TEMPORARY[d] != '\n'
  {
  }

  /** An extraction's only dollar starts the root's name. */
  lemma {:induction false} ExtractionText(b: Benchmark)
    ensures
      var q := Extraction(b) + "\n";
      && |q| > 20 && q[0] == '(' && q[|q| - 1] == '\n' && q[10] == 's'
      && forall i :: 0 <= i < |q| && q[i] == '$' ==> i == 9
  {
    hide Slug;
    SlugIsPlain(b);
    var h, q := "(extract $speq-root-", Extraction(b) + "\n";
    assert forall i :: 0 <= i < |h| && h[i] == '$' ==> i == 9;
    forall i | 0 <= i < |q| ensures q[i] == '$' ==> i == 9 {
      assert q[i] == if i < |h| then h[i] else if i < |h| + |Slug(b)| then Slug(b)[i - |h|] else " 0)\n"[i - |h| - |Slug(b)|];
    }
  }

  /** No temporary reaches into an extraction. */
  lemma {:induction false} TemporaryApart(a: string, b: Benchmark, z: string, i: nat)
    requires At(a + (Extraction(b) + "\n") + z, TEMPORARY, i)
    ensures i + 8 <= |a| || |a| + |Extraction(b) + "\n"| <= i
  {
    hide Extraction, At;
    var q := Extraction(b) + "\n";
    var s := a + q + z;
    ExtractionText(b);
    TemporaryText();
    forall k | i <= k < i + 8 ensures k < |s| && s[k] != '(' { AtText(s, TEMPORARY, i, k - i); }
    assert s[|a|] == '(';
    if |a| < i < |a| + |q| { NotInside(a, b, z, i); }
  }

  lemma {:induction false} NotInside(a: string, b: Benchmark, z: string, i: nat)
    requires |a| < i < |a| + |Extraction(b) + "\n"|
    ensures !At(a + (Extraction(b) + "\n") + z, TEMPORARY, i)
  {
    hide Extraction, At;
    var q := Extraction(b) + "\n";
    var s, k := a + q + z, i - |a|;
    ExtractionText(b);
    TemporaryText();
    assert s[i] == q[k] && (k == 9 ==> s[i + 1] == q[10]);
    if At(s, TEMPORARY, i) {
      AtText(s, TEMPORARY, i, 0);
      AtText(s, TEMPORARY, i, 1);
    }
  }

  /** A removal keeps every temporary, and adds one exactly where the two sides join into it. */
  lemma {:induction false} RemovalReveals(a: string, b: Benchmark, z: string)
    ensures Contains(a + z, TEMPORARY) <==> Contains(a + (Extraction(b) + "\n") + z, TEMPORARY) || Joins(a, z, TEMPORARY)
  {
    hide Extraction, At;
    var q := Extraction(b) + "\n";
    var s := a + q + z;
    TemporaryText();
    if Contains(s, TEMPORARY) {
      var i: nat :| At(s, TEMPORARY, i);
      TemporaryApart(a, b, z, i);
      if i + 8 <= |a| {
        assert s == a + (q + z);
        AtLeft(a, q + z, TEMPORARY, i);
        AtLeft(a, z, TEMPORARY, i);
      } else {
        AtRight(a + q, z, TEMPORARY, i);
        AtRight(a, z, TEMPORARY, i - |q|);
      }
    } else {
      NotInSides(a, q, z);
      RemovalJoins(a, z, TEMPORARY);
    }
    if Joins(a, z, TEMPORARY) && Contains(s, TEMPORARY) { }
    if Joins(a, z, TEMPORARY) { JoinContains(a, z); }
  }

  lemma {:induction false} NotInSides(a: string, q: string, z: string)
    requires !Contains(a + q + z, TEMPORARY)
    ensures !Contains(a, TEMPORARY) && !Contains(z, TEMPORARY)
  {
    hide Contains;
    assert [] + a + (q + z) == a + q + z && a + q + z + [] == a + q + z;
    if Contains(a, TEMPORARY) { ContainsAround([], a, q + z, TEMPORARY); }
    if Contains(z, TEMPORARY) { ContainsAround(a + q, z, [], TEMPORARY); }
  }

  lemma {:induction false} JoinContains(a: string, z: string)
    requires Joins(a, z, TEMPORARY)
    ensures Contains(a + z, TEMPORARY)
  {
    var p := TEMPORARY;
    var k: nat :| JoinsAt(a, z, p, k);
    var i := |a| - k;
    assert (a + z)[i..][..|p|] == a[i..] + z[..|p| - k];
    assert At(a + z, p, i);
  }

  // ---- All removals ---------------------------------------------------------------------------

  /** At removal `k` the two sides of the extraction join into a temporary. */
  ghost predicate Splices(text: string, bs: seq<Benchmark>, k: nat) {
    && k < |bs| && DropExtractions(text, bs[..k]).Some?
    && var t, q := DropExtractions(text, bs[..k]).value, Extraction(bs[k]) + "\n";
    && Find(t, q).Some?
    && Joins(t[..Find(t, q).value], t[Find(t, q).value + |q|..], TEMPORARY)
  }

  lemma {:induction false} RemoveSides(t: string, q: string)
    requires RemoveOnly(t, q).Some?
    ensures Find(t, q).Some?
    ensures
      var i := Find(t, q).value;
      t == t[..i] + q + t[i + |q|..] && RemoveOnly(t, q).value == t[..i] + t[i + |q|..]
  {
    var i := Find(t, q).value;
    assert t[i..i + |q|] == t[i..][..|q|] == q;
    assert t == t[..i] + t[i..i + |q|] + t[i + |q|..];
  }

  lemma {:induction false} DropsReveal(text: string, bs: seq<Benchmark>)
    requires DropExtractions(text, bs).Some?
    ensures Contains(DropExtractions(text, bs).value, TEMPORARY) <==>
            Contains(text, TEMPORARY) || exists k: nat :: Splices(text, bs, k)
  {
    hide Contains, Joins, RemoveOnly, Extraction, Find;
    if bs != [] {
      var n := |bs| - 1;
      DropsReveal(text, bs[..n]);
      var t, q := DropExtractions(text, bs[..n]).value, Extraction(bs[n]) + "\n";
      RemoveSides(t, q);
      var i := Find(t, q).value;
      RemovalReveals(t[..i], bs[n], t[i + |q|..]);
      assert Contains(DropExtractions(text, bs).value, TEMPORARY) <==> Contains(t, TEMPORARY) || Splices(text, bs, n);
      forall k: nat ensures Splices(text, bs[..n], k) <==> k < n && Splices(text, bs, k) {
        if k < n { assert bs[..n][..k] == bs[..k] && bs[..n][k] == bs[k]; }
      }
    }
  }

  /** A normalized recording holds a temporary if and only if one of the removals spliced it together. */
  lemma {:induction false} TemporaryRemainsIff(lines: seq<string>, bs: seq<Benchmark>)
    requires Normalized(lines, bs).Some?
    ensures Contains(Normalized(lines, bs).value, TEMPORARY) <==>
            exists k: nat :: Splices(Text(Blocks(TakeAll(lines, bs).value.output, [])), bs, k)
  {
    hide Contains, Splices, DropExtractions;
    var text := Text(Blocks(TakeAll(lines, bs).value.output, []));
    NormalizedIs(lines, bs);
    DropsReveal(text, bs);
    assert (exists k: nat :: Splices(text, bs, k)) <==> (exists k: nat :: Splices(Text(Blocks(TakeAll(lines, bs).value.output, [])), bs, k));
  }

  lemma {:induction false} NormalizedIs(lines: seq<string>, bs: seq<Benchmark>)
    requires Normalized(lines, bs).Some?
    ensures TakeAll(lines, bs).Some?
    ensures
      var text := Text(Blocks(TakeAll(lines, bs).value.output, []));
      Normalized(lines, bs) == DropExtractions(text, bs) && !Contains(text, TEMPORARY)
  {
    hide TakeAll, Blocks, DropExtractions, Text;
  }

  // ---- A recording that is left with one -----------------------------------------------------------

  const WORKLOAD := Benchmark("a", "a")
  const BINDING := "(let $__expr_1 x)"
  const SPLICED := "$__ex" + "(extract $speq-root-a 0)"
  const REST := "pr_1"
  const RECORDING := [PUSH, BINDING, SPLICED, REST]

  /** A text none of whose atoms can be a name to replace. */
  ghost predicate Foreign(s: string, m: map<string, string>) {
    forall k :: k in m ==> exists c :: c in k && c !in s
  }

  lemma {:induction false} ForeignStays(s: string, m: map<string, string>)
    requires Foreign(s, m)
    ensures Substitute(s, m) == s
    decreases |s|
  {
    if s != [] {
      var n := PieceLength(s);
      forall k | k in m ensures k != s[..n] {
        var c :| c in k && c !in s;
        assert c !in s[..n];
      }
      assert Foreign(s[n..], m) by {
        forall k | k in m ensures exists c :: c in k && c !in s[n..] {
          var c :| c in k && c !in s;
          assert c !in s[n..];
        }
      }
      ForeignStays(s[n..], m);
      assert s == s[..n] + s[n..];
    }
  }

  function Bound(x: string): map<string, string> { Renames(WORKLOAD) + map["$__expr_1" := x] }

  lemma {:induction false} ForeignByLetter(s: string, m: map<string, string>, c: char, d: char)
    requires c !in s && d !in s && forall k :: k in m ==> c in k || d in k
    ensures Foreign(s, m)
  {
  }

  lemma {:induction false} BoundLetters(x: string)
    ensures forall k :: k in Bound(x) ==> 'I' in k || ('1' in k && '$' in k)
    ensures forall k :: k in Renames(WORKLOAD) ==> 'I' in k
  {
    hide Slug;
    assert TRANSFORM[5] == 'I' && EXPAND[5] == 'I' && "$__expr_1"[8] == '1' && "$__expr_1"[0] == '$';
  }

  lemma {:induction false} LineLetters()
    ensures 'I' !in SPLICED && '1' !in SPLICED && 'I' !in REST && '$' !in REST && 'I' !in "x"
  {
    assert 'I' !in "$__ex" && '1' !in "$__ex";
    assert 'I' !in "(extract $speq-root-a 0)" && '1' !in "(extract $speq-root-a 0)";
  }

  lemma {:induction false} ForeignLines(x: string)
    ensures Foreign(SPLICED, Bound(x)) && Foreign(REST, Bound(x)) && Foreign("x", Renames(WORKLOAD))
  {
    hide Bound, Renames, SPLICED, REST, Foreign;
    BoundLetters(x);
    LineLetters();
    ForeignByLetter(SPLICED, Bound(x), 'I', '1');
    ForeignByLetter(REST, Bound(x), 'I', '$');
    ForeignByLetter("x", Renames(WORKLOAD), 'I', 'I');
  }

  lemma {:induction false} BindingParses()
    ensures TemporaryLet(BINDING) == Some(("$__expr_1", "x"))
  {
    assert BINDING[..13] == LET_HEAD && BINDING[13..] == "1 x)";
    assert "1 x)"[1..] == " x)";
    assert DigitsLength(" x)") == 0;
    assert DigitsLength(BINDING[13..]) == 1;
    assert BINDING[5..14] == "$__expr_1" && BINDING[15..16] == "x";
  }

  lemma {:induction false} PlainLines()
    ensures SPLICED != PUSH && SPLICED != POP && TemporaryLet(SPLICED).None?
    ensures REST != PUSH && REST != POP && TemporaryLet(REST).None? && BINDING != PUSH && BINDING != POP
  {
    assert SPLICED[0] == '$' && REST[0] == 'p' && PUSH[0] == '(' && POP[0] == '(' && LET_HEAD[0] == '(';
    assert |BINDING| != |PUSH| && |BINDING| != |POP|;
    if |SPLICED| >= 13 { assert SPLICED[..13][0] == '$'; }
  }

  const OUTPUT := [Heading(WORKLOAD), PUSH, SPLICED, REST]

  lemma {:induction false} RecordingTakes()
    ensures
      var r := TakeAll(RECORDING, [WORKLOAD]);
      r.Some? && r.value.output == OUTPUT && r.value.context == 1 && r.value.count == 1
  {
    hide Substitute, TemporaryLet, Renames, Heading, SPLICED, REST, BINDING, PUSH, POP;
    var bs := [WORKLOAD];
    PlainLines();
    BindingParses();
    TakeNothing(bs);
    var r1 := Recorder(map[], Renames(WORKLOAD), [Heading(WORKLOAD), PUSH], 0, 1);
    TakeMore([], PUSH, bs);
    assert [] + [PUSH] == [PUSH] && [] + [Heading(WORKLOAD), PUSH] == [Heading(WORKLOAD), PUSH];
    assert TakeAll([PUSH], bs) == Some(r1);
    var x := Substitute("x", Renames(WORKLOAD) + map[]);
    var r2 := r1.(lets := map["$__expr_1" := x], count := 1);
    TakeMore([PUSH], BINDING, bs);
    assert [PUSH] + [BINDING] == [PUSH, BINDING];
    assert TakeAll([PUSH, BINDING], bs) == Some(r2);
    ForeignLines(x);
    ForeignStays(SPLICED, Bound(x));
    ForeignStays(REST, Bound(x));
    TakeMore([PUSH, BINDING], SPLICED, bs);
    assert [PUSH, BINDING] + [SPLICED] == [PUSH, BINDING, SPLICED];
    TakeMore([PUSH, BINDING, SPLICED], REST, bs);
    assert [PUSH, BINDING, SPLICED] + [REST] == RECORDING;
    assert [Heading(WORKLOAD), PUSH] + [SPLICED] + [REST] == OUTPUT;
  }

  lemma {:induction false} TakeNothing(bs: seq<Benchmark>)
    ensures TakeAll([], bs) == Some(START)
  {
  }

  lemma {:induction false} TakeMore(lines: seq<string>, line: string, bs: seq<Benchmark>)
    requires TakeAll(lines, bs).Some?
    ensures TakeAll(lines + [line], bs) == Take(TakeAll(lines, bs).value, line, bs)
  {
    assert (lines + [line])[..|lines|] == lines;
  }

  lemma {:induction false} BlocksPlain(lines: seq<string>)
    requires forall i :: 0 <= i < |lines| ==> !Declares(lines[i])
    ensures Blocks(lines, []) == lines
  {
    hide Declares;
    assert Sort([]) == [];
    if lines != [] {
      BlocksPlain(lines[1..]);
      assert lines == [lines[0]] + lines[1..];
    }
  }

  lemma {:induction false} OutputPlain()
    ensures Blocks(OUTPUT, []) == OUTPUT
  {
    assert DECLARATION[0] == '(' && DECLARATION[1] == 'c';
    assert Heading(WORKLOAD)[0] == ';' && PUSH[1] == 'p' && SPLICED[0] == '$' && REST[0] == 'p';
    forall i | 0 <= i < |OUTPUT| ensures !Declares(OUTPUT[i]) {
      var l := OUTPUT[i];
      assert |l| >= 13 ==> l[..13][0] == l[0] && l[..13][1] == l[1];
    }
    hide Declares, Blocks;
    BlocksPlain(OUTPUT);
  }

  const BEFORE := Heading(WORKLOAD) + "\n" + (PUSH + "\n") + "$__ex"
  const EXTRACTED := "(extract $speq-root-a 0)" + "\n"
  const TEXT := BEFORE + EXTRACTED + (REST + "\n")

  lemma {:induction false} OutputText()
    ensures Text(OUTPUT) == TEXT && Extraction(WORKLOAD) + "\n" == EXTRACTED
  {
    hide Slug, PUSH, Heading, REST;
    SlugOfA(WORKLOAD);
    EndedConcat([Heading(WORKLOAD), PUSH], [SPLICED, REST]);
    EndedPair(Heading(WORKLOAD), PUSH);
    EndedPair(SPLICED, REST);
    assert [Heading(WORKLOAD), PUSH] + [SPLICED, REST] == OUTPUT;
    assert "(extract $speq-root-" + "a" + " 0)" == "(extract $speq-root-a 0)";
  }

  lemma {:induction false} EndedPair(a: string, b: string)
    ensures Ended([a, b]) == a + "\n" + (b + "\n")
  {
    EndedOne(a);
    EndedOne(b);
    EndedConcat([a], [b]);
    assert [a] + [b] == [a, b];
  }

  lemma {:induction false} SlugOfA(b: Benchmark)
    requires b.lowered == "a"
    ensures Slug(b) == "a"
  {
    assert "a"[1..] == "" && Dashed("", false) == "";
    assert Dashed("a", false) == "a";
  }

  /** Before the removal there is no temporary: no line but the spliced one has a dollar. */
  lemma {:induction false} TextHasNone()
    ensures !Contains(TEXT, TEMPORARY)
  {
    hide Contains, BEFORE, EXTRACTED, REST;
    var a, z := Heading(WORKLOAD) + "\n" + (PUSH + "\n"), "$__ex" + EXTRACTED + (REST + "\n");
    assert TEXT == a + z by { BeforeIs(); }
    DollarFree();
    NoDollar(a);
    MiddleHasNone();
    TemporaryText();
    RemovalJoins(a, z, TEMPORARY);
    LineJoinsNothing(a, z, TEMPORARY);
  }

  lemma {:induction false} BeforeIs()
    ensures BEFORE == Heading(WORKLOAD) + "\n" + (PUSH + "\n") + "$__ex"
  {
  }

  lemma {:induction false} NoDollar(s: string)
    requires '$' !in s
    ensures !Contains(s, TEMPORARY)
  {
    TemporaryText();
    forall i: nat ensures !At(s, TEMPORARY, i) {
      if At(s, TEMPORARY, i) { AtText(s, TEMPORARY, i, 0); }
    }
  }

  lemma {:induction false} DollarFree()
    ensures '$' !in Heading(WORKLOAD) + "\n" + (PUSH + "\n")
  {
    assert '$' !in ";; Preserved artifact" && '$' !in " workload: " && '$' !in "a" && '$' !in PUSH && '$' !in "\n";
    assert ";; Preserved artifact workload: " == ";; Preserved artifact" + " workload: ";
  }

  lemma {:induction false} MiddleHasNone()
    ensures !Contains("$__ex" + EXTRACTED + (REST + "\n"), TEMPORARY)
  {
    OutputText();
    hide EXTRACTED;
    assert |"$__ex"| == 5 && |REST + "\n"| == 5 && |TEMPORARY| == 8;
    forall i: nat ensures !At("$__ex" + EXTRACTED + (REST + "\n"), TEMPORARY, i) {
      if At("$__ex" + EXTRACTED + (REST + "\n"), TEMPORARY, i) { TemporaryApart("$__ex", WORKLOAD, REST + "\n", i); }
    }
  }

  /** A text that occurs once is removed where it is. */
  lemma {:induction false} RemovesOnly(a: string, q: string, z: string)
    requires (forall j :: 0 <= j < |a| ==> !At(a + q + z, q, j)) && !Contains(z, q)
    ensures RemoveOnly(a + q + z, q) == Some(a + z)
  {
    var s := a + q + z;
    assert s[|a|..][..|q|] == q;
    assert At(s, q, |a|);
    var i := Find(s, q).value;
    assert At(s, q, i);
    assert i == |a|;
    assert s[i + |q|..] == z && s[..i] == a;
    if Find(z, q).Some? { assert At(z, q, Find(z, q).value); }
  }

  lemma {:induction false} ExtractionOnce()
    ensures RemoveOnly(TEXT, EXTRACTED) == Some(BEFORE + (REST + "\n"))
  {
    hide BEFORE, Contains;
    assert EXTRACTED[0] == '(' && EXTRACTED[1] == 'e' && |EXTRACTED| > 2;
    forall j | 0 <= j < |BEFORE| ensures !At(TEXT, EXTRACTED, j) {
      if At(TEXT, EXTRACTED, j) {
        AtText(TEXT, EXTRACTED, j, 0);
        AtText(TEXT, EXTRACTED, j, 1);
        BeforeParens(j);
      }
    }
    RestHasNone();
    RemovesOnly(BEFORE, EXTRACTED, REST + "\n");
  }

  lemma {:induction false} BeforeParens(j: nat)
    requires j < |BEFORE|
    ensures BEFORE[j] == '(' ==> j + 1 < |BEFORE| && BEFORE[j + 1] == 'p'
  {
    var h := Heading(WORKLOAD) + "\n";
    assert '(' !in ";; Preserved artifact" && '(' !in " workload: " && '(' !in "a";
    assert ";; Preserved artifact workload: " == ";; Preserved artifact" + " workload: ";
    assert '(' !in h;
    assert BEFORE == h + "(push 1)\n$__ex";
    assert j < |h| ==> BEFORE[j] in h;
    assert j >= |h| ==> BEFORE[j] == "(push 1)\n$__ex"[j - |h|];
    assert j >= |h| && j + 1 < |BEFORE| ==> BEFORE[j + 1] == "(push 1)\n$__ex"[j + 1 - |h|];
  }

  lemma {:induction false} RestHasNone()
    ensures !Contains(REST + "\n", EXTRACTED)
  {
    assert |REST + "\n"| < |EXTRACTED|;
  }

  /** A recording that normalizes, and is left with a temporary. */
  lemma {:induction false} SplicedTemporary()
    ensures Normalized(RECORDING, [WORKLOAD]).Some?
    ensures Contains(Normalized(RECORDING, [WORKLOAD]).value, TEMPORARY)
  {
    hide TakeAll, Blocks, Contains, Text, RemoveOnly, BEFORE, EXTRACTED, REST, OUTPUT, RECORDING;
    RecordingTakes();
    OutputPlain();
    OutputText();
    TextHasNone();
    TextNotFound();
    ExtractionOnce();
    DropOnly(TEXT);
    SplicedText();
  }

  lemma {:induction false} DropOnly(text: string)
    ensures DropExtractions(text, [WORKLOAD]) == RemoveOnly(text, Extraction(WORKLOAD) + "\n")
  {
    hide RemoveOnly, Extraction;
    assert [WORKLOAD][..0] == [];
    assert DropExtractions(text, []) == Some(text);
  }

  lemma {:induction false} TextNotFound()
    requires !Contains(TEXT, TEMPORARY)
    ensures Find(TEXT, TEMPORARY).None?
  {
    hide TEXT;
    var r := Find(TEXT, TEMPORARY);
    assert r.Some? ==> At(TEXT, TEMPORARY, r.value);
  }

  lemma {:induction false} SplicedText()
    ensures Contains(BEFORE + (REST + "\n"), TEMPORARY)
  {
    hide Contains, PUSH;
    var h := Heading(WORKLOAD) + "\n" + (PUSH + "\n");
    assert BEFORE + (REST + "\n") == h + "$__expr_" + "1\n" by { assert "$__ex" + "pr_1" + "\n" == "$__expr_" + "1\n"; }
    assert At("$__expr_", TEMPORARY, 0);
    ContainsOf("$__expr_");
    ContainsAround(h, "$__expr_", "1\n", TEMPORARY);
  }

  lemma {:induction false} ContainsOf(s: string)
    requires At(s, TEMPORARY, 0)
    ensures Contains(s, TEMPORARY)
  {
  }
}
