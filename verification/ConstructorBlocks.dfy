/**
 Sorting within each run of adjacent constructor declarations.  Two recordings
 come out the same exactly when they differ only by the order inside such runs.
 */
module ConstructorBlocks {
  import opened TextOrder

  const DECLARATION := "(constructor "

  predicate Declares(line: string) { |line| >= 13 && line[..13] == DECLARATION }

  /** A declaration is a line that starts with these thirteen characters. */
  lemma {:induction false} DeclaresIff(line: string)
    ensures Declares(line) <==> exists rest :: line == "(constructor " + rest
  {
    if Declares(line) { assert line == "(constructor " + line[13..]; }
    if rest :| line == "(constructor " + rest { assert line[..13] == "(constructor "; }
  }

  // ---- Blocks ------------------------------------------------------------------------------

  /** The lines with every run of declarations sorted; `run` is the run being collected. */
  function Blocks(lines: seq<string>, run: seq<string>): seq<string>
    decreases |lines|
  {
    if lines == [] then Sort(run)
    else if Declares(lines[0]) then Blocks(lines[1..], run + [lines[0]])
    else Sort(run) + [lines[0]] + Blocks(lines[1..], [])
  }

  method SortConstructorBlocks(lines: seq<string>) returns (output: seq<string>)
    ensures output == Blocks(lines, [])
  {
    hide Sort, Declares;
    output := [];
    var constructors: seq<string> := [];
    assert lines[0..] == lines;
    for i := 0 to |lines|
      invariant output + Blocks(lines[i..], constructors) == Blocks(lines, [])
    {
      assert lines[i..][1..] == lines[i + 1..];
      if Declares(lines[i]) {
        constructors := constructors + [lines[i]];
      } else {
        output := output + Sort(constructors);
        constructors := [];
        output := output + [lines[i]];
      }
    }
    assert lines[|lines|..] == [];
    output := output + Sort(constructors);
  }

  // ---- What sorting forgets ------------------------------------------------------------------

  /** The lines other than declarations, in order, with the declarations before each as a multiset. */
  datatype Outline = Last(run: multiset<string>) | Then(run: multiset<string>, line: string, rest: Outline)

  function OutlineOf(lines: seq<string>, run: multiset<string>): Outline {
    if lines == [] then Last(run)
    else if Declares(lines[0]) then OutlineOf(lines[1..], run + multiset{lines[0]})
    else Then(run, lines[0], OutlineOf(lines[1..], multiset{}))
  }

  predicate AllDeclare(lines: seq<string>) { forall i :: 0 <= i < |lines| ==> Declares(lines[i]) }

  lemma {:induction false} OutlineRun(ds: seq<string>, rest: seq<string>, run: multiset<string>)
    requires AllDeclare(ds)
    ensures OutlineOf(ds + rest, run) == OutlineOf(rest, run + multiset(ds))
    decreases |ds|
  {
    hide Declares;
    if ds == [] {
      assert ds + rest == rest && run + multiset(ds) == run;
    } else {
      assert (ds + rest)[1..] == ds[1..] + rest && (ds + rest)[0] == ds[0];
      OutlineRun(ds[1..], rest, run + multiset{ds[0]});
      assert ds == [ds[0]] + ds[1..];
      assert run + multiset(ds) == run + multiset{ds[0]} + multiset(ds[1..]);
    }
  }

  lemma {:induction false} SortDeclares(run: seq<string>)
    requires AllDeclare(run)
    ensures AllDeclare(Sort(run)) && multiset(Sort(run)) == multiset(run)
  {
    hide Sort, Declares;
    SortFacts(run);
    forall i | 0 <= i < |Sort(run)| ensures Declares(Sort(run)[i]) {
      assert Sort(run)[i] in multiset(run);
    }
  }

  lemma {:induction false} BlocksOutline(lines: seq<string>, run: seq<string>)
    requires AllDeclare(run)
    ensures OutlineOf(Blocks(lines, run), multiset{}) == OutlineOf(lines, multiset(run))
    decreases |lines|
  {
    hide Sort, Declares;
    if lines == [] {
      SortDeclares(run);
      OutlineRun(Sort(run), [], multiset{});
      assert Sort(run) + [] == Sort(run);
    } else if Declares(lines[0]) {
      BlocksOutline(lines[1..], run + [lines[0]]);
    } else {
      BlocksOutline(lines[1..], []);
      SortDeclares(run);
      var rest := [lines[0]] + Blocks(lines[1..], []);
      OutlineRun(Sort(run), rest, multiset{});
      assert Sort(run) + rest == Blocks(lines, run) && rest[1..] == Blocks(lines[1..], []);
    }
  }

  /** Sorting only permutes within a run of adjacent declarations. */
  lemma {:induction false} SortingKeepsOutline(lines: seq<string>)
    ensures OutlineOf(Blocks(lines, []), multiset{}) == OutlineOf(lines, multiset{})
  {
    hide Blocks, OutlineOf;
    BlocksOutline(lines, []);
  }

  lemma {:induction false} OutlineDecides(a: seq<string>, p: seq<string>, b: seq<string>, q: seq<string>)
    requires OutlineOf(a, multiset(p)) == OutlineOf(b, multiset(q))
    ensures Blocks(a, p) == Blocks(b, q)
    decreases |a| + |b|
  {
    hide Sort, Declares;
    if a != [] && Declares(a[0]) {
      OutlineDecides(a[1..], p + [a[0]], b, q);
    } else if b != [] && Declares(b[0]) {
      OutlineDecides(a, p, b[1..], q + [b[0]]);
    } else {
      SortByContents(p, q);
      if a != [] { OutlineDecides(a[1..], [], b[1..], []); }
    }
  }

  /** Two recordings are sorted to the same lines exactly when they differ only inside runs of declarations. */
  lemma {:induction false} SortingIsCanonical(a: seq<string>, b: seq<string>)
    ensures Blocks(a, []) == Blocks(b, []) <==> OutlineOf(a, multiset{}) == OutlineOf(b, multiset{})
  {
    hide Blocks, OutlineOf;
    SortingKeepsOutline(a);
    SortingKeepsOutline(b);
    if OutlineOf(a, multiset{}) == OutlineOf(b, multiset{}) { OutlineDecides(a, [], b, []); }
  }

  /** Neighbouring declarations are in order. */
  ghost predicate RunsOrdered(s: seq<string>) {
    forall i, j :: 0 <= i < j < |s| && j == i + 1 && Declares(s[i]) && Declares(s[j]) ==> AtMost(s[i], s[j])
  }

  lemma {:induction false} SortedRuns(lines: seq<string>, run: seq<string>)
    ensures RunsOrdered(Blocks(lines, run))
    decreases |lines|
  {
    hide Sort, Declares, AtMost;
    if lines == [] {
      SortFacts(run);
    } else if Declares(lines[0]) {
      SortedRuns(lines[1..], run + [lines[0]]);
    } else {
      SortFacts(run);
      SortedRuns(lines[1..], []);
      JoinRuns(Sort(run), lines[0], Blocks(lines[1..], []));
    }
  }

  lemma {:induction false} JoinRuns(a: seq<string>, x: string, b: seq<string>)
    requires Ordered(a) && RunsOrdered(b) && !Declares(x)
    ensures RunsOrdered(a + [x] + b)
  {
    hide Declares, AtMost;
    var s := a + [x] + b;
    forall i, j | 0 <= i < j < |s| && j == i + 1 && Declares(s[i]) && Declares(s[j]) ensures AtMost(s[i], s[j]) {
      if j < |a| {
      } else {
        assert i > |a|;
        assert s[i] == b[i - |a| - 1] && s[j] == b[j - |a| - 1];
      }
    }
  }
}
