/**
 The ruleset table of one file: per mechanism a parent row, the largest
 contributors, the exact rest and the native rebuild.
 */
module RulesetRows {
  import opened Prelude
  import opened PhaseSums
  import opened Timing
  import C = TextOrder

  const LIMIT := 5

  datatype Kind = Aggregate | Named | Other | NativeRebuild

  datatype ReportRow = ReportRow(kind: Kind, mechanism: Role, name: string, count: nat, phases: Phases)

  function Magnitude(c: Change): real { var t := Total(c.phases); if t < 0.0 then -t else t }

  /** Larger changes first, then by name. */
  predicate Ahead(a: Change, b: Change) {
    Magnitude(a) > Magnitude(b) || (Magnitude(a) == Magnitude(b) && C.AtMost(a.name, b.name))
  }

  function Insert(x: Change, s: seq<Change>): seq<Change> {
    if s == [] || Ahead(x, s[0]) then [x] + s else [s[0]] + Insert(x, s[1..])
  }

  function Ranked(s: seq<Change>): seq<Change> {
    if s == [] then [] else Insert(s[0], Ranked(s[1..]))
  }

  predicate InRank(s: seq<Change>) {
    forall i, j :: 0 <= i < j < |s| ==> Ahead(s[i], s[j])
  }

  lemma {:induction false} AheadTotal(a: Change, b: Change)
    ensures Ahead(a, b) || Ahead(b, a)
  {
    C.Total(a.name, b.name);
  }

  lemma {:induction false} AheadTransitive(a: Change, b: Change, c: Change)
    requires Ahead(a, b) && Ahead(b, c)
    ensures Ahead(a, c)
  {
    hide Magnitude;
    if C.AtMost(a.name, b.name) && C.AtMost(b.name, c.name) { C.Transitive(a.name, b.name, c.name); }
  }

  lemma {:induction false} InsertContents(x: Change, s: seq<Change>)
    ensures multiset(Insert(x, s)) == multiset(s) + multiset{x}
  {
    hide Ahead;
    if s != [] && !Ahead(x, s[0]) {
      InsertContents(x, s[1..]);
      assert s == [s[0]] + s[1..];
    }
  }

  lemma {:induction false} InsertRanks(x: Change, s: seq<Change>)
    requires InRank(s)
    ensures InRank(Insert(x, s))
  {
    hide Ahead;
    if s != [] {
      if Ahead(x, s[0]) {
        forall i | 0 <= i < |s| ensures Ahead(x, s[i]) {
          if i > 0 { AheadTransitive(x, s[0], s[i]); }
        }
      } else {
        AheadTotal(x, s[0]);
        InsertRanks(x, s[1..]);
        InsertContents(x, s[1..]);
        var t := Insert(x, s[1..]);
        forall i | 0 <= i < |t| ensures Ahead(s[0], t[i]) {
          assert t[i] in multiset(t);
          if t[i] != x { assert t[i] in multiset(s[1..]); }
        }
      }
    }
  }

  /** Ranking reorders the changes, largest first. */
  lemma {:induction false} RankedFacts(s: seq<Change>)
    ensures InRank(Ranked(s)) && multiset(Ranked(s)) == multiset(s) && |Ranked(s)| == |s|
  {
    hide Ahead, Insert;
    if s != [] {
      RankedFacts(s[1..]);
      InsertRanks(s[0], Ranked(s[1..]));
      InsertContents(s[0], Ranked(s[1..]));
      assert s == [s[0]] + s[1..];
    }
    assert |multiset(Ranked(s))| == |Ranked(s)| && |multiset(s)| == |s|;
  }

  // ---- The rows ---------------------------------------------------------------------------

  function NamedRows(role: Role, s: seq<Change>): seq<ReportRow> {
    if s == [] then []
    else NamedRows(role, s[..|s| - 1]) + [ReportRow(Named, role, s[|s| - 1].name, 1, s[|s| - 1].phases)]
  }

  function ProgramRows(g: Group): seq<ReportRow> {
    var ranked := Ranked(g.rulesets);
    [ReportRow(Aggregate, Program, "", |ranked|, GroupPhases(g))]
    + if |ranked| > LIMIT then
        NamedRows(Program, ranked[..LIMIT])
        + [ReportRow(Other, Program, "", |ranked| - LIMIT, GroupPhases(Group(ranked[LIMIT..], 0.0)))]
      else NamedRows(Program, ranked)
  }

  function EqualityRows(g: Group): seq<ReportRow> {
    var ranked := Ranked(g.rulesets);
    [ReportRow(Aggregate, Equality, "", |ranked|, GroupPhases(g))] + NamedRows(Equality, ranked)
    + if g.rebuild != 0.0 then [ReportRow(NativeRebuild, Equality, "", 0, ZERO.(rebuild := g.rebuild))] else []
  }

  /** The table of one file. */
  method BuildRows(r: Breakdown) returns (rows: seq<ReportRow>)
    ensures rows == ProgramRows(r.program) + EqualityRows(r.equality)
  {
    hide Ranked, GroupPhases, NamedRows;
    var program, maintenance := Ranked(r.program.rulesets), Ranked(r.equality.rulesets);
    rows := [ReportRow(Aggregate, Program, "", |program|, GroupPhases(r.program))];
    var shown := AppendNamed(Program, if |program| > LIMIT then program[..LIMIT] else program);
    rows := rows + shown;
    if |program| > LIMIT {
      rows := rows + [ReportRow(Other, Program, "", |program| - LIMIT, GroupPhases(Group(program[LIMIT..], 0.0)))];
    }
    assert rows == ProgramRows(r.program);
    ghost var first := rows;
    rows := rows + [ReportRow(Aggregate, Equality, "", |maintenance|, GroupPhases(r.equality))];
    var all := AppendNamed(Equality, maintenance);
    rows := rows + all;
    if r.equality.rebuild != 0.0 {
      rows := rows + [ReportRow(NativeRebuild, Equality, "", 0, ZERO.(rebuild := r.equality.rebuild))];
    }
    assert rows == first + EqualityRows(r.equality);
  }

  method AppendNamed(role: Role, s: seq<Change>) returns (rows: seq<ReportRow>)
    ensures rows == NamedRows(role, s)
  {
    rows := [];
    for i := 0 to |s|
      invariant rows == NamedRows(role, s[..i])
    {
      assert s[..i + 1][..i] == s[..i];
      rows := rows + [ReportRow(Named, role, s[i].name, 1, s[i].phases)];
    }
    assert s[..|s|] == s;
  }

  // ---- What the table shows --------------------------------------------------------------------

  /** The changes in the order of the table: by the size of their total, largest first, then by name. */
  ghost predicate Orders(q: seq<Change>, s: seq<Change>) {
    && multiset(q) == multiset(s)
    && forall i, j :: 0 <= i < j < |q| ==>
         var x, y := Total(q[i].phases), Total(q[j].phases);
         (if x < 0.0 then -x else x) > (if y < 0.0 then -y else y)
         || ((x == y || x == -y) && C.AtMost(q[i].name, q[j].name))
  }

  /** From row `from` on, one row for each change with its name and phases. */
  predicate Shows(rows: seq<ReportRow>, from: nat, role: Role, q: seq<Change>) {
    from + |q| <= |rows| && forall i :: 0 <= i < |q| ==> rows[from + i] == ReportRow(Named, role, q[i].name, 1, q[i].phases)
  }

  lemma {:induction false} NamedShows(role: Role, s: seq<Change>)
    ensures |NamedRows(role, s)| == |s| && Shows(NamedRows(role, s), 0, role, s)
  {
    if s != [] { NamedShows(role, s[..|s| - 1]); }
  }

  lemma {:induction false} RankedOrders(s: seq<Change>)
    ensures Orders(Ranked(s), s) && |Ranked(s)| == |s|
  {
    hide Ranked, C.AtMost, Total;
    RankedFacts(s);
    var q := Ranked(s);
    forall i, j | 0 <= i < j < |q|
      ensures var x, y := Total(q[i].phases), Total(q[j].phases);
              (if x < 0.0 then -x else x) > (if y < 0.0 then -y else y)
              || ((x == y || x == -y) && C.AtMost(q[i].name, q[j].name))
    {
      assert Ahead(q[i], q[j]);
    }
  }

  /** The program's rows: the parent, the five largest changes, and the rest if there are more. */
  lemma {:induction false} ProgramTable(g: Group) returns (q: seq<Change>)
    ensures Orders(q, g.rulesets) && |q| == |g.rulesets|
    ensures
      var rows, k := ProgramRows(g), if |q| > 5 then 5 else |q|;
      && |rows| == 1 + k + (if |q| > 5 then 1 else 0)
      && rows[0] == ReportRow(Aggregate, Program, "", |g.rulesets|, GroupPhases(g))
      && Shows(rows, 1, Program, q[..k])
      && (|q| > 5 ==> rows[6] == ReportRow(Other, Program, "", |g.rulesets| - 5, GroupPhases(Group(q[5..], 0.0))))
  {
    hide Ranked, GroupPhases, NamedRows, Orders;
    q := Ranked(g.rulesets);
    RankedOrders(g.rulesets);
    var k := if |q| > 5 then 5 else |q|;
    NamedShows(Program, q[..k]);
    assert |q| <= 5 ==> q[..k] == q;
  }

  /** The rows of equality saturation's own rulesets: the parent, every change, and the native rebuild if it changed. */
  lemma {:induction false} EqualityTable(g: Group) returns (q: seq<Change>)
    ensures Orders(q, g.rulesets) && |q| == |g.rulesets|
    ensures
      var rows := EqualityRows(g);
      && |rows| == 1 + |q| + (if g.rebuild != 0.0 then 1 else 0)
      && rows[0] == ReportRow(Aggregate, Equality, "", |g.rulesets|, GroupPhases(g))
      && Shows(rows, 1, Equality, q)
      && (g.rebuild != 0.0 ==> rows[|q| + 1] == ReportRow(NativeRebuild, Equality, "", 0, Phases(0.0, 0.0, 0.0, 0.0, 0.0, g.rebuild)))
  {
    hide Ranked, GroupPhases, NamedRows, Orders;
    q := Ranked(g.rulesets);
    RankedOrders(g.rulesets);
    NamedShows(Equality, q);
  }

  // ---- Parents are the sums of their children --------------------------------------------------

  function ChildSum(rows: seq<ReportRow>, role: Role): Phases {
    if rows == [] then ZERO
    else
      var r := rows[|rows| - 1];
      Plus(ChildSum(rows[..|rows| - 1], role), if r.mechanism == role && r.kind != Aggregate then r.phases else ZERO)
  }

  function ChildCount(rows: seq<ReportRow>, role: Role): nat {
    if rows == [] then 0
    else
      var r := rows[|rows| - 1];
      ChildCount(rows[..|rows| - 1], role) + if r.mechanism == role && r.kind != Aggregate then r.count else 0
  }

  lemma {:induction false} ChildConcat(a: seq<ReportRow>, b: seq<ReportRow>, role: Role)
    ensures ChildSum(a + b, role) == Plus(ChildSum(a, role), ChildSum(b, role))
    ensures ChildCount(a + b, role) == ChildCount(a, role) + ChildCount(b, role)
  {
    hide Plus;
    if b == [] {
      assert a + b == a;
      PlusZero(ChildSum(a, role));
    } else {
      var n := |b| - 1;
      ChildConcat(a, b[..n], role);
      assert (a + b)[..|a| + n] == a + b[..n];
      PlusSwap(ChildSum(a, role), ChildSum(b[..n], role), if b[n].mechanism == role && b[n].kind != Aggregate then b[n].phases else ZERO);
    }
  }

  lemma {:induction false} ChildOne(r: ReportRow, role: Role)
    ensures ChildSum([r], role) == if r.mechanism == role && r.kind != Aggregate then r.phases else ZERO
    ensures ChildCount([r], role) == if r.mechanism == role && r.kind != Aggregate then r.count else 0
  {
    assert [r][..0] == [];
  }

  lemma {:induction false} NamedSum(role: Role, s: seq<Change>, of: Role)
    ensures ChildSum(NamedRows(role, s), of) == if role == of then PhaseSum(s) else ZERO
    ensures ChildCount(NamedRows(role, s), of) == if role == of then |s| else 0
  {
    hide Plus;
    PlusZero(ZERO);
    if s != [] {
      var n := |s| - 1;
      NamedSum(role, s[..n], of);
      assert NamedRows(role, s)[..|NamedRows(role, s[..n])|] == NamedRows(role, s[..n]);
    }
  }

  lemma {:induction false} PlainGroup(s: seq<Change>)
    ensures GroupPhases(Group(s, 0.0)) == PhaseSum(s)
  {
  }

  lemma {:induction false} ProgramChildren(g: Group, role: Role)
    ensures ChildSum(ProgramRows(g), role) == if role == Program then PhaseSum(g.rulesets) else ZERO
    ensures ChildCount(ProgramRows(g), role) == if role == Program then |g.rulesets| else 0
  {
    hide Plus, ChildSum, ChildCount, NamedRows, PhaseSum, GroupPhases, Ranked;
    var ranked := Ranked(g.rulesets);
    RankedFacts(g.rulesets);
    PhaseSumPermuted(ranked, g.rulesets);
    var parent := ReportRow(Aggregate, Program, "", |ranked|, GroupPhases(g));
    ChildOne(parent, role);
    PlusZero(ZERO);
    PlusZero(PhaseSum(ranked));
    if |ranked| > LIMIT {
      var top, rest := ranked[..LIMIT], ranked[LIMIT..];
      assert ranked == top + rest;
      PhaseSumConcat(top, rest);
      var other := ReportRow(Kind.Other, Program, "", |ranked| - LIMIT, GroupPhases(Group(rest, 0.0)));
      PlainGroup(rest);
      NamedSum(Program, top, role);
      ChildOne(other, role);
      ChildConcat(NamedRows(Program, top), [other], role);
      ChildConcat([parent], NamedRows(Program, top) + [other], role);
    } else {
      NamedSum(Program, ranked, role);
      ChildConcat([parent], NamedRows(Program, ranked), role);
    }
  }

  lemma {:induction false} RebuildAdds(p: Phases, x: real)
    ensures Plus(p, ZERO.(rebuild := x)) == p.(rebuild := p.rebuild + x)
  {
  }

  lemma {:induction false} EqualityChildren(g: Group, role: Role)
    ensures ChildSum(EqualityRows(g), role) == if role == Equality then GroupPhases(g) else ZERO
    ensures ChildCount(EqualityRows(g), role) == if role == Equality then |g.rulesets| else 0
  {
    hide Plus, ChildSum, ChildCount, NamedRows, PhaseSum, Ranked;
    var ranked := Ranked(g.rulesets);
    RankedFacts(g.rulesets);
    PhaseSumPermuted(ranked, g.rulesets);
    var parent := ReportRow(Aggregate, Equality, "", |ranked|, GroupPhases(g));
    var named := NamedRows(Equality, ranked);
    ChildOne(parent, role);
    NamedSum(Equality, ranked, role);
    ChildConcat([parent], named, role);
    PlusZero(ZERO);
    PlusZero(PhaseSum(ranked));
    RebuildAdds(PhaseSum(ranked), g.rebuild);
    if g.rebuild != 0.0 {
      var native := ReportRow(NativeRebuild, Equality, "", 0, ZERO.(rebuild := g.rebuild));
      ChildOne(native, role);
      ChildConcat([parent] + named, [native], role);
    } else {
      assert [parent] + named + [] == [parent] + named;
    }
  }

  /** Each displayed parent is, phase by phase and in its count, the sum of the rows displayed under it. */
  lemma {:induction false} ParentsAreSums(r: Breakdown, role: Role)
    requires r.program.rebuild == 0.0
    ensures
      var rows := ProgramRows(r.program) + EqualityRows(r.equality);
      var g := if role == Program then r.program else r.equality;
      && ChildSum(rows, role) == GroupPhases(g) && ChildCount(rows, role) == |g.rulesets|
      && ReportRow(Aggregate, role, "", |g.rulesets|, GroupPhases(g)) in rows
  {
    hide Plus, ChildSum, ChildCount, NamedRows, PhaseSum, GroupPhases, Ranked;
    ProgramChildren(r.program, role);
    EqualityChildren(r.equality, role);
    ChildConcat(ProgramRows(r.program), EqualityRows(r.equality), role);
    PlainGroup(r.program.rulesets);
    assert r.program == Group(r.program.rulesets, 0.0);
    PlusZero(PhaseSum(r.program.rulesets));
    PlusZero(GroupPhases(r.equality));
    RankedFacts(r.program.rulesets);
    RankedFacts(r.equality.rulesets);
    var first, second := ProgramRows(r.program), EqualityRows(r.equality);
    assert (first + second)[0] == first[0] && (first + second)[|first|] == second[0];
  }

  /** No ruleset left to the rest changed more than one that is shown. */
  lemma {:induction false} ShownAreLargest(g: Group, i: nat, j: nat)
    requires i < LIMIT <= j < |Ranked(g.rulesets)|
    ensures Magnitude(Ranked(g.rulesets)[i]) >= Magnitude(Ranked(g.rulesets)[j])
  {
    hide Ranked, Magnitude, C.AtMost;
    RankedFacts(g.rulesets);
    assert Ahead(Ranked(g.rulesets)[i], Ranked(g.rulesets)[j]);
  }

  // ---- From the records to the displayed rows -------------------------------------------------------

  /** What was measured for one file at the two endpoints. */
  datatype Measured = Measured(before: seq<Row>, after: seq<Row>, bw: Wall, cw: Wall)

  /** The breakdown computed from a file's records. */
  ghost predicate BreakdownOf(m: Measured, r: Breakdown) {
    && AddRows(m.before).Some? && AddRows(m.after).Some? && m.bw.point.Some? && m.cw.point.Some?
    && IsBreakdown(MeanOf(AddRows(m.before).value, Count(m.before), m.bw.point),
                   MeanOf(AddRows(m.after).value, Count(m.after), m.cw.point), m.bw, m.cw, r)
  }

  function WallChange(m: Measured): real
    requires m.bw.point.Some? && m.cw.point.Some?
  {
    (m.cw.point.value - m.bw.point.value) * NANOSECONDS
  }

  function WallChanges(ms: seq<Measured>): real
    requires forall i :: 0 <= i < |ms| ==> ms[i].bw.point.Some? && ms[i].cw.point.Some?
  {
    if ms == [] then 0.0 else WallChanges(ms[..|ms| - 1]) + WallChange(ms[|ms| - 1])
  }

  /** What a file's report shows: four plain changes and the rows displayed under the two mechanisms. */
  function Displayed(r: Breakdown): real {
    var rows := ProgramRows(r.program) + EqualityRows(r.equality);
    r.typecheck + r.frontend + Total(ChildSum(rows, Program)) + Total(ChildSum(rows, Equality)) + r.commands + r.residual
  }

  /** The rows shown for a file, with its other changes, add up to its wall-time change. */
  lemma {:induction false} FileDisplayed(m: Measured, r: Breakdown)
    requires BreakdownOf(m, r) && r.issue.None?
    ensures r.wall == Some(WallChange(m)) && MechanismSum(r) == WallChange(m) && Displayed(r) == WallChange(m)
    ensures r.program.rebuild == 0.0
  {
    hide AddRows, MeanOf, Count, ProgramRows, EqualityRows, ChildSum, ChildCount, GroupPhases, IsGroup, AttributedBy, Total;
    RecordsPartition(m.before, m.after, m.bw, m.cw, r);
    CountPositive(m.before);
    CountPositive(m.after);
    GroupRebuild(MeanOf(AddRows(m.before).value, Count(m.before), m.bw.point),
                 MeanOf(AddRows(m.after).value, Count(m.after), m.cw.point), Program, r.program);
    ParentsAreSums(r, Program);
    ParentsAreSums(r, Equality);
  }

  lemma {:induction false} WallsAddUp(ms: seq<Measured>, fs: seq<Breakdown>)
    requires |ms| == |fs| && forall i :: 0 <= i < |ms| ==> ms[i].bw.point.Some? && ms[i].cw.point.Some? && fs[i].wall == Some(WallChange(ms[i]))
    ensures Walls(fs) == WallChanges(ms)
  {
    hide WallChange;
    if ms != [] { WallsAddUp(ms[..|ms| - 1], fs[..|fs| - 1]); }
  }

  /**
   From the records to the report: without an issue the suite's six changes add up to the change of all wall times, and
   for every file the displayed rows, with its other changes, add up to that file's.
   */
  lemma {:induction false} ReportPartition(ms: seq<Measured>, fs: seq<Breakdown>, suite: Breakdown)
    requires |ms| == |fs| && (forall i :: 0 <= i < |ms| ==> BreakdownOf(ms[i], fs[i])) && IsSuite(fs, suite) && suite.issue.None?
    ensures forall i :: 0 <= i < |ms| ==> ms[i].bw.point.Some? && ms[i].cw.point.Some? && Displayed(fs[i]) == WallChange(ms[i])
    ensures MechanismSum(suite) == WallChanges(ms) && suite.wall == Some(WallChanges(ms))
  {
    hide IsBreakdown, IsSuite, MeanOf, AddRows, Displayed, WallChange, MechanismSum, Walls;
    SuiteIssue(fs, suite);
    NoIssueAnywhere(fs);
    forall i | 0 <= i < |ms|
      ensures ms[i].bw.point.Some? && ms[i].cw.point.Some? && Displayed(fs[i]) == WallChange(ms[i])
      ensures fs[i].wall == Some(WallChange(ms[i])) && MechanismSum(fs[i]) == WallChange(ms[i])
    {
      FileDisplayed(ms[i], fs[i]);
    }
    SuitePartition(fs, suite);
    WallsAddUp(ms, fs);
  }

  lemma {:induction false} SuiteIssue(fs: seq<Breakdown>, suite: Breakdown)
    requires IsSuite(fs, suite) && suite.issue.None?
    ensures FirstIssue(fs).None? && suite.wall == Some(Walls(fs))
  {
  }
}
