/**
 The additive partition of wall time: per endpoint and file what the timing
 records attribute and what is left over, then the change between two endpoints
 in six mechanisms, for each file and for the suite.
 */
module Timing {
  import opened Prelude
  import opened PhaseSums
  import F = Fieller

  const NANOSECONDS := 1_000_000_000.0

  datatype Role = Program | Equality

  datatype Key = Key(role: Role, name: string)

  datatype RulesetTiming = RulesetTiming(name: string, role: Role, assembly: real, search: real, apply: real, execution: real, merge: real)

  datatype Summary = Summary(typecheck: real, parse: real, frontendOther: real, install: real, actions: real, check: real,
                             commandsOther: real, rebuild: real, rulesets: seq<RulesetTiming>)

  datatype Row = Row(succeeded: bool, summary: Option<Summary>)

  // ---- Adding up the timing records of one endpoint and file ---------------------------------

  datatype Sums = Sums(typecheck: real, frontend: real, commands: real, rebuild: real, rulesets: Table<Key>)

  function Own(t: RulesetTiming): Phases { Phases(t.assembly, t.search, t.apply, t.execution, t.merge, 0.0) }

  function AddRulesets(t: Table<Key>, rs: seq<RulesetTiming>): Table<Key> {
    if rs == [] then t
    else
      var r := rs[|rs| - 1];
      Added(AddRulesets(t, rs[..|rs| - 1]), Key(r.role, r.name), Own(r))
  }

  function AddSummary(s: Sums, m: Summary): Sums {
    Sums(s.typecheck + m.typecheck, s.frontend + (m.parse + m.frontendOther + m.install),
         s.commands + (m.actions + m.check + m.commandsOther), s.rebuild + m.rebuild, AddRulesets(s.rulesets, m.rulesets))
  }

  /** `None` is the error for a successful row without its summary. */
  function AddRows(rows: seq<Row>): Option<Sums> {
    if rows == [] then Some(Sums(0.0, 0.0, 0.0, 0.0, map[]))
    else
      var before, row := AddRows(rows[..|rows| - 1]), rows[|rows| - 1];
      if before.None? || (row.succeeded && row.summary.None?) then None
      else if !row.succeeded then before
      else Some(AddSummary(before.value, row.summary.value))
  }

  function OwnTotals(rs: seq<RulesetTiming>): real {
    if rs == [] then 0.0 else OwnTotals(rs[..|rs| - 1]) + Total(Own(rs[|rs| - 1]))
  }

  /** Everything one record attributes. */
  function Attributed(m: Summary): real {
    m.typecheck + m.parse + m.frontendOther + m.install + m.actions + m.check + m.commandsOther + m.rebuild + OwnTotals(m.rulesets)
  }

  function AttributedBy(rows: seq<Row>): real {
    if rows == [] then 0.0
    else
      var row := rows[|rows| - 1];
      AttributedBy(rows[..|rows| - 1]) + if row.succeeded && row.summary.Some? then Attributed(row.summary.value) else 0.0
  }

  ghost function TableTotal<K>(t: Table<K>): real { Total(SumOf(t, t.Keys)) }

  ghost function SumsTotal(s: Sums): real { s.typecheck + s.frontend + s.commands + s.rebuild + TableTotal(s.rulesets) }

  lemma {:induction false} RulesetsAttributed(t: Table<Key>, rs: seq<RulesetTiming>)
    ensures TableTotal(AddRulesets(t, rs)) == TableTotal(t) + OwnTotals(rs)
  {
    hide SumOf, Added;
    if rs != [] {
      var n := |rs| - 1;
      RulesetsAttributed(t, rs[..n]);
      SumAdded(AddRulesets(t, rs[..n]), Key(rs[n].role, rs[n].name), Own(rs[n]));
    }
  }

  /** Grouping by mechanism and ruleset loses and invents no recorded time. */
  lemma {:induction false} RowsAttributed(rows: seq<Row>)
    requires AddRows(rows).Some?
    ensures SumsTotal(AddRows(rows).value) == AttributedBy(rows)
  {
    hide AddRulesets, TableTotal;
    if rows == [] {
      EmptyTable<Key>();
    } else {
      var n := |rows| - 1;
      RowsAttributed(rows[..n]);
      if rows[n].succeeded {
        RulesetsAttributed(AddRows(rows[..n]).value.rulesets, rows[n].summary.value.rulesets);
      }
    }
  }

  lemma {:induction false} EmptyTable<K>()
    ensures TableTotal<K>(map[]) == 0.0
  {
    var none: Table<K> := map[];
    assert none.Keys == {};
  }

  // ---- Means ------------------------------------------------------------------------------------

  datatype Mean = Mean(typecheck: real, frontend: real, commands: real, rulesets: Table<Key>, rebuild: real, residual: Option<real>)

  function Count(rows: seq<Row>): real { if rows == [] then 1.0 else |rows| as real }

  ghost function Recorded(m: Mean): real { m.typecheck + m.frontend + m.commands + m.rebuild + TableTotal(m.rulesets) }

  /** The means of the sums over `n` rows, with the unattributed rest of a wall time. */
  ghost function MeanOf(s: Sums, n: real, wall: Option<real>): Mean
    requires n != 0.0
  {
    var m := Mean(s.typecheck / n, s.frontend / n, s.commands / n, DividedTable(s.rulesets, n), s.rebuild / n, None);
    m.(residual := if wall.None? then None else Some(wall.value * NANOSECONDS - Recorded(m)))
  }

  lemma {:induction false} DividedTotal(a: Phases, n: real)
    requires n != 0.0
    ensures Total(Divided(a, n)) == Total(a) / n
  {
    QuotientSum(a.assembly, a.search, n);
    QuotientSum(a.assembly + a.search, a.apply, n);
    QuotientSum(a.assembly + a.search + a.apply, a.execution, n);
    QuotientSum(a.assembly + a.search + a.apply + a.execution, a.merge, n);
    QuotientSum(a.assembly + a.search + a.apply + a.execution + a.merge, a.rebuild, n);
  }

  lemma {:induction false} RecordedIsMean(s: Sums, n: real, wall: Option<real>)
    requires n != 0.0
    ensures Recorded(MeanOf(s, n, wall)) == SumsTotal(s) / n
  {
    hide SumOf, Total, Divided;
    var t := s.rulesets;
    assert DividedTable(t, n).Keys == t.Keys;
    SumDivided(t, t.Keys, n);
    DividedTotal(SumOf(t, t.Keys), n);
    QuotientSum(s.typecheck, s.frontend, n);
    QuotientSum(s.typecheck + s.frontend, s.commands, n);
    QuotientSum(s.typecheck + s.frontend + s.commands, s.rebuild, n);
    QuotientSum(s.typecheck + s.frontend + s.commands + s.rebuild, TableTotal(t), n);
  }

  /** The four parts of a record besides its rulesets. */
  datatype Part = TypecheckPart | FrontendPart | CommandsPart | RebuildPart

  function PartOf(m: Summary, part: Part): real {
    match part
    case TypecheckPart => m.typecheck
    case FrontendPart => m.parse + m.frontendOther + m.install
    case CommandsPart => m.actions + m.check + m.commandsOther
    case RebuildPart => m.rebuild
  }

  /** The phases a ruleset's timing records. */
  datatype Phase = Assembly | Search | Apply | Execution | Merge

  function PhaseOf(t: RulesetTiming, phase: Phase): real {
    match phase
    case Assembly => t.assembly
    case Search => t.search
    case Apply => t.apply
    case Execution => t.execution
    case Merge => t.merge
  }

  /** One part added up over the successful rows. */
  function PartSum(rows: seq<Row>, part: Part): real {
    if rows == [] then 0.0
    else
      var row := rows[|rows| - 1];
      PartSum(rows[..|rows| - 1], part) + if row.succeeded && row.summary.Some? then PartOf(row.summary.value, part) else 0.0
  }

  /** One phase of one ruleset of one mechanism, added up over a record. */
  function RecordSum(rs: seq<RulesetTiming>, k: Key, phase: Phase): real {
    if rs == [] then 0.0
    else
      var t := rs[|rs| - 1];
      RecordSum(rs[..|rs| - 1], k, phase) + if t.role == k.role && t.name == k.name then PhaseOf(t, phase) else 0.0
  }

  /** And over the successful rows. */
  function RulesetSum(rows: seq<Row>, k: Key, phase: Phase): real {
    if rows == [] then 0.0
    else
      var row := rows[|rows| - 1];
      RulesetSum(rows[..|rows| - 1], k, phase)
      + if row.succeeded && row.summary.Some? then RecordSum(row.summary.value.rulesets, k, phase) else 0.0
  }

  /** All phases of one ruleset of one record. */
  function RecordPhases(rs: seq<RulesetTiming>, k: Key): Phases {
    Phases(RecordSum(rs, k, Assembly), RecordSum(rs, k, Search), RecordSum(rs, k, Apply), RecordSum(rs, k, Execution),
           RecordSum(rs, k, Merge), 0.0)
  }

  /** And over the successful rows. */
  function RulesetPhases(rows: seq<Row>, k: Key): Phases {
    Phases(RulesetSum(rows, k, Assembly), RulesetSum(rows, k, Search), RulesetSum(rows, k, Apply), RulesetSum(rows, k, Execution),
           RulesetSum(rows, k, Merge), 0.0)
  }

  lemma {:induction false} AddedAt(t: Table<Key>, j: Key, v: Phases, k: Key)
    ensures At(Added(t, j, v), k) == if j == k then Plus(At(t, k), v) else At(t, k)
  {
  }

  lemma {:induction false} RecordStep(rs: seq<RulesetTiming>, k: Key)
    requires rs != []
    ensures
      var t := rs[|rs| - 1];
      RecordPhases(rs, k) ==
      Plus(RecordPhases(rs[..|rs| - 1], k), if t.role == k.role && t.name == k.name then Own(t) else ZERO)
  {
  }

  lemma {:induction false} RowsStep(rows: seq<Row>, k: Key)
    requires rows != []
    ensures
      var row := rows[|rows| - 1];
      RulesetPhases(rows, k) ==
      Plus(RulesetPhases(rows[..|rows| - 1], k),
           if row.succeeded && row.summary.Some? then RecordPhases(row.summary.value.rulesets, k) else ZERO)
  {
    hide RecordSum;
  }

  lemma {:induction false} RulesetsAt(t: Table<Key>, rs: seq<RulesetTiming>, k: Key)
    ensures At(AddRulesets(t, rs), k) == Plus(At(t, k), RecordPhases(rs, k))
    decreases |rs|, 1
  {
    if rs == [] {
      PlusZero(At(t, k));
    } else {
      RulesetsAtStep(t, rs, k);
    }
  }

  lemma {:induction false} RulesetsAtStep(t: Table<Key>, rs: seq<RulesetTiming>, k: Key)
    requires rs != []
    ensures At(AddRulesets(t, rs), k) == Plus(At(t, k), RecordPhases(rs, k))
    decreases |rs|, 0
  {
    hide At, Plus, Added, RecordPhases, Own;
    var n := |rs| - 1;
    var own, before := Own(rs[n]), RecordPhases(rs[..n], k);
    RulesetsAt(t, rs[..n], k);
    RecordStep(rs, k);
    AddedAt(AddRulesets(t, rs[..n]), Key(rs[n].role, rs[n].name), own, k);
    PlusSwap(At(t, k), before, own);
    PlusZero(before);
  }

  /** The sums of a ruleset's phases over the rows. */
  lemma {:induction false} RowsAt(rows: seq<Row>, k: Key)
    requires AddRows(rows).Some?
    ensures At(AddRows(rows).value.rulesets, k) == RulesetPhases(rows, k)
    decreases |rows|, 1
  {
    if rows != [] { RowsAtStep(rows, k); }
  }

  lemma {:induction false} RowsAtStep(rows: seq<Row>, k: Key)
    requires rows != [] && AddRows(rows).Some?
    ensures At(AddRows(rows).value.rulesets, k) == RulesetPhases(rows, k)
    decreases |rows|, 0
  {
    hide At, Plus, AddRulesets, RulesetPhases, RecordPhases;
    var n := |rows| - 1;
    RowsAt(rows[..n], k);
    RowsStep(rows, k);
    PlusZero(RulesetPhases(rows[..n], k));
    if rows[n].succeeded { RulesetsAt(AddRows(rows[..n]).value.rulesets, rows[n].summary.value.rulesets, k); }
  }

  /** The other sums. */
  lemma {:induction false} RowSums(rows: seq<Row>)
    requires AddRows(rows).Some?
    ensures
      var s := AddRows(rows).value;
      && s.typecheck == PartSum(rows, TypecheckPart) && s.frontend == PartSum(rows, FrontendPart)
      && s.commands == PartSum(rows, CommandsPart) && s.rebuild == PartSum(rows, RebuildPart)
  {
    hide AddRulesets;
    if rows != [] { RowSums(rows[..|rows| - 1]); }
  }

  /** Every mean from the records: each quantity added up over the successful rows and divided by the number of rows. */
  lemma {:induction false} MeansFromRecords(rows: seq<Row>, wall: Option<real>, k: Key)
    requires AddRows(rows).Some?
    ensures
      var m, n := MeanOf(AddRows(rows).value, Count(rows), wall), if rows == [] then 1.0 else |rows| as real;
      && m.typecheck == PartSum(rows, TypecheckPart) / n && m.frontend == PartSum(rows, FrontendPart) / n
      && m.commands == PartSum(rows, CommandsPart) / n && m.rebuild == PartSum(rows, RebuildPart) / n
      && At(m.rulesets, k) == Phases(RulesetSum(rows, k, Assembly) / n, RulesetSum(rows, k, Search) / n,
                                     RulesetSum(rows, k, Apply) / n, RulesetSum(rows, k, Execution) / n,
                                     RulesetSum(rows, k, Merge) / n, 0.0)
  {
    hide AddRows, PartSum, RulesetSum, TableTotal, DividedTable, At;
    RowsAt(rows, k);
    RowSums(rows);
    DividedAt(AddRows(rows).value.rulesets, k, Count(rows));
  }

  lemma {:induction false} DividedAt(t: Table<Key>, k: Key, n: real)
    requires n != 0.0
    ensures At(DividedTable(t, n), k) == Divided(At(t, k), n)
  {
    ZeroDivided(n);
  }

  /** The residual is the wall time minus the mean of everything the records attribute. */
  lemma {:induction false} ResidualIsUnattributed(rows: seq<Row>, wall: real)
    requires AddRows(rows).Some?
    ensures MeanOf(AddRows(rows).value, Count(rows), Some(wall)).residual
            == Some(wall * NANOSECONDS - AttributedBy(rows) / Count(rows))
  {
    hide AddRows, AttributedBy, Recorded, SumsTotal;
    RowsAttributed(rows);
    RecordedIsMean(AddRows(rows).value, Count(rows), Some(wall));
    MeanResidual(AddRows(rows).value, Count(rows), wall);
  }

  /** What was recorded does not involve the residual. */
  lemma {:induction false} MeanResidual(s: Sums, n: real, wall: real)
    requires n != 0.0
    ensures MeanOf(s, n, Some(wall)).residual == Some(wall * NANOSECONDS - Recorded(MeanOf(s, n, Some(wall))))
  {
    hide TableTotal, DividedTable;
  }

  method TimingMean(rows: seq<Row>, wall: Option<real>) returns (r: Option<Mean>)
    ensures AddRows(rows).None? ==> r.None?
    ensures AddRows(rows).Some? ==> r == Some(MeanOf(AddRows(rows).value, Count(rows), wall))
  {
    hide AddRulesets, TableTotal, DividedTable, AddSummary;
    var s := Sums(0.0, 0.0, 0.0, 0.0, map[]);
    for i := 0 to |rows|
      invariant AddRows(rows[..i]) == Some(s)
    {
      assert rows[..i + 1][..i] == rows[..i];
      if rows[i].succeeded {
        if rows[i].summary.None? {
          RowsStuck(rows, i + 1);
          return None;
        }
        s := AddOne(s, rows[i].summary.value);
      }
    }
    assert rows[..|rows|] == rows;
    var n := Count(rows);
    var table := DividedTable(s.rulesets, n);
    var rulesets := AddTable(table);
    var m := Mean(s.typecheck / n, s.frontend / n, s.commands / n, table, s.rebuild / n, None);
    var recorded := m.typecheck + m.frontend + m.commands + m.rebuild + rulesets;
    if wall.Some? {
      m := m.(residual := Some(wall.value * NANOSECONDS - recorded));
    }
    r := Some(m);
  }

  lemma {:induction false} RowsStuck(rows: seq<Row>, k: nat)
    requires k <= |rows| && AddRows(rows[..k]).None?
    ensures AddRows(rows).None?
    decreases |rows| - k
  {
    hide AddSummary;
    if k < |rows| {
      assert rows[..k + 1][..k] == rows[..k];
      RowsStuck(rows, k + 1);
    } else {
      assert rows[..k] == rows;
    }
  }

  method AddOne(s: Sums, m: Summary) returns (r: Sums)
    ensures r == AddSummary(s, m)
  {
    hide Added;
    var table := s.rulesets;
    for i := 0 to |m.rulesets|
      invariant table == AddRulesets(s.rulesets, m.rulesets[..i])
    {
      var t := m.rulesets[i];
      assert m.rulesets[..i + 1][..i] == m.rulesets[..i];
      table := Added(table, Key(t.role, t.name), Own(t));
    }
    assert m.rulesets[..|m.rulesets|] == m.rulesets;
    r := Sums(s.typecheck + m.typecheck, s.frontend + (m.parse + m.frontendOther + m.install),
              s.commands + (m.actions + m.check + m.commandsOther), s.rebuild + m.rebuild, table);
  }

  /** All entries of a table added up, in whatever order. */
  method AddTable(t: Table<Key>) returns (total: real)
    ensures total == TableTotal(t)
  {
    hide At, SumOf;
    var rest := t.Keys;
    total := 0.0;
    while rest != {}
      invariant rest <= t.Keys && total + Total(SumOf(t, rest)) == TableTotal(t)
      decreases |rest|
    {
      var k :| k in rest;
      SumRemove(t, rest, k);
      assert At(t, k) == t[k] by { EntryAt(t, k); }
      total, rest := total + Total(t[k]), rest - {k};
    }
    NothingLeft(t);
  }

  lemma {:induction false} EntryAt<K>(t: Table<K>, k: K)
    requires k in t
    ensures At(t, k) == t[k]
  {
  }

  lemma {:induction false} NothingLeft<K>(t: Table<K>)
    ensures SumOf(t, {}) == ZERO
  {
  }

  // ---- The change between two endpoints ------------------------------------------------------------

  datatype Group = Group(rulesets: seq<Change>, rebuild: real)

  /** A group's phases: its rulesets', with the native rebuild in the last. */
  function GroupPhases(g: Group): Phases {
    var p := PhaseSum(g.rulesets);
    p.(rebuild := p.rebuild + g.rebuild)
  }

  datatype Wall = Wall(point: Option<real>, issue: Option<string>)

  datatype Breakdown = Breakdown(wall: Option<real>, typecheck: real, frontend: real, program: Group, equality: Group,
                                 commands: real, residual: real, warning: bool, issue: Option<string>)

  function RoleNames(t: Table<Key>, role: Role): set<string> {
    set k | k in t.Keys && k.role == role :: k.name
  }

  function Delta(b: Mean, c: Mean, role: Role): Table<string> {
    map n | n in RoleNames(b.rulesets, role) + RoleNames(c.rulesets, role) ::
      Minus(At(c.rulesets, Key(role, n)), At(b.rulesets, Key(role, n)))
  }

  ghost predicate IsGroup(b: Mean, c: Mean, role: Role, g: Group) {
    && Lists(Delta(b, c, role), g.rulesets)
    && g.rebuild == if role == Equality then c.rebuild - b.rebuild else 0.0
  }

  method RulesetGroupDelta(b: Mean, c: Mean, role: Role) returns (g: Group)
    ensures IsGroup(b, c, role, g)
  {
    var rulesets := ListChanges(Delta(b, c, role));
    g := Group(rulesets, if role == Equality then c.rebuild - b.rebuild else 0.0);
  }

  function WallDelta(bw: Wall, cw: Wall): Option<real> {
    if F.Joined(bw.issue, cw.issue).Some? || bw.point.None? || cw.point.None? then None
    else Some((cw.point.value - bw.point.value) * NANOSECONDS)
  }

  ghost predicate IsBreakdown(b: Mean, c: Mean, bw: Wall, cw: Wall, r: Breakdown) {
    && r.wall == WallDelta(bw, cw) && r.issue == F.Joined(bw.issue, cw.issue)
    && r.typecheck == c.typecheck - b.typecheck && r.frontend == c.frontend - b.frontend && r.commands == c.commands - b.commands
    && IsGroup(b, c, Program, r.program) && IsGroup(b, c, Equality, r.equality)
    && r.residual == (if b.residual.None? || c.residual.None? then 0.0 else c.residual.value - b.residual.value)
    && r.warning == ((b.residual.Some? && b.residual.value < 0.0) || (c.residual.Some? && c.residual.value < 0.0))
  }

  method FileBreakdown(b: Mean, c: Mean, bw: Wall, cw: Wall) returns (r: Breakdown)
    ensures IsBreakdown(b, c, bw, cw, r)
  {
    hide IsGroup;
    var program := RulesetGroupDelta(b, c, Program);
    var equality := RulesetGroupDelta(b, c, Equality);
    var residual := if b.residual.None? || c.residual.None? then 0.0 else c.residual.value - b.residual.value;
    var warning := (b.residual.Some? && b.residual.value < 0.0) || (c.residual.Some? && c.residual.value < 0.0);
    r := Breakdown(WallDelta(bw, cw), c.typecheck - b.typecheck, c.frontend - b.frontend, program, equality,
                   c.commands - b.commands, residual, warning, F.Joined(bw.issue, cw.issue));
  }

  /** The six mechanism changes; none when there is an issue. */
  function Mechanisms(r: Breakdown): seq<Option<real>> {
    if r.issue.Some? then seq(6, _ => None)
    else [Some(r.typecheck), Some(r.frontend), Some(Total(GroupPhases(r.program))), Some(Total(GroupPhases(r.equality))),
          Some(r.commands), Some(r.residual)]
  }

  function MechanismSum(r: Breakdown): real {
    r.typecheck + r.frontend + Total(GroupPhases(r.program)) + Total(GroupPhases(r.equality)) + r.commands + r.residual
  }

  // ---- Each file's change is partitioned exactly -------------------------------------------------------

  function Keys(role: Role, names: set<string>): set<Key> {
    set n | n in names :: Key(role, n)
  }

  lemma {:induction false} SumByName(t: Table<Key>, u: Table<string>, role: Role, s: set<string>)
    requires forall n :: n in s ==> At(u, n) == At(t, Key(role, n))
    ensures SumOf(u, s) == SumOf(t, Keys(role, s))
    decreases |s|
  {
    hide At, Plus;
    if s == {} {
      assert Keys(role, s) == {};
    } else {
      var n :| n in s;
      SumRemove(u, s, n);
      assert Key(role, n) in Keys(role, s);
      SumRemove(t, Keys(role, s), Key(role, n));
      assert Keys(role, s) - {Key(role, n)} == Keys(role, s - {n});
      SumByName(t, u, role, s - {n});
    }
  }

  function ByName(t: Table<Key>, role: Role): Table<string> {
    map n | n in RoleNames(t, role) :: At(t, Key(role, n))
  }

  lemma {:induction false} NameEntries(t: Table<Key>, role: Role, n: string)
    ensures At(ByName(t, role), n) == At(t, Key(role, n)) && (n in RoleNames(t, role) <==> Key(role, n) in t)
  {
    if Key(role, n) in t { assert Key(role, n).name in RoleNames(t, role); }
  }

  ghost function RoleSum(t: Table<Key>, role: Role): Phases { SumOf(t, Keys(role, RoleNames(t, role))) }

  /** Every recorded ruleset belongs to one of the two mechanisms. */
  lemma {:induction false} TwoRoles(t: Table<Key>)
    ensures TableTotal(t) == Total(RoleSum(t, Program)) + Total(RoleSum(t, Equality))
  {
    hide SumOf;
    var p, e := Keys(Program, RoleNames(t, Program)), Keys(Equality, RoleNames(t, Equality));
    forall k: Key ensures k in t.Keys <==> k in p || k in e {
      NameEntries(t, k.role, k.name);
      assert k == Key(k.role, k.name);
    }
    assert t.Keys == p + e;
    SumUnion(t, p, e);
  }

  /** The sum of a mechanism's changes is the change of its sums. */
  lemma {:induction false} DeltaSum(b: Mean, c: Mean, role: Role)
    ensures
      var d := Delta(b, c, role);
      SumOf(d, d.Keys) == Minus(RoleSum(c.rulesets, role), RoleSum(b.rulesets, role))
  {
    hide SumOf, At, Minus;
    var d, tb, tc := Delta(b, c, role), ByName(b.rulesets, role), ByName(c.rulesets, role);
    forall n | n in d.Keys ensures At(d, n) == Minus(At(tc, n), At(tb, n)) {
      NameEntries(b.rulesets, role, n);
      NameEntries(c.rulesets, role, n);
      EntryAt(d, n);
    }
    SumMinus(tc, tb, d, d.Keys);
    SumWhole(tb, d.Keys);
    SumWhole(tc, d.Keys);
    NamesSum(b.rulesets, role);
    NamesSum(c.rulesets, role);
  }

  lemma {:induction false} NamesSum(t: Table<Key>, role: Role)
    ensures SumOf(ByName(t, role), ByName(t, role).Keys) == RoleSum(t, role)
  {
    hide SumOf, At;
    var u := ByName(t, role);
    forall n | n in u.Keys ensures At(u, n) == At(t, Key(role, n)) { NameEntries(t, role, n); }
    SumByName(t, u, role, u.Keys);
    assert u.Keys == RoleNames(t, role);
  }

  /** Leaving out unchanged rulesets loses nothing: a group's total is the change of its mechanism's total. */
  lemma {:induction false} GroupTotal(b: Mean, c: Mean, role: Role, g: Group)
    requires IsGroup(b, c, role, g)
    ensures GroupPhases(g).rebuild - g.rebuild == Minus(RoleSum(c.rulesets, role), RoleSum(b.rulesets, role)).rebuild
    ensures PhaseSum(g.rulesets) == Minus(RoleSum(c.rulesets, role), RoleSum(b.rulesets, role))
    ensures Total(GroupPhases(g)) == Total(RoleSum(c.rulesets, role)) - Total(RoleSum(b.rulesets, role)) + g.rebuild
  {
    hide SumOf, Lists, RoleSum, Delta, PhaseSum;
    ListingKeepsSum(Delta(b, c, role), g.rulesets);
    DeltaSum(b, c, role);
  }

  /** Both means' residuals are the rest of the wall times the change is computed from. */
  ghost predicate RestOf(m: Mean, w: Wall) {
    w.point.Some? && m.residual == Some(w.point.value * NANOSECONDS - Recorded(m))
  }

  lemma {:induction false} MeanIsRest(s: Sums, n: real, w: Wall)
    requires n != 0.0 && w.point.Some?
    ensures RestOf(MeanOf(s, n, w.point), w)
  {
    hide TableTotal, DividedTable;
    MeanResidual(s, n, w.point.value);
  }

  /** The six changes add up to the wall-time change of the file, exactly. */
  lemma {:induction false} FilePartition(b: Mean, c: Mean, bw: Wall, cw: Wall, r: Breakdown)
    requires IsBreakdown(b, c, bw, cw, r) && RestOf(b, bw) && RestOf(c, cw) && r.issue.None?
    ensures r.wall.Some? && MechanismSum(r) == r.wall.value
    ensures forall i :: 0 <= i < 6 ==> Mechanisms(r)[i].Some?
  {
    hide TableTotal, RoleSum, Total, GroupPhases, IsGroup;
    GroupTotal(b, c, Program, r.program);
    GroupTotal(b, c, Equality, r.equality);
    TwoRoles(b.rulesets);
    TwoRoles(c.rulesets);
    GroupRebuild(b, c, Program, r.program);
    GroupRebuild(b, c, Equality, r.equality);
    Scaled(cw.point.value, bw.point.value);
  }

  /** From the records themselves: whatever the rows hold, the six changes add up to the change of the two wall times. */
  lemma {:induction false} RecordsPartition(before: seq<Row>, after: seq<Row>, bw: Wall, cw: Wall, r: Breakdown)
    requires AddRows(before).Some? && AddRows(after).Some? && bw.point.Some? && cw.point.Some?
    requires
      var b, c := MeanOf(AddRows(before).value, Count(before), bw.point), MeanOf(AddRows(after).value, Count(after), cw.point);
      IsBreakdown(b, c, bw, cw, r) && r.issue.None?
    ensures MechanismSum(r) == (cw.point.value - bw.point.value) * NANOSECONDS && r.wall == Some(MechanismSum(r))
    ensures r.residual == ((cw.point.value * NANOSECONDS - AttributedBy(after) / Count(after))
                           - (bw.point.value * NANOSECONDS - AttributedBy(before) / Count(before)))
  {
    hide AddRows, MeanOf, RestOf, IsGroup, MechanismSum, AttributedBy, Count;
    var m, n := AddRows(before).value, AddRows(after).value;
    CountPositive(before);
    CountPositive(after);
    var b, c := MeanOf(m, Count(before), bw.point), MeanOf(n, Count(after), cw.point);
    MeanIsRest(m, Count(before), bw);
    MeanIsRest(n, Count(after), cw);
    FilePartition(b, c, bw, cw, r);
    ResidualIsUnattributed(before, bw.point.value);
    ResidualIsUnattributed(after, cw.point.value);
  }

  lemma {:induction false} CountPositive(rows: seq<Row>)
    ensures Count(rows) > 0.0
  {
  }

  lemma {:induction false} GroupRebuild(b: Mean, c: Mean, role: Role, g: Group)
    requires IsGroup(b, c, role, g)
    ensures g.rebuild == if role == Equality then c.rebuild - b.rebuild else 0.0
  {
  }

  lemma {:induction false} Scaled(x: real, y: real)
    ensures (x - y) * NANOSECONDS == x * NANOSECONDS - y * NANOSECONDS
  {
  }

  // ---- The suite ------------------------------------------------------------------------------------------

  function AddChanges(t: Table<string>, s: seq<Change>): Table<string> {
    if s == [] then t else Added(AddChanges(t, s[..|s| - 1]), s[|s| - 1].name, s[|s| - 1].phases)
  }

  function AddGroups(gs: seq<Group>): Table<string> {
    if gs == [] then map[] else AddChanges(AddGroups(gs[..|gs| - 1]), gs[|gs| - 1].rulesets)
  }

  function RebuildSum(gs: seq<Group>): real {
    if gs == [] then 0.0 else RebuildSum(gs[..|gs| - 1]) + gs[|gs| - 1].rebuild
  }

  function AllPhases(gs: seq<Group>): Phases {
    if gs == [] then ZERO else Plus(AllPhases(gs[..|gs| - 1]), GroupPhases(gs[|gs| - 1]))
  }

  ghost predicate IsGroupSum(gs: seq<Group>, g: Group) {
    Lists(AddGroups(gs), g.rulesets) && g.rebuild == RebuildSum(gs)
  }

  method SumRulesetGroups(gs: seq<Group>) returns (g: Group)
    ensures IsGroupSum(gs, g)
  {
    hide AddChanges, Lists;
    var table: Table<string>, rebuild := map[], 0.0;
    for i := 0 to |gs|
      invariant table == AddGroups(gs[..i]) && rebuild == RebuildSum(gs[..i])
    {
      assert gs[..i + 1][..i] == gs[..i];
      rebuild := rebuild + gs[i].rebuild;
      table := AddGroup(table, gs[i].rulesets);
    }
    assert gs[..|gs|] == gs;
    var rulesets := ListChanges(table);
    g := Group(rulesets, rebuild);
  }

  method AddGroup(t: Table<string>, s: seq<Change>) returns (table: Table<string>)
    ensures table == AddChanges(t, s)
  {
    hide Added;
    table := t;
    for i := 0 to |s|
      invariant table == AddChanges(t, s[..i])
    {
      assert s[..i + 1][..i] == s[..i];
      table := Added(table, s[i].name, s[i].phases);
    }
    assert s[..|s|] == s;
  }

  lemma {:induction false} ChangesSum(t: Table<string>, s: seq<Change>)
    ensures SumOf(AddChanges(t, s), AddChanges(t, s).Keys) == Plus(SumOf(t, t.Keys), PhaseSum(s))
  {
    hide SumOf, Added, Plus;
    if s == [] {
      PlusZero(SumOf(t, t.Keys));
    } else {
      var n := |s| - 1;
      ChangesSum(t, s[..n]);
      SumAdded(AddChanges(t, s[..n]), s[n].name, s[n].phases);
      PlusSwap(SumOf(t, t.Keys), PhaseSum(s[..n]), s[n].phases);
    }
  }

  lemma {:induction false} GroupsSum(gs: seq<Group>)
    ensures
      var p := SumOf(AddGroups(gs), AddGroups(gs).Keys);
      p.(rebuild := p.rebuild + RebuildSum(gs)) == AllPhases(gs)
  {
    hide SumOf, PhaseSum, AddChanges;
    if gs == [] {
      NothingLeft<string>(map[]);
      var none: Table<string> := map[];
      assert none.Keys == {};
    } else {
      var n := |gs| - 1;
      GroupsSum(gs[..n]);
      ChangesSum(AddGroups(gs[..n]), gs[n].rulesets);
    }
  }

  /** The suite's group shows, phase by phase, the sum of the files' groups. */
  lemma {:induction false} GroupSumPhases(gs: seq<Group>, g: Group)
    requires IsGroupSum(gs, g)
    ensures GroupPhases(g) == AllPhases(gs)
  {
    hide SumOf, PhaseSum, AddGroups, Lists, AllPhases;
    ListingKeepsSum(AddGroups(gs), g.rulesets);
    GroupsSum(gs);
  }

  function Typechecks(fs: seq<Breakdown>): real {
    if fs == [] then 0.0 else Typechecks(fs[..|fs| - 1]) + fs[|fs| - 1].typecheck
  }

  function Frontends(fs: seq<Breakdown>): real {
    if fs == [] then 0.0 else Frontends(fs[..|fs| - 1]) + fs[|fs| - 1].frontend
  }

  function Commands(fs: seq<Breakdown>): real {
    if fs == [] then 0.0 else Commands(fs[..|fs| - 1]) + fs[|fs| - 1].commands
  }

  function Residuals(fs: seq<Breakdown>): real {
    if fs == [] then 0.0 else Residuals(fs[..|fs| - 1]) + fs[|fs| - 1].residual
  }

  function Walls(fs: seq<Breakdown>): real {
    if fs == [] then 0.0 else Walls(fs[..|fs| - 1]) + if fs[|fs| - 1].wall.Some? then fs[|fs| - 1].wall.value else 0.0
  }

  function Programs(fs: seq<Breakdown>): seq<Group> { seq(|fs|, i requires 0 <= i < |fs| => fs[i].program) }

  function Equalities(fs: seq<Breakdown>): seq<Group> { seq(|fs|, i requires 0 <= i < |fs| => fs[i].equality) }

  function FirstIssue(fs: seq<Breakdown>): Option<string> {
    if fs == [] then None else if fs[0].issue.Some? then fs[0].issue else FirstIssue(fs[1..])
  }

  ghost predicate IsSuite(fs: seq<Breakdown>, r: Breakdown) {
    && r.issue == FirstIssue(fs) && r.wall == (if r.issue.Some? then None else Some(Walls(fs)))
    && r.typecheck == Typechecks(fs) && r.frontend == Frontends(fs) && r.commands == Commands(fs) && r.residual == Residuals(fs)
    && IsGroupSum(Programs(fs), r.program) && IsGroupSum(Equalities(fs), r.equality)
    && (r.warning <==> exists i :: 0 <= i < |fs| && fs[i].warning)
  }

  method SuiteBreakdown(fs: seq<Breakdown>) returns (r: Breakdown)
    ensures IsSuite(fs, r)
  {
    hide IsGroupSum;
    var program := SumRulesetGroups(Programs(fs));
    var equality := SumRulesetGroups(Equalities(fs));
    var issue := FirstIssue(fs);
    r := Breakdown(if issue.Some? then None else Some(Walls(fs)), Typechecks(fs), Frontends(fs), program, equality,
                   Commands(fs), Residuals(fs), exists i :: 0 <= i < |fs| && fs[i].warning, issue);
  }

  lemma {:induction false} NoIssueAnywhere(fs: seq<Breakdown>)
    ensures FirstIssue(fs).None? <==> forall i :: 0 <= i < |fs| ==> fs[i].issue.None?
  {
    if fs != [] {
      NoIssueAnywhere(fs[1..]);
      assert forall i :: 0 < i < |fs| ==> fs[i] == fs[1..][i - 1];
      assert forall i :: 0 <= i < |fs| - 1 ==> fs[1..][i] == fs[i + 1];
    }
  }

  /** The files' changes, mechanism by mechanism, add up to the files' wall-time changes. */
  lemma {:induction false} MechanismsAddUp(fs: seq<Breakdown>)
    requires forall i :: 0 <= i < |fs| ==> fs[i].wall.Some? && MechanismSum(fs[i]) == fs[i].wall.value
    ensures Typechecks(fs) + Frontends(fs) + Total(AllPhases(Programs(fs))) + Total(AllPhases(Equalities(fs)))
            + Commands(fs) + Residuals(fs) == Walls(fs)
  {
    hide GroupPhases, AllPhases, Total;
    AllNothing();
    if fs != [] {
      var n := |fs| - 1;
      MechanismsAddUp(fs[..n]);
      assert Programs(fs)[..n] == Programs(fs[..n]) && Equalities(fs)[..n] == Equalities(fs[..n]);
      AllLast(Programs(fs));
      AllLast(Equalities(fs));
    }
  }

  lemma {:induction false} AllNothing()
    ensures Total(AllPhases([])) == 0.0
  {
  }

  lemma {:induction false} AllLast(gs: seq<Group>)
    requires gs != []
    ensures Total(AllPhases(gs)) == Total(AllPhases(gs[..|gs| - 1])) + Total(GroupPhases(gs[|gs| - 1]))
  {
    hide GroupPhases;
  }

  /** And so do the suite's six changes. */
  lemma {:induction false} SuitePartition(fs: seq<Breakdown>, r: Breakdown)
    requires IsSuite(fs, r) && r.issue.None?
    requires forall i :: 0 <= i < |fs| && fs[i].issue.None? ==> fs[i].wall.Some? && MechanismSum(fs[i]) == fs[i].wall.value
    ensures r.wall.Some? && MechanismSum(r) == r.wall.value
  {
    hide GroupPhases, AllPhases, IsGroupSum, Total, FirstIssue, Walls, Typechecks, Frontends, Commands, Residuals;
    NoIssueAnywhere(fs);
    GroupSumPhases(Programs(fs), r.program);
    GroupSumPhases(Equalities(fs), r.equality);
    MechanismsAddUp(fs);
  }
}
