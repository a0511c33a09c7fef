/**
 Planning and running the missing observations.  A plan holds one run per cache
 identity; the round-robin collector stops a key at its first failure.  The main
 results: after a collection that returns, planning again finds nothing to do,
 and the progress accounts balance after every observation.
 */
module Collector {
  import opened Prelude
  import opened Observations
  import opened ReportCache

  /** A reviewed exclusion that matched the cell: a resource deferral under a recorded cap, or another kind. */
  datatype Exclusion = Deferral | Reviewed

  /** One requested endpoint and file. */
  datatype Cell = Cell(key: Key, limit: Option<int>, alias: Option<string>, exclusion: Option<Exclusion>)

  datatype Run = Run(key: Key, limit: Option<int>, alias: Option<string>, missing: nat)

  predicate AllSucceeded(rows: seq<Indexed>) {
    forall i :: 0 <= i < |rows| ==> rows[i].record.status == Succeeded
  }

  function Chosen(rows: seq<Indexed>, c: Cell, rounds: nat, timeout: int): seq<Indexed> {
    Select(ByKey(rows, c.key), rounds, timeout, c.limit)
  }

  /** An exclusion holds back fresh work, but a deferral does not discard samples that are already complete. */
  predicate Excluded(rows: seq<Indexed>, c: Cell, rounds: nat, timeout: int) {
    && c.exclusion.Some?
    && !(c.exclusion.value == Deferral
         && |Chosen(rows, c, rounds, timeout)| == rounds && AllSucceeded(Chosen(rows, c, rounds, timeout)))
  }

  /** Fresh observations a selection still needs; any cached failure counts as an answer. */
  function Missing(selected: seq<Indexed>, rounds: nat): nat {
    if AllSucceeded(selected) && |selected| < rounds then rounds - |selected| else 0
  }

  function CellMissing(rows: seq<Indexed>, c: Cell, rounds: nat, timeout: int): nat {
    Missing(Chosen(rows, c, rounds, timeout), rounds)
  }

  // ---- The plan ------------------------------------------------------------------------

  predicate Planned(runs: seq<Run>, k: Key) {
    exists i :: 0 <= i < |runs| && runs[i].key == k
  }

  /** The first cell of a key that is not excluded decides its run. */
  function Plan(rows: seq<Indexed>, cells: seq<Cell>, rounds: nat, timeout: int, force: bool): seq<Run> {
    if cells == [] then []
    else
      var c := cells[|cells| - 1];
      var before := Plan(rows, cells[..|cells| - 1], rounds, timeout, force);
      if Excluded(rows, c, rounds, timeout) || Planned(before, c.key) then before
      else before + [Run(c.key, c.limit, c.alias, if force then rounds else CellMissing(rows, c, rounds, timeout))]
  }

  predicate DistinctKeys(runs: seq<Run>) {
    forall i, j :: 0 <= i < j < |runs| ==> runs[i].key != runs[j].key
  }

  lemma {:induction false} PlanKeys(rows: seq<Indexed>, cells: seq<Cell>, rounds: nat, timeout: int, force: bool)
    ensures DistinctKeys(Plan(rows, cells, rounds, timeout, force))
  {
    if cells != [] { PlanKeys(rows, cells[..|cells| - 1], rounds, timeout, force); }
  }

  method PlanCollection(store: ReportStore, cells: seq<Cell>, rounds: int, timeout: int, force: bool)
    returns (r: Result<seq<Run>>)
    requires store.Valid()
    ensures rounds < 1 && cells != [] ==> r.Failure?
    ensures rounds >= 1 ==> r == Success(Plan(store.rows, cells, rounds, timeout, force)) && DistinctKeys(r.value)
  {
    hide Chosen, Select;
    var runs: seq<Run> := [];
    if rounds >= 1 { PlanKeys(store.rows, cells, rounds, timeout, force); }
    for i := 0 to |cells|
      invariant i > 0 ==> rounds >= 1
      invariant rounds >= 1 ==> runs == Plan(store.rows, cells[..i], rounds, timeout, force)
      invariant i == 0 ==> runs == []
    {
      assert cells[..i + 1][..i] == cells[..i];
      var c := cells[i];
      var selected := LatestFor(store, c, rounds, timeout);
      if selected.Failure? {
        return Failure(selected.error);
      }
      var rows := selected.value;
      var deferred := c.exclusion == Some(Deferral) && |rows| == rounds && AllSucceeded(rows);
      if c.exclusion.Some? && !deferred {
        continue;
      }
      if !Planned(runs, c.key) {
        runs := runs + [Run(c.key, c.limit, c.alias, if force then rounds else Missing(rows, rounds))];
      }
    }
    assert cells[..|cells|] == cells;
    r := Success(runs);
  }

  method LatestFor(store: ReportStore, c: Cell, rounds: int, timeout: int) returns (r: Result<seq<Indexed>>)
    requires store.Valid()
    ensures rounds < 1 ==> r.Failure?
    ensures rounds >= 1 ==> r == Success(Chosen(store.rows, c, rounds, timeout))
  {
    r := store.LatestRecords(c.key, rounds, timeout, c.limit);
  }

  /** Whether a labelled target needs no binary: every cell is excluded or answered by its cached rows. */
  ghost predicate Enough(rows: seq<Indexed>, cells: seq<Cell>, rounds: nat, timeout: int) {
    forall i :: 0 <= i < |cells| ==> Excluded(rows, cells[i], rounds, timeout) || CellMissing(rows, cells[i], rounds, timeout) == 0
  }

  method LabelHasEnoughRows(store: ReportStore, cells: seq<Cell>, rounds: nat, timeout: int) returns (enough: bool)
    requires store.Valid() && rounds >= 1
    ensures enough <==> Enough(store.rows, cells, rounds, timeout)
  {
    hide Chosen, Select;
    for i := 0 to |cells|
      invariant forall j :: 0 <= j < i ==>
        Excluded(store.rows, cells[j], rounds, timeout) || CellMissing(store.rows, cells[j], rounds, timeout) == 0
    {
      var c := cells[i];
      var selected := LatestFor(store, c, rounds, timeout);
      var rows := selected.value;
      var deferred := c.exclusion == Some(Deferral) && |rows| == rounds && AllSucceeded(rows);
      if c.exclusion.Some? && !deferred {
        continue;
      }
      if |rows| < rounds && AllSucceeded(rows) {
        return false;
      }
    }
    enough := true;
  }

  ghost predicate NothingMissing(runs: seq<Run>) {
    forall i :: 0 <= i < |runs| ==> runs[i].missing == 0
  }

  /** One memory bound per cache key. */
  ghost predicate OneBound(cells: seq<Cell>) {
    forall i, j :: 0 <= i < |cells| && 0 <= j < |cells| && cells[i].key == cells[j].key ==> cells[i].limit == cells[j].limit
  }

  /** The first cell of its key that is not excluded. */
  ghost predicate First(rows: seq<Indexed>, cells: seq<Cell>, j: nat, rounds: nat, timeout: int)
    requires j < |cells|
  {
    && !Excluded(rows, cells[j], rounds, timeout)
    && forall i :: 0 <= i < j && cells[i].key == cells[j].key ==> Excluded(rows, cells[i], rounds, timeout)
  }

  ghost predicate Sourced(rows: seq<Indexed>, cells: seq<Cell>, run: Run, rounds: nat, timeout: int) {
    exists j :: 0 <= j < |cells| && First(rows, cells, j, rounds, timeout) && FromCell(rows, run, cells[j], rounds, timeout)
  }

  lemma {:induction false} SourcedGrows(rows: seq<Indexed>, cells: seq<Cell>, c: Cell, run: Run, rounds: nat, timeout: int)
    requires Sourced(rows, cells, run, rounds, timeout)
    ensures Sourced(rows, cells + [c], run, rounds, timeout)
  {
    hide Excluded, CellMissing;
    var j :| 0 <= j < |cells| && First(rows, cells, j, rounds, timeout) && FromCell(rows, run, cells[j], rounds, timeout);
    assert (cells + [c])[j] == cells[j];
    assert First(rows, cells + [c], j, rounds, timeout);
  }

  /** Every run comes from the first cell of its key that is not excluded, and every such key is planned. */
  lemma {:induction false} PlanCells(rows: seq<Indexed>, cells: seq<Cell>, rounds: nat, timeout: int)
    ensures
      var runs := Plan(rows, cells, rounds, timeout, false);
      && (forall i :: 0 <= i < |runs| ==> Sourced(rows, cells, runs[i], rounds, timeout))
      && (forall j :: 0 <= j < |cells| && !Excluded(rows, cells[j], rounds, timeout) ==> Planned(runs, cells[j].key))
  {
    hide Excluded, CellMissing, Sourced;
    if cells != [] {
      var n := |cells| - 1;
      PlanCells(rows, cells[..n], rounds, timeout);
      assert cells == cells[..n] + [cells[n]];
      var before, runs := Plan(rows, cells[..n], rounds, timeout, false), Plan(rows, cells, rounds, timeout, false);
      forall i | 0 <= i < |runs| ensures Sourced(rows, cells, runs[i], rounds, timeout) {
        if i < |before| {
          SourcedGrows(rows, cells[..n], cells[n], before[i], rounds, timeout);
        } else {
          assert forall j :: 0 <= j < n ==> cells[..n][j] == cells[j];
          NewlySourced(rows, cells, rounds, timeout);
        }
      }
      forall j | 0 <= j < |cells| && !Excluded(rows, cells[j], rounds, timeout) ensures Planned(runs, cells[j].key) {
        if j < n {
          assert cells[..n][j] == cells[j];
          PlannedStays(before, runs, cells[j].key);
        } else if Planned(before, cells[n].key) {
          PlannedStays(before, runs, cells[n].key);
        } else {
          assert runs[|before|].key == cells[n].key;
        }
      }
    }
  }

  lemma {:induction false} PlannedStays(before: seq<Run>, runs: seq<Run>, k: Key)
    requires Planned(before, k) && before <= runs
    ensures Planned(runs, k)
  {
    var i :| 0 <= i < |before| && before[i].key == k;
    assert runs[i].key == k;
  }

  lemma {:induction false} NewlySourced(rows: seq<Indexed>, cells: seq<Cell>, rounds: nat, timeout: int)
    requires cells != [] && !Excluded(rows, cells[|cells| - 1], rounds, timeout)
    requires !Planned(Plan(rows, cells[..|cells| - 1], rounds, timeout, false), cells[|cells| - 1].key)
    requires forall j :: 0 <= j < |cells| - 1 && !Excluded(rows, cells[j], rounds, timeout)
               ==> Planned(Plan(rows, cells[..|cells| - 1], rounds, timeout, false), cells[j].key)
    ensures
      var c := cells[|cells| - 1];
      Sourced(rows, cells, Run(c.key, c.limit, c.alias, CellMissing(rows, c, rounds, timeout)), rounds, timeout)
  {
    hide Excluded, CellMissing, Plan, Planned;
    var n := |cells| - 1;
    assert First(rows, cells, n, rounds, timeout);
  }

  predicate FromCell(rows: seq<Indexed>, run: Run, c: Cell, rounds: nat, timeout: int) {
    && !Excluded(rows, c, rounds, timeout)
    && run == Run(c.key, c.limit, c.alias, CellMissing(rows, c, rounds, timeout))
  }

  lemma {:induction false} SourceOf(rows: seq<Indexed>, cells: seq<Cell>, run: Run, rounds: nat, timeout: int) returns (j: nat)
    requires Sourced(rows, cells, run, rounds, timeout)
    ensures j < |cells| && FromCell(rows, run, cells[j], rounds, timeout) && First(rows, cells, j, rounds, timeout)
  {
    hide First, FromCell;
    j :| 0 <= j < |cells| && First(rows, cells, j, rounds, timeout) && FromCell(rows, run, cells[j], rounds, timeout);
  }

  /** The cells the runs come from, in the order they were requested. */
  ghost predicate Origins(rows: seq<Indexed>, cells: seq<Cell>, runs: seq<Run>, at: seq<nat>, rounds: nat, timeout: int, force: bool) {
    && |at| == |runs| && (forall i, j :: 0 <= i < j < |at| ==> at[i] < at[j])
    && forall i :: 0 <= i < |at| ==>
         && at[i] < |cells| && First(rows, cells, at[i], rounds, timeout)
         && var c := cells[at[i]];
            runs[i] == Run(c.key, c.limit, c.alias, if force then rounds else CellMissing(rows, c, rounds, timeout))
  }

  /** Forced or not, the plan has the runs of the first included cells of all keys, in the order of those cells. */
  lemma {:induction false} PlanOrder(rows: seq<Indexed>, cells: seq<Cell>, rounds: nat, timeout: int, force: bool) returns (at: seq<nat>)
    ensures Origins(rows, cells, Plan(rows, cells, rounds, timeout, force), at, rounds, timeout, force)
    ensures forall j :: 0 <= j < |cells| && First(rows, cells, j, rounds, timeout) ==> j in at
  {
    hide Excluded, CellMissing, Origins;
    at := [];
    if cells == [] {
      NoOrigins(rows, rounds, timeout, force);
    } else {
      var n := |cells| - 1;
      at := PlanOrder(rows, cells[..n], rounds, timeout, force);
      var before := Plan(rows, cells[..n], rounds, timeout, force);
      OriginsGrow(rows, cells, before, at, rounds, timeout, force);
      LastFirst(rows, cells, before, at, rounds, timeout, force);
      if !Excluded(rows, cells[n], rounds, timeout) && !Planned(before, cells[n].key) {
        at := OriginsSnoc(rows, cells, before, at, rounds, timeout, force);
      }
    }
  }

  lemma {:induction false} NoOrigins(rows: seq<Indexed>, rounds: nat, timeout: int, force: bool)
    ensures Origins(rows, [], [], [], rounds, timeout, force)
  {
  }

  /** A cell more leaves the earlier origins what they are. */
  lemma {:induction false} OriginsGrow(rows: seq<Indexed>, cells: seq<Cell>, runs: seq<Run>, at: seq<nat>, rounds: nat, timeout: int, force: bool)
    requires cells != [] && Origins(rows, cells[..|cells| - 1], runs, at, rounds, timeout, force)
    requires forall j :: 0 <= j < |cells| - 1 && First(rows, cells[..|cells| - 1], j, rounds, timeout) ==> j in at
    ensures Origins(rows, cells, runs, at, rounds, timeout, force)
    ensures forall j :: 0 <= j < |cells| - 1 && First(rows, cells, j, rounds, timeout) ==> j in at
    ensures forall i :: 0 <= i < |at| ==> at[i] < |cells| - 1
  {
    hide Excluded, CellMissing;
    var n := |cells| - 1;
    forall j | 0 <= j < n ensures First(rows, cells, j, rounds, timeout) <==> First(rows, cells[..n], j, rounds, timeout) {
      assert forall i :: 0 <= i < n ==> cells[..n][i] == cells[i];
    }
  }

  /** The last cell is the first of its key exactly if no run has that key. */
  lemma {:induction false} LastFirst(rows: seq<Indexed>, cells: seq<Cell>, runs: seq<Run>, at: seq<nat>, rounds: nat, timeout: int, force: bool)
    requires cells != [] && Origins(rows, cells, runs, at, rounds, timeout, force)
    requires forall j :: 0 <= j < |cells| - 1 && First(rows, cells, j, rounds, timeout) ==> j in at
    requires forall i :: 0 <= i < |at| ==> at[i] < |cells| - 1
    ensures First(rows, cells, |cells| - 1, rounds, timeout) <==> !Excluded(rows, cells[|cells| - 1], rounds, timeout) && !Planned(runs, cells[|cells| - 1].key)
  {
    hide Excluded, CellMissing;
    var n := |cells| - 1;
    if Planned(runs, cells[n].key) {
      var i :| 0 <= i < |runs| && runs[i].key == cells[n].key;
      assert First(rows, cells, at[i], rounds, timeout) && cells[at[i]].key == cells[n].key;
    } else {
      forall i | 0 <= i < n && cells[i].key == cells[n].key ensures Excluded(rows, cells[i], rounds, timeout) {
        var k := FirstOf(rows, cells, i, rounds, timeout);
        assert First(rows, cells, k, rounds, timeout) ==> k in at;
      }
    }
  }

  /** A key with an included cell has a first one. */
  lemma {:induction false} FirstOf(rows: seq<Indexed>, cells: seq<Cell>, i: nat, rounds: nat, timeout: int) returns (k: nat)
    requires i < |cells|
    ensures k <= i && cells[k].key == cells[i].key
    ensures !Excluded(rows, cells[i], rounds, timeout) ==> First(rows, cells, k, rounds, timeout)
  {
    hide Excluded;
    k := i;
    if j :| 0 <= j < i && cells[j].key == cells[i].key && !Excluded(rows, cells[j], rounds, timeout) {
      k := FirstOf(rows, cells, j, rounds, timeout);
    }
  }

  lemma {:induction false} OriginsSnoc(rows: seq<Indexed>, cells: seq<Cell>, runs: seq<Run>, at: seq<nat>, rounds: nat, timeout: int, force: bool)
      returns (more: seq<nat>)
    requires cells != [] && Origins(rows, cells, runs, at, rounds, timeout, force)
    requires First(rows, cells, |cells| - 1, rounds, timeout) && forall i :: 0 <= i < |at| ==> at[i] < |cells| - 1
    ensures
      var c := cells[|cells| - 1];
      Origins(rows, cells, runs + [Run(c.key, c.limit, c.alias, if force then rounds else CellMissing(rows, c, rounds, timeout))], more,
              rounds, timeout, force)
    ensures more == at + [|cells| - 1]
  {
    hide First, CellMissing;
    more := at + [|cells| - 1];
  }

  /**
   A cell by its newest standing rows: what it still needs, and when an exclusion holds it back.  A reviewed exclusion
   always does; a deferral does unless as many rows as asked for are there and all of them succeeded.
   */
  lemma {:induction false} CellMeans(rows: seq<Indexed>, c: Cell, rounds: nat, timeout: int) returns (newest: seq<Indexed>)
    requires DistinctRows(ByKey(rows, c.key))
    ensures IsNewest(ByKey(rows, c.key), newest, rounds, timeout, c.limit)
    ensures
      var clean := forall i :: 0 <= i < |newest| ==> newest[i].record.status == Succeeded;
      && CellMissing(rows, c, rounds, timeout) == (if clean then rounds - |newest| else 0)
      && (Excluded(rows, c, rounds, timeout) <==> c.exclusion == Some(Reviewed) || (c.exclusion == Some(Deferral) && !(clean && |newest| == rounds)))
  {
    hide ByKey, Select, IsNewest;
    newest := Chosen(rows, c, rounds, timeout);
    SelectIsNewest(ByKey(rows, c.key), rounds, timeout, c.limit);
    NewestSize(ByKey(rows, c.key), newest, rounds, timeout, c.limit);
  }

  lemma {:induction false} NewestSize(rows: seq<Indexed>, out: seq<Indexed>, rounds: nat, timeout: int, limit: Option<int>)
    requires IsNewest(rows, out, rounds, timeout, limit)
    ensures |out| <= rounds
  {
  }

  /** The bound a key is planned under is the most generous one requested for it. */
  ghost predicate PlannedGenerously(rows: seq<Indexed>, cells: seq<Cell>, rounds: nat, timeout: int) {
    forall j, k :: 0 <= j < |cells| && 0 <= k < |cells| && cells[j].key == cells[k].key && First(rows, cells, k, rounds, timeout)
                   ==> Loosens(cells[j].limit, cells[k].limit)
  }

  lemma {:induction false} OneBoundIsGenerous(rows: seq<Indexed>, cells: seq<Cell>, rounds: nat, timeout: int)
    requires OneBound(cells)
    ensures PlannedGenerously(rows, cells, rounds, timeout)
  {
    hide First;
  }

  /** Rows that answer a bound answer every smaller one. */
  lemma {:induction false} SmallerBoundNeedsNoMore(rows: seq<Indexed>, c: Cell, d: Cell, rounds: nat, timeout: int)
    requires c.key == d.key && Loosens(d.limit, c.limit) && CellMissing(rows, c, rounds, timeout) == 0
    ensures CellMissing(rows, d, rounds, timeout) == 0
  {
    hide Eligible, Sort, Retried;
    var s := ByKey(rows, c.key);
    if CellMissing(rows, d, rounds, timeout) > 0 {
      DeficitMeans(s, rounds, timeout, d.limit);
      AllSelected(s, rounds, timeout, d.limit);
      Shrinks(s, timeout, d.limit, c.limit);
      AllSelected(s, rounds, timeout, c.limit);
      var few, chosen := Select(s, rounds, timeout, c.limit), Select(s, rounds, timeout, d.limit);
      forall i | 0 <= i < |few| ensures few[i].record.status == Succeeded {
        assert few[i] in multiset(few) && few[i] in multiset(chosen);
        assert few[i] in chosen;
      }
    }
  }

  lemma {:induction false} Shrinks(s: seq<Indexed>, timeout: int, limit: Option<int>, limit': Option<int>)
    requires Loosens(limit, limit')
    ensures multiset(Eligible(s, timeout, limit')) <= multiset(Eligible(s, timeout, limit))
    ensures |Eligible(s, timeout, limit')| <= |Eligible(s, timeout, limit)|
  {
    hide Eligible, Retried;
    var a, b := Eligible(s, timeout, limit'), Eligible(s, timeout, limit);
    forall x ensures multiset(a)[x] <= multiset(b)[x] { RaisingGuardsShrinks(s, timeout, limit, timeout, limit', x); }
    assert multiset(a) <= multiset(b);
    assert |multiset(b)| == |multiset(a)| + |multiset(b) - multiset(a)|;
  }

  /**
   A label has enough rows only if the plan for its cells needs no fresh run, and exactly then when each key is
   planned under the most generous of its bounds: in particular when it has only one.
   */
  lemma {:induction false} EnoughIsPlanned(rows: seq<Indexed>, cells: seq<Cell>, rounds: nat, timeout: int)
    ensures Enough(rows, cells, rounds, timeout) ==> NothingMissing(Plan(rows, cells, rounds, timeout, false))
    ensures PlannedGenerously(rows, cells, rounds, timeout) ==> Agree(rows, cells, rounds, timeout)
    ensures OneBound(cells) ==> Agree(rows, cells, rounds, timeout)
  {
    hide Excluded, CellMissing, Plan, Sourced, First, Loosens, PlannedGenerously, Planned;
    if OneBound(cells) { OneBoundIsGenerous(rows, cells, rounds, timeout); }
    var runs := Plan(rows, cells, rounds, timeout, false);
    if Enough(rows, cells, rounds, timeout) {
      forall i | 0 <= i < |runs| ensures runs[i].missing == 0 {
        RunIsSourced(rows, cells, rounds, timeout, i);
        var j := SourceOf(rows, cells, runs[i], rounds, timeout);
      }
    }
    if PlannedGenerously(rows, cells, rounds, timeout) && NothingMissing(runs) {
      forall j | 0 <= j < |cells|
        ensures Excluded(rows, cells[j], rounds, timeout) || CellMissing(rows, cells[j], rounds, timeout) == 0
      {
        if !Excluded(rows, cells[j], rounds, timeout) {
          var i := RunOfCell(rows, cells, rounds, timeout, j);
          RunIsSourced(rows, cells, rounds, timeout, i);
          var k := SourceOf(rows, cells, runs[i], rounds, timeout);
          GenerousTo(rows, cells, rounds, timeout, j, k);
          SmallerBoundNeedsNoMore(rows, cells[k], cells[j], rounds, timeout);
        }
      }
    }
  }

  lemma {:induction false} RunIsSourced(rows: seq<Indexed>, cells: seq<Cell>, rounds: nat, timeout: int, i: nat)
    requires i < |Plan(rows, cells, rounds, timeout, false)|
    ensures Sourced(rows, cells, Plan(rows, cells, rounds, timeout, false)[i], rounds, timeout)
  {
    hide Plan, Sourced, Planned, Excluded;
    PlanCells(rows, cells, rounds, timeout);
  }

  lemma {:induction false} RunOfCell(rows: seq<Indexed>, cells: seq<Cell>, rounds: nat, timeout: int, j: nat) returns (i: nat)
    requires j < |cells| && !Excluded(rows, cells[j], rounds, timeout)
    ensures i < |Plan(rows, cells, rounds, timeout, false)| && Plan(rows, cells, rounds, timeout, false)[i].key == cells[j].key
  {
    hide Plan, Sourced, Excluded;
    PlanCells(rows, cells, rounds, timeout);
    var runs := Plan(rows, cells, rounds, timeout, false);
    assert Planned(runs, cells[j].key);
    i :| 0 <= i < |runs| && runs[i].key == cells[j].key;
  }

  lemma {:induction false} GenerousTo(rows: seq<Indexed>, cells: seq<Cell>, rounds: nat, timeout: int, j: nat, k: nat)
    requires PlannedGenerously(rows, cells, rounds, timeout) && j < |cells| && k < |cells| && cells[j].key == cells[k].key
    requires First(rows, cells, k, rounds, timeout)
    ensures Loosens(cells[j].limit, cells[k].limit)
  {
    hide First, Loosens;
  }

  /** The label test and the plan agree on a store. */
  ghost predicate Agree(rows: seq<Indexed>, cells: seq<Cell>, rounds: nat, timeout: int) {
    Enough(rows, cells, rounds, timeout) <==> NothingMissing(Plan(rows, cells, rounds, timeout, false))
  }

  // ---- When the label test and the plan agree on every store ---------------------------------------

  /** Without exclusions: the first cell of each key has its most generous bound. */
  ghost predicate FirstIsLargest(cells: seq<Cell>) {
    forall i, j :: 0 <= i < j < |cells| && Leads(cells, i) && cells[i].key == cells[j].key ==> Loosens(cells[j].limit, cells[i].limit)
  }

  ghost predicate Leads(cells: seq<Cell>, i: nat)
    requires i < |cells|
  {
    forall h :: 0 <= h < i ==> cells[h].key != cells[i].key
  }

  predicate Unexcluded(cells: seq<Cell>) {
    forall i :: 0 <= i < |cells| ==> cells[i].exclusion.None?
  }

  /** Rows a report of the present format can hold. */
  predicate AllCurrent(rows: seq<Indexed>) {
    forall i :: 0 <= i < |rows| ==> Current(rows[i].record)
  }

  /** One failed row for every cell of another key. */
  function FailedRows(cells: seq<Cell>, k: Key): seq<Indexed> {
    if cells == [] then []
    else
      var n := |cells| - 1;
      var before := FailedRows(cells[..n], k);
      before + if cells[n].key == k then []
               else [Indexed(1 + |before|, Record(REPORT_VERSION, 0, Failed, None, cells[n].key, 0, None, None, ""))]
  }

  lemma {:induction false} FailedRowsAre(cells: seq<Cell>, k: Key)
    ensures
      var f := FailedRows(cells, k);
      && (forall i :: 0 <= i < |f| ==> f[i].row == i + 1 && f[i].record.status == Failed && f[i].record.key != k)
      && (forall i :: 0 <= i < |cells| && cells[i].key != k ==> ByKey(f, cells[i].key) != [])
  {
    if cells != [] {
      var n := |cells| - 1;
      FailedRowsAre(cells[..n], k);
      var before, f := FailedRows(cells[..n], k), FailedRows(cells, k);
      forall i | 0 <= i < |cells| && cells[i].key != k ensures ByKey(f, cells[i].key) != [] {
        KeyAppend(before, f[|before|..], cells[i].key);
        assert f == before + f[|before|..];
        if i < n { assert cells[..n][i] == cells[i]; }
      }
    }
  }

  lemma {:induction false} FailedRowsCurrent(cells: seq<Cell>, k: Key)
    ensures AllCurrent(FailedRows(cells, k))
  {
    if cells != [] { FailedRowsCurrent(cells[..|cells| - 1], k); }
  }

  lemma {:induction false} KeyMembers(rows: seq<Indexed>, k: Key)
    ensures forall x :: x in ByKey(rows, k) ==> x in rows && x.record.key == k
  {
    if rows != [] { KeyMembers(rows[..|rows| - 1], k); }
  }

  lemma {:induction false} NoneOfKey(rows: seq<Indexed>, k: Key)
    requires forall i :: 0 <= i < |rows| ==> rows[i].record.key != k
    ensures ByKey(rows, k) == []
  {
    if rows != [] { NoneOfKey(rows[..|rows| - 1], k); }
  }

  lemma {:induction false} FailuresStay(s: seq<Indexed>, timeout: int, limit: Option<int>)
    requires forall i :: 0 <= i < |s| ==> s[i].record.status == Failed
    ensures Eligible(s, timeout, limit) == s
  {
    if s != [] {
      FailuresStay(s[..|s| - 1], timeout, limit);
      assert s == s[..|s| - 1] + [s[|s| - 1]];
    }
  }

  /** A key with failures only asks for nothing. */
  lemma {:induction false} FailuresAnswer(s: seq<Indexed>, timeout: int, limit: Option<int>)
    requires s != [] && forall i :: 0 <= i < |s| ==> s[i].record.status == Failed
    ensures Missing(Select(s, 1, timeout, limit), 1) == 0
  {
    hide Sort;
    FailuresStay(s, timeout, limit);
    SortContents(s);
    var t := Sort(s);
    assert Select(s, 1, timeout, limit) == t[|t| - 1..];
    assert t[|t| - 1] in multiset(s);
  }

  /** The store that tells the two apart: a memory-limited row of one key, failures for the others. */
  function Telling(cells: seq<Cell>, k: Key, bound: int): seq<Indexed> {
    [Indexed(0, Record(REPORT_VERSION, 0, MemoryLimited, None, k, 0, Some(bound), None, ""))] + FailedRows(cells, k)
  }

  lemma {:induction false} LimitedIsCurrent(k: Key, bound: int)
    ensures Current(Record(REPORT_VERSION, 0, MemoryLimited, None, k, 0, Some(bound), None, ""))
  {
  }

  lemma {:induction false} TellingKeys(cells: seq<Cell>, k: Key, bound: int)
    ensures
      var rows := Telling(cells, k, bound);
      && Numbered(rows) && AllCurrent(rows) && ByKey(rows, k) == [rows[0]]
      && forall i :: 0 <= i < |cells| && cells[i].key != k ==>
           ByKey(rows, cells[i].key) != []
           && forall j :: 0 <= j < |ByKey(rows, cells[i].key)| ==> ByKey(rows, cells[i].key)[j].record.status == Failed
  {
    hide FailedRows, Current;
    var rows, f := Telling(cells, k, bound), FailedRows(cells, k);
    FailedRowsCurrent(cells, k);
    LimitedIsCurrent(k, bound);
    FailedRowsAre(cells, k);
    NoneOfKey(f, k);
    KeyAppend([rows[0]], f, k);
    OneOfKey(rows[0], k);
    forall i | 0 <= i < |cells| && cells[i].key != k
      ensures ByKey(rows, cells[i].key) == ByKey(f, cells[i].key)
      ensures forall j :: 0 <= j < |ByKey(f, cells[i].key)| ==> ByKey(f, cells[i].key)[j].record.status == Failed
    {
      var key := cells[i].key;
      KeyAppend([rows[0]], f, key);
      OneOfKey(rows[0], key);
      assert [] + ByKey(f, key) == ByKey(f, key);
      KeyMembers(f, key);
      forall j | 0 <= j < |ByKey(f, key)| ensures ByKey(f, key)[j].record.status == Failed { assert ByKey(f, key)[j] in f; }
    }
  }

  lemma {:induction false} OneOfKey(x: Indexed, k: Key)
    ensures ByKey([x], k) == if x.record.key == k then [x] else []
  {
    assert [x][..0] == [] && [] + [x] == [x];
  }

  /** One memory-limited row answers its own bound and no larger one. */
  lemma {:induction false} LimitedRow(x: Indexed, timeout: int, limit: Option<int>)
    requires x.record.status == MemoryLimited && x.record.memoryLimit.Some?
    ensures Missing(Select([x], 1, timeout, limit), 1) == if Loosens(limit, x.record.memoryLimit) then 0 else 1
  {
    hide Eligible, Sort;
    EligibleOne(x, timeout, limit);
    SortFew(x);
    var e := Eligible([x], timeout, limit);
    assert Retried(x.record, timeout, limit) <==> !Loosens(limit, x.record.memoryLimit);
    assert Select([x], 1, timeout, limit) == e;
    assert e != [] ==> e[0].record.status == MemoryLimited;
  }

  lemma {:induction false} EligibleOne(x: Indexed, timeout: int, limit: Option<int>)
    ensures Eligible([x], timeout, limit) == if Retried(x.record, timeout, limit) then [] else [x]
  {
    hide Retried;
    assert [x][..0] == [] && [] + [x] == [x];
    assert Eligible([], timeout, limit) == [];
  }

  lemma {:induction false} SortFew(x: Indexed)
    ensures Sort([]) == [] && Sort([x]) == [x]
  {
    assert [x][..0] == [];
  }

  lemma {:induction false} TellingCell(cells: seq<Cell>, i: nat, k: Key, bound: int, timeout: int)
    requires i < |cells|
    ensures CellMissing(Telling(cells, k, bound), cells[i], 1, timeout) ==
            if cells[i].key != k || Loosens(cells[i].limit, Some(bound)) then 0 else 1
  {
    hide Telling, Select, Loosens, ByKey, Missing;
    var rows := Telling(cells, k, bound);
    TellingKeys(cells, k, bound);
    if cells[i].key == k {
      TellingFirst(cells, k, bound);
      LimitedRow(rows[0], timeout, cells[i].limit);
    } else {
      FailuresAnswer(ByKey(rows, cells[i].key), timeout, cells[i].limit);
    }
  }

  lemma {:induction false} TellingFirst(cells: seq<Cell>, k: Key, bound: int)
    ensures
      var rows := Telling(cells, k, bound);
      rows != [] && rows[0].record.status == MemoryLimited && rows[0].record.memoryLimit == Some(bound)
  {
  }

  /** When a later bound is larger than the first, some store satisfies the plan and not the label test. */
  lemma {:induction false} RisingBoundDisagrees(cells: seq<Cell>, i: nat, j: nat, timeout: int)
    requires Unexcluded(cells) && i < j < |cells| && Leads(cells, i) && cells[i].key == cells[j].key
    requires !Loosens(cells[j].limit, cells[i].limit)
    ensures exists rows :: Numbered(rows) && AllCurrent(rows) && !Agree(rows, cells, 1, timeout)
  {
    hide Telling, CellMissing, Plan, Planned, Sourced;
    var k, bound := cells[i].key, cells[i].limit.value;
    var rows := Telling(cells, k, bound);
    TellingKeys(cells, k, bound);
    TellingCell(cells, j, k, bound, timeout);
    var runs := Plan(rows, cells, 1, timeout, false);
    forall r | 0 <= r < |runs| ensures runs[r].missing == 0 {
      RunIsSourced(rows, cells, 1, timeout, r);
      var h := SourceOf(rows, cells, runs[r], 1, timeout);
      TellingCell(cells, h, k, bound, timeout);
      if cells[h].key == k { OnlyFirst(rows, cells, h, i, timeout); }
    }
    assert !Agree(rows, cells, 1, timeout);
  }

  lemma {:induction false} OnlyFirst(rows: seq<Indexed>, cells: seq<Cell>, h: nat, i: nat, timeout: int)
    requires Unexcluded(cells) && h < |cells| && i < |cells| && Leads(cells, i) && cells[h].key == cells[i].key
    requires First(rows, cells, h, 1, timeout)
    ensures h == i
  {
  }

  lemma {:induction false} LargestIsGenerous(rows: seq<Indexed>, cells: seq<Cell>, rounds: nat, timeout: int)
    requires Unexcluded(cells) && FirstIsLargest(cells)
    ensures PlannedGenerously(rows, cells, rounds, timeout)
  {
    forall j, k | 0 <= j < |cells| && 0 <= k < |cells| && cells[j].key == cells[k].key && First(rows, cells, k, rounds, timeout)
      ensures Loosens(cells[j].limit, cells[k].limit)
    {
      assert Leads(cells, k);
    }
  }

  /**
   Without exclusions the label test and the plan agree on every store if and only if no key is requested under a
   larger bound than the first one it is requested under.
   */
  lemma {:induction false} AgreeOnEveryStore(cells: seq<Cell>, timeout: int)
    requires Unexcluded(cells)
    ensures FirstIsLargest(cells) <==> forall rows, rounds: nat :: Numbered(rows) && AllCurrent(rows) && rounds >= 1 ==> Agree(rows, cells, rounds, timeout)
  {
    hide Agree, Loosens, Leads;
    if FirstIsLargest(cells) {
      forall rows, rounds: nat | Numbered(rows) && AllCurrent(rows) && rounds >= 1 ensures Agree(rows, cells, rounds, timeout) {
        LargestIsGenerous(rows, cells, rounds, timeout);
        EnoughIsPlanned(rows, cells, rounds, timeout);
      }
    } else {
      var i, j :| 0 <= i < j < |cells| && Leads(cells, i) && cells[i].key == cells[j].key && !Loosens(cells[j].limit, cells[i].limit);
      RisingBoundDisagrees(cells, i, j, timeout);
    }
  }

  // ---- One child process -----------------------------------------------------------------

  /** How a workload ended: at the timeout, with a failed group cleanup, or with an exit code (negative: a signal). */
  datatype Exit = Exit(expired: bool, cleanupFailed: bool, code: int, startedAt: int, summary: Option<int>, payload: string)

  const ALLOCATION_EXIT := 86
  const SETUP_EXIT := 87
  const SIGKILL := 9

  function Outcome(e: Exit, limit: Option<int>): Status {
    if e.expired then (if e.cleanupFailed then Failed else TimedOut)
    else if e.cleanupFailed then Failed
    else if e.code == 0 then Succeeded
    else if limit.Some? && e.code == ALLOCATION_EXIT then MemoryLimited
    else Failed
  }

  predicate StopsCollection(e: Exit, limit: Option<int>) {
    || e.cleanupFailed
    || (!e.expired && e.code != 0 && (e.code == -SIGKILL || (limit.Some? && e.code == SETUP_EXIT)))
  }

  /** Treatments whose engines take no memory limit. */
  const UNCONTROLLED := {"egg-de", "egg-ee", "egg-nee", "egg-oee"}

  /** The limit a child actually runs under. */
  function Applied(run: Run): Option<int> {
    if run.key.treatment in UNCONTROLLED then None else run.limit
  }

  function Observation(run: Run, e: Exit, timeout: int): Record {
    Record(REPORT_VERSION, e.startedAt, Outcome(e, Applied(run)), run.alias, run.key, timeout, Applied(run),
           if Outcome(e, Applied(run)) == Succeeded && run.key.treatment !in UNTIMED then e.summary else None, e.payload)
  }

  /** The child ran under a memory limit. */
  predicate Limited(run: Run) {
    run.limit.Some? && run.key.treatment !in {"egg-de", "egg-ee", "egg-nee", "egg-oee"}
  }

  /** The engine of the treatment writes a timing summary. */
  predicate Timed(run: Run) {
    run.key.treatment !in {"egg-de", "egg-ee", "egg-nee", "egg-oee"}
    && run.key.treatment !in {"slotted-ref-multi", "slotted-ref-nested", "slotted-ref-nested-snapshot"}
  }

  predicate Clean(x: Exit) { !x.expired && !x.cleanupFailed }

  /** What a record says of the exit it was made from. */
  ghost predicate Witnesses(r: Record, run: Run, timeout: int, x: Exit) {
    && r.version == 8 && r.key == run.key && r.alias == run.alias
    && r.startedAt == x.startedAt && r.payload == x.payload
    && r.timeout == timeout && r.memoryLimit == (if Limited(run) then run.limit else None)
    && (r.status == Succeeded <==> Clean(x) && x.code == 0)
    && (r.status == TimedOut <==> x.expired && !x.cleanupFailed)
    && (r.status == MemoryLimited <==> Clean(x) && x.code == 86 && Limited(run))
    && r.summary == if r.status == Succeeded && Timed(run) then x.summary else None
  }

  /** An exit after which nothing more may be launched: a failed cleanup, an unexplained kill, a failed limit setup. */
  predicate Halts(x: Exit, run: Run) {
    x.cleanupFailed || (!x.expired && (x.code == -9 || (x.code == 87 && Limited(run))))
  }

  /** A success whose timing summary is missing or of another format cannot be recorded. */
  predicate Unrecordable(x: Exit, run: Run) {
    Clean(x) && x.code == 0 && Timed(run) && x.summary != Some(4)
  }

  /** Every observation is a faithful record of its child's exit; stopping and refusal follow the exit alone. */
  lemma {:induction false} ObservationIsFaithful(run: Run, x: Exit, timeout: int)
    ensures Witnesses(Observation(run, x, timeout), run, timeout, x)
    ensures StopsCollection(x, Applied(run)) <==> Halts(x, run)
    ensures Current(Observation(run, x, timeout)) <==> !Unrecordable(x, run)
  {
  }

  /** A workload's outcome is never retried under the guards it ran with. */
  lemma {:induction false} FreshIsEligible(run: Run, e: Exit, timeout: int)
    ensures !Retried(Observation(run, e, timeout), timeout, run.limit)
  {
  }

  // ---- What was collected -----------------------------------------------------------------

  /** One observation: which run, in which round, with which outcome. */
  datatype Entry = Entry(run: nat, round: nat, record: Record)

  /** The outcomes of run `j`, oldest first. */
  function Outcomes(log: seq<Entry>, j: nat): seq<Record> {
    if log == [] then []
    else
      var e := log[|log| - 1];
      Outcomes(log[..|log| - 1], j) + if e.run == j then [e.record] else []
  }

  lemma {:induction false} OutcomesSnoc(log: seq<Entry>, e: Entry, j: nat)
    ensures Outcomes(log + [e], j) == Outcomes(log, j) + if e.run == j then [e.record] else []
  {
    assert (log + [e])[..|log|] == log;
  }

  /** Successes, with at most the last one a failure. */
  predicate StopsAtFailure(rs: seq<Record>) {
    forall i :: 0 <= i < |rs| - 1 ==> rs[i].status == Succeeded
  }

  predicate Stopped(rs: seq<Record>) {
    rs != [] && rs[|rs| - 1].status != Succeeded
  }

  /** A run is finished: it made all its observations, or stopped at its first failure. */
  predicate Finished(rs: seq<Record>, missing: nat) {
    StopsAtFailure(rs) && |rs| <= missing && (|rs| == missing || Stopped(rs))
  }

  /** What is still to do for a run. */
  function Remaining(rs: seq<Record>, missing: nat): nat {
    if Stopped(rs) || |rs| >= missing then 0 else missing - |rs|
  }

  function Sum(ns: seq<nat>): nat {
    if ns == [] then 0 else Sum(ns[..|ns| - 1]) + ns[|ns| - 1]
  }

  lemma {:induction false} SumUpdate(ns: seq<nat>, i: nat, v: nat)
    requires i < |ns|
    ensures Sum(ns[i := v]) == Sum(ns) - ns[i] + v
  {
    var n := |ns| - 1;
    if i == n {
      assert ns[i := v][..n] == ns[..n];
    } else {
      SumUpdate(ns[..n], i, v);
      assert ns[i := v][..n] == ns[..n][i := v];
    }
  }

  function RemainingAll(log: seq<Entry>, runs: seq<Run>): seq<nat> {
    seq(|runs|, j requires 0 <= j < |runs| => Remaining(Outcomes(log, j), runs[j].missing))
  }

  /** Before an observation of round r, every other run made its earlier rounds or has stopped. */
  ghost predicate Fair(log: seq<Entry>, runs: seq<Run>) {
    forall p :: 0 <= p < |log| ==> FairAt(log[..p], log[p].round, runs)
  }

  ghost predicate FairAt(log: seq<Entry>, round: nat, runs: seq<Run>) {
    forall j :: 0 <= j < |runs| ==>
      |Outcomes(log, j)| >= round || |Outcomes(log, j)| >= runs[j].missing || Stopped(Outcomes(log, j))
  }

  /** Run `j` after it was visited `visits` times. */
  predicate Visited(rs: seq<Record>, missing: nat, visits: nat) {
    StopsAtFailure(rs) && |rs| <= visits && |rs| <= missing
    && (Stopped(rs) || |rs| == if visits < missing then visits else missing)
  }

  function Visits(j: nat, round: nat, idx: nat): nat {
    if j < idx then round + 1 else round
  }

  ghost predicate Reached(log: seq<Entry>, runs: seq<Run>, round: nat, idx: nat) {
    forall j :: 0 <= j < |runs| ==> Visited(Outcomes(log, j), runs[j].missing, Visits(j, round, idx))
  }

  /** The rows of a log, numbered from `start`. */
  function LogRows(log: seq<Entry>, start: nat): seq<Indexed> {
    seq(|log|, i requires 0 <= i < |log| => Indexed(start + i, log[i].record))
  }

  /** An entry is a real observation of its run. */
  predicate Genuine(e: Entry, runs: seq<Run>, timeout: int) {
    && e.run < |runs| && e.record.key == runs[e.run].key
    && !Retried(e.record, timeout, runs[e.run].limit)
  }

  ghost predicate AllGenuine(log: seq<Entry>, runs: seq<Run>, timeout: int) {
    forall i :: 0 <= i < |log| ==> Genuine(log[i], runs, timeout)
  }

  /** What the collector knows between two visits. */
  ghost predicate Books(log: seq<Entry>, runs: seq<Run>, timeout: int, round: nat, idx: nat,
                        stopped: set<Key>, total: int, completed: nat, remaining: seq<nat>) {
    && Reached(log, runs, round, idx) && Fair(log, runs) && AllGenuine(log, runs, timeout)
    && (forall j :: 0 <= j < |runs| ==> (runs[j].key in stopped <==> Stopped(Outcomes(log, j))))
    && remaining == RemainingAll(log, runs)
    && total == completed + Sum(remaining) && completed == |log|
  }

  lemma {:induction false} BooksStart(runs: seq<Run>, timeout: int)
    ensures
      var remaining := seq(|runs|, j requires 0 <= j < |runs| => runs[j].missing);
      Books([], runs, timeout, 0, 0, {}, Sum(remaining), 0, remaining)
  {
    assert seq(|runs|, j requires 0 <= j < |runs| => runs[j].missing) == RemainingAll([], runs);
  }

  /** A run that is finished or stopped is passed over. */
  lemma {:induction false} BooksSkip(log: seq<Entry>, runs: seq<Run>, timeout: int, round: nat, idx: nat,
                                     stopped: set<Key>, total: int, completed: nat, remaining: seq<nat>)
    requires Books(log, runs, timeout, round, idx, stopped, total, completed, remaining) && idx < |runs|
    requires round >= runs[idx].missing || runs[idx].key in stopped
    ensures Books(log, runs, timeout, round, idx + 1, stopped, total, completed, remaining)
  {
    hide Outcomes, Fair, AllGenuine, RemainingAll, Sum;
    assert Visited(Outcomes(log, idx), runs[idx].missing, round);
    assert Stopped(Outcomes(log, idx)) || |Outcomes(log, idx)| == runs[idx].missing;
    forall j | 0 <= j < |runs| ensures Visited(Outcomes(log, j), runs[j].missing, Visits(j, round, idx + 1)) {
      assert Visited(Outcomes(log, j), runs[j].missing, Visits(j, round, idx));
    }
  }

  lemma {:induction false} BooksRound(log: seq<Entry>, runs: seq<Run>, timeout: int, round: nat,
                                      stopped: set<Key>, total: int, completed: nat, remaining: seq<nat>)
    requires Books(log, runs, timeout, round, |runs|, stopped, total, completed, remaining)
    ensures Books(log, runs, timeout, round + 1, 0, stopped, total, completed, remaining)
  {
    hide Outcomes, Fair, AllGenuine, RemainingAll, Sum;
    forall j | 0 <= j < |runs| ensures Visited(Outcomes(log, j), runs[j].missing, Visits(j, round + 1, 0)) {
      assert Visited(Outcomes(log, j), runs[j].missing, Visits(j, round, |runs|));
    }
  }

  /** One more observation of run `idx` in its round. */
  lemma {:induction false} BooksVisit(log: seq<Entry>, runs: seq<Run>, timeout: int, round: nat, idx: nat,
                                      stopped: set<Key>, total: int, completed: nat, remaining: seq<nat>, record: Record)
    requires Books(log, runs, timeout, round, idx, stopped, total, completed, remaining) && idx < |runs| && DistinctKeys(runs)
    requires round < runs[idx].missing && runs[idx].key !in stopped
    requires |remaining| == |runs| && remaining[idx] > 0
    requires Genuine(Entry(idx, round, record), runs, timeout)
    ensures
      var ok := record.status == Succeeded;
      Books(log + [Entry(idx, round, record)], runs, timeout, round, idx + 1,
            if ok then stopped else stopped + {runs[idx].key},
            if ok then total else total - (runs[idx].missing - round - 1),
            completed + 1, remaining[idx := if ok then remaining[idx] - 1 else 0])
  {
    hide Outcomes, Fair, AllGenuine, RemainingAll, Sum, Reached, Stopped;
    var e := Entry(idx, round, record);
    var after := remaining[idx := if record.status == Succeeded then remaining[idx] - 1 else 0];
    VisitOutcomes(log, runs, round, idx, record);
    FairSnoc(log, runs, round, idx, e);
    GenuineSnoc(log, runs, timeout, e);
    VisitRemaining(log, runs, round, idx, record, remaining);
    SumUpdate(remaining, idx, after[idx]);
    forall j | 0 <= j < |runs|
      ensures (runs[j].key in (if record.status == Succeeded then stopped else stopped + {runs[idx].key}))
              <==> Stopped(Outcomes(log + [e], j))
    {
      OutcomesSnoc(log, e, j);
      if j == idx { StoppedSnoc(Outcomes(log, j), record); } else { assert Outcomes(log, j) + [] == Outcomes(log, j); }
    }
    RemainingHere(log, runs, round, idx, remaining);
  }

  lemma {:induction false} StoppedSnoc(rs: seq<Record>, r: Record)
    ensures Stopped(rs + [r]) <==> r.status != Succeeded
  {
  }

  /** A run that is still going has made exactly the earlier rounds. */
  lemma {:induction false} Going(log: seq<Entry>, runs: seq<Run>, round: nat, idx: nat)
    requires Reached(log, runs, round, idx) && idx < |runs| && round < runs[idx].missing && !Stopped(Outcomes(log, idx))
    ensures |Outcomes(log, idx)| == round && forall i :: 0 <= i < round ==> Outcomes(log, idx)[i].status == Succeeded
  {
    hide Outcomes;
    assert Visited(Outcomes(log, idx), runs[idx].missing, Visits(idx, round, idx));
  }

  lemma {:induction false} VisitOutcomes(log: seq<Entry>, runs: seq<Run>, round: nat, idx: nat, record: Record)
    requires Reached(log, runs, round, idx) && idx < |runs| && round < runs[idx].missing && !Stopped(Outcomes(log, idx))
    ensures Reached(log + [Entry(idx, round, record)], runs, round, idx + 1)
  {
    hide Outcomes;
    var e := Entry(idx, round, record);
    Going(log, runs, round, idx);
    forall j | 0 <= j < |runs| ensures Visited(Outcomes(log + [e], j), runs[j].missing, Visits(j, round, idx + 1)) {
      OutcomesSnoc(log, e, j);
      assert Visited(Outcomes(log, j), runs[j].missing, Visits(j, round, idx));
      if j != idx { assert Outcomes(log, j) + [] == Outcomes(log, j); }
    }
  }

  lemma {:induction false} FairSnoc(log: seq<Entry>, runs: seq<Run>, round: nat, idx: nat, e: Entry)
    requires Fair(log, runs) && Reached(log, runs, round, idx) && e.round == round
    ensures Fair(log + [e], runs)
  {
    hide Outcomes;
    assert FairAt(log, round, runs) by {
      forall j | 0 <= j < |runs|
        ensures |Outcomes(log, j)| >= round || |Outcomes(log, j)| >= runs[j].missing || Stopped(Outcomes(log, j))
      {
        assert Visited(Outcomes(log, j), runs[j].missing, Visits(j, round, idx));
      }
    }
    forall p | 0 <= p < |log + [e]| ensures FairAt((log + [e])[..p], (log + [e])[p].round, runs) {
      if p < |log| {
        assert (log + [e])[..p] == log[..p];
      } else {
        assert (log + [e])[..p] == log;
      }
    }
  }

  lemma {:induction false} GenuineSnoc(log: seq<Entry>, runs: seq<Run>, timeout: int, e: Entry)
    requires AllGenuine(log, runs, timeout) && Genuine(e, runs, timeout)
    ensures AllGenuine(log + [e], runs, timeout)
  {
  }

  lemma {:induction false} RemainingHere(log: seq<Entry>, runs: seq<Run>, round: nat, idx: nat, remaining: seq<nat>)
    requires Reached(log, runs, round, idx) && idx < |runs| && round < runs[idx].missing && !Stopped(Outcomes(log, idx))
    requires remaining == RemainingAll(log, runs)
    ensures remaining[idx] == runs[idx].missing - round
  {
    hide Outcomes;
    Going(log, runs, round, idx);
  }

  lemma {:induction false} VisitRemaining(log: seq<Entry>, runs: seq<Run>, round: nat, idx: nat, record: Record, remaining: seq<nat>)
    requires Reached(log, runs, round, idx) && idx < |runs| && round < runs[idx].missing && !Stopped(Outcomes(log, idx))
    requires remaining == RemainingAll(log, runs) && remaining[idx] > 0
    ensures remaining[idx := if record.status == Succeeded then remaining[idx] - 1 else 0]
            == RemainingAll(log + [Entry(idx, round, record)], runs)
  {
    hide Outcomes;
    var e := Entry(idx, round, record);
    Going(log, runs, round, idx);
    forall j | 0 <= j < |runs|
      ensures RemainingAll(log + [e], runs)[j] == remaining[idx := if record.status == Succeeded then remaining[idx] - 1 else 0][j]
    {
      OutcomesSnoc(log, e, j);
      if j == idx { StoppedSnoc(Outcomes(log, j), record); } else { assert Outcomes(log, j) + [] == Outcomes(log, j); }
    }
  }

  // ---- The collector -------------------------------------------------------------------------

  lemma {:induction false} SumBounds(ns: seq<nat>, i: nat)
    requires i < |ns|
    ensures ns[i] <= Sum(ns)
  {
    if i < |ns| - 1 { SumBounds(ns[..|ns| - 1], i); }
  }

  lemma {:induction false} SumZero(ns: seq<nat>)
    requires forall i :: 0 <= i < |ns| ==> ns[i] == 0
    ensures Sum(ns) == 0
  {
    if ns != [] { SumZero(ns[..|ns| - 1]); }
  }

  ghost predicate AllFinished(log: seq<Entry>, runs: seq<Run>) {
    forall j :: 0 <= j < |runs| ==> Finished(Outcomes(log, j), runs[j].missing)
  }

  /** After as many rounds as any run needs, every run is finished and the accounts are closed. */
  lemma {:induction false} BooksEnd(log: seq<Entry>, runs: seq<Run>, timeout: int, rounds: nat,
                                    stopped: set<Key>, total: int, completed: nat, remaining: seq<nat>)
    requires Books(log, runs, timeout, rounds, 0, stopped, total, completed, remaining)
    requires forall j :: 0 <= j < |runs| ==> runs[j].missing <= rounds
    ensures AllFinished(log, runs) && completed == total
  {
    hide Outcomes, Fair, AllGenuine, Sum;
    forall j | 0 <= j < |runs| ensures Finished(Outcomes(log, j), runs[j].missing) && remaining[j] == 0 {
      assert Visited(Outcomes(log, j), runs[j].missing, Visits(j, rounds, 0));
    }
    SumZero(remaining);
  }

  /** Nothing was appended but the logged observations, in order. */
  ghost predicate Appended(before: seq<Indexed>, after: seq<Indexed>, log: seq<Entry>) {
    after == before + LogRows(log, |before|)
  }

  lemma {:induction false} AppendedSnoc(before: seq<Indexed>, after: seq<Indexed>, log: seq<Entry>, e: Entry)
    requires Appended(before, after, log)
    ensures Appended(before, after + [Indexed(|after|, e.record)], log + [e])
  {
    assert LogRows(log + [e], |before|) == LogRows(log, |before|) + [Indexed(|before| + |log|, e.record)];
  }

  /** The deepest deficit, and the number of observations wanted. */
  method Deficits(runs: seq<Run>) returns (deepest: nat, remaining: seq<nat>)
    ensures remaining == seq(|runs|, j requires 0 <= j < |runs| => runs[j].missing)
    ensures forall j :: 0 <= j < |runs| ==> runs[j].missing <= deepest
  {
    deepest, remaining := 0, [];
    for i := 0 to |runs|
      invariant remaining == seq(i, j requires 0 <= j < i => runs[j].missing)
      invariant forall j :: 0 <= j < i ==> runs[j].missing <= deepest
    {
      remaining := remaining + [runs[i].missing];
      if runs[i].missing > deepest {
        deepest := runs[i].missing;
      }
    }
  }

  /**
   Run and append every missing observation, one per run and round.  Every observation appended is one of
   the plan's; when the collector returns normally each run made exactly its missing observations or
   stopped at its first failure, and as many observations were completed as the total announces.
   */
  method CollectRows(store: ReportStore, runs: seq<Run>, timeout: int, child: nat -> Exit, built: Run -> bool)
    returns (ok: bool, completed: nat, total: int, ghost log: seq<Entry>)
    requires store.Valid() && DistinctKeys(runs)
    modifies store
    ensures store.Valid() && Appended(old(store.rows), store.rows, log)
    ensures Fair(log, runs) && AllGenuine(log, runs, timeout) && completed <= |log|
    ensures ok ==> AllFinished(log, runs) && completed == total == |log|
    ensures Kept(log, completed, runs, timeout, child)
    ensures !ok ==> Broken(log, completed, runs, child, built)
  {
    hide Books, Fair, AllGenuine, AllFinished, Appended, Sum, Observation, StopsCollection, Current, Kept, Broken;
    var deepest, remaining := Deficits(runs);
    total := Sum(remaining);
    completed := 0;
    log := [];
    ghost var before := store.rows;
    BooksStart(runs, timeout);
    StartAppended(before);
    KeptStart(runs, timeout, child);
    NoDeficit(runs, timeout, total, remaining, deepest);
    BooksParts([], runs, timeout, 0, 0, {}, total, completed, remaining);
    if total == 0 {
      return true, 0, 0, [];
    }
    var stopped: set<Key> := {};
    for round := 0 to deepest
      invariant store.Valid() && Appended(before, store.rows, log) && completed == |log|
      invariant Kept(log, completed, runs, timeout, child)
      invariant Books(log, runs, timeout, round, 0, stopped, total, completed, remaining)
    {
      for idx := 0 to |runs|
        invariant store.Valid() && Appended(before, store.rows, log) && completed == |log|
        invariant Kept(log, completed, runs, timeout, child)
        invariant Books(log, runs, timeout, round, idx, stopped, total, completed, remaining)
      {
        var run := runs[idx];
        BooksParts(log, runs, timeout, round, idx, stopped, total, completed, remaining);
        if round >= run.missing || run.key in stopped {
          BooksSkip(log, runs, timeout, round, idx, stopped, total, completed, remaining);
          continue;
        }
        if !built(run) {
          BrokenUnbuilt(log, runs, idx, child, built);
          return false, completed, total, log;
        }
        var exit := child(completed);
        var record := Observation(run, exit, timeout);
        FreshIsEligible(run, exit, timeout);
        ObservationIsFaithful(run, exit, timeout);
        BooksHere(log, runs, timeout, round, idx, stopped, total, completed, remaining);
        BooksVisit(log, runs, timeout, round, idx, stopped, total, completed, remaining, record);
        AppendedSnoc(before, store.rows, log, Entry(idx, round, record));
        var appended := store.Append(record);
        if !appended {
          BrokenRecord(log, runs, idx, child, built);
          return false, completed, total, log;
        }
        KeptSnoc(log, runs, timeout, child, Entry(idx, round, record));
        log := log + [Entry(idx, round, record)];
        if StopsCollection(exit, Applied(run)) {
          BooksParts(log, runs, timeout, round, idx + 1,
                     stopped + {run.key}, total - (run.missing - round - 1), completed + 1, remaining[idx := 0]);
          BrokenHalt(log, runs, child, built);
          return false, completed, total, log;
        }
        completed := completed + 1;
        if record.status != Succeeded {
          stopped := stopped + {run.key};
          total := total - (run.missing - round - 1);
        }
        remaining := remaining[idx := if record.status == Succeeded then remaining[idx] - 1 else 0];
      }
      BooksRound(log, runs, timeout, round, stopped, total, completed, remaining);
    }
    BooksParts(log, runs, timeout, deepest, 0, stopped, total, completed, remaining);
    BooksEnd(log, runs, timeout, deepest, stopped, total, completed, remaining);
    ok := true;
  }

  /** Every entry was made from the exit of the child started for it, and the completed ones halted nothing. */
  ghost predicate Kept(log: seq<Entry>, completed: nat, runs: seq<Run>, timeout: int, child: nat -> Exit) {
    && completed <= |log|
    && (forall k :: 0 <= k < |log| ==> log[k].run < |runs| && Witnesses(log[k].record, runs[log[k].run], timeout, child(k)))
    && (forall k :: 0 <= k < completed ==> log[k].run < |runs| && !Halts(child(k), runs[log[k].run]))
  }

  /** Why a collection did not return: its last child halted it, or a run has no binary or no usable summary. */
  ghost predicate Broken(log: seq<Entry>, completed: nat, runs: seq<Run>, child: nat -> Exit, built: Run -> bool) {
    || (completed + 1 == |log| && log[completed].run < |runs| && Halts(child(completed), runs[log[completed].run]))
    || (completed == |log| && exists j :: 0 <= j < |runs| && (!built(runs[j]) || Unrecordable(child(completed), runs[j])))
  }

  lemma {:induction false} KeptStart(runs: seq<Run>, timeout: int, child: nat -> Exit)
    ensures Kept([], 0, runs, timeout, child)
  {
  }

  lemma {:induction false} KeptSnoc(log: seq<Entry>, runs: seq<Run>, timeout: int, child: nat -> Exit, e: Entry)
    requires Kept(log, |log|, runs, timeout, child)
    requires e.run < |runs| && Witnesses(e.record, runs[e.run], timeout, child(|log|))
    ensures Kept(log + [e], |log|, runs, timeout, child)
    ensures !Halts(child(|log|), runs[e.run]) ==> Kept(log + [e], |log| + 1, runs, timeout, child)
  {
    hide Witnesses, Halts;
    assert forall k :: 0 <= k < |log| ==> (log + [e])[k] == log[k];
  }

  lemma {:induction false} BrokenUnbuilt(log: seq<Entry>, runs: seq<Run>, j: nat, child: nat -> Exit, built: Run -> bool)
    requires j < |runs| && !built(runs[j])
    ensures Broken(log, |log|, runs, child, built)
  {
  }

  lemma {:induction false} BrokenRecord(log: seq<Entry>, runs: seq<Run>, j: nat, child: nat -> Exit, built: Run -> bool)
    requires j < |runs| && Unrecordable(child(|log|), runs[j])
    ensures Broken(log, |log|, runs, child, built)
  {
  }

  lemma {:induction false} BrokenHalt(log: seq<Entry>, runs: seq<Run>, child: nat -> Exit, built: Run -> bool)
    requires log != [] && log[|log| - 1].run < |runs| && Halts(child(|log| - 1), runs[log[|log| - 1].run])
    ensures Broken(log, |log| - 1, runs, child, built)
  {
  }

  lemma {:induction false} StartAppended(before: seq<Indexed>)
    ensures Appended(before, before, [])
  {
  }

  lemma {:induction false} NoDeficit(runs: seq<Run>, timeout: int, total: nat, remaining: seq<nat>, deepest: nat)
    requires remaining == seq(|runs|, j requires 0 <= j < |runs| => runs[j].missing) && total == Sum(remaining)
    ensures total == 0 ==> AllFinished([], runs)
  {
    if total == 0 {
      forall j | 0 <= j < |runs| ensures Finished(Outcomes([], j), runs[j].missing) {
        SumBounds(remaining, j);
        assert remaining[j] == runs[j].missing;
      }
    }
  }

  lemma {:induction false} BooksParts(log: seq<Entry>, runs: seq<Run>, timeout: int, round: nat, idx: nat,
                                      stopped: set<Key>, total: int, completed: nat, remaining: seq<nat>)
    requires Books(log, runs, timeout, round, idx, stopped, total, completed, remaining)
    ensures Fair(log, runs) && AllGenuine(log, runs, timeout) && |remaining| == |runs| && completed == |log|
  {
  }

  lemma {:induction false} BooksHere(log: seq<Entry>, runs: seq<Run>, timeout: int, round: nat, idx: nat,
                                     stopped: set<Key>, total: int, completed: nat, remaining: seq<nat>)
    requires Books(log, runs, timeout, round, idx, stopped, total, completed, remaining) && idx < |runs|
    requires round < runs[idx].missing && runs[idx].key !in stopped
    ensures |remaining| == |runs| && remaining[idx] == runs[idx].missing - round
  {
    hide Outcomes, Fair, AllGenuine, Sum;
    RemainingHere(log, runs, round, idx, remaining);
  }

  // ---- Planning again ----------------------------------------------------------------------------

  lemma {:induction false} LogRowsSnoc(log: seq<Entry>, start: nat)
    requires log != []
    ensures
      var n := |log| - 1;
      LogRows(log, start) == LogRows(log[..n], start) + [Indexed(start + n, log[n].record)]
  {
  }

  /** The rows a collection adds to a key are the outcomes of that key's run, none of them worth a retry. */
  lemma {:induction false} KeyOfLog(log: seq<Entry>, runs: seq<Run>, timeout: int, start: nat, j: nat)
    requires AllGenuine(log, runs, timeout) && DistinctKeys(runs) && j < |runs|
    ensures
      var added := ByKey(LogRows(log, start), runs[j].key);
      && |added| == |Outcomes(log, j)|
      && (forall i :: 0 <= i < |added| ==> added[i].record == Outcomes(log, j)[i])
      && Eligible(added, timeout, runs[j].limit) == added
  {
    hide Retried, AllGenuine;
    if log != [] {
      var n := |log| - 1;
      InitGenuine(log, runs, timeout);
      KeyOfLog(log[..n], runs, timeout, start, j);
      LogRowsSnoc(log, start);
      var x := Indexed(start + n, log[n].record);
      KeySnoc(LogRows(log[..n], start), x, runs[j].key);
      EligibleAppend(ByKey(LogRows(log[..n], start), runs[j].key), [x], timeout, runs[j].limit);
      assert log[n].run == j <==> log[n].record.key == runs[j].key;
      if log[n].run == j {
        OneEligible(x, timeout, runs[j].limit);
      } else {
        assert ByKey(LogRows(log, start), runs[j].key) == ByKey(LogRows(log[..n], start), runs[j].key);
      }
    }
  }

  lemma {:induction false} OneEligible(x: Indexed, timeout: int, limit: Option<int>)
    requires !Retried(x.record, timeout, limit)
    ensures Eligible([x], timeout, limit) == [x]
  {
    assert [x][..0] == [];
  }

  lemma {:induction false} InitGenuine(log: seq<Entry>, runs: seq<Run>, timeout: int)
    requires AllGenuine(log, runs, timeout) && log != []
    ensures AllGenuine(log[..|log| - 1], runs, timeout) && Genuine(log[|log| - 1], runs, timeout)
  {
  }

  /** A plan's deficit is real: the eligible rows are all successes and too few. */
  lemma {:induction false} DeficitMeans(rows: seq<Indexed>, rounds: nat, timeout: int, limit: Option<int>)
    requires Missing(Select(rows, rounds, timeout, limit), rounds) > 0
    ensures
      var e := Eligible(rows, timeout, limit);
      |e| < rounds && Missing(Select(rows, rounds, timeout, limit), rounds) == rounds - |e|
  {
    SortContents(Eligible(rows, timeout, limit));
  }

  /** No more eligible rows than rounds: all are selected. */
  lemma {:induction false} AllSelected(rows: seq<Indexed>, rounds: nat, timeout: int, limit: Option<int>)
    requires |Eligible(rows, timeout, limit)| <= rounds
    ensures
      var e := Eligible(rows, timeout, limit);
      var s := Select(rows, rounds, timeout, limit);
      |s| == |e| && multiset(s) == multiset(e)
  {
    SortContents(Eligible(rows, timeout, limit));
  }

  /** The deficit is exact: each success makes it one smaller, so no fewer successes would do. */
  lemma {:induction false} DeficitIsExact(rows: seq<Indexed>, added: seq<Indexed>, rounds: nat, timeout: int, limit: Option<int>)
    requires AllSucceeded(added) && |added| <= Missing(Select(rows, rounds, timeout, limit), rounds)
    ensures Missing(Select(rows + added, rounds, timeout, limit), rounds) == Missing(Select(rows, rounds, timeout, limit), rounds) - |added|
  {
    hide Select, Eligible;
    if Missing(Select(rows, rounds, timeout, limit), rounds) == 0 {
      assert rows + added == rows;
    } else {
      DeficitMeans(rows, rounds, timeout, limit);
      AllSelected(rows, rounds, timeout, limit);
      SuccessesStay(added, timeout, limit);
      EligibleAppend(rows, added, timeout, limit);
      AllSelected(rows + added, rounds, timeout, limit);
      var e, s, t := Eligible(rows, timeout, limit), Select(rows, rounds, timeout, limit), Select(rows + added, rounds, timeout, limit);
      forall i | 0 <= i < |t| ensures t[i].record.status == Succeeded {
        assert t[i] in multiset(t) && t[i] in multiset(e + added);
        if t[i] in multiset(e) { assert t[i] in multiset(s); assert t[i] in s; } else { assert t[i] in multiset(added); assert t[i] in added; }
      }
    }
  }

  lemma {:induction false} SuccessesStay(s: seq<Indexed>, timeout: int, limit: Option<int>)
    requires AllSucceeded(s)
    ensures Eligible(s, timeout, limit) == s
  {
    if s != [] {
      SuccessesStay(s[..|s| - 1], timeout, limit);
      assert s == s[..|s| - 1] + [s[|s| - 1]];
    }
  }

  /** A recorded failure among the chosen rows is an answer, and so is a full set of successes; nothing else is. */
  lemma {:induction false} NothingMissingMeans(selected: seq<Indexed>, rounds: nat)
    ensures Missing(selected, rounds) == 0 <==> |selected| >= rounds || exists i :: 0 <= i < |selected| && selected[i].record.status != Succeeded
  {
  }

  /** One run: whatever mix of outcomes it had, its key needs nothing more under the same guards. */
  lemma {:induction false} RunSettles(old_: seq<Indexed>, added: seq<Indexed>, rs: seq<Record>, missing: nat,
                                      rounds: nat, timeout: int, limit: Option<int>)
    requires missing == Missing(Select(old_, rounds, timeout, limit), rounds) && Finished(rs, missing)
    requires |added| == |rs| && (forall i :: 0 <= i < |added| ==> added[i].record == rs[i])
    requires Eligible(added, timeout, limit) == added
    ensures Missing(Select(old_ + added, rounds, timeout, limit), rounds) == 0
  {
    hide Select, Eligible;
    if missing == 0 {
      assert added == [] && old_ + added == old_;
    } else {
      DeficitMeans(old_, rounds, timeout, limit);
      EligibleAppend(old_, added, timeout, limit);
      var e := Eligible(old_ + added, timeout, limit);
      AllSelected(old_ + added, rounds, timeout, limit);
      var s := Select(old_ + added, rounds, timeout, limit);
      if Stopped(rs) {
        var x := added[|added| - 1];
        assert e[|e| - 1] == x && x in multiset(e) && x in multiset(s);
        var i :| 0 <= i < |s| && s[i] == x;
        assert s[i].record.status != Succeeded;
      }
    }
  }

  /** The planned run of a key leaves that key with nothing missing. */
  lemma {:induction false} KeySettles(before: seq<Indexed>, after: seq<Indexed>, log: seq<Entry>, runs: seq<Run>, j: nat,
                                      c: Cell, rounds: nat, timeout: int)
    requires Appended(before, after, log) && AllGenuine(log, runs, timeout) && AllFinished(log, runs) && DistinctKeys(runs)
    requires j < |runs| && FromCell(before, runs[j], c, rounds, timeout)
    ensures CellMissing(after, c, rounds, timeout) == 0
    ensures runs[j].missing == 0 ==> ByKey(after, c.key) == ByKey(before, c.key)
  {
    hide Select, ByKey, Eligible, Outcomes, Excluded, AllGenuine;
    KeyOfLog(log, runs, timeout, |before|, j);
    KeyAppend(before, LogRows(log, |before|), c.key);
    var added := ByKey(LogRows(log, |before|), c.key);
    assert Finished(Outcomes(log, j), runs[j].missing);
    RunSettles(ByKey(before, c.key), added, Outcomes(log, j), runs[j].missing, rounds, timeout, c.limit);
    if runs[j].missing == 0 { assert added == [] && ByKey(before, c.key) + added == ByKey(before, c.key); }
  }

  /** A cell that stops being excluded has all its samples. */
  lemma {:induction false} Undeferred(before: seq<Indexed>, after: seq<Indexed>, c: Cell, rounds: nat, timeout: int)
    requires Excluded(before, c, rounds, timeout) && !Excluded(after, c, rounds, timeout)
    ensures CellMissing(after, c, rounds, timeout) == 0
  {
  }

  lemma {:induction false} SameRowsSameVerdict(before: seq<Indexed>, after: seq<Indexed>, c: Cell, rounds: nat, timeout: int)
    requires ByKey(after, c.key) == ByKey(before, c.key)
    ensures Excluded(after, c, rounds, timeout) == Excluded(before, c, rounds, timeout)
  {
  }

  /** A cell that becomes excluded had all its samples, so its run had nothing to do. */
  lemma {:induction false} Deferred(before: seq<Indexed>, after: seq<Indexed>, c: Cell, rounds: nat, timeout: int)
    requires !Excluded(before, c, rounds, timeout) && Excluded(after, c, rounds, timeout)
    ensures CellMissing(before, c, rounds, timeout) == 0
  {
  }

  lemma {:induction false} CellSettles(before: seq<Indexed>, after: seq<Indexed>, log: seq<Entry>, cells: seq<Cell>,
                                       rounds: nat, timeout: int, j: nat)
    requires
      var runs := Plan(before, cells, rounds, timeout, false);
      Appended(before, after, log) && AllGenuine(log, runs, timeout) && AllFinished(log, runs)
    requires j < |cells| && First(after, cells, j, rounds, timeout)
    ensures CellMissing(after, cells[j], rounds, timeout) == 0
  {
    hide Plan, Excluded, CellMissing, AllGenuine, AllFinished, Appended, Sourced, Planned;
    var c := cells[j];
    if Excluded(before, c, rounds, timeout) {
      Undeferred(before, after, c, rounds, timeout);
    } else {
      PlanKeys(before, cells, rounds, timeout, false);
      PlanCells(before, cells, rounds, timeout);
      var runs := Plan(before, cells, rounds, timeout, false);
      var i, k := FindSource(before, cells, runs, c.key, rounds, timeout);
      KeySettles(before, after, log, runs, i, cells[k], rounds, timeout);
      if k != j {
        assert k < j;
        Deferred(before, after, cells[k], rounds, timeout);
        SameRowsSameVerdict(before, after, cells[k], rounds, timeout);
      }
    }
  }

  lemma {:induction false} FindSource(rows: seq<Indexed>, cells: seq<Cell>, runs: seq<Run>, key: Key, rounds: nat, timeout: int)
    returns (i: nat, k: nat)
    requires Planned(runs, key) && forall i :: 0 <= i < |runs| ==> Sourced(rows, cells, runs[i], rounds, timeout)
    ensures i < |runs| && k < |cells| && cells[k].key == key
    ensures First(rows, cells, k, rounds, timeout) && FromCell(rows, runs[i], cells[k], rounds, timeout)
  {
    hide Excluded, CellMissing;
    i :| 0 <= i < |runs| && runs[i].key == key;
    assert Sourced(rows, cells, runs[i], rounds, timeout);
    k :| 0 <= k < |cells| && First(rows, cells, k, rounds, timeout) && FromCell(rows, runs[i], cells[k], rounds, timeout);
  }

  /**
   The collector settles its plan: after a collection that returns, planning the same cells again finds
   nothing missing, whatever mix of successes, failures, timeouts and memory limits the children had.
   */
  lemma {:induction false} ReplanIsEmpty(before: seq<Indexed>, after: seq<Indexed>, log: seq<Entry>, cells: seq<Cell>,
                                         rounds: nat, timeout: int)
    requires
      var runs := Plan(before, cells, rounds, timeout, false);
      Appended(before, after, log) && AllGenuine(log, runs, timeout) && AllFinished(log, runs)
    ensures NothingMissing(Plan(after, cells, rounds, timeout, false))
  {
    hide Plan, Excluded, CellMissing, AllGenuine, AllFinished, Appended, Sourced, First;
    var again := Plan(after, cells, rounds, timeout, false);
    forall i | 0 <= i < |again| ensures again[i].missing == 0 {
      RunIsSourced(after, cells, rounds, timeout, i);
      var j := SourceOf(after, cells, again[i], rounds, timeout);
      CellSettles(before, after, log, cells, rounds, timeout, j);
    }
  }

  /** Plan, collect, and be done. */
  method CollectMissing(store: ReportStore, cells: seq<Cell>, rounds: nat, timeout: int, child: nat -> Exit, built: Run -> bool)
    returns (ok: bool)
    requires store.Valid() && rounds >= 1
    modifies store
    ensures store.Valid()
    ensures ok ==> NothingMissing(Plan(store.rows, cells, rounds, timeout, false))
    ensures exists log :: Appended(old(store.rows), store.rows, log) && Fair(log, Plan(old(store.rows), cells, rounds, timeout, false))
  {
    hide Plan, NothingMissing, Appended, Fair, AllGenuine, AllFinished;
    var plan := PlanCollection(store, cells, rounds, timeout, false);
    var completed, total;
    ghost var log;
    ok, completed, total, log := CollectRows(store, plan.value, timeout, child, built);
    if ok {
      ReplanIsEmpty(old(store.rows), store.rows, log, cells, rounds, timeout);
    }
  }
}
