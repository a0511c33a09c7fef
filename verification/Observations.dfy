/**
 Benchmark observations and the one policy that selects them from the cache:
 which recorded outcomes may be reused under the present resource guards, and
 which of those are the newest.
 */
module Observations {
  import opened Prelude

  datatype Status = Succeeded | TimedOut | MemoryLimited | Failed

  datatype Key = Key(binary: string, file: string, treatment: string, encoding: string)

  /** `payload` stands for the measured fields no cache decision looks at. */
  datatype Record = Record(version: int, startedAt: int, status: Status, alias: Option<string>, key: Key,
                           timeout: int, memoryLimit: Option<int>, summary: Option<int>, payload: string)

  datatype Indexed = Indexed(row: nat, record: Record)

  const REPORT_VERSION := 8
  const SUMMARY_VERSION := 4

  /** Treatments whose engines emit no timing summary. */
  const UNTIMED := {"egg-de", "egg-ee", "egg-nee", "egg-oee", "slotted-ref-multi", "slotted-ref-nested", "slotted-ref-nested-snapshot"}

  predicate Current(r: Record) {
    && r.version == REPORT_VERSION
    && (r.summary.Some? ==> r.summary.value == SUMMARY_VERSION)
    && (r.status == Succeeded && r.key.treatment !in UNTIMED ==> r.summary.Some?)
  }

  // ---- The retry policy ----------------------------------------------------------

  /** Whether raising the guards to these values makes a recorded outcome worth a retry. */
  predicate Retried(r: Record, timeout: int, limit: Option<int>) {
    || (r.status == TimedOut && timeout > r.timeout)
    || (r.status == MemoryLimited && (limit.None? || (r.memoryLimit.Some? && limit.value > r.memoryLimit.value)))
  }

  function Eligible(rows: seq<Indexed>, timeout: int, limit: Option<int>): seq<Indexed> {
    if rows == [] then []
    else
      var n := |rows| - 1;
      Eligible(rows[..n], timeout, limit) + if Retried(rows[n].record, timeout, limit) then [] else [rows[n]]
  }

  // ---- Order ---------------------------------------------------------------------

  /** Timestamp first, then append order. */
  predicate Before(a: Indexed, b: Indexed) {
    a.record.startedAt < b.record.startedAt || (a.record.startedAt == b.record.startedAt && a.row < b.row)
  }

  predicate Sorted(s: seq<Indexed>) {
    forall i, j :: 0 <= i < j < |s| ==> Before(s[i], s[j])
  }

  predicate DistinctRows(s: seq<Indexed>) {
    forall i, j :: 0 <= i < j < |s| ==> s[i].row != s[j].row
  }

  function Insert(x: Indexed, s: seq<Indexed>): seq<Indexed> {
    if s == [] then [x]
    else if Before(s[|s| - 1], x) then s + [x]
    else Insert(x, s[..|s| - 1]) + [s[|s| - 1]]
  }

  function Sort(s: seq<Indexed>): seq<Indexed> {
    if s == [] then [] else Insert(s[|s| - 1], Sort(s[..|s| - 1]))
  }

  function Tail(s: seq<Indexed>, k: nat): seq<Indexed> {
    if |s| <= k then s else s[|s| - k..]
  }

  /** The newest `rounds` eligible observations, in chronological order. */
  function Select(rows: seq<Indexed>, rounds: nat, timeout: int, limit: Option<int>): seq<Indexed> {
    Tail(Sort(Eligible(rows, timeout, limit)), rounds)
  }

  method SelectRecords(rows: seq<Indexed>, rounds: int, timeout: int, limit: Option<int>) returns (r: Result<seq<Indexed>>)
    ensures rounds < 1 ==> r.Failure?
    ensures rounds >= 1 ==> r == Success(Select(rows, rounds, timeout, limit))
    ensures rounds >= 1 && DistinctRows(rows) ==> IsNewest(rows, r.value, rounds, timeout, limit)
  {
    if rounds >= 1 && DistinctRows(rows) { SelectIsNewest(rows, rounds, timeout, limit); }
    if rounds < 1 {
      return Failure("rounds must be positive");
    }
    var eligible: seq<Indexed> := [];
    for i := 0 to |rows|
      invariant eligible == Eligible(rows[..i], timeout, limit)
    {
      assert rows[..i + 1][..i] == rows[..i];
      var record := rows[i].record;
      if record.status == TimedOut && timeout > record.timeout {
        continue;
      }
      if record.status == MemoryLimited
         && (limit.None? || (record.memoryLimit.Some? && limit.value > record.memoryLimit.value))
      {
        continue;
      }
      eligible := eligible + [rows[i]];
    }
    assert rows[..|rows|] == rows;
    r := Success(Tail(Sort(eligible), rounds));
  }

  // ---- Sorting facts -----------------------------------------------------------------

  lemma {:induction false} InsertContents(x: Indexed, s: seq<Indexed>)
    ensures multiset(Insert(x, s)) == multiset(s) + multiset{x}
  {
    if s != [] {
      assert s == s[..|s| - 1] + [s[|s| - 1]];
      if !Before(s[|s| - 1], x) { InsertContents(x, s[..|s| - 1]); }
    }
  }

  lemma {:induction false} SortContents(s: seq<Indexed>)
    ensures multiset(Sort(s)) == multiset(s) && |Sort(s)| == |s|
  {
    if s != [] {
      SortContents(s[..|s| - 1]);
      InsertContents(s[|s| - 1], Sort(s[..|s| - 1]));
      assert s == s[..|s| - 1] + [s[|s| - 1]];
    }
    assert |multiset(Sort(s))| == |Sort(s)| && |multiset(s)| == |s|;
  }

  lemma {:induction false} InsertSorted(x: Indexed, s: seq<Indexed>)
    requires Sorted(s) && forall i :: 0 <= i < |s| ==> s[i].row != x.row
    ensures Sorted(Insert(x, s))
  {
    if s != [] && !Before(s[|s| - 1], x) {
      var n := |s| - 1;
      InsertSorted(x, s[..n]);
      var t := Insert(x, s[..n]);
      InsertContents(x, s[..n]);
      forall i | 0 <= i < |t| ensures Before(t[i], s[n]) {
        assert t[i] in multiset(t);
        if t[i] != x { assert t[i] in multiset(s[..n]); }
      }
    }
  }

  lemma {:induction false} SortSorted(s: seq<Indexed>)
    requires DistinctRows(s)
    ensures Sorted(Sort(s))
  {
    if s != [] {
      var n := |s| - 1;
      SortSorted(s[..n]);
      SortContents(s[..n]);
      var t := Sort(s[..n]);
      forall i | 0 <= i < |t| ensures t[i].row != s[n].row {
        assert t[i] in multiset(t) && t[i] in multiset(s[..n]);
      }
      InsertSorted(s[n], t);
    }
  }

  /** The last element of a strictly sorted sequence is the latest of its contents. */
  lemma {:induction false} SortedLast(s: seq<Indexed>, x: Indexed)
    requires Sorted(s) && s != [] && x in multiset(s)
    ensures x == s[|s| - 1] || Before(x, s[|s| - 1])
  {
    var i :| 0 <= i < |s| && s[i] == x;
  }

  /** A strictly sorted sequence is determined by its contents. */
  lemma {:induction false} SortedUnique(s: seq<Indexed>, t: seq<Indexed>)
    requires Sorted(s) && Sorted(t) && multiset(s) == multiset(t)
    ensures s == t
  {
    hide Sorted;
    assert |multiset(s)| == |s| && |multiset(t)| == |t|;
    if s != [] {
      var n := |s| - 1;
      assert t[n] in multiset(t) && s[n] in multiset(s);
      SortedLast(s, t[n]);
      SortedLast(t, s[n]);
      InitContents(s);
      InitContents(t);
      SortedInit(s);
      SortedInit(t);
      SortedUnique(s[..n], t[..n]);
    }
  }

  lemma {:induction false} SortedInit(s: seq<Indexed>)
    requires Sorted(s) && s != []
    ensures Sorted(s[..|s| - 1])
  {
  }

  lemma {:induction false} InitContents(s: seq<Indexed>)
    requires s != []
    ensures multiset(s[..|s| - 1]) == multiset(s) - multiset{s[|s| - 1]} && s == s[..|s| - 1] + [s[|s| - 1]]
  {
    assert s == s[..|s| - 1] + [s[|s| - 1]];
  }

  lemma {:induction false} EligibleAppend(a: seq<Indexed>, b: seq<Indexed>, timeout: int, limit: Option<int>)
    ensures Eligible(a + b, timeout, limit) == Eligible(a, timeout, limit) + Eligible(b, timeout, limit)
  {
    if b == [] {
      assert a + b == a;
    } else {
      var n := |b| - 1;
      EligibleAppend(a, b[..n], timeout, limit);
      assert (a + b)[..|a| + n] == a + b[..n];
    }
  }

  lemma {:induction false} EligibleMember(rows: seq<Indexed>, timeout: int, limit: Option<int>, x: Indexed)
    ensures multiset(Eligible(rows, timeout, limit))[x] == if Retried(x.record, timeout, limit) then 0 else multiset(rows)[x]
  {
    if rows != [] {
      EligibleMember(rows[..|rows| - 1], timeout, limit, x);
      assert rows == rows[..|rows| - 1] + [rows[|rows| - 1]];
    }
  }

  lemma {:induction false} EligibleDistinct(rows: seq<Indexed>, timeout: int, limit: Option<int>)
    requires DistinctRows(rows)
    ensures DistinctRows(Eligible(rows, timeout, limit))
  {
    if rows != [] {
      var n := |rows| - 1;
      EligibleDistinct(rows[..n], timeout, limit);
      var e := Eligible(rows[..n], timeout, limit);
      forall i | 0 <= i < |e| ensures e[i].row != rows[n].row {
        EligibleMember(rows[..n], timeout, limit, e[i]);
        assert e[i] in multiset(e) && e[i] in multiset(rows[..n]);
      }
    }
  }

  /** Selection sees only the set of rows, not the order they are kept in. */
  lemma {:induction false} SelectIgnoresOrder(a: seq<Indexed>, b: seq<Indexed>, rounds: nat, timeout: int, limit: Option<int>)
    requires DistinctRows(a) && DistinctRows(b) && multiset(a) == multiset(b)
    ensures Select(a, rounds, timeout, limit) == Select(b, rounds, timeout, limit)
  {
    var x, y := Eligible(a, timeout, limit), Eligible(b, timeout, limit);
    forall z ensures multiset(x)[z] == multiset(y)[z] {
      EligibleMember(a, timeout, limit, z);
      EligibleMember(b, timeout, limit, z);
    }
    EligibleDistinct(a, timeout, limit);
    EligibleDistinct(b, timeout, limit);
    SortContents(x);
    SortContents(y);
    SortSorted(x);
    SortSorted(y);
    assert multiset(x) == multiset(y);
    SortedUnique(Sort(x), Sort(y));
  }

  // ---- The policy is monotone ------------------------------------------------------------

  /** A guard is at least as generous; no guard is the most generous. */
  predicate Loosens(a: Option<int>, b: Option<int>) {
    b.None? || (a.Some? && a.value <= b.value)
  }

  /** Raising either guard only removes rows from the eligible ones, and never a success or a plain failure. */
  lemma {:induction false} RaisingGuardsShrinks(rows: seq<Indexed>, timeout: int, limit: Option<int>,
                                                timeout': int, limit': Option<int>, x: Indexed)
    requires timeout <= timeout' && Loosens(limit, limit')
    ensures multiset(Eligible(rows, timeout', limit'))[x] <= multiset(Eligible(rows, timeout, limit))[x]
    ensures x.record.status in {Succeeded, Failed} ==> multiset(Eligible(rows, timeout', limit'))[x] == multiset(rows)[x]
  {
    EligibleMember(rows, timeout, limit, x);
    EligibleMember(rows, timeout', limit', x);
  }

  /**
   Under the guards it was recorded with a row is eligible, unless it claims a memory limit that nobody set: the one
   record that is worth a retry as it stands.
   */
  lemma {:induction false} EligibleUnderItsOwnGuards(rows: seq<Indexed>, x: Indexed)
    requires x in rows
    ensures x in Eligible(rows, x.record.timeout, x.record.memoryLimit)
            <==> !(x.record.status == MemoryLimited && x.record.memoryLimit.None?)
  {
    EligibleMember(rows, x.record.timeout, x.record.memoryLimit, x);
    assert x in multiset(rows);
    assert x in Eligible(rows, x.record.timeout, x.record.memoryLimit) <==> x in multiset(Eligible(rows, x.record.timeout, x.record.memoryLimit));
  }

  // ---- What is selected --------------------------------------------------------------------

  /** Which outcomes stand under the present guards. */
  predicate Stands(r: Record, timeout: int, limit: Option<int>) {
    match r.status
    case Succeeded => true
    case Failed => true
    case TimedOut => timeout <= r.timeout
    case MemoryLimited => limit.Some? && (r.memoryLimit.None? || limit.value <= r.memoryLimit.value)
  }

  function Standing(rows: seq<Indexed>, timeout: int, limit: Option<int>): set<nat> {
    set i | 0 <= i < |rows| && Stands(rows[i].record, timeout, limit) :: i
  }

  /** Earlier: started before, or at the same time and written before. */
  predicate Earlier(a: Indexed, b: Indexed) {
    a.record.startedAt < b.record.startedAt || (a.record.startedAt == b.record.startedAt && a.row < b.row)
  }

  /** As many standing rows as asked for or as there are, in chronological order, and none left out is later than one taken. */
  ghost predicate IsNewest(rows: seq<Indexed>, out: seq<Indexed>, rounds: nat, timeout: int, limit: Option<int>) {
    && |out| == (if |Standing(rows, timeout, limit)| < rounds then |Standing(rows, timeout, limit)| else rounds)
    && (forall i, j :: 0 <= i < j < |out| ==> Earlier(out[i], out[j]))
    && (forall i :: 0 <= i < |out| ==> out[i] in rows && Stands(out[i].record, timeout, limit))
    && (forall x, j :: x in rows && Stands(x.record, timeout, limit) && x !in out && 0 <= j < |out| ==> Earlier(x, out[j]))
  }

  lemma {:induction false} StandingCount(rows: seq<Indexed>, timeout: int, limit: Option<int>)
    ensures |Eligible(rows, timeout, limit)| == |Standing(rows, timeout, limit)|
  {
    hide Stands, Retried;
    if rows == [] {
      assert Standing(rows, timeout, limit) == {};
    } else {
      var n := |rows| - 1;
      StandingCount(rows[..n], timeout, limit);
      StandsUnlessRetried(rows[n].record, timeout, limit);
      var before := Standing(rows[..n], timeout, limit);
      assert forall i :: 0 <= i < n ==> rows[..n][i] == rows[i];
      if Stands(rows[n].record, timeout, limit) {
        assert Standing(rows, timeout, limit) == before + {n};
      } else {
        assert Standing(rows, timeout, limit) == before;
      }
    }
  }

  lemma {:induction false} StandsUnlessRetried(r: Record, timeout: int, limit: Option<int>)
    ensures Stands(r, timeout, limit) <==> !Retried(r, timeout, limit)
  {
  }

  lemma {:induction false} EligibleStands(rows: seq<Indexed>, timeout: int, limit: Option<int>)
    ensures forall x :: x in Eligible(rows, timeout, limit) <==> x in rows && Stands(x.record, timeout, limit)
  {
    if rows != [] { EligibleStands(rows[..|rows| - 1], timeout, limit); }
  }

  /** The selection is the newest standing rows, oldest of them first. */
  lemma {:induction false} SelectIsNewest(rows: seq<Indexed>, rounds: nat, timeout: int, limit: Option<int>)
    requires DistinctRows(rows)
    ensures IsNewest(rows, Select(rows, rounds, timeout, limit), rounds, timeout, limit)
  {
    hide Eligible, Sort, Standing, Stands, Sorted, Tail, Earlier;
    var e := Eligible(rows, timeout, limit);
    StandingCount(rows, timeout, limit);
    EligibleStands(rows, timeout, limit);
    EligibleDistinct(rows, timeout, limit);
    SortContents(e);
    SortSorted(e);
    SortMembers(e);
    TailIsLatest(Sort(e), rounds);
  }

  /** The end of a chronological list: its latest rows, still in order. */
  lemma {:induction false} TailIsLatest(t: seq<Indexed>, rounds: nat)
    requires Sorted(t)
    ensures
      var out := Tail(t, rounds);
      && |out| == (if |t| < rounds then |t| else rounds)
      && (forall i, j :: 0 <= i < j < |out| ==> Earlier(out[i], out[j]))
      && (forall i :: 0 <= i < |out| ==> out[i] in t)
      && (forall x, j :: x in t && x !in out && 0 <= j < |out| ==> Earlier(x, out[j]))
  {
    var out := Tail(t, rounds);
    var k := |t| - |out|;
    assert out == t[k..];
    forall h | k <= h < |t| ensures t[h] in out { assert out[h - k] == t[h]; }
    forall x, j | x in t && x !in out && 0 <= j < |out| ensures Earlier(x, out[j]) {
      var i :| 0 <= i < |t| && t[i] == x;
      assert Before(t[i], t[k + j]);
    }
    forall i, j | 0 <= i < j < |out| ensures Earlier(out[i], out[j]) { assert Before(t[k + i], t[k + j]); }
  }

  lemma {:induction false} SortMembers(s: seq<Indexed>)
    ensures forall x :: x in Sort(s) <==> x in s
  {
    hide Sort;
    SortContents(s);
    forall x ensures x in Sort(s) <==> x in s { assert x in Sort(s) <==> x in multiset(Sort(s)); assert x in s <==> x in multiset(s); }
  }
}
