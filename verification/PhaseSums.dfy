/**
 Six-phase timing vectors over the reals, sums of them over lists and tables, and
 the listing of a table's nonzero entries by name.
 */
module PhaseSums {
  import opened Prelude
  import C = TextOrder

  datatype Phases = Phases(assembly: real, search: real, apply: real, execution: real, merge: real, rebuild: real)

  const ZERO := Phases(0.0, 0.0, 0.0, 0.0, 0.0, 0.0)

  function Plus(a: Phases, b: Phases): Phases {
    Phases(a.assembly + b.assembly, a.search + b.search, a.apply + b.apply, a.execution + b.execution, a.merge + b.merge,
           a.rebuild + b.rebuild)
  }

  function Minus(a: Phases, b: Phases): Phases {
    Phases(a.assembly - b.assembly, a.search - b.search, a.apply - b.apply, a.execution - b.execution, a.merge - b.merge,
           a.rebuild - b.rebuild)
  }

  function Divided(a: Phases, n: real): Phases
    requires n != 0.0
  {
    Phases(a.assembly / n, a.search / n, a.apply / n, a.execution / n, a.merge / n, a.rebuild / n)
  }

  function Total(a: Phases): real { a.assembly + a.search + a.apply + a.execution + a.merge + a.rebuild }

  type Table<!K> = map<K, Phases>

  function At<K>(t: Table<K>, k: K): Phases { if k in t then t[k] else ZERO }

  lemma {:induction false} PlusSwap(a: Phases, b: Phases, c: Phases)
    ensures Plus(a, Plus(b, c)) == Plus(b, Plus(a, c)) && Plus(a, Plus(b, c)) == Plus(Plus(a, b), c) && Plus(a, b) == Plus(b, a)
  {
  }

  lemma {:induction false} PlusZero(a: Phases)
    ensures Plus(a, ZERO) == a && Plus(ZERO, a) == a
  {
  }

  lemma {:induction false} PlusMinus(a: Phases, b: Phases, c: Phases, d: Phases)
    ensures Plus(Minus(a, b), Minus(c, d)) == Minus(Plus(a, c), Plus(b, d)) && Minus(ZERO, ZERO) == ZERO
  {
  }

  // ---- Sums over a table ---------------------------------------------------------------

  ghost function SumOf<K>(t: Table<K>, s: set<K>): Phases {
    if s == {} then ZERO
    else
      var k :| k in s;
      Plus(At(t, k), SumOf(t, s - {k}))
  }

  /** Any entry may be taken first. */
  lemma {:induction false} SumRemove<K>(t: Table<K>, s: set<K>, k: K)
    requires k in s
    ensures SumOf(t, s) == Plus(At(t, k), SumOf(t, s - {k}))
    decreases |s|
  {
    hide At, Plus;
    var j :| j in s && SumOf(t, s) == Plus(At(t, j), SumOf(t, s - {j}));
    if j != k {
      var rest := s - {j} - {k};
      SumRemove(t, s - {j}, k);
      SumRemove(t, s - {k}, j);
      assert s - {k} - {j} == rest;
      PlusSwap(At(t, j), At(t, k), SumOf(t, rest));
    }
  }

  lemma {:induction false} SumAgree<K>(t: Table<K>, u: Table<K>, s: set<K>)
    requires forall k :: k in s ==> At(t, k) == At(u, k)
    ensures SumOf(t, s) == SumOf(u, s)
    decreases |s|
  {
    hide At, Plus;
    if s != {} {
      var k :| k in s;
      SumRemove(t, s, k);
      SumRemove(u, s, k);
      SumAgree(t, u, s - {k});
    }
  }

  lemma {:induction false} SumUnion<K>(t: Table<K>, a: set<K>, b: set<K>)
    requires a !! b
    ensures SumOf(t, a + b) == Plus(SumOf(t, a), SumOf(t, b))
    decreases |a|
  {
    hide At, Plus;
    if a == {} {
      assert a + b == b;
      PlusZero(SumOf(t, b));
    } else {
      var k :| k in a;
      SumRemove(t, a, k);
      SumRemove(t, a + b, k);
      assert (a + b) - {k} == (a - {k}) + b;
      SumUnion(t, a - {k}, b);
      PlusSwap(At(t, k), SumOf(t, a - {k}), SumOf(t, b));
    }
  }

  /** Entries that are zero, or absent, add nothing. */
  lemma {:induction false} SumZero<K>(t: Table<K>, s: set<K>)
    requires forall k :: k in s ==> At(t, k) == ZERO
    ensures SumOf(t, s) == ZERO
    decreases |s|
  {
    hide At, Plus;
    PlusZero(ZERO);
    if s != {} {
      var k :| k in s;
      SumRemove(t, s, k);
      SumZero(t, s - {k});
    }
  }

  lemma {:induction false} SumWhole<K>(t: Table<K>, s: set<K>)
    requires t.Keys <= s
    ensures SumOf(t, s) == SumOf(t, t.Keys)
  {
    hide SumOf;
    SumZero(t, s - t.Keys);
    SumUnion(t, t.Keys, s - t.Keys);
    assert t.Keys + (s - t.Keys) == s;
  }

  lemma {:induction false} SumMinus<K>(t: Table<K>, u: Table<K>, d: Table<K>, s: set<K>)
    requires forall k :: k in s ==> At(d, k) == Minus(At(t, k), At(u, k))
    ensures SumOf(d, s) == Minus(SumOf(t, s), SumOf(u, s))
    decreases |s|
  {
    hide At, Plus, Minus;
    PlusMinus(ZERO, ZERO, ZERO, ZERO);
    if s != {} {
      var k :| k in s;
      SumRemove(t, s, k);
      SumRemove(u, s, k);
      SumRemove(d, s, k);
      SumMinus(t, u, d, s - {k});
      PlusMinus(At(t, k), At(u, k), SumOf(t, s - {k}), SumOf(u, s - {k}));
    }
  }

  function Added<K>(t: Table<K>, k: K, v: Phases): Table<K> { t[k := Plus(At(t, k), v)] }

  /** Adding to one entry adds to the sum. */
  lemma {:induction false} SumAdded<K>(t: Table<K>, k: K, v: Phases)
    ensures SumOf(Added(t, k, v), Added(t, k, v).Keys) == Plus(SumOf(t, t.Keys), v)
  {
    hide SumOf;
    var u, s := Added(t, k, v), t.Keys + {k};
    assert u.Keys == s;
    SumWhole(t, s);
    SumRemove(t, s, k);
    SumRemove(u, s, k);
    SumAgree(t, u, s - {k});
  }

  lemma {:induction false} QuotientSum(x: real, y: real, n: real)
    requires n != 0.0
    ensures x / n + y / n == (x + y) / n
  {
  }

  lemma {:induction false} DividedPlus(a: Phases, b: Phases, n: real)
    requires n != 0.0
    ensures Divided(Plus(a, b), n) == Plus(Divided(a, n), Divided(b, n))
  {
    QuotientSum(a.assembly, b.assembly, n);
    QuotientSum(a.search, b.search, n);
    QuotientSum(a.apply, b.apply, n);
    QuotientSum(a.execution, b.execution, n);
    QuotientSum(a.merge, b.merge, n);
    QuotientSum(a.rebuild, b.rebuild, n);
  }

  function DividedTable<K>(t: Table<K>, n: real): Table<K>
    requires n != 0.0
  {
    map k | k in t :: Divided(t[k], n)
  }

  lemma {:induction false} ZeroDivided(n: real)
    requires n != 0.0
    ensures Divided(ZERO, n) == ZERO
  {
  }

  lemma {:induction false} SumDivided<K>(t: Table<K>, s: set<K>, n: real)
    requires n != 0.0
    ensures SumOf(DividedTable(t, n), s) == Divided(SumOf(t, s), n)
    decreases |s|
  {
    hide Divided, Plus;
    ZeroDivided(n);
    if s != {} {
      var k :| k in s;
      SumRemove(t, s, k);
      SumRemove(DividedTable(t, n), s, k);
      SumDivided(t, s - {k}, n);
      DividedPlus(At(t, k), SumOf(t, s - {k}), n);
    }
  }

  // ---- Named changes ---------------------------------------------------------------------

  datatype Change = Change(name: string, phases: Phases)

  function PhaseSum(s: seq<Change>): Phases {
    if s == [] then ZERO else Plus(PhaseSum(s[..|s| - 1]), s[|s| - 1].phases)
  }

  lemma {:induction false} PhaseSumConcat(a: seq<Change>, b: seq<Change>)
    ensures PhaseSum(a + b) == Plus(PhaseSum(a), PhaseSum(b))
  {
    hide Plus;
    if b == [] {
      assert a + b == a;
      PlusZero(PhaseSum(a));
    } else {
      var n := |b| - 1;
      PhaseSumConcat(a, b[..n]);
      assert (a + b)[..|a| + n] == a + b[..n];
      PlusSwap(PhaseSum(a), PhaseSum(b[..n]), b[n].phases);
    }
  }

  /** The sum does not depend on the order. */
  lemma {:induction false} PhaseSumPermuted(a: seq<Change>, b: seq<Change>)
    requires multiset(a) == multiset(b)
    ensures PhaseSum(a) == PhaseSum(b)
  {
    hide Plus, PhaseSum;
    assert |multiset(a)| == |a| && |multiset(b)| == |b|;
    if a != [] {
      var n := |a| - 1;
      var i := Counterpart(a, b);
      PhaseSumWithout(b, i);
      PhaseSumWithout(a, n);
      assert a[..n] + a[n + 1..] == a[..n];
      PhaseSumPermuted(a[..n], b[..i] + b[i + 1..]);
    }
  }

  /** Where the last change of one list stands in a reordering of it. */
  lemma {:induction false} Counterpart(a: seq<Change>, b: seq<Change>) returns (i: nat)
    requires a != [] && multiset(a) == multiset(b)
    ensures i < |b| && b[i] == a[|a| - 1] && multiset(a[..|a| - 1]) == multiset(b[..i] + b[i + 1..])
  {
    var n := |a| - 1;
    assert a == a[..n] + [a[n]];
    assert a[n] in multiset(b);
    i :| 0 <= i < |b| && b[i] == a[n];
    assert b == b[..i] + [b[i]] + b[i + 1..];
    assert multiset(a[..n]) == multiset(a) - multiset{a[n]};
    assert multiset(b[..i] + b[i + 1..]) == multiset(b) - multiset{a[n]};
  }

  lemma {:induction false} PhaseSumWithout(b: seq<Change>, i: nat)
    requires i < |b|
    ensures PhaseSum(b) == Plus(PhaseSum(b[..i] + b[i + 1..]), b[i].phases)
  {
    hide Plus, PhaseSum;
    var x, y := b[..i], b[i + 1..];
    assert b == x + [b[i]] + y;
    PhaseSumConcat(x + [b[i]], y);
    PhaseSumConcat(x, [b[i]]);
    PhaseSumConcat(x, y);
    PhaseSumOne(b[i]);
    PlusSwap(PhaseSum(x), b[i].phases, PhaseSum(y));
    PlusSwap(PhaseSum(x), PhaseSum(y), b[i].phases);
    PlusSwap(b[i].phases, PhaseSum(y), ZERO);
  }

  lemma {:induction false} PhaseSumOne(c: Change)
    ensures PhaseSum([c]) == c.phases
  {
    assert [c][..0] == [];
    PlusZero(c.phases);
  }

  /** The nonzero entries of a table, by name. */
  ghost predicate Lists(t: Table<string>, s: seq<Change>) {
    && (forall i, j :: 0 <= i < j < |s| ==> C.AtMost(s[i].name, s[j].name) && s[i].name != s[j].name)
    && (forall i :: 0 <= i < |s| ==> s[i].name in t && s[i].phases == t[s[i].name] && s[i].phases != ZERO)
    && (forall x :: x in t && t[x] != ZERO ==> exists i :: 0 <= i < |s| && s[i].name == x)
  }

  function NamesIn(s: seq<Change>): set<string> {
    set i | 0 <= i < |s| :: s[i].name
  }

  lemma {:induction false} ListedSum(t: Table<string>, s: seq<Change>)
    requires forall i, j :: 0 <= i < j < |s| ==> s[i].name != s[j].name
    requires forall i :: 0 <= i < |s| ==> s[i].phases == At(t, s[i].name)
    ensures PhaseSum(s) == SumOf(t, NamesIn(s))
  {
    hide At, Plus;
    if s == [] {
      assert NamesIn(s) == {};
    } else {
      var n := |s| - 1;
      ListedSum(t, s[..n]);
      NamesLast(s);
      SumRemove(t, NamesIn(s), s[n].name);
      PlusSwap(At(t, s[n].name), SumOf(t, NamesIn(s[..n])), ZERO);
    }
  }

  lemma {:induction false} NamesLast(s: seq<Change>)
    requires s != [] && forall i, j :: 0 <= i < j < |s| ==> s[i].name != s[j].name
    ensures s[|s| - 1].name in NamesIn(s) && NamesIn(s) - {s[|s| - 1].name} == NamesIn(s[..|s| - 1])
  {
    var n := |s| - 1;
    forall x ensures x in NamesIn(s[..n]) <==> x in NamesIn(s) && x != s[n].name {
      if x in NamesIn(s) && x != s[n].name {
        var i :| 0 <= i < |s| && s[i].name == x;
        assert s[..n][i] == s[i];
      }
      if x in NamesIn(s[..n]) {
        var i :| 0 <= i < n && s[..n][i].name == x;
        assert s[i].name == x;
      }
    }
  }

  /** Leaving out the zero entries loses nothing. */
  lemma {:induction false} ListingKeepsSum(t: Table<string>, s: seq<Change>)
    requires Lists(t, s)
    ensures PhaseSum(s) == SumOf(t, t.Keys)
  {
    hide SumOf, C.AtMost;
    ListedSum(t, s);
    var kept := NamesIn(s);
    forall k | k in t.Keys - kept ensures At(t, k) == ZERO { }
    SumZero(t, t.Keys - kept);
    assert kept <= t.Keys;
    SumUnion(t, kept, t.Keys - kept);
    assert kept + (t.Keys - kept) == t.Keys;
    PlusZero(SumOf(t, kept));
  }

  /** The nonzero entries among some names. */
  function Filtered(t: Table<string>, names: seq<string>): seq<Change> {
    if names == [] then []
    else
      var n := |names| - 1;
      Filtered(t, names[..n]) + if At(t, names[n]) != ZERO then [Change(names[n], At(t, names[n]))] else []
  }

  lemma {:induction false} FilteredEntries(t: Table<string>, names: seq<string>)
    ensures forall i :: 0 <= i < |Filtered(t, names)| ==> Filtered(t, names)[i].name in names
    ensures forall i :: 0 <= i < |Filtered(t, names)| ==> Filtered(t, names)[i].phases == At(t, Filtered(t, names)[i].name) != ZERO
  {
    hide At;
    if names != [] {
      var n := |names| - 1;
      FilteredEntries(t, names[..n]);
      var s := Filtered(t, names);
      forall i | 0 <= i < |s| ensures s[i].name in names && s[i].phases == At(t, s[i].name) != ZERO {
        if i < |Filtered(t, names[..n])| { assert s[i] == Filtered(t, names[..n])[i]; }
      }
    }
  }

  lemma {:induction false} FilteredFinds(t: Table<string>, names: seq<string>, x: string)
    requires x in names && At(t, x) != ZERO
    ensures exists i :: 0 <= i < |Filtered(t, names)| && Filtered(t, names)[i].name == x
  {
    hide At;
    var n := |names| - 1;
    var s := Filtered(t, names);
    if names[n] == x {
      assert s[|s| - 1].name == x;
    } else {
      FilteredFinds(t, names[..n], x);
      var i :| 0 <= i < |Filtered(t, names[..n])| && Filtered(t, names[..n])[i].name == x;
      assert s[i].name == x;
    }
  }

  lemma {:induction false} FilteredOrder(t: Table<string>, names: seq<string>)
    requires C.Ordered(names) && forall i, j :: 0 <= i < j < |names| ==> names[i] != names[j]
    ensures forall i, j :: 0 <= i < j < |Filtered(t, names)| ==>
              C.AtMost(Filtered(t, names)[i].name, Filtered(t, names)[j].name) && Filtered(t, names)[i].name != Filtered(t, names)[j].name
  {
    hide At, C.AtMost;
    if names != [] {
      var n := |names| - 1;
      FilteredOrder(t, names[..n]);
      FilteredEntries(t, names[..n]);
      var s, before := Filtered(t, names), Filtered(t, names[..n]);
      forall i, j | 0 <= i < j < |s| ensures C.AtMost(s[i].name, s[j].name) && s[i].name != s[j].name {
        assert s[i] == before[i];
        if j < |before| {
          assert s[j] == before[j];
        } else {
          var k :| 0 <= k < n && names[k] == before[i].name;
        }
      }
    }
  }

  method ListChanges(t: Table<string>) returns (s: seq<Change>)
    ensures Lists(t, s)
  {
    hide C.AtMost, C.Ordered, At;
    var names := SortedNames(t.Keys);
    s := [];
    for i := 0 to |names|
      invariant s == Filtered(t, names[..i])
    {
      assert names[..i + 1][..i] == names[..i];
      if At(t, names[i]) != ZERO {
        s := s + [Change(names[i], At(t, names[i]))];
      }
    }
    assert names[..|names|] == names;
    FilteredLists(t, names);
  }

  lemma {:induction false} FilteredLists(t: Table<string>, names: seq<string>)
    requires C.Ordered(names) && (forall i, j :: 0 <= i < j < |names| ==> names[i] != names[j])
    requires forall x :: x in names <==> x in t.Keys
    ensures Lists(t, Filtered(t, names))
  {
    hide C.AtMost, C.Ordered, Filtered;
    FilteredEntries(t, names);
    FilteredOrder(t, names);
    forall x | x in t && t[x] != ZERO ensures exists i :: 0 <= i < |Filtered(t, names)| && Filtered(t, names)[i].name == x {
      FilteredFinds(t, names, x);
    }
  }

  method SortedNames(names: set<string>) returns (s: seq<string>)
    ensures C.Ordered(s) && (forall x :: x in s <==> x in names)
    ensures forall i, j :: 0 <= i < j < |s| ==> s[i] != s[j]
  {
    hide C.Ordered, C.Sort, C.AtMost;
    var rest, found := names, [];
    while rest != {}
      invariant rest <= names
      invariant forall x :: x in found <==> x in names && x !in rest
      invariant forall i, j :: 0 <= i < j < |found| ==> found[i] != found[j]
      decreases |rest|
    {
      var x :| x in rest;
      found, rest := found + [x], rest - {x};
    }
    s := C.Sort(found);
    C.SortFacts(found);
    forall x ensures x in s <==> x in names { assert x in s <==> x in multiset(s); assert x in found <==> x in multiset(found); }
    DistinctByContents(found, s);
  }

  lemma {:induction false} DistinctByContents(a: seq<string>, b: seq<string>)
    requires multiset(a) == multiset(b) && forall i, j :: 0 <= i < j < |a| ==> a[i] != a[j]
    ensures forall i, j :: 0 <= i < j < |b| ==> b[i] != b[j]
  {
    forall i, j | 0 <= i < j < |b| ensures b[i] != b[j] {
      OnceOnly(a, b[i]);
      TwiceThere(b, i, j);
    }
  }

  lemma {:induction false} OnceOnly(a: seq<string>, x: string)
    requires forall i, j :: 0 <= i < j < |a| ==> a[i] != a[j]
    ensures multiset(a)[x] <= 1
  {
    if a != [] {
      var n := |a| - 1;
      OnceOnly(a[..n], x);
      assert a == a[..n] + [a[n]];
      if a[n] == x {
        assert x !in a[..n];
        assert x !in multiset(a[..n]);
      }
    }
  }

  lemma {:induction false} TwiceThere(b: seq<string>, i: nat, j: nat)
    requires i < j < |b|
    ensures b[i] == b[j] ==> multiset(b)[b[i]] >= 2
  {
    assert b == b[..i] + [b[i]] + b[i + 1..j] + [b[j]] + b[j + 1..];
  }
}
