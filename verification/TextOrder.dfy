/** Strings in code-point order, and sorting by it. */
module TextOrder {
  predicate AtMost(a: string, b: string) {
    a == [] || (b != [] && (a[0] < b[0] || (a[0] == b[0] && AtMost(a[1..], b[1..]))))
  }

  /** The first difference of two strings, where the one on the left has the smaller code point. */
  predicate Drops(a: string, b: string, i: nat) { i < |a| && i < |b| && a[..i] == b[..i] && a[i] as int < b[i] as int }

  /** One string is at most another if it is a prefix of it, or smaller in code point where they first differ. */
  lemma {:induction false} AtMostIff(a: string, b: string)
    ensures AtMost(a, b) <==> a <= b || exists i :: Drops(a, b, i)
  {
    if a != [] && b != [] {
      if a[0] == b[0] {
        AtMostIff(a[1..], b[1..]);
        assert a == [a[0]] + a[1..] && b == [b[0]] + b[1..];
        if i :| Drops(a, b, i) { LaterDrop(a, b, i); }
        if i: nat :| Drops(a[1..], b[1..], i) { EarlierDrop(a, b, i); }
      } else {
        assert a[0] < b[0] ==> Drops(a, b, 0);
        forall i: nat ensures Drops(a, b, i) ==> i == 0 || a[0] == b[0] { SameStart(a, b, i); }
      }
    }
  }

  lemma {:induction false} SameStart(a: string, b: string, i: nat)
    ensures Drops(a, b, i) ==> i == 0 || a[0] == b[0]
  {
    if Drops(a, b, i) && i > 0 { assert a[..i][0] == b[..i][0]; }
  }

  lemma {:induction false} LaterDrop(a: string, b: string, i: nat)
    requires a != [] && b != [] && a[0] == b[0] && Drops(a, b, i)
    ensures i > 0 && Drops(a[1..], b[1..], i - 1)
  {
    assert i > 0;
    assert a[1..][..i - 1] == a[..i][1..] && b[1..][..i - 1] == b[..i][1..];
  }

  lemma {:induction false} EarlierDrop(a: string, b: string, i: nat)
    requires a != [] && b != [] && a[0] == b[0] && Drops(a[1..], b[1..], i)
    ensures Drops(a, b, i + 1)
  {
    assert a[..i + 1] == [a[0]] + a[1..][..i] && b[..i + 1] == [b[0]] + b[1..][..i];
  }

  lemma {:induction false} Total(a: string, b: string)
    ensures AtMost(a, b) || AtMost(b, a)
  {
    if a != [] && b != [] { Total(a[1..], b[1..]); }
  }

  lemma {:induction false} Transitive(a: string, b: string, c: string)
    requires AtMost(a, b) && AtMost(b, c)
    ensures AtMost(a, c)
  {
    if a != [] && a[0] == b[0] == c[0] { Transitive(a[1..], b[1..], c[1..]); }
  }

  lemma {:induction false} Antisymmetric(a: string, b: string)
    requires AtMost(a, b) && AtMost(b, a)
    ensures a == b
  {
    if a != [] {
      Antisymmetric(a[1..], b[1..]);
      assert a == [a[0]] + a[1..] && b == [b[0]] + b[1..];
    }
  }

  predicate Ordered(s: seq<string>) {
    forall i, j :: 0 <= i < j < |s| ==> AtMost(s[i], s[j])
  }

  function Insert(x: string, s: seq<string>): seq<string> {
    if s == [] || AtMost(x, s[0]) then [x] + s else [s[0]] + Insert(x, s[1..])
  }

  function Sort(s: seq<string>): seq<string> {
    if s == [] then [] else Insert(s[0], Sort(s[1..]))
  }

  lemma {:induction false} InsertContents(x: string, s: seq<string>)
    ensures multiset(Insert(x, s)) == multiset(s) + multiset{x}
  {
    if s != [] && !AtMost(x, s[0]) {
      InsertContents(x, s[1..]);
      assert s == [s[0]] + s[1..];
    }
  }

  lemma {:induction false} InsertOrdered(x: string, s: seq<string>)
    requires Ordered(s)
    ensures Ordered(Insert(x, s))
  {
    hide AtMost;
    if s != [] {
      if AtMost(x, s[0]) {
        forall i | 0 <= i < |s| ensures AtMost(x, s[i]) {
          if i > 0 { Transitive(x, s[0], s[i]); }
        }
      } else {
        Total(x, s[0]);
        InsertOrdered(x, s[1..]);
        InsertContents(x, s[1..]);
        var t := Insert(x, s[1..]);
        forall i | 0 <= i < |t| ensures AtMost(s[0], t[i]) {
          assert t[i] in multiset(t);
          if t[i] != x { assert t[i] in multiset(s[1..]); }
        }
      }
    }
  }

  lemma {:induction false} SortFacts(s: seq<string>)
    ensures Ordered(Sort(s)) && multiset(Sort(s)) == multiset(s) && |Sort(s)| == |s|
  {
    hide AtMost, Insert, Ordered;
    if s == [] {
      NothingOrdered();
    } else {
      SortFacts(s[1..]);
      InsertOrdered(s[0], Sort(s[1..]));
      InsertContents(s[0], Sort(s[1..]));
      assert s == [s[0]] + s[1..];
    }
    assert |multiset(Sort(s))| == |Sort(s)| && |multiset(s)| == |s|;
  }

  lemma {:induction false} NothingOrdered()
    ensures Ordered([])
  {
  }

  lemma {:induction false} OrderedUnique(a: seq<string>, b: seq<string>)
    requires Ordered(a) && Ordered(b) && multiset(a) == multiset(b)
    ensures a == b
  {
    hide AtMost;
    assert |multiset(a)| == |a| && |multiset(b)| == |b|;
    if a != [] {
      SameFirst(a, b);
      assert a == [a[0]] + a[1..] && b == [b[0]] + b[1..];
      assert multiset(a[1..]) == multiset(a) - multiset{a[0]} && multiset(b[1..]) == multiset(b) - multiset{b[0]};
      OrderedUnique(a[1..], b[1..]);
    }
  }

  lemma {:induction false} SameFirst(a: seq<string>, b: seq<string>)
    requires Ordered(a) && Ordered(b) && multiset(a) == multiset(b) && a != [] && b != []
    ensures a[0] == b[0]
  {
    hide AtMost;
    assert a[0] in multiset(b) && b[0] in multiset(a);
    var i :| 0 <= i < |b| && b[i] == a[0];
    var j :| 0 <= j < |a| && a[j] == b[0];
    if i > 0 && j > 0 { Antisymmetric(a[0], b[0]); }
  }

  /** Sorting depends on the elements alone. */
  lemma {:induction false} SortByContents(a: seq<string>, b: seq<string>)
    requires multiset(a) == multiset(b)
    ensures Sort(a) == Sort(b)
  {
    hide Sort, Ordered;
    SortFacts(a);
    SortFacts(b);
    OrderedUnique(Sort(a), Sort(b));
  }
}
