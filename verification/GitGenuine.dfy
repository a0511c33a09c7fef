/**
 What an accepted listing is, in Git's own terms: bounded safe rows under listed
 directories, each directory hashing to the text of its entries in the order of
 their names, a directory's name counting with a slash at its end.
 */
module GitGenuine {
  import opened Prelude
  import opened Decimal
  import opened GitTree
  import C = TextOrder

  // ---- The text of a directory ---------------------------------------------------------------

  function Nibble(c: char): (n: nat)
    requires '0' <= c <= '9' || 'a' <= c <= 'f'
    ensures n < 16
  {
    if '0' <= c <= '9' then c as int - 48 else c as int - 87
  }

  predicate Hexadecimal(s: string) {
    |s| == 40 && forall i :: 0 <= i < 40 ==> '0' <= s[i] <= '9' || 'a' <= s[i] <= 'f'
  }

  /** The twenty bytes of an identity, high nibble first. */
  function Bytes(s: string): string
    requires Hexadecimal(s)
  {
    seq(20, i requires 0 <= i < 20 => (16 * Nibble(s[2 * i]) + Nibble(s[2 * i + 1])) as char)
  }

  function Name(r: Row): string
    requires r.path != []
  {
    r.path[|r.path| - 1]
  }

  /** The name a directory's entries are ordered by. */
  function OrderName(r: Row): string
    requires r.path != []
  {
    if r.kind == "tree" then Name(r) + "/" else Name(r)
  }

  function EntryText(r: Row): string
    requires r.path != [] && Hexadecimal(r.sha)
  {
    (if r.kind == "tree" then "40000" else r.mode) + " " + Name(r) + ['\0'] + Bytes(r.sha)
  }

  predicate Entries(es: seq<Row>) { forall i :: 0 <= i < |es| ==> es[i].path != [] && Hexadecimal(es[i].sha) }

  function EntriesText(es: seq<Row>): string
    requires Entries(es)
  {
    if es == [] then [] else EntriesText(es[..|es| - 1]) + EntryText(es[|es| - 1])
  }

  function DirectoryText(es: seq<Row>): string
    requires Entries(es)
  {
    "tree " + Format(|EntriesText(es)|) + ['\0'] + EntriesText(es)
  }

  /** Exactly the rows of a directory, once each, by name. */
  ghost predicate Lists(rows: seq<Row>, d: Path, es: seq<Row>) {
    && Entries(es)
    && (forall r :: r in es <==> r in rows && |r.path| == |d| + 1 && r.path[..|d|] == d)
    && (forall i, j :: 0 <= i < j < |es| ==> es[i] != es[j] && C.AtMost(OrderName(es[i]), OrderName(es[j])))
  }

  ghost predicate HashesTo(rows: seq<Row>, d: Path, sha: string, hash: Hash) {
    exists es :: Lists(rows, d, es) && hash(DirectoryText(es)) == sha
  }

  function BlobBytes(rows: seq<Row>): int {
    if rows == [] then 0 else (if rows[0].kind == "blob" && rows[0].size.Some? then rows[0].size.value else 0) + BlobBytes(rows[1..])
  }

  predicate Admissible(r: Row) {
    && r.path != [] && (forall i :: 0 <= i < |r.path| ==> r.path[i] != "" && r.path[i] != "." && r.path[i] != "..")
    && Hexadecimal(r.sha)
    && ((r.kind == "tree" && r.mode == "040000") || (r.kind == "blob" && (r.mode == "100644" || r.mode == "100755")))
    && (r.kind == "blob" ==> r.size.Some? && 0 <= r.size.value <= 4_194_304)
  }

  /** A genuine listing of the pinned tree. */
  ghost predicate Genuine(rows: seq<Row>, truncated: bool, expected: string, hash: Hash) {
    && !truncated && 1 <= |rows| <= 1600
    && (forall i :: 0 <= i < |rows| ==> Admissible(rows[i]))
    && (forall i, j :: 0 <= i < j < |rows| ==> rows[i].path != rows[j].path)
    && BlobBytes(rows) <= 33_554_432
    && (forall i :: 0 <= i < |rows| ==> |rows[i].path| == 1 || exists p :: p in rows && p.kind == "tree" && p.path == rows[i].path[..|rows[i].path| - 1])
    && HashesTo(rows, [], expected, hash)
    && (forall i :: 0 <= i < |rows| && rows[i].kind == "tree" ==> HashesTo(rows, rows[i].path, rows[i].sha, hash))
  }

  /** Components come from a text split at its slashes. */
  predicate Split(rows: seq<Row>) {
    forall r, i :: r in rows && 0 <= i < |r.path| ==> '/' !in r.path[i]
  }

  // ---- Rows and entries ------------------------------------------------------------------------

  lemma {:induction false} HexIs(s: string)
    ensures IsSha(s) <==> Hexadecimal(s)
  {
  }

  lemma {:induction false} RowIs(r: Row)
    ensures GoodRow(r) <==> Admissible(r)
  {
    hide IsSha, Hexadecimal;
    HexIs(r.sha);
  }

  lemma {:induction false} HexAt(s: string, i: nat)
    requires |s| % 2 == 0 && (forall k :: 0 <= k < |s| ==> IsHex(s[k])) && 2 * i < |s|
    ensures i < |FromHex(s)| && FromHex(s)[i] == (16 * HexValue(s[2 * i]) + HexValue(s[2 * i + 1])) as char
  {
    if i > 0 {
      HexAt(s[2..], i - 1);
      assert FromHex(s)[i] == FromHex(s[2..])[i - 1];
    }
  }

  lemma {:induction false} BytesAre(s: string)
    requires IsSha(s) && Hexadecimal(s)
    ensures FromHex(s) == Bytes(s)
  {
    hide FromHex;
    HexLength(s);
    forall i | 0 <= i < 20 ensures FromHex(s)[i] == Bytes(s)[i] {
      HexAt(s, i);
      assert HexValue(s[2 * i]) == Nibble(s[2 * i]) && HexValue(s[2 * i + 1]) == Nibble(s[2 * i + 1]);
    }
  }

  lemma {:induction false} EntryIs(r: Row)
    requires GoodRow(r)
    ensures r.path != [] && Hexadecimal(r.sha) && Entry(r) == EntryText(r)
  {
    hide FromHex, Bytes, StripZeros, Hexadecimal;
    HexIs(r.sha);
    BytesAre(r.sha);
    ModeText(r);
  }

  lemma {:induction false} BodyIs(es: seq<Row>)
    requires AllGood(es)
    ensures Entries(es) && Body(es) == EntriesText(es)
  {
    hide GoodRow, Hexadecimal, EntryText, Entry;
    forall i | 0 <= i < |es| ensures es[i].path != [] && Hexadecimal(es[i].sha) { EntryIs(es[i]); }
    if es == [] {
    } else {
      var n := |es| - 1;
      BodyIs(es[..n]);
      BodySnoc(es[..n], es[n]);
      assert es[..n] + [es[n]] == es;
      EntryIs(es[n]);
    }
  }

  lemma {:induction false} BodySnoc(es: seq<Row>, r: Row)
    requires AllGood(es) && GoodRow(r)
    ensures AllGood(es + [r]) && Body(es + [r]) == Body(es) + Entry(r)
  {
    hide GoodRow, Entry;
    if es == [] {
      assert [] + [r] == [r] && [r][1..] == [];
      assert Body([]) == [] && Entry(r) + [] == Entry(r) && [] + Entry(r) == Entry(r);
    } else {
      BodySnoc(es[1..], r);
      assert (es + [r])[1..] == es[1..] + [r] && (es + [r])[0] == es[0];
      assert Entry(es[0]) + (Body(es[1..]) + Entry(r)) == (Entry(es[0]) + Body(es[1..])) + Entry(r);
    }
  }

  lemma {:induction false} TextIs(rows: seq<Row>)
    requires AllGood(rows)
    ensures Entries(Sorted(rows)) && TreeText(rows) == DirectoryText(Sorted(rows))
  {
    hide AllGood, Body, EntriesText, Sorted, Digits;
    BodyIs(Sorted(rows));
  }

  // ---- Sorting by name -----------------------------------------------------------------------------

  ghost predicate ByName(es: seq<Row>) {
    (forall i :: 0 <= i < |es| ==> es[i].path != []) && forall i, j :: 0 <= i < j < |es| ==> C.AtMost(OrderName(es[i]), OrderName(es[j]))
  }

  lemma {:induction false} KeyIsName(r: Row)
    requires r.path != []
    ensures SortKey(r) == OrderName(r)
  {
    assert Name(r) + "" == Name(r);
  }

  lemma {:induction false} InsertByName(x: Row, s: seq<Row>)
    requires GoodRow(x) && AllGood(s) && ByName(s)
    ensures ByName(Insert(x, s))
  {
    hide C.AtMost, GoodRow, OrderName, SortKey;
    NotTop(x);
    KeyIsName(x);
    if s != [] {
      NotTop(s[0]);
      KeyIsName(s[0]);
      if C.AtMost(SortKey(s[0]), SortKey(x)) {
        InsertByName(x, s[1..]);
        LeadsInserted(x, s);
      } else {
        C.Total(OrderName(x), OrderName(s[0]));
        LeadsAll(x, s);
      }
    }
  }

  lemma {:induction false} LeadsInserted(x: Row, s: seq<Row>)
    requires GoodRow(x) && AllGood(s) && ByName(s) && s != [] && s[0].path != [] && x.path != []
    requires C.AtMost(OrderName(s[0]), OrderName(x)) && ByName(Insert(x, s[1..]))
    ensures ByName([s[0]] + Insert(x, s[1..]))
  {
    hide C.AtMost, GoodRow, OrderName, Insert;
    InsertContents(x, s[1..]);
    var t := Insert(x, s[1..]);
    forall i | 0 <= i < |t| ensures C.AtMost(OrderName(s[0]), OrderName(t[i])) {
      assert t[i] in multiset(t);
      if t[i] != x { assert t[i] in multiset(s[1..]); }
    }
  }

  lemma {:induction false} LeadsAll(x: Row, s: seq<Row>)
    requires ByName(s) && s != [] && x.path != [] && C.AtMost(OrderName(x), OrderName(s[0]))
    ensures ByName([x] + s)
  {
    hide C.AtMost, OrderName;
    forall i | 0 <= i < |s| ensures C.AtMost(OrderName(x), OrderName(s[i])) {
      if i > 0 { C.Transitive(OrderName(x), OrderName(s[0]), OrderName(s[i])); }
    }
  }

  lemma {:induction false} NotTop(r: Row)
    requires GoodRow(r)
    ensures r.path != []
  {
  }

  lemma {:induction false} SortedByName(s: seq<Row>)
    requires AllGood(s)
    ensures ByName(Sorted(s))
  {
    hide GoodRow, Insert;
    if s != [] {
      SortedByName(s[..|s| - 1]);
      InsertByName(s[|s| - 1], Sorted(s[..|s| - 1]));
    }
  }

  // ---- The rows of one directory ----------------------------------------------------------------

  lemma {:induction false} InDirectory(r: Row, d: Path)
    requires r.path != []
    ensures Parent(r.path) == d <==> |r.path| == |d| + 1 && r.path[..|d|] == d
  {
  }

  lemma {:induction false} ChildrenOnce(rows: seq<Row>, d: Path)
    requires Distinct(rows)
    ensures forall i, j :: 0 <= i < j < |ChildrenOf(rows, d)| ==> ChildrenOf(rows, d)[i] != ChildrenOf(rows, d)[j]
    ensures forall r :: r in ChildrenOf(rows, d) ==> r in rows
  {
    if rows != [] {
      var n := |rows| - 1;
      ChildrenOnce(rows[..n], d);
      forall r | r in ChildrenOf(rows[..n], d) ensures r != rows[n] && r in rows {
        var i :| 0 <= i < n && rows[..n][i] == r;
        assert rows[i].path != rows[n].path;
      }
      var kids := ChildrenOf(rows[..n], d);
      forall i | 0 <= i < |kids| ensures kids[i] != rows[n] { assert kids[i] in kids; }
    }
  }

  lemma {:induction false} SortedOnce(a: seq<Row>, b: seq<Row>)
    requires multiset(a) == multiset(b) && forall i, j :: 0 <= i < j < |a| ==> a[i] != a[j]
    ensures forall i, j :: 0 <= i < j < |b| ==> b[i] != b[j]
  {
    forall i, j | 0 <= i < j < |b| ensures b[i] != b[j] {
      OnceOnly(a, b[i]);
      TwiceThere(b, i, j);
    }
  }

  lemma {:induction false} OnceOnly(a: seq<Row>, x: Row)
    requires forall i, j :: 0 <= i < j < |a| ==> a[i] != a[j]
    ensures multiset(a)[x] <= 1 && (x in a <==> multiset(a)[x] == 1)
  {
    if a != [] {
      var n := |a| - 1;
      OnceOnly(a[..n], x);
      assert a == a[..n] + [a[n]];
      if a[n] == x { assert x !in a[..n]; }
    }
  }

  lemma {:induction false} TwiceThere(b: seq<Row>, i: nat, j: nat)
    requires i < j < |b|
    ensures b[i] == b[j] ==> multiset(b)[b[i]] >= 2
  {
    assert b == b[..i] + [b[i]] + b[i + 1..j] + [b[j]] + b[j + 1..];
  }

  /** The sorted children list the directory. */
  lemma {:induction false} SortedLists(rows: seq<Row>, d: Path)
    requires AllGood(rows) && Distinct(rows)
    ensures AllGood(ChildrenOf(rows, d)) && Lists(rows, d, Sorted(ChildrenOf(rows, d)))
  {
    hide GoodRow, Sorted, C.AtMost, ChildrenOf, Hexadecimal, OrderName, Distinct;
    ChildrenGood(rows, d);
    var kids := ChildrenOf(rows, d);
    ChildrenOnce(rows, d);
    SortedByName(kids);
    SortedOnce(kids, Sorted(kids));
    BodyIs(Sorted(kids));
    forall r ensures r in Sorted(kids) <==> r in rows && |r.path| == |d| + 1 && r.path[..|d|] == d {
      assert r in Sorted(kids) <==> r in multiset(kids);
      assert r in kids <==> r in multiset(kids);
      if r in rows {
        RowPath(rows, r);
        InDirectory(r, d);
      }
    }
  }

  lemma {:induction false} RowPath(rows: seq<Row>, r: Row)
    requires AllGood(rows) && r in rows
    ensures r.path != []
  {
    var i :| 0 <= i < |rows| && rows[i] == r;
    assert GoodRow(rows[i]);
  }

  lemma {:induction false} NamesDiffer(x: Row, y: Row, d: Path)
    requires |x.path| == |d| + 1 && |y.path| == |d| + 1 && x.path[..|d|] == d == y.path[..|d|] && x.path != y.path
    requires '/' !in Name(x) && '/' !in Name(y)
    ensures OrderName(x) != OrderName(y)
  {
    assert x.path == d + [Name(x)] && y.path == d + [Name(y)];
    var p, q := Name(x), Name(y);
    assert (p + "/")[|p|] == '/' && (q + "/")[|q|] == '/';
    assert (p + "/")[..|p|] == p && (q + "/")[..|q|] == q;
    assert '/' in p + "/" && '/' in q + "/";
  }

  /** There is one way to list a directory. */
  lemma {:induction false} OneListing(rows: seq<Row>, d: Path, a: seq<Row>, b: seq<Row>)
    requires Split(rows) && Distinct(rows) && Lists(rows, d, a) && Lists(rows, d, b)
    ensures a == b
  {
    hide C.AtMost, Hexadecimal, OrderName, Split, Distinct;
    forall x ensures multiset(a)[x] == multiset(b)[x] {
      OnceOnly(a, x);
      OnceOnly(b, x);
    }
    assert multiset(a) == multiset(b);
    forall i, j | 0 <= i < j < |a| && a[i] != a[j] ensures OrderName(a[i]) != OrderName(a[j]) {
      assert a[i] in a && a[j] in a;
      KeysDiffer(rows, d, a[i], a[j]);
    }
    OneOrder(a, b);
  }

  lemma {:induction false} KeysDiffer(rows: seq<Row>, d: Path, x: Row, y: Row)
    requires Split(rows) && Distinct(rows) && x in rows && y in rows && x != y
    requires |x.path| == |d| + 1 && |y.path| == |d| + 1 && x.path[..|d|] == d == y.path[..|d|]
    ensures OrderName(x) != OrderName(y)
  {
    var i :| 0 <= i < |rows| && rows[i] == x;
    var j :| 0 <= j < |rows| && rows[j] == y;
    assert rows[i].path != rows[j].path;
    NamesDiffer(x, y, d);
  }

  ghost predicate NamedApart(a: seq<Row>) {
    && (forall i :: 0 <= i < |a| ==> a[i].path != [])
    && (forall i, j :: 0 <= i < j < |a| && a[i] != a[j] ==> OrderName(a[i]) != OrderName(a[j]))
  }

  lemma {:induction false} ByNameRest(a: seq<Row>)
    requires ByName(a) && a != []
    ensures ByName(a[1..])
  {
    hide C.AtMost, OrderName;
  }

  lemma {:induction false} RestPaths(a: seq<Row>)
    requires NamedApart(a) && a != []
    ensures NamedApart(a[1..])
  {
    hide OrderName;
    var r := a[1..];
    forall i | 0 <= i < |r| ensures r[i].path != [] { assert r[i] == a[i + 1]; }
    forall i, j | 0 <= i < j < |r| && r[i] != r[j] ensures OrderName(r[i]) != OrderName(r[j]) {
      assert r[i] == a[i + 1] && r[j] == a[j + 1];
    }
  }

  lemma {:induction false} OneOrder(a: seq<Row>, b: seq<Row>)
    requires multiset(a) == multiset(b) && ByName(a) && ByName(b) && NamedApart(a)
    ensures a == b
  {
    hide C.AtMost, OrderName, ByName;
    assert |multiset(a)| == |a| && |multiset(b)| == |b|;
    if a != [] {
      FirstSame(a, b);
      ByNameRest(a);
      ByNameRest(b);
      RestPaths(a);
      assert a == [a[0]] + a[1..] && b == [b[0]] + b[1..];
      assert multiset(a[1..]) == multiset(a) - multiset{a[0]} && multiset(b[1..]) == multiset(b) - multiset{b[0]};
      OneOrder(a[1..], b[1..]);
    }
  }

  lemma {:induction false} FirstSame(a: seq<Row>, b: seq<Row>)
    requires multiset(a) == multiset(b) && ByName(a) && ByName(b) && a != [] && b != [] && NamedApart(a)
    ensures a[0] == b[0]
  {
    hide C.AtMost, OrderName;
    assert a[0] in multiset(b) && b[0] in multiset(a);
    var i :| 0 <= i < |b| && b[i] == a[0];
    var j :| 0 <= j < |a| && a[j] == b[0];
    if i > 0 && j > 0 { C.Antisymmetric(OrderName(a[0]), OrderName(b[0])); }
  }

  // ---- Acceptance ------------------------------------------------------------------------------------

  lemma {:induction false} TreeIsHashes(rows: seq<Row>, d: Path, sha: string, hash: Hash)
    requires AllGood(rows) && Distinct(rows) && Split(rows)
    ensures TreeIs(rows, d, sha, hash) <==> HashesTo(rows, d, sha, hash)
  {
    hide AllGood, Distinct, Split, ChildrenOf, Sorted, TreeText, DirectoryText, C.AtMost, OrderName, Entries;
    SortedLists(rows, d);
    var s := Sorted(ChildrenOf(rows, d));
    TextIs(ChildrenOf(rows, d));
    if HashesTo(rows, d, sha, hash) {
      var es :| Lists(rows, d, es) && hash(DirectoryText(es)) == sha;
      OneListing(rows, d, es, s);
    }
  }

  lemma {:induction false} SizesAre(rows: seq<Row>)
    ensures Sizes(rows) == BlobBytes(rows)
  {
    if rows != [] {
      SizesCons(rows);
      SizesAre(rows[1..]);
    }
  }

  lemma {:induction false} SizesCons(rows: seq<Row>)
    requires rows != []
    ensures Sizes(rows) == (if rows[0].kind == "blob" && rows[0].size.Some? then rows[0].size.value else 0) + Sizes(rows[1..])
  {
    if |rows| == 1 {
      assert rows[..0] == [] && rows[1..] == [];
    } else {
      var n := |rows| - 1;
      SizesCons(rows[..n]);
      assert rows[..n][1..] == rows[1..][..n - 1] && rows[1..][n - 1] == rows[n];
    }
  }

  lemma {:induction false} ParentsAre(rows: seq<Row>, i: nat)
    requires i < |rows| && rows[i].path != []
    ensures HasParent(rows, rows[i]) <==>
            |rows[i].path| == 1 || exists p :: p in rows && p.kind == "tree" && p.path == rows[i].path[..|rows[i].path| - 1]
  {
    var d := Parent(rows[i].path);
    if IsDirectory(rows, d) { var k :| 0 <= k < |rows| && rows[k].path == d && rows[k].kind == "tree"; assert rows[k] in rows; }
    if p :| p in rows && p.kind == "tree" && p.path == d { DirectoryRow(rows, p); }
  }

  /** Exactly the genuine listings are accepted. */
  lemma {:induction false} AcceptedIsGenuine(rows: seq<Row>, truncated: bool, expected: string, hash: Hash)
    requires Split(rows)
    ensures Accepted(rows, truncated, expected, hash) <==> Genuine(rows, truncated, expected, hash)
  {
    hide GoodRow, Admissible, HashesTo, TreeIs, HasParent, Split, Sizes, BlobBytes;
    SizesAre(rows);
    assert AllGood(rows) <==> forall i :: 0 <= i < |rows| ==> Admissible(rows[i]) by {
      forall i | 0 <= i < |rows| ensures GoodRow(rows[i]) <==> Admissible(rows[i]) { RowIs(rows[i]); }
    }
    if AllGood(rows) && Distinct(rows) {
      forall d, sha ensures TreeIs(rows, d, sha, hash) <==> HashesTo(rows, d, sha, hash) { TreeIsHashes(rows, d, sha, hash); }
      forall i | 0 <= i < |rows|
        ensures rows[i].path != []
        ensures HasParent(rows, rows[i]) <==>
                |rows[i].path| == 1 || exists p :: p in rows && p.kind == "tree" && p.path == rows[i].path[..|rows[i].path| - 1]
      {
        NotTop(rows[i]);
        ParentsAre(rows, i);
      }
    }
  }

  /** The bytes accepted for a file, in Git's own terms. */
  lemma {:induction false} BlobIsGenuine(r: Row, data: string, hash: Hash)
    ensures BlobIs(r, data, hash) <==> r.size == Some(|data|) && hash("blob " + Format(|data|) + ['\0'] + data) == r.sha
  {
  }

  /** The check succeeds exactly on the genuine listings, and returns their files in the order given. */
  method VerifyPackage(rows: seq<Row>, truncated: bool, expected: string, hash: Hash) returns (r: Result<seq<Row>>)
    requires Split(rows)
    ensures r.Success? <==> Genuine(rows, truncated, expected, hash)
    ensures r.Success? ==> forall x :: x in r.value <==> x in rows && x.kind == "blob"
  {
    hide Genuine, Accepted, Blobs;
    r := VerifyTree(rows, truncated, expected, hash);
    AcceptedIsGenuine(rows, truncated, expected, hash);
    BlobsAre(rows);
  }

  lemma {:induction false} BlobsAre(rows: seq<Row>)
    ensures forall x :: x in Blobs(rows) <==> x in rows && x.kind == "blob"
  {
    if rows != [] { BlobsAre(rows[..|rows| - 1]); }
  }
}
