/**
 Checking a recursive Git tree listing against one pinned hash.  Two listings
 accepted for the same pin name the same files with the same modes and blobs,
 or else exhibit two different texts with the same hash.  A path is the list of
 its components; byte strings are strings of the characters 0 to 255.
 */
module GitTree {
  import opened Prelude
  import opened Decimal
  import C = TextOrder

  const MAX_FILES := 1600
  const MAX_FILE_BYTES := 4 * 1024 * 1024
  const MAX_PACKAGE_BYTES := 32 * 1024 * 1024
  const NUL := '\0'

  type Path = seq<string>

  datatype Row = Row(path: Path, sha: string, kind: string, mode: string, size: Option<int>)

  const ROOT: Path := []

  // ---- What one row must be -----------------------------------------------------------

  predicate SafePath(p: Path) {
    p != [] && forall i :: 0 <= i < |p| ==> p[i] !in {"", ".", ".."}
  }

  predicate IsHex(c: char) { '0' <= c <= '9' || 'a' <= c <= 'f' }

  predicate IsSha(s: string) { |s| == 40 && forall i :: 0 <= i < |s| ==> IsHex(s[i]) }

  predicate Supported(row: Row) {
    (row.kind == "tree" && row.mode == "040000") || (row.kind == "blob" && row.mode in {"100644", "100755"})
  }

  predicate IsBlob(row: Row) { row.kind == "blob" }

  predicate Bounded(row: Row) { IsBlob(row) ==> row.size.Some? && 0 <= row.size.value <= MAX_FILE_BYTES }

  predicate GoodRow(row: Row) { SafePath(row.path) && IsSha(row.sha) && Supported(row) && Bounded(row) }

  function Parent(p: Path): Path
    requires p != []
  {
    p[..|p| - 1]
  }

  function Base(p: Path): string
    requires p != []
  {
    p[|p| - 1]
  }

  function Sizes(rows: seq<Row>): int {
    if rows == [] then 0
    else
      var r := rows[|rows| - 1];
      Sizes(rows[..|rows| - 1]) + if IsBlob(r) && r.size.Some? then r.size.value else 0
  }

  predicate Distinct(rows: seq<Row>) {
    forall i, j :: 0 <= i < j < |rows| ==> rows[i].path != rows[j].path
  }

  /** A tree row stands for the directory. */
  predicate IsDirectory(rows: seq<Row>, p: Path) {
    exists i :: 0 <= i < |rows| && rows[i].path == p && rows[i].kind == "tree"
  }

  function ChildrenOf(rows: seq<Row>, d: Path): seq<Row> {
    if rows == [] then []
    else
      var r := rows[|rows| - 1];
      ChildrenOf(rows[..|rows| - 1], d) + if r.path != [] && Parent(r.path) == d then [r] else []
  }

  // ---- The text of a tree ----------------------------------------------------------------

  function HexValue(c: char): (n: nat)
    requires IsHex(c)
    ensures n < 16
  {
    if c <= '9' then c as int - '0' as int else 10 + (c as int - 'a' as int)
  }

  function FromHex(s: string): string
    requires forall i :: 0 <= i < |s| ==> IsHex(s[i])
  {
    if |s| < 2 then [] else [(16 * HexValue(s[0]) + HexValue(s[1])) as char] + FromHex(s[2..])
  }

  function StripZeros(s: string): string {
    if s != [] && s[0] == '0' then StripZeros(s[1..]) else s
  }

  function Entry(row: Row): string
    requires GoodRow(row)
  {
    StripZeros(row.mode) + " " + Base(row.path) + [NUL] + FromHex(row.sha)
  }

  /** Directories sort as if their names ended in a slash. */
  function SortKey(row: Row): string
    requires row.path != []
  {
    Base(row.path) + if row.kind == "tree" then "/" else ""
  }

  predicate AllGood(rows: seq<Row>) { forall i :: 0 <= i < |rows| ==> GoodRow(rows[i]) }

  function Insert(x: Row, s: seq<Row>): seq<Row>
    requires GoodRow(x) && AllGood(s)
  {
    if s == [] || !C.AtMost(SortKey(s[0]), SortKey(x)) then [x] + s else [s[0]] + Insert(x, s[1..])
  }

  lemma {:induction false} InsertContents(x: Row, s: seq<Row>)
    requires GoodRow(x) && AllGood(s)
    ensures AllGood(Insert(x, s)) && multiset(Insert(x, s)) == multiset(s) + multiset{x}
  {
    hide IsSha, Supported, Bounded;
    if s != [] && C.AtMost(SortKey(s[0]), SortKey(x)) {
      InsertContents(x, s[1..]);
      assert s == [s[0]] + s[1..];
    }
  }

  function Sorted(s: seq<Row>): (r: seq<Row>)
    requires AllGood(s)
    ensures AllGood(r) && multiset(r) == multiset(s)
  {
    if s == [] then []
    else
      var n := |s| - 1;
      assert s == s[..n] + [s[n]];
      InsertContents(s[n], Sorted(s[..n]));
      Insert(s[n], Sorted(s[..n]))
  }

  function Body(rows: seq<Row>): string
    requires AllGood(rows)
  {
    if rows == [] then [] else Entry(rows[0]) + Body(rows[1..])
  }

  function TreeText(rows: seq<Row>): string
    requires AllGood(rows)
  {
    var body := Body(Sorted(rows));
    "tree " + Digits(|body|) + [NUL] + body
  }

  // ---- Acceptance ----------------------------------------------------------------------------

  type Hash = string -> string

  lemma {:induction false} ChildrenGood(rows: seq<Row>, d: Path)
    requires AllGood(rows)
    ensures AllGood(ChildrenOf(rows, d))
    ensures forall r :: r in ChildrenOf(rows, d) <==> r in rows && Parent(r.path) == d
  {
    if rows != [] {
      var n := |rows| - 1;
      ChildrenGood(rows[..n], d);
      assert rows == rows[..n] + [rows[n]];
    }
  }

  /** The tree of directory `d` hashes to `sha`. */
  ghost predicate TreeIs(rows: seq<Row>, d: Path, sha: string, hash: Hash)
    requires AllGood(rows)
  {
    ChildrenGood(rows, d);
    hash(TreeText(ChildrenOf(rows, d))) == sha
  }

  ghost predicate HasParent(rows: seq<Row>, row: Row)
    requires row.path != []
  {
    Parent(row.path) == ROOT || IsDirectory(rows, Parent(row.path))
  }

  ghost predicate Accepted(rows: seq<Row>, truncated: bool, expected: string, hash: Hash) {
    && !truncated && 0 < |rows| <= MAX_FILES && AllGood(rows) && Distinct(rows) && Sizes(rows) <= MAX_PACKAGE_BYTES
    && (forall i :: 0 <= i < |rows| ==> HasParent(rows, rows[i]))
    && TreeIs(rows, ROOT, expected, hash)
    && (forall i :: 0 <= i < |rows| && rows[i].kind == "tree" ==> TreeIs(rows, rows[i].path, rows[i].sha, hash))
  }

  // ---- Reading entries back ------------------------------------------------------------------

  /** The first place of a character, splitting a text in two. */
  lemma {:induction false} SplitAt(a: string, b: string, a': string, b': string, c: char)
    requires c !in a && c !in a' && a + [c] + b == a' + [c] + b'
    ensures a == a' && b == b'
  {
    var s, s' := a + [c] + b, a' + [c] + b';
    assert s[|a|] == c && s'[|a'|] == c;
    assert |a| == |a'| by {
      assert forall i :: 0 <= i < |a| ==> s[i] == a[i] && a[i] in a;
      assert forall i :: 0 <= i < |a'| ==> s'[i] == a'[i] && a'[i] in a';
    }
    assert a == s[..|a|] == s'[..|a|] == a' && b == s[|a| + 1..] == s'[|a| + 1..] == b';
  }

  lemma {:induction false} HexInjective(s: string, t: string)
    requires |s| == |t| && |s| % 2 == 0 && (forall i :: 0 <= i < |s| ==> IsHex(s[i]) && IsHex(t[i]))
    requires FromHex(s) == FromHex(t)
    ensures s == t
  {
    if s != [] {
      var x, y := 16 * HexValue(s[0]) + HexValue(s[1]), 16 * HexValue(t[0]) + HexValue(t[1]);
      assert FromHex(s)[0] == x as char && FromHex(t)[0] == y as char;
      assert FromHex(s)[1..] == FromHex(s[2..]) && FromHex(t)[1..] == FromHex(t[2..]);
      assert x == y;
      HexInjective(s[2..], t[2..]);
      assert s == [s[0], s[1]] + s[2..] && t == [t[0], t[1]] + t[2..];
    }
  }

  lemma {:induction false} HexLength(s: string)
    requires |s| % 2 == 0 && forall i :: 0 <= i < |s| ==> IsHex(s[i])
    ensures |FromHex(s)| == |s| / 2
  {
    if s != [] { HexLength(s[2..]); }
  }

  lemma {:induction false} ModeText(row: Row)
    requires Supported(row)
    ensures ' ' !in StripZeros(row.mode) && NUL !in StripZeros(row.mode)
    ensures StripZeros(row.mode) == if row.mode == "040000" then "40000" else row.mode
  {
    if row.mode == "040000" {
      assert "040000"[1..] == "40000";
      assert StripZeros("40000") == "40000";
    } else {
      assert StripZeros(row.mode) == row.mode;
    }
  }

  predicate NulFree(row: Row) { row.path != [] && NUL !in Base(row.path) }

  /** One entry and what follows are read back uniquely. */
  lemma {:induction false} EntryInjective(r: Row, rest: string, r': Row, rest': string)
    requires GoodRow(r) && GoodRow(r') && NulFree(r) && NulFree(r') && Entry(r) + rest == Entry(r') + rest'
    ensures Base(r.path) == Base(r'.path) && r.mode == r'.mode && r.kind == r'.kind && r.sha == r'.sha && rest == rest'
  {
    hide StripZeros, FromHex, GoodRow, NulFree, IsSha;
    GoodParts(r);
    GoodParts(r');
    ModeText(r);
    ModeText(r');
    EntryParts(r, rest);
    EntryParts(r', rest');
    var m, m', n, n', h, h' := StripZeros(r.mode), StripZeros(r'.mode), Base(r.path), Base(r'.path), FromHex(r.sha), FromHex(r'.sha);
    SplitAt(m, n + [NUL] + (h + rest), m', n' + [NUL] + (h' + rest'), ' ');
    NulFreeParts(r);
    NulFreeParts(r');
    SplitAt(n, h + rest, n', h' + rest', NUL);
    ShaFirst(r.sha, rest, r'.sha, rest');
  }

  lemma {:induction false} GoodParts(r: Row)
    requires GoodRow(r)
    ensures r.path != [] && IsSha(r.sha) && Supported(r)
    ensures |r.sha| % 2 == 0 && forall i :: 0 <= i < |r.sha| ==> IsHex(r.sha[i])
  {
  }

  lemma {:induction false} NulFreeParts(r: Row)
    requires NulFree(r)
    ensures r.path != [] && NUL !in Base(r.path)
  {
  }

  lemma {:induction false} EntryParts(r: Row, rest: string)
    requires GoodRow(r)
    ensures Entry(r) + rest == StripZeros(r.mode) + [' '] + (Base(r.path) + [NUL] + (FromHex(r.sha) + rest))
  {
    hide StripZeros, FromHex;
  }

  /** An identity at the start of a text is read by its length. */
  lemma {:induction false} ShaFirst(s: string, rest: string, s': string, rest': string)
    requires IsSha(s) && IsSha(s') && FromHex(s) + rest == FromHex(s') + rest'
    ensures s == s' && rest == rest'
  {
    hide FromHex;
    HexLength(s);
    HexLength(s');
    var h, h' := FromHex(s), FromHex(s');
    assert h == (h + rest)[..20] && h' == (h' + rest')[..20] && rest == (h + rest)[20..] && rest' == (h' + rest')[20..];
    HexInjective(s, s');
  }

  /** The same entry, apart from the directory it is in. */
  predicate Matches(r: Row, r': Row) {
    r.path != [] && r'.path != [] && Base(r.path) == Base(r'.path) && r.mode == r'.mode && r.kind == r'.kind && r.sha == r'.sha
  }

  lemma {:induction false} EntryNotEmpty(r: Row)
    requires GoodRow(r)
    ensures Entry(r) != []
  {
    hide StripZeros, FromHex, IsSha;
  }

  /** A tree's body determines its entries. */
  lemma {:induction false} BodyInjective(a: seq<Row>, b: seq<Row>)
    requires AllGood(a) && AllGood(b) && Body(a) == Body(b)
    requires (forall i :: 0 <= i < |a| ==> NulFree(a[i])) && (forall i :: 0 <= i < |b| ==> NulFree(b[i]))
    ensures |a| == |b| && forall i :: 0 <= i < |a| ==> Matches(a[i], b[i])
  {
    hide GoodRow, Entry, NulFree, Matches;
    if a != [] { EntryNotEmpty(a[0]); }
    if b != [] { EntryNotEmpty(b[0]); }
    if a != [] && b != [] {
      EntryInjective(a[0], Body(a[1..]), b[0], Body(b[1..]));
      BodyInjective(a[1..], b[1..]);
      MatchesParts(a[0], b[0]);
      forall i | 0 <= i < |a| ensures Matches(a[i], b[i]) {
        if i > 0 { assert a[i] == a[1..][i - 1] && b[i] == b[1..][i - 1]; }
      }
    }
  }

  lemma {:induction false} MatchesParts(r: Row, r': Row)
    requires GoodRow(r) && GoodRow(r')
    requires Base(r.path) == Base(r'.path) && r.mode == r'.mode && r.kind == r'.kind && r.sha == r'.sha
    ensures Matches(r, r')
  {
  }

  lemma {:induction false} DigitsPlain(n: nat)
    ensures NUL !in Digits(n)
  {
    ReadsBack(n);
  }

  /** A tree's text determines its body. */
  lemma {:induction false} TextInjective(a: seq<Row>, b: seq<Row>)
    requires AllGood(a) && AllGood(b) && TreeText(a) == TreeText(b)
    ensures Body(Sorted(a)) == Body(Sorted(b))
  {
    hide Body, Sorted, Digits, AllGood;
    var x, y := Body(Sorted(a)), Body(Sorted(b));
    DigitsPlain(|x|);
    DigitsPlain(|y|);
    assert NUL !in "tree ";
    SplitAt("tree " + Digits(|x|), x, "tree " + Digits(|y|), y, NUL);
  }

  /** Equal texts of a directory: each row of one has its match in the other. */
  lemma {:induction false} SameEntries(a: seq<Row>, b: seq<Row>, r: Row) returns (r': Row)
    requires AllGood(a) && AllGood(b) && TreeText(a) == TreeText(b) && r in a
    requires (forall x :: x in a ==> NulFree(x)) && (forall x :: x in b ==> NulFree(x))
    ensures r' in b && Matches(r, r')
  {
    hide Body, Insert, TreeText, GoodRow, NulFree, Matches;
    TextInjective(a, b);
    var s, t := Sorted(a), Sorted(b);
    forall i | 0 <= i < |s| ensures NulFree(s[i]) { assert s[i] in multiset(a); }
    forall i | 0 <= i < |t| ensures NulFree(t[i]) { assert t[i] in multiset(b); }
    BodyInjective(s, t);
    assert r in multiset(s);
    var i :| 0 <= i < |s| && s[i] == r;
    r' := t[i];
    assert r' in multiset(b);
  }

  // ---- The pin determines the files ----------------------------------------------------------

  /** A directory of both listings whose two texts differ and hash alike. */
  ghost predicate ClashAt(a: seq<Row>, b: seq<Row>, d: Path, hash: Hash)
    requires AllGood(a) && AllGood(b)
  {
    ChildrenGood(a, d);
    ChildrenGood(b, d);
    && (d == ROOT || (IsDirectory(a, d) && IsDirectory(b, d)))
    && TreeText(ChildrenOf(a, d)) != TreeText(ChildrenOf(b, d))
    && hash(TreeText(ChildrenOf(a, d))) == hash(TreeText(ChildrenOf(b, d)))
  }

  /** The two listings themselves exhibit a collision of the hash. */
  ghost predicate Clash(a: seq<Row>, b: seq<Row>, hash: Hash) {
    AllGood(a) && AllGood(b) && exists d :: ClashAt(a, b, d, hash)
  }

  ghost predicate AllNulFree(rows: seq<Row>) { forall r :: r in rows ==> NulFree(r) }

  /** The same file or directory: path, kind, mode and identity. */
  predicate Same(r: Row, r': Row) { r.path == r'.path && r.kind == r'.kind && r.mode == r'.mode && r.sha == r'.sha }

  lemma {:induction false} DirectoryTexts(a: seq<Row>, b: seq<Row>, d: Path, sha: string, hash: Hash)
    requires AllGood(a) && AllGood(b) && TreeIs(a, d, sha, hash) && TreeIs(b, d, sha, hash) && !Clash(a, b, hash)
    requires d == ROOT || (IsDirectory(a, d) && IsDirectory(b, d))
    ensures AllGood(ChildrenOf(a, d)) && AllGood(ChildrenOf(b, d))
    ensures TreeText(ChildrenOf(a, d)) == TreeText(ChildrenOf(b, d))
  {
    hide AllGood, ChildrenOf, TreeText, IsDirectory;
    ChildrenGood(a, d);
    ChildrenGood(b, d);
    assert !ClashAt(a, b, d, hash);
  }

  lemma {:induction false} FindRow(rows: seq<Row>, p: Path) returns (r: Row)
    requires IsDirectory(rows, p)
    ensures r in rows && r.path == p && r.kind == "tree"
  {
    var i :| 0 <= i < |rows| && rows[i].path == p && rows[i].kind == "tree";
    r := rows[i];
  }

  lemma {:induction false} AcceptedParts(rows: seq<Row>, truncated: bool, expected: string, hash: Hash, r: Row)
    requires Accepted(rows, truncated, expected, hash) && r in rows
    ensures AllGood(rows) && GoodRow(r) && HasParent(rows, r) && TreeIs(rows, ROOT, expected, hash)
    ensures r.kind == "tree" ==> TreeIs(rows, r.path, r.sha, hash)
  {
    hide TreeIs, HasParent, GoodRow, Sizes, Distinct;
    var i :| 0 <= i < |rows| && rows[i] == r;
  }

  /** Every row of one accepted listing has its equal in any other accepted for the same pin, or the two collide. */
  lemma {:induction false} PinDeterminesRow(a: seq<Row>, ta: bool, b: seq<Row>, tb: bool, expected: string, hash: Hash, r: Row)
    requires Accepted(a, ta, expected, hash) && Accepted(b, tb, expected, hash) && AllNulFree(a) && AllNulFree(b) && r in a
    ensures Clash(a, b, hash) || exists r' :: r' in b && Same(r, r')
  {
    hide Accepted, Clash, AllNulFree, Same;
    if !Clash(a, b, hash) {
      var r' := RowElsewhere(a, ta, b, tb, expected, hash, r);
    }
  }

  lemma {:induction false} DirectoryRow(rows: seq<Row>, r: Row)
    requires r in rows && r.kind == "tree"
    ensures IsDirectory(rows, r.path)
  {
    var i :| 0 <= i < |rows| && rows[i] == r;
  }

  lemma {:induction false} RowElsewhere(a: seq<Row>, ta: bool, b: seq<Row>, tb: bool, expected: string, hash: Hash, r: Row) returns (r': Row)
    requires Accepted(a, ta, expected, hash) && Accepted(b, tb, expected, hash) && AllNulFree(a) && AllNulFree(b)
    requires !Clash(a, b, hash) && r in a
    ensures r' in b && Same(r, r')
    decreases |r.path|
  {
    hide Accepted, TreeIs, HasParent, Clash, GoodRow, IsDirectory, ChildrenOf, TreeText, AllNulFree;
    AcceptedParts(a, ta, expected, hash, r);
    GoodPath(r);
    var d := Parent(r.path);
    var sha := expected;
    assert b != [] by { NotEmpty(b, tb, expected, hash); }
    AcceptedParts(b, tb, expected, hash, b[0]);
    if d != ROOT {
      ParentRow(a, r);
      var p := FindRow(a, d);
      var p' := RowElsewhere(a, ta, b, tb, expected, hash, p);
      AcceptedParts(a, ta, expected, hash, p);
      AcceptedParts(b, tb, expected, hash, p');
      DirectoryRow(a, p);
      DirectoryRow(b, p');
      sha := p.sha;
    }
    DirectoryTexts(a, b, d, sha, hash);
    ChildrenGood(a, d);
    ChildrenGood(b, d);
    NulFreeChildren(a, d);
    NulFreeChildren(b, d);
    r' := SameEntries(ChildrenOf(a, d), ChildrenOf(b, d), r);
    assert r.path == d + [Base(r.path)];
    assert r'.path == d + [Base(r'.path)];
  }

  lemma {:induction false} GoodPath(r: Row)
    requires GoodRow(r)
    ensures r.path != []
  {
  }

  lemma {:induction false} NotEmpty(b: seq<Row>, tb: bool, expected: string, hash: Hash)
    requires Accepted(b, tb, expected, hash)
    ensures b != []
  {
  }

  lemma {:induction false} ParentRow(a: seq<Row>, r: Row)
    requires r.path != [] && HasParent(a, r) && Parent(r.path) != ROOT
    ensures IsDirectory(a, Parent(r.path))
  {
  }

  lemma {:induction false} NulFreeChildren(rows: seq<Row>, d: Path)
    requires AllGood(rows) && AllNulFree(rows)
    ensures forall x :: x in ChildrenOf(rows, d) ==> NulFree(x)
  {
    hide GoodRow, NulFree, ChildrenOf;
    ChildrenGood(rows, d);
  }

  datatype File = File(path: Path, mode: string, sha: string)

  function Files(rows: seq<Row>): set<File> {
    set r | r in rows && IsBlob(r) :: File(r.path, r.mode, r.sha)
  }

  /** The pin determines the set of files, their modes and their identities. */
  lemma {:induction false} PinDeterminesFiles(a: seq<Row>, ta: bool, b: seq<Row>, tb: bool, expected: string, hash: Hash)
    requires Accepted(a, ta, expected, hash) && Accepted(b, tb, expected, hash) && AllNulFree(a) && AllNulFree(b)
    ensures Files(a) == Files(b) || Clash(a, b, hash)
  {
    hide Accepted, Clash, AllNulFree;
    if !Clash(a, b, hash) {
      if Clash(b, a, hash) { ClashBack(b, a, hash); }
      FilesWithin(a, ta, b, tb, expected, hash);
      FilesWithin(b, tb, a, ta, expected, hash);
    }
  }

  lemma {:induction false} ClashBack(a: seq<Row>, b: seq<Row>, hash: Hash)
    requires Clash(a, b, hash)
    ensures Clash(b, a, hash)
  {
    hide AllGood, ChildrenOf, TreeText, IsDirectory;
    var d :| ClashAt(a, b, d, hash);
    assert ClashAt(b, a, d, hash);
  }

  lemma {:induction false} FilesWithin(a: seq<Row>, ta: bool, b: seq<Row>, tb: bool, expected: string, hash: Hash)
    requires Accepted(a, ta, expected, hash) && Accepted(b, tb, expected, hash) && AllNulFree(a) && AllNulFree(b) && !Clash(a, b, hash)
    ensures Files(a) <= Files(b)
  {
    hide Accepted, Clash, AllNulFree;
    forall f | f in Files(a) ensures f in Files(b) {
      var r :| r in a && IsBlob(r) && f == File(r.path, r.mode, r.sha);
      var r' := RowElsewhere(a, ta, b, tb, expected, hash, r);
    }
  }

  // ---- Acquired bytes ----------------------------------------------------------------------------

  function BlobText(data: string): string { "blob " + Digits(|data|) + [NUL] + data }

  predicate BlobIs(row: Row, data: string, hash: Hash) {
    row.size == Some(|data|) && hash(BlobText(data)) == row.sha
  }

  /** Two contents whose blob texts differ and hash alike. */
  predicate BlobClash(data: string, data': string, hash: Hash) {
    BlobText(data) != BlobText(data') && hash(BlobText(data)) == hash(BlobText(data'))
  }

  /** Bytes accepted for one blob identity are one content, or their two texts collide. */
  lemma {:induction false} PinDeterminesBytes(r: Row, data: string, r': Row, data': string, hash: Hash)
    requires r.sha == r'.sha && BlobIs(r, data, hash) && BlobIs(r', data', hash)
    ensures data == data' || BlobClash(data, data', hash)
  {
    hide Digits;
    DigitsPlain(|data|);
    DigitsPlain(|data'|);
    if BlobText(data) == BlobText(data') {
      assert NUL !in "blob ";
      SplitAt("blob " + Digits(|data|), data, "blob " + Digits(|data'|), data', NUL);
    }
  }

  /** What an acquisition writes: the bytes of every blob, each checked against its row. */
  ghost predicate Acquired(rows: seq<Row>, files: map<Path, string>, hash: Hash) {
    && (forall r :: r in rows && IsBlob(r) ==> r.path in files && BlobIs(r, files[r.path], hash))
    && (forall p :: p in files ==> exists r :: r in rows && IsBlob(r) && r.path == p)
  }

  /** Two acquisitions for one pin write the same bytes to the same paths, or exhibit a collision themselves. */
  lemma {:induction false} AcquisitionsAgree(a: seq<Row>, ta: bool, fa: map<Path, string>, b: seq<Row>, tb: bool, fb: map<Path, string>,
                                             expected: string, hash: Hash)
    requires Accepted(a, ta, expected, hash) && Accepted(b, tb, expected, hash) && AllNulFree(a) && AllNulFree(b)
    requires Acquired(a, fa, hash) && Acquired(b, fb, hash)
    ensures fa == fb || Clash(a, b, hash) || exists p :: p in fa && p in fb && BlobClash(fa[p], fb[p], hash)
  {
    hide Accepted, Clash, AllNulFree, BlobIs, BlobClash;
    if !Clash(a, b, hash) && !(exists p :: p in fa && p in fb && BlobClash(fa[p], fb[p], hash)) {
      if Clash(b, a, hash) { ClashBack(b, a, hash); }
      forall p | p in fa ensures p in fb && fa[p] == fb[p] {
        var r :| r in a && IsBlob(r) && r.path == p;
        var r' := RowElsewhere(a, ta, b, tb, expected, hash, r);
        PinDeterminesBytes(r, fa[p], r', fb[p], hash);
      }
      forall p | p in fb ensures p in fa {
        var r :| r in b && IsBlob(r) && r.path == p;
        var r' := RowElsewhere(b, tb, a, ta, expected, hash, r);
      }
    }
  }

  // ---- Names with a zero byte ---------------------------------------------------------------------

  /** One entry whose name holds a zero byte and what follows it in the body reads as two. */
  lemma {:induction false} NulJoinsEntries(x: Row, y: Row, z: Row)
    requires GoodRow(x) && GoodRow(y) && GoodRow(z) && x.mode == z.mode && y.sha == z.sha
    requires Base(z.path) == Base(x.path) + [NUL] + FromHex(x.sha) + StripZeros(y.mode) + " " + Base(y.path)
    ensures Body([x, y]) == Body([z])
  {
    hide StripZeros, FromHex, Supported, Bounded;
    assert [x, y][1..] == [y] && [y][1..] == [] && [z][1..] == [];
    var m, n, h, k := StripZeros(x.mode), Base(x.path), FromHex(x.sha), StripZeros(y.mode) + " " + Base(y.path);
    assert Body([y]) == Entry(y) && Body([z]) == Entry(z);
    assert Entry(z) == m + " " + (n + [NUL] + h + k) + [NUL] + FromHex(z.sha);
    assert Entry(x) + Entry(y) == m + " " + n + [NUL] + h + (k + [NUL] + FromHex(y.sha));
  }

  const SHA := "6161616161" + "6161616161" + "6161616161" + "6161616161"

  lemma {:induction false} ShaIsSha()
    ensures IsSha(SHA)
  {
    var t := "6161616161";
    assert forall i :: 0 <= i < |t| ==> IsHex(t[i]);
    forall i | 0 <= i < |SHA| ensures IsHex(SHA[i]) { assert SHA[i] == t[i % 10]; }
  }

  function Plain(name: string): Row { Row([name], SHA, "blob", "100644", Some(0)) }

  function LongName(): string
    requires IsSha(SHA)
  {
    "a" + [NUL] + FromHex(SHA) + StripZeros("100644") + " " + "b"
  }

  lemma {:induction false} PlainIsGood(name: string)
    requires name !in {"", ".", ".."}
    ensures GoodRow(Plain(name))
  {
    hide SHA;
    ShaIsSha();
  }

  lemma {:induction false} FlatListing(rows: seq<Row>, hash: Hash)
    requires AllGood(rows) && 0 < |rows| <= 2 && Distinct(rows)
    requires forall i :: 0 <= i < |rows| ==> |rows[i].path| == 1 && rows[i].kind == "blob" && rows[i].size == Some(0)
    ensures Accepted(rows, false, hash(TreeText(rows)), hash)
  {
    hide TreeText, GoodRow, IsBlob, Distinct;
    FlatChildren(rows);
    FlatSizes(rows);
    forall i | 0 <= i < |rows| ensures HasParent(rows, rows[i]) { assert rows[i].path[..0] == []; }
  }

  lemma {:induction false} FlatChildren(rows: seq<Row>)
    requires forall i :: 0 <= i < |rows| ==> |rows[i].path| == 1
    ensures ChildrenOf(rows, ROOT) == rows
  {
    if rows != [] {
      var n := |rows| - 1;
      FlatChildren(rows[..n]);
      assert rows[n].path[..0] == [] && rows == rows[..n] + [rows[n]];
    }
  }

  lemma {:induction false} FlatSizes(rows: seq<Row>)
    requires forall i :: 0 <= i < |rows| ==> rows[i].size == Some(0)
    ensures Sizes(rows) == 0
  {
    hide IsBlob;
    if rows != [] { FlatSizes(rows[..|rows| - 1]); }
  }

  lemma {:induction false} SortedTwo(x: Row, y: Row)
    requires GoodRow(x) && GoodRow(y) && C.AtMost(SortKey(x), SortKey(y))
    ensures Sorted([x, y]) == [x, y]
  {
    hide GoodRow, C.AtMost;
    SortedOne(x);
    assert [x, y][..1] == [x];
    assert AllGood([x]) && [x][1..] == [] && AllGood([]);
    assert Insert(y, []) == [y];
  }

  lemma {:induction false} SortedOne(x: Row)
    requires GoodRow(x)
    ensures Sorted([x]) == [x]
  {
    hide GoodRow;
    assert [x][..0] == [] && AllGood([]);
    assert Sorted([]) == [];
  }

  /**
   For every hash, two listings are accepted for one pin and name different files: one file with a zero byte in its
   name, or two without.
   */
  lemma {:induction false} NulListings(hash: Hash)
    ensures IsSha(SHA)
    ensures
      var a, b := [Plain("a"), Plain("b")], [Plain(LongName())];
      && AllGood(a) && Accepted(a, false, hash(TreeText(a)), hash) && Accepted(b, false, hash(TreeText(a)), hash)
      && Files(a) != Files(b) && AllNulFree(a) && !AllNulFree(b)
  {
    hide SHA, GoodRow, Accepted, TreeText, FromHex, StripZeros, SortKey;
    ShaIsSha();
    var x, y, z := Plain("a"), Plain("b"), Plain(LongName());
    var a, b := [x, y], [z];
    assert LongName()[1] == NUL && |LongName()| >= 4;
    PlainIsGood("a");
    PlainIsGood("b");
    PlainIsGood(LongName());
    SameTexts(x, y, z);
    FlatListing(a, hash);
    FlatListing(b, hash);
    assert File(["a"], "100644", SHA) in Files(a) by { assert x in a && IsBlob(x); }
    assert File(["a"], "100644", SHA) !in Files(b) by { assert z.path[0] != "a"; }
    assert NUL in LongName() && z in b;
    assert NUL !in "a" && NUL !in "b";
  }

  lemma {:induction false} SameTexts(x: Row, y: Row, z: Row)
    requires IsSha(SHA) && GoodRow(x) && GoodRow(y) && GoodRow(z)
    requires x == Plain("a") && y == Plain("b") && z == Plain(LongName())
    ensures AllGood([x, y]) && AllGood([z]) && TreeText([x, y]) == TreeText([z])
  {
    hide SHA, GoodRow, FromHex, StripZeros, Body;
    assert SortKey(x) == "a" && SortKey(y) == "b";
    assert C.AtMost("a", "b");
    SortedTwo(x, y);
    SortedOne(z);
    NulJoinsEntries(x, y, z);
  }

  // ---- The check -----------------------------------------------------------------------------------

  /** The rows as a dictionary by path, or `None` at the first unsuitable row. */
  method CollectEntries(rows: seq<Row>) returns (entries: Option<map<Path, Row>>, total: int)
    ensures entries.Some? <==> AllGood(rows) && Distinct(rows)
    ensures entries.Some? ==> IsIndex(rows, entries.value) && total == Sizes(rows)
  {
    hide GoodRow, IsBlob, AllGood, Distinct, IsIndex, Sizes;
    var found: map<Path, Row> := map[];
    total := 0;
    IndexNothing();
    for i := 0 to |rows|
      invariant AllGood(rows[..i]) && Distinct(rows[..i]) && IsIndex(rows[..i], found) && total == Sizes(rows[..i])
    {
      var row := rows[i];
      assert rows[..i + 1] == rows[..i] + [row];
      var good := CheckRow(row);
      if !good {
        BadRow(rows, i);
        return None, total;
      }
      if row.path in found {
        Repeated(rows, i, found);
        return None, total;
      }
      IndexSnoc(rows[..i], row, found);
      if IsBlob(row) && row.size.Some? {
        total := total + row.size.value;
      }
      SizesSnoc(rows[..i], row);
      found := found[row.path := row];
    }
    assert rows[..|rows|] == rows;
    entries := Some(found);
  }

  method CheckRow(row: Row) returns (good: bool)
    ensures good <==> GoodRow(row)
  {
    if row.path == [] {
      return false;
    }
    for i := 0 to |row.path|
      invariant forall j :: 0 <= j < i ==> row.path[j] !in {"", ".", ".."}
    {
      if row.path[i] in {"", ".", ".."} {
        return false;
      }
    }
    good := IsSha(row.sha) && Supported(row) && Bounded(row);
  }

  ghost predicate IsIndex(rows: seq<Row>, entries: map<Path, Row>) {
    && (forall i :: 0 <= i < |rows| ==> rows[i].path in entries && entries[rows[i].path] == rows[i])
    && (forall p :: p in entries ==> exists i :: 0 <= i < |rows| && rows[i].path == p)
  }

  lemma {:induction false} IndexNothing()
    ensures AllGood([]) && Distinct([]) && IsIndex([], map[]) && Sizes([]) == 0
  {
  }

  lemma {:induction false} SizesSnoc(rows: seq<Row>, row: Row)
    ensures Sizes(rows + [row]) == Sizes(rows) + if IsBlob(row) && row.size.Some? then row.size.value else 0
  {
    assert (rows + [row])[..|rows|] == rows;
  }

  lemma {:induction false} BadRow(rows: seq<Row>, i: nat)
    requires i < |rows| && !GoodRow(rows[i])
    ensures !AllGood(rows)
  {
    hide GoodRow;
  }

  lemma {:induction false} Repeated(rows: seq<Row>, i: nat, entries: map<Path, Row>)
    requires i < |rows| && IsIndex(rows[..i], entries) && rows[i].path in entries
    ensures !Distinct(rows)
  {
    var j :| 0 <= j < i && rows[..i][j].path == rows[i].path;
    assert rows[j].path == rows[i].path;
  }

  lemma {:induction false} IndexSnoc(rows: seq<Row>, row: Row, entries: map<Path, Row>)
    requires AllGood(rows) && GoodRow(row) && Distinct(rows) && IsIndex(rows, entries) && row.path !in entries
    ensures AllGood(rows + [row]) && Distinct(rows + [row]) && IsIndex(rows + [row], entries[row.path := row])
  {
    hide GoodRow;
    var all := rows + [row];
    assert all[|rows|] == row && forall i :: 0 <= i < |rows| ==> all[i] == rows[i];
    var next := entries[row.path := row];
    forall p | p in next ensures exists i :: 0 <= i < |all| && all[i].path == p {
      if p == row.path {
        assert all[|rows|].path == p;
      } else {
        var i :| 0 <= i < |rows| && rows[i].path == p;
        assert all[i].path == p;
      }
    }
  }

  /** The dictionary of directories: the root, and every tree row, with their rows. */
  ghost predicate IsChildren(rows: seq<Row>, children: map<Path, seq<Row>>) {
    && ROOT in children
    && (forall i :: 0 <= i < |rows| ==> rows[i].path != [] && Parent(rows[i].path) in children)
    && (forall i :: 0 <= i < |rows| && rows[i].kind == "tree" ==> rows[i].path in children)
    && (forall d :: d in children ==> children[d] == ChildrenOf(rows, d))
    && (forall d :: d in children && d != ROOT ==> DirectoryOf(rows, d))
  }

  /** Mentioned as a parent or listed as a tree. */
  ghost predicate DirectoryOf(rows: seq<Row>, d: Path) {
    exists i :: 0 <= i < |rows| && rows[i].path != [] && (Parent(rows[i].path) == d || (rows[i].path == d && rows[i].kind == "tree"))
  }

  lemma {:induction false} ChildrenSnoc(rows: seq<Row>, row: Row, d: Path)
    requires row.path != []
    ensures ChildrenOf(rows + [row], d) == ChildrenOf(rows, d) + if Parent(row.path) == d then [row] else []
  {
    assert (rows + [row])[..|rows|] == rows;
  }

  lemma {:induction false} NoChildren(rows: seq<Row>, d: Path)
    requires forall i :: 0 <= i < |rows| ==> rows[i].path != [] && Parent(rows[i].path) != d
    ensures ChildrenOf(rows, d) == []
  {
    if rows != [] { NoChildren(rows[..|rows| - 1], d); }
  }

  /** One row filed under its parent. */
  lemma {:induction false} FileRow(rows: seq<Row>, row: Row, children: map<Path, seq<Row>>, next: map<Path, seq<Row>>)
    requires IsChildren(rows, children) && row.path != []
    requires
      var p := Parent(row.path);
      var mid := children[p := (if p in children then children[p] else []) + [row]];
      next == if row.kind == "tree" && row.path !in mid then mid[row.path := []] else mid
    ensures IsChildren(rows + [row], next)
  {
    hide ChildrenOf;
    var all, p := rows + [row], Parent(row.path);
    assert all[|rows|] == row && forall i :: 0 <= i < |rows| ==> all[i] == rows[i];
    forall d | d in next ensures next[d] == ChildrenOf(all, d) && (d != ROOT ==> DirectoryOf(all, d)) {
      ChildrenSnoc(rows, row, d);
      if d !in children { NoChildren(rows, d); }
      if d in children && d != ROOT {
        var i :| 0 <= i < |rows| && rows[i].path != [] && (Parent(rows[i].path) == d || (rows[i].path == d && rows[i].kind == "tree"));
        assert all[i] == rows[i];
      }
      assert Parent(row.path) != row.path;
    }
  }

  method FileRows(rows: seq<Row>, entries: map<Path, Row>) returns (children: Option<map<Path, seq<Row>>>)
    requires AllGood(rows) && IsIndex(rows, entries) && Distinct(rows)
    ensures children.Some? <==> forall i :: 0 <= i < |rows| ==> HasParent(rows, rows[i])
    ensures children.Some? ==> IsChildren(rows, children.value)
  {
    hide ChildrenOf, IsSha, Supported, Bounded, IsChildren, HasParent;
    var filed: map<Path, seq<Row>> := map[ROOT := []];
    FiledNothing();
    for i := 0 to |rows|
      invariant IsChildren(rows[..i], filed)
      invariant forall j :: 0 <= j < i ==> HasParent(rows, rows[j])
    {
      var row := rows[i];
      var parent := Parent(row.path);
      ParentIndexed(rows, entries, row);
      if parent != ROOT && (parent !in entries || entries[parent].kind != "tree") {
        return None;
      }
      var next := filed[parent := (if parent in filed then filed[parent] else []) + [row]];
      if row.kind == "tree" && row.path !in next {
        next := next[row.path := []];
      }
      FileRow(rows[..i], row, filed, next);
      assert rows[..i + 1] == rows[..i] + [row];
      filed := next;
    }
    assert rows[..|rows|] == rows;
    children := Some(filed);
  }

  lemma {:induction false} FiledNothing()
    ensures IsChildren([], map[ROOT := []])
  {
  }

  lemma {:induction false} ParentIndexed(rows: seq<Row>, entries: map<Path, Row>, row: Row)
    requires IsIndex(rows, entries) && Distinct(rows) && row.path != []
    ensures HasParent(rows, row) <==> Parent(row.path) == ROOT || (Parent(row.path) in entries && entries[Parent(row.path)].kind == "tree")
  {
    var p := Parent(row.path);
    if p in entries && entries[p].kind == "tree" {
      var i :| 0 <= i < |rows| && rows[i].path == p;
    }
  }

  /** Every directory's tree is hashed and compared; the order does not matter. */
  method CheckTrees(rows: seq<Row>, entries: map<Path, Row>, children: map<Path, seq<Row>>, expected: string, hash: Hash) returns (ok: bool)
    requires AllGood(rows) && IsIndex(rows, entries) && IsChildren(rows, children)
    requires forall i :: 0 <= i < |rows| ==> HasParent(rows, rows[i])
    ensures ok <==> forall d :: d in children ==> TreeMatches(rows, entries, d, expected, hash)
  {
    hide ChildrenOf, TreeText, AllGood, IsChildren, HasParent;
    PathsNotEmpty(rows);
    var rest := children.Keys;
    while rest != {}
      invariant rest <= children.Keys
      invariant forall d :: d in children && d !in rest ==> TreeMatches(rows, entries, d, expected, hash)
      decreases |rest|
    {
      var d :| d in rest;
      ChildrenGood(rows, d);
      ChildrenAre(rows, children, d);
      DirectoryListed(rows, entries, children, d);
      var digest := hash(TreeText(children[d]));
      if digest != (if d == ROOT then expected else entries[d].sha) {
        return false;
      }
      rest := rest - {d};
    }
    ok := true;
  }

  ghost predicate TreeMatches(rows: seq<Row>, entries: map<Path, Row>, d: Path, expected: string, hash: Hash)
    requires AllGood(rows)
  {
    (d == ROOT || d in entries) && TreeIs(rows, d, if d == ROOT then expected else entries[d].sha, hash)
  }

  lemma {:induction false} ChildrenAre(rows: seq<Row>, children: map<Path, seq<Row>>, d: Path)
    requires IsChildren(rows, children) && d in children
    ensures children[d] == ChildrenOf(rows, d)
  {
    hide ChildrenOf;
  }

  lemma {:induction false} DirectoryListed(rows: seq<Row>, entries: map<Path, Row>, children: map<Path, seq<Row>>, d: Path)
    requires IsIndex(rows, entries) && IsChildren(rows, children) && d in children
    requires forall i :: 0 <= i < |rows| ==> rows[i].path != [] && HasParent(rows, rows[i])
    ensures d == ROOT || (d in entries && IsDirectory(rows, d))
  {
    hide ChildrenOf;
    if d != ROOT {
      var i :| 0 <= i < |rows| && rows[i].path != [] && (Parent(rows[i].path) == d || (rows[i].path == d && rows[i].kind == "tree"));
      if Parent(rows[i].path) == d {
        var r := FindRow(rows, d);
      }
    }
  }

  function Blobs(rows: seq<Row>): seq<Row> {
    if rows == [] then []
    else Blobs(rows[..|rows| - 1]) + if IsBlob(rows[|rows| - 1]) then [rows[|rows| - 1]] else []
  }

  /** The whole check: it returns the blobs exactly for the accepted listings. */
  method VerifyTree(rows: seq<Row>, truncated: bool, expected: string, hash: Hash) returns (r: Result<seq<Row>>)
    ensures r.Success? <==> Accepted(rows, truncated, expected, hash)
    ensures r.Success? ==> r.value == Blobs(rows)
  {
    hide AllGood, Distinct, IsIndex, IsChildren, HasParent, TreeIs, TreeMatches;
    if truncated || rows == [] || |rows| > MAX_FILES {
      return Failure("incomplete or oversized package tree");
    }
    var entries, total := CollectEntries(rows);
    if entries.None? {
      return Failure("unsuitable or repeated row");
    }
    if total > MAX_PACKAGE_BYTES {
      return Failure("package exceeds its aggregate byte bound");
    }
    PathsNotEmpty(rows);
    var children := FileRows(rows, entries.value);
    if children.None? {
      return Failure("package tree omits a parent directory");
    }
    var ok := CheckTrees(rows, entries.value, children.value, expected, hash);
    TreesAre(rows, entries.value, children.value, expected, hash);
    if !ok {
      return Failure("package tree differs from its pinned Git identity");
    }
    var blobs: seq<Row> := [];
    for i := 0 to |rows|
      invariant blobs == Blobs(rows[..i])
    {
      assert rows[..i + 1][..i] == rows[..i];
      if IsBlob(rows[i]) {
        blobs := blobs + [rows[i]];
      }
    }
    assert rows[..|rows|] == rows;
    r := Success(blobs);
  }

  lemma {:induction false} PathsNotEmpty(rows: seq<Row>)
    requires AllGood(rows)
    ensures forall i :: 0 <= i < |rows| ==> rows[i].path != []
  {
  }

  /** Checking every directory is checking the root and every tree row. */
  lemma {:induction false} TreesAre(rows: seq<Row>, entries: map<Path, Row>, children: map<Path, seq<Row>>, expected: string, hash: Hash)
    requires AllGood(rows) && IsIndex(rows, entries) && IsChildren(rows, children)
    requires forall i :: 0 <= i < |rows| ==> rows[i].path != [] && HasParent(rows, rows[i])
    ensures (forall d :: d in children ==> TreeMatches(rows, entries, d, expected, hash))
            <==> TreeIs(rows, ROOT, expected, hash)
                 && forall i :: 0 <= i < |rows| && rows[i].kind == "tree" ==> TreeIs(rows, rows[i].path, rows[i].sha, hash)
  {
    hide ChildrenOf, TreeIs, AllGood, HasParent;
    if forall d :: d in children ==> TreeMatches(rows, entries, d, expected, hash) {
      assert TreeMatches(rows, entries, ROOT, expected, hash);
      forall i | 0 <= i < |rows| && rows[i].kind == "tree" ensures TreeIs(rows, rows[i].path, rows[i].sha, hash) {
        assert TreeMatches(rows, entries, rows[i].path, expected, hash);
      }
    }
    if TreeIs(rows, ROOT, expected, hash)
       && forall i :: 0 <= i < |rows| && rows[i].kind == "tree" ==> TreeIs(rows, rows[i].path, rows[i].sha, hash)
    {
      forall d | d in children ensures TreeMatches(rows, entries, d, expected, hash) {
        DirectoryListed(rows, entries, children, d);
        if d != ROOT {
          var i :| 0 <= i < |rows| && rows[i].path == d && rows[i].kind == "tree";
          assert entries[d] == rows[i];
        }
      }
    }
  }
}
