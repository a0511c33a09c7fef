/**
 The append-only report cache.  Its in-memory indexes always equal filtered
 scans of the physical rows, the written lines rebuild the same store, and the
 grouped snapshot answers every query as the store does.
 */
module ReportCache {
  import opened Prelude
  import opened Observations

  /** The JSON codec, as far as the cache relies on it. */
  datatype Codec = Codec(encode: Record -> string, decode: string -> Option<Record>)

  ghost predicate RoundTrips(c: Codec) {
    && (forall r :: Current(r) ==> c.decode(c.encode(r)) == Some(r))
    && (forall l :: c.decode(l).Some? ==> Current(c.decode(l).value))
  }

  function ByKey(rows: seq<Indexed>, k: Key): seq<Indexed> {
    if rows == [] then []
    else
      var n := |rows| - 1;
      ByKey(rows[..n], k) + if rows[n].record.key == k then [rows[n]] else []
  }

  function ByLabel(rows: seq<Indexed>, l: string): seq<Indexed> {
    if rows == [] then []
    else
      var n := |rows| - 1;
      ByLabel(rows[..n], l) + if rows[n].record.alias == Some(l) then [rows[n]] else []
  }

  predicate Numbered(rows: seq<Indexed>) {
    forall i :: 0 <= i < |rows| ==> rows[i].row == i
  }

  lemma {:induction false} KeySnoc(rows: seq<Indexed>, x: Indexed, k: Key)
    ensures ByKey(rows + [x], k) == ByKey(rows, k) + if x.record.key == k then [x] else []
  {
    assert (rows + [x])[..|rows|] == rows;
  }

  lemma {:induction false} LabelSnoc(rows: seq<Indexed>, x: Indexed, l: string)
    ensures ByLabel(rows + [x], l) == ByLabel(rows, l) + if x.record.alias == Some(l) then [x] else []
  {
    assert (rows + [x])[..|rows|] == rows;
  }

  /** Each scan that finds something is in the dictionary, and nothing else is. */
  ghost predicate KeyIndex(index: map<Key, seq<Indexed>>, rows: seq<Indexed>) {
    forall k :: (k in index <==> ByKey(rows, k) != []) && (k in index ==> index[k] == ByKey(rows, k))
  }

  ghost predicate LabelIndex(index: map<string, seq<Indexed>>, rows: seq<Indexed>) {
    forall l :: (l in index <==> ByLabel(rows, l) != []) && (l in index ==> index[l] == ByLabel(rows, l))
  }

  class ReportStore {
    const codec: Codec
    var rows: seq<Indexed>
    var byKey: map<Key, seq<Indexed>>
    var byLabel: map<string, seq<Indexed>>
    var lines: seq<string>

    ghost predicate Valid()
      reads this
    {
      && RoundTrips(codec)
      && Numbered(rows)
      && KeyIndex(byKey, rows)
      && LabelIndex(byLabel, rows)
      && |lines| == |rows|
      && forall i :: 0 <= i < |rows| ==> codec.decode(lines[i]) == Some(rows[i].record)
    }

    constructor (codec: Codec)
      requires RoundTrips(codec)
      ensures Valid() && rows == [] && lines == [] && this.codec == codec
    {
      this.codec := codec;
      rows, byKey, byLabel, lines := [], map[], map[], [];
    }

    /** Enter one row into the indexes. */
    method Index(record: Record)
      requires Numbered(rows) && KeyIndex(byKey, rows) && LabelIndex(byLabel, rows)
      modifies this`rows, this`byKey, this`byLabel
      ensures rows == old(rows) + [Indexed(|old(rows)|, record)]
      ensures Numbered(rows) && KeyIndex(byKey, rows) && LabelIndex(byLabel, rows)
    {
      hide ByKey, ByLabel;
      var indexed := Indexed(|rows|, record);
      forall k ensures ByKey(rows + [indexed], k) == ByKey(rows, k) + if record.key == k then [indexed] else [] {
        KeySnoc(rows, indexed, k);
      }
      forall l ensures ByLabel(rows + [indexed], l) == ByLabel(rows, l) + if record.alias == Some(l) then [indexed] else [] {
        LabelSnoc(rows, indexed, l);
      }
      rows := rows + [indexed];
      byKey := byKey[record.key := (if record.key in byKey then byKey[record.key] else []) + [indexed]];
      if record.alias.Some? {
        byLabel := byLabel[record.alias.value := (if record.alias.value in byLabel then byLabel[record.alias.value] else []) + [indexed]];
      }
    }

    /** Append one observation; a record of an old format is refused and changes nothing. */
    method Append(record: Record) returns (ok: bool)
      requires Valid()
      modifies this
      ensures Valid() && ok == Current(record)
      ensures ok ==> rows == old(rows) + [Indexed(|old(rows)|, record)] && lines == old(lines) + [codec.encode(record)]
      ensures !ok ==> rows == old(rows) && lines == old(lines) && byKey == old(byKey) && byLabel == old(byLabel)
    {
      hide ByKey, ByLabel, KeyIndex, LabelIndex;
      if !Current(record) {
        return false;
      }
      lines := lines + [codec.encode(record)];
      Index(record);
      ok := true;
    }

    method LatestRecords(key: Key, rounds: int, timeout: int, limit: Option<int>) returns (r: Result<seq<Indexed>>)
      requires Valid()
      ensures rounds < 1 ==> r.Failure?
      ensures rounds >= 1 ==> r == Success(Select(ByKey(rows, key), rounds, timeout, limit))
      ensures rounds >= 1 ==> IsNewest(ByKey(rows, key), r.value, rounds, timeout, limit)
    {
      hide ByKey, Select, IsNewest;
      KeyRows(rows, key);
      r := SelectRecords(if key in byKey then byKey[key] else [], rounds, timeout, limit);
    }

    /** Read a report file; the first line that does not parse refuses the whole report. */
    static method Load(codec: Codec, lines: seq<string>) returns (r: Result<ReportStore>)
      requires RoundTrips(codec)
      ensures r.Success? <==> forall i :: 0 <= i < |lines| ==> codec.decode(lines[i]).Some?
      ensures r.Success? ==> fresh(r.value) && r.value.Valid() && r.value.codec == codec && r.value.lines == lines
    {
      hide ByKey, ByLabel, KeyIndex, LabelIndex;
      var store := new ReportStore(codec);
      for i := 0 to |lines|
        invariant fresh(store) && store.Valid() && store.codec == codec && store.lines == lines[..i]
        invariant forall j :: 0 <= j < i ==> codec.decode(lines[j]).Some?
      {
        var parsed := codec.decode(lines[i]);
        if parsed.None? {
          return Failure("invalid or incompatible benchmark report");
        }
        store.Index(parsed.value);
        store.lines := store.lines + [lines[i]];
      }
      assert lines[..|lines|] == lines;
      r := Success(store);
    }

    /** The grouped snapshot: every key's samples in chronological order. */
    method GroupedReport() returns (groups: map<Key, seq<Indexed>>)
      requires Valid()
      ensures groups.Keys == byKey.Keys
      ensures forall k :: k in groups ==> groups[k] == Sort(ByKey(rows, k))
      ensures forall k :: k in groups ==> Sorted(groups[k]) && multiset(groups[k]) == multiset(ByKey(rows, k))
    {
      hide ByKey, Sort, Sorted;
      forall k ensures Sorted(Sort(ByKey(rows, k))) && multiset(Sort(ByKey(rows, k))) == multiset(ByKey(rows, k)) {
        KeyRows(rows, k);
        SortContents(ByKey(rows, k));
        SortSorted(ByKey(rows, k));
      }
      groups := map[];
      var waiting := byKey.Keys;
      while waiting != {}
        invariant waiting <= byKey.Keys && groups.Keys == byKey.Keys - waiting
        invariant forall k :: k in groups ==> groups[k] == Sort(ByKey(rows, k))
        decreases waiting
      {
        var k :| k in waiting;
        groups := groups[k := Sort(byKey[k])];
        waiting := waiting - {k};
      }
    }
  }

  // ---- What follows from validity ----------------------------------------------------------

  /** Two stores written by the same codec with the same lines are the same store: reloading rebuilds it. */
  lemma {:induction false} LinesDetermineStore(a: ReportStore, b: ReportStore)
    requires a.Valid() && b.Valid() && a.codec == b.codec && a.lines == b.lines
    ensures a.rows == b.rows && a.byKey == b.byKey && a.byLabel == b.byLabel
  {
    hide ByKey, ByLabel;
    forall i | 0 <= i < |a.rows| ensures a.rows[i] == b.rows[i] {
      assert a.codec.decode(a.lines[i]) == Some(a.rows[i].record);
      assert b.codec.decode(b.lines[i]) == Some(b.rows[i].record);
    }
    assert a.rows == b.rows;
    assert a.byKey.Keys == b.byKey.Keys && a.byLabel.Keys == b.byLabel.Keys;
  }

  /** The rows of one key keep their positions. */
  lemma {:induction false} KeyRows(rows: seq<Indexed>, k: Key)
    requires Numbered(rows)
    ensures DistinctRows(ByKey(rows, k))
    ensures forall x :: x in ByKey(rows, k) ==> x.row < |rows| && x == rows[x.row] && x.record.key == k
    ensures forall i :: 0 <= i < |rows| && rows[i].record.key == k ==> rows[i] in ByKey(rows, k)
  {
    if rows != [] {
      var n := |rows| - 1;
      KeyRows(rows[..n], k);
      forall x | x in ByKey(rows, k) ensures x.row < |rows| && x == rows[x.row] && x.record.key == k {
        if x in ByKey(rows[..n], k) { assert x == rows[..n][x.row]; }
      }
      forall i | 0 <= i < |rows| && rows[i].record.key == k ensures rows[i] in ByKey(rows, k) {
        if i < n { assert rows[i] == rows[..n][i]; }
      }
    }
  }

  /** The rows of one label, in order and no others. */
  lemma {:induction false} LabelRows(rows: seq<Indexed>, l: string)
    requires Numbered(rows)
    ensures forall x :: x in ByLabel(rows, l) <==> x in rows && x.record.alias == Some(l)
    ensures forall i, j :: 0 <= i < j < |ByLabel(rows, l)| ==> ByLabel(rows, l)[i].row < ByLabel(rows, l)[j].row
  {
    if rows != [] {
      var n := |rows| - 1;
      LabelRows(rows[..n], l);
      forall x | x in rows[..n] ensures x.row < n { var i :| 0 <= i < n && rows[..n][i] == x; }
      forall x ensures x in rows <==> x in rows[..n] || x == rows[n] { assert rows == rows[..n] + [rows[n]]; }
    }
  }

  /** The snapshot selects the same rows as the store, for every key, count and pair of guards. */
  lemma {:induction false} SnapshotAgrees(rows: seq<Indexed>, k: Key, rounds: nat, timeout: int, limit: Option<int>)
    requires Numbered(rows)
    ensures Select(Sort(ByKey(rows, k)), rounds, timeout, limit) == Select(ByKey(rows, k), rounds, timeout, limit)
  {
    hide ByKey, Select, Sort;
    var s := ByKey(rows, k);
    KeyRows(rows, k);
    SortContents(s);
    SortSorted(s);
    SortedDistinct(Sort(s), s);
    SelectIgnoresOrder(Sort(s), s, rounds, timeout, limit);
  }

  lemma {:induction false} SortedDistinct(t: seq<Indexed>, s: seq<Indexed>)
    requires Sorted(t) && DistinctRows(s) && multiset(t) == multiset(s)
    ensures DistinctRows(t)
  {
    forall i, j | 0 <= i < j < |t| ensures t[i].row != t[j].row {
      assert t[i] in multiset(s) && t[j] in multiset(s);
      var p :| 0 <= p < |s| && s[p] == t[i];
      var q :| 0 <= q < |s| && s[q] == t[j];
      assert Before(t[i], t[j]);
    }
  }

  lemma {:induction false} KeyAppend(a: seq<Indexed>, b: seq<Indexed>, k: Key)
    ensures ByKey(a + b, k) == ByKey(a, k) + ByKey(b, k)
  {
    if b == [] {
      assert a + b == a;
    } else {
      var n := |b| - 1;
      KeyAppend(a, b[..n], k);
      assert (a + b)[..|a| + n] == a + b[..n];
    }
  }
}
