/**
 * `MushroomEntry` and `MushroomTable`: a timestamped, ordered vector of
 * entries with a side map from path to index.
 *
 * The specification layer works on the entry vector alone:
 * `IndexMap(s)` is the map the Rust code keeps beside it (each path
 * present maps to the LAST index holding it, which is what repeated
 * `HashMap::insert` leaves behind), `Upsert` is `add_entry`, `Merge` is
 * `update_entries`, and `Lookup` is `get_entry`. The class
 * `MushroomTable` updates its fields in place and is proved against
 * these functions.
 */
module MushroomTables {
  import opened Common
  import opened MushroomValues
  import opened MushroomPaths

  /** Microseconds since the server's epoch (`u128`). */
  type Timestamp = nat

  datatype MushroomEntry = MushroomEntry(value: MushroomValue, path: MushroomPath, timestamp: Option<real>)

  /** The set of paths that occur in an entry vector. */
  function PathsOf(s: seq<MushroomEntry>): set<MushroomPath> {
    set i | 0 <= i < |s| :: s[i].path
  }

  /** Every path occurs at most once. */
  predicate Unique(s: seq<MushroomEntry>) {
    forall i, j :: 0 <= i < j < |s| ==> s[i].path != s[j].path
  }

  /** The last index holding path `p`, or -1 when `p` does not occur. */
  function LastIndex(s: seq<MushroomEntry>, p: MushroomPath): (r: int)
    ensures -1 <= r < |s|
    ensures r >= 0 ==> s[r].path == p
    ensures forall j :: r < j < |s| ==> s[j].path != p
  {
    if |s| == 0 then -1
    else if s[|s| - 1].path == p then |s| - 1
    else LastIndex(s[..|s| - 1], p)
  }

  lemma LastIndexPresent(s: seq<MushroomEntry>, p: MushroomPath)
    ensures LastIndex(s, p) >= 0 <==> p in PathsOf(s)
  {
    if p in PathsOf(s) {
      var i :| 0 <= i < |s| && s[i].path == p;
      assert LastIndex(s, p) >= i;
    }
  }

  /** The side map an entry vector determines: each present path to its last index. */
  function IndexMap(s: seq<MushroomEntry>): (m: map<MushroomPath, nat>)
    ensures m.Keys == PathsOf(s)
    ensures forall p :: p in m ==> m[p] < |s| && s[m[p]].path == p
  {
    map p | p in PathsOf(s) :: LastIndexPresent(s, p); LastIndex(s, p)
  }

  /** `add_entry` on the vector: overwrite the indexed slot of a present path, append a new one. */
  function Upsert(s: seq<MushroomEntry>, e: MushroomEntry): seq<MushroomEntry> {
    if e.path in PathsOf(s) then
      LastIndexPresent(s, e.path);
      s[LastIndex(s, e.path) := e]
    else s + [e]
  }

  /** `get_entry` on the vector: the entry the side map points at. */
  function Lookup(s: seq<MushroomEntry>, p: MushroomPath): (r: Option<MushroomEntry>)
    ensures r.Some? <==> p in PathsOf(s)
    ensures r.Some? ==> r.value.path == p
  {
    LastIndexPresent(s, p);
    var k := LastIndex(s, p);
    if k >= 0 then Some(s[k]) else None
  }

  /** `update_entries`: add the entries of `b` to `a` one by one, in order. */
  function Merge(a: seq<MushroomEntry>, b: seq<MushroomEntry>): seq<MushroomEntry>
    decreases |b|
  {
    if |b| == 0 then a else Upsert(Merge(a, b[..|b| - 1]), b[|b| - 1])
  }

  // ---------------------------------------------------------------------
  // Lemmas about single insertion
  // ---------------------------------------------------------------------

  /** The last index of a path depends only on the sequence of paths. */
  lemma LastIndexSamePaths(s: seq<MushroomEntry>, t: seq<MushroomEntry>, p: MushroomPath)
    requires |s| == |t|
    requires forall i :: 0 <= i < |s| ==> s[i].path == t[i].path
    ensures LastIndex(s, p) == LastIndex(t, p)
  {
  }

  /** Two vectors with the same sequence of paths have the same path set and side map. */
  lemma IndexMapSamePaths(s: seq<MushroomEntry>, t: seq<MushroomEntry>)
    requires |s| == |t|
    requires forall i :: 0 <= i < |s| ==> s[i].path == t[i].path
    ensures PathsOf(s) == PathsOf(t)
    ensures IndexMap(s) == IndexMap(t)
  {
    forall q | q in PathsOf(s) ensures q in PathsOf(t) {
      var i :| 0 <= i < |s| && s[i].path == q;
      assert t[i].path == q;
    }
    forall q | q in PathsOf(t) ensures q in PathsOf(s) {
      var i :| 0 <= i < |t| && t[i].path == q;
      assert s[i].path == q;
    }
    forall q | q in PathsOf(s) ensures IndexMap(s)[q] == IndexMap(t)[q] {
      LastIndexSamePaths(s, t, q);
    }
  }

  /** Appending an entry: its path now ends at the new last slot, other paths are unaffected. */
  lemma LastIndexSnoc(s: seq<MushroomEntry>, e: MushroomEntry, p: MushroomPath)
    ensures LastIndex(s + [e], p) == if p == e.path then |s| else LastIndex(s, p)
  {
    assert (s + [e])[..|s|] == s;
  }

  /**
   * After `add_entry(e)`, looking up `e`'s path gives `e` and every other
   * lookup is unchanged.
   */
  lemma UpsertLookup(s: seq<MushroomEntry>, e: MushroomEntry, p: MushroomPath)
    ensures Lookup(Upsert(s, e), p) == if p == e.path then Some(e) else Lookup(s, p)
  {
    if e.path in PathsOf(s) {
      LastIndexPresent(s, e.path);
      var k := LastIndex(s, e.path);
      LastIndexSamePaths(s, Upsert(s, e), p);
    } else {
      LastIndexSnoc(s, e, p);
    }
  }

  /** `add_entry(e)` adds `e`'s path to the set of paths. */
  lemma UpsertPaths(s: seq<MushroomEntry>, e: MushroomEntry)
    ensures PathsOf(Upsert(s, e)) == PathsOf(s) + {e.path}
  {
    if e.path in PathsOf(s) {
      LastIndexPresent(s, e.path);
      IndexMapSamePaths(s, Upsert(s, e));
    } else {
      PathsOfSnoc(s, e);
    }
  }

  /**
   * `add_entry(e)` on a present path overwrites the slot the index names
   * and keeps the length and every other slot; on a new path it appends
   * at the end. The set of paths gains `e.path`.
   */
  lemma UpsertShape(s: seq<MushroomEntry>, e: MushroomEntry)
    ensures PathsOf(Upsert(s, e)) == PathsOf(s) + {e.path}
    ensures e.path in PathsOf(s) ==>
              && |Upsert(s, e)| == |s|
              && Upsert(s, e)[IndexMap(s)[e.path]] == e
              && forall i :: 0 <= i < |s| && i != IndexMap(s)[e.path] ==> Upsert(s, e)[i] == s[i]
    ensures e.path !in PathsOf(s) ==> Upsert(s, e) == s + [e]
    ensures forall i :: 0 <= i < |s| ==> Upsert(s, e)[i].path == s[i].path
  {
    if e.path in PathsOf(s) {
      LastIndexPresent(s, e.path);
      IndexMapSamePaths(s, Upsert(s, e));
    } else {
      PathsOfSnoc(s, e);
    }
  }

  /**
   * The side map after `add_entry(e)`: unchanged except that `e.path`
   * maps to its old index if it was present and to the new last index
   * `len - 1` otherwise.
   */
  lemma UpsertIndexMap(s: seq<MushroomEntry>, e: MushroomEntry)
    ensures IndexMap(Upsert(s, e)) ==
              IndexMap(s)[e.path := if e.path in PathsOf(s) then IndexMap(s)[e.path] else |s|]
  {
    if e.path in PathsOf(s) {
      LastIndexPresent(s, e.path);
      IndexMapSamePaths(s, Upsert(s, e));
      assert IndexMap(s)[e.path := IndexMap(s)[e.path]] == IndexMap(s);
    } else {
      UpsertIndexMapSnoc(s, e);
    }
  }

  /** `add_entry` keeps paths unique. */
  lemma UpsertUnique(s: seq<MushroomEntry>, e: MushroomEntry)
    requires Unique(s)
    ensures Unique(Upsert(s, e))
  {
    UpsertShape(s, e);
    var r := Upsert(s, e);
    if e.path !in PathsOf(s) {
      forall i, j | 0 <= i < j < |r| ensures r[i].path != r[j].path {
        if j == |s| { assert s[i].path in PathsOf(s); }
      }
    }
  }

  /**
   * The side map is an exact index ("`entry_paths[p] == i` iff
   * `entries[i].path == p`") precisely when the paths are unique; with a
   * duplicate the earlier slot is not indexed.
   */
  lemma UniqueIffExactIndex(s: seq<MushroomEntry>)
    ensures Unique(s) <==> forall i :: 0 <= i < |s| ==> s[i].path in IndexMap(s) && IndexMap(s)[s[i].path] == i
  {
    if Unique(s) {
      forall i | 0 <= i < |s| ensures s[i].path in IndexMap(s) && IndexMap(s)[s[i].path] == i {
        var p := s[i].path;
        assert p in PathsOf(s);
        LastIndexPresent(s, p);
        assert LastIndex(s, p) >= i;
      }
    }
    if forall i :: 0 <= i < |s| ==> s[i].path in IndexMap(s) && IndexMap(s)[s[i].path] == i {
      forall i, j | 0 <= i < j < |s| ensures s[i].path != s[j].path {
      }
    }
  }

  /** Inserting two entries for one path leaves one entry, the second. */
  lemma UpsertSamePathTwice(e1: MushroomEntry, e2: MushroomEntry)
    requires e1.path == e2.path
    ensures Upsert(Upsert([], e1), e2) == [e2]
  {
    PathsOfSnoc([], e1);
    assert [] + [e1] == [e1];
  }

  // ---------------------------------------------------------------------
  // Lemmas about merging
  // ---------------------------------------------------------------------

  lemma PathsOfSnoc(s: seq<MushroomEntry>, e: MushroomEntry)
    ensures PathsOf(s + [e]) == PathsOf(s) + {e.path}
  {
    var r := s + [e];
    forall q | q in PathsOf(r) ensures q in PathsOf(s) + {e.path} {
      var i :| 0 <= i < |r| && r[i].path == q;
      if i < |s| { assert s[i].path == q; }
    }
    forall q | q in PathsOf(s) ensures q in PathsOf(r) {
      var i :| 0 <= i < |s| && s[i].path == q;
      assert r[i].path == q;
    }
    assert r[|s|].path == e.path;
  }

  lemma LookupSnoc(s: seq<MushroomEntry>, e: MushroomEntry, p: MushroomPath)
    ensures Lookup(s + [e], p) == if p == e.path then Some(e) else Lookup(s, p)
  {
    LastIndexSnoc(s, e, p);
  }

  /** The paths of a merge are the paths of both tables. */
  lemma {:induction false} MergePaths(a: seq<MushroomEntry>, b: seq<MushroomEntry>)
    ensures PathsOf(Merge(a, b)) == PathsOf(a) + PathsOf(b)
    decreases |b|
  {
    if |b| > 0 {
      var b', x := b[..|b| - 1], b[|b| - 1];
      MergePaths(a, b');
      assert Merge(a, b) == Upsert(Merge(a, b'), x);
      UpsertPaths(Merge(a, b'), x);
      assert b == b' + [x];
      PathsOfSnoc(b', x);
    }
  }

  /**
   * Merge semantics, right-biased: a path of the incoming table maps to
   * the incoming table's entry for it; any other path keeps what it had.
   */
  lemma {:induction false} MergeLookup(a: seq<MushroomEntry>, b: seq<MushroomEntry>, p: MushroomPath)
    ensures Lookup(Merge(a, b), p) == if p in PathsOf(b) then Lookup(b, p) else Lookup(a, p)
    decreases |b|
  {
    if |b| > 0 {
      var b', x := b[..|b| - 1], b[|b| - 1];
      MergeLookup(a, b', p);
      UpsertLookup(Merge(a, b'), x, p);
      assert b == b' + [x];
      LookupSnoc(b', x, p);
      PathsOfSnoc(b', x);
    }
  }

  /**
   * Merging never moves an entry already present: every old slot keeps
   * its path, and a slot whose path the incoming table does not mention
   * keeps its entry. New paths are appended after the old slots.
   */
  lemma {:induction false} MergeKeepsPositions(a: seq<MushroomEntry>, b: seq<MushroomEntry>)
    ensures |Merge(a, b)| >= |a|
    ensures forall i :: 0 <= i < |a| ==> Merge(a, b)[i].path == a[i].path
    ensures forall i :: 0 <= i < |a| && a[i].path !in PathsOf(b) ==> Merge(a, b)[i] == a[i]
    decreases |b|
  {
    if |b| > 0 {
      var b', x := b[..|b| - 1], b[|b| - 1];
      MergeKeepsPositions(a, b');
      var m := Merge(a, b');
      assert Merge(a, b) == Upsert(m, x);
      UpsertShape(m, x);
      assert b == b' + [x];
      PathsOfSnoc(b', x);
      forall i | 0 <= i < |a| && a[i].path !in PathsOf(b) ensures Merge(a, b)[i] == a[i] {
        assert a[i].path !in PathsOf(b') && a[i].path != x.path;
        assert m[i] == a[i];
        if x.path in PathsOf(m) {
          assert m[IndexMap(m)[x.path]].path == x.path;
          assert i != IndexMap(m)[x.path];
        }
      }
    }
  }

  /** Merging into a table with unique paths keeps them unique. */
  lemma {:induction false} MergeUnique(a: seq<MushroomEntry>, b: seq<MushroomEntry>)
    requires Unique(a)
    ensures Unique(Merge(a, b))
    decreases |b|
  {
    if |b| > 0 {
      MergeUnique(a, b[..|b| - 1]);
      UpsertUnique(Merge(a, b[..|b| - 1]), b[|b| - 1]);
    }
  }

  /** Merging an empty table changes nothing. */
  lemma MergeEmpty(a: seq<MushroomEntry>)
    ensures Merge(a, []) == a
  {
  }

  /** Merging `b ++ c` is merging `b`, then `c`. */
  lemma {:induction false} MergeAppend(a: seq<MushroomEntry>, b: seq<MushroomEntry>, c: seq<MushroomEntry>)
    ensures Merge(a, b + c) == Merge(Merge(a, b), c)
    decreases |c|
  {
    if |c| == 0 {
      assert b + c == b;
    } else {
      var c', x := c[..|c| - 1], c[|c| - 1];
      assert (b + c)[..|b + c| - 1] == b + c';
      MergeAppend(a, b, c');
    }
  }

  /**
   * Merging is associative as far as lookups can tell: merging `b` then
   * `c` into `a` answers every lookup as merging `c` into `b` first does.
   */
  lemma MergeLookupAssociative(a: seq<MushroomEntry>, b: seq<MushroomEntry>, c: seq<MushroomEntry>, p: MushroomPath)
    ensures Lookup(Merge(Merge(a, b), c), p) == Lookup(Merge(a, Merge(b, c)), p)
  {
    MergeLookup(Merge(a, b), c, p);
    MergeLookup(a, b, p);
    MergeLookup(a, Merge(b, c), p);
    MergeLookup(b, c, p);
    MergePaths(b, c);
  }

  // ---------------------------------------------------------------------
  // The table object
  // ---------------------------------------------------------------------

  /** A clone of a table's state, as it travels through a channel or the latest-value slot. */
  datatype TableSnapshot = TableSnapshot(
    timestamp: Timestamp,
    entries: seq<MushroomEntry>,
    entryPaths: map<MushroomPath, nat>)

  /** The snapshot `MushroomTable::new(timestamp)` would produce. */
  function EmptySnapshot(timestamp: Timestamp): (t: TableSnapshot)
    ensures t.entries == [] && t.entryPaths == IndexMap(t.entries) && t.timestamp == timestamp
  {
    TableSnapshot(timestamp, [], map[])
  }

  class MushroomTable {
    var timestamp: Timestamp
    var entries: seq<MushroomEntry>
    var entryPaths: map<MushroomPath, nat>

    /** The side map is the one the entry vector determines. */
    ghost predicate Valid()
      reads this
    {
      entryPaths == IndexMap(entries)
    }

    /** `MushroomTable::new`: an empty table at `timestamp`. */
    constructor New(timestamp: Timestamp)
      ensures Valid()
      ensures this.timestamp == timestamp && entries == [] && Len() == 0
    {
      this.timestamp := timestamp;
      entries := [];
      entryPaths := map[];
    }

    /**
     * `MushroomTable::new_from_entries`: the vector is kept as given and
     * the side map is built by inserting `(path, i)` for every `i` in
     * order, so with duplicate paths the later index wins while every
     * entry stays in the vector.
     */
    constructor NewFromEntries(timestamp: Timestamp, entries: seq<MushroomEntry>)
      ensures Valid()
      ensures this.timestamp == timestamp && this.entries == entries
    {
      var paths: map<MushroomPath, nat> := map[];
      var i := 0;
      while i < |entries|
        invariant 0 <= i <= |entries|
        invariant paths == IndexMap(entries[..i])
      {
        assert entries[..i + 1] == entries[..i] + [entries[i]];
        PathsOfSnoc(entries[..i], entries[i]);
        UpsertIndexMapSnoc(entries[..i], entries[i]);
        paths := paths[entries[i].path := i];
        i := i + 1;
      }
      assert entries[..i] == entries;
      this.timestamp := timestamp;
      this.entries := entries;
      this.entryPaths := paths;
    }

    /**
     * `add_entry`: replace in place when the path is indexed, otherwise
     * push and index the new last slot.
     */
    method AddEntry(entry: MushroomEntry)
      requires Valid()
      modifies this
      ensures Valid()
      ensures entries == Upsert(old(entries), entry) && timestamp == old(timestamp)
      ensures entry.path in old(entryPaths) ==>
                |entries| == old(|entries|) && entries[old(entryPaths)[entry.path]] == entry
      ensures entry.path !in old(entryPaths) ==>
                entries == old(entries) + [entry] && entry.path in entryPaths
                && entryPaths[entry.path] == |entries| - 1
    {
      if HasEntry(entry.path) {
        var index := entryPaths[entry.path];
        LastIndexPresent(entries, entry.path);
        UpsertIndexMap(entries, entry);
        assert entries[index := entry] == Upsert(entries, entry);
        assert entryPaths[entry.path := index] == entryPaths;
        entries := entries[index := entry];
      } else {
        UpsertIndexMapSnoc(entries, entry);
        entries := entries + [entry];
        entryPaths := entryPaths[entry.path := |entries| - 1];
      }
    }

    /** `get_entry`: the indexed entry, exactly when the path is present. */
    function GetEntry(path: MushroomPath): (r: Option<MushroomEntry>)
      reads this
      requires Valid()
      ensures r.Some? <==> HasEntry(path)
      ensures r.Some? ==> r.value.path == path
      ensures r == Lookup(entries, path)
    {
      if HasEntry(path) then Some(entries[entryPaths[path]]) else None
    }

    /** `has_entry`: the side map knows the path exactly when some entry carries it. */
    function HasEntry(path: MushroomPath): (r: bool)
      reads this
      requires Valid()
      ensures r <==> exists i :: 0 <= i < |entries| && entries[i].path == path
    {
      path in entryPaths
    }

    /** `len`: the length of the vector, duplicates included. */
    function Len(): nat
      reads this
    {
      |entries|
    }

    /** `is_empty`. */
    function IsEmpty(): (r: bool)
      reads this
      ensures r <==> Len() == 0
    {
      entries == []
    }

    /** `get_timestamp`. */
    function GetTimestamp(): Timestamp
      reads this
    {
      timestamp
    }

    /** A clone of the current state. */
    function Snapshot(): (t: TableSnapshot)
      reads this
      ensures t.timestamp == timestamp && t.entries == entries && t.entryPaths == entryPaths
    {
      TableSnapshot(timestamp, entries, entryPaths)
    }

    /** `update_entries`: `add_entry` every entry of `other`, in order. */
    method UpdateEntries(other: MushroomTable)
      requires Valid() && other != this
      modifies this
      ensures Valid()
      ensures entries == Merge(old(entries), other.entries) && timestamp == old(timestamp)
    {
      var incoming := other.entries;
      var i := 0;
      while i < |incoming|
        invariant 0 <= i <= |incoming|
        invariant Valid()
        invariant entries == Merge(old(entries), incoming[..i])
        invariant timestamp == old(timestamp)
      {
        AddEntry(incoming[i]);
        assert incoming[..i + 1][..i] == incoming[..i];
        i := i + 1;
      }
      assert incoming[..i] == incoming;
    }

    /** `update_timestamp`: adopt `other`'s timestamp. */
    method UpdateTimestamp(other: MushroomTable)
      requires other != this
      modifies this`timestamp
      ensures timestamp == other.timestamp
    {
      timestamp := other.timestamp;
    }

    /** `update_all`: merge `other`'s entries, then adopt its timestamp. */
    method UpdateAll(other: MushroomTable)
      requires Valid() && other != this
      modifies this
      ensures Valid()
      ensures entries == Merge(old(entries), other.entries)
      ensures timestamp == other.timestamp
    {
      UpdateEntries(other);
      UpdateTimestamp(other);
    }
  }

  /** The side map of a vector with one more entry at the end. */
  lemma UpsertIndexMapSnoc(s: seq<MushroomEntry>, e: MushroomEntry)
    ensures IndexMap(s + [e]) == IndexMap(s)[e.path := |s|]
  {
    PathsOfSnoc(s, e);
    forall p | p in PathsOf(s + [e]) ensures IndexMap(s + [e])[p] == IndexMap(s)[e.path := |s|][p] {
      LastIndexSnoc(s, e, p);
    }
  }
}
