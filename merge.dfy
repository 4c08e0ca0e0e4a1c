/** The reconciliation of several concentration tables ("sources") into one
    row per (antibiotic name, water type): reading the sources, normalising
    the match key, dropping duplicate keys within each source, collecting the
    keys of all sources, and left-joining every source onto them. */
module Merge {
  import opened Wrappers
  import opened Text
  import opened Numeric
  import opened Dedup

  /** One row of a source workbook, reduced to the three standard columns the
      reconciliation reads: `抗生素名称` (the antibiotic's name),
      `浓度数值及单位` (the concentration with its unit) and `水体类型` (the
      water type). `None` is a missing (NaN) cell. */
  datatype Record = Record(name: Option<string>, concentration: Option<string>, waterType: Option<string>)

  /** What records are matched on: the cleaned name and the raw water type. */
  datatype Key = Key(name: string, waterType: Option<string>)

  /** A record once its key is cleaned and its concentration is read as a
      number (`浓度数值_extracted`). */
  datatype Entry = Entry(key: Key, concentration: Option<string>, value: Option<Number>)

  function EntryKey(e: Entry): Key {
    e.key
  }

  function SameKey(k: Key): Key {
    k
  }

  // ---------------------------------------------------------------------------
  // The match key.

  /** An ASCII upper-case letter. */
  predicate IsUpper(c: char) {
    'A' <= c <= 'Z'
  }

  /** No ASCII upper-case letter in `s`. */
  predicate NoUpper(s: string) {
    forall i :: 0 <= i < |s| ==> !IsUpper(s[i])
  }

  /** `astype(str).str.lower().str.strip()` on the name column: a missing name
      reads as the text `nan`. */
  function CleanName(name: Option<string>): (r: string)
    ensures name.None? ==> r == "nan"
    ensures NoUpper(r)
    ensures r == [] || (!IsSpace(r[0]) && !IsSpace(r[|r| - 1]))
  {
    var lowered := Lower(match name case None => "nan" case Some(s) => s);
    StripNoUpper(lowered);
    NanClean();
    Strip(lowered)
  }

  /** The text a missing name becomes is already lower-case and stripped. */
  lemma NanClean()
    ensures Strip(Lower("nan")) == "nan"
  {
    assert Lower("nan") == "nan";
    StripTrimmed("nan");
  }

  lemma SliceNoUpper(s: string, a: nat, b: nat)
    requires a <= b <= |s| && NoUpper(s)
    ensures NoUpper(s[a..b])
  {
    assert forall i :: 0 <= i < b - a ==> s[a..b][i] == s[a + i];
  }

  /** Stripping a text without upper-case letters leaves none. */
  lemma StripNoUpper(s: string)
    requires NoUpper(s)
    ensures NoUpper(Strip(s))
  {
    var l := StripLeft(s);
    SliceNoUpper(s, |s| - |l|, |s|);
    var r := StripRight(l);
    SliceNoUpper(l, 0, |r|);
  }

  lemma LowerNoUpper(s: string)
    requires NoUpper(s)
    ensures Lower(s) == s
  {
  }

  lemma StripIdempotent(s: string)
    ensures Strip(Strip(s)) == Strip(s)
  {
    if Strip(s) != [] {
      StripTrimmed(Strip(s));
    }
  }

  /** Cleaning a cleaned name changes nothing, so the key column is stable. */
  lemma CleanNameIdempotent(name: Option<string>)
    ensures CleanName(Some(CleanName(name))) == CleanName(name)
  {
    var c := CleanName(name);
    LowerNoUpper(c);
    StripIdempotent(Lower(match name case None => "nan" case Some(s) => s));
  }

  /** Names that differ only in the case of ASCII letters get the same key. */
  lemma CleanNameIgnoresCase(s: string, t: string)
    requires Lower(s) == Lower(t)
    ensures CleanName(Some(s)) == CleanName(Some(t))
  {
  }

  /** Whitespace around a name does not change its key. */
  lemma CleanNameIgnoresSpace(left: string, s: string, right: string)
    requires AllSpace(left) && AllSpace(right)
    ensures CleanName(Some(left + s + right)) == CleanName(Some(s))
  {
    SpacesLower(left);
    SpacesLower(right);
    assert Lower(left + s + right) == left + Lower(s) + right;
    StripSurrounded(left, Lower(s), right);
  }

  /** `lower` leaves whitespace alone. */
  lemma SpacesLower(gap: string)
    requires AllSpace(gap)
    ensures Lower(gap) == gap
  {
    assert forall i :: 0 <= i < |gap| ==> LowerChar(gap[i]) == gap[i];
  }

  // ---------------------------------------------------------------------------
  // Reading the sources.

  /** The columns a source gets: the cleaned name beside the raw columns, and
      the number read from the concentration text. */
  function Prepare(r: Record): (e: Entry)
    ensures e.key == Key(CleanName(r.name), r.waterType)
    ensures e.concentration == r.concentration
    ensures r.concentration.None? ==> e.value.None?
  {
    Entry(Key(CleanName(r.name), r.waterType), r.concentration, ExtractNumeric(r.concentration))
  }

  /** One table as it is kept: prepared row by row, then `drop_duplicates`
      on the key, keeping the first row of each key. */
  function PrepareSource(rows: seq<Record>): (source: seq<Entry>)
    ensures DistinctKeys(source, EntryKey)
  {
    var prepared := seq(|rows|, i requires 0 <= i < |rows| => Prepare(rows[i]));
    DropDuplicatesShape(prepared, EntryKey);
    DropDuplicates(prepared, EntryKey)
  }

  /** The kept sources, in file order: a file that could not be read, or has
      fewer than five columns, is `None` and is skipped. */
  function Loaded(files: seq<Option<seq<Record>>>): seq<seq<Entry>> {
    if files == [] then []
    else
      Loaded(files[..|files| - 1])
      + match files[|files| - 1] case None => [] case Some(rows) => [PrepareSource(rows)]
  }

  /** How many files were read. */
  function CountRead(files: seq<Option<seq<Record>>>): nat {
    if files == [] then 0
    else CountRead(files[..|files| - 1]) + (if files[|files| - 1].Some? then 1 else 0)
  }

  predicate SourcesDistinct(sources: seq<seq<Entry>>) {
    forall i :: 0 <= i < |sources| ==> DistinctKeys(sources[i], EntryKey)
  }

  /** Every kept source has one row per key, and there is one source per file
      read, so the label `df{i + 1}` counts read files only. */
  lemma {:induction false} LoadedShape(files: seq<Option<seq<Record>>>)
    ensures |Loaded(files)| == CountRead(files)
    ensures SourcesDistinct(Loaded(files))
    ensures Loaded(files) == [] <==> forall i :: 0 <= i < |files| ==> files[i].None?
  {
    if files != [] {
      var init := files[..|files| - 1];
      LoadedShape(init);
      assert forall i :: 0 <= i < |init| ==> init[i] == files[i];
    }
  }

  /** The loop that reads the files one by one and appends each kept source. */
  method LoadSources(files: seq<Option<seq<Record>>>) returns (sources: seq<seq<Entry>>)
    ensures sources == Loaded(files)
    ensures |sources| == CountRead(files) && SourcesDistinct(sources)
  {
    sources := [];
    var i := 0;
    while i < |files|
      invariant i <= |files|
      invariant sources == Loaded(files[..i])
    {
      assert files[..i + 1][..i] == files[..i];
      match files[i] {
        case None =>
        case Some(rows) =>
          sources := sources + [PrepareSource(rows)];
      }
      i := i + 1;
    }
    assert files[..i] == files;
    LoadedShape(files);
  }

  // ---------------------------------------------------------------------------
  // The keys of all sources.

  function KeyColumn(source: seq<Entry>): (ks: seq<Key>)
    ensures |ks| == |source|
  {
    seq(|source|, i requires 0 <= i < |source| => source[i].key)
  }

  /** `pd.concat` of a list of columns. */
  function Concat<T>(parts: seq<seq<T>>): seq<T> {
    if parts == [] then [] else parts[0] + Concat(parts[1..])
  }

  /** The distinct keys of all sources, in first-seen order: each source's key
      pairs without repeats, concatenated, without repeats again. */
  function Universe(sources: seq<seq<Entry>>): seq<Key> {
    var columns := seq(|sources|, i requires 0 <= i < |sources| => DropDuplicates(KeyColumn(sources[i]), SameKey));
    DropDuplicates(Concat(columns), SameKey)
  }

  /** The key pair of any row of any source, as one sequence. */
  function AllKeys(sources: seq<seq<Entry>>): seq<Key> {
    Concat(seq(|sources|, i requires 0 <= i < |sources| => KeyColumn(sources[i])))
  }

  lemma KeyColumnDistinct(source: seq<Entry>)
    requires DistinctKeys(source, EntryKey)
    ensures DistinctKeys(KeyColumn(source), SameKey)
  {
  }

  /** The inner `drop_duplicates` leaves each kept source's keys as they are:
      the universe is the first occurrence of each key, scanning the sources
      in order and each source in row order. */
  lemma UniverseFirstSeen(sources: seq<seq<Entry>>)
    requires SourcesDistinct(sources)
    ensures Universe(sources) == DropDuplicates(AllKeys(sources), SameKey)
    ensures Universe(sources) == Firsts(AllKeys(sources), SameKey, |AllKeys(sources)|)
  {
    var columns := seq(|sources|, i requires 0 <= i < |sources| => DropDuplicates(KeyColumn(sources[i]), SameKey));
    forall i | 0 <= i < |sources|
      ensures columns[i] == KeyColumn(sources[i])
    {
      KeyColumnDistinct(sources[i]);
      DistinctUnchanged(KeyColumn(sources[i]), SameKey);
    }
    assert columns == seq(|sources|, i requires 0 <= i < |sources| => KeyColumn(sources[i]));
    DropDuplicatesKeepsFirsts(AllKeys(sources), SameKey);
  }

  lemma {:induction false} InConcat<T>(parts: seq<seq<T>>, x: T)
    ensures x in Concat(parts) <==> exists i :: 0 <= i < |parts| && x in parts[i]
  {
    if parts != [] {
      InConcat(parts[1..], x);
      assert forall i :: 1 <= i < |parts| ==> parts[i] == parts[1..][i - 1];
      if x in Concat(parts[1..]) {
        var i :| 0 <= i < |parts[1..]| && x in parts[1..][i];
        assert x in parts[i + 1];
      }
    }
  }

  lemma KeysOfIsMembers(ks: seq<Key>)
    ensures forall k :: k in KeysOf(ks, SameKey) <==> k in ks
  {
    forall k | k in ks ensures k in KeysOf(ks, SameKey) {
      var i :| 0 <= i < |ks| && ks[i] == k;
      assert SameKey(ks[i]) == k;
    }
  }

  /** The universe holds each key of each source exactly once, and nothing else. */
  lemma UniverseKeys(sources: seq<seq<Entry>>, k: Key)
    requires SourcesDistinct(sources)
    ensures DistinctKeys(Universe(sources), SameKey)
    ensures k in Universe(sources) <==>
      exists i, j :: 0 <= i < |sources| && 0 <= j < |sources[i]| && sources[i][j].key == k
  {
    var all := AllKeys(sources);
    var columns := seq(|sources|, i requires 0 <= i < |sources| => KeyColumn(sources[i]));
    UniverseFirstSeen(sources);
    DropDuplicatesShape(all, SameKey);
    KeysOfIsMembers(all);
    KeysOfIsMembers(Universe(sources));
    InConcat(columns, k);
    if k in all {
      var i :| 0 <= i < |columns| && k in columns[i];
      var j :| 0 <= j < |columns[i]| && columns[i][j] == k;
      assert sources[i][j].key == k;
    }
    if exists i, j :: 0 <= i < |sources| && 0 <= j < |sources[i]| && sources[i][j].key == k {
      var i, j :| 0 <= i < |sources| && 0 <= j < |sources[i]| && sources[i][j].key == k;
      assert columns[i][j] == k;
    }
  }

  // ---------------------------------------------------------------------------
  // The left joins.

  /** The two columns one source contributes to a row of the merged table:
      `浓度数值及单位_df{i}` and `浓度数值_extracted_df{i}`. A key the source
      lacks gets two missing cells. */
  datatype Cell = Cell(concentration: Option<string>, value: Option<Number>)

  const Absent := Cell(None, None)

  /** A row of the merged table: its key and one cell per source joined so far. */
  datatype Row = Row(key: Key, cells: seq<Cell>)

  function CellOf(e: Entry): Cell {
    Cell(e.concentration, e.value)
  }

  /** The rows of `right` whose key is `k`, in order. */
  function Matches(k: Key, right: seq<Entry>): (m: seq<Entry>)
    ensures forall i :: 0 <= i < |m| ==> m[i].key == k
  {
    if right == [] then []
    else (if right[0].key == k then [right[0]] else []) + Matches(k, right[1..])
  }

  /** `pd.merge(left, right, on=key, how='left')` for one row of `left`: one row
      per matching row of `right`, in `right`'s order, or the row with missing
      cells when nothing matches. */
  function JoinRow(row: Row, right: seq<Entry>): seq<Row> {
    var m := Matches(row.key, right);
    if m == [] then [Row(row.key, row.cells + [Absent])]
    else seq(|m|, i requires 0 <= i < |m| => Row(row.key, row.cells + [CellOf(m[i])]))
  }

  /** `pd.merge(left, right, on=key, how='left')`: the rows of `left` in order,
      each expanded as `JoinRow` says. */
  function LeftJoin(left: seq<Row>, right: seq<Entry>): seq<Row> {
    if left == [] then [] else JoinRow(left[0], right) + LeftJoin(left[1..], right)
  }

  /** The cell a source holds for a key: its row's cells, or missing ones. */
  function Lookup(k: Key, source: seq<Entry>): Cell {
    var m := Matches(k, source);
    if m == [] then Absent else CellOf(m[0])
  }

  lemma {:induction false} MatchesDistinct(k: Key, right: seq<Entry>)
    requires DistinctKeys(right, EntryKey)
    ensures |Matches(k, right)| <= 1
    ensures forall j :: 0 <= j < |right| && right[j].key == k ==> Matches(k, right) == [right[j]]
    ensures (forall j :: 0 <= j < |right| ==> right[j].key != k) ==> Matches(k, right) == []
  {
    if right != [] {
      var rest := right[1..];
      assert DistinctKeys(rest, EntryKey) by {
        forall i, j | 0 <= i < j < |rest| ensures rest[i].key != rest[j].key {
          assert rest[i] == right[i + 1] && rest[j] == right[j + 1];
        }
      }
      MatchesDistinct(k, rest);
      forall j | 0 <= j < |rest| ensures rest[j] == right[j + 1] { }
      if right[0].key == k {
        assert forall j :: 0 <= j < |rest| ==> rest[j].key != k;
      }
    }
  }

  /** When `right` has one row per key, the left join keeps one row per row of
      `left`, in order, and adds to each the cell of its key. */
  lemma {:induction false} LeftJoinDistinct(left: seq<Row>, right: seq<Entry>)
    requires DistinctKeys(right, EntryKey)
    ensures |LeftJoin(left, right)| == |left|
    ensures forall i :: 0 <= i < |left| ==>
      LeftJoin(left, right)[i] == Row(left[i].key, left[i].cells + [Lookup(left[i].key, right)])
  {
    if left != [] {
      MatchesDistinct(left[0].key, right);
      LeftJoinDistinct(left[1..], right);
      var head := JoinRow(left[0], right);
      assert head == [Row(left[0].key, left[0].cells + [Lookup(left[0].key, right)])];
      forall i | 1 <= i < |left| ensures left[i] == left[1..][i - 1] { }
    }
  }

  /** The table before any join: one row per key, no cells yet. */
  function Start(universe: seq<Key>): seq<Row> {
    seq(|universe|, i requires 0 <= i < |universe| => Row(universe[i], []))
  }

  /** The table after joining the first `|sources|` sources in turn. */
  function Joined(universe: seq<Key>, sources: seq<seq<Entry>>): seq<Row> {
    if sources == [] then Start(universe)
    else LeftJoin(Joined(universe, sources[..|sources| - 1]), sources[|sources| - 1])
  }

  /** `table` has one row per key of the universe, in order, whose cell `i` is
      what source `i` holds for that key. */
  predicate Shaped(table: seq<Row>, universe: seq<Key>, sources: seq<seq<Entry>>) {
    && |table| == |universe|
    && (forall r :: 0 <= r < |universe| ==> table[r].key == universe[r] && |table[r].cells| == |sources|)
    && forall r, i :: 0 <= r < |universe| && 0 <= i < |sources| ==>
         table[r].cells[i] == Lookup(universe[r], sources[i])
  }

  /** With one row per key in every source, the merged table has one row per
      key of the universe, in order, whose cell `i` is what source `i` holds
      for that key. */
  lemma {:induction false} JoinedShape(universe: seq<Key>, sources: seq<seq<Entry>>)
    requires SourcesDistinct(sources)
    ensures Shaped(Joined(universe, sources), universe, sources)
  {
    if sources != [] {
      var init, last := sources[..|sources| - 1], sources[|sources| - 1];
      assert SourcesDistinct(init) by {
        forall i | 0 <= i < |init| ensures init[i] == sources[i] { }
      }
      JoinedShape(universe, init);
      LeftJoinDistinct(Joined(universe, init), last);
      JoinOneMore(universe, sources, Joined(universe, init), Joined(universe, sources));
    }
  }

  /** One more left join adds, to every row, the cell its key has in the new
      source. */
  lemma JoinOneMore(universe: seq<Key>, sources: seq<seq<Entry>>, before: seq<Row>, after: seq<Row>)
    requires sources != []
    requires Shaped(before, universe, sources[..|sources| - 1])
    requires |after| == |before|
    requires forall r :: 0 <= r < |before| ==>
      after[r] == Row(before[r].key, before[r].cells + [Lookup(before[r].key, sources[|sources| - 1])])
    ensures Shaped(after, universe, sources)
  {
    var n := |sources| - 1;
    forall r, i | 0 <= r < |universe| && 0 <= i <= n
      ensures after[r].cells[i] == Lookup(universe[r], sources[i])
    {
      if i < n {
        assert after[r].cells[i] == before[r].cells[i];
        assert sources[..n][i] == sources[i];
      }
    }
  }

  /** The loop of left joins, one source at a time. */
  method MergeSources(universe: seq<Key>, sources: seq<seq<Entry>>) returns (table: seq<Row>)
    ensures table == Joined(universe, sources)
  {
    table := Start(universe);
    var i := 0;
    while i < |sources|
      invariant i <= |sources|
      invariant table == Joined(universe, sources[..i])
    {
      assert sources[..i + 1][..i] == sources[..i];
      table := LeftJoin(table, sources[i]);
      i := i + 1;
    }
    assert sources[..i] == sources;
  }

  /** A source holds a key in its cell exactly when it has a row with that key,
      and then the cell is that row's. */
  lemma LookupFound(k: Key, source: seq<Entry>, j: nat)
    requires DistinctKeys(source, EntryKey)
    requires j < |source| && source[j].key == k
    ensures Lookup(k, source) == CellOf(source[j])
  {
    MatchesDistinct(k, source);
  }

  lemma LookupMissing(k: Key, source: seq<Entry>)
    requires forall j :: 0 <= j < |source| ==> source[j].key != k
    ensures Lookup(k, source) == Absent
  {
    assert Matches(k, source) == [] by {
      if Matches(k, source) != [] {
        MatchesIn(k, source);
      }
    }
  }

  lemma {:induction false} MatchesIn(k: Key, right: seq<Entry>)
    requires Matches(k, right) != []
    ensures exists j :: 0 <= j < |right| && right[j].key == k
  {
    if right[0].key != k {
      MatchesIn(k, right[1..]);
      var j :| 0 <= j < |right[1..]| && right[1..][j].key == k;
      assert right[j + 1].key == k;
    }
  }
}
