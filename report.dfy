/** What the reconciliation reports for every row of the merged table: which
    sources hold a concentration text (`_merge`), whether the numbers of the
    sources agree (`ALL MATCH`), and the columns of the result table. */
module Report {
  import opened Wrappers
  import opened Text
  import opened Numeric
  import opened Dedup
  import opened Merge

  /** The label of the `i`-th kept source (counting from 0): `df{i + 1}`. */
  function Label(i: nat): (l: string)
    ensures |l| >= 3 && l[0] == 'd' && l[1] == 'f' && ',' !in l
  {
    "df" + NatToString(i + 1)
  }

  lemma LabelInjective(i: nat, j: nat)
    requires Label(i) == Label(j)
    ensures i == j
  {
    assert Label(i)[2..] == NatToString(i + 1);
    assert Label(j)[2..] == NatToString(j + 1);
    NatToStringInjective(i + 1, j + 1);
  }

  /** `row.get(浓度数值及单位_df{i + 1})`: missing when the row has no such cell. */
  function TextAt(row: Row, i: nat): Option<string> {
    if i < |row.cells| then row.cells[i].concentration else None
  }

  /** `row.get(浓度数值_extracted_df{i + 1})`. */
  function ValueAt(row: Row, i: nat): Option<Number> {
    if i < |row.cells| then row.cells[i].value else None
  }

  // ---------------------------------------------------------------------------
  // The `_merge` column.

  /** The labels of the first `n` sources whose concentration text is present
      in `row`, in source order. */
  function Provenance(row: Row, n: nat): seq<string> {
    if n == 0 then []
    else Provenance(row, n - 1) + (if TextAt(row, n - 1).Some? then [Label(n - 1)] else [])
  }

  /** `_merge_list` after `n` rounds: `,df{i}` appended for each present text. */
  function Tagged(row: Row, n: nat): string {
    if n == 0 then ""
    else Tagged(row, n - 1) + (if TextAt(row, n - 1).Some? then "," + Label(n - 1) else "")
  }

  /** A joined list starts with its first part. */
  lemma {:induction false} JoinHead(parts: seq<string>, sep: char)
    requires parts != []
    ensures |Join(parts, sep)| >= |parts[0]| && Join(parts, sep)[..|parts[0]|] == parts[0]
  {
    if |parts| > 1 {
      JoinHead(parts[..|parts| - 1], sep);
    }
  }

  lemma JoinAppend(parts: seq<string>, last: string, sep: char)
    requires parts != []
    ensures Join(parts + [last], sep) == Join(parts, sep) + [sep] + last
  {
    assert (parts + [last])[..|parts|] == parts;
  }

  /** `_merge_list` is empty when no text is present, and otherwise a comma
      followed by the labels joined with commas. */
  lemma {:induction false} TaggedJoin(row: Row, n: nat)
    ensures Provenance(row, n) == [] ==> Tagged(row, n) == ""
    ensures Provenance(row, n) != [] ==> Tagged(row, n) == "," + Join(Provenance(row, n), ',')
  {
    if n > 0 {
      TaggedJoin(row, n - 1);
      if TextAt(row, n - 1).Some? {
        TaggedStep(Tagged(row, n - 1), Provenance(row, n - 1), Label(n - 1));
      } else {
        assert Tagged(row, n) == Tagged(row, n - 1);
        assert Provenance(row, n) == Provenance(row, n - 1);
      }
    }
  }

  lemma TaggedStep(tagged: string, p: seq<string>, l: string)
    requires p == [] ==> tagged == ""
    requires p != [] ==> tagged == "," + Join(p, ',')
    ensures tagged + ("," + l) == "," + Join(p + [l], ',')
  {
    if p == [] {
      assert p + [l] == [l];
    } else {
      JoinAppend(p, l, ',');
      assert tagged + ("," + l) == "," + (Join(p, ',') + [','] + l);
    }
  }

  /** `lstrip(',')` removes the one leading comma, since every label starts with `d`. */
  lemma StripTagged(row: Row, n: nat)
    ensures LStripChar(Tagged(row, n), ',') == Join(Provenance(row, n), ',')
  {
    TaggedJoin(row, n);
    var p := Provenance(row, n);
    if p != [] {
      JoinHead(p, ',');
      ProvenanceLabels(row, n);
      var j := Join(p, ',');
      assert j[0] == p[0][0] == 'd';
      var t := "," + j;
      assert t[1..] == j;
    }
  }

  lemma {:induction false} ProvenanceLabels(row: Row, n: nat)
    ensures forall k :: 0 <= k < |Provenance(row, n)| ==>
      |Provenance(row, n)[k]| >= 3 && Provenance(row, n)[k][0] == 'd' && ',' !in Provenance(row, n)[k]
  {
    if n > 0 {
      ProvenanceLabels(row, n - 1);
    }
  }

  /** No label is listed exactly when no concentration text is present. */
  lemma {:induction false} ProvenanceEmpty(row: Row, n: nat)
    ensures Provenance(row, n) == [] <==> forall i :: 0 <= i < n ==> TextAt(row, i).None?
  {
    if n > 0 {
      ProvenanceEmpty(row, n - 1);
    }
  }

  /** A source's label is listed exactly when its concentration text is present. */
  lemma {:induction false} ProvenanceMembers(row: Row, n: nat, i: nat)
    ensures Label(i) in Provenance(row, n) <==> i < n && TextAt(row, i).Some?
  {
    if n > 0 {
      ProvenanceMembers(row, n - 1, i);
      if Label(i) == Label(n - 1) {
        LabelInjective(i, n - 1);
      }
    }
  }

  /** `_merge` is empty exactly when no source holds a concentration text, and
      otherwise splitting it at the commas gives back the labels. */
  lemma ProvenanceRoundTrip(row: Row, n: nat)
    ensures Join(Provenance(row, n), ',') == "" <==> forall i :: 0 <= i < n ==> TextAt(row, i).None?
    ensures Provenance(row, n) != [] ==> Split(Join(Provenance(row, n), ','), ',') == Provenance(row, n)
  {
    var p := Provenance(row, n);
    ProvenanceLabels(row, n);
    ProvenanceEmpty(row, n);
    if p != [] {
      JoinHead(p, ',');
      SplitJoin(p, ',');
    }
  }

  /** The loop that builds `_merge_list` one source at a time over all rows,
      followed by `str.lstrip(',')`. */
  method MergeColumn(table: seq<Row>, n: nat) returns (merge: seq<string>)
    ensures |merge| == |table|
    ensures forall r :: 0 <= r < |table| ==> merge[r] == Join(Provenance(table[r], n), ',')
  {
    var list := seq(|table|, r => "");
    var i := 0;
    while i < n
      invariant i <= n && |list| == |table|
      invariant forall r :: 0 <= r < |table| ==> list[r] == Tagged(table[r], i)
    {
      list := seq(|table|, r requires 0 <= r < |table| =>
        list[r] + (if TextAt(table[r], i).Some? then "," + Label(i) else ""));
      i := i + 1;
    }
    merge := seq(|table|, r requires 0 <= r < |table| => LStripChar(list[r], ','));
    forall r | 0 <= r < |table|
      ensures merge[r] == Join(Provenance(table[r], n), ',')
    {
      StripTagged(table[r], n);
    }
  }

  // ---------------------------------------------------------------------------
  // The `ALL MATCH` column.

  /** The verdict of `check_all_match_final`: blank (NaN) when fewer than two
      sources hold a number, `'T'` or `'F'` otherwise. */
  datatype Verdict = Blank | T | F

  /** The numbers of the first `n` sources present in `row`, in source order. */
  function PresentValues(row: Row, n: nat): seq<Number> {
    if n == 0 then []
    else PresentValues(row, n - 1) + (if ValueAt(row, n - 1).Some? then [ValueAt(row, n - 1).value] else [])
  }

  /** Every value is `np.isclose` to the first. */
  predicate AllClose(values: seq<Number>)
    requires values != []
  {
    forall k :: 0 <= k < |values| ==> IsClose(Real(values[k]), Real(values[0]))
  }

  /** The verdict for the present values, in source order. */
  function AllMatch(values: seq<Number>): (v: Verdict)
    ensures v == Blank <==> |values| <= 1
    ensures v == T <==> |values| >= 2 && AllClose(values)
  {
    if |values| <= 1 then Blank else if AllClose(values) then T else F
  }

  /** `check_all_match_final`: one loop collects the present numbers, a second
      compares each with the first, stopping at the first that is not close. */
  method CheckAllMatch(row: Row, n: nat) returns (v: Verdict)
    ensures v == AllMatch(PresentValues(row, n))
  {
    var concentrations: seq<Number> := [];
    var i := 0;
    while i < n
      invariant i <= n
      invariant concentrations == PresentValues(row, i)
    {
      var cell := ValueAt(row, i);
      if cell.Some? {
        concentrations := concentrations + [cell.value];
      }
      i := i + 1;
    }
    if |concentrations| <= 1 {
      return Blank;
    }
    var first := concentrations[0];
    var j := 0;
    var close := true;
    while j < |concentrations| && close
      invariant j <= |concentrations|
      invariant close ==> forall k :: 0 <= k < j ==> IsClose(Real(concentrations[k]), Real(first))
      invariant !close ==> j < |concentrations| && !IsClose(Real(concentrations[j]), Real(first))
      decreases |concentrations| - j, close
    {
      if IsClose(Real(concentrations[j]), Real(first)) {
        j := j + 1;
      } else {
        close := false;
      }
    }
    v := if close then T else F;
  }

  /** A number is close to itself, so sources that give the same number agree. */
  lemma SameValuesMatch(values: seq<Number>)
    requires |values| >= 2
    requires forall k :: 0 <= k < |values| ==> Real(values[k]) == Real(values[0])
    ensures AllMatch(values) == T
  {
  }

  /** The tolerance is relative as well as absolute: 100000 and 100000.5 agree,
      though they are 0.5 apart. */
  lemma RelativeToleranceExample()
    ensures AllMatch([Number(false, 100000, 0), Number(false, 1000005, -1)]) == T
  {
    assert Real(Number(false, 100000, 0)) == 100000.0;
    assert Real(Number(false, 1000005, -1)) == 100000.5;
  }

  /** Numbers that differ beyond the tolerance disagree. */
  lemma DisagreementExample()
    ensures AllMatch([Number(false, 5, 0), Number(false, 7, 0)]) == F
  {
    var values := [Number(false, 5, 0), Number(false, 7, 0)];
    assert Real(values[0]) == 5.0;
    assert Real(values[1]) == 7.0;
    assert !IsClose(Real(values[1]), Real(values[0]));
  }

  /** The tolerance scales with the first value, so the verdict can depend on
      the order of the sources: 1000000 then 999990.00005 agree (a gap of
      9.99995 within 10.000000001), the reverse does not (a tolerance of
      9.9999000015). */
  lemma OrderMattersExample()
    ensures AllMatch([Number(false, 1000000, 0), Number(false, 99999000005, -5)]) == T
    ensures AllMatch([Number(false, 99999000005, -5), Number(false, 1000000, 0)]) == F
  {
    var values := [Number(false, 99999000005, -5), Number(false, 1000000, 0)];
    assert Real(values[1]) == 1000000.0;
    assert Pow10(5) == 100000;
    assert Real(values[0]) == 999990.00005;
    assert !IsClose(Real(values[1]), Real(values[0]));
  }

  // ---------------------------------------------------------------------------
  // The result table.

  const MergeName: string := "_merge"
  const NameColumn: string := "抗生素名称"
  const WaterColumn: string := "水体类型"
  const AllMatchName: string := "ALL MATCH"

  function ConcentrationColumn(i: nat): string {
    "浓度数值及单位_" + Label(i)
  }

  function ExtractedColumn(i: nat): string {
    "浓度数值_extracted_" + Label(i)
  }

  /** The columns the output asks for, in order. */
  function WantedColumns(n: nat): (cols: seq<string>)
    ensures |cols| == n + 3
    ensures cols[0] == MergeName && cols[1] == NameColumn && cols[n + 2] == AllMatchName
    ensures forall i :: 0 <= i < n ==> cols[2 + i] == ConcentrationColumn(i)
  {
    [MergeName, NameColumn] + seq(n, i requires 0 <= i < n => ConcentrationColumn(i)) + [AllMatchName]
  }

  /** The columns of the merged table once the name column is renamed. */
  function FrameColumns(n: nat): set<string> {
    {NameColumn, WaterColumn, "_merge_list", MergeName, AllMatchName}
    + (set i | 0 <= i < n :: ConcentrationColumn(i))
    + (set i | 0 <= i < n :: ExtractedColumn(i))
  }

  /** `[col for col in cols if col in existing]`. */
  function SelectExisting(cols: seq<string>, existing: set<string>): (r: seq<string>)
    ensures forall c :: c in r <==> c in cols && c in existing
  {
    if cols == [] then []
    else (if cols[0] in existing then [cols[0]] else []) + SelectExisting(cols[1..], existing)
  }

  /** The loop that lists the wanted columns, followed by the comprehension
      that keeps those that exist. */
  method OutputColumns(n: nat, existing: set<string>) returns (actual: seq<string>)
    ensures actual == SelectExisting(WantedColumns(n), existing)
  {
    var output := [MergeName, NameColumn];
    var i := 0;
    while i < n
      invariant i <= n
      invariant output == [MergeName, NameColumn] + seq(i, k requires 0 <= k < i => ConcentrationColumn(k))
    {
      output := output + [ConcentrationColumn(i)];
      i := i + 1;
    }
    output := output + [AllMatchName];
    actual := SelectExisting(output, existing);
  }

  lemma {:induction false} SelectAll(cols: seq<string>, existing: set<string>)
    requires forall k :: 0 <= k < |cols| ==> cols[k] in existing
    ensures SelectExisting(cols, existing) == cols
  {
    if cols != [] {
      SelectAll(cols[1..], existing);
    }
  }

  /** Every wanted column exists in the merged table, so the selection keeps
      them all: the result's columns are `_merge`, the name, one concentration
      column per source and `ALL MATCH`. */
  lemma WantedColumnsExist(n: nat)
    ensures SelectExisting(WantedColumns(n), FrameColumns(n)) == WantedColumns(n)
  {
    var w := WantedColumns(n);
    forall k | 0 <= k < |w| ensures w[k] in FrameColumns(n) {
      if 2 <= k < n + 2 {
        assert w[k] == ConcentrationColumn(k - 2);
      }
    }
    SelectAll(w, FrameColumns(n));
  }

  // ---------------------------------------------------------------------------
  // The whole run.

  /** Why a run produces no table. */
  datatype Failure = NoExcelFiles | NoValidFiles

  /** One row of the result: `_merge`, the cleaned name, the concentration text
      of each source and `ALL MATCH`. */
  datatype OutputRow = OutputRow(merge: string, name: string, concentrations: seq<Option<string>>, allMatch: Verdict)

  datatype Output = Output(columns: seq<string>, rows: seq<OutputRow>)

  /** The row of the merged table for a key: the cell of each source. */
  function KeyRow(k: Key, sources: seq<seq<Entry>>): Row {
    Row(k, seq(|sources|, i requires 0 <= i < |sources| => Lookup(k, sources[i])))
  }

  /** What the result table shows for one merged row. */
  function Summary(row: Row, n: nat): OutputRow {
    OutputRow(Join(Provenance(row, n), ','), row.key.name,
      seq(n, i requires 0 <= i < n => TextAt(row, i)), AllMatch(PresentValues(row, n)))
  }

  lemma JoinedRows(universe: seq<Key>, sources: seq<seq<Entry>>)
    requires SourcesDistinct(sources)
    ensures |Joined(universe, sources)| == |universe|
    ensures forall r :: 0 <= r < |universe| ==> Joined(universe, sources)[r] == KeyRow(universe[r], sources)
  {
    JoinedShape(universe, sources);
  }

  /** `_merge`, the texts and `ALL MATCH` for every row of the merged table. */
  method Summarise(table: seq<Row>, n: nat) returns (rows: seq<OutputRow>)
    ensures |rows| == |table|
    ensures forall q :: 0 <= q < |table| ==> rows[q] == Summary(table[q], n)
  {
    var merge := MergeColumn(table, n);
    rows := [];
    var r := 0;
    while r < |table|
      invariant r <= |table| && |rows| == r
      invariant forall q :: 0 <= q < r ==> rows[q] == Summary(table[q], n)
    {
      var verdict := CheckAllMatch(table[r], n);
      var texts := seq(n, i requires 0 <= i < n => TextAt(table[r], i));
      rows := rows + [OutputRow(merge[r], table[r].key.name, texts, verdict)];
      r := r + 1;
    }
  }

  /** Everything after the files are read: the key universe, the joins, the
      two computed columns and the selection of the output columns. */
  method Reconcile(sources: seq<seq<Entry>>) returns (out: Output)
    requires SourcesDistinct(sources)
    ensures out.columns == WantedColumns(|sources|)
    ensures |out.rows| == |Universe(sources)|
    ensures forall r :: 0 <= r < |Universe(sources)| ==>
      out.rows[r] == Summary(KeyRow(Universe(sources)[r], sources), |sources|)
  {
    var n := |sources|;
    var keys := Universe(sources);
    var table := MergeSources(keys, sources);
    JoinedRows(keys, sources);
    var rows := Summarise(table, n);
    var columns := OutputColumns(n, FrameColumns(n));
    WantedColumnsExist(n);
    out := Output(columns, rows);
  }

  /** The script from the list of files on: each file is `None` when it could
      not be read or has too few columns, or else its rows. */
  method CrossValidate(files: seq<Option<seq<Record>>>) returns (result: Result<Output, Failure>)
    ensures result == Err(NoExcelFiles) <==> files == []
    ensures result == Err(NoValidFiles) <==> files != [] && forall i :: 0 <= i < |files| ==> files[i].None?
    ensures result.Ok? ==>
      var sources := Loaded(files);
      var keys := Universe(sources);
      && result.value.columns == WantedColumns(|sources|)
      && |result.value.rows| == |keys|
      && forall r :: 0 <= r < |keys| ==> result.value.rows[r] == Summary(KeyRow(keys[r], sources), |sources|)
  {
    if files == [] {
      return Err(NoExcelFiles);
    }
    var sources := LoadSources(files);
    LoadedShape(files);
    if sources == [] {
      return Err(NoValidFiles);
    }
    var out := Reconcile(sources);
    result := Ok(out);
  }
}
