/** What the flattener promises about the records it emits and the table it
    writes: every record is tagged with its iteration type and speech act, the
    records come grouped by iteration type in the fixed order with 话术一
    before 话术二 inside each, and only the iteration-type keys of the paper
    are ever read. */
module FlattenProperties {
  import opened Wrappers
  import opened JsonData
  import opened Flatten

  /** The iteration type a record is tagged with ("" when it carries none). */
  function TypeTag(d: Dict): string {
    match Get(d, "Iteration_Type")
    case Some(Str(s)) => s
    case _ => ""
  }

  /** The speech act a record is tagged with ("" when it carries none). */
  function ActTag(d: Dict): string {
    match Get(d, "Speech_Act")
    case Some(Str(s)) => s
    case _ => ""
  }

  /** Every record of `rs` is tagged with `iterationType` and `act`. */
  predicate TaggedWith(rs: seq<Dict>, iterationType: string, act: string) {
    forall i :: 0 <= i < |rs| ==> TypeTag(rs[i]) == iterationType && ActTag(rs[i]) == act
  }

  /** The place of `t` among `IterationTypes` from index `i` on, or the length
      of the list when it is not there. */
  function RankFrom(t: string, i: nat): (r: nat)
    requires i <= |IterationTypes|
    ensures i <= r <= |IterationTypes|
    ensures r < |IterationTypes| ==> IterationTypes[r] == t
    decreases |IterationTypes| - i
  {
    if i == |IterationTypes| then i
    else if IterationTypes[i] == t then i
    else RankFrom(t, i + 1)
  }

  function TypeRank(t: string): nat {
    RankFrom(t, 0)
  }

  /** The output position of a record's group: two groups per iteration type,
      话术一 first. */
  function Stage(d: Dict): nat {
    2 * TypeRank(TypeTag(d)) + (if ActTag(d) == SpeechAct1 then 0 else 1)
  }

  /** The records are in nondecreasing group order. */
  predicate Staged(rs: seq<Dict>) {
    forall i, j :: 0 <= i < j < |rs| ==> Stage(rs[i]) <= Stage(rs[j])
  }

  /** Every record is tagged with one of the iteration types from index `k` on
      and with one of the two speech acts. */
  predicate FromTypes(rs: seq<Dict>, k: nat) {
    forall i :: 0 <= i < |rs| ==>
      k <= TypeRank(TypeTag(rs[i])) < |IterationTypes| && (ActTag(rs[i]) == SpeechAct1 || ActTag(rs[i]) == SpeechAct2)
  }

  lemma IterationTypesDistinct()
    ensures forall i, j :: 0 <= i < j < |IterationTypes| ==> IterationTypes[i] != IterationTypes[j]
    ensures forall i :: 0 <= i < |IterationTypes| ==> IterationTypes[i] != ""
    ensures SpeechAct1 != SpeechAct2
  {
    assert |IterationTypes[0]| != |IterationTypes[1]|;
    assert IterationTypes[0][0] != IterationTypes[2][0] && IterationTypes[0][0] != IterationTypes[3][0];
    assert IterationTypes[1][0] != IterationTypes[2][0] && IterationTypes[1][0] != IterationTypes[3][0];
    assert IterationTypes[2][9] != IterationTypes[3][9];
    assert SpeechAct1[2] != SpeechAct2[2];
  }

  lemma {:induction false} RankFromOf(k: nat, i: nat)
    requires i <= k < |IterationTypes|
    ensures RankFrom(IterationTypes[k], i) == k
    decreases k - i
  {
    if i < k {
      IterationTypesDistinct();
      RankFromOf(k, i + 1);
    }
  }

  /** The loop over the iteration types visits each at its own position. */
  lemma RankOf(k: nat)
    requires k < |IterationTypes|
    ensures TypeRank(IterationTypes[k]) == k
  {
    RankFromOf(k, 0);
  }

  /** One container's records: the container is iterated, each element becomes
      one record in order, and the conversion fails exactly when iterating
      fails or some element fails. */
  lemma EmitSpec(content: Json, iterationType: string, act: string, split: bool)
    ensures Emit(content, iterationType, act, split).Ok? <==>
      Iterate(content).Ok? && forall i :: 0 <= i < |Iterate(content).value| ==> Processed(Iterate(content).value[i], iterationType, act, split).Ok?
    ensures Emit(content, iterationType, act, split).Ok? ==>
      && |Emit(content, iterationType, act, split).value| == |Iterate(content).value|
      && forall i :: 0 <= i < |Iterate(content).value| ==>
            Emit(content, iterationType, act, split).value[i] == Processed(Iterate(content).value[i], iterationType, act, split).value
  {
    if Iterate(content).Ok? {
      ProcessedAllSpec(Iterate(content).value, iterationType, act, split);
    }
  }

  /** The records of a sequence of elements, one processed element each. */
  lemma ProcessedAllSpec(elems: seq<Json>, iterationType: string, act: string, split: bool)
    ensures CollectFrom(ProcessedAll(elems, iterationType, act, split), 0).Ok? <==>
      forall i :: 0 <= i < |elems| ==> Processed(elems[i], iterationType, act, split).Ok?
    ensures CollectFrom(ProcessedAll(elems, iterationType, act, split), 0).Ok? ==>
      && |CollectFrom(ProcessedAll(elems, iterationType, act, split), 0).value| == |elems|
      && forall i :: 0 <= i < |elems| ==>
            CollectFrom(ProcessedAll(elems, iterationType, act, split), 0).value[i] == Processed(elems[i], iterationType, act, split).value
  {
    var steps := ProcessedAll(elems, iterationType, act, split);
    CollectFromSpec(steps, 0);
    assert forall i :: 0 <= i < |elems| ==> steps[i] == Processed(elems[i], iterationType, act, split);
  }

  /** Every record one container yields carries the given tags. */
  lemma EmitTagged(content: Json, iterationType: string, act: string, split: bool)
    ensures Emit(content, iterationType, act, split).Ok? ==> TaggedWith(Emit(content, iterationType, act, split).value, iterationType, act)
  {
    if Emit(content, iterationType, act, split).Ok? {
      EmitSpec(content, iterationType, act, split);
      var elems := Iterate(content).value;
      var rs := Emit(content, iterationType, act, split).value;
      forall i | 0 <= i < |rs|
        ensures TypeTag(rs[i]) == iterationType && ActTag(rs[i]) == act
      {
        assert Processed(elems[i], iterationType, act, split).Ok?;
        ProcessedKeepsOthers(elems[i], iterationType, act, split);
        assert rs[i] == Processed(elems[i], iterationType, act, split).value;
      }
    }
  }

  /** 话术二 takes the value of the first candidate key that is not null: a
      truthy one has its elements emitted, split; a falsy one, or none at all,
      leaves the dict itself as the one record; anything but a dict yields
      nothing. */
  lemma SecondActChoice(iterationType: string, content: Json, j: nat)
    requires j < |Ws2Keys|
    ensures
      (&& content.Obj? && PyGet(content.fields, Ws2Keys[j]) != Null
       && forall j' :: 0 <= j' < j ==> PyGet(content.fields, Ws2Keys[j']) == Null) ==>
        SecondActRecords(iterationType, content) ==
          if Truthy(PyGet(content.fields, Ws2Keys[j])) then Emit(PyGet(content.fields, Ws2Keys[j]), iterationType, SpeechAct2, true)
          else Ok([Tag(content.fields, iterationType, SpeechAct2)])
    ensures content.Obj? && (forall j' :: 0 <= j' < |Ws2Keys| ==> PyGet(content.fields, Ws2Keys[j']) == Null) ==>
      SecondActRecords(iterationType, content) == Ok([Tag(content.fields, iterationType, SpeechAct2)])
    ensures !content.Obj? ==> SecondActRecords(iterationType, content) == Ok([])
  {
    Ws2ListFromSpec(content, Ws2Keys, 0);
  }

  lemma TagTagged(d: Dict, iterationType: string, act: string)
    ensures TaggedWith([Tag(d, iterationType, act)], iterationType, act)
  {
    TagFields(d, iterationType, act);
  }

  /** Every record of a speech act is tagged with its iteration type and that act. */
  lemma ActTagged(iterationType: string, iteration: Json, act: string)
    requires act == SpeechAct1 || act == SpeechAct2
    ensures ActRecords(iterationType, iteration, act).Ok? ==> TaggedWith(ActRecords(iterationType, iteration, act).value, iterationType, act)
  {
    IterationTypesDistinct();
    match Lookup(iteration, act)
    case Err(_) =>
    case Ok(None) =>
    case Ok(Some(content)) =>
      if act == SpeechAct1 {
        if content.Obj? && PyGet(content.fields, "antibiotics") != Null {
          EmitTagged(PyGet(content.fields, "antibiotics"), iterationType, SpeechAct1, true);
        } else if content.Obj? && PyGet(content.fields, "data") != Null {
          EmitTagged(PyGet(content.fields, "data"), iterationType, SpeechAct1, false);
        } else if content.Obj? {
          TagTagged(content.fields, iterationType, SpeechAct1);
        }
      } else {
        var found := Ws2List(content);
        if Truthy(found) {
          EmitTagged(found, iterationType, SpeechAct2, true);
        } else if content.Obj? {
          TagTagged(content.fields, iterationType, SpeechAct2);
        }
      }
  }

  /** One iteration type's records are tagged with it, its 话术一 records all
      come before its 话术二 records, and nothing else is emitted. */
  lemma IterationTagged(paper: Json, iterationType: string)
    ensures IterationRecords(paper, iterationType).Ok? ==>
      var rs := IterationRecords(paper, iterationType).value;
      && (forall i :: 0 <= i < |rs| ==> TypeTag(rs[i]) == iterationType && (ActTag(rs[i]) == SpeechAct1 || ActTag(rs[i]) == SpeechAct2))
      && (forall i, j :: 0 <= i < j < |rs| && ActTag(rs[i]) == SpeechAct2 ==> ActTag(rs[j]) == SpeechAct2)
  {
    IterationTypesDistinct();
    match Lookup(paper, iterationType)
    case Err(_) =>
    case Ok(None) =>
    case Ok(Some(iteration)) =>
      var a := ActRecords(iterationType, iteration, SpeechAct1);
      var b := ActRecords(iterationType, iteration, SpeechAct2);
      ActTagged(iterationType, iteration, SpeechAct1);
      ActTagged(iterationType, iteration, SpeechAct2);
      if a.Ok? && b.Ok? {
        var rs := a.value + b.value;
        assert IterationRecords(paper, iterationType).value == rs;
        assert forall i :: 0 <= i < |a.value| ==> rs[i] == a.value[i];
        assert forall i :: |a.value| <= i < |rs| ==> rs[i] == b.value[i - |a.value|];
      }
  }

  /** One iteration type's records sit in its two groups, 话术一 first. */
  lemma IterationStaged(paper: Json, k: nat)
    requires k < |IterationTypes|
    ensures IterationRecords(paper, IterationTypes[k]).Ok? ==>
      var a := IterationRecords(paper, IterationTypes[k]).value;
      && FromTypes(a, k) && Staged(a)
      && forall i :: 0 <= i < |a| ==> Stage(a[i]) <= 2 * k + 1
  {
    IterationTagged(paper, IterationTypes[k]);
    RankOf(k);
  }

  lemma StagedAppend(a: seq<Dict>, b: seq<Dict>, k: nat)
    requires FromTypes(a, k) && Staged(a) && forall i :: 0 <= i < |a| ==> Stage(a[i]) <= 2 * k + 1
    requires FromTypes(b, k + 1) && Staged(b)
    ensures FromTypes(a + b, k) && Staged(a + b)
  {
    var rs := a + b;
    forall i | 0 <= i < |rs|
      ensures k <= TypeRank(TypeTag(rs[i])) < |IterationTypes| && (ActTag(rs[i]) == SpeechAct1 || ActTag(rs[i]) == SpeechAct2)
    {
      if i >= |a| {
        assert rs[i] == b[i - |a|];
      }
    }
    forall i, j | 0 <= i < j < |rs|
      ensures Stage(rs[i]) <= Stage(rs[j])
    {
      if j < |a| {
        assert rs[i] == a[i] && rs[j] == a[j];
      } else if i < |a| {
        assert rs[i] == a[i] && rs[j] == b[j - |a|];
        assert 2 * (k + 1) <= Stage(b[j - |a|]);
      } else {
        assert rs[i] == b[i - |a|] && rs[j] == b[j - |a|];
      }
    }
  }

  /** The records of the iteration types from index `k` on come grouped by
      iteration type in the fixed order, 话术一 before 话术二 inside each. */
  lemma {:induction false} PaperOrdered(paper: Json, k: nat)
    requires k <= |IterationTypes|
    ensures PaperRecordsFrom(paper, IterationTypes, k).Ok? ==>
      FromTypes(PaperRecordsFrom(paper, IterationTypes, k).value, k) && Staged(PaperRecordsFrom(paper, IterationTypes, k).value)
    decreases |IterationTypes| - k
  {
    if k < |IterationTypes| && PaperRecordsFrom(paper, IterationTypes, k).Ok? {
      PaperOrdered(paper, k + 1);
      IterationStaged(paper, k);
      var a := IterationRecords(paper, IterationTypes[k]).value;
      var b := PaperRecordsFrom(paper, IterationTypes, k + 1).value;
      assert PaperRecordsFrom(paper, IterationTypes, k).value == a + b;
      StagedAppend(a, b, k);
    }
  }

  /** All records of a document: tagged with an iteration type and a speech act,
      grouped by iteration type in the fixed order, 话术一 before 话术二. */
  lemma RecordsOrdered(data: Json)
    ensures Records(data).Ok? ==> FromTypes(Records(data).value, 0) && Staged(Records(data).value)
  {
    if data.Obj? && data.fields != [] {
      PaperOrdered(data.fields[0].val, 0);
    }
  }

  /** A paper without any of the iteration-type keys yields no records. */
  lemma {:induction false} NoIterationTypesNoRecords(paper: Json, k: nat)
    requires k <= |IterationTypes|
    requires paper.Obj?
    requires forall k' :: k <= k' < |IterationTypes| ==> !HasKey(paper.fields, IterationTypes[k'])
    ensures PaperRecordsFrom(paper, IterationTypes, k) == Ok([])
    decreases |IterationTypes| - k
  {
    if k < |IterationTypes| {
      NoIterationTypesNoRecords(paper, k + 1);
      assert IterationRecords(paper, IterationTypes[k]) == Ok([]);
      ThenNil(Ok([]));
    }
  }

  /** Only the values of the iteration-type keys of a paper are read: two
      papers that agree on them yield the same records or the same error. */
  lemma {:induction false} OnlyIterationTypesMatter(p1: Json, p2: Json, k: nat)
    requires k <= |IterationTypes|
    requires p1.Obj? && p2.Obj?
    requires forall k' :: k <= k' < |IterationTypes| ==> Get(p1.fields, IterationTypes[k']) == Get(p2.fields, IterationTypes[k'])
    ensures PaperRecordsFrom(p1, IterationTypes, k) == PaperRecordsFrom(p2, IterationTypes, k)
    decreases |IterationTypes| - k
  {
    if k < |IterationTypes| {
      OnlyIterationTypesMatter(p1, p2, k + 1);
      assert IterationRecords(p1, IterationTypes[k]) == IterationRecords(p2, IterationTypes[k]);
    }
  }

  /** A table of tagged records names an iteration type in every
      Iteration_Type cell and one of the two acts in every Speech_Act cell. */
  lemma ReindexTags(rs: seq<Dict>)
    requires FromTypes(rs, 0)
    ensures forall i :: 0 <= i < |rs| ==>
      && Reindex(rs).rows[i][1] == Some(Str(TypeTag(rs[i]))) && TypeTag(rs[i]) in IterationTypes
      && (Reindex(rs).rows[i][2] == Some(Str(SpeechAct1)) || Reindex(rs).rows[i][2] == Some(Str(SpeechAct2)))
  {
    IterationTypesDistinct();
    forall i | 0 <= i < |rs|
      ensures Reindex(rs).rows[i][1] == Some(Str(TypeTag(rs[i]))) && TypeTag(rs[i]) in IterationTypes
      ensures Reindex(rs).rows[i][2] == Some(Str(SpeechAct1)) || Reindex(rs).rows[i][2] == Some(Str(SpeechAct2))
    {
      var k := TypeRank(TypeTag(rs[i]));
      assert Reindex(rs).rows[i][1] == Get(rs[i], "Iteration_Type");
      assert Reindex(rs).rows[i][2] == Get(rs[i], "Speech_Act");
      assert TypeTag(rs[i]) == IterationTypes[k];
    }
  }

  /** The table: the standard header, one row per record in order, each cell the
      record's binding for that column (`None` when the key is missing, `null`
      kept as it is); the Iteration_Type cell names one of the iteration types
      and the Speech_Act cell one of the two acts. */
  lemma TableCells(data: Json)
    ensures JsonToTable(data).Ok? <==> Records(data).Ok?
    ensures JsonToTable(data).Ok? ==>
      var t := JsonToTable(data).value;
      var rs := Records(data).value;
      && t.columns == StandardColumns
      && |t.rows| == |rs|
      && (forall i, j :: 0 <= i < |rs| && 0 <= j < |StandardColumns| ==>
            |t.rows[i]| == |StandardColumns| && t.rows[i][j] == Get(rs[i], StandardColumns[j]))
      && (forall i :: 0 <= i < |rs| ==>
            && t.rows[i][1] == Some(Str(TypeTag(rs[i]))) && TypeTag(rs[i]) in IterationTypes
            && (t.rows[i][2] == Some(Str(SpeechAct1)) || t.rows[i][2] == Some(Str(SpeechAct2))))
  {
    if Records(data).Ok? {
      RecordsOrdered(data);
      ReindexTags(Records(data).value);
    }
  }
}
