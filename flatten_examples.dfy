/** The flattener on a comma without a space and on a one-record document. */
module FlattenExamples {
  import opened Wrappers
  import opened Text
  import opened JsonData
  import opened Flatten
  import opened FlattenProperties

  // `Beijing,2019`: a comma without a space leaves one part, and the second
  // part's index raises.

  lemma PlaceAndYearUnspaced()
    ensures SplitLocationDate("Beijing,2019") == Err(IndexError)
  {
    var s := "Beijing,2019";
    assert s[7] == ',';
    forall k: nat ensures !OccursAt(s, ", ", k) {
      if k + 2 <= |s| {
        assert s[k..k + 2][1] == s[k + 1];
      }
    }
  }

  // A document with one paper whose `deepseek_chat` 话术一 holds a plain dict.

  const Record: Dict := [Field("Name", Str("ciprofloxacin"))]
  const Iteration: Json := Obj([Field(SpeechAct1, Obj(Record))])
  const Paper: Json := Obj([Field(IterationTypes[0], Iteration)])
  const Document: Json := Obj([Field("10.1000/xyz", Paper)])

  lemma DocumentFirstAct()
    ensures ActRecords(IterationTypes[0], Iteration, SpeechAct1) == Ok([Tag(Record, IterationTypes[0], SpeechAct1)])
  {
    assert Lookup(Iteration, SpeechAct1) == Ok(Some(Obj(Record)));
    assert Get(Record, "antibiotics") == None && Get(Record, "data") == None;
  }

  lemma DocumentSecondAct()
    ensures ActRecords(IterationTypes[0], Iteration, SpeechAct2) == Ok([])
  {
    IterationTypesDistinct();
    assert Lookup(Iteration, SpeechAct2) == Ok(None);
  }

  lemma DocumentRecords()
    ensures Records(Document) == Ok([Tag(Record, IterationTypes[0], SpeechAct1)])
  {
    IterationTypesDistinct();
    assert Lookup(Paper, IterationTypes[0]) == Ok(Some(Iteration));
    DocumentFirstAct();
    DocumentSecondAct();
    assert [Tag(Record, IterationTypes[0], SpeechAct1)] + [] == [Tag(Record, IterationTypes[0], SpeechAct1)];
    assert IterationRecords(Paper, IterationTypes[0]) == Ok([Tag(Record, IterationTypes[0], SpeechAct1)]);
    NoIterationTypesNoRecords(Paper, 1);
    ThenNil(Ok([]));
  }
}
