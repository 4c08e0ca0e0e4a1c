/** `json_to_excel`: the flattening of one paper's extraction results into a
    table of tagged records. The paper is the value of the document's first
    key; under it every iteration type (one extraction model) may hold two
    speech acts, each a list of records or a single record. */
module Flatten {
  import opened Wrappers
  import opened Text
  import opened JsonData

  /** The iteration types, visited in this order. */
  const IterationTypes: seq<string> := ["deepseek_chat", "deepseek_coder", "ChatGPT_4o_mini", "ChatGPT_41_mini"]

  /** The two speech acts under an iteration type. */
  const SpeechAct1: string := "话术一"
  const SpeechAct2: string := "话术二"

  /** The keys under which the second speech act may hold its list, tried in this order. */
  const Ws2Keys: seq<string> := ["antibiotic_data", "monitoring_data", "antibiotics", "data"]

  /** The unit spellings whose presence makes "Value and Unit" split at its last space. */
  const Units: seq<string> := ["ng/L", "ng/g", "ng L\U{2212}1", "mg L\U{2212}1", "\U{3BC}g L\U{2212}1", "\U{3BC}g/L"]

  /** The en dash that is rewritten to `-` before a value is split. */
  const EnDash: char := '\U{2013}'

  const ValueAndUnit: string := "Value and Unit"
  const LocationAndDate: string := "Location & Date"

  /** The columns of the output table, in order. */
  const StandardColumns: seq<string> := ["PaperID", "Iteration_Type", "Speech_Act", "Name", "Water", "Value", "Unit", "Location", "Date", "Context"]

  // ----- Splitting the combined fields -----

  /** `any(unit in t for unit in units)`. */
  predicate HasUnit(t: string) {
    exists u :: u in Units && Contains(t, u)
  }

  /** "Value and Unit" as (Value, Unit): after the en dash is rewritten, a text
      with a space and a known unit splits at its last space; any other text is
      all Value and the Unit is empty. */
  function SplitValueUnit(text: string): (string, string) {
    var t := ReplaceChar(text, EnDash, '-');
    if ' ' in t && HasUnit(t) then
      var parts := RSplitOnce(t, ' ');
      (Strip(parts[0]), Strip(parts[1]))
    else
      (Strip(t), "")
  }

  /** What the split means: with a unit present, Value and Unit are the
      stripped text on either side of a space after which no space follows;
      otherwise Value is the whole stripped text. */
  lemma SplitValueUnitParts(text: string)
    ensures var t := ReplaceChar(text, EnDash, '-');
      ' ' in t && HasUnit(t) ==>
        exists before, after ::
          t == before + " " + after && ' ' !in after
          && SplitValueUnit(text) == (Strip(before), Strip(after))
    ensures var t := ReplaceChar(text, EnDash, '-');
      !(' ' in t && HasUnit(t)) ==> SplitValueUnit(text) == (Strip(t), "")
    ensures EnDash !in ReplaceChar(text, EnDash, '-')
  {
    var t := ReplaceChar(text, EnDash, '-');
    if ' ' in t && HasUnit(t) {
      var parts := RSplitOnce(t, ' ');
      assert t == parts[0] + " " + parts[1];
    }
  }

  /** "Location & Date" as (Location, Date): a text with a comma splits at its
      first ", "; a comma never followed by a space leaves one part, and taking
      the second part raises `IndexError`. */
  function SplitLocationDate(text: string): (r: Result<(string, string), Fault>)
    ensures r.Err? <==> ',' in text && !Contains(text, ", ")
    ensures r.Err? ==> r.error == IndexError
  {
    if ',' in text then
      var parts := SplitOnce(text, ", ");
      if |parts| < 2 then Err(IndexError) else Ok((Strip(parts[0]), Strip(parts[1])))
    else
      Ok((Strip(text), ""))
  }

  /** The split in terms of the text: Location and Date are the stripped text
      before and after the first ", ", and without a comma Location is the whole
      stripped text and Date is empty. */
  lemma SplitLocationDateParts(text: string)
    ensures Contains(text, ", ") ==>
      exists loc, date ::
        text == loc + ", " + date
        && (forall k: nat :: k < |loc| ==> !OccursAt(text, ", ", k))
        && SplitLocationDate(text) == Ok((Strip(loc), Strip(date)))
    ensures ',' !in text ==> SplitLocationDate(text) == Ok((Strip(text), ""))
  {
    if Contains(text, ", ") {
      var p := Find(text, ", ").value;
      assert text[p] == ',';
      var parts := SplitOnce(text, ", ");
      assert |parts| == 2;
      assert SplitLocationDate(text) == Ok((Strip(parts[0]), Strip(parts[1])));
      assert text == parts[0] + ", " + parts[1];
      assert forall k: nat :: k < |parts[0]| ==> !OccursAt(text, ", ", k);
    }
  }

  /** The text after the last occurrence of a separator is determined by the text. */
  lemma {:induction false} LastSeparatorUnique(a: string, b: string, a': string, b': string, c: char)
    requires a + [c] + b == a' + [c] + b'
    requires c !in b && c !in b'
    ensures a == a' && b == b'
  {
    var t := a + [c] + b;
    assert t[|a|] == c && forall k :: |a| < k < |t| ==> t[k] == b[k - |a| - 1];
    assert t[|a'|] == c && forall k :: |a'| < k < |t| ==> t[k] == b'[k - |a'| - 1];
    assert |a| == |a'|;
    assert a == t[..|a|] && a' == t[..|a'|];
    assert b == t[|a| + 1..] && b' == t[|a'| + 1..];
  }

  /** A text with a known unit in it splits at its last space: whatever follows
      that space is the Unit, stripped, and whatever precedes it the Value. */
  lemma SplitValueUnitAtLastSpace(value: string, unit: string)
    requires EnDash !in value + " " + unit
    requires ' ' !in unit
    requires HasUnit(value + " " + unit)
    ensures SplitValueUnit(value + " " + unit) == (Strip(value), Strip(unit))
  {
    var t := value + " " + unit;
    assert ReplaceChar(t, EnDash, '-') == t;
    assert t[|value|] == ' ';
    var parts := RSplitOnce(t, ' ');
    LastSeparatorUnique(parts[0], parts[1], value, unit, ' ');
  }

  /** A text with no space (and no en dash) is all Value. */
  lemma SplitValueUnitNoSpace(text: string)
    requires EnDash !in text && ' ' !in text
    ensures SplitValueUnit(text) == (Strip(text), "")
  {
    assert ReplaceChar(text, EnDash, '-') == text;
  }

  /** A text split at its first ", " gives the stripped text on either side. */
  lemma SplitLocationDateAtFirst(loc: string, date: string)
    requires forall k: nat :: k < |loc| ==> !OccursAt(loc + ", " + date, ", ", k)
    ensures SplitLocationDate(loc + ", " + date) == Ok((Strip(loc), Strip(date)))
  {
    var text := loc + ", " + date;
    assert text[|loc|..|loc| + 2] == ", ";
    assert OccursAt(text, ", ", |loc|);
    assert Find(text, ", ") == Some(|loc|);
    assert text[|loc|] == ',';
    assert text[..|loc|] == loc && text[|loc| + 2..] == date;
  }

  // ----- One record -----

  /** The "Value and Unit" step: the key is popped and its text becomes the
      Value and Unit fields; a value that is not a string has no `replace`. */
  function SplitValueField(d: Dict): Result<Dict, Fault> {
    if !HasKey(d, ValueAndUnit) then Ok(d)
    else
      var (popped, rest) := Pop(d, ValueAndUnit, Str(""));
      match popped
      case Str(s) =>
        var (value, unit) := SplitValueUnit(s);
        Ok(Set(Set(rest, "Value", Str(value)), "Unit", Str(unit)))
      case _ => Err(AttributeError)
  }

  /** The "Location & Date" step: the key is popped and its text becomes the
      Location and Date fields. `"," in v` raises `TypeError` on `None`, a
      number or a boolean; a list or a dict gets past it but has no `split` or
      `strip`. */
  function SplitLocationField(d: Dict): Result<Dict, Fault> {
    if !HasKey(d, LocationAndDate) then Ok(d)
    else
      var (popped, rest) := Pop(d, LocationAndDate, Str(""));
      match popped
      case Str(s) =>
        (match SplitLocationDate(s)
         case Err(e) => Err(e)
         case Ok((loc, date)) => Ok(Set(Set(rest, "Location", Str(loc)), "Date", Str(date))))
      case Arr(_) => Err(AttributeError)
      case Obj(_) => Err(AttributeError)
      case _ => Err(TypeError)
  }

  /** The two tags every emitted record carries. */
  function Tag(d: Dict, iterationType: string, act: string): Dict {
    Set(Set(d, "Iteration_Type", Str(iterationType)), "Speech_Act", Str(act))
  }

  /** One list element as an emitted record: copied, its combined fields split
      when `split` holds, then tagged. */
  function Processed(element: Json, iterationType: string, act: string, split: bool): Result<Dict, Fault> {
    match CopyRecord(element)
    case Err(e) => Err(e)
    case Ok(d) =>
      if !split then Ok(Tag(d, iterationType, act))
      else match SplitValueField(d)
        case Err(e) => Err(e)
        case Ok(d1) =>
          match SplitLocationField(d1)
          case Err(e) => Err(e)
          case Ok(d2) => Ok(Tag(d2, iterationType, act))
  }

  /** The "Value and Unit" step as the script performs it on its local copy. */
  method PopValueUnit(d: Dict) returns (result: Result<Dict, Fault>)
    ensures result == SplitValueField(d)
  {
    var current := d;
    if HasKey(current, ValueAndUnit) {
      var (popped, rest) := Pop(current, ValueAndUnit, Str(""));
      current := rest;
      if !popped.Str? {
        return Err(AttributeError);
      }
      var (value, unit) := SplitValueUnit(popped.s);
      current := Set(current, "Value", Str(value));
      current := Set(current, "Unit", Str(unit));
    }
    return Ok(current);
  }

  /** The "Location & Date" step as the script performs it on its local copy. */
  method PopLocationDate(d: Dict) returns (result: Result<Dict, Fault>)
    ensures result == SplitLocationField(d)
  {
    var current := d;
    if HasKey(current, LocationAndDate) {
      var (popped, rest) := Pop(current, LocationAndDate, Str(""));
      current := rest;
      if popped.Arr? || popped.Obj? {
        return Err(AttributeError);
      } else if !popped.Str? {
        return Err(TypeError);
      }
      var parts := SplitLocationDate(popped.s);
      if parts.Err? {
        return Err(parts.error);
      }
      current := Set(current, "Location", Str(parts.value.0));
      current := Set(current, "Date", Str(parts.value.1));
    }
    return Ok(current);
  }

  /** The loop body of `json_to_excel` for one element: copy, split the
      combined fields when asked to, tag. */
  method ProcessRecord(element: Json, iterationType: string, act: string, split: bool) returns (result: Result<Dict, Fault>)
    ensures result == Processed(element, iterationType, act, split)
  {
    var copied := CopyRecord(element);
    if copied.Err? {
      return Err(copied.error);
    }
    var current := copied.value;
    if split {
      var step := PopValueUnit(current);
      if step.Err? {
        return Err(step.error);
      }
      step := PopLocationDate(step.value);
      if step.Err? {
        return Err(step.error);
      }
      current := step.value;
    }
    current := Set(current, "Iteration_Type", Str(iterationType));
    current := Set(current, "Speech_Act", Str(act));
    return Ok(current);
  }

  /** The field names the flattener writes are pairwise different. */
  lemma KeysDiffer()
    ensures ValueAndUnit != LocationAndDate && ValueAndUnit != "Iteration_Type" && ValueAndUnit != "Speech_Act"
    ensures LocationAndDate !in ["Value", "Unit", "Iteration_Type", "Speech_Act"]
    ensures ValueAndUnit !in ["Location", "Date"]
    ensures "Iteration_Type" != "Speech_Act"
    ensures forall k :: k in ["Value", "Unit", "Location", "Date"] ==> k != "Iteration_Type" && k != "Speech_Act"
    ensures "Value" != "Unit" && "Location" != "Date"
    ensures "Value" !in ["Location", "Date"] && "Unit" !in ["Location", "Date"]
  {
    assert ValueAndUnit[0] != "Iteration_Type"[0];
    assert "Unit"[0] != "Date"[0];
  }

  /** Tagging writes the two tags and leaves every other field alone. */
  lemma TagFields(d: Dict, iterationType: string, act: string)
    ensures Get(Tag(d, iterationType, act), "Iteration_Type") == Some(Str(iterationType))
    ensures Get(Tag(d, iterationType, act), "Speech_Act") == Some(Str(act))
    ensures forall k {:trigger Get(Tag(d, iterationType, act), k)} :: k != "Iteration_Type" && k != "Speech_Act" ==> Get(Tag(d, iterationType, act), k) == Get(d, k)
  {
    KeysDiffer();
    var r1 := Set(d, "Iteration_Type", Str(iterationType));
    assert Get(Tag(d, iterationType, act), "Iteration_Type") == Get(r1, "Iteration_Type");
    forall k | k != "Iteration_Type" && k != "Speech_Act"
      ensures Get(Tag(d, iterationType, act), k) == Get(d, k)
    {
      assert Get(Tag(d, iterationType, act), k) == Get(r1, k);
    }
  }

  /** The "Value and Unit" step fails exactly on a value that is not a string;
      otherwise the key is gone, its parts are written, and nothing else moves. */
  lemma ValueFieldEffect(d: Dict)
    ensures SplitValueField(d).Err? <==> HasKey(d, ValueAndUnit) && !PyGet(d, ValueAndUnit).Str?
    ensures SplitValueField(d).Ok? ==> !HasKey(SplitValueField(d).value, ValueAndUnit)
    ensures SplitValueField(d).Ok? ==> forall k {:trigger Get(SplitValueField(d).value, k)} :: k != ValueAndUnit && k != "Value" && k != "Unit" ==>
      Get(SplitValueField(d).value, k) == Get(d, k)
    ensures SplitValueField(d).Ok? && HasKey(d, ValueAndUnit) ==>
      && Get(SplitValueField(d).value, "Value") == Some(Str(SplitValueUnit(PyGet(d, ValueAndUnit).s).0))
      && Get(SplitValueField(d).value, "Unit") == Some(Str(SplitValueUnit(PyGet(d, ValueAndUnit).s).1))
    ensures !HasKey(d, ValueAndUnit) ==> SplitValueField(d) == Ok(d)
  {
    KeysDiffer();
    if HasKey(d, ValueAndUnit) && PyGet(d, ValueAndUnit).Str? {
      var rest := Remove(d, ValueAndUnit);
      var (value, unit) := SplitValueUnit(PyGet(d, ValueAndUnit).s);
      var r1 := Set(rest, "Value", Str(value));
      var r := Set(r1, "Unit", Str(unit));
      assert SplitValueField(d) == Ok(r);
      assert Get(r, ValueAndUnit) == Get(r1, ValueAndUnit) == Get(rest, ValueAndUnit) == None;
      assert Get(r, "Value") == Get(r1, "Value");
      forall k | k != ValueAndUnit && k != "Value" && k != "Unit"
        ensures Get(r, k) == Get(d, k)
      {
        assert Get(r, k) == Get(r1, k) == Get(rest, k);
      }
    }
  }

  /** The "Location & Date" step fails exactly on a value that is not a string
      or on a comma without ", "; otherwise the key is gone, its parts are
      written, and nothing else moves. */
  lemma LocationFieldEffect(d: Dict)
    ensures SplitLocationField(d).Err? <==>
      HasKey(d, LocationAndDate) && (!PyGet(d, LocationAndDate).Str? || SplitLocationDate(PyGet(d, LocationAndDate).s).Err?)
    ensures SplitLocationField(d).Ok? ==> !HasKey(SplitLocationField(d).value, LocationAndDate)
    ensures SplitLocationField(d).Ok? ==> forall k {:trigger Get(SplitLocationField(d).value, k)} :: k != LocationAndDate && k != "Location" && k != "Date" ==>
      Get(SplitLocationField(d).value, k) == Get(d, k)
    ensures SplitLocationField(d).Ok? && HasKey(d, LocationAndDate) ==>
      && Get(SplitLocationField(d).value, "Location") == Some(Str(SplitLocationDate(PyGet(d, LocationAndDate).s).value.0))
      && Get(SplitLocationField(d).value, "Date") == Some(Str(SplitLocationDate(PyGet(d, LocationAndDate).s).value.1))
    ensures !HasKey(d, LocationAndDate) ==> SplitLocationField(d) == Ok(d)
  {
    KeysDiffer();
    if HasKey(d, LocationAndDate) && PyGet(d, LocationAndDate).Str? && SplitLocationDate(PyGet(d, LocationAndDate).s).Ok? {
      var rest := Remove(d, LocationAndDate);
      var (loc, date) := SplitLocationDate(PyGet(d, LocationAndDate).s).value;
      var r1 := Set(rest, "Location", Str(loc));
      var r := Set(r1, "Date", Str(date));
      assert SplitLocationField(d) == Ok(r);
      assert Get(r, LocationAndDate) == Get(r1, LocationAndDate) == Get(rest, LocationAndDate) == None;
      assert Get(r, "Location") == Get(r1, "Location");
      forall k | k != LocationAndDate && k != "Location" && k != "Date"
        ensures Get(r, k) == Get(d, k)
      {
        assert Get(r, k) == Get(r1, k) == Get(rest, k);
      }
    }
  }

  /** Processing fails, and the whole conversion with it, exactly when the
      element is not a dict, or splitting meets a combined field that is not a
      string, or a location text with a comma but no ", ". */
  lemma ProcessedFails(element: Json, iterationType: string, act: string, split: bool)
    ensures Processed(element, iterationType, act, split).Err? <==>
      || !element.Obj?
      || (split && HasKey(element.fields, ValueAndUnit) && !PyGet(element.fields, ValueAndUnit).Str?)
      || (split && HasKey(element.fields, LocationAndDate) && !PyGet(element.fields, LocationAndDate).Str?)
      || (split && HasKey(element.fields, LocationAndDate) && PyGet(element.fields, LocationAndDate).Str?
          && SplitLocationDate(PyGet(element.fields, LocationAndDate).s).Err?)
  {
    if element.Obj? && split {
      var d := element.fields;
      KeysDiffer();
      ValueFieldEffect(d);
      if SplitValueField(d).Ok? {
        var d1 := SplitValueField(d).value;
        LocationFieldEffect(d1);
        assert Get(d1, LocationAndDate) == Get(d, LocationAndDate);
        assert HasKey(d1, LocationAndDate) == HasKey(d, LocationAndDate);
      }
    }
  }

  /** A record that gets through splitting went through both steps and the tags. */
  lemma ProcessedSteps(element: Json, iterationType: string, act: string)
    requires element.Obj?
    requires Processed(element, iterationType, act, true).Ok?
    ensures SplitValueField(element.fields).Ok?
    ensures SplitLocationField(SplitValueField(element.fields).value).Ok?
    ensures Processed(element, iterationType, act, true)
         == Ok(Tag(SplitLocationField(SplitValueField(element.fields).value).value, iterationType, act))
  {
  }

  /** With splitting, "Value and Unit" gives way to its two parts. */
  lemma ProcessedValueUnit(element: Json, iterationType: string, act: string)
    requires element.Obj? && HasKey(element.fields, ValueAndUnit)
    requires Processed(element, iterationType, act, true).Ok?
    ensures PyGet(element.fields, ValueAndUnit).Str?
    ensures !HasKey(Processed(element, iterationType, act, true).value, ValueAndUnit)
    ensures Get(Processed(element, iterationType, act, true).value, "Value")
         == Some(Str(SplitValueUnit(PyGet(element.fields, ValueAndUnit).s).0))
    ensures Get(Processed(element, iterationType, act, true).value, "Unit")
         == Some(Str(SplitValueUnit(PyGet(element.fields, ValueAndUnit).s).1))
  {
    ProcessedSteps(element, iterationType, act);
    ValueUnitThrough(element.fields, iterationType, act);
  }

  /** The Value/Unit step's fields survive the Location/Date step and the tags. */
  lemma ValueUnitThrough(d: Dict, iterationType: string, act: string)
    requires HasKey(d, ValueAndUnit)
    requires SplitValueField(d).Ok? && SplitLocationField(SplitValueField(d).value).Ok?
    ensures PyGet(d, ValueAndUnit).Str?
    ensures var r := Tag(SplitLocationField(SplitValueField(d).value).value, iterationType, act);
      && Get(r, ValueAndUnit) == None
      && Get(r, "Value") == Some(Str(SplitValueUnit(PyGet(d, ValueAndUnit).s).0))
      && Get(r, "Unit") == Some(Str(SplitValueUnit(PyGet(d, ValueAndUnit).s).1))
  {
    KeysDiffer();
    ValueFieldEffect(d);
    var d1 := SplitValueField(d).value;
    KeptThroughLocationAndTags(d1, ValueAndUnit, iterationType, act);
    KeptThroughLocationAndTags(d1, "Value", iterationType, act);
    KeptThroughLocationAndTags(d1, "Unit", iterationType, act);
  }

  /** A field neither the Location/Date step nor the tags write keeps its value
      through both. */
  lemma KeptThroughLocationAndTags(d1: Dict, k: string, iterationType: string, act: string)
    requires SplitLocationField(d1).Ok?
    requires k != LocationAndDate && k != "Location" && k != "Date" && k != "Iteration_Type" && k != "Speech_Act"
    ensures Get(Tag(SplitLocationField(d1).value, iterationType, act), k) == Get(d1, k)
  {
    LocationFieldEffect(d1);
    TagFields(SplitLocationField(d1).value, iterationType, act);
  }

  /** With splitting, "Location & Date" gives way to its two parts. */
  lemma ProcessedLocationDate(element: Json, iterationType: string, act: string)
    requires element.Obj? && HasKey(element.fields, LocationAndDate)
    requires Processed(element, iterationType, act, true).Ok?
    ensures PyGet(element.fields, LocationAndDate).Str?
    ensures SplitLocationDate(PyGet(element.fields, LocationAndDate).s).Ok?
    ensures !HasKey(Processed(element, iterationType, act, true).value, LocationAndDate)
    ensures Get(Processed(element, iterationType, act, true).value, "Location")
         == Some(Str(SplitLocationDate(PyGet(element.fields, LocationAndDate).s).value.0))
    ensures Get(Processed(element, iterationType, act, true).value, "Date")
         == Some(Str(SplitLocationDate(PyGet(element.fields, LocationAndDate).s).value.1))
  {
    ProcessedSteps(element, iterationType, act);
    LocationDateThrough(element.fields, iterationType, act);
  }

  /** The Location/Date step reads the field the Value/Unit step left alone, and
      its fields survive the tags. */
  lemma LocationDateThrough(d: Dict, iterationType: string, act: string)
    requires HasKey(d, LocationAndDate)
    requires SplitValueField(d).Ok? && SplitLocationField(SplitValueField(d).value).Ok?
    ensures PyGet(d, LocationAndDate).Str? && SplitLocationDate(PyGet(d, LocationAndDate).s).Ok?
    ensures var r := Tag(SplitLocationField(SplitValueField(d).value).value, iterationType, act);
      && Get(r, LocationAndDate) == None
      && Get(r, "Location") == Some(Str(SplitLocationDate(PyGet(d, LocationAndDate).s).value.0))
      && Get(r, "Date") == Some(Str(SplitLocationDate(PyGet(d, LocationAndDate).s).value.1))
  {
    KeysDiffer();
    ValueFieldEffect(d);
    var d1 := SplitValueField(d).value;
    assert Get(d1, LocationAndDate) == Get(d, LocationAndDate);
    LocationFieldEffect(d1);
    var d2 := SplitLocationField(d1).value;
    TagFields(d2, iterationType, act);
    assert Get(Tag(d2, iterationType, act), LocationAndDate) == Get(d2, LocationAndDate);
    assert Get(Tag(d2, iterationType, act), "Location") == Get(d2, "Location");
    assert Get(Tag(d2, iterationType, act), "Date") == Get(d2, "Date");
  }

  /** An emitted record carries its iteration type and speech act, and every
      field the flattener does not write is carried over unchanged. */
  lemma ProcessedKeepsOthers(element: Json, iterationType: string, act: string, split: bool)
    requires Processed(element, iterationType, act, split).Ok?
    ensures element.Obj?
    ensures Get(Processed(element, iterationType, act, split).value, "Iteration_Type") == Some(Str(iterationType))
    ensures Get(Processed(element, iterationType, act, split).value, "Speech_Act") == Some(Str(act))
    ensures forall k {:trigger Get(Processed(element, iterationType, act, split).value, k)} :: k != "Iteration_Type" && k != "Speech_Act" && (split ==> k !in [ValueAndUnit, LocationAndDate, "Value", "Unit", "Location", "Date"]) ==>
      Get(Processed(element, iterationType, act, split).value, k) == Get(element.fields, k)
  {
    var d := element.fields;
    if split {
      ValueFieldEffect(d);
      var d1 := SplitValueField(d).value;
      LocationFieldEffect(d1);
      TagFields(SplitLocationField(d1).value, iterationType, act);
    } else {
      TagFields(d, iterationType, act);
    }
  }

  // ----- One list of records -----

  /** The records of two steps run in turn: a failure of the first stops
      everything, a failure of the second discards what the first produced. */
  function Then(a: Result<seq<Dict>, Fault>, b: Result<seq<Dict>, Fault>): Result<seq<Dict>, Fault> {
    match a
    case Err(e) => Err(e)
    case Ok(xs) => (match b case Err(e) => Err(e) case Ok(ys) => Ok(xs + ys))
  }

  lemma ThenAssoc(a: Result<seq<Dict>, Fault>, b: Result<seq<Dict>, Fault>, c: Result<seq<Dict>, Fault>)
    ensures Then(Then(a, b), c) == Then(a, Then(b, c))
  {
    if a.Ok? && b.Ok? && c.Ok? {
      assert (a.value + b.value) + c.value == a.value + (b.value + c.value);
    }
  }

  lemma ThenNil(r: Result<seq<Dict>, Fault>)
    ensures Then(Ok([]), r) == r
  {
    if r.Ok? {
      assert [] + r.value == r.value;
    }
  }

  lemma ThenOk(xs: seq<Dict>, ys: seq<Dict>, r: Result<seq<Dict>, Fault>)
    ensures Then(Ok(xs), Then(Ok(ys), r)) == Then(Ok(xs + ys), r)
  {
    if r.Ok? {
      assert xs + (ys + r.value) == (xs + ys) + r.value;
    }
  }

  /** The records of a run of per-element outcomes from index `j` on, the
      first failure aborting. */
  function CollectFrom(steps: seq<Result<Dict, Fault>>, j: nat): Result<seq<Dict>, Fault>
    requires j <= |steps|
    decreases |steps| - j
  {
    if j == |steps| then Ok([])
    else match steps[j]
      case Err(e) => Err(e)
      case Ok(d) => Then(Ok([d]), CollectFrom(steps, j + 1))
  }

  /** The outcome of processing each element. */
  function ProcessedAll(elems: seq<Json>, iterationType: string, act: string, split: bool): (steps: seq<Result<Dict, Fault>>)
    ensures |steps| == |elems|
    ensures forall i :: 0 <= i < |elems| ==> steps[i] == Processed(elems[i], iterationType, act, split)
  {
    seq(|elems|, i requires 0 <= i < |elems| => Processed(elems[i], iterationType, act, split))
  }

  /** `for record in content: ...`: the records one container yields. */
  function Emit(content: Json, iterationType: string, act: string, split: bool): Result<seq<Dict>, Fault> {
    match Iterate(content)
    case Err(e) => Err(e)
    case Ok(elems) => CollectFrom(ProcessedAll(elems, iterationType, act, split), 0)
  }

  /** The records are the successful outcomes, one each and in order, unless
      an element fails; then the first failure is the outcome. */
  lemma {:induction false} CollectFromSpec(steps: seq<Result<Dict, Fault>>, j: nat)
    requires j <= |steps|
    ensures CollectFrom(steps, j).Ok? <==> forall i :: j <= i < |steps| ==> steps[i].Ok?
    ensures CollectFrom(steps, j).Ok? ==>
      && |CollectFrom(steps, j).value| == |steps| - j
      && forall i :: j <= i < |steps| ==> CollectFrom(steps, j).value[i - j] == steps[i].value
    ensures CollectFrom(steps, j).Err? ==>
      exists i :: j <= i < |steps| && steps[i] == Err(CollectFrom(steps, j).error)
        && forall i' :: j <= i' < i ==> steps[i'].Ok?
    decreases |steps| - j
  {
    if j < |steps| {
      CollectFromSpec(steps, j + 1);
      if steps[j].Ok? && CollectFrom(steps, j + 1).Ok? {
        var rest := CollectFrom(steps, j + 1).value;
        assert CollectFrom(steps, j).value == [steps[j].value] + rest;
      }
    }
  }

  /** The inner `for record in ...` loop: each element processed and appended
      to `all`, the first failure aborting. */
  method AppendRecords(all: seq<Dict>, content: Json, iterationType: string, act: string, split: bool)
    returns (result: Result<seq<Dict>, Fault>)
    ensures result == Then(Ok(all), Emit(content, iterationType, act, split))
  {
    var elems := Iterate(content);
    if elems.Err? {
      return Err(elems.error);
    }
    ghost var steps := ProcessedAll(elems.value, iterationType, act, split);
    assert Emit(content, iterationType, act, split) == CollectFrom(steps, 0);
    var records := all;
    var j := 0;
    while j < |elems.value|
      invariant 0 <= j <= |elems.value|
      invariant Then(Ok(records), CollectFrom(steps, j)) == Then(Ok(all), CollectFrom(steps, 0))
      decreases |elems.value| - j
    {
      var current := ProcessRecord(elems.value[j], iterationType, act, split);
      assert current == steps[j];
      CollectStep(records, steps, j);
      if current.Err? {
        return Err(current.error);
      }
      records := records + [current.value];
      j := j + 1;
    }
    assert records + [] == records;
    return Ok(records);
  }

  /** One pass of the record loop, as the loop sees it: a failing element is
      the outcome, a good one is appended and the rest is left to do. */
  lemma CollectStep(records: seq<Dict>, steps: seq<Result<Dict, Fault>>, j: nat)
    requires j < |steps|
    ensures steps[j].Err? ==> Then(Ok(records), CollectFrom(steps, j)) == Err(steps[j].error)
    ensures steps[j].Ok? ==>
      Then(Ok(records), CollectFrom(steps, j)) == Then(Ok(records + [steps[j].value]), CollectFrom(steps, j + 1))
  {
    if steps[j].Ok? {
      ThenOk(records, [steps[j].value], CollectFrom(steps, j + 1));
    }
  }

  // ----- Speech acts, iteration types, the paper -----

  /** 话术一: a dict with an "antibiotics" value yields its elements, split; else
      one with a "data" value yields its elements unsplit; else the dict itself
      is the one record. Anything but a dict yields nothing. */
  function FirstActRecords(iterationType: string, content: Json): Result<seq<Dict>, Fault> {
    if content.Obj? && PyGet(content.fields, "antibiotics") != Null then
      Emit(PyGet(content.fields, "antibiotics"), iterationType, SpeechAct1, true)
    else if content.Obj? && PyGet(content.fields, "data") != Null then
      Emit(PyGet(content.fields, "data"), iterationType, SpeechAct1, false)
    else if content.Obj? then
      Ok([Tag(content.fields, iterationType, SpeechAct1)])
    else
      Ok([])
  }

  /** The list 话术二 holds: the value of the first of `keys` from `i` on
      that a dict has and that is not `null`; an empty list when there is none. */
  function Ws2ListFrom(content: Json, keys: seq<string>, i: nat): Json
    requires i <= |keys|
    decreases |keys| - i
  {
    if i == |keys| then Arr([])
    else if content.Obj? && PyGet(content.fields, keys[i]) != Null then PyGet(content.fields, keys[i])
    else Ws2ListFrom(content, keys, i + 1)
  }

  function Ws2List(content: Json): Json {
    Ws2ListFrom(content, Ws2Keys, 0)
  }

  /** The search picks the first key with a non-null value, or finds nothing. */
  lemma {:induction false} Ws2ListFromSpec(content: Json, keys: seq<string>, i: nat)
    requires i <= |keys|
    ensures Ws2ListFrom(content, keys, i) != Null
    ensures (content.Obj? && exists j :: i <= j < |keys| && PyGet(content.fields, keys[j]) != Null) ==>
      exists j :: i <= j < |keys| && Ws2ListFrom(content, keys, i) == PyGet(content.fields, keys[j])
        && forall j' :: i <= j' < j ==> PyGet(content.fields, keys[j']) == Null
    ensures !(content.Obj? && exists j :: i <= j < |keys| && PyGet(content.fields, keys[j]) != Null) ==>
      Ws2ListFrom(content, keys, i) == Arr([])
    decreases |keys| - i
  {
    if i < |keys| {
      Ws2ListFromSpec(content, keys, i + 1);
    }
  }

  /** The search loop with `break` over the candidate keys. */
  method FindWs2List(content: Json) returns (found: Json)
    ensures found == Ws2List(content)
  {
    found := Arr([]);
    var i := 0;
    while i < |Ws2Keys|
      invariant 0 <= i <= |Ws2Keys|
      invariant found == Arr([])
      invariant Ws2ListFrom(content, Ws2Keys, i) == Ws2List(content)
    {
      if content.Obj? && PyGet(content.fields, Ws2Keys[i]) != Null {
        found := PyGet(content.fields, Ws2Keys[i]);
        break;
      }
      i := i + 1;
    }
  }

  /** 话术二: a truthy list found under one of the candidate keys yields its
      elements, split; otherwise a dict is itself the one record, and anything
      else yields nothing. */
  function SecondActRecords(iterationType: string, content: Json): Result<seq<Dict>, Fault> {
    var found := Ws2List(content);
    if Truthy(found) then Emit(found, iterationType, SpeechAct2, true)
    else if content.Obj? then Ok([Tag(content.fields, iterationType, SpeechAct2)])
    else Ok([])
  }

  /** `if k in container: v = container[k]`: `None` when `k` is not in it. */
  function Lookup(container: Json, k: string): (r: Result<Option<Json>, Fault>)
    ensures container.Obj? ==> r == Ok(Get(container.fields, k))
  {
    match Member(container, k)
    case Err(e) => Err(e)
    case Ok(false) => Ok(None)
    case Ok(true) =>
      match Index(container, k)
      case Err(e) => Err(e)
      case Ok(v) => Ok(Some(v))
  }

  /** The records of one speech act of one iteration type. */
  function ActRecords(iterationType: string, iteration: Json, act: string): Result<seq<Dict>, Fault> {
    match Lookup(iteration, act)
    case Err(e) => Err(e)
    case Ok(None) => Ok([])
    case Ok(Some(content)) =>
      if act == SpeechAct1 then FirstActRecords(iterationType, content) else SecondActRecords(iterationType, content)
  }

  /** The records of one iteration type: 话术一, then 话术二. */
  function IterationRecords(paper: Json, iterationType: string): Result<seq<Dict>, Fault> {
    match Lookup(paper, iterationType)
    case Err(e) => Err(e)
    case Ok(None) => Ok([])
    case Ok(Some(iteration)) =>
      Then(ActRecords(iterationType, iteration, SpeechAct1), ActRecords(iterationType, iteration, SpeechAct2))
  }

  /** The records of the iteration types from index `k` of `types` on, in order. */
  function PaperRecordsFrom(paper: Json, types: seq<string>, k: nat): Result<seq<Dict>, Fault>
    requires k <= |types|
    decreases |types| - k
  {
    if k == |types| then Ok([])
    else Then(IterationRecords(paper, types[k]), PaperRecordsFrom(paper, types, k + 1))
  }

  /** All records of a document: only its first key's value is read;
      `data.keys()` fails on anything but a dict and `[0]` on an empty one. */
  function Records(data: Json): Result<seq<Dict>, Fault> {
    match data
    case Obj(fields) =>
      if fields == [] then Err(IndexError) else PaperRecordsFrom(fields[0].val, IterationTypes, 0)
    case _ => Err(AttributeError)
  }

  // ----- The table -----

  /** The output table: a header and one row of cells per record; `None` is an
      empty cell. */
  datatype Table = Table(columns: seq<string>, rows: seq<seq<Option<Json>>>)

  /** `DataFrame(records).reindex(columns=StandardColumns)`. */
  function Reindex(records: seq<Dict>): (t: Table)
    ensures t.columns == StandardColumns && |t.rows| == |records|
    ensures forall i :: 0 <= i < |records| ==> |t.rows[i]| == |StandardColumns|
  {
    Table(StandardColumns, seq(|records|, i requires 0 <= i < |records| =>
      seq(|StandardColumns|, j requires 0 <= j < |StandardColumns| => Get(records[i], StandardColumns[j]))))
  }

  /** The table `json_to_excel` writes, or the exception that aborts it. */
  function JsonToTable(data: Json): Result<Table, Fault> {
    match Records(data)
    case Err(e) => Err(e)
    case Ok(records) => Ok(Reindex(records))
  }

  // ----- The imperative walk -----

  /** The 话术一 block: find the container and append its records. */
  method AppendFirstAct(all: seq<Dict>, iterationType: string, iteration: Json) returns (result: Result<seq<Dict>, Fault>)
    ensures result == Then(Ok(all), ActRecords(iterationType, iteration, SpeechAct1))
  {
    var present := Member(iteration, SpeechAct1);
    if present.Err? {
      return Err(present.error);
    }
    if !present.value {
      assert all + [] == all;
      return Ok(all);
    }
    var content := Index(iteration, SpeechAct1);
    if content.Err? {
      return Err(content.error);
    }
    var ws1 := content.value;
    if ws1.Obj? && PyGet(ws1.fields, "antibiotics") != Null {
      result := AppendRecords(all, PyGet(ws1.fields, "antibiotics"), iterationType, SpeechAct1, true);
    } else if ws1.Obj? && PyGet(ws1.fields, "data") != Null {
      result := AppendRecords(all, PyGet(ws1.fields, "data"), iterationType, SpeechAct1, false);
    } else if ws1.Obj? {
      var current := ProcessRecord(ws1, iterationType, SpeechAct1, false);
      result := Ok(all + [current.value]);
    } else {
      assert all + [] == all;
      result := Ok(all);
    }
  }

  /** The 话术二 block: search the candidate keys, then append the list's
      records or the dict itself. */
  method AppendSecondAct(all: seq<Dict>, iterationType: string, iteration: Json) returns (result: Result<seq<Dict>, Fault>)
    ensures result == Then(Ok(all), ActRecords(iterationType, iteration, SpeechAct2))
  {
    assert SpeechAct2 != SpeechAct1 by {
      assert SpeechAct2[2] != SpeechAct1[2];
    }
    var present := Member(iteration, SpeechAct2);
    if present.Err? {
      return Err(present.error);
    }
    if !present.value {
      assert all + [] == all;
      return Ok(all);
    }
    var content := Index(iteration, SpeechAct2);
    if content.Err? {
      return Err(content.error);
    }
    var ws2 := content.value;
    var found := FindWs2List(ws2);
    if Truthy(found) {
      result := AppendRecords(all, found, iterationType, SpeechAct2, true);
    } else if ws2.Obj? {
      var current := ProcessRecord(ws2, iterationType, SpeechAct2, false);
      result := Ok(all + [current.value]);
    } else {
      assert all + [] == all;
      result := Ok(all);
    }
  }

  /** The body of the loop over iteration types: both speech acts of one type. */
  method AppendIteration(all: seq<Dict>, paper: Json, iterationType: string) returns (result: Result<seq<Dict>, Fault>)
    ensures result == Then(Ok(all), IterationRecords(paper, iterationType))
  {
    var present := Member(paper, iterationType);
    if present.Err? {
      return Err(present.error);
    }
    if !present.value {
      assert all + [] == all;
      return Ok(all);
    }
    var iteration := Index(paper, iterationType);
    if iteration.Err? {
      return Err(iteration.error);
    }
    ThenAssoc(Ok(all), ActRecords(iterationType, iteration.value, SpeechAct1), ActRecords(iterationType, iteration.value, SpeechAct2));
    result := AppendFirstAct(all, iterationType, iteration.value);
    if result.Err? {
      return;
    }
    result := AppendSecondAct(result.value, iterationType, iteration.value);
  }

  /** One pass of the loop over the iteration types, as the loop sees it: a
      failure is the outcome of the whole walk, a success leaves the rest of
      the walk to do. */
  lemma PaperStep(all: seq<Dict>, paper: Json, types: seq<string>, k: nat, step: Result<seq<Dict>, Fault>, whole: Result<seq<Dict>, Fault>)
    requires k < |types|
    requires Then(Ok(all), PaperRecordsFrom(paper, types, k)) == whole
    requires step == Then(Ok(all), IterationRecords(paper, types[k]))
    ensures step.Err? ==> whole == step
    ensures step.Ok? ==> Then(Ok(step.value), PaperRecordsFrom(paper, types, k + 1)) == whole
  {
    ThenAssoc(Ok(all), IterationRecords(paper, types[k]), PaperRecordsFrom(paper, types, k + 1));
  }

  /** Past the last iteration type the walk has nothing left to add. */
  lemma PaperDone(all: seq<Dict>, paper: Json, types: seq<string>, whole: Result<seq<Dict>, Fault>)
    requires Then(Ok(all), PaperRecordsFrom(paper, types, |types|)) == whole
    ensures whole == Ok(all)
  {
    assert all + [] == all;
  }

  /** `for iteration_type in iteration_types`, appending to one list of records. */
  method AppendPaper(paper: Json, types: seq<string>) returns (result: Result<seq<Dict>, Fault>)
    ensures result == PaperRecordsFrom(paper, types, 0)
  {
    ghost var whole := PaperRecordsFrom(paper, types, 0);
    var allRecords: seq<Dict> := [];
    ThenNil(whole);
    var k := 0;
    while k < |types|
      invariant 0 <= k <= |types|
      invariant Then(Ok(allRecords), PaperRecordsFrom(paper, types, k)) == whole
      decreases |types| - k
    {
      var step := AppendIteration(allRecords, paper, types[k]);
      PaperStep(allRecords, paper, types, k, step, whole);
      if step.Err? {
        return step;
      }
      allRecords := step.value;
      k := k + 1;
    }
    PaperDone(allRecords, paper, types, whole);
    return Ok(allRecords);
  }

  /** `json_to_excel` without the file I/O: the first paper's records, then
      the reindexed table. */
  method JsonToExcel(data: Json) returns (result: Result<Table, Fault>)
    ensures result == JsonToTable(data)
  {
    if !data.Obj? {
      return Err(AttributeError);
    }
    if data.fields == [] {
      return Err(IndexError);
    }
    var records := AppendPaper(data.fields[0].val, IterationTypes);
    if records.Err? {
      return Err(records.error);
    }
    return Ok(Reindex(records.value));
  }
}
