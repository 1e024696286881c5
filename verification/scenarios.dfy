/** Concrete runs of the node on small inputs: the date and omission rules
    on literal parameters, and three end-to-end batches. The catalog and the
    date parser are left arbitrary, since none of these outcomes depend on
    them beyond the label. */
module Scenarios {
  import opened Base
  import opened JsonValue
  import opened Catalog
  import opened Query
  import opened Normalization
  import opened Batch

  /** The default parameters with variable 1: no dates, `limit` 100, `offset` 0. */
  const Defaults: Params := Params(1, "", "", 100, Some(0))

  function Observation(fecha: string, valor: int): Json {
    JObj(map["fecha" := JStr(fecha), "valor" := JNum(valor)])
  }

  /** Always answers with the same body. */
  function Answer(body: Json): Transport {
    (req: Request) => Ok(body)
  }

  /** Always throws with the same message. */
  function Refuse(message: string): Transport {
    (req: Request) => Err(message)
  }

  /** A full timestamp is sent as its calendar date. */
  lemma TimestampTruncated()
    ensures DatePart("2024-03-15T10:30:00Z") == "2024-03-15"
  {
    var iso, d := "2024-03-15T10:30:00Z", "2024-03-15";
    assert d == iso[..10];
    DatePartUnique(iso, d);
  }

  /** Empty dates and a zero `limit` are left out; a zero `offset` is sent. */
  lemma OmissionRules(parse: DateParser)
    ensures BuildQuery(parse, Params(1, "", "", 0, Some(0))) == Ok(map["offset" := QNum(0)])
  {
    var r := BuildQuery(parse, Params(1, "", "", 0, Some(0)));
    assert DateField(parse, "") == Ok(None);
    assert r.value == map["offset" := QNum(0)];
  }

  /** The run of a single item whose request is answered with `body`. */
  lemma SingleItemRun(catalog: seq<Entry>, parse: DateParser, body: Json, continueOnFail: bool)
    requires !body.JNull?
    ensures var r := Run(catalog, parse, [Slot(Ok(Defaults), Answer(body))], continueOnFail);
      r == Normalize(body, Label(catalog, 1), 1, 0)
  {
    var slots := [Slot(Ok(Defaults), Answer(body))];
    var hs := Handled(catalog, parse, slots);
    assert Sent(parse, slots[0]).Ok?;
    assert Reply(parse, slots[0]) == Ok(body);
    var recs := Normalize(body, Label(catalog, 1), 1, 0);
    HandledAt(catalog, parse, slots, 0);
    assert hs[0] == HandleItem(catalog, parse, slots[0], 0) == recs;
    assert Fold(hs, continueOnFail, 0) == Ok([]);
    assert [] + recs.value == recs.value;
  }

  /** One item whose body holds a two-element `results` array yields two
      records for item 0, in array order, each with the variable's label and
      identifier. */
  lemma ScenarioArray(catalog: seq<Entry>, parse: DateParser)
    ensures var body := JObj(map["results" := JArr([Observation("2024-01-01", 100), Observation("2024-01-02", 101)])]);
      var r := Run(catalog, parse, [Slot(Ok(Defaults), Answer(body))], false);
      && r.Ok? && |r.value| == 2
      && r.value[0].pairedItem == 0 && r.value[1].pairedItem == 0
      && r.value[0].json == Merge(Spread(Observation("2024-01-01", 100)), Label(catalog, 1), 1)
      && r.value[1].json == Merge(Spread(Observation("2024-01-02", 101)), Label(catalog, 1), 1)
  {
    var body := JObj(map["results" := JArr([Observation("2024-01-01", 100), Observation("2024-01-02", 101)])]);
    SingleItemRun(catalog, parse, body, false);
    assert HasResultsArray(body);
  }

  /** One item whose body has no `results` key yields exactly one record:
      the body with the label and identifier merged in. */
  lemma ScenarioObject(catalog: seq<Entry>, parse: DateParser)
    ensures var body := Observation("2024-01-01", 100);
      var r := Run(catalog, parse, [Slot(Ok(Defaults), Answer(body))], false);
      && r.Ok? && |r.value| == 1
      && r.value[0] == Record(Merge(body.fields, Label(catalog, 1), 1), 0)
  {
    var body := Observation("2024-01-01", 100);
    SingleItemRun(catalog, parse, body, false);
    assert !HasResultsArray(body);
  }

  /** Two items under continue-on-fail, the second one's request throwing:
      one normal record for item 0, then one error record for item 1. */
  lemma ScenarioTransportFailure(catalog: seq<Entry>, parse: DateParser)
    ensures var body := JObj(map["results" := JArr([Observation("2024-01-01", 100)])]);
      var slots := [Slot(Ok(Defaults), Answer(body)), Slot(Ok(Defaults), Refuse("socket hang up"))];
      var r := Run(catalog, parse, slots, true);
      && r.Ok? && |r.value| == 2
      && r.value[0].pairedItem == 0 && "valor" in r.value[0].json
      && r.value[1] == ErrorRecord("socket hang up", 1)
  {
    var body := JObj(map["results" := JArr([Observation("2024-01-01", 100)])]);
    var slots := [Slot(Ok(Defaults), Answer(body)), Slot(Ok(Defaults), Refuse("socket hang up"))];
    var hs := Handled(catalog, parse, slots);
    assert HasResultsArray(body);
    assert Sent(parse, slots[0]).Ok? && Sent(parse, slots[1]).Ok?;
    assert Reply(parse, slots[0]) == Ok(body);
    assert Reply(parse, slots[1]) == Err("socket hang up");
    var recs := Normalize(body, Label(catalog, 1), 1, 0);
    HandledAt(catalog, parse, slots, 0);
    HandledAt(catalog, parse, slots, 1);
    assert hs[0] == HandleItem(catalog, parse, slots[0], 0) == recs;
    assert hs[1] == HandleItem(catalog, parse, slots[1], 1) == Err("socket hang up");
    assert |recs.value| == 1;
    assert recs.value[0].json == Merge(Spread(Observation("2024-01-01", 100)), Label(catalog, 1), 1);
    assert Fold(hs, true, 0) == Ok([]);
    assert [] + recs.value == recs.value;
    assert Fold(hs, true, 1) == Ok(recs.value);
    assert Fold(hs, true, 2) == Ok(recs.value + [ErrorRecord("socket hang up", 1)]);
  }
}
