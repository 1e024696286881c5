/** Turning one upstream response into output records: the array-versus-
    object dispatch on `results` and the merge of the label and identifier. */
module Normalization {
  import opened Base
  import opened JsonValue

  /** One output item: its `json` object and `pairedItem.item`, the index of
      the input item that produced it. */
  datatype Record = Record(json: Fields, pairedItem: nat)

  /** The message of the `TypeError` thrown by reading `results` of a `null` body. */
  const NullBodyMessage: string := "Cannot read properties of null (reading 'results')"

  /** `{...fields, descripcion: variableName, idVariable: id}`: the two node fields
      are written last, so they override same-named fields, and every other
      field is kept. */
  function Merge(fields: Fields, variableName: string, id: int): (m: Fields)
    ensures m.Keys == fields.Keys + {"descripcion", "idVariable"}
    ensures m["descripcion"] == JStr(variableName)
    ensures m["idVariable"] == JNum(id)
    ensures forall key :: key in fields && key != "descripcion" && key != "idVariable" ==> m[key] == fields[key]
  {
    fields["descripcion" := JStr(variableName)]["idVariable" := JNum(id)]
  }

  /** A record produced for item `i` of variable `id`: traced back to `i`
      and carrying the variable's label and identifier. */
  predicate Tagged(rec: Record, variableName: string, id: int, i: nat) {
    && rec.pairedItem == i
    && "descripcion" in rec.json && rec.json["descripcion"] == JStr(variableName)
    && "idVariable" in rec.json && rec.json["idVariable"] == JNum(id)
  }

  /** `Array.isArray(response.results)` for a body that is not `null`. */
  predicate HasResultsArray(body: Json) {
    body.JObj? && "results" in body.fields && body.fields["results"].JArr?
  }

  /** The `results` array of a body that has one. */
  function ResultsOf(body: Json): seq<Json>
    requires HasResultsArray(body)
  {
    body.fields["results"].elems
  }

  /** The records one successful response yields for item `i`: one per
      element of an array `results`, or one for the whole body otherwise.
      Reading `results` of a `null` body throws. */
  function Normalize(body: Json, variableName: string, id: int, i: nat): (r: Result<seq<Record>>)
    ensures r.Err? <==> body.JNull?
    ensures r.Err? ==> r.message == NullBodyMessage
    ensures r.Ok? ==> forall k :: 0 <= k < |r.value| ==> Tagged(r.value[k], variableName, id, i)
    ensures r.Ok? && HasResultsArray(body) ==> |r.value| == |ResultsOf(body)|
    ensures r.Ok? && HasResultsArray(body) ==>
      forall k :: 0 <= k < |r.value| ==> r.value[k].json == Merge(Spread(ResultsOf(body)[k]), variableName, id)
    ensures r.Ok? && !HasResultsArray(body) ==> |r.value| == 1
    ensures r.Ok? && !HasResultsArray(body) ==> r.value[0].json == Merge(Spread(body), variableName, id)
  {
    if body.JNull? then Err(NullBodyMessage)
    else if HasResultsArray(body) then
      var es := ResultsOf(body);
      Ok(seq(|es|, k requires 0 <= k < |es| => Record(Merge(Spread(es[k]), variableName, id), i)))
    else
      Ok([Record(Merge(Spread(body), variableName, id), i)])
  }

  /** How many records a successful, non-null body yields. */
  function ResponseCount(body: Json): nat {
    if HasResultsArray(body) then |ResultsOf(body)| else 1
  }

  /** The record-count rule: `n` records for an array of `n` (none for an
      empty array, which is not an error), exactly one otherwise. */
  lemma NormalizeCount(body: Json, variableName: string, id: int, i: nat)
    requires !body.JNull?
    ensures Normalize(body, variableName, id, i).Ok?
    ensures |Normalize(body, variableName, id, i).value| == ResponseCount(body)
    ensures HasResultsArray(body) && ResultsOf(body) == [] ==> Normalize(body, variableName, id, i).value == []
  {
  }

  /** Field by field, record `k` is its source value with `descripcion` and
      `idVariable` overridden and every other spread field unchanged; the
      source is element `k` of `results`, or the whole body. */
  lemma NormalizeFields(body: Json, variableName: string, id: int, i: nat, k: nat)
    requires !body.JNull?
    requires k < ResponseCount(body)
    ensures var r := Normalize(body, variableName, id, i).value;
            var src := if HasResultsArray(body) then ResultsOf(body)[k] else body;
            && k < |r|
            && r[k].json.Keys == Spread(src).Keys + {"descripcion", "idVariable"}
            && r[k].json["descripcion"] == JStr(variableName)
            && r[k].json["idVariable"] == JNum(id)
            && (forall key :: key in Spread(src) && key != "descripcion" && key != "idVariable"
                  ==> r[k].json[key] == Spread(src)[key])
  {
  }
}
