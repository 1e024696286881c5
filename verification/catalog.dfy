/** The static catalog of selectable variables and the label lookup the
    node performs after each successful request. */
module Catalog {
  import opened Base

  /** One selectable variable: its numeric identifier and display name. */
  datatype Entry = Entry(value: int, name: string)

  /** The label used when no catalog entry carries the identifier. */
  const UnknownLabel: string := "Unknown Variable"

  /** Position of the first entry at or after `from` whose `value` is `id`
      (`Array.prototype.find` scanning from the left). */
  function FindFrom(catalog: seq<Entry>, id: int, from: nat): (r: Option<nat>)
    requires from <= |catalog|
    ensures r.Some? ==> from <= r.value < |catalog| && catalog[r.value].value == id
    ensures r.Some? ==> forall j :: from <= j < r.value ==> catalog[j].value != id
    ensures r.None? ==> forall j :: from <= j < |catalog| ==> catalog[j].value != id
    decreases |catalog| - from
  {
    if from == |catalog| then None
    else if catalog[from].value == id then Some(from)
    else FindFrom(catalog, id, from + 1)
  }

  /** The display name for `id`: the name of the first entry whose value is
      `id`, or `UnknownLabel` when there is none. The lookup never fails. */
  function Label(catalog: seq<Entry>, id: int): (name: string)
    ensures (forall k :: 0 <= k < |catalog| ==> catalog[k].value != id) ==> name == UnknownLabel
    ensures forall k :: 0 <= k < |catalog| && catalog[k].value == id
                        && (forall j :: 0 <= j < k ==> catalog[j].value != id)
                        ==> name == catalog[k].name
  {
    match FindFrom(catalog, id, 0)
    case Some(k) => catalog[k].name
    case None => UnknownLabel
  }

  /** The label is either the sentinel or the name of an entry that really
      carries the identifier. */
  lemma LabelIsMatchingName(catalog: seq<Entry>, id: int)
    ensures Label(catalog, id) == UnknownLabel
            || exists k :: 0 <= k < |catalog| && catalog[k].value == id && catalog[k].name == Label(catalog, id)
  {
  }
}
