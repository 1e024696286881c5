/** The node's `execute` loop: each input item is handled in index order,
    its records are appended, and a failing item either becomes one error
    record (continue-on-fail) or aborts the whole run. */
module Batch {
  import opened Base
  import opened JsonValue
  import opened Catalog
  import opened Query
  import opened Normalization

  /** What is handed to the transport: the variable, which fills the path of
      the URL, and the query string. */
  datatype Request = Request(idVariable: int, query: QueryString)

  /** The transport as one item sees it: the parsed JSON body returned for a
      request, or the message of the error the call throws. */
  type Transport = Request -> Result<Json>

  /** What the host and the network contribute for one input item: the
      resolved parameters (or the error resolving them threw) and the
      transport's behaviour for this item's call. */
  datatype Slot = Slot(params: Result<Params>, transport: Transport)

  /** The request an item sends, or the error that stops it before sending:
      a parameter that did not resolve, or a date that does not parse. */
  function Sent(parse: DateParser, slot: Slot): (r: Result<Request>)
    ensures slot.params.Err? ==> r == Err(slot.params.message)
    ensures slot.params.Ok? ==>
      (r.Ok? <==> DateAccepted(parse, slot.params.value.desde) && DateAccepted(parse, slot.params.value.hasta))
    ensures slot.params.Ok? && r.Err? ==> r.message == InvalidDate
    ensures r.Ok? ==> r.value.idVariable == slot.params.value.idVariable
    ensures r.Ok? ==> slot.params.Ok? && r.value.query == BuildQuery(parse, slot.params.value).value
    ensures r.Ok? ==> r.value.query.Keys <= QueryKeys
  {
    match slot.params
    case Err(m) => Err(m)
    case Ok(p) =>
      match BuildQuery(parse, p)
      case Err(m) => Err(m)
      case Ok(qs) => Ok(Request(p.idVariable, qs))
  }

  /** The body the item receives, or the first error on the way to it. */
  function Reply(parse: DateParser, slot: Slot): Result<Json> {
    match Sent(parse, slot)
    case Err(m) => Err(m)
    case Ok(req) => slot.transport(req)
  }

  /** The body of the `try` block for item `i`: the item's records, or the
      message of the error it throws. */
  function HandleItem(catalog: seq<Entry>, parse: DateParser, slot: Slot, i: nat): Result<seq<Record>> {
    match Reply(parse, slot)
    case Err(m) => Err(m)
    case Ok(body) =>
      var id := slot.params.value.idVariable;
      Normalize(body, Label(catalog, id), id, i)
  }

  /** An item fails exactly when no body reaches it or the body is `null`,
      with the first error's message. Otherwise it yields as many records as
      the response calls for, all traced to the item and carrying the
      catalog label and the identifier. */
  lemma ItemRecords(catalog: seq<Entry>, parse: DateParser, slot: Slot, i: nat)
    ensures var r := HandleItem(catalog, parse, slot, i);
      && (r.Err? <==> Reply(parse, slot).Err? || Reply(parse, slot).value.JNull?)
      && (Reply(parse, slot).Err? ==> r.message == Reply(parse, slot).message)
      && (Reply(parse, slot).Ok? && r.Err? ==> r.message == NullBodyMessage)
      && (r.Ok? ==> |r.value| == ResponseCount(Reply(parse, slot).value))
      && (r.Ok? ==> forall k :: 0 <= k < |r.value| ==>
            Tagged(r.value[k], Label(catalog, slot.params.value.idVariable), slot.params.value.idVariable, i))
  {
  }

  /** The record pushed for a failed item under continue-on-fail. */
  function ErrorRecord(message: string, i: nat): (rec: Record)
    ensures rec.pairedItem == i
    ensures rec.json.Keys == {"error"} && rec.json["error"] == JStr(message)
  {
    Record(map["error" := JStr(message)], i)
  }

  /** `[f(xs[0], 0), f(xs[1], 1), ...]`: one result per element, in order. */
  function MapIndexed<A, B>(xs: seq<A>, f: (A, nat) -> B): (ys: seq<B>)
    ensures |ys| == |xs|
    decreases |xs|
  {
    if |xs| == 0 then [] else MapIndexed(xs[..|xs| - 1], f) + [f(xs[|xs| - 1], |xs| - 1)]
  }

  lemma {:induction false} MapIndexedAt<A, B>(xs: seq<A>, f: (A, nat) -> B, i: nat)
    requires i < |xs|
    ensures MapIndexed(xs, f)[i] == f(xs[i], i)
    decreases |xs|
  {
    var n := |xs| - 1;
    if i < n {
      MapIndexedAt(xs[..n], f, i);
      assert xs[..n][i] == xs[i];
    }
  }

  /** The outcome of the `try` block for every input item, in index order. */
  function Handled(catalog: seq<Entry>, parse: DateParser, slots: seq<Slot>): (hs: seq<Result<seq<Record>>>)
    ensures |hs| == |slots|
  {
    MapIndexed(slots, (slot, i) => HandleItem(catalog, parse, slot, i))
  }

  /** Entry `i` of `Handled` is the outcome of item `i`'s `try` block. */
  lemma HandledAt(catalog: seq<Entry>, parse: DateParser, slots: seq<Slot>, i: nat)
    requires i < |slots|
    ensures Handled(catalog, parse, slots)[i] == HandleItem(catalog, parse, slots[i], i)
  {
    MapIndexedAt(slots, (slot, i) => HandleItem(catalog, parse, slot, i), i);
  }

  /** What item `i`, whose `try` block ended with `h`, contributes to the run:
      its records; or, when it failed, one error record under
      continue-on-fail and the abort otherwise (the `catch` block). */
  function ItemOutput(h: Result<seq<Record>>, i: nat, continueOnFail: bool): (r: Result<seq<Record>>)
    ensures r.Err? <==> h.Err? && !continueOnFail
    ensures r.Err? ==> r.message == h.message
    ensures r.Ok? ==> |r.value| == Count(h)
    ensures h.Ok? ==> r.Ok? && r.value == h.value
    ensures h.Err? && r.Ok? ==>
      && |r.value| == 1
      && r.value[0].pairedItem == i
      && r.value[0].json.Keys == {"error"}
      && r.value[0].json["error"] == JStr(h.message)
  {
    if h.Ok? then h
    else if continueOnFail then Ok([ErrorRecord(h.message, i)])
    else Err(h.message)
  }

  /** The loop over the first `n` items: their contributions concatenated in
      index order, or the abort of the first item that aborts. */
  function Fold(hs: seq<Result<seq<Record>>>, continueOnFail: bool, n: nat): Result<seq<Record>>
    requires n <= |hs|
  {
    if n == 0 then Ok([])
    else
      var prev := Fold(hs, continueOnFail, n - 1);
      if prev.Err? then prev
      else
        var cur := ItemOutput(hs[n - 1], n - 1, continueOnFail);
        if cur.Err? then Err(cur.message) else Ok(prev.value + cur.value)
  }

  /** The whole run: the `returnData` that `execute` returns, or the error
      that aborts it. */
  function Run(catalog: seq<Entry>, parse: DateParser, slots: seq<Slot>, continueOnFail: bool)
    : Result<seq<Record>>
  {
    var hs := Handled(catalog, parse, slots);
    Fold(hs, continueOnFail, |hs|)
  }

  /** How many records an item yields when it does not abort: its own
      records, or the one error record. */
  function Count(h: Result<seq<Record>>): nat {
    if h.Ok? then |h.value| else 1
  }

  /** The number of records the first `n` items yield. */
  function Total(hs: seq<Result<seq<Record>>>, n: nat): nat
    requires n <= |hs|
  {
    if n == 0 then 0 else Total(hs, n - 1) + Count(hs[n - 1])
  }

  lemma {:induction false} TotalMonotone(hs: seq<Result<seq<Record>>>, a: nat, b: nat)
    requires a <= b <= |hs|
    ensures Total(hs, a) <= Total(hs, b)
    decreases b - a
  {
    if a < b {
      TotalMonotone(hs, a, b - 1);
    }
  }

  /** Item `i`'s contribution sits in `out` at positions `Total(i)` up to
      `Total(i + 1)`. */
  ghost predicate Placed(hs: seq<Result<seq<Record>>>, continueOnFail: bool, out: seq<Record>, i: nat)
    requires i < |hs|
  {
    var c := ItemOutput(hs[i], i, continueOnFail);
    && c.Ok?
    && Total(hs, i) <= Total(hs, i + 1) <= |out|
    && out[Total(hs, i)..Total(hs, i + 1)] == c.value
  }

  /** The loop's output is the concatenation of the per-item contributions
      in index order: item `i`'s records sit exactly at positions
      `Total(i) .. Total(i + 1)`, and nothing else is in the output. */
  lemma {:induction false} FoldLayout(hs: seq<Result<seq<Record>>>, continueOnFail: bool, n: nat)
    requires n <= |hs|
    ensures var r := Fold(hs, continueOnFail, n);
      r.Ok? ==>
        && |r.value| == Total(hs, n)
        && forall i :: 0 <= i < n ==> Placed(hs, continueOnFail, r.value, i)
  {
    var r := Fold(hs, continueOnFail, n);
    if n > 0 && r.Ok? {
      var prev := Fold(hs, continueOnFail, n - 1);
      var cur := ItemOutput(hs[n - 1], n - 1, continueOnFail);
      FoldLayout(hs, continueOnFail, n - 1);
      assert prev.Ok? && cur.Ok? && r.value == prev.value + cur.value;
      forall i | 0 <= i < n
        ensures Placed(hs, continueOnFail, r.value, i)
      {
        if i < n - 1 {
          assert Placed(hs, continueOnFail, prev.value, i);
          TotalMonotone(hs, i + 1, n - 1);
          var lo, hi := Total(hs, i), Total(hs, i + 1);
          assert r.value[lo..hi] == prev.value[lo..hi];
        } else {
          assert |r.value| == |prev.value| + |cur.value|;
          assert (prev.value + cur.value)[|prev.value|..] == cur.value;
          assert r.value[|prev.value|..|r.value|] == cur.value;
        }
      }
    }
  }

  /** Every record an item's `try` block yields is traced back to that item. */
  ghost predicate TracedToSource(hs: seq<Result<seq<Record>>>) {
    forall i, k :: 0 <= i < |hs| && hs[i].Ok? && 0 <= k < |hs[i].value| ==> hs[i].value[k].pairedItem == i
  }

  /** Every record of a successful loop names an item among the first `n`,
      and the named items never decrease along the output. */
  lemma {:induction false} FoldTags(hs: seq<Result<seq<Record>>>, continueOnFail: bool, n: nat)
    requires n <= |hs|
    requires TracedToSource(hs)
    ensures var r := Fold(hs, continueOnFail, n);
      r.Ok? ==>
        && (forall k :: 0 <= k < |r.value| ==> r.value[k].pairedItem < n)
        && (forall a, b :: 0 <= a <= b < |r.value| ==> r.value[a].pairedItem <= r.value[b].pairedItem)
  {
    var r := Fold(hs, continueOnFail, n);
    if n > 0 && r.Ok? {
      var prev := Fold(hs, continueOnFail, n - 1);
      var cur := ItemOutput(hs[n - 1], n - 1, continueOnFail);
      FoldTags(hs, continueOnFail, n - 1);
      assert r.value == prev.value + cur.value;
      forall k | 0 <= k < |r.value|
        ensures r.value[k].pairedItem < n
        ensures k >= |prev.value| ==> r.value[k].pairedItem == n - 1
      {
        if k >= |prev.value| {
          assert r.value[k] == cur.value[k - |prev.value|];
        } else {
          assert r.value[k] == prev.value[k];
        }
      }
    }
  }

  /** Once an item aborts, the loop stays aborted with the same error. */
  lemma {:induction false} AbortPersists(hs: seq<Result<seq<Record>>>, continueOnFail: bool, a: nat, b: nat)
    requires a <= b <= |hs|
    requires Fold(hs, continueOnFail, a).Err?
    ensures Fold(hs, continueOnFail, b) == Fold(hs, continueOnFail, a)
    decreases b - a
  {
    if a < b {
      AbortPersists(hs, continueOnFail, a, b - 1);
    }
  }

  /** True when none of the first `n` items fails. */
  ghost predicate AllSucceed(hs: seq<Result<seq<Record>>>, n: nat)
    requires n <= |hs|
  {
    forall i :: 0 <= i < n ==> hs[i].Ok?
  }

  /** The loop succeeds exactly when continue-on-fail is set or no item
      fails; when it aborts, it carries the message of the first failing
      item. */
  lemma {:induction false} FoldAborts(hs: seq<Result<seq<Record>>>, continueOnFail: bool, n: nat)
    requires n <= |hs|
    ensures Fold(hs, continueOnFail, n).Ok? <==> continueOnFail || AllSucceed(hs, n)
    ensures var r := Fold(hs, continueOnFail, n);
      r.Err? ==> exists i :: 0 <= i < n && hs[i] == Err(r.message) && AllSucceed(hs, i)
  {
    if n > 0 {
      FoldAborts(hs, continueOnFail, n - 1);
      var prev := Fold(hs, continueOnFail, n - 1);
      if prev.Ok? && hs[n - 1].Err? && !continueOnFail {
        assert hs[n - 1] == Err(Fold(hs, continueOnFail, n).message) && AllSucceed(hs, n - 1);
      }
    }
  }

  /** The imperative loop of `execute`: handles the items one after another,
      appending each item's contribution, and stops at the first failure
      unless continue-on-fail is set. */
  method Execute(catalog: seq<Entry>, parse: DateParser, slots: seq<Slot>, continueOnFail: bool)
    returns (r: Result<seq<Record>>)
    ensures r == Run(catalog, parse, slots, continueOnFail)
  {
    ghost var hs := Handled(catalog, parse, slots);
    var returnData: seq<Record> := [];
    var i := 0;
    while i < |slots|
      invariant 0 <= i <= |slots|
      invariant Fold(hs, continueOnFail, i) == Ok(returnData)
    {
      var h := HandleItem(catalog, parse, slots[i], i);
      HandledAt(catalog, parse, slots, i);
      var out := ItemOutput(h, i, continueOnFail);
      if out.Err? {
        r := out;
        AbortPersists(hs, continueOnFail, i + 1, |slots|);
        return;
      }
      returnData := returnData + out.value;
      i := i + 1;
    }
    r := Ok(returnData);
  }

  /** An item fails exactly when its parameters do not resolve, one of its
      dates does not parse, the transport throws on the request built from
      its query, or the body is `null`; the lookup of the label never makes
      it fail. */
  lemma ItemFailureCauses(catalog: seq<Entry>, parse: DateParser, slot: Slot, i: nat)
    ensures HandleItem(catalog, parse, slot, i).Err? <==>
      || slot.params.Err?
      || !DateAccepted(parse, slot.params.value.desde)
      || !DateAccepted(parse, slot.params.value.hasta)
      || (var req := Request(slot.params.value.idVariable, BuildQuery(parse, slot.params.value).value);
          slot.transport(req).Err? || slot.transport(req).value.JNull?)
  {
  }

  /** Every record a run returns is traced to an input item, and the traced
      items never decrease along the output. */
  lemma RunTraceability(catalog: seq<Entry>, parse: DateParser, slots: seq<Slot>, continueOnFail: bool)
    ensures var r := Run(catalog, parse, slots, continueOnFail);
      r.Ok? ==>
        && (forall k :: 0 <= k < |r.value| ==> r.value[k].pairedItem < |slots|)
        && (forall a, b :: 0 <= a <= b < |r.value| ==> r.value[a].pairedItem <= r.value[b].pairedItem)
  {
    var hs := Handled(catalog, parse, slots);
    forall i, k | 0 <= i < |hs| && hs[i].Ok? && 0 <= k < |hs[i].value|
      ensures hs[i].value[k].pairedItem == i
    {
      HandledAt(catalog, parse, slots, i);
      ItemRecords(catalog, parse, slots[i], i);
      assert Tagged(hs[i].value[k], Label(catalog, slots[i].params.value.idVariable),
                    slots[i].params.value.idVariable, i);
    }
    assert TracedToSource(hs);
    FoldTags(hs, continueOnFail, |hs|);
    assert Run(catalog, parse, slots, continueOnFail) == Fold(hs, continueOnFail, |slots|);
  }

  /** A run's output holds, for each item in index order, exactly that
      item's records or its one error record, and its length is the sum of
      the per-item counts. */
  lemma RunLayout(catalog: seq<Entry>, parse: DateParser, slots: seq<Slot>, continueOnFail: bool)
    ensures var hs := Handled(catalog, parse, slots);
      var r := Run(catalog, parse, slots, continueOnFail);
      r.Ok? ==>
        && |r.value| == Total(hs, |slots|)
        && forall i :: 0 <= i < |slots| ==> Placed(hs, continueOnFail, r.value, i)
  {
    var hs := Handled(catalog, parse, slots);
    FoldLayout(hs, continueOnFail, |hs|);
  }

  /** A run aborts exactly when continue-on-fail is unset and some item
      fails, and then it carries the error of the first failing item. */
  lemma RunAborts(catalog: seq<Entry>, parse: DateParser, slots: seq<Slot>, continueOnFail: bool)
    ensures Run(catalog, parse, slots, continueOnFail).Err? <==>
      !continueOnFail && exists i :: 0 <= i < |slots| && HandleItem(catalog, parse, slots[i], i).Err?
    ensures var r := Run(catalog, parse, slots, continueOnFail);
      r.Err? ==> exists i :: 0 <= i < |slots|
                   && HandleItem(catalog, parse, slots[i], i) == Err(r.message)
                   && forall j :: 0 <= j < i ==> HandleItem(catalog, parse, slots[j], j).Ok?
  {
    var hs := Handled(catalog, parse, slots);
    FoldAborts(hs, continueOnFail, |hs|);
    forall i | 0 <= i < |slots|
      ensures hs[i] == HandleItem(catalog, parse, slots[i], i)
    {
      HandledAt(catalog, parse, slots, i);
    }
    var r := Run(catalog, parse, slots, continueOnFail);
    if r.Err? {
      var i :| 0 <= i < |hs| && hs[i] == Err(r.message) && AllSucceed(hs, i);
      assert HandleItem(catalog, parse, slots[i], i) == Err(r.message);
    }
  }

  /** The number of records item `slot` yields, read off what reaches it:
      the length of an array `results`, one for any other non-null body, and
      one error record when no usable body arrives. */
  function ExpectedCount(parse: DateParser, slot: Slot): nat {
    var reply := Reply(parse, slot);
    if reply.Ok? && !reply.value.JNull? then ResponseCount(reply.value) else 1
  }

  /** The sum of `ExpectedCount` over the first `n` items. */
  function ExpectedTotal(parse: DateParser, slots: seq<Slot>, n: nat): nat
    requires n <= |slots|
  {
    if n == 0 then 0 else ExpectedTotal(parse, slots, n - 1) + ExpectedCount(parse, slots[n - 1])
  }

  lemma {:induction false} TotalIsExpected(catalog: seq<Entry>, parse: DateParser, slots: seq<Slot>, n: nat)
    requires n <= |slots|
    ensures Total(Handled(catalog, parse, slots), n) == ExpectedTotal(parse, slots, n)
  {
    if n > 0 {
      TotalIsExpected(catalog, parse, slots, n - 1);
      HandledAt(catalog, parse, slots, n - 1);
      ItemRecords(catalog, parse, slots[n - 1], n - 1);
    }
  }

  /** A run that does not abort returns, per item, as many records as its
      `results` array has elements, one for any other body, and one error
      record for a failure; nothing more and nothing less. */
  lemma RunLength(catalog: seq<Entry>, parse: DateParser, slots: seq<Slot>, continueOnFail: bool)
    ensures var r := Run(catalog, parse, slots, continueOnFail);
      r.Ok? ==> |r.value| == ExpectedTotal(parse, slots, |slots|)
  {
    RunLayout(catalog, parse, slots, continueOnFail);
    TotalIsExpected(catalog, parse, slots, |slots|);
  }

  /** Under continue-on-fail a failed item's one error record sits at the
      item's place in the loop's output. */
  lemma FoldIsolates(hs: seq<Result<seq<Record>>>, i: nat)
    requires i < |hs| && hs[i].Err?
    ensures var r := Fold(hs, true, |hs|);
      && r.Ok?
      && Total(hs, i) < |r.value|
      && r.value[Total(hs, i)] == ErrorRecord(hs[i].message, i)
  {
    FoldAborts(hs, true, |hs|);
    FoldLayout(hs, true, |hs|);
    var r := Fold(hs, true, |hs|);
    assert Placed(hs, true, r.value, i);
    var slice := r.value[Total(hs, i)..Total(hs, i + 1)];
    assert slice == [ErrorRecord(hs[i].message, i)];
    assert r.value[Total(hs, i)] == slice[0];
  }

  /** Under continue-on-fail a failing item does not stop the run: its one
      record is `{error: message}` traced to it, at the item's place in the
      output. */
  lemma ContinueOnFailIsolates(catalog: seq<Entry>, parse: DateParser, slots: seq<Slot>, i: nat)
    requires i < |slots|
    requires HandleItem(catalog, parse, slots[i], i).Err?
    ensures var hs := Handled(catalog, parse, slots);
      var r := Run(catalog, parse, slots, true);
      && r.Ok?
      && Total(hs, i) < |r.value|
      && r.value[Total(hs, i)] == ErrorRecord(HandleItem(catalog, parse, slots[i], i).message, i)
  {
    var hs := Handled(catalog, parse, slots);
    HandledAt(catalog, parse, slots, i);
    FoldIsolates(hs, i);
  }
}
