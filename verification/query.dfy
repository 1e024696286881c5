/** The per-item parameters and the query string built from them before
    the request is sent. */
module Query {
  import opened Base

  /** The parameters the host resolves for one input item. `offset` is
      `None` when the host yields `undefined` for it. */
  datatype Params = Params(idVariable: int, desde: string, hasta: string, limit: int, offset: Option<int>)

  /** A query-string value: a date text or a number. */
  datatype QueryValue = QStr(s: string) | QNum(n: int)

  /** The query-string object `qs`, keyed by parameter name. */
  type QueryString = map<string, QueryValue>

  /** Stands for `new Date(raw).toISOString()`: the ISO rendering of the
      parsed date, or `None` when the date is invalid and the call throws. */
  type DateParser = string -> Option<string>

  /** The message of the `RangeError` thrown by `toISOString` on an invalid date. */
  const InvalidDate: string := "Invalid time value"

  /** The only keys the query can carry. */
  const QueryKeys: set<string> := {"desde", "hasta", "limit", "offset"}

  /** `iso.split('T')[0]`: the text before the first `'T'`, or all of `iso`
      when it has none. */
  function DatePart(iso: string): (d: string)
    ensures d <= iso
    ensures 'T' !in d
    ensures |d| == |iso| || iso[|d|] == 'T'
  {
    if |iso| == 0 || iso[0] == 'T' then ""
    else [iso[0]] + DatePart(iso[1..])
  }

  /** The three properties above pin `DatePart` down: any prefix without a
      `'T'` that ends the string or stops at a `'T'` is the date part. */
  lemma DatePartUnique(iso: string, d: string)
    requires d <= iso && 'T' !in d
    requires |d| == |iso| || iso[|d|] == 'T'
    ensures d == DatePart(iso)
  {
  }

  /** Truncating an already truncated date changes nothing. */
  lemma DatePartIdempotent(iso: string)
    ensures DatePart(DatePart(iso)) == DatePart(iso)
  {
  }

  /** True when a date parameter does not make the item fail: it is empty
      (omitted) or it parses. */
  predicate DateAccepted(parse: DateParser, raw: string) {
    raw == "" || parse(raw).Some?
  }

  /** The query entry for one date parameter: omitted (`None`) when the
      parameter is empty, the date part of its ISO rendering otherwise, and
      the `RangeError` when it does not parse. */
  function DateField(parse: DateParser, raw: string): (r: Result<Option<QueryValue>>)
    ensures r.Ok? <==> DateAccepted(parse, raw)
    ensures r.Err? ==> r.message == InvalidDate
    ensures r.Ok? ==> (r.value.None? <==> raw == "")
    ensures r.Ok? && raw != "" ==> r.value.value == QStr(DatePart(parse(raw).value))
  {
    if raw == "" then Ok(None)
    else match parse(raw)
      case None => Err(InvalidDate)
      case Some(iso) => Ok(Some(QStr(DatePart(iso))))
  }

  /** `qs` with `key` set to `v` when `v` is defined, unchanged otherwise. */
  function Put(qs: QueryString, key: string, v: Option<QueryValue>): QueryString {
    if v.Some? then qs[key := v.value] else qs
  }

  /** Builds `qs` for one item. Dates are checked `desde` first, then
      `hasta`; `limit` is sent only when non-zero, `offset` whenever it is
      defined, and nothing else is ever sent. */
  function BuildQuery(parse: DateParser, p: Params): (r: Result<QueryString>)
    ensures r.Ok? <==> DateAccepted(parse, p.desde) && DateAccepted(parse, p.hasta)
    ensures r.Err? ==> r.message == InvalidDate
    ensures r.Ok? ==> r.value.Keys <= QueryKeys
    ensures r.Ok? ==> ("desde" in r.value <==> p.desde != "")
    ensures r.Ok? && p.desde != "" ==> r.value["desde"] == QStr(DatePart(parse(p.desde).value))
    ensures r.Ok? ==> ("hasta" in r.value <==> p.hasta != "")
    ensures r.Ok? && p.hasta != "" ==> r.value["hasta"] == QStr(DatePart(parse(p.hasta).value))
    ensures r.Ok? ==> ("limit" in r.value <==> p.limit != 0)
    ensures r.Ok? && p.limit != 0 ==> r.value["limit"] == QNum(p.limit)
    ensures r.Ok? ==> ("offset" in r.value <==> p.offset.Some?)
    ensures r.Ok? && p.offset.Some? ==> r.value["offset"] == QNum(p.offset.value)
  {
    var desde := DateField(parse, p.desde);
    if desde.Err? then Err(desde.message)
    else
      var hasta := DateField(parse, p.hasta);
      if hasta.Err? then Err(hasta.message)
      else
        var limit := if p.limit != 0 then Some(QNum(p.limit)) else None;
        var offset := if p.offset.Some? then Some(QNum(p.offset.value)) else None;
        Ok(Put(Put(Put(Put(map[], "desde", desde.value), "hasta", hasta.value), "limit", limit), "offset", offset))
  }

  /** A date that is sent carries no time component, and truncating it again
      would not change it. */
  lemma SentDatesAreDates(parse: DateParser, p: Params, key: string)
    requires BuildQuery(parse, p).Ok?
    requires key in BuildQuery(parse, p).value && (key == "desde" || key == "hasta")
    ensures BuildQuery(parse, p).value[key].QStr?
    ensures 'T' !in BuildQuery(parse, p).value[key].s
    ensures DatePart(BuildQuery(parse, p).value[key].s) == BuildQuery(parse, p).value[key].s
  {
  }
}
