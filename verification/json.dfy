/** Parsed JSON values as the upstream API returns them, and the part of
    JavaScript's object spread (`{...v}`) that the node relies on when it
    copies the fields of a response or of a result element. */
module JsonValue {

  /** A parsed JSON value. Numbers are carried as integers: the node never
      computes with them, it only copies them through. */
  datatype Json =
    | JNull
    | JBool(b: bool)
    | JNum(n: int)
    | JStr(s: string)
    | JArr(elems: seq<Json>)
    | JObj(fields: map<string, Json>)

  /** The own enumerable properties of a JavaScript object. Key order is not
      kept: the node only reads and overrides keys by name. */
  type Fields = map<string, Json>

  function Digit(d: nat): (c: char)
    requires d < 10
    ensures '0' <= c <= '9'
  {
    (('0' as int) + d) as char
  }

  predicate IsDigits(s: string) {
    forall k :: 0 <= k < |s| ==> '0' <= s[k] <= '9'
  }

  /** The canonical decimal rendering of an array index, as JavaScript
      spells the property key of element `n`. */
  function Decimal(n: nat): (s: string)
    ensures |s| >= 1
    ensures IsDigits(s)
    decreases n
  {
    if n < 10 then [Digit(n)] else Decimal(n / 10) + [Digit(n % 10)]
  }

  /** Reads a string of decimal digits back as a number. */
  function ParseDecimal(s: string): nat
    requires IsDigits(s)
    decreases |s|
  {
    if |s| == 0 then 0
    else 10 * ParseDecimal(s[..|s| - 1]) + (s[|s| - 1] as int - '0' as int)
  }

  /** Index keys read back as the index they were made from. */
  lemma {:induction false} DecimalRoundTrip(n: nat)
    ensures ParseDecimal(Decimal(n)) == n
    decreases n
  {
    if n >= 10 {
      var p := Decimal(n / 10);
      DecimalRoundTrip(n / 10);
      assert Decimal(n) == p + [Digit(n % 10)];
      assert (p + [Digit(n % 10)])[..|p|] == p;
    }
  }

  /** Distinct indices give distinct property keys. */
  lemma DecimalInjective(a: nat, b: nat)
    ensures Decimal(a) == Decimal(b) ==> a == b
  {
    DecimalRoundTrip(a);
    DecimalRoundTrip(b);
  }

  /** The object `{...vals}` for an array-like `vals`: element `k` under the
      key `Decimal(k)`. */
  function IndexedFields(vals: seq<Json>): Fields
    decreases |vals|
  {
    if |vals| == 0 then map[]
    else IndexedFields(vals[..|vals| - 1])[Decimal(|vals| - 1) := vals[|vals| - 1]]
  }

  /** Spreading an array-like value keeps every element under its index key
      and adds no other key. */
  lemma {:induction false} IndexedFieldsContents(vals: seq<Json>)
    ensures forall k :: 0 <= k < |vals| ==>
      Decimal(k) in IndexedFields(vals) && IndexedFields(vals)[Decimal(k)] == vals[k]
    ensures forall key :: key in IndexedFields(vals) ==>
      exists k :: 0 <= k < |vals| && Decimal(k) == key
    decreases |vals|
  {
    if |vals| > 0 {
      var n := |vals| - 1;
      var init := vals[..n];
      IndexedFieldsContents(init);
      forall k | 0 <= k < |vals|
        ensures Decimal(k) in IndexedFields(vals) && IndexedFields(vals)[Decimal(k)] == vals[k]
      {
        if k < n {
          DecimalInjective(k, n);
          assert init[k] == vals[k];
        }
      }
    }
  }

  /** The characters of a string as the one-character strings that `{...s}`
      stores under its index keys. */
  function Chars(s: string): (cs: seq<Json>)
    ensures |cs| == |s|
    ensures forall k :: 0 <= k < |s| ==> cs[k] == JStr([s[k]])
  {
    seq(|s|, k requires 0 <= k < |s| => JStr([s[k]]))
  }

  /** The fields `{...v}` copies out of a JSON value: an object's own fields,
      the elements of an array or the characters of a string under their
      index keys, and nothing for `null`, booleans and numbers. */
  function Spread(v: Json): Fields {
    match v
    case JObj(f) => f
    case JArr(es) => IndexedFields(es)
    case JStr(s) => IndexedFields(Chars(s))
    case _ => map[]
  }
}
