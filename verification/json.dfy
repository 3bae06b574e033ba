/** JSON values as `json.loads` returns them, with the few Python operations
    the core applies to them: the membership test `key in value`, indexing
    `value[key]`, truthiness, `dict.get` and `isinstance(v, (int, float))`. */
module Json {
  import opened Wrappers
  import Text

  /** A decoded JSON document. Objects keep their members in text order;
      a float literal is kept as `mantissa * 10^exponent`. An object may
      list a key twice, which a decoded dict never does; `Get` reads the
      last such member, which is the one the dict would keep. */
  datatype Json =
    | JNull
    | JBool(b: bool)
    | JInt(i: int)
    | JFloat(mantissa: int, exponent: int)
    | JStr(s: string)
    | JArr(items: seq<Json>)
    | JObj(fields: seq<Field>)

  datatype Field = Field(key: string, val: Json)

  /** Some member of the object has this key. */
  predicate HasKey(fields: seq<Field>, key: string) {
    exists k :: 0 <= k < |fields| && fields[k].key == key
  }

  /** `d.get(key)`: the value of the last member with this key, since
      `json.loads` lets a later duplicate override an earlier one. */
  function Get(fields: seq<Field>, key: string): (r: Option<Json>)
    ensures r.Some? <==> HasKey(fields, key)
    ensures r.Some? ==> exists k :: 0 <= k < |fields| && fields[k] == Field(key, r.value)
  {
    if |fields| == 0 then None
    else
      var last := fields[|fields| - 1];
      if last.key == key then Some(last.val)
      else
        var r := Get(fields[..|fields| - 1], key);
        assert HasKey(fields, key) ==> HasKey(fields[..|fields| - 1], key) by {
          if HasKey(fields, key) {
            var k :| 0 <= k < |fields| && fields[k].key == key;
            assert k < |fields| - 1;
            assert fields[..|fields| - 1][k] == fields[k];
          }
        }
        assert r.Some? ==> exists k :: 0 <= k < |fields| && fields[k] == Field(key, r.value) by {
          if r.Some? {
            var k :| 0 <= k < |fields| - 1 && fields[..|fields| - 1][k] == Field(key, r.value);
            assert fields[k] == Field(key, r.value);
          }
        }
        r
  }

  /** A member appended last wins for its key and hides nothing else. */
  lemma GetAppend(fields: seq<Field>, f: Field, key: string)
    ensures Get(fields + [f], key) == if f.key == key then Some(f.val) else Get(fields, key)
  {
    assert (fields + [f])[..|fields|] == fields;
  }

  /** A key that occurs once is found at its one position. */
  lemma {:induction false} GetUnique(fields: seq<Field>, i: nat)
    requires i < |fields|
    requires forall j :: 0 <= j < |fields| && j != i ==> fields[j].key != fields[i].key
    ensures Get(fields, fields[i].key) == Some(fields[i].val)
    decreases |fields|
  {
    if i < |fields| - 1 {
      var init := fields[..|fields| - 1];
      assert init[i] == fields[i];
      GetUnique(init, i);
    }
  }

  /** `d[key] = value` on a dict: an existing member keeps its position and
      gets the new value, a new key is appended. */
  function Put(fields: seq<Field>, key: string, v: Json): (r: seq<Field>)
    ensures Get(r, key) == Some(v)
    ensures forall other :: other != key ==> Get(r, other) == Get(fields, other)
  {
    if HasKey(fields, key) then
      ReplaceSpec(fields, key, v);
      Replace(fields, key, v)
    else
      var r := fields + [Field(key, v)];
      assert r[..|r| - 1] == fields;
      r
  }

  /** Every member with this key gets the new value, in place. */
  function Replace(fields: seq<Field>, key: string, v: Json): (r: seq<Field>)
    ensures |r| == |fields|
  {
    if |fields| == 0 then []
    else
      var last := fields[|fields| - 1];
      Replace(fields[..|fields| - 1], key, v)
        + [if last.key == key then Field(key, v) else last]
  }

  lemma {:induction false} ReplaceSpec(fields: seq<Field>, key: string, v: Json)
    ensures HasKey(fields, key) ==> Get(Replace(fields, key, v), key) == Some(v)
    ensures forall other :: other != key ==> Get(Replace(fields, key, v), other) == Get(fields, other)
  {
    if |fields| > 0 {
      var init := fields[..|fields| - 1];
      var last := fields[|fields| - 1];
      ReplaceSpec(init, key, v);
      var r := Replace(fields, key, v);
      assert r[..|r| - 1] == Replace(init, key, v);
      if HasKey(fields, key) && last.key != key {
        var k :| 0 <= k < |fields| && fields[k].key == key;
        assert init[k] == fields[k];
      }
    }
  }

  /** Python truthiness of a JSON value. */
  predicate Truthy(v: Json) {
    match v
    case JNull => false
    case JBool(b) => b
    case JInt(i) => i != 0
    case JFloat(m, _) => m != 0
    case JStr(s) => s != ""
    case JArr(items) => items != []
    case JObj(fields) => fields != []
  }

  /** `key in v` for a string key: member lookup for an object, element
      equality for a list, substring search for a string; `None` stands for
      the `TypeError` raised for numbers, booleans and null. */
  function PyIn(key: string, v: Json): (r: Option<bool>)
    ensures r.Some? <==> (v.JObj? || v.JArr? || v.JStr?)
    ensures v.JObj? ==> (r == Some(true) <==> HasKey(v.fields, key))
  {
    match v
    case JObj(fields) => Some(HasKey(fields, key))
    case JArr(items) => Some(JStr(key) in items)
    case JStr(s) => Some(Text.Contains(s, key))
    case _ => None
  }

  /** `v[key]` for a string key: `None` stands for the `KeyError` of a
      missing member and the `TypeError` of every non-object. */
  function PyIndex(v: Json, key: string): (r: Option<Json>)
    ensures r.Some? <==> v.JObj? && HasKey(v.fields, key)
  {
    if v.JObj? then Get(v.fields, key) else None
  }

  /** `isinstance(v, (int, float))`: a JSON number or, since Python's `bool`
      is a subclass of `int`, a JSON boolean. */
  predicate IsIntOrFloat(v: Json) {
    v.JBool? || v.JInt? || v.JFloat?
  }

  function Pow10(e: nat): (r: nat)
    ensures r >= 1
  {
    if e == 0 then 1 else 10 * Pow10(e - 1)
  }

  /** A decimal number `mantissa * 10^exponent`: the model of a Python float
      (rounding and NaN are not modelled). */
  datatype Decimal = Decimal(mantissa: int, exponent: int) {
    function Value(): real {
      if exponent >= 0 then (mantissa * Pow10(exponent)) as real
      else mantissa as real / Pow10(-exponent) as real
    }
  }

  /** A decimal is zero exactly when its mantissa is. */
  lemma ZeroIffMantissaZero(d: Decimal)
    ensures d.Value() == 0.0 <==> d.mantissa == 0
  {
    if d.exponent < 0 {
      var p := Pow10(-d.exponent) as real;
      assert d.Value() * p == d.mantissa as real;
    }
  }

  /** `float(v)` for a value that passes `IsIntOrFloat`: `True` is 1.0 and
      `False` is 0.0. */
  function NumberValue(v: Json): (d: Decimal)
    requires IsIntOrFloat(v)
    ensures v.JBool? ==> d.Value() == (if v.b then 1.0 else 0.0)
    ensures v.JInt? ==> d.Value() == v.i as real
    ensures v.JFloat? ==> d == Decimal(v.mantissa, v.exponent)
  {
    match v
    case JBool(b) => Decimal(if b then 1 else 0, 0)
    case JInt(i) => Decimal(i, 0)
    case JFloat(m, e) => Decimal(m, e)
  }

  /** The outcome of `json.loads(frame.decode('utf-8'))`. */
  datatype Decoded =
    | Parsed(v: Json)
    | BadUtf8      // UnicodeDecodeError
    | BadJson      // json.JSONDecodeError
}
