/** The values `JSON.parse` produces, with the two JavaScript notions the
    core applies to them: truthiness and property access. */
module Json {
  import opened Js

  /** A parsed JSON value. An object keeps its members in source order,
      duplicates included. */
  datatype Value =
    | Null
    | Bool(b: bool)
    | Number(n: real)
    | Str(s: string)
    | Array(items: seq<Value>)
    | Object(members: seq<(string, Value)>)

  /** `JSON.parse`: the parsed value, or the message of the SyntaxError it
      throws. The parser itself is not part of this model. */
  type Parser = string -> Result<Value, string>

  /** `!!v` for a value `JSON.parse` can return (NaN never occurs). */
  predicate Truthy(v: Value)
  {
    match v
    case Null => false
    case Bool(b) => b
    case Number(n) => n != 0.0
    case Str(s) => s != []
    case Array(_) => true
    case Object(_) => true
  }

  /** Index of the last member named `key`, or -1 when there is none. */
  function LastKeyIndex(members: seq<(string, Value)>, key: string): (r: int)
    ensures -1 <= r < |members|
    ensures r >= 0 ==> members[r].0 == key
    ensures forall j :: r < j < |members| ==> members[j].0 != key
  {
    if members == [] then -1
    else if members[|members| - 1].0 == key then |members| - 1
    else LastKeyIndex(members[..|members| - 1], key)
  }

  /** The value of the last member named `key` (the one `JSON.parse`
      keeps: a later duplicate overwrites an earlier one). */
  function LastMember(members: seq<(string, Value)>, key: string): (r: Option<Value>)
    ensures r.None? <==> forall j :: 0 <= j < |members| ==> members[j].0 != key
    ensures r.Some? ==> exists i :: 0 <= i < |members| && members[i] == (key, r.value)
  {
    var i := LastKeyIndex(members, key);
    if i >= 0 then Some(members[i].1) else None
  }

  /** `v[key]` on a non-null value: an object's own member, `undefined`
      (None) for anything else. Property access on `null` throws a
      TypeError, which the caller handles. */
  function Property(v: Value, key: string): (r: Option<Value>)
    requires !v.Null?
    ensures r.Some? ==> v.Object?
  {
    if v.Object? then LastMember(v.members, key) else None
  }

  /** Truthiness of `v[key]`, where an absent member reads as `undefined`. */
  predicate TruthyProperty(v: Value, key: string)
    requires !v.Null?
  {
    var p := Property(v, key);
    p.Some? && Truthy(p.value)
  }
}
