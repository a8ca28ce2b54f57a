/** JSON values as the serde_json `Value` tree, and the field-level decoding rules a
    `#[derive(Deserialize)]` struct applies to them. Text-level JSON (lexing, escapes,
    key order, duplicate keys) is below this model: an object is a map from key to value. */
module Json {
  import opened Wrappers

  const U64_BOUND: int := 0x1_0000_0000_0000_0000

  /** Rust's `u64`, and `usize` assuming a 64-bit target. */
  type U64 = n: int | 0 <= n < 0x1_0000_0000_0000_0000

  /** Rust's `u8`, the unit of frame payloads and HTTP bodies. */
  type Byte = n: int | 0 <= n < 0x100

  /** A decoded JSON document. Numbers are integers; floating point is not modelled. */
  datatype Value =
    | Null
    | Bool(b: bool)
    | Num(n: int)
    | Str(s: string)
    | Arr(items: seq<Value>)
    | Obj(fields: map<string, Value>)

  /** The fields a derived struct decoder sees, in declaration order. An object is read
      by key (keys not named are ignored; an absent key gives `None`); an array is read
      positionally and must hold exactly one element per field. Anything else fails. */
  function StructFields(v: Value, names: seq<string>): (r: Option<seq<Option<Value>>>)
    ensures r.Some? ==> |r.value| == |names|
    ensures v.Obj? ==> r.Some? && forall i :: 0 <= i < |names| ==>
      r.value[i] == (if names[i] in v.fields then Some(v.fields[names[i]]) else None)
    ensures v.Arr? ==> (r.Some? <==> |v.items| == |names|)
    ensures v.Arr? && r.Some? ==> forall i :: 0 <= i < |names| ==> r.value[i] == Some(v.items[i])
    ensures !v.Obj? && !v.Arr? ==> r.None?
  {
    match v
    case Obj(m) =>
      Some(seq(|names|, i requires 0 <= i < |names| =>
        if names[i] in m then Some(m[names[i]]) else None))
    case Arr(items) =>
      if |items| == |names| then Some(seq(|items|, i requires 0 <= i < |items| => Some(items[i])))
      else None
    case _ => None
  }

  /** A required `u64`/`usize` field: present, an integer, and in range. */
  function U64Field(f: Option<Value>): (r: Option<U64>)
    ensures r.Some? <==> f.Some? && f.value.Num? && 0 <= f.value.n < U64_BOUND
    ensures r.Some? ==> f == Some(Num(r.value))
  {
    match f
    case Some(Num(n)) => if 0 <= n < U64_BOUND then Some(n) else None
    case _ => None
  }

  /** An `Option<u64>` field: absent or `null` is `None`; an in-range integer is `Some`;
      anything else is a decoding error (outer `None`). */
  function OptU64Field(f: Option<Value>): (r: Option<Option<U64>>)
    ensures f.None? || f == Some(Null) ==> r == Some(None)
    ensures r.Some? && r.value.Some? ==> f == Some(Num(r.value.value))
    ensures f.Some? && f.value.Num? ==> (r.Some? <==> 0 <= f.value.n < U64_BOUND)
    ensures f.Some? && f.value.Num? && 0 <= f.value.n < U64_BOUND ==> r == Some(Some(f.value.n))
    ensures f.Some? && !f.value.Null? && !f.value.Num? ==> r.None?
  {
    match f
    case None => Some(None)
    case Some(Null) => Some(None)
    case Some(Num(n)) => if 0 <= n < U64_BOUND then Some(Some(n)) else None
    case Some(_) => None
  }

  /** An `Option<String>` field, with the same absent/`null` rule. */
  function OptStringField(f: Option<Value>): (r: Option<Option<string>>)
    ensures f.None? || f == Some(Null) ==> r == Some(None)
    ensures r.Some? && r.value.Some? ==> f == Some(Str(r.value.value))
    ensures f.Some? && f.value.Str? ==> r == Some(Some(f.value.s))
    ensures f.Some? && !f.value.Null? && !f.value.Str? ==> r.None?
  {
    match f
    case None => Some(None)
    case Some(Null) => Some(None)
    case Some(Str(s)) => Some(Some(s))
    case Some(_) => None
  }

  /** How serde serialises an `Option<u64>`: `None` becomes `null`. */
  function OptU64ToJson(o: Option<U64>): (v: Value)
    ensures OptU64Field(Some(v)) == Some(o)
  {
    match o
    case None => Null
    case Some(n) => Num(n)
  }

  /** How serde serialises an `Option<String>`. */
  function OptStringToJson(o: Option<string>): (v: Value)
    ensures OptStringField(Some(v)) == Some(o)
  {
    match o
    case None => Null
    case Some(s) => Str(s)
  }
}
