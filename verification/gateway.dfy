/** The gateway wire envelope `{op, d, s, t}`, its op codes, the Hello payload and the
    Identify payload the client answers Hello with. */
module Gateway {
  import opened Wrappers
  import opened Json

  // Op codes.
  const GATEWAY: U64 := 0          // dispatch: an event named by `t`
  const HEARTBEAT: U64 := 1
  const IDENTIFY: U64 := 2
  const INVALID_SESSION: U64 := 9
  const HELLO: U64 := 10
  const ACK: U64 := 11

  lemma OpCodesDistinct()
    ensures |{GATEWAY, HEARTBEAT, IDENTIFY, INVALID_SESSION, HELLO, ACK}| == 6
  {
  }

  /** One gateway message: event name, sequence number, op code and payload. */
  datatype Envelope = Envelope(t: Option<string>, s: Option<U64>, op: U64, d: Value)

  /** Field order of the derived (de)serialiser. */
  const ENVELOPE_FIELDS: seq<string> := ["t", "s", "op", "d"]

  /** The derived `Serialize`: every field is written, `None` as `null`. */
  function EncodeEnvelope(e: Envelope): Value {
    Obj(map["t" := OptStringToJson(e.t), "s" := OptU64ToJson(e.s), "op" := Num(e.op), "d" := e.d])
  }

  /** The derived `Deserialize`: `op` and `d` are required, `s` and `t` may be missing or
      `null`; a field of the wrong shape, or a document that is neither an object nor a
      four-element array, is an error. */
  function DecodeEnvelope(v: Value): Option<Envelope> {
    match StructFields(v, ENVELOPE_FIELDS)
    case None => None
    case Some(f) =>
      var t := OptStringField(f[0]);
      var s := OptU64Field(f[1]);
      var op := U64Field(f[2]);
      if t.Some? && s.Some? && op.Some? && f[3].Some? then
        Some(Envelope(t.value, s.value, op.value, f[3].value))
      else None
  }

  /** Every envelope, whatever combination of `s` and `t` it carries, decodes back to
      itself; an absent optional field stays absent. */
  lemma EnvelopeRoundTrip(e: Envelope)
    ensures DecodeEnvelope(EncodeEnvelope(e)) == Some(e)
  {
    var f := StructFields(EncodeEnvelope(e), ENVELOPE_FIELDS).value;
    assert f[0] == Some(OptStringToJson(e.t));
    assert f[1] == Some(OptU64ToJson(e.s));
    assert f[2] == Some(Num(e.op));
    assert f[3] == Some(e.d);
  }

  /** Decoding accepts exactly the documents that carry a valid `op` and some `d`, with
      `s` and `t` well-formed or missing; what it returns is what the document says. */
  lemma DecodeEnvelopeFields(m: map<string, Value>)
    ensures DecodeEnvelope(Obj(m)).Some? <==>
      && "d" in m && "op" in m && m["op"].Num? && 0 <= m["op"].n < U64_BOUND
      && OptU64Field(if "s" in m then Some(m["s"]) else None).Some?
      && OptStringField(if "t" in m then Some(m["t"]) else None).Some?
    ensures DecodeEnvelope(Obj(m)).Some? ==>
      var e := DecodeEnvelope(Obj(m)).value;
      && e.d == m["d"] && m["op"] == Num(e.op)
      && (e.s.Some? ==> "s" in m && m["s"] == Num(e.s.value))
      && (e.t.Some? ==> "t" in m && m["t"] == Str(e.t.value))
      && ("s" !in m || m["s"] == Null ==> e.s.None?)
      && ("t" !in m || m["t"] == Null ==> e.t.None?)
      && ("s" in m && m["s"].Num? ==> e.s == Some(m["s"].n))
      && ("t" in m && m["t"].Str? ==> e.t == Some(m["t"].s))
  {
    var f := StructFields(Obj(m), ENVELOPE_FIELDS).value;
    assert f[0] == (if "t" in m then Some(m["t"]) else None);
    assert f[1] == (if "s" in m then Some(m["s"]) else None);
    assert f[2] == (if "op" in m then Some(m["op"]) else None);
    assert f[3] == (if "d" in m then Some(m["d"]) else None);
  }

  /** An `s` that is neither `null` nor an integer, or a `t` that is neither `null` nor a
      string, makes the whole envelope fail to decode: `{"op":1,"d":null,"s":"7"}` is an
      error, not a heartbeat without a sequence number. */
  lemma EnvelopeTypeErrors(m: map<string, Value>)
    ensures "s" in m && !m["s"].Null? && !m["s"].Num? ==> DecodeEnvelope(Obj(m)).None?
    ensures "t" in m && !m["t"].Null? && !m["t"].Str? ==> DecodeEnvelope(Obj(m)).None?
  {
    DecodeEnvelopeFields(m);
  }

  /** `GatewayHello { heartbeat_interval: u64 }` read from an envelope's `d`. */
  function DecodeHello(d: Value): Option<U64> {
    match StructFields(d, ["heartbeat_interval"])
    case None => None
    case Some(f) => U64Field(f[0])
  }

  /** The JSON a server sends as the payload of a Hello. */
  function HelloPayload(intervalMs: U64): Value {
    Obj(map["heartbeat_interval" := Num(intervalMs)])
  }

  lemma HelloRoundTrip(intervalMs: U64)
    ensures DecodeHello(HelloPayload(intervalMs)) == Some(intervalMs)
  {
    var f := StructFields(HelloPayload(intervalMs), ["heartbeat_interval"]).value;
    assert f[0] == Some(Num(intervalMs));
  }

  /** The crate's compile-time package name and version (`option_env!`); either may be
      absent. */
  datatype BuildInfo = BuildInfo(name: Option<string>, version: Option<string>)

  datatype Identify = Identify(token: string, intents: U64, properties: map<string, string>, v: U64)

  const API_VERSION: U64 := 9

  /** `GatewayIdentify::create`. */
  function CreateIdentify(token: string, intents: U64, build: BuildInfo): Identify {
    var p := map[
      "$os" := "linux",
      "$browser" := build.name.GetOr("PFC-Discord"),
      "$device" := build.version.GetOr("DEV")];
    Identify(token, intents, p, API_VERSION)
  }

  function StringMapToJson(m: map<string, string>): Value {
    Obj(map k | k in m :: Str(m[k]))
  }

  /** The derived `Serialize` of `GatewayIdentify`. */
  function IdentifyToJson(i: Identify): Value {
    Obj(map[
      "token" := Str(i.token),
      "intents" := Num(i.intents),
      "properties" := StringMapToJson(i.properties),
      "v" := Num(i.v)])
  }

  /** The Identify payload on the wire: the token and intents unchanged, protocol version 9,
      and a properties object with exactly the keys `$os`, `$browser` and `$device`, where
      `$os` is "linux" and the other two fall back to "PFC-Discord" and "DEV" when the
      package name or version is unknown. */
  lemma IdentifyPayload(token: string, intents: U64, build: BuildInfo)
    ensures var j := IdentifyToJson(CreateIdentify(token, intents, build));
      && j.Obj? && j.fields.Keys == {"token", "intents", "properties", "v"}
      && j.fields["token"] == Str(token)
      && j.fields["intents"] == Num(intents)
      && j.fields["v"] == Num(9)
      && var p := j.fields["properties"];
      && p.Obj? && p.fields.Keys == {"$os", "$browser", "$device"}
      && p.fields["$os"] == Str("linux")
      && p.fields["$browser"] == Str(if build.name.Some? then build.name.value else "PFC-Discord")
      && p.fields["$device"] == Str(if build.version.Some? then build.version.value else "DEV")
  {
    var props := CreateIdentify(token, intents, build).properties;
    assert props.Keys == {"$os", "$browser", "$device"};
    PropertiesJson(props);
  }

  lemma PropertiesJson(m: map<string, string>)
    ensures var j := StringMapToJson(m);
      j.Obj? && j.fields.Keys == m.Keys && forall k :: k in m ==> j.fields[k] == Str(m[k])
  {
  }
}
