/** The REST client: one request per call, classified by status code, and the paths of
    the channel endpoints. */
module Api {
  import opened Wrappers
  import opened Json
  import opened Events

  const API_PREFIX: string := "/api/v9/"
  const GUILD_ID: string := "guilds/"
  const USER_AGENT: string := "PFC-Discord"
  /** Largest success body `response.json()` accepts. */
  const JSON_BODY_LIMIT: nat := 1024 * 1024
  /** Largest error body `response.body()` reads for the log line. */
  const ERROR_BODY_LIMIT: nat := 6000

  /** A `DiscordAPI`: the API base URL and the bot token. */
  datatype DiscordApi = DiscordApi(baseUrl: string, token: string)

  datatype HttpMethod = GET | POST | DELETE

  /** A request, its target relative to the API base URL. */
  datatype Request = Request(verb: HttpMethod, target: string, headers: seq<(string, string)>, body: Option<Value>)

  /** What the network returns for one request. `jsonType` says whether the reply's
      Content-Type is JSON (`application/json` or a `+json` suffix), the only kind that
      `ClientResponse::json` will parse. */
  datatype Reply = TransportFailure | Response(status: nat, jsonType: bool, body: seq<Byte>)

  /** The failures a call reports. `RetryError` exists in the crate's error type but no
      code path produces it. */
  datatype ApiError =
    | ResponseError      // transport failure, or a status other than 200/201
    | PayloadError       // a 200/201 reply that is not JSON, too large, or does not decode
    | Utf8Error          // with error logging on: an error body that is not UTF-8
    | Panic              // with error logging on: an error body over the read limit, `unwrap` panics
    | RetryError

  /** The outcome of one call: the requests it sent and its result. */
  datatype Exchange<T> = Exchange(sent: seq<Request>, result: Result<T, ApiError>)

  function Headers(api: DiscordApi): seq<(string, string)> {
    [("content-type", "application/json"), ("user-agent", USER_AGENT), ("authorization", "Bot " + api.token)]
  }

  /** Well-formed UTF-8 as `std::str::from_utf8` accepts it (RFC 3629: no overlong forms,
      no surrogates, nothing above U+10FFFF). */
  predicate ValidUtf8(b: seq<Byte>)
    decreases |b|
  {
    if |b| == 0 then true
    else if b[0] < 0x80 then ValidUtf8(b[1..])
    else if 0xC2 <= b[0] <= 0xDF then
      |b| >= 2 && Cont(b[1]) && ValidUtf8(b[2..])
    else if 0xE0 <= b[0] <= 0xEF then
      var lo := if b[0] == 0xE0 then 0xA0 else 0x80;
      var hi := if b[0] == 0xED then 0x9F else 0xBF;
      |b| >= 3 && lo <= b[1] <= hi && Cont(b[2]) && ValidUtf8(b[3..])
    else if 0xF0 <= b[0] <= 0xF4 then
      var lo := if b[0] == 0xF0 then 0x90 else 0x80;
      var hi := if b[0] == 0xF4 then 0x8F else 0xBF;
      |b| >= 4 && lo <= b[1] <= hi && Cont(b[2]) && Cont(b[3]) && ValidUtf8(b[4..])
    else false
  }

  predicate Cont(x: Byte) {
    0x80 <= x <= 0xBF
  }

  /** The status check shared by `get`, `post` and `delete`: 201 or 200 parse the body as
      JSON; anything else fails. The error body is read only as an argument of the
      `log::error!` line, which evaluates its arguments only when error-level logging is
      on (`errorLog`); only then can reading it panic or fail on bad UTF-8. */
  function Classify<T>(reply: Reply, errorLog: bool, decode: seq<Byte> -> Option<T>): Result<T, ApiError> {
    match reply
    case TransportFailure => Failure(ResponseError)
    case Response(status, jsonType, body) =>
      if status == 201 || status == 200 then
        if !jsonType then Failure(PayloadError)
        else if |body| > JSON_BODY_LIMIT then Failure(PayloadError)
        else if decode(body).None? then Failure(PayloadError)
        else Success(decode(body).value)
      else if !errorLog then Failure(ResponseError)
      else if |body| > ERROR_BODY_LIMIT then Failure(Panic)
      else if !ValidUtf8(body) then Failure(Utf8Error)
      else Failure(ResponseError)
  }

  /** One call: build the request, send it once through `server`, classify the reply. */
  function Perform<T>(
    api: DiscordApi, errorLog: bool, verb: HttpMethod, target: string, body: Option<Value>,
    server: Request -> Reply, decode: seq<Byte> -> Option<T>
  ): Exchange<T> {
    var request := Request(verb, target, Headers(api), body);
    Exchange([request], Classify(server(request), errorLog, decode))
  }

  function Get<T>(
    api: DiscordApi, errorLog: bool, target: string, server: Request -> Reply, decode: seq<Byte> -> Option<T>
  ): Exchange<T> {
    Perform(api, errorLog, GET, target, None, server, decode)
  }

  function Post<T>(
    api: DiscordApi, errorLog: bool, target: string, args: Value, server: Request -> Reply,
    decode: seq<Byte> -> Option<T>
  ): Exchange<T> {
    Perform(api, errorLog, POST, target, Some(args), server, decode)
  }

  function Delete<T>(
    api: DiscordApi, errorLog: bool, target: string, server: Request -> Reply, decode: seq<Byte> -> Option<T>
  ): Exchange<T> {
    Perform(api, errorLog, DELETE, target, None, server, decode)
  }

  /** Success exactly on status 200 or 201 with a JSON body that fits and decodes, and
      then the decoded body is the result; logging plays no part. */
  lemma ClassifySuccess<T>(reply: Reply, errorLog: bool, decode: seq<Byte> -> Option<T>)
    ensures Classify(reply, errorLog, decode).Success? <==>
      reply.Response? && (reply.status == 200 || reply.status == 201) && reply.jsonType
      && |reply.body| <= JSON_BODY_LIMIT && decode(reply.body).Some?
    ensures Classify(reply, errorLog, decode).Success? ==>
      Classify(reply, errorLog, decode).value == decode(reply.body).value
  {
  }

  /** A transport failure is a `ResponseError`; a 200/201 that does not parse is a
      `PayloadError`. Every other status fails: with error logging off always as a
      `ResponseError`; with it on, an error body over 6000 bytes panics, one that is not
      UTF-8 is a `Utf8Error`, and any other is a `ResponseError`. `RetryError` never
      occurs. */
  lemma ClassifyFailure<T>(reply: Reply, errorLog: bool, decode: seq<Byte> -> Option<T>)
    ensures reply.TransportFailure? ==> Classify(reply, errorLog, decode) == Failure(ResponseError)
    ensures reply.Response? && (reply.status == 200 || reply.status == 201) ==>
      (Classify(reply, errorLog, decode).Failure? <==> Classify(reply, errorLog, decode) == Failure(PayloadError))
    ensures reply.Response? && reply.status != 200 && reply.status != 201 ==>
      Classify(reply, errorLog, decode) ==
        if !errorLog then Failure(ResponseError)
        else if |reply.body| > ERROR_BODY_LIMIT then Failure(Panic)
        else if !ValidUtf8(reply.body) then Failure(Utf8Error)
        else Failure(ResponseError)
    ensures Classify(reply, errorLog, decode) != Failure(RetryError)
  {
  }

  /** Each of `get`, `post` and `delete` sends exactly one request, to the given target,
      with the three fixed headers, and its result is the classification of that one
      reply: there is no retry. */
  lemma SingleAttempt<T>(
    api: DiscordApi, errorLog: bool, target: string, args: Value, server: Request -> Reply,
    decode: seq<Byte> -> Option<T>)
    ensures var g := Get(api, errorLog, target, server, decode);
      && |g.sent| == 1 && g.sent[0] == Request(GET, target, Headers(api), None)
      && g.result == Classify(server(g.sent[0]), errorLog, decode)
    ensures var p := Post(api, errorLog, target, args, server, decode);
      && |p.sent| == 1 && p.sent[0] == Request(POST, target, Headers(api), Some(args))
      && p.result == Classify(server(p.sent[0]), errorLog, decode)
    ensures var d := Delete(api, errorLog, target, server, decode);
      && |d.sent| == 1 && d.sent[0] == Request(DELETE, target, Headers(api), None)
      && d.result == Classify(server(d.sent[0]), errorLog, decode)
  {
  }

  /** Given the same reply, the three verbs report the same result. */
  lemma VerbsAgree<T>(
    api: DiscordApi, errorLog: bool, target: string, args: Value, reply: Reply, decode: seq<Byte> -> Option<T>)
    ensures Get(api, errorLog, target, _ => reply, decode).result
         == Post(api, errorLog, target, args, _ => reply, decode).result
    ensures Get(api, errorLog, target, _ => reply, decode).result
         == Delete(api, errorLog, target, _ => reply, decode).result
  {
  }

  // ---------------------------------------------------------------------------
  // Endpoints
  // ---------------------------------------------------------------------------

  function GuildPath(guild: Snowflake): string {
    GUILD_ID + SnowflakeToString(guild)
  }

  function ChannelsPath(guild: Snowflake): string {
    GUILD_ID + SnowflakeToString(guild) + "/channels"
  }

  function ChannelPath(channel: Snowflake): string {
    "channels/" + SnowflakeToString(channel)
  }

  /** `guild`: GET the guild. */
  function GetGuild(
    api: DiscordApi, errorLog: bool, guild: Snowflake, server: Request -> Reply, decode: seq<Byte> -> Option<Guild>
  ): Exchange<Guild> {
    Get(api, errorLog, GuildPath(guild), server, decode)
  }

  /** `channels`: GET the guild's channel list. */
  function Channels(
    api: DiscordApi, errorLog: bool, guild: Snowflake, server: Request -> Reply, decode: seq<Byte> -> Option<seq<GuildChannel>>
  ): Exchange<seq<GuildChannel>> {
    Get(api, errorLog, ChannelsPath(guild), server, decode)
  }

  /** `create_channel`: POST the serialised details to the guild's channel list. */
  function CreateChannel(
    api: DiscordApi, errorLog: bool, guild: Snowflake, details: GuildChannelCreate,
    server: Request -> Reply, decode: seq<Byte> -> Option<GuildChannel>
  ): Exchange<GuildChannel> {
    Post(api, errorLog, ChannelsPath(guild), GuildChannelCreateToJson(details), server, decode)
  }

  /** `delete_channel`: DELETE the channel. */
  function DeleteChannel(
    api: DiscordApi, errorLog: bool, channel: Snowflake, server: Request -> Reply, decode: seq<Byte> -> Option<GuildChannel>
  ): Exchange<GuildChannel> {
    Delete(api, errorLog, ChannelPath(channel), server, decode)
  }

  /** Each endpoint sends one request, with its verb, to its path, carrying the serialised
      details only when creating, and reports the classification of that one reply. */
  lemma EndpointRequests(
    api: DiscordApi, errorLog: bool, guild: Snowflake, channel: Snowflake, details: GuildChannelCreate,
    server: Request -> Reply,
    decodeGuild: seq<Byte> -> Option<Guild>,
    decodeList: seq<Byte> -> Option<seq<GuildChannel>>,
    decodeChannel: seq<Byte> -> Option<GuildChannel>)
    ensures var x := GetGuild(api, errorLog, guild, server, decodeGuild);
      && x.sent == [Request(GET, "guilds/" + Decimal(guild.id), Headers(api), None)]
      && x.result == Classify(server(x.sent[0]), errorLog, decodeGuild)
    ensures var x := Channels(api, errorLog, guild, server, decodeList);
      && x.sent == [Request(GET, "guilds/" + Decimal(guild.id) + "/channels", Headers(api), None)]
      && x.result == Classify(server(x.sent[0]), errorLog, decodeList)
    ensures var x := CreateChannel(api, errorLog, guild, details, server, decodeChannel);
      && x.sent == [Request(POST, "guilds/" + Decimal(guild.id) + "/channels", Headers(api),
                            Some(GuildChannelCreateToJson(details)))]
      && x.result == Classify(server(x.sent[0]), errorLog, decodeChannel)
    ensures var x := DeleteChannel(api, errorLog, channel, server, decodeChannel);
      && x.sent == [Request(DELETE, "channels/" + Decimal(channel.id), Headers(api), None)]
      && x.result == Classify(server(x.sent[0]), errorLog, decodeChannel)
  {
  }

  lemma DecimalInjective(a: U64, b: U64)
    requires Decimal(a) == Decimal(b)
    ensures a == b
  {
    SnowflakeRoundTrip(Snowflake(a));
    SnowflakeRoundTrip(Snowflake(b));
  }

  /** The paths name their ids: the guild path is `guilds/<id>`, the channel-list path
      `guilds/<id>/channels` and the channel path `channels/<id>`, with `<id>` the id's
      decimal string; distinct ids give distinct paths, and the three families never
      collide. */
  lemma PathsIdentifyTheirIds(a: Snowflake, b: Snowflake)
    ensures GuildPath(a) == "guilds/" + Decimal(a.id)
    ensures ChannelsPath(a) == "guilds/" + Decimal(a.id) + "/channels"
    ensures ChannelPath(a) == "channels/" + Decimal(a.id)
    ensures GuildPath(a) == GuildPath(b) ==> a == b
    ensures ChannelsPath(a) == ChannelsPath(b) ==> a == b
    ensures ChannelPath(a) == ChannelPath(b) ==> a == b
    ensures ChannelsPath(a) != ChannelPath(b) && GuildPath(a) != ChannelPath(b)
    ensures GuildPath(a) != ChannelsPath(b)
  {
    if GuildPath(a) == GuildPath(b) {
      assert Decimal(a.id) == GuildPath(a)[7..];
      assert Decimal(b.id) == GuildPath(b)[7..];
      DecimalInjective(a.id, b.id);
    }
    // Where the channel-list path has its `/`, a guild path has a digit or has ended.
    var i := 7 + |Decimal(b.id)|;
    assert ChannelsPath(b)[i] == '/';
    assert i < |GuildPath(a)| ==> GuildPath(a)[i] == Decimal(a.id)[i - 7];
    assert GuildPath(a)[0] == 'g' && ChannelPath(b)[0] == 'c';
    if ChannelsPath(a) == ChannelsPath(b) {
      var da, db := Decimal(a.id), Decimal(b.id);
      assert |da| == |db|;
      assert da == ChannelsPath(a)[7..7 + |da|];
      assert db == ChannelsPath(b)[7..7 + |db|];
      DecimalInjective(a.id, b.id);
    }
    if ChannelPath(a) == ChannelPath(b) {
      assert Decimal(a.id) == ChannelPath(a)[9..];
      assert Decimal(b.id) == ChannelPath(b)[9..];
      DecimalInjective(a.id, b.id);
    }
    assert ChannelsPath(a)[0] == 'g' && ChannelPath(b)[0] == 'c';
  }

  /** Creating a channel with `GuildChannelCreate::simple` posts once to the guild's
      channel list; the body carries the given type code, name, topic and parent and the
      defaults: no bitrate, no user limit, no slow mode, position 0, not NSFW. */
  lemma CreateSimpleChannel(
    api: DiscordApi, errorLog: bool, guild: Snowflake, uType: ChannelType, name: string, topic: Option<string>,
    parent: Option<Snowflake>, server: Request -> Reply, decode: seq<Byte> -> Option<GuildChannel>)
    ensures var x := CreateChannel(api, errorLog, guild, SimpleChannel(uType, name, topic, parent), server, decode);
      && |x.sent| == 1 && x.sent[0].verb == POST && x.sent[0].target == ChannelsPath(guild)
      && x.sent[0].body.Some? && x.sent[0].body.value.Obj?
      && var f := x.sent[0].body.value.fields;
      && f.Keys == {"type", "name", "topic", "bitrate", "user_limit", "rate_limit_per_user",
                    "position", "parent_id", "nsfw"}
      && f["type"] == Num(ChannelTypeCode(uType)) && f["name"] == Str(name)
      && OptStringField(Some(f["topic"])) == Some(topic)
      && f["bitrate"] == Null && f["user_limit"] == Null
      && f["rate_limit_per_user"] == Num(0) && f["position"] == Num(0)
      && f["nsfw"] == Bool(false)
      && (parent.None? ==> f["parent_id"] == Null)
      && (parent.Some? ==> DeserializeSnowflake(f["parent_id"]) == parent)
  {
    var x := CreateChannel(api, errorLog, guild, SimpleChannel(uType, name, topic, parent), server, decode);
    assert x.sent[0].body == Some(GuildChannelCreateToJson(SimpleChannel(uType, name, topic, parent)));
    SimpleChannelBody(uType, name, topic, parent);
  }
}
