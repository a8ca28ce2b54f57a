# actor-discord, modelled in Dafny

A Dafny model of the core of `actor-discord`, a Rust client for the Discord bot API.
The crate has three parts, and so does the model:

- **The gateway session** (`src/connection.rs`, `src/types/gateway.rs`).
  One WebSocket connection: the server says Hello, the client answers with Identify and then sends a heartbeat every interval, carrying the last sequence number it has seen.
  Dispatch events are decoded and published to the message broker.
- **The REST client** (`src/api.rs`).
  It issues a single GET, POST or DELETE per call and classifies the reply by status code.
  It builds the guild and channel endpoint paths, and it cleans channel names (`sanitize`).
- **The channel reordering script** (`examples/sort_channels.rs`).
  It picks the validator channels, orders them by name descending, and assigns them positions counting down from the number of channels.

The wire types (`src/types/events.rs`) are shared by all three: snowflake ids, the `u8`-coded channel and message kinds, and the channel, guild and message records.

Modules, one file each:

| module | file | models |
|---|---|---|
| `Wrappers` | `wrappers.dfy` | `Option` and `Result` |
| `Json` | `json.dfy` | the `serde_json::Value` tree and the field rules of a derived `Deserialize` |
| `Events` | `events.dfy` | `src/types/events.rs`: `SnowflakeID`, `ChannelType`, `MessageObjectType`, the records, `GuildChannelCreate::simple` |
| `Gateway` | `gateway.dfy` | `src/types/gateway.rs`: op codes, the `{t, s, op, d}` envelope, Hello, Identify |
| `Connection` | `connection.dfy` | `src/connection.rs`: `DiscordBot::create`, `handle_ws`, `handle_ws_gateway_event`, `start_websocket` |
| `Api` | `api.dfy` | `src/api.rs`: `get`/`post`/`delete`, `guild`, `channels`, `create_channel`, `delete_channel` |
| `Sanitize` | `sanitize.dfy` | `src/api.rs`: `DiscordAPI::sanitize` |
| `SortChannels` | `sort_channels.dfy` | `examples/sort_channels.rs` |

How the model is shaped:

- **The session loop is a left fold.**
  The `tokio::select!` loop of `start_websocket` becomes `Connection.Loop`, a fold of `Connection.Wake` over a trace of wakeups.
  Each wakeup is an inbound frame, the end of the frame stream, or a timer tick.
  Which source wins when both are ready is part of the trace.
  Once the loop has stopped (closed or failed), later wakeups change nothing.
- **Outside inputs are parameters.**
  Decoding of the event payload records is a parameter of the bot (`Connection.Decoders`).
  The network is a function from request to reply, and the body decoder of a REST call is a parameter too.
- **JSON is the decoded value tree.**
  An object is a map from key to value.
  The derived decoders read an object by key, or an array positionally with exactly one element per field.
  In both cases an `Option` field may be missing or `null`.
- **Integer widths are explicit.**
  `u64` and `usize` are the subset type `Json.U64`, below 2^64, assuming a 64-bit target for `usize`.
  `u8` is `Json.Byte`.
- **The model follows the code where it does less than its names or the Discord gateway protocol suggest.**
  - There is one attempt per REST call: no 429 handling and no retry.
    The crate declares `RetryError` ("Too many retries", `src/errors.rs:9-10`) but never constructs it.
    The callers read `DISCORD_RETRIES` and pass it on (`src/main.rs:20,30`), but `DiscordAPI::create` in `src/api.rs` takes no retry count.
  - The sequence number is overwritten by whatever `s` arrives, even a smaller one.
  - Op 7 (reconnect in the Discord gateway protocol) has no constant in `src/types/gateway.rs`; it falls into the unknown-op branch and is only logged.
  - `CHANNEL_DELETE` publishes `ChannelUpdate` and `CHANNEL_UPDATE` publishes `ChannelDelete`.
    This is the swapped mapping of `src/connection.rs:155-161`, kept as written; `Connection.EventClassification` states it as a table.
  - A Hello announcing a 0 ms interval ends the session (`Connection.GatewayError.ZeroInterval`): `tokio::time::interval` panics on a zero period (`src/connection.rs:193-194`).
  - The REST client's error paths are the ones the code takes.
    A 200/201 reply that is not JSON by its Content-Type, is over 1 MiB, or does not decode is a payload error.
    Any other status is a `ResponseError`, except that the error body is read inside the `log::error!` line, whose arguments are evaluated only when error-level logging is on (`errorLog`, on under `env_logger`'s default that `src/main.rs:15` installs).
    Then an error body over 6000 bytes reaches the `unwrap` and panics (`Api.ApiError.Panic`), and a non-UTF-8 one fails the line's `?` (`Utf8Error`).

Which Dafny function stands for which Rust function:

| Rust (file:line) | Dafny |
|---|---|
| `DiscordBot::create` (src/connection.rs:88-120) | `Connection.CreateBot` |
| `handle_ws_gateway_event` (src/connection.rs:122-170) | `Connection.HandleGatewayEvent` |
| `handle_ws` (src/connection.rs:171-246) | `Connection.HandleWs`, `HandleText`, `HandleOp` |
| `start_websocket` (src/connection.rs:247-282) | `Connection.StartWebsocket`, its loop `Connection.Loop`, one iteration `Connection.Wake` |
| the heartbeat (src/connection.rs:269-275) | `Connection.HeartbeatMessage` |
| `GatewayMessage` (src/types/gateway.rs:49-55) | `Gateway.EncodeEnvelope`, `Gateway.DecodeEnvelope` |
| `GatewayHello` (src/types/gateway.rs:23-25) | `Gateway.DecodeHello` |
| `GatewayIdentify::create` (src/types/gateway.rs:27-47) | `Gateway.CreateIdentify`, serialised by `Gateway.IdentifyToJson` |
| `SnowflakeID` serde and `From<&str>` (src/types/events.rs:31-64) | `Events.SerializeSnowflake`, `Events.DeserializeSnowflake`, `Events.SnowflakeFromStr`, with `Events.ParseU64` for `parse::<u64>` |
| `SnowflakeID::to_string` (src/types/events.rs:65-69) | `Events.SnowflakeToString` (`Events.Decimal`) |
| `ChannelType`, `MessageObjectType` (src/types/events.rs:84-98, 157-183) | `Events.ChannelTypeCode`/`ChannelTypeFromCode`, `Events.MessageObjectTypeCode`/`MessageObjectTypeFromCode` |
| `GuildChannelCreate::simple` (src/types/events.rs:125-144) | `Events.SimpleChannel`, serialised by `Events.GuildChannelCreateToJson` |
| `get`, `post`, `delete` (src/api.rs:33-129) | `Api.Get`, `Api.Post`, `Api.Delete`, through `Api.Perform` and the status check `Api.Classify` |
| `guild`, `channels`, `create_channel`, `delete_channel` (src/api.rs:131-156) | `Api.GetGuild`, `Api.Channels`, `Api.CreateChannel`, `Api.DeleteChannel`, on `Api.GuildPath`, `Api.ChannelsPath`, `Api.ChannelPath` |
| `sanitize` (src/api.rs:157-173) | `Sanitize.Sanitize`, one function per regex stage |
| the script's filter, sort and loop (examples/sort_channels.rs:20-50) | `SortChannels.Select`, `SortChannels.SortByNameDesc`, `SortChannels.AssignPositions` (its result `SortChannels.PlanFrom`), `SortChannels.PositionPlan` |

## Model

| member | source | states |
|---|---|---|
| `Json.StructFields` | src/types/gateway.rs:49-55 | a derived struct decoder reads an object by key (absent keys give no field) and an array only when it has exactly one element per field, field `i` being element `i`; anything else is rejected |
| `Json.U64Field` | src/types/gateway.rs:53 | a required `usize` field is accepted exactly when it is an integer in `[0, 2^64)`, and then it is that integer |
| `Json.OptU64Field` | src/types/gateway.rs:52 | an `Option<usize>` field that is missing or `null` reads as `None`; an integer reads as `Some` of itself exactly when it is in range; a value of any other type is a decoding error |
| `Json.OptStringField` | src/types/gateway.rs:51 | an `Option<String>` field that is missing or `null` reads as `None`; a string reads as itself; a value of any other type is a decoding error |
| `Json.OptU64ToJson` | src/connection.rs:271 | serialising an `Option<usize>` and reading it back gives the same option (`None` travels as `null`) |
| `Json.OptStringToJson` | src/types/events.rs:117 | serialising an `Option<String>` and reading it back gives the same option |
| `Events.Decimal` | src/types/events.rs:65-69 | `to_string` of a `u64` is a non-empty digit string; it is one digit exactly for values below 10 and starts with `0` only for 0 |
| `Events.DecimalValue` | src/types/events.rs:65-69 | the digits `to_string` writes denote the number itself |
| `Events.DecimalUnique` | src/types/events.rs:65-69 | a digit string without a superfluous leading zero is `to_string` of its value |
| `Events.ZerosValue` | src/types/events.rs:45 | leading zeros do not change the value `parse::<u64>` reads |
| `Events.SplitLeadingZeros` | src/types/events.rs:45 | every digit string is a run of zeros followed by the canonical decimal of its value |
| `Events.ParseAcceptsPadded` | src/types/events.rs:44-50 | `parse::<u64>` accepts every value with an optional `+` and any number of leading zeros |
| `Events.ParseOnlyPadded` | src/types/events.rs:44-50 | a string that `parse::<u64>` accepts is an optional `+`, zeros, and the decimal of the parsed value, so nothing else (no `-`, no blanks, no empty string, no overflow) is accepted |
| `Events.SnowflakeRoundTrip` | src/types/events.rs:31-69 | a snowflake serialised to a JSON string deserialises to itself, and `to_string` then `From<&str>` gives it back |
| `Events.SnowflakeEncodingsAgree` | src/types/events.rs:31-64 | deserialisation accepts exactly the strings `parse::<u64>` accepts and rejects every non-string value; `From<&str>` agrees with it where it succeeds and gives id 0 elsewhere |
| `Events.ChannelTypeCode` | src/types/events.rs:84-98 | every channel type has a `u8` code |
| `Events.ChannelTypeCodes` | src/types/events.rs:84-98 | code then decode is the identity on channel types, exactly the codes 0-6 and 10-13 decode, and decode then code gives the code back |
| `Events.MessageObjectTypeCode` | src/types/events.rs:157-183 | every message type has a `u8` code |
| `Events.MessageObjectTypeCodes` | src/types/events.rs:157-183 | code then decode is the identity on message types, exactly the codes 0-12 and 14-23 decode, and decode then code gives the code back |
| `Events.SimpleChannelBody` | src/types/events.rs:125-144 | the serialised `GuildChannelCreate::simple` has exactly the nine fields: the type code, the name, the topic (reading back as given), `null` bitrate and user limit, rate limit and position 0, `nsfw` false, and the parent (`null` when absent, else a string reading back as the id) |
| `Events.OptSnowflakeRoundTrip` | src/types/events.rs:31-53 | an absent optional snowflake is written as `null`, a present one as a string that deserialises back to it |
| `Gateway.OpCodesDistinct` | src/types/gateway.rs:10-15 | the six op codes are pairwise distinct |
| `Gateway.EnvelopeRoundTrip` | src/types/gateway.rs:49-55 | every envelope, with or without `s` and `t`, decodes back to itself after serialisation |
| `Gateway.DecodeEnvelopeFields` | src/types/gateway.rs:49-55 | an object decodes as an envelope exactly when `op` is an in-range integer, `d` is present, and `s` and `t` are well-formed or absent; the decoded fields are the object's: a present integer `s` or string `t` decodes to `Some` of it, and a missing or `null` `s`/`t` is `None` |
| `Gateway.EnvelopeTypeErrors` | src/types/gateway.rs:51-52 | an envelope whose `s` is present but neither `null` nor an integer, or whose `t` is present but neither `null` nor a string, does not decode at all |
| `Gateway.HelloRoundTrip` | src/types/gateway.rs:23-25 | the Hello payload `{heartbeat_interval}` decodes to its interval |
| `Gateway.IdentifyPayload` | src/types/gateway.rs:27-47 | the Identify payload has exactly the keys token, intents, properties and v; it carries the token and intents unchanged and v = 9; properties has exactly `$os` = "linux", `$browser` (package name, else "PFC-Discord") and `$device` (version, else "DEV") |
| `Connection.CreateBot` | src/connection.rs:88-120 | creation fails exactly when the gateway URL lookup or the parsing of that URL fails, with that error; a new bot has no sequence number, a one-second heartbeat period and timer, the parsed URL, and the given token and intents |
| `Connection.HeartbeatWire` | src/connection.rs:270-275 | a heartbeat is an envelope with op 1, no `s`, no `t`, and `d` holding exactly the current sequence number (`null` if none) |
| `Connection.EventClassification` | src/connection.rs:122-170 | a dispatch named in the table publishes exactly one event of the tabled kind, or fails if its payload does not decode; `READY` and every other name publish nothing and succeed |
| `Connection.DispatchNeverInit` | src/connection.rs:122-170 | no dispatch publishes the start signal `Init` |
| `Connection.TextTracksSequence` | src/connection.rs:178-181 | a text frame whose envelope has `s = n` leaves the bot's sequence number at `n` whatever its op code, also when handling the op then ends the session; without `s` the number is unchanged |
| `Connection.HelloSendsIdentify` | src/connection.rs:190-208 | Hello succeeds exactly when its payload decodes to a positive interval; a malformed payload is `MalformedHello` and a 0 ms interval is `ZeroInterval` (the panicking `interval`); on success it sets the heartbeat period to the announced interval, re-creates the timer, publishes nothing, and replies with one Identify envelope (op 2, no `s`, no `t`) |
| `Connection.DispatchPublishes` | src/connection.rs:183-185 | a named dispatch keeps the session open, sends nothing, and publishes what the classifier publishes; the classifier's failure is the step's failure |
| `Connection.QuietOps` | src/connection.rs:186-218 | ACK, INVALID_SESSION, an unknown op and an unnamed dispatch change only the sequence number, send nothing, and keep the session open |
| `Connection.IgnoredFrames` | src/connection.rs:220-228 | binary, continuation and pong frames change nothing |
| `Connection.PingPong` | src/connection.rs:222-227 | a ping is answered by a pong with the same payload, with no other effect |
| `Connection.CloseStops` | src/connection.rs:229-243 | a close frame, with or without a reason, stops the session and sends nothing |
| `Connection.MalformedTextIsFatal` | src/connection.rs:178 | text that is not JSON, or JSON that is not an envelope, ends the session with an error |
| `Connection.LoopAppend` | src/connection.rs:255-279 | running the loop over two traces in turn is running it over their concatenation |
| `Connection.StoppedStaysStopped` | src/connection.rs:265-267 | after the loop breaks or fails, no further wakeup changes anything |
| `Connection.CloseIsFinal` | src/connection.rs:258-268 | a close frame while running stops the loop with nothing else changed, and everything after it is ignored |
| `Connection.TickSendsHeartbeat` | src/connection.rs:270-276 | each tick of a running loop sends exactly one heartbeat carrying the current sequence number and changes nothing else |
| `Connection.WakeSequence` | src/connection.rs:258-276 | one wakeup of a running loop, whether the loop goes on or stops there, sets the sequence number to the one its frame reports, else leaves it |
| `Connection.SequenceTracking` | src/connection.rs:255-279 | while the loop runs, its sequence number is the last one reported anywhere in the trace, and the next heartbeat carries it |
| `Connection.WakeOutput` | src/connection.rs:258-276 | one wakeup only appends; what it sends is a client message, it never publishes `Init`, and a running loop sends one message per tick, ping and Hello with a positive interval |
| `Connection.ReactionOutput` | src/connection.rs:171-246 | when a frame is handled, its reply, if any, is a heartbeat, the Identify or a pong, exactly pings and Hellos with a positive interval get one, and `Init` is never published |
| `Connection.LoopOutput` | src/connection.rs:255-279 | over any trace the loop only appends to what it sent and published; everything sent is a heartbeat, the Identify or a pong; it never publishes `Init` itself; while running it has sent exactly one message per tick, ping and Hello with a positive interval |
| `Connection.InitPublishedOnce` | src/connection.rs:254-279 | `Init` is published first and exactly once |
| `Connection.TicksOnly` | src/connection.rs:270-276 | `n` ticks send `n` heartbeats with the current sequence number and change nothing else |
| `Connection.HandshakeScenario` | src/connection.rs:247-282 | Hello with a positive interval, `n` ticks, then close: the client sends exactly one Identify then `n` heartbeats, adopts the announced interval, publishes only `Init`, and stops at the close, ignoring what follows |
| `Connection.ZeroHelloIsFatal` | src/connection.rs:190-194 | a first Hello announcing 0 ms ends the session with `ZeroInterval` before anything is sent, whatever follows, having published only `Init` |
| `Api.ClassifySuccess` | src/api.rs:51-52 | a call succeeds exactly on status 200 or 201 with a JSON content type and a body that fits in 1 MiB and decodes, and then returns the decoded body |
| `Api.ClassifyFailure` | src/api.rs:47-60 | a transport failure is a `ResponseError`; a 200/201 that does not succeed is a `PayloadError`; any other status is a `ResponseError` when error logging is off, and otherwise a `Panic` over 6000 bytes, a `Utf8Error` for non-UTF-8, else a `ResponseError`; `RetryError` never occurs |
| `Api.SingleAttempt` | src/api.rs:33-129 | `get`, `post` and `delete` each send exactly one request, with their verb, the target, the three fixed headers and (for `post`) the arguments, and report the classification of that one reply under the current logging level |
| `Api.VerbsAgree` | src/api.rs:51-128 | given the same reply, the three verbs report the same result |
| `Api.PathsIdentifyTheirIds` | src/api.rs:131-156 | guild, channel-list and channel paths are `guilds/<id>`, `guilds/<id>/channels` and `channels/<id>`; each is injective in the id and no two families collide |
| `Api.EndpointRequests` | src/api.rs:131-156 | `guild`, `channels`, `create_channel` and `delete_channel` each send one request with their verb to their path (the serialised details only when creating) and report its classification |
| `Api.CreateSimpleChannel` | src/api.rs:142-151 | creating a channel from `GuildChannelCreate::simple` posts once to the guild's channel list with exactly the nine fields, the given type code, name, topic and parent, and the defaults (no bitrate, no user limit, no slow mode, position 0, not NSFW) |
| `Sanitize.CollapseHyphens` | src/api.rs:169 | collapsing runs of `-` keeps the first and last character, adds no character, and leaves no `--` |
| `Sanitize.CollapseIsDropRepeated` | src/api.rs:169 | collapsing equals the reference that copies each character and drops exactly the `-` that directly follows a `-` |
| `Sanitize.CollapseKeeps` | src/api.rs:169 | collapsing keeps the non-hyphen characters in order, and changes nothing in a string without `--` |
| `Sanitize.ReplaceStages` | src/api.rs:167-168 | after the two replacements every character is allowed and none is `#`, the length and the kept characters are unchanged, and a string already in that shape is untouched |
| `Sanitize.ReplaceAt` | src/api.rs:167-168 | the two replacements act position by position: each character stays when it is allowed and not `#`, and becomes `-` otherwise |
| `Sanitize.TrimShape` | src/api.rs:170-171 | trimming one `-` at each end of a collapsed string leaves no `-` at either end and no `--`, and keeps the kept characters |
| `Sanitize.TrimSlice` | src/api.rs:170-171 | trimming removes exactly one leading `-` if there is one and at most one trailing `-`, and returns the contiguous slice in between |
| `Sanitize.LowerChar` | src/api.rs:172 | lowercasing a character turns it into `-` exactly when it was `-`, and turns an allowed non-`#` character into a clean one |
| `Sanitize.LowerAllFacts` | src/api.rs:172 | lowercasing maps each character to its lower case and keeps the kept characters in order |
| `Sanitize.SanitizeShape` | src/api.rs:157-173 | a sanitised name has no `--`, no `-` at either end, only allowed lower-case non-`#` characters, and its non-hyphen characters are the input's kept characters lowercased, in order |
| `Sanitize.SanitizeIsSlug` | src/api.rs:157-173 | the whole pipeline equals a one-pass reference: each kept character is emitted lowercased, preceded by one `-` exactly when some dropped character lies between it and an earlier kept character |
| `Sanitize.SanitizeIdempotent` | src/api.rs:157-173 | sanitising a sanitised name changes nothing |
| `Sanitize.SanitizeExamples` | src/api.rs:181-186 | the ASCII pairs of the unit test: `a`→`a`, `b b`→`b-b`, `-c`→`c`, `--d--`→`d`, `@#$a`→`a` |
| `SortChannels.Select` | examples/sort_channels.rs:21-32 | the filter keeps each top-level text channel whose topic starts with `terravaloper1` exactly as often as it occurs, and nothing else |
| `SortChannels.LessTrans` | examples/sort_channels.rs:34 | string order is transitive |
| `SortChannels.LessTotal` | examples/sort_channels.rs:34 | string order is total and asymmetric |
| `SortChannels.SortByNameDesc` | examples/sort_channels.rs:34 | sorting yields a permutation of its input with names in descending order |
| `SortChannels.OrderedChannels` | examples/sort_channels.rs:21-34 | the visited channels are exactly the selected ones, each as often as in the guild, names descending, no more than there are channels |
| `SortChannels.PlanSound` | examples/sort_channels.rs:37-50 | every patch targets the k-th visited channel, moves it to position total − k (within `(total − visited, total]`), and exists only because that differs from its position |
| `SortChannels.PlanComplete` | examples/sort_channels.rs:37-50 | every visited channel whose assigned position differs from its own gets its patch |
| `SortChannels.PlanDecreasing` | examples/sort_channels.rs:37-50 | patch positions are strictly decreasing |
| `SortChannels.AssignPositions` | examples/sort_channels.rs:37-50 | the counting-down loop computes the plan, never underflows its counter, and its patches are sound, complete and strictly decreasing |
| `SortChannels.PositionPlan` | examples/sort_channels.rs:20-50 | the whole script's patches are the plan over the selected channels sorted by name, counting down from the number of all channels, with the same guarantees |

## Left out

- Sockets, TLS, the HTTP client, timers and `tokio::select!` are left out: the network is a parameter and the interleaving of frames and ticks is a trace.
- The message broker (`actix_broker`) is left out: publishing is appending to the run's `published` list.
- `usize` is modelled as `u64`, which assumes a 64-bit target; on a 32-bit target an envelope whose `op` or `s` is above 2^32 - 1 would fail to decode, and that is not modelled.
- Logging output (`log::…`, `eprintln!`) is left out. Its only effect on the outcome, reading the error body inside `log::error!`, is modelled by the `errorLog` flag of `Api.Classify`.
- `Url::join` and `set_query` are left out: request targets are paths relative to the API base URL, and `DiscordAPI::create` and the gateway URL's query are not modelled. `Url::from_str` of the gateway URL is the `parseUrl` parameter of `Connection.CreateBot`: its failure is modelled, its parsing is not.
- Panics are modelled as errors that end the call or the session (`Api.ApiError.Panic`, `Connection.GatewayError.ZeroInterval`); unwinding is not modelled.
- The duplicate `DiscordAPI` at the top of `src/connection.rs` is left out; the one in `src/api.rs` is modelled.
- The failure of `connection.send` inside the loop is not modelled: sending always succeeds.
- Connect failure (`connect().await.unwrap()`) is not modelled; the loop starts after the socket is open.
- `Connection.Wake`: a Hello announcing 0 ms has already stored the zero period in `duration` when the timer constructor panics (`src/connection.rs:193-194`); the model keeps the previous period, since the bot is observed after that panic only by a caller that catches the unwind, and no code in the crate does. A failing frame's stored `s` is modelled.
- `serde_json` text parsing (lexing, escapes, key order, duplicate keys) and floating-point numbers are not modelled: a text frame carries its parsed JSON value or nothing.
- The derived decoders of `GuildCreate`, `GuildChannel` and `MessageObject` are parameters (`Connection.Decoders`, and the `decode` argument of the REST calls) rather than written out field by field.
- `GatewayIntents` is not part of this model: intents are a plain `u64`.
- `Sanitize.Allowed`: the character classes `\pN` and `\p{Emoji}` are modelled only on ASCII (digits, `#`, `*`); every non-ASCII character counts as disallowed, and `to_lowercase` is modelled on ASCII letters. So the emoji pair of the unit test is not stated.
- `SortChannels.SortByNameDesc` is stable by construction, but stability is not stated as a property.
- `patch_channel`, which the script calls, is not defined in `src/api.rs`, and the script calls `DiscordAPI::create` with three arguments where the crate defines two. The script is modelled as the list of patches it would request when every patch succeeds; the script stops at the first failing `patch_channel(...).await?` (`examples/sort_channels.rs:40-48`), so a failed run sends a prefix of that list.
- Environment reading, `dotenv` and the `main` programs (`src/main.rs`, `examples/remove_channels.rs`) are left out.
