/** The wire types of the platform: snowflake identifiers, the `u8`-coded channel and
    message kinds, and the channel/guild/message records the gateway and REST calls carry. */
module Events {
  import opened Wrappers
  import opened Json

  // ---------------------------------------------------------------------------
  // Decimal digits
  // ---------------------------------------------------------------------------

  predicate IsDigit(c: char) {
    '0' <= c <= '9'
  }

  predicate AllDigits(s: string) {
    forall i :: 0 <= i < |s| ==> IsDigit(s[i])
  }

  function DigitValue(c: char): (d: nat)
    requires IsDigit(c)
    ensures d < 10
  {
    c as int - '0' as int
  }

  function DigitChar(d: nat): (c: char)
    requires d < 10
    ensures IsDigit(c) && DigitValue(c) == d
  {
    ('0' as int + d) as char
  }

  /** The number a string of decimal digits denotes, most significant digit first. */
  function DigitsValue(s: string): nat
    requires AllDigits(s)
    decreases |s|
  {
    if |s| == 0 then 0 else 10 * DigitsValue(s[..|s| - 1]) + DigitValue(s[|s| - 1])
  }

  /** `n` written in decimal with no sign and no leading zero: Rust's `Display` for `u64`. */
  function Decimal(n: nat): (s: string)
    ensures 1 <= |s| && AllDigits(s)
    ensures |s| == 1 <==> n < 10
    ensures s[0] == '0' <==> n == 0
    decreases n
  {
    if n < 10 then [DigitChar(n)] else Decimal(n / 10) + [DigitChar(n % 10)]
  }

  /** `k` zero digits. */
  function Zeros(k: nat): (s: string)
    ensures |s| == k && AllDigits(s)
    ensures forall i :: 0 <= i < k ==> s[i] == '0'
  {
    if k == 0 then [] else Zeros(k - 1) + ['0']
  }

  /** Rust's `str::parse::<u64>`: an optional `+`, then one or more ASCII digits whose
      value fits in 64 bits. No `-`, no whitespace, no empty digit string. */
  function ParseU64(s: string): Option<U64> {
    ParseDigits(UnsignedDigits(s))
  }

  /** The digit part of a `u64` literal: everything after one optional leading `+`. */
  function UnsignedDigits(s: string): string {
    if |s| > 0 && s[0] == '+' then s[1..] else s
  }

  function ParseDigits(digits: string): Option<U64> {
    if |digits| == 0 || !AllDigits(digits) then None
    else if DigitsValue(digits) < U64_BOUND then Some(DigitsValue(digits))
    else None
  }

  lemma {:induction false} DecimalValue(n: nat)
    ensures DigitsValue(Decimal(n)) == n
    decreases n
  {
    if n >= 10 {
      var s := Decimal(n);
      assert s[..|s| - 1] == Decimal(n / 10);
      DecimalValue(n / 10);
    }
  }

  /** The leading digit alone never exceeds the whole value. */
  lemma {:induction false} LeadingDigitBound(s: string)
    requires 1 <= |s| && AllDigits(s)
    ensures DigitsValue(s) >= DigitValue(s[0])
    decreases |s|
  {
    if |s| > 1 {
      var p := s[..|s| - 1];
      assert p[0] == s[0];
      LeadingDigitBound(p);
    }
  }

  /** A digit string without a superfluous leading zero is the decimal of its value. */
  lemma {:induction false} DecimalUnique(s: string)
    requires 1 <= |s| && AllDigits(s)
    requires |s| > 1 ==> s[0] != '0'
    ensures Decimal(DigitsValue(s)) == s
    decreases |s|
  {
    if |s| == 1 {
      assert s == [DigitChar(DigitValue(s[0]))];
    } else {
      var p := s[..|s| - 1];
      assert p[0] == s[0];
      LeadingDigitBound(p);
      DecimalUnique(p);
      var v := DigitsValue(s);
      assert v / 10 == DigitsValue(p) && v % 10 == DigitValue(s[|s| - 1]);
      assert s == p + [s[|s| - 1]];
    }
  }

  /** Leading zeros do not change the value of a digit string. */
  lemma {:induction false} ZerosValue(k: nat, t: string)
    requires AllDigits(t)
    ensures AllDigits(Zeros(k) + t) && DigitsValue(Zeros(k) + t) == DigitsValue(t)
    decreases |t| + k
  {
    var z := Zeros(k) + t;
    assert AllDigits(z) by {
      forall i | 0 <= i < |z| ensures IsDigit(z[i]) {
        if i < k { assert z[i] == Zeros(k)[i]; } else { assert z[i] == t[i - k]; }
      }
    }
    if |t| == 0 {
      assert z == Zeros(k);
      if k > 0 {
        assert z[..|z| - 1] == Zeros(k - 1) + t;
        ZerosValue(k - 1, t);
        assert DigitsValue(z) == 10 * DigitsValue(Zeros(k - 1) + t) + DigitValue('0');
      }
    } else {
      var p := t[..|t| - 1];
      assert z[..|z| - 1] == Zeros(k) + p;
      assert z[|z| - 1] == t[|t| - 1];
      ZerosValue(k, p);
      assert DigitsValue(z) == 10 * DigitsValue(Zeros(k) + p) + DigitValue(t[|t| - 1]);
    }
  }

  lemma {:induction false} ZerosCons(k: nat)
    ensures Zeros(k + 1) == Zeros(1) + Zeros(k)
    decreases k
  {
    if k > 0 {
      ZerosCons(k - 1);
      assert Zeros(k + 1) == (Zeros(1) + Zeros(k - 1)) + ['0'];
      assert (Zeros(1) + Zeros(k - 1)) + ['0'] == Zeros(1) + (Zeros(k - 1) + ['0']);
    }
  }

  /** A leading zero does not change the value. */
  lemma LeadingZeroValue(d: string)
    requires 1 < |d| && d[0] == '0' && AllDigits(d)
    ensures DigitsValue(d) == DigitsValue(d[1..])
  {
    assert d == Zeros(1) + d[1..] by {
      assert Zeros(1) == ['0'];
    }
    ZerosValue(1, d[1..]);
  }

  /** One more leading zero is one more zero in the split. */
  lemma PrependZero(d: string, k: nat)
    requires 1 < |d| && d[0] == '0' && AllDigits(d)
    requires d[1..] == Zeros(k) + Decimal(DigitsValue(d[1..]))
    ensures d == Zeros(k + 1) + Decimal(DigitsValue(d))
  {
    LeadingZeroValue(d);
    var dec := Decimal(DigitsValue(d));
    ZerosCons(k);
    assert Zeros(1) == ['0'];
    calc {
      Zeros(k + 1) + dec;
      (Zeros(1) + Zeros(k)) + dec;
      Zeros(1) + (Zeros(k) + dec);
      ['0'] + d[1..];
      d;
    }
  }

  /** Without a superfluous leading zero the split has no zeros. */
  lemma NoZeroPrefix(d: string)
    requires 1 <= |d| && AllDigits(d) && (|d| > 1 ==> d[0] != '0')
    ensures d == Zeros(0) + Decimal(DigitsValue(d))
  {
    DecimalUnique(d);
    assert Zeros(0) + d == d;
  }

  /** A digit string is some run of zeros followed by the canonical decimal of its value. */
  lemma {:induction false} SplitLeadingZeros(d: string) returns (k: nat)
    requires 1 <= |d| && AllDigits(d)
    ensures d == Zeros(k) + Decimal(DigitsValue(d))
    decreases |d|
  {
    if |d| > 1 && d[0] == '0' {
      var k' := SplitLeadingZeros(d[1..]);
      PrependZero(d, k');
      k := k' + 1;
    } else {
      NoZeroPrefix(d);
      k := 0;
    }
  }

  function SignPrefix(plus: bool): string {
    if plus then "+" else ""
  }

  /** Every value is accepted in every spelling Rust accepts: with or without `+`, with
      any number of leading zeros. In particular `ParseU64(Decimal(n)) == Some(n)`. */
  lemma ParseAcceptsPadded(plus: bool, k: nat, n: U64)
    ensures ParseU64(SignPrefix(plus) + Zeros(k) + Decimal(n)) == Some(n)
  {
    var digits := Zeros(k) + Decimal(n);
    var s := SignPrefix(plus) + digits;
    assert SignPrefix(plus) + Zeros(k) + Decimal(n) == s;
    assert UnsignedDigits(s) == digits by {
      if plus {
        assert s[0] == '+' && s[1..] == digits;
      } else {
        assert s == digits;
        assert |digits| > 0 && IsDigit(digits[0]);
      }
    }
    DecimalValue(n);
    ZerosValue(k, Decimal(n));
    assert ParseDigits(digits) == Some(n);
  }

  /** And nothing else is accepted: a string that parses is an optional `+`, zeros, and
      the canonical decimal of the parsed value. Every other string fails. */
  lemma ParseOnlyPadded(s: string)
    requires ParseU64(s).Some?
    ensures exists k: nat :: s == SignPrefix(|s| > 0 && s[0] == '+') + Zeros(k) + Decimal(ParseU64(s).value)
  {
    var plus := |s| > 0 && s[0] == '+';
    var digits := UnsignedDigits(s);
    assert ParseDigits(digits).Some?;
    var k := SplitLeadingZeros(digits);
    assert ParseU64(s).value == DigitsValue(digits);
    var v := ParseU64(s).value;
    assert SignPrefix(plus) + Zeros(k) + Decimal(v) == SignPrefix(plus) + (Zeros(k) + Decimal(v));
    if plus {
      assert s == "+" + digits;
    } else {
      assert s == digits;
    }
    assert s == SignPrefix(plus) + Zeros(k) + Decimal(v);
  }

  // ---------------------------------------------------------------------------
  // SnowflakeID
  // ---------------------------------------------------------------------------

  /** A platform identifier: a `u64` that travels on the wire as its decimal string. */
  datatype Snowflake = Snowflake(id: U64)

  /** `impl ToString for SnowflakeID`. */
  function SnowflakeToString(f: Snowflake): string {
    Decimal(f.id)
  }

  /** `impl Serialize for SnowflakeID`: a JSON string. */
  function SerializeSnowflake(f: Snowflake): Value {
    Str(Decimal(f.id))
  }

  /** `impl Deserialize for SnowflakeID`: the value must be a JSON string that parses as a
      `u64`; a number or any other string is an error. */
  function DeserializeSnowflake(v: Value): Option<Snowflake> {
    if v.Str? && ParseU64(v.s).Some? then Some(Snowflake(ParseU64(v.s).value)) else None
  }

  /** `impl From<&str> for SnowflakeID`: the lenient parse, 0 on failure. */
  function SnowflakeFromStr(s: string): Snowflake {
    Snowflake(ParseU64(s).GetOr(0))
  }

  lemma SnowflakeRoundTrip(f: Snowflake)
    ensures DeserializeSnowflake(SerializeSnowflake(f)) == Some(f)
    ensures SnowflakeFromStr(SnowflakeToString(f)) == f
  {
    ParseAcceptsPadded(false, 0, f.id);
    assert SignPrefix(false) + Zeros(0) + Decimal(f.id) == Decimal(f.id);
  }

  /** Deserialisation succeeds exactly on the strings `ParseU64` accepts, yielding the
      parsed value; `to_string` and the serialised form are the same text; and the lenient
      `From<&str>` agrees with deserialisation wherever the latter succeeds, else yields 0. */
  lemma SnowflakeEncodingsAgree(f: Snowflake, s: string)
    ensures SerializeSnowflake(f) == Str(SnowflakeToString(f))
    ensures DeserializeSnowflake(Str(s)).Some? <==> ParseU64(s).Some?
    ensures SnowflakeFromStr(s) ==
      (if DeserializeSnowflake(Str(s)).Some? then DeserializeSnowflake(Str(s)).value else Snowflake(0))
    ensures forall v: Value :: !v.Str? ==> DeserializeSnowflake(v).None?
  {
  }

  // ---------------------------------------------------------------------------
  // ChannelType and MessageObjectType (serde_repr u8 codes)
  // ---------------------------------------------------------------------------

  datatype ChannelType =
    | GuildText | DM | GuildVoice | GroupDm | GuildCategory | GuildNews | GuildStore
    | GuildNewsThread | GuildPublicThread | GuildPrivateThread | GuildStageVoice

  function ChannelTypeCode(t: ChannelType): (c: nat)
    ensures c < 0x100
  {
    match t
    case GuildText => 0
    case DM => 1
    case GuildVoice => 2
    case GroupDm => 3
    case GuildCategory => 4
    case GuildNews => 5
    case GuildStore => 6
    case GuildNewsThread => 10
    case GuildPublicThread => 11
    case GuildPrivateThread => 12
    case GuildStageVoice => 13
  }

  /** Decoding a `u8` code; codes 7, 8, 9 and 14 and up name no channel type. */
  function ChannelTypeFromCode(c: int): Option<ChannelType> {
    if c == 0 then Some(GuildText)
    else if c == 1 then Some(DM)
    else if c == 2 then Some(GuildVoice)
    else if c == 3 then Some(GroupDm)
    else if c == 4 then Some(GuildCategory)
    else if c == 5 then Some(GuildNews)
    else if c == 6 then Some(GuildStore)
    else if c == 10 then Some(GuildNewsThread)
    else if c == 11 then Some(GuildPublicThread)
    else if c == 12 then Some(GuildPrivateThread)
    else if c == 13 then Some(GuildStageVoice)
    else None
  }

  /** Code then decode is the identity, decode then code gives the code back, and exactly
      0-6 and 10-13 decode. */
  lemma ChannelTypeCodes(t: ChannelType, c: int)
    ensures ChannelTypeFromCode(ChannelTypeCode(t)) == Some(t)
    ensures ChannelTypeFromCode(c).Some? <==> (0 <= c <= 6 || 10 <= c <= 13)
    ensures ChannelTypeFromCode(c).Some? ==> ChannelTypeCode(ChannelTypeFromCode(c).value) == c
  {
  }

  datatype MessageObjectType =
    | Default | RecipientAdd | RecipientRemove | Call | ChannelNameChange | ChannelIconChange
    | ChannelPinnedMessage | GuildMemberJoin | UserPremiumGuildSubscription
    | UserPremiumGuildSubscriptionTier1 | UserPremiumGuildSubscriptionTier2
    | UserPremiumGuildSubscriptionTier3 | ChannelFollowAdd | GuildDiscoveryDisqualified
    | GuildDiscoveryRequalified | GuildDiscoveryGracePeriodInitialWarning
    | GuildDiscoveryGracePeriodFinalWarning | ThreadCreated | Reply | ChatInputCommand
    | ThreadStarterMessage | GuildInviteReminder | ContextMenuCommand

  function MessageObjectTypeCode(t: MessageObjectType): (c: nat)
    ensures c < 0x100
  {
    match t
    case Default => 0
    case RecipientAdd => 1
    case RecipientRemove => 2
    case Call => 3
    case ChannelNameChange => 4
    case ChannelIconChange => 5
    case ChannelPinnedMessage => 6
    case GuildMemberJoin => 7
    case UserPremiumGuildSubscription => 8
    case UserPremiumGuildSubscriptionTier1 => 9
    case UserPremiumGuildSubscriptionTier2 => 10
    case UserPremiumGuildSubscriptionTier3 => 11
    case ChannelFollowAdd => 12
    case GuildDiscoveryDisqualified => 14
    case GuildDiscoveryRequalified => 15
    case GuildDiscoveryGracePeriodInitialWarning => 16
    case GuildDiscoveryGracePeriodFinalWarning => 17
    case ThreadCreated => 18
    case Reply => 19
    case ChatInputCommand => 20
    case ThreadStarterMessage => 21
    case GuildInviteReminder => 22
    case ContextMenuCommand => 23
  }

  /** Decoding a `u8` code; 13 and 24 and up name no message type. */
  function MessageObjectTypeFromCode(c: int): Option<MessageObjectType> {
    if c == 0 then Some(Default)
    else if c == 1 then Some(RecipientAdd)
    else if c == 2 then Some(RecipientRemove)
    else if c == 3 then Some(Call)
    else if c == 4 then Some(ChannelNameChange)
    else if c == 5 then Some(ChannelIconChange)
    else if c == 6 then Some(ChannelPinnedMessage)
    else if c == 7 then Some(GuildMemberJoin)
    else if c == 8 then Some(UserPremiumGuildSubscription)
    else if c == 9 then Some(UserPremiumGuildSubscriptionTier1)
    else if c == 10 then Some(UserPremiumGuildSubscriptionTier2)
    else if c == 11 then Some(UserPremiumGuildSubscriptionTier3)
    else if c == 12 then Some(ChannelFollowAdd)
    else if c == 14 then Some(GuildDiscoveryDisqualified)
    else if c == 15 then Some(GuildDiscoveryRequalified)
    else if c == 16 then Some(GuildDiscoveryGracePeriodInitialWarning)
    else if c == 17 then Some(GuildDiscoveryGracePeriodFinalWarning)
    else if c == 18 then Some(ThreadCreated)
    else if c == 19 then Some(Reply)
    else if c == 20 then Some(ChatInputCommand)
    else if c == 21 then Some(ThreadStarterMessage)
    else if c == 22 then Some(GuildInviteReminder)
    else if c == 23 then Some(ContextMenuCommand)
    else None
  }

  lemma MessageObjectTypeCodes(t: MessageObjectType, c: int)
    ensures MessageObjectTypeFromCode(MessageObjectTypeCode(t)) == Some(t)
    ensures MessageObjectTypeFromCode(c).Some? <==> (0 <= c <= 12 || 14 <= c <= 23)
    ensures MessageObjectTypeFromCode(c).Some? ==>
      MessageObjectTypeCode(MessageObjectTypeFromCode(c).value) == c
  {
  }

  // ---------------------------------------------------------------------------
  // Records
  // ---------------------------------------------------------------------------

  datatype Hash = Hash(hash: string)

  datatype GuildHashes = GuildHashes(channels: Hash, metadata: Hash, roles: Hash, version: U64)

  datatype GuildChannel = GuildChannel(
    id: Snowflake,
    uType: ChannelType,
    name: string,
    position: U64,
    topic: Option<string>,
    parentId: Option<Snowflake>,
    lastMessageId: Option<Snowflake>,
    guildId: Option<Snowflake>,
    guildHashes: Option<GuildHashes>)

  datatype Guild = Guild(id: Snowflake, name: Option<string>, ownerId: Snowflake)

  datatype GuildCreate = GuildCreate(
    id: Snowflake, name: Option<string>, ownerId: Snowflake, channels: seq<GuildChannel>)

  datatype UserObject = UserObject(
    id: Snowflake,
    username: string,
    discriminator: string,
    email: Option<string>,
    bot: Option<bool>,
    system: Option<bool>,
    flags: Option<U64>,
    publicFlags: Option<U64>)

  datatype MessageReference = MessageReference(
    messageId: Option<Snowflake>,
    channelId: Option<Snowflake>,
    guildId: Option<Snowflake>,
    failIfNotExists: Option<bool>)

  datatype MessageObject = MessageObject(
    id: Snowflake,
    uType: MessageObjectType,
    content: string,
    tts: bool,
    referencedMessage: Option<MessageObject>,
    nonce: Option<Snowflake>,
    channelId: Option<Snowflake>,
    author: UserObject,
    mentionEveryone: bool,
    mentions: seq<UserObject>,
    mentionRoles: seq<Snowflake>,
    messageReference: Option<MessageReference>)

  // ---------------------------------------------------------------------------
  // Published events
  // ---------------------------------------------------------------------------

  /** Connection-level events: the one-off start signal and a guild announcement. */
  datatype Event = Init | GuildCreated(guild: GuildCreate)

  datatype MessageEvent =
    | MessageCreate(message: MessageObject)
    | MessageUpdate(message: MessageObject)
    | MessageDelete(message: MessageObject)

  datatype ChannelEvent =
    | ChannelCreate(channel: GuildChannel)
    | ChannelUpdate(channel: GuildChannel)
    | ChannelDelete(channel: GuildChannel)

  /** The body of a channel-creation request. */
  datatype GuildChannelCreate = GuildChannelCreate(
    uType: ChannelType,
    name: string,
    topic: Option<string>,
    bitrate: Option<U64>,
    userLimit: Option<U64>,
    rateLimitPerUser: U64,
    position: U64,
    parentId: Option<Snowflake>,
    nsfw: bool)

  /** `GuildChannelCreate::simple`: the caller's type, name, topic and parent, every other
      field at its default. */
  function SimpleChannel(
    uType: ChannelType, name: string, topic: Option<string>, parentId: Option<Snowflake>
  ): GuildChannelCreate {
    GuildChannelCreate(uType, name, topic, None, None, 0, 0, parentId, false)
  }

  function OptSnowflakeToJson(o: Option<Snowflake>): Value {
    match o
    case None => Null
    case Some(f) => SerializeSnowflake(f)
  }

  /** The derived `Serialize` of `GuildChannelCreate`: `u_type` renamed to `type` and sent
      as its `u8` code, every `None` as `null`. */
  function GuildChannelCreateToJson(c: GuildChannelCreate): Value {
    Obj(map[
      "type" := Num(ChannelTypeCode(c.uType)),
      "name" := Str(c.name),
      "topic" := OptStringToJson(c.topic),
      "bitrate" := OptU64ToJson(c.bitrate),
      "user_limit" := OptU64ToJson(c.userLimit),
      "rate_limit_per_user" := Num(c.rateLimitPerUser),
      "position" := Num(c.position),
      "parent_id" := OptSnowflakeToJson(c.parentId),
      "nsfw" := Bool(c.nsfw)])
  }

  /** The body `GuildChannelCreate::simple` serialises to: exactly the nine fields, the
      given type code, name, topic and parent, and the defaults. */
  lemma SimpleChannelBody(uType: ChannelType, name: string, topic: Option<string>, parent: Option<Snowflake>)
    ensures var j := GuildChannelCreateToJson(SimpleChannel(uType, name, topic, parent));
      && j.Obj?
      && j.fields.Keys == {"type", "name", "topic", "bitrate", "user_limit", "rate_limit_per_user",
                           "position", "parent_id", "nsfw"}
      && j.fields["type"] == Num(ChannelTypeCode(uType)) && j.fields["name"] == Str(name)
      && OptStringField(Some(j.fields["topic"])) == Some(topic)
      && j.fields["bitrate"] == Null && j.fields["user_limit"] == Null
      && j.fields["rate_limit_per_user"] == Num(0) && j.fields["position"] == Num(0)
      && j.fields["nsfw"] == Bool(false)
      && (parent.None? ==> j.fields["parent_id"] == Null)
      && (parent.Some? ==> DeserializeSnowflake(j.fields["parent_id"]) == parent)
  {
    var c := SimpleChannel(uType, name, topic, parent);
    ChannelCreateKeys(c);
    var m := GuildChannelCreateToJson(c).fields;
    assert m["topic"] == OptStringToJson(topic);
    assert m["parent_id"] == OptSnowflakeToJson(parent);
    OptSnowflakeRoundTrip(parent);
  }

  /** The serialised channel-creation body has exactly the nine fields of the record. */
  lemma ChannelCreateKeys(c: GuildChannelCreate)
    ensures GuildChannelCreateToJson(c).fields.Keys ==
      {"type", "name", "topic", "bitrate", "user_limit", "rate_limit_per_user", "position", "parent_id", "nsfw"}
  {
  }

  /** An optional snowflake travels as `null` or as its string, and reads back. */
  lemma OptSnowflakeRoundTrip(o: Option<Snowflake>)
    ensures o.None? ==> OptSnowflakeToJson(o) == Null
    ensures o.Some? ==> DeserializeSnowflake(OptSnowflakeToJson(o)) == o
  {
    if o.Some? {
      SnowflakeRoundTrip(o.value);
    }
  }
}
