/** server/tools/: the handlers, from raw input to a success or error envelope. */
module Tools {
  import opened Wrappers
  import Text
  import opened Guards
  import opened Sequences
  import opened Json
  import Calendar
  import opened Discord
  import opened Normalize
  import opened Client
  import opened Markdown
  import Schema

  // ---------------------------------------------------------------- envelopes

  /** The envelope of lib/errors.ts without its request id; `pagination` is set by the archived listing only. */
  datatype Envelope<+T> =
    | Success(data: T, pagination: Option<Option<string>>)
    | Failure(code: ErrorCode, message: string, retryable: bool, details: Details)

  /** `failureFromError` with its default fallback code. */
  function FailureFromError<T>(error: Thrown): Envelope<T> {
    match error
    case Api(code, message, retryable, details) => Failure(code, message, retryable, details)
    case Invalid(schema) => Failure(InvalidInput, schema, false, Issues)
    case Plain(message) => Failure(ToolExecutionFailed, message, false, NoDetails)
  }

  /** The `try` around a handler's body. */
  function Enclose<T>(outcome: Result<T, Thrown>): Envelope<T> {
    match outcome
    case Ok(data) => Success(data, None)
    case Err(error) => FailureFromError(error)
  }

  // ---------------------------------------------------------------- inputs

  /** A strict object: no key outside the schema. */
  predicate StrictObject(raw: Json, keys: set<string>) {
    raw.Object? && raw.fields.Keys <= keys
  }

  /** `z.string().min(1)` */
  predicate NonEmptyString(value: Option<Json>) {
    value.Some? && value.value.String? && value.value.s != ""
  }

  /** `z.string().min(1).optional()` */
  predicate OptionalString(value: Option<Json>) {
    value.None? || NonEmptyString(value)
  }

  /** `z.number().int().min(1).max(high)` with a default. */
  predicate OptionalLimit(value: Option<Json>, high: int) {
    value.None? || (value.value.Number? && Schema.IsWhole(value.value.value) && 1.0 <= value.value.value <= high as real)
  }

  function LimitOr(value: Option<Json>, default: int): real {
    AsNumber(value, default as real)
  }

  datatype ArchivedInput = ArchivedInput(channelId: string, scope: Scope, before: Option<string>, limit: real)

  function ParseArchivedInput(raw: Json): Result<ArchivedInput, Thrown> {
    if
      && StrictObject(raw, {"channel_id", "archive_scope", "before", "limit"})
      && NonEmptyString(Field(raw, "channel_id"))
      && Schema.ParseScope(AsString(Field(raw, "archive_scope"))).Ok?
      && OptionalString(Field(raw, "before"))
      && OptionalLimit(Field(raw, "limit"), 100)
    then
      Ok(ArchivedInput(
           AsString(Field(raw, "channel_id")),
           Schema.ParseScope(AsString(Field(raw, "archive_scope"))).value,
           StringOrNull(Field(raw, "before")),
           LimitOr(Field(raw, "limit"), 50)))
    else Err(Invalid("ListArchivedThreadsInput"))
  }

  datatype ActiveInput = ActiveInput(guildId: string, parent: Option<string>)

  function ParseActiveInput(raw: Json): Result<ActiveInput, Thrown> {
    if
      && StrictObject(raw, {"guild_id", "parent_channel_id"})
      && NonEmptyString(Field(raw, "guild_id"))
      && OptionalString(Field(raw, "parent_channel_id"))
    then Ok(ActiveInput(AsString(Field(raw, "guild_id")), StringOrNull(Field(raw, "parent_channel_id"))))
    else Err(Invalid("ListActiveThreadsInput"))
  }

  datatype ChannelsInput = ChannelsInput(guildId: string, includeTypes: seq<ChannelType>)

  function ParseChannelType(item: Json): Option<ChannelType> {
    match item
    case String(s) =>
      if s == "GUILD_TEXT" then Some(GuildText)
      else if s == "GUILD_FORUM" then Some(GuildForum)
      else if s == "GUILD_ANNOUNCEMENT" then Some(GuildAnnouncement)
      else if s == "GUILD_MEDIA" then Some(GuildMedia)
      else if s == "OTHER" then Some(OtherChannel)
      else None
    case _ => None
  }

  predicate AllTypes(items: seq<Json>) {
    forall i | 0 <= i < |items| :: ParseChannelType(items[i]).Some?
  }

  function TypesOf(items: seq<Json>): seq<ChannelType>
    requires AllTypes(items)
  {
    seq(|items|, i requires 0 <= i < |items| => ParseChannelType(items[i]).value)
  }

  predicate NoRepeats(types: seq<ChannelType>) {
    forall i, j | 0 <= i < j < |types| :: types[i] != types[j]
  }

  function ParseIncludeTypes(value: Option<Json>): Option<seq<ChannelType>> {
    if value.None? then Some([GuildText, GuildForum, GuildAnnouncement, GuildMedia])
    else if value.value.Array? && AllTypes(value.value.items) && NoRepeats(TypesOf(value.value.items))
    then Some(TypesOf(value.value.items))
    else None
  }

  function ParseChannelsInput(raw: Json): Result<ChannelsInput, Thrown> {
    if
      && StrictObject(raw, {"guild_id", "include_types"})
      && NonEmptyString(Field(raw, "guild_id"))
      && ParseIncludeTypes(Field(raw, "include_types")).Some?
    then Ok(ChannelsInput(AsString(Field(raw, "guild_id")), ParseIncludeTypes(Field(raw, "include_types")).value))
    else Err(Invalid("ListGuildChannelsInput"))
  }

  datatype MessagesInput = MessagesInput(threadId: string, query: MessagesQuery)

  predicate OptionalBool(value: Option<Json>) {
    value.None? || value.value.Bool?
  }

  function ParseMessagesInput(raw: Json): Result<MessagesInput, Thrown> {
    if
      && StrictObject(raw, {"thread_id", "before", "after", "around", "limit", "include_system_messages"})
      && NonEmptyString(Field(raw, "thread_id"))
      && OptionalString(Field(raw, "before"))
      && OptionalString(Field(raw, "after"))
      && OptionalString(Field(raw, "around"))
      && OptionalLimit(Field(raw, "limit"), 200)
      && OptionalBool(Field(raw, "include_system_messages"))
    then
      Ok(MessagesInput(
           AsString(Field(raw, "thread_id")),
           MessagesQuery(
             StringOrNull(Field(raw, "before")),
             StringOrNull(Field(raw, "after")),
             StringOrNull(Field(raw, "around")),
             Some(LimitOr(Field(raw, "limit"), 50)),
             AsBoolean(Field(raw, "include_system_messages")))))
    else Err(Invalid("GetThreadMessagesInput"))
  }

  datatype ExportInput = ExportInput(threadId: string, asMarkdown: bool, limit: real)

  predicate OptionalFormat(value: Option<Json>) {
    value.None? || value.value == String("json") || value.value == String("markdown")
  }

  function ParseExportInput(raw: Json): Result<ExportInput, Thrown> {
    if
      && StrictObject(raw, {"thread_id", "format", "message_limit"})
      && NonEmptyString(Field(raw, "thread_id"))
      && OptionalFormat(Field(raw, "format"))
      && OptionalLimit(Field(raw, "message_limit"), 500)
    then
      Ok(ExportInput(
           AsString(Field(raw, "thread_id")),
           Field(raw, "format") != Some(String("json")),
           LimitOr(Field(raw, "message_limit"), 200)))
    else Err(Invalid("ExportThreadInput"))
  }

  // ---------------------------------------------------------------- handlers

  /** `clampThreadLimit` and `clampMessageLimit` */
  function ClampLimit(limit: real, ceiling: int): real {
    ClampInt(limit, 1, ceiling) as real
  }

  function KeepTypes(channels: seq<Channel>, types: seq<ChannelType>): seq<Channel> {
    if channels == [] then []
    else
      KeepTypes(channels[..|channels| - 1], types)
      + if channels[|channels| - 1].kind in types then [channels[|channels| - 1]] else []
  }

  function ChannelsBody(env: Env, send: Transport, raw: Json): Result<GuildChannels, Thrown> {
    var input :- ParseChannelsInput(raw);
    var _ :- AssertGuildAllowed(env, input.guildId);
    var result :- ListChannels(send, input.guildId);
    Schema.ParseGuildChannels(GuildChannels(input.guildId, KeepTypes(result.channels, input.includeTypes), false))
  }

  function ListGuildChannelsTool(env: Env, send: Transport, raw: Json): Envelope<GuildChannels> {
    Enclose(ChannelsBody(env, send, raw))
  }

  function ActiveBody(send: Transport, parse: DateParser, raw: Json): Result<ActiveThreads, Thrown> {
    var input :- ParseActiveInput(raw);
    var result :- ListActive(send, parse, input.guildId, input.parent);
    Schema.ParseActiveThreads(ActiveThreads(input.guildId, result.threads, result.members, false))
  }

  function ListActiveThreadsTool(send: Transport, parse: DateParser, raw: Json): Envelope<ActiveThreads> {
    Enclose(ActiveBody(send, parse, raw))
  }

  /** The client call of the archived handler. */
  function ArchivedCall(env: Env, send: Transport, parse: DateParser, input: ArchivedInput): Result<ArchivedThreads, Thrown> {
    ListArchived(
      env, send, parse, input.channelId, Schema.ScopeText(input.scope), input.before, ClampLimit(input.limit, env.maxThreads))
  }

  function ArchivedBody(env: Env, send: Transport, parse: DateParser, raw: Json): Result<ArchivedThreads, Thrown> {
    var input :- ParseArchivedInput(raw);
    var result :- ArchivedCall(env, send, parse, input);
    Schema.ParseArchivedThreads(
      ArchivedThreads(
        input.channelId, input.scope, result.threads, result.members, result.hasMore, result.nextCursor, false))
  }

  function ListArchivedThreadsTool(env: Env, send: Transport, parse: DateParser, raw: Json): Envelope<ArchivedThreads> {
    match ArchivedBody(env, send, parse, raw)
    case Ok(payload) => Success(payload, Some(payload.nextCursor))
    case Err(error) => FailureFromError(error)
  }

  function ClampedQuery(env: Env, input: MessagesInput): MessagesQuery {
    input.query.(limit := Some(ClampLimit(input.query.limit.GetOr(50.0), env.maxMessages)))
  }

  function MessagesBody(env: Env, send: Transport, parse: DateParser, raw: Json): Result<ThreadMessages, Thrown> {
    var input :- ParseMessagesInput(raw);
    var _ :- GetThread(env, send, parse, input.threadId);
    var result :- GetMessages(env, send, parse, input.threadId, ClampedQuery(env, input));
    Schema.ParseThreadMessages(result)
  }

  function GetThreadMessagesTool(env: Env, send: Transport, parse: DateParser, raw: Json): Envelope<ThreadMessages> {
    Enclose(MessagesBody(env, send, parse, raw))
  }

  /** Export content: the markdown text, or the thread and messages a JSON text is made of. */
  datatype Content = MarkdownText(text: string) | JsonText(thread: Thread, messages: seq<Message>)

  datatype ExportedThread = ExportedThread(threadId: string, content: Content)

  function ExportQuery(env: Env, limit: real): MessagesQuery {
    MessagesQuery(None, None, None, Some(ClampLimit(limit, env.maxMessages)), true)
  }

  function ExportBody(env: Env, send: Transport, parse: DateParser, raw: Json): Result<ExportedThread, Thrown> {
    var input :- ParseExportInput(raw);
    var thread :- GetThread(env, send, parse, input.threadId);
    var result :- GetMessages(env, send, parse, input.threadId, ExportQuery(env, input.limit));
    Ok(ExportedThread(
         input.threadId,
         if input.asMarkdown then MarkdownText(Export(thread, result.messages)) else JsonText(thread, result.messages)))
  }

  function ExportThreadTool(env: Env, send: Transport, parse: DateParser, raw: Json): Envelope<ExportedThread> {
    Enclose(ExportBody(env, send, parse, raw))
  }

  // ---------------------------------------------------------------- the second validation never fails

  lemma ClientResultIsValid(
    env: Env, send: Transport, parse: DateParser,
    channelId: string, scope: Scope, before: Option<string>, limit: real
  )
    ensures var r := ListArchived(env, send, parse, channelId, Schema.ScopeText(scope), before, limit);
      r.Ok? ==>
        && Schema.ThreadsSchema(r.value.threads, r.value.members)
        && r.value.channelId == channelId && r.value.scope == scope && !r.value.partial
        && r.value.nextCursor == NextCursor(r.value.threads)
  {
    Schema.ScopeRoundTrip(scope);
    hide Schema.ScopeText;
    hide Schema.ParseScope;
    hide Schema.ThreadsSchema;
    hide RequestJson;
    hide ArchivedRequest;
    hide NormalizeThreadList;
    hide CheckGuilds;
  }

  /**
   * Once its input is accepted, the archived handler answers exactly with what the client returned,
   * unchanged, or with the error the client threw: its own validation of the rebuilt object never fails.
   */
  lemma ArchivedToolPassesOn(env: Env, send: Transport, parse: DateParser, raw: Json)
    requires ParseArchivedInput(raw).Ok?
    ensures ListArchivedThreadsTool(env, send, parse, raw)
         == match ArchivedCall(env, send, parse, ParseArchivedInput(raw).value)
            case Ok(r) => Success(r, Some(r.nextCursor))
            case Err(error) => FailureFromError(error)
  {
    hide ParseArchivedInput;
    hide ListArchived;
    hide Schema.ThreadsSchema;
    hide Schema.ScopeText;
    var input := ParseArchivedInput(raw).value;
    ClientResultIsValid(
      env, send, parse, input.channelId, input.scope, input.before, ClampLimit(input.limit, env.maxThreads));
  }

  /** The message of a failed HTTP call. */
  function HttpMessage(status: int): string {
    if status == 403 then "Discord denied access to the requested resource."
    else if status == 404 then "Discord did not find the requested resource."
    else if status == 429 then "Discord rate-limited the request."
    else "Discord API returned HTTP " + Text.DecimalInt(status) + "."
  }

  /**
   * Every response with a status outside 200 to 299 becomes an error envelope with the code and message of its
   * status, the status and the body (null when it is not JSON), and of a 429 also the time to wait; it is marked
   * for a retry exactly when the server limits the rate or fails itself.
   */
  lemma ArchivedToolHttpFailure(env: Env, send: Transport, parse: DateParser, raw: Json)
    requires ParseArchivedInput(raw).Ok?
    requires var input := ParseArchivedInput(raw).value;
      var reply := send(ArchivedRequest(env, input.channelId, input.scope, input.before, ClampLimit(input.limit, env.maxThreads)));
      reply.Response? && !(200 <= reply.status <= 299)
    ensures var input := ParseArchivedInput(raw).value;
      var reply := send(ArchivedRequest(env, input.channelId, input.scope, input.before, ClampLimit(input.limit, env.maxThreads)));
      var e := ListArchivedThreadsTool(env, send, parse, raw);
      && e.Failure?
      && (e.retryable <==> reply.status == 429 || reply.status >= 500)
      && (e.code == PermissionDenied <==> reply.status == 403)
      && (e.code == NotFound <==> reply.status == 404)
      && (e.code == RateLimited <==> reply.status == 429)
      && e.code in {PermissionDenied, NotFound, RateLimited, DiscordApi}
      && e.message == HttpMessage(reply.status)
      && e.details == Http(
           reply.status,
           if reply.status == 429 && reply.retryAfter != Some("") then reply.retryAfter else None,
           match reply.body case Ok(body) => body case Err(_) => Null)
  {
    hide ParseArchivedInput;
    hide ArchivedRequest;
    hide ArchivedFromPayload;
    hide Schema.ScopeText;
    hide Schema.ParseScope;
    hide Text.DecimalInt;
    ArchivedToolPassesOn(env, send, parse, raw);
    hide ListArchivedThreadsTool;
    Schema.ScopeRoundTrip(ParseArchivedInput(raw).value.scope);
  }

  /** The active handler, too, passes on what the client returned. */
  lemma ActiveToolPassesOn(send: Transport, parse: DateParser, raw: Json)
    requires ParseActiveInput(raw).Ok?
    ensures ListActiveThreadsTool(send, parse, raw)
         == Enclose(ListActive(send, parse, ParseActiveInput(raw).value.guildId, ParseActiveInput(raw).value.parent))
  {
    hide ParseActiveInput;
    hide Schema.ThreadsSchema;
    hide RequestJson;
    hide NormalizeThreadList;
  }

  lemma {:induction false} KeepTypesIsPick(channels: seq<Channel>, types: seq<ChannelType>, keep: set<nat>)
    requires forall i: nat | i < |channels| :: i in keep <==> channels[i].kind in types
    ensures KeepTypes(channels, types) == Pick(channels, keep)
  {
    if channels != [] {
      KeepTypesIsPick(channels[..|channels| - 1], types, keep);
    }
  }

  function KeptChannels(channels: seq<Channel>, types: seq<ChannelType>): set<nat> {
    set i: nat | i < |channels| && channels[i].kind in types
  }

  /**
   * The channel handler answers, for an allowed guild, with exactly the client's channels of the types
   * asked for, in order; or with the error the client threw. A guild that is not allowed is refused
   * without regard to any response.
   */
  lemma ChannelsToolPassesOn(env: Env, send: Transport, raw: Json)
    requires ParseChannelsInput(raw).Ok?
    ensures var input := ParseChannelsInput(raw).value;
      ListGuildChannelsTool(env, send, raw)
      == if !GuildAllowed(env, input.guildId) then FailureFromError(AssertGuildAllowed(env, input.guildId).error)
         else match ListChannels(send, input.guildId)
              case Ok(r) => Success(
                GuildChannels(input.guildId, Pick(r.channels, KeptChannels(r.channels, input.includeTypes)), false), None)
              case Err(error) => FailureFromError(error)
  {
    hide ParseChannelsInput;
    hide ListChannels;
    var input := ParseChannelsInput(raw).value;
    if GuildAllowed(env, input.guildId) {
      var r := ListChannels(send, input.guildId);
      if r.Ok? {
        KeepTypesIsPick(r.value.channels, input.includeTypes, KeptChannels(r.value.channels, input.includeTypes));
      }
    }
  }

  // ---------------------------------------------------------------- message data needs an allowed thread

  /** The transports answer alike when asked for one channel, whatever they answer to anything else. */
  ghost predicate AgreeOnThread(a: Transport, b: Transport, threadId: string) {
    a(Request(ChannelPath(threadId), [])) == b(Request(ChannelPath(threadId), []))
  }

  lemma LookupDependsOnThread(env: Env, a: Transport, b: Transport, parse: DateParser, threadId: string)
    requires AgreeOnThread(a, b, threadId)
    ensures GetThread(env, a, parse, threadId) == GetThread(env, b, parse, threadId)
  {
  }

  /**
   * When the thread looked up first is refused, the messages handler answers with that refusal, and
   * nothing any other request would have returned has a part in it.
   */
  lemma MessagesNeedThread(env: Env, a: Transport, b: Transport, parse: DateParser, raw: Json)
    requires ParseMessagesInput(raw).Ok?
    requires AgreeOnThread(a, b, ParseMessagesInput(raw).value.threadId)
    requires GetThread(env, a, parse, ParseMessagesInput(raw).value.threadId).Err?
    ensures GetThreadMessagesTool(env, a, parse, raw) == GetThreadMessagesTool(env, b, parse, raw)
    ensures GetThreadMessagesTool(env, a, parse, raw)
         == FailureFromError(GetThread(env, a, parse, ParseMessagesInput(raw).value.threadId).error)
  {
    hide ParseMessagesInput;
    hide GetThread;
    LookupDependsOnThread(env, a, b, parse, ParseMessagesInput(raw).value.threadId);
  }

  lemma ExportNeedsThread(env: Env, a: Transport, b: Transport, parse: DateParser, raw: Json)
    requires ParseExportInput(raw).Ok?
    requires AgreeOnThread(a, b, ParseExportInput(raw).value.threadId)
    requires GetThread(env, a, parse, ParseExportInput(raw).value.threadId).Err?
    ensures ExportThreadTool(env, a, parse, raw) == ExportThreadTool(env, b, parse, raw)
    ensures ExportThreadTool(env, a, parse, raw)
         == FailureFromError(GetThread(env, a, parse, ParseExportInput(raw).value.threadId).error)
  {
    hide ParseExportInput;
    hide GetThread;
    LookupDependsOnThread(env, a, b, parse, ParseExportInput(raw).value.threadId);
  }

  /** So message data comes only with a thread whose guild the configured list accepts. */
  lemma DataNeedsListedThread(
    allowedGuildIds: string, maxThreads: int, maxMessages: int, send: Transport, parse: DateParser, raw: Json
  )
    requires LoadEnv(allowedGuildIds, maxThreads, maxMessages).Some?
    ensures var env := LoadEnv(allowedGuildIds, maxThreads, maxMessages).value;
      && (GetThreadMessagesTool(env, send, parse, raw).Success? ==>
            exists t :: GetThread(env, send, parse, ParseMessagesInput(raw).value.threadId) == Ok(t)
                        && Listed(allowedGuildIds, t.guildId))
      && (ExportThreadTool(env, send, parse, raw).Success? ==>
            exists t :: GetThread(env, send, parse, ParseExportInput(raw).value.threadId) == Ok(t)
                        && Listed(allowedGuildIds, t.guildId))
  {
    hide GetThread;
    hide Listed;
    hide GetMessages;
    hide LoadEnv;
    hide ParseMessagesInput;
    hide ParseExportInput;
    var env := LoadEnv(allowedGuildIds, maxThreads, maxMessages).value;
    if GetThreadMessagesTool(env, send, parse, raw).Success? {
      var threadId := ParseMessagesInput(raw).value.threadId;
      ThreadIsListed(allowedGuildIds, maxThreads, maxMessages, send, parse, threadId);
      var t := GetThread(env, send, parse, threadId).value;
      assert GetThread(env, send, parse, threadId) == Ok(t);
    }
    if ExportThreadTool(env, send, parse, raw).Success? {
      var threadId := ParseExportInput(raw).value.threadId;
      ThreadIsListed(allowedGuildIds, maxThreads, maxMessages, send, parse, threadId);
      var t := GetThread(env, send, parse, threadId).value;
      assert GetThread(env, send, parse, threadId) == Ok(t);
    }
  }

  // ---------------------------------------------------------------- when the messages handler succeeds

  lemma PickedFit(all: seq<Message>, keep: set<nat>)
    ensures Schema.MessagesSchema(Pick(all, keep))
       <==> forall i: nat | i < |all| && i in keep :: Schema.MessageSchema(all[i])
  {
    hide Schema.MessageSchema;
    var kept := Pick(all, keep);
    if Schema.MessagesSchema(kept) {
      forall i: nat | i < |all| && i in keep ensures Schema.MessageSchema(all[i]) {
        PickAt(all, keep, i);
        assert Schema.MessageSchema(kept[|Pick(all[..i], keep)|]);
      }
    }
    if forall i: nat | i < |all| && i in keep :: Schema.MessageSchema(all[i]) {
      forall k | 0 <= k < |kept| ensures Schema.MessageSchema(kept[k]) {
        PickSource(all, keep, k);
      }
    }
  }

  /** The raw messages that are kept fit the schema. */
  ghost predicate KeptFit(items: seq<Json>, includeSystem: bool, parse: DateParser) {
    forall i: nat | i < |items| && i in KeptMessages(items, includeSystem) :: RawMessageFits(items[i], parse)
  }

  lemma KeptMessagesFit(items: seq<Json>, threadId: string, parse: DateParser, all: seq<Message>, includeSystem: bool)
    requires Images(items, MessageOf(threadId, parse), all)
    ensures Schema.MessagesSchema(Pick(all, KeptMessages(items, includeSystem))) <==> KeptFit(items, includeSystem, parse)
  {
    hide NormalizeMessage;
    hide RawMessageFits;
    hide KeptMessages;
    hide Schema.MessageSchema;
    hide Schema.MessagesSchema;
    PickedFit(all, KeptMessages(items, includeSystem));
    forall i: nat | i < |items| ensures Schema.MessageSchema(all[i]) <==> RawMessageFits(items[i], parse) {
      assert MessageOf(threadId, parse)(items[i]) == Ok(all[i]);
      MessageFits(items[i], threadId, parse);
    }
  }

  /** The response is an array in which every message normalises and every kept one fits the schema. */
  ghost predicate GoodMessages(reply: Result<Json, Thrown>, threadId: string, includeSystem: bool, parse: DateParser) {
    && reply.Ok? && reply.value.Array?
    && AllOk(reply.value.items, MessageOf(threadId, parse))
    && KeptFit(reply.value.items, includeSystem, parse)
  }

  lemma MessagesAnswerIff(env: Env, send: Transport, parse: DateParser, threadId: string, query: MessagesQuery)
    ensures var r := GetMessages(env, send, parse, threadId, query);
      r.Ok? && Schema.MessagesSchema(r.value.messages)
      <==> GoodMessages(RequestJson(send(MessagesRequest(env, threadId, query))), threadId, query.includeSystem, parse)
  {
    hide MessagesRequest;
    hide RequestJson;
    hide KeptFit;
    hide KeptMessages;
    hide MessageOf;
    hide AllOk;
    hide FirstError;
    hide WithoutSystem;
    hide Schema.MessagesSchema;
    var reply := RequestJson(send(MessagesRequest(env, threadId, query)));
    if reply.Ok? && reply.value.Array? {
      var items := reply.value.items;
      MessagesOutcome(env, send, parse, threadId, query, reply.value);
      MapAllOutcome(items, MessageOf(threadId, parse));
      var r := GetMessages(env, send, parse, threadId, query);
      hide MapAll;
      if r.Ok? {
        var all :|
          && Images(items, MessageOf(threadId, parse), all)
          && r.value == ThreadMessages(threadId, Pick(all, KeptMessages(items, query.includeSystem)), false);
        hide Images;
        hide GetMessages;
        hide Pick;
        KeptMessagesFit(items, threadId, parse, all, query.includeSystem);
      }
    }
  }

  /**
   * The messages handler succeeds exactly when its input is accepted, the thread is found and allowed, the
   * response is an array in which every message normalises, and the messages that are kept fit the schema.
   */
  lemma MessagesToolSucceedsIff(env: Env, send: Transport, parse: DateParser, raw: Json)
    ensures GetThreadMessagesTool(env, send, parse, raw).Success? <==>
      && ParseMessagesInput(raw).Ok?
      && var input := ParseMessagesInput(raw).value;
      && GetThread(env, send, parse, input.threadId).Ok?
      && GoodMessages(
           RequestJson(send(MessagesRequest(env, input.threadId, ClampedQuery(env, input)))),
           input.threadId, input.query.includeSystem, parse)
  {
    hide ParseMessagesInput;
    hide GetThread;
    hide GetMessages;
    hide MessagesRequest;
    hide RequestJson;
    hide GoodMessages;
    hide Schema.MessagesSchema;
    if ParseMessagesInput(raw).Ok? {
      var input := ParseMessagesInput(raw).value;
      MessagesAnswerIff(env, send, parse, input.threadId, ClampedQuery(env, input));
    }
  }

  lemma AcceptedLimit(raw: Json)
    requires ParseMessagesInput(raw).Ok?
    ensures var limit := ParseMessagesInput(raw).value.query.limit; limit.Some? && 1.0 <= limit.value <= 200.0
  {
  }

  /**
   * When the response holds no more messages than the request asks for, the handler returns no more than the
   * limit of its input, nor than the configured ceiling.
   */
  lemma MessagesToolWithinLimit(env: Env, send: Transport, parse: DateParser, raw: Json)
    requires env.Valid() && GetThreadMessagesTool(env, send, parse, raw).Success?
    ensures var input, data := ParseMessagesInput(raw).value, GetThreadMessagesTool(env, send, parse, raw).data;
      var request := MessagesRequest(env, input.threadId, ClampedQuery(env, input));
      && RequestJson(send(request)).Ok? && RequestJson(send(request)).value.Array? && input.query.limit.Some?
      && exists n: nat ::
        && Lookup(request.query, "limit") == Some(Text.DecimalInt(n))
        && n as real <= input.query.limit.value && n <= env.maxMessages
        && (|RequestJson(send(request)).value.items| <= n ==> |data.messages| <= n)
  {
    AcceptedLimit(raw);
    hide ParseMessagesInput;
    hide GetThread;
    hide GetMessages;
    hide MessagesRequest;
    hide RequestJson;
    hide Text.DecimalInt;
    hide Lookup;
    hide Schema.MessagesSchema;
    var input := ParseMessagesInput(raw).value;
    var query := ClampedQuery(env, input);
    MessagesWithinLimit(env, send, parse, input.threadId, query);
    var n := LimitSent(input.query.limit.value, env.maxMessages);
    LimitPipeline(input.query.limit.value, env.maxMessages, n);
    assert Lookup(MessagesRequest(env, input.threadId, query).query, "limit") == Some(Text.DecimalInt(n));
  }

  // ---------------------------------------------------------------- exports of fetched messages

  lemma NormalizedIsStamped(raw: Json, threadId: string, parse: DateParser)
    requires NormalizeMessage(raw, threadId, parse).Ok?
    ensures Stamped(NormalizeMessage(raw, threadId, parse).value)
  {
    hide ToIso8601;
    hide NormalizeAttachments;
    hide NormalizeMessageType;
    hide ReferencedId;
    hide AuthorField;
    var created := AsString(Field(raw, "created_at"));
    CreatedAtIsStamped(created, parse);
    hide CreatedAt;
  }

  lemma CreatedAtIsStamped(createdAt: string, parse: DateParser)
    ensures CreatedAt(createdAt, parse).Ok? ==>
              |CreatedAt(createdAt, parse).value| >= 19 && '\n' !in CreatedAt(createdAt, parse).value
  {
    var ms := DateOf(Some(String(createdAt)), parse);
    if ms.Some? {
      Calendar.IsoIsOneLine(ms.value);
    }
  }

  /** The stamp denotes the message's time to the second, exactly if that time is in a four-digit year. */
  predicate ShowsTime(shown: PrintedMessage, m: Message) {
    && Calendar.ParseIso(m.createdAt).Some?
    && var ms := Calendar.ParseIso(m.createdAt).value;
    ShownSeconds(shown.stamp) == Some(ms / 1000) <==> Calendar.FourDigitYear(ms)
  }

  lemma NormalizedShowsTime(raw: Json, threadId: string, parse: DateParser)
    requires NormalizeMessage(raw, threadId, parse).Ok?
    ensures var m := NormalizeMessage(raw, threadId, parse).value; ShowsTime(Shown(m), m)
  {
    MessageParts(raw, threadId, parse);
    hide NormalizeMessage;
    hide ShownSeconds;
    hide StampText;
    hide Calendar.IsoString;
    hide Calendar.ParseIso;
    hide Calendar.FourDigitYear;
    var ms := DateOf(Some(String(AsString(Field(raw, "created_at")))), parse).value;
    Calendar.IsoRoundTrip(ms);
    StampShowsSecond(ms);
  }

  lemma FetchedShowTimes(env: Env, send: Transport, parse: DateParser, threadId: string, query: MessagesQuery)
    requires GetMessages(env, send, parse, threadId, query).Ok? && query.includeSystem
    ensures var messages := GetMessages(env, send, parse, threadId, query).value.messages;
      forall i | 0 <= i < |messages| :: ShowsTime(ShownMessages(messages)[i], messages[i])
  {
    hide NormalizeMessage;
    hide MessagesRequest;
    hide RequestJson;
    hide ShowsTime;
    hide Shown;
    var payload := RequestJson(send(MessagesRequest(env, threadId, query))).value;
    MapAllOutcome(payload.items, MessageOf(threadId, parse));
    var messages := GetMessages(env, send, parse, threadId, query).value.messages;
    forall i | 0 <= i < |messages| ensures ShowsTime(ShownMessages(messages)[i], messages[i]) {
      assert MessageOf(threadId, parse)(payload.items[i]) == Ok(messages[i]);
      NormalizedShowsTime(payload.items[i], threadId, parse);
    }
  }

  /** Every message printed is shown with its time. */
  ghost predicate TimesShown(printed: Printed, messages: seq<Message>) {
    |printed.messages| == |messages| && forall i | 0 <= i < |messages| :: ShowsTime(printed.messages[i], messages[i])
  }

  /**
   * A markdown export the handler returns is read back by `ReadExport`, to everything it shows of the thread
   * and messages fetched, exactly when their texts are readable; each stamp then read denotes the message's
   * time to the second, exactly if its year has four digits.
   */
  lemma MarkdownExportReadsBack(env: Env, send: Transport, parse: DateParser, raw: Json)
    requires ExportBody(env, send, parse, raw).Ok? && ExportBody(env, send, parse, raw).value.content.MarkdownText?
    ensures var input := ParseExportInput(raw).value;
      exists thread, fetched ::
        && GetThread(env, send, parse, input.threadId) == Ok(thread)
        && GetMessages(env, send, parse, input.threadId, ExportQuery(env, input.limit)) == Ok(fetched)
        && (ReadExport(ExportBody(env, send, parse, raw).value.content.text) == Some(PrintedOf(thread, fetched.messages))
            <==> Readable(thread, fetched.messages))
        && (Readable(thread, fetched.messages) ==>
              TimesShown(ReadExport(ExportBody(env, send, parse, raw).value.content.text).value, fetched.messages))
  {
    hide ParseExportInput;
    hide GetThread;
    hide GetMessages;
    hide Export;
    hide ReadExport;
    hide Readable;
    hide ShowsTime;
    hide ShownMessages;
    var input := ParseExportInput(raw).value;
    var thread := GetThread(env, send, parse, input.threadId).value;
    var query := ExportQuery(env, input.limit);
    var fetched := GetMessages(env, send, parse, input.threadId, query).value;
    FetchedAreStamped(env, send, parse, input.threadId, query);
    FetchedShowTimes(env, send, parse, input.threadId, query);
    ExportRoundTrip(thread, fetched.messages);
    assert GetThread(env, send, parse, input.threadId) == Ok(thread);
    assert GetMessages(env, send, parse, input.threadId, query) == Ok(fetched);
  }

  lemma FetchedAreStamped(env: Env, send: Transport, parse: DateParser, threadId: string, query: MessagesQuery)
    requires GetMessages(env, send, parse, threadId, query).Ok? && query.includeSystem
    ensures AllStamped(GetMessages(env, send, parse, threadId, query).value.messages)
  {
    hide NormalizeMessage;
    hide MessagesRequest;
    hide RequestJson;
    hide Stamped;
    var payload := RequestJson(send(MessagesRequest(env, threadId, query))).value;
    MapAllOutcome(payload.items, MessageOf(threadId, parse));
    var messages := GetMessages(env, send, parse, threadId, query).value.messages;
    forall i | 0 <= i < |messages| ensures Stamped(messages[i]) {
      assert MessageOf(threadId, parse)(payload.items[i]) == Ok(messages[i]);
      NormalizedIsStamped(payload.items[i], threadId, parse);
    }
  }
}
