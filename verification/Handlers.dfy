/**
 * server/tools/ and the input schemas of lib/schema.ts: which raw inputs each handler accepts, what it then asks
 * for, and what it answers, told by the keys of the raw input.
 */
module Handlers {
  import opened Wrappers
  import opened Text
  import opened Guards
  import opened Sequences
  import opened Json
  import opened Discord
  import opened Normalize
  import opened Client
  import opened Outcomes
  import opened Tools
  import Markdown
  import NormalForm
  import Schema

  // ---------------------------------------------------------------- input schemas as tables

  datatype Rule =
    | NonEmptyText
    | OneOf(texts: set<string>)
    | DistinctOf(texts: set<string>)
    | WholeUpTo(high: int)
    | Boolean

  datatype Key = Required(rule: Rule) | Optional(rule: Rule)

  predicate Meets(value: Json, rule: Rule) {
    match rule
    case NonEmptyText => value.String? && value.s != ""
    case OneOf(texts) => value.String? && value.s in texts
    case DistinctOf(texts) =>
      && value.Array?
      && (forall i | 0 <= i < |value.items| :: value.items[i].String? && value.items[i].s in texts)
      && (forall i, j | 0 <= i < j < |value.items| :: value.items[i] != value.items[j])
    case WholeUpTo(high) => value.Number? && value.value == value.value.Floor as real && 1.0 <= value.value <= high as real
    case Boolean => value.Bool?
  }

  /** An absent key meets the rule of an optional key. */
  predicate KeyMeets(raw: Json, name: string, key: Key)
    requires raw.Object?
  {
    if name in raw.fields then Meets(raw.fields[name], key.rule) else key.Optional?
  }

  function Names(table: seq<(string, Key)>): set<string> {
    set i | 0 <= i < |table| :: table[i].0
  }

  predicate AllMeet(raw: Json, table: seq<(string, Key)>)
    requires raw.Object?
  {
    forall i | 0 <= i < |table| :: KeyMeets(raw, table[i].0, table[i].1)
  }

  /** An object with no key outside the table, each key of which meets its rule. */
  predicate Conforms(raw: Json, table: seq<(string, Key)>) {
    raw.Object? && raw.fields.Keys <= Names(table) && AllMeet(raw, table)
  }

  function ArchivedTable(): seq<(string, Key)> {
    [
      ("channel_id", Required(NonEmptyText)),
      ("archive_scope", Required(OneOf({"public", "private", "joined_private"}))),
      ("before", Optional(NonEmptyText)),
      ("limit", Optional(WholeUpTo(100)))
    ]
  }

  function ActiveTable(): seq<(string, Key)> {
    [("guild_id", Required(NonEmptyText)), ("parent_channel_id", Optional(NonEmptyText))]
  }

  function ChannelsTable(): seq<(string, Key)> {
    [
      ("guild_id", Required(NonEmptyText)),
      ("include_types", Optional(DistinctOf({"GUILD_TEXT", "GUILD_FORUM", "GUILD_ANNOUNCEMENT", "GUILD_MEDIA", "OTHER"})))
    ]
  }

  function MessagesTable(): seq<(string, Key)> {
    [
      ("thread_id", Required(NonEmptyText)),
      ("before", Optional(NonEmptyText)),
      ("after", Optional(NonEmptyText)),
      ("around", Optional(NonEmptyText)),
      ("limit", Optional(WholeUpTo(200))),
      ("include_system_messages", Optional(Boolean))
    ]
  }

  function ExportTable(): seq<(string, Key)> {
    [
      ("thread_id", Required(NonEmptyText)),
      ("format", Optional(OneOf({"json", "markdown"}))),
      ("message_limit", Optional(WholeUpTo(500)))
    ]
  }

  // ---------------------------------------------------------------- values by key

  function TextIn(raw: Json, name: string): Option<string> {
    match Field(raw, name)
    case Some(String(s)) => Some(s)
    case _ => None
  }

  /** The whole number under a key, or the default of its schema. */
  function WholeIn(raw: Json, name: string, default: int): int {
    match Field(raw, name)
    case Some(Number(x)) => x.Floor
    case _ => default
  }

  // ---------------------------------------------------------------- accepted inputs

  /** A table is met one key at a time. */
  lemma TableStep(raw: Json, first: (string, Key), rest: seq<(string, Key)>)
    requires raw.Object?
    ensures Names([first] + rest) == {first.0} + Names(rest)
    ensures AllMeet(raw, [first] + rest) <==> KeyMeets(raw, first.0, first.1) && AllMeet(raw, rest)
  {
    hide KeyMeets;
    var table := [first] + rest;
    assert forall i | 0 <= i < |rest| :: table[i + 1] == rest[i];
    assert table[0] == first;
    if AllMeet(raw, table) {
      forall i | 0 <= i < |rest| ensures KeyMeets(raw, rest[i].0, rest[i].1) {
        assert KeyMeets(raw, table[i + 1].0, table[i + 1].1);
      }
    }
  }

  lemma TableOfTwo(raw: Json, a: (string, Key), b: (string, Key))
    requires raw.Object?
    ensures Names([a, b]) == {a.0, b.0}
    ensures AllMeet(raw, [a, b]) <==> KeyMeets(raw, a.0, a.1) && KeyMeets(raw, b.0, b.1)
  {
    TableStep(raw, a, [b]);
    TableStep(raw, b, []);
    assert [a] + [b] == [a, b] && [b] + [] == [b];
    assert Names([]) == {};
    hide KeyMeets;
  }

  lemma TableOfThree(raw: Json, a: (string, Key), b: (string, Key), c: (string, Key))
    requires raw.Object?
    ensures Names([a, b, c]) == {a.0, b.0, c.0}
    ensures AllMeet(raw, [a, b, c]) <==> KeyMeets(raw, a.0, a.1) && KeyMeets(raw, b.0, b.1) && KeyMeets(raw, c.0, c.1)
  {
    TableStep(raw, a, [b, c]);
    TableOfTwo(raw, b, c);
    assert [a] + [b, c] == [a, b, c];
    hide AllMeet;
    hide Names;
    hide KeyMeets;
  }

  lemma TableOfFour(raw: Json, a: (string, Key), b: (string, Key), c: (string, Key), d: (string, Key))
    requires raw.Object?
    ensures Names([a, b, c, d]) == {a.0, b.0, c.0, d.0}
    ensures AllMeet(raw, [a, b, c, d]) <==>
      && KeyMeets(raw, a.0, a.1) && KeyMeets(raw, b.0, b.1) && KeyMeets(raw, c.0, c.1) && KeyMeets(raw, d.0, d.1)
  {
    TableStep(raw, a, [b, c, d]);
    TableOfThree(raw, b, c, d);
    assert [a] + [b, c, d] == [a, b, c, d];
    hide AllMeet;
    hide Names;
    hide KeyMeets;
  }

  lemma TableOfSix(
    raw: Json, a: (string, Key), b: (string, Key), c: (string, Key), d: (string, Key), e: (string, Key), f: (string, Key)
  )
    requires raw.Object?
    ensures Names([a, b, c, d, e, f]) == {a.0, b.0, c.0, d.0, e.0, f.0}
    ensures AllMeet(raw, [a, b, c, d, e, f]) <==>
      && KeyMeets(raw, a.0, a.1) && KeyMeets(raw, b.0, b.1) && KeyMeets(raw, c.0, c.1)
      && KeyMeets(raw, d.0, d.1) && KeyMeets(raw, e.0, e.1) && KeyMeets(raw, f.0, f.1)
  {
    TableStep(raw, a, [b, c, d, e, f]);
    TableStep(raw, b, [c, d, e, f]);
    TableOfFour(raw, c, d, e, f);
    assert [a] + [b, c, d, e, f] == [a, b, c, d, e, f] && [b] + [c, d, e, f] == [b, c, d, e, f];
    hide AllMeet;
    hide Names;
    hide KeyMeets;
  }

  lemma TextKeys(raw: Json, name: string)
    requires raw.Object?
    ensures KeyMeets(raw, name, Required(NonEmptyText)) <==> NonEmptyString(Field(raw, name))
    ensures KeyMeets(raw, name, Optional(NonEmptyText)) <==> OptionalString(Field(raw, name))
    ensures StringOrNull(Field(raw, name)) == TextIn(raw, name)
    ensures NonEmptyString(Field(raw, name)) ==> TextIn(raw, name) == Some(AsString(Field(raw, name)))
  {
  }

  lemma LimitKey(raw: Json, name: string, high: int, default: int)
    requires raw.Object? && 1 <= default <= high
    ensures KeyMeets(raw, name, Optional(WholeUpTo(high))) <==> OptionalLimit(Field(raw, name), high)
    ensures OptionalLimit(Field(raw, name), high) ==>
              LimitOr(Field(raw, name), default) == WholeIn(raw, name, default) as real && 1 <= WholeIn(raw, name, default) <= high
  {
  }

  lemma ScopeNamed(text: string)
    ensures Schema.ParseScope(text).Ok? <==> text in {"public", "private", "joined_private"}
    ensures Schema.ParseScope(text).Ok? ==> Schema.ScopeText(Schema.ParseScope(text).value) == text
  {
  }

  lemma ArchivedInputIff(raw: Json)
    ensures match ParseArchivedInput(raw)
      case Err(error) => !Conforms(raw, ArchivedTable()) && error == Invalid("ListArchivedThreadsInput")
      case Ok(input) =>
        && Conforms(raw, ArchivedTable())
        && Some(input.channelId) == TextIn(raw, "channel_id")
        && TextIn(raw, "archive_scope") == Some(Schema.ScopeText(input.scope))
        && input.before == TextIn(raw, "before")
        && input.limit == WholeIn(raw, "limit", 50) as real && 1.0 <= input.limit <= 100.0
  {
    if raw.Object? {
      var t := ArchivedTable();
      TableOfFour(raw, t[0], t[1], t[2], t[3]);
      ScopeNamed(AsString(Field(raw, "archive_scope")));
      TextKeys(raw, "channel_id");
      TextKeys(raw, "before");
      LimitKey(raw, "limit", 100, 50);
      hide NonEmptyString;
      hide OptionalString;
      hide OptionalLimit;
      hide LimitOr;
      hide WholeIn;
      hide Schema.ParseScope;
      hide Schema.ScopeText;
      hide Names;
      hide AllMeet;
    }
  }

  lemma ActiveInputIff(raw: Json)
    ensures match ParseActiveInput(raw)
      case Err(error) => !Conforms(raw, ActiveTable()) && error == Invalid("ListActiveThreadsInput")
      case Ok(input) =>
        && Conforms(raw, ActiveTable())
        && Some(input.guildId) == TextIn(raw, "guild_id") && input.parent == TextIn(raw, "parent_channel_id")
  {
    if raw.Object? {
      var t := ActiveTable();
      TableOfTwo(raw, t[0], t[1]);
      hide Names;
      hide AllMeet;
    }
  }

  lemma MessagesInputIff(raw: Json)
    ensures match ParseMessagesInput(raw)
      case Err(error) => !Conforms(raw, MessagesTable()) && error == Invalid("GetThreadMessagesInput")
      case Ok(input) =>
        && Conforms(raw, MessagesTable())
        && Some(input.threadId) == TextIn(raw, "thread_id")
        && input.query.before == TextIn(raw, "before")
        && input.query.after == TextIn(raw, "after")
        && input.query.around == TextIn(raw, "around")
        && input.query.limit == Some(WholeIn(raw, "limit", 50) as real) && 1 <= WholeIn(raw, "limit", 50) <= 200
        && (input.query.includeSystem <==> Field(raw, "include_system_messages") == Some(Bool(true)))
  {
    if raw.Object? {
      var t := MessagesTable();
      TableOfSix(raw, t[0], t[1], t[2], t[3], t[4], t[5]);
      TextKeys(raw, "thread_id");
      TextKeys(raw, "before");
      TextKeys(raw, "after");
      TextKeys(raw, "around");
      LimitKey(raw, "limit", 200, 50);
      hide NonEmptyString;
      hide OptionalString;
      hide OptionalLimit;
      hide LimitOr;
      hide WholeIn;
      hide TextIn;
      hide Names;
      hide AllMeet;
    }
  }

  lemma ExportInputIff(raw: Json)
    ensures match ParseExportInput(raw)
      case Err(error) => !Conforms(raw, ExportTable()) && error == Invalid("ExportThreadInput")
      case Ok(input) =>
        && Conforms(raw, ExportTable())
        && Some(input.threadId) == TextIn(raw, "thread_id")
        && (input.asMarkdown <==> TextIn(raw, "format") in {None, Some("markdown")})
        && input.limit == WholeIn(raw, "message_limit", 200) as real && 1.0 <= input.limit <= 500.0
  {
    assert "json" != "markdown" by { assert |"json"| != |"markdown"|; }
    if raw.Object? {
      var t := ExportTable();
      TableOfThree(raw, t[0], t[1], t[2]);
      hide Names;
      hide AllMeet;
    }
  }

  /** The channel types asked for, or the four that threads hang under. */
  predicate AsksForType(raw: Json, kind: ChannelType) {
    match Field(raw, "include_types")
    case Some(Array(items)) => String(NormalForm.ChannelTypeText(kind)) in items
    case _ => kind in {GuildText, GuildForum, GuildAnnouncement, GuildMedia}
  }

  lemma ChannelTypeIff(item: Json, kind: ChannelType)
    ensures ParseChannelType(item) == Some(kind) <==> item == String(NormalForm.ChannelTypeText(kind))
    ensures ParseChannelType(item).Some? <==>
      item.String? && item.s in {"GUILD_TEXT", "GUILD_FORUM", "GUILD_ANNOUNCEMENT", "GUILD_MEDIA", "OTHER"}
  {
    NormalForm.ChannelTypeReadsBack(GuildText);
    NormalForm.ChannelTypeReadsBack(GuildForum);
    NormalForm.ChannelTypeReadsBack(GuildAnnouncement);
    NormalForm.ChannelTypeReadsBack(GuildMedia);
    NormalForm.ChannelTypeReadsBack(OtherChannel);
  }

  lemma TypesAskedFor(items: seq<Json>)
    ensures AllTypes(items) && NoRepeats(TypesOf(items))
       <==> Meets(Array(items), DistinctOf({"GUILD_TEXT", "GUILD_FORUM", "GUILD_ANNOUNCEMENT", "GUILD_MEDIA", "OTHER"}))
    ensures AllTypes(items) ==> forall kind :: kind in TypesOf(items) <==> String(NormalForm.ChannelTypeText(kind)) in items
  {
    forall i | 0 <= i < |items|
      ensures ParseChannelType(items[i]).Some? <==>
        items[i].String? && items[i].s in {"GUILD_TEXT", "GUILD_FORUM", "GUILD_ANNOUNCEMENT", "GUILD_MEDIA", "OTHER"}
    {
      ChannelTypeIff(items[i], OtherChannel);
    }
    forall i, kind | 0 <= i < |items|
      ensures ParseChannelType(items[i]) == Some(kind) <==> items[i] == String(NormalForm.ChannelTypeText(kind))
    {
      ChannelTypeIff(items[i], kind);
    }
    hide ParseChannelType;
    hide NormalForm.ChannelTypeText;
    if AllTypes(items) {
      var types := TypesOf(items);
      forall i, j | 0 <= i < j < |items| ensures types[i] == types[j] <==> items[i] == items[j] {
        assert items[i] == String(NormalForm.ChannelTypeText(types[i]));
        assert items[j] == String(NormalForm.ChannelTypeText(types[j]));
      }
      forall kind ensures kind in types <==> String(NormalForm.ChannelTypeText(kind)) in items {
        if kind in types {
          var i :| 0 <= i < |types| && types[i] == kind;
          assert items[i] == String(NormalForm.ChannelTypeText(kind));
        }
        if String(NormalForm.ChannelTypeText(kind)) in items {
          var i :| 0 <= i < |items| && items[i] == String(NormalForm.ChannelTypeText(kind));
          assert types[i] == kind;
        }
      }
    }
  }

  lemma ChannelsInputIff(raw: Json)
    ensures match ParseChannelsInput(raw)
      case Err(error) => !Conforms(raw, ChannelsTable()) && error == Invalid("ListGuildChannelsInput")
      case Ok(input) =>
        && Conforms(raw, ChannelsTable())
        && Some(input.guildId) == TextIn(raw, "guild_id")
        && forall kind :: kind in input.includeTypes <==> AsksForType(raw, kind)
  {
    if raw.Object? {
      var t := ChannelsTable();
      TableOfTwo(raw, t[0], t[1]);
      hide Names;
      hide AllMeet;
      var types := Field(raw, "include_types");
      if types.Some? && types.value.Array? {
        TypesAskedFor(types.value.items);
      }
      hide AllTypes;
      hide NoRepeats;
      hide TypesOf;
    }
  }

  // ---------------------------------------------------------------- answers

  /** The envelope that reports an error. */
  predicate Reports<T(==)>(e: Envelope<T>, error: Thrown) {
    match error
    case Api(code, message, retryable, details) => e == Failure(code, message, retryable, details)
    case Invalid(schema) => e == Failure(InvalidInput, schema, false, Issues)
    case Plain(message) => e == Failure(ToolExecutionFailed, message, false, NoDetails)
  }

  lemma Reported<T>(error: Thrown)
    ensures Reports<T>(FailureFromError(error), error)
  {
  }

  /** The archived handler answers as the client does for the values under its keys; a limit it lacks is 50. */
  lemma ArchivedHandler(env: Env, send: Transport, parse: DateParser, raw: Json) returns (scope: Scope, request: Request)
    requires env.Valid()
    ensures var e := ListArchivedThreadsTool(env, send, parse, raw);
      if !Conforms(raw, ArchivedTable()) then Reports(e, Invalid("ListArchivedThreadsInput"))
      else
        var channelId := TextIn(raw, "channel_id").GetOr("");
        && NamesScope(TextIn(raw, "archive_scope").GetOr(""), scope)
        && Asks(request,
             match scope
             case Public => "/channels/" + channelId + "/threads/archived/public"
             case Private => "/channels/" + channelId + "/threads/archived/private"
             case JoinedPrivate => "/channels/" + channelId + "/users/@me/threads/archived/private",
             Given("before", TextIn(raw, "before"))
             + map["limit" := DecimalInt(Min(WholeIn(raw, "limit", 50), env.maxThreads))])
        && match RequestJson(send(request))
           case Err(error) => Reports(e, error)
           case Ok(payload) =>
             match ArchivedFromPayload(env, parse, channelId, scope, payload)
             case Err(error) => Reports(e, error)
             case Ok(list) => e == Success(list, Some(list.nextCursor))
  {
    ArchivedInputIff(raw);
    hide ParseArchivedInput;
    hide Conforms;
    hide TextIn;
    hide WholeIn;
    hide Asks;
    hide RequestJson;
    hide ArchivedFromPayload;
    scope := Public;
    request := Request("", []);
    var parsed := ParseArchivedInput(raw);
    if parsed.Ok? {
      var input := parsed.value;
      scope := input.scope;
      Schema.ScopeRoundTrip(scope);
      assert NamesScope(Schema.ScopeText(scope), scope);
      ArchivedToolPassesOn(env, send, parse, raw);
      hide ListArchivedThreadsTool;
      LimitOfSchemaInput(WholeIn(raw, "limit", 50), env.maxThreads);
      LimitPipeline(input.limit, env.maxThreads, 1);
      var limit := ClampLimit(input.limit, env.maxThreads);
      request := ArchivedRequest(env, input.channelId, scope, input.before, limit);
      ArchivedAsks(env, input.channelId, scope, input.before, limit);
      hide ArchivedRequest;
      ArchivedOutcome(env, send, parse, input.channelId, Schema.ScopeText(scope), input.before, limit);
      hide ListArchived;
      hide Schema.ScopeText;
    }
  }

  lemma ActiveHandler(send: Transport, parse: DateParser, raw: Json)
    ensures var e := ListActiveThreadsTool(send, parse, raw);
      if !Conforms(raw, ActiveTable()) then Reports(e, Invalid("ListActiveThreadsInput"))
      else
        match ListActive(send, parse, TextIn(raw, "guild_id").GetOr(""), TextIn(raw, "parent_channel_id"))
        case Err(error) => Reports(e, error)
        case Ok(list) => e == Success(list, None)
  {
    ActiveInputIff(raw);
    hide ParseActiveInput;
    hide Conforms;
    hide TextIn;
    hide ListActive;
    if ParseActiveInput(raw).Ok? {
      ActiveToolPassesOn(send, parse, raw);
      hide ListActiveThreadsTool;
    }
  }

  /** The positions of the channels of a type asked for. */
  function ChannelsAskedFor(raw: Json, channels: seq<Channel>): set<nat> {
    set i: nat | i < |channels| && AsksForType(raw, channels[i].kind)
  }

  lemma ChannelsHandler(env: Env, send: Transport, raw: Json)
    ensures var e, guildId := ListGuildChannelsTool(env, send, raw), TextIn(raw, "guild_id").GetOr("");
      if !Conforms(raw, ChannelsTable()) then Reports(e, Invalid("ListGuildChannelsInput"))
      else if !Accepts(env, guildId) then Reports(e, Refusal(env, guildId))
      else
        match ListChannels(send, guildId)
        case Err(error) => Reports(e, error)
        case Ok(list) =>
          e == Success(GuildChannels(guildId, Pick(list.channels, ChannelsAskedFor(raw, list.channels)), false), None)
  {
    ChannelsInputIff(raw);
    hide ParseChannelsInput;
    hide Conforms;
    hide TextIn;
    hide ListChannels;
    hide AsksForType;
    if ParseChannelsInput(raw).Ok? {
      ChannelsToolPassesOn(env, send, raw);
      var input := ParseChannelsInput(raw).value;
      var r := ListChannels(send, input.guildId);
      if r.Ok? {
        assert KeptChannels(r.value.channels, input.includeTypes) == ChannelsAskedFor(raw, r.value.channels);
      }
      hide ListGuildChannelsTool;
    }
  }

  /** The raw messages that are kept: all when asked for, otherwise those whose type is not the string SYSTEM. */
  function MessagesKept(raw: Json, items: seq<Json>): set<nat> {
    set i: nat | i < |items|
      && (Field(raw, "include_system_messages") == Some(Bool(true)) || Field(items[i], "type") != Some(String("SYSTEM")))
  }

  ghost predicate AllKeptFit(raw: Json, items: seq<Json>, parse: DateParser) {
    forall i: nat | i < |items| && i in MessagesKept(raw, items) :: RawMessageFits(items[i], parse)
  }

  /** What the messages handler makes of the array it is sent. */
  ghost predicate AnswersMessages(e: Envelope<ThreadMessages>, raw: Json, threadId: string, items: seq<Json>, parse: DateParser) {
    if !AllOk(items, MessageOf(threadId, parse)) then
      exists error :: FirstError(items, MessageOf(threadId, parse), error) && Reports(e, error)
    else if !AllKeptFit(raw, items, parse) then Reports(e, Invalid("GetThreadMessagesOutput"))
    else
      exists all ::
        && Images(items, MessageOf(threadId, parse), all)
        && e == Success(ThreadMessages(threadId, Pick(all, MessagesKept(raw, items)), false), None)
  }

  lemma AnswersMessagesFrom(
    env: Env, send: Transport, parse: DateParser, threadId: string, query: MessagesQuery, raw: Json, items: seq<Json>,
    e: Envelope<ThreadMessages>
  )
    requires RequestJson(send(MessagesRequest(env, threadId, query))) == Ok(Array(items))
    requires query.includeSystem <==> Field(raw, "include_system_messages") == Some(Bool(true))
    requires match GetMessages(env, send, parse, threadId, query)
      case Err(error) => e == FailureFromError(error)
      case Ok(r) =>
        e == if Schema.MessagesSchema(r.messages) then Success(r, None) else FailureFromError(Invalid("GetThreadMessagesOutput"))
    ensures AnswersMessages(e, raw, threadId, items, parse)
  {
    hide RequestJson;
    hide MessagesRequest;
    hide MessageOf;
    hide Images;
    hide RawMessageFits;
    hide Schema.MessagesSchema;
    MessagesOutcome(env, send, parse, threadId, query, Array(items));
    MapAllOutcome(items, MessageOf(threadId, parse));
    var r := GetMessages(env, send, parse, threadId, query);
    assert KeptMessages(items, query.includeSystem) == MessagesKept(raw, items);
    if r.Ok? {
      var all :| Images(items, MessageOf(threadId, parse), all)
        && r.value == ThreadMessages(threadId, Pick(all, KeptMessages(items, query.includeSystem)), false);
      KeptMessagesFit(items, threadId, parse, all, query.includeSystem);
    } else {
      Reported<ThreadMessages>(r.error);
    }
  }

  /** Each key becomes the parameter of its name, and the limit the smaller of the ceiling and the one asked for, or 50. */
  lemma MessagesHandler(env: Env, send: Transport, parse: DateParser, raw: Json) returns (request: Request)
    requires env.Valid()
    ensures var e, threadId := GetThreadMessagesTool(env, send, parse, raw), TextIn(raw, "thread_id").GetOr("");
      if !Conforms(raw, MessagesTable()) then Reports(e, Invalid("GetThreadMessagesInput"))
      else
        && Asks(request, "/channels/" + threadId + "/messages",
             Given("before", TextIn(raw, "before")) + Given("after", TextIn(raw, "after"))
             + Given("around", TextIn(raw, "around"))
             + map["limit" := DecimalInt(Min(WholeIn(raw, "limit", 50), env.maxMessages))])
        && match GetThread(env, send, parse, threadId)
           case Err(error) => Reports(e, error)
           case Ok(_) =>
             match RequestJson(send(request))
             case Err(error) => Reports(e, error)
             case Ok(Array(items)) => AnswersMessages(e, raw, threadId, items, parse)
             case Ok(_) => Reports(e, Api(DiscordApi, "Thread message payload was not an array.", false, NoDetails))
  {
    hide ParseMessagesInput;
    hide Conforms;
    hide TextIn;
    hide WholeIn;
    hide Asks;
    hide RequestJson;
    hide GetThread;
    hide GetMessages;
    hide MessagesRequest;
    hide MessageParameters;
    hide AnswersMessages;
    hide ClampLimit;
    hide Schema.MessagesSchema;
    MessagesInputIff(raw);
    request := Request("", []);
    var parsed := ParseMessagesInput(raw);
    if parsed.Ok? {
      var input := parsed.value;
      var query := ClampedQuery(env, input);
      request := MessagesRequest(env, input.threadId, query);
      MessagesAsk(env, input.threadId, query);
      ClampedParameters(env, input, WholeIn(raw, "limit", 50));
      MessagesFailure(env, send, parse, input.threadId, query);
      var reply := RequestJson(send(request));
      if GetThread(env, send, parse, input.threadId).Ok? && reply.Ok? && reply.value.Array? {
        AnswersMessagesFrom(
          env, send, parse, input.threadId, query, raw, reply.value.items, GetThreadMessagesTool(env, send, parse, raw));
      }
    }
  }

  lemma ClampedParameters(env: Env, input: MessagesInput, n: int)
    requires env.Valid() && n >= 1 && input.query.limit == Some(n as real)
    ensures MessageParameters(env, ClampedQuery(env, input))
         == Given("before", input.query.before) + Given("after", input.query.after) + Given("around", input.query.around)
            + map["limit" := DecimalInt(Min(n, env.maxMessages))]
    ensures ClampedQuery(env, input).includeSystem == input.query.includeSystem
  {
    hide Given;
    hide DecimalInt;
    LimitOfSchemaInput(n, env.maxMessages);
  }

  /** What the export handler makes of the thread and the array it is sent. */
  ghost predicate AnswersExport(
    e: Envelope<ExportedThread>, markdown: bool, threadId: string, thread: Thread, items: seq<Json>, parse: DateParser
  )
  {
    if !AllOk(items, MessageOf(threadId, parse)) then
      exists error :: FirstError(items, MessageOf(threadId, parse), error) && Reports(e, error)
    else
      exists all ::
        && Images(items, MessageOf(threadId, parse), all)
        && e == Success(
             ExportedThread(threadId, if markdown then MarkdownText(Markdown.Export(thread, all)) else JsonText(thread, all)),
             None)
  }

  /** An export asks for no more than 200 messages unless told otherwise, keeps system messages, and is markdown by default. */
  lemma ExportHandler(env: Env, send: Transport, parse: DateParser, raw: Json) returns (request: Request)
    requires env.Valid()
    ensures var e, threadId := ExportThreadTool(env, send, parse, raw), TextIn(raw, "thread_id").GetOr("");
      if !Conforms(raw, ExportTable()) then Reports(e, Invalid("ExportThreadInput"))
      else
        && Asks(request, "/channels/" + threadId + "/messages",
             map["limit" := DecimalInt(Min(WholeIn(raw, "message_limit", 200), env.maxMessages))])
        && match GetThread(env, send, parse, threadId)
           case Err(error) => Reports(e, error)
           case Ok(thread) =>
             match RequestJson(send(request))
             case Err(error) => Reports(e, error)
             case Ok(Array(items)) =>
               AnswersExport(e, TextIn(raw, "format") in {None, Some("markdown")}, threadId, thread, items, parse)
             case Ok(_) => Reports(e, Api(DiscordApi, "Thread message payload was not an array.", false, NoDetails))
  {
    hide ParseExportInput;
    hide Conforms;
    hide TextIn;
    hide WholeIn;
    hide Asks;
    hide RequestJson;
    hide GetThread;
    hide GetMessages;
    hide MessagesRequest;
    hide MessageParameters;
    hide AnswersExport;
    hide ExportQuery;
    hide Markdown.Export;
    ExportInputIff(raw);
    request := Request("", []);
    var parsed := ParseExportInput(raw);
    if parsed.Ok? {
      var input := parsed.value;
      var query := ExportQuery(env, input.limit);
      request := MessagesRequest(env, input.threadId, query);
      MessagesAsk(env, input.threadId, query);
      ExportParameters(env, WholeIn(raw, "message_limit", 200));
      MessagesFailure(env, send, parse, input.threadId, query);
      var reply, thread := RequestJson(send(request)), GetThread(env, send, parse, input.threadId);
      if thread.Ok? && reply.Ok? && reply.value.Array? {
        AnswersExportFrom(
          env, send, parse, input.threadId, query, input.asMarkdown, thread.value, reply.value.items,
          ExportThreadTool(env, send, parse, raw));
      }
    }
  }

  lemma ExportParameters(env: Env, n: int)
    requires env.Valid() && n >= 1
    ensures MessageParameters(env, ExportQuery(env, n as real)) == map["limit" := DecimalInt(Min(n, env.maxMessages))]
    ensures ExportQuery(env, n as real).includeSystem
  {
    hide DecimalInt;
    LimitOfSchemaInput(n, env.maxMessages);
  }

  lemma AnswersExportFrom(
    env: Env, send: Transport, parse: DateParser, threadId: string, query: MessagesQuery, markdown: bool, thread: Thread,
    items: seq<Json>, e: Envelope<ExportedThread>
  )
    requires RequestJson(send(MessagesRequest(env, threadId, query))) == Ok(Array(items)) && query.includeSystem
    requires match GetMessages(env, send, parse, threadId, query)
      case Err(error) => e == FailureFromError(error)
      case Ok(r) =>
        e == Success(
               ExportedThread(
                 threadId,
                 if markdown then MarkdownText(Markdown.Export(thread, r.messages)) else JsonText(thread, r.messages)),
               None)
    ensures AnswersExport(e, markdown, threadId, thread, items, parse)
  {
    hide RequestJson;
    hide MessagesRequest;
    hide MessageOf;
    hide Images;
    hide AllOk;
    hide FirstError;
    hide Markdown.Export;
    MapAllOutcome(items, MessageOf(threadId, parse));
    var r := GetMessages(env, send, parse, threadId, query);
    if r.Err? {
      Reported<ExportedThread>(r.error);
    }
  }
}
