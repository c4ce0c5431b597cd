/**
 * server/resources/ and server/registerResources.ts: what the registered resources load, and which answers,
 * of resources and of handlers, come only from a guild the configured list accepts.
 */
module Resources {
  import opened Wrappers
  import opened Text
  import opened Guards
  import opened Calendar
  import opened Json
  import opened Discord
  import opened Normalize
  import opened NormalForm
  import opened Client
  import opened Outcomes
  import opened Tools
  import ResourceUris
  import Schema

  // ---------------------------------------------------------------- loading

  function GuildChannelsResource(send: Transport, guildId: string): Result<GuildChannels, Thrown> {
    ListChannels(send, guildId)
  }

  function GuildActiveThreadsResource(send: Transport, parse: DateParser, guildId: string): Result<ActiveThreads, Thrown> {
    ListActive(send, parse, guildId, None)
  }

  /** The scope parameter is mapped back from its hyphen before the client reads it; the limit is the default. */
  function ArchivedThreadsResource(
    env: Env, send: Transport, parse: DateParser, channelId: string, scopeParameter: string
  ): Result<ArchivedThreads, Thrown>
  {
    ListArchived(env, send, parse, channelId, ResourceUris.ScopeOfParameter(scopeParameter), None, 50.0)
  }

  function ThreadResource(env: Env, send: Transport, parse: DateParser, threadId: string): Result<Thread, Thrown> {
    GetThread(env, send, parse, threadId)
  }

  /** System messages included; the registered handler passes the limit 100. */
  function ThreadMessagesResource(
    env: Env, send: Transport, parse: DateParser, threadId: string, limit: real
  ): Result<ThreadMessages, Thrown>
  {
    GetMessages(env, send, parse, threadId, MessagesQuery(None, None, None, Some(limit), true))
  }

  // ---------------------------------------------------------------- what the resources ask for

  /** The messages resource asks for one page, as large as its limit and the ceiling allow, and drops nothing. */
  lemma MessagesResourceAnswers(env: Env, send: Transport, parse: DateParser, threadId: string, limit: real)
    returns (request: Request)
    ensures Asks(request, "/channels/" + threadId + "/messages", map["limit" := DecimalInt(ClampInt(limit, 1, env.maxMessages))])
    ensures var r := ThreadMessagesResource(env, send, parse, threadId, limit);
      match RequestJson(send(request))
      case Err(error) => r == Err(error)
      case Ok(Array(items)) =>
        (match r
         case Ok(list) =>
           Images(items, MessageOf(threadId, parse), list.messages) && list == ThreadMessages(threadId, list.messages, false)
         case Err(error) => FirstError(items, MessageOf(threadId, parse), error))
      case Ok(_) => r == Err(Api(DiscordApi, "Thread message payload was not an array.", false, NoDetails))
  {
    hide RequestJson;
    hide MapAll;
    hide MessageOf;
    hide Images;
    hide FirstError;
    hide AllOk;
    hide DecimalInt;
    hide ClampInt;
    var query := MessagesQuery(None, None, None, Some(limit), true);
    assert MessageParameters(env, query) == map["limit" := DecimalInt(ClampInt(limit, 1, env.maxMessages))];
    request := MessagesRequest(env, threadId, query);
    MessagesAsk(env, threadId, query);
    hide MessagesRequest;
    hide Asks;
    var reply := RequestJson(send(request));
    if reply.Ok? && reply.value.Array? {
      MapAllOutcome(reply.value.items, MessageOf(threadId, parse));
    }
  }

  /** The archived resource asks for the newest page of the archive its parameter names, 50 threads at most. */
  lemma ArchivedResourceAnswers(env: Env, send: Transport, parse: DateParser, channelId: string, scopeParameter: string)
    returns (scope: Scope, request: Request)
    requires env.Valid()
    ensures var r := ArchivedThreadsResource(env, send, parse, channelId, scopeParameter);
      if scopeParameter !in {"public", "private", "joined-private", "joined_private"} then r == Err(Invalid("ArchiveScope"))
      else
        && NamesScope(if scopeParameter == "joined-private" then "joined_private" else scopeParameter, scope)
        && Asks(request,
             match scope
             case Public => "/channels/" + channelId + "/threads/archived/public"
             case Private => "/channels/" + channelId + "/threads/archived/private"
             case JoinedPrivate => "/channels/" + channelId + "/users/@me/threads/archived/private",
             map["limit" := DecimalInt(Min(50, env.maxThreads))])
        && Answers(env, parse, channelId, scope, RequestJson(send(request)), r)
  {
    hide RequestJson;
    hide ArchivedRequest;
    hide ListArchived;
    hide Answers;
    hide Asks;
    hide DecimalInt;
    var text := if scopeParameter == "joined-private" then "joined_private" else scopeParameter;
    scope := if text == "public" then Public else if text == "private" then Private else JoinedPrivate;
    request := ArchivedRequest(env, channelId, scope, None, 50.0);
    ArchivedAsks(env, channelId, scope, None, 50.0);
    LimitOfSchemaInput(50, env.maxThreads);
    LimitPipeline(50.0, env.maxThreads, 1);
    assert Given("before", None) + map["limit" := DecimalInt(ClampInt(50.0, 1, env.maxThreads))]
        == map["limit" := DecimalInt(Min(50, env.maxThreads))];
    ArchivedOutcome(env, send, parse, channelId, text, None, 50.0);
  }

  // ---------------------------------------------------------------- answers for listed guilds only

  /** Every thread of an archived answer, and every thread looked up, is in a guild the configured list accepts. */
  lemma ArchivedAndThreadAreListed(
    allowedGuildIds: string, maxThreads: int, maxMessages: int, send: Transport, parse: DateParser,
    id: string, scopeParameter: string
  )
    requires LoadEnv(allowedGuildIds, maxThreads, maxMessages).Some?
    ensures var env := LoadEnv(allowedGuildIds, maxThreads, maxMessages).value;
      var listed, thread := ArchivedThreadsResource(env, send, parse, id, scopeParameter), ThreadResource(env, send, parse, id);
      && (listed.Ok? ==> forall i | 0 <= i < |listed.value.threads| :: Listed(allowedGuildIds, listed.value.threads[i].guildId))
      && (thread.Ok? ==> Listed(allowedGuildIds, thread.value.guildId))
  {
    hide LoadEnv;
    hide ListArchived;
    hide GetThread;
    hide Listed;
    hide ResourceUris.ScopeOfParameter;
    ArchivedThreadsAreListed(
      allowedGuildIds, maxThreads, maxMessages, send, parse, id, ResourceUris.ScopeOfParameter(scopeParameter), None, 50.0);
    ThreadIsListed(allowedGuildIds, maxThreads, maxMessages, send, parse, id);
  }

  /** The channel handler, unlike the resource, answers for accepted guilds only. */
  lemma ChannelsToolIsListed(
    allowedGuildIds: string, maxThreads: int, maxMessages: int, send: Transport, raw: Json
  )
    requires LoadEnv(allowedGuildIds, maxThreads, maxMessages).Some?
    ensures var e := ListGuildChannelsTool(LoadEnv(allowedGuildIds, maxThreads, maxMessages).value, send, raw);
      e.Success? ==> Listed(allowedGuildIds, e.data.guildId)
  {
    hide LoadEnv;
    hide ParseChannelsInput;
    hide ListChannels;
    hide Listed;
    hide AssertGuildAllowed;
    hide KeepTypes;
    if ParseChannelsInput(raw).Ok? {
      AllowlistAccepts(allowedGuildIds, maxThreads, maxMessages, ParseChannelsInput(raw).value.guildId);
    }
  }

  // ---------------------------------------------------------------- transports that answer with given data

  /** Answers every request with one payload. */
  function Always(payload: Json): Transport {
    _ => Response(200, None, Ok(payload))
  }

  function ThreadsPayload(t: Thread): Json {
    Object(map["threads" := Array([RawThread(t)])])
  }

  lemma OneImage<T(!new)>(raw: Json, f: Json -> Result<T, Thrown>, value: T)
    requires f(raw) == Ok(value)
    ensures MapAll([raw], f) == Ok([value])
  {
    var items := [raw];
    MapAllOutcome(items, f);
    assert AllOk(items, f);
    assert Images(items, f, [value]);
    var values := MapAll(items, f).value;
    assert f(items[0]) == Ok(values[0]);
    assert values == [value];
  }

  lemma NoImages<T(!new)>(f: Json -> Result<T, Thrown>)
    ensures MapAll([], f) == Ok([])
  {
  }

  /** A thread without times whose texts are not blank and whose numbers fit the schema. */
  predicate Plain(t: Thread) {
    && !Blank(t.id) && !Blank(t.guildId) && !Blank(t.parentId) && !Blank(t.name)
    && t.archiveTimestamp == None && t.createdAt == None && t.lastActivityAt == None
    && Schema.ThreadSchema(t)
  }

  lemma ThreadsPayloadReads(t: Thread)
    ensures var payload := ThreadsPayload(t);
      ReadList(payload) == Ok(RawList([RawThread(t)], [], false))
  {
    hide RawThread;
    var payload := ThreadsPayload(t);
    assert "threads"[0] != "members"[0] && |"has_more"| != |"threads"|;
    assert Field(payload, "threads") == Some(Array([RawThread(t)]));
    assert Field(payload, "members") == None && Field(payload, "has_more") == None;
  }

  /** Whatever guild is asked for, the client lists any such thread, of any guild, when the response holds it. */
  lemma AnyThreadIsListed(t: Thread, parse: DateParser, guildId: string)
    requires Plain(t)
    ensures ListActive(Always(ThreadsPayload(t)), parse, guildId, None) == Ok(ActiveThreads(guildId, [t], [], false))
  {
    hide NormalizeThread;
    hide RawThread;
    hide Blank;
    hide Schema.ThreadSchema;
    hide MapAll;
    hide ReadList;
    hide ThreadsPayload;
    UndatedThreadIsImage(t, parse);
    ThreadsPayloadReads(t);
    OneImage(RawThread(t), ThreadOf(None, parse), t);
    NoImages(MemberOf(parse));
  }

  /** A thread of a given guild. */
  function ThreadIn(guildId: string): Thread {
    Thread("1", guildId, "1", "1", PublicThread, false, false, 1440.0, None, 0.0, 0.0, None, None, None)
  }

  lemma ThreadInIsPlain(guildId: string)
    requires !Blank(guildId)
    ensures Plain(ThreadIn(guildId))
  {
    assert !Blank("1") by {
      assert !IsSpace("1"[0]);
    }
    assert 1440.0 == 1440.0.Floor as real && 0.0 == 0.0.Floor as real;
  }

  // ---------------------------------------------------------------- active threads

  /** Every thread the active handler and the active resource ever return is in an accepted guild. */
  ghost predicate ActiveToolListed(allowedGuildIds: string, parse: DateParser) {
    forall send, raw, i ::
      var e := ListActiveThreadsTool(send, parse, raw);
      e.Success? && 0 <= i < |e.data.threads| ==> Listed(allowedGuildIds, e.data.threads[i].guildId)
  }

  ghost predicate ActiveResourceListed(allowedGuildIds: string, parse: DateParser) {
    forall send, guildId, i ::
      var r := GuildActiveThreadsResource(send, parse, guildId);
      r.Ok? && 0 <= i < |r.value.threads| ==> Listed(allowedGuildIds, r.value.threads[i].guildId)
  }

  function ActiveInputFor(guildId: string): Json {
    Object(map["guild_id" := String(guildId)])
  }

  lemma ActiveInputParses(guildId: string)
    requires guildId != ""
    ensures ParseActiveInput(ActiveInputFor(guildId)) == Ok(ActiveInput(guildId, None))
  {
    var raw := ActiveInputFor(guildId);
    assert |"guild_id"| != |"parent_channel_id"|;
    assert Field(raw, "guild_id") == Some(String(guildId)) && Field(raw, "parent_channel_id") == None;
  }

  /** For active threads this holds exactly when the configured list names no guild. */
  lemma ActiveThreadsListedIff(allowedGuildIds: string, parse: DateParser)
    ensures ActiveToolListed(allowedGuildIds, parse) <==> NamesNoGuild(allowedGuildIds)
    ensures ActiveResourceListed(allowedGuildIds, parse) <==> NamesNoGuild(allowedGuildIds)
  {
    hide NamesNoGuild;
    hide ListActive;
    hide ListActiveThreadsTool;
    hide ParseActiveInput;
    hide Plain;
    if !NamesNoGuild(allowedGuildIds) {
      var g := LongGuildId(allowedGuildIds);
      var t, send, raw := ThreadIn(g), Always(ThreadsPayload(ThreadIn(g))), ActiveInputFor(g);
      LongGuildIsNotListed(allowedGuildIds);
      LongGuildIsVisible(allowedGuildIds);
      hide LongGuildId;
      ThreadInIsPlain(g);
      AnyThreadIsListed(t, parse, g);
      ActiveInputParses(g);
      ActiveToolPassesOn(send, parse, raw);
      hide Listed;
      assert GuildActiveThreadsResource(send, parse, g).value.threads[0] == t;
      assert ListActiveThreadsTool(send, parse, raw).data.threads[0] == t;
    }
  }

  // ---------------------------------------------------------------- archived threads

  /** A page without threads, with one member and more to come. */
  function MembersPayload(m: Member): Json {
    Object(map["threads" := Array([]), "members" := Array([RawMember(m)]), "has_more" := Bool(true)])
  }

  predicate PlainMember(m: Member) {
    !Blank(m.threadId) && !Blank(m.userId) && m.joinTimestamp == None && Schema.MemberSchema(m)
  }

  lemma MembersPayloadReads(m: Member)
    ensures ReadList(MembersPayload(m)) == Ok(RawList([], [RawMember(m)], true))
  {
    hide RawMember;
    var payload := MembersPayload(m);
    assert "threads"[0] != "members"[0] && |"has_more"| != |"threads"|;
    assert Field(payload, "threads") == Some(Array([]));
    assert Field(payload, "members") == Some(Array([RawMember(m)]));
    assert Field(payload, "has_more") == Some(Bool(true));
  }

  /** Whatever the configured list, an archived listing passes on any such member when the page has no threads. */
  lemma AnyMemberIsPassedOn(env: Env, parse: DateParser, channelId: string, scope: Scope, m: Member)
    requires PlainMember(m)
    ensures ArchivedFromPayload(env, parse, channelId, scope, MembersPayload(m))
         == Ok(ArchivedThreads(channelId, scope, [], [m], true, None, false))
  {
    hide NormalizeMember;
    hide RawMember;
    hide Blank;
    hide Schema.MemberSchema;
    hide MapAll;
    hide ReadList;
    hide MembersPayload;
    UndatedMemberIsImage(m, parse);
    MembersPayloadReads(m);
    OneImage(RawMember(m), MemberOf(parse), m);
    NoImages(ThreadOf(Some(channelId), parse));
  }

  /** If a lookup of the member's thread finds it, its guild is accepted. */
  ghost predicate MemberListed(allowedGuildIds: string, send: Transport, parse: DateParser, m: Member) {
    var t := ThreadBehind(send, parse, m.threadId);
    t.Ok? ==> Listed(allowedGuildIds, t.value.guildId)
  }

  /** Every member the archived resource and the archived handler ever return belongs to such a thread. */
  ghost predicate ArchivedResourceMembersListed(allowedGuildIds: string, env: Env, parse: DateParser) {
    forall send, channelId, scopeParameter, i ::
      var r := ArchivedThreadsResource(env, send, parse, channelId, scopeParameter);
      r.Ok? && 0 <= i < |r.value.members| ==> MemberListed(allowedGuildIds, send, parse, r.value.members[i])
  }

  ghost predicate ArchivedToolMembersListed(allowedGuildIds: string, env: Env, parse: DateParser) {
    forall send, raw, i ::
      var e := ListArchivedThreadsTool(env, send, parse, raw);
      e.Success? && 0 <= i < |e.data.members| ==> MemberListed(allowedGuildIds, send, parse, e.data.members[i])
  }

  function ArchivedInputFor(channelId: string): Json {
    Object(map["channel_id" := String(channelId), "archive_scope" := String("public")])
  }

  lemma ArchivedInputParses(channelId: string)
    requires channelId != ""
    ensures ParseArchivedInput(ArchivedInputFor(channelId)) == Ok(ArchivedInput(channelId, Public, None, 50.0))
  {
    var raw := ArchivedInputFor(channelId);
    assert |"channel_id"| == 10 && |"archive_scope"| == 13 && |"before"| == 6 && |"limit"| == 5;
    assert Field(raw, "channel_id") == Some(String(channelId)) && Field(raw, "archive_scope") == Some(String("public"));
    assert Field(raw, "before") == None && Field(raw, "limit") == None;
  }

  /** A transport that answers the lookup of one thread with it, and all else with a member of that thread. */
  function MemberTransport(t: Thread, m: Member): Transport {
    Either(ChannelPath(m.threadId), RawThread(t), MembersPayload(m))
  }

  lemma MemberTransportReplies(t: Thread, m: Member, parse: DateParser, path: string, query: seq<(string, string)>)
    requires Plain(t) && path != ChannelPath(m.threadId)
    ensures RequestJson(MemberTransport(t, m)(Request(path, query))) == Ok(MembersPayload(m))
    ensures ThreadBehind(MemberTransport(t, m), parse, m.threadId) == Ok(t)
  {
    hide NormalizeThread;
    hide RawThread;
    hide MembersPayload;
    hide Blank;
    UndatedThreadIsImage(t, parse);
  }

  /** So the archived listing shows a member of any thread, of any guild. */
  lemma AnyMemberIsShown(
    env: Env, t: Thread, m: Member, parse: DateParser,
    channelId: string, scope: Scope, before: Option<string>, limit: real
  )
    requires Plain(t) && PlainMember(m) && ArchivePath(channelId, scope) != ChannelPath(m.threadId)
    ensures var send := MemberTransport(t, m);
      && ListArchived(env, send, parse, channelId, Schema.ScopeText(scope), before, limit)
         == Ok(ArchivedThreads(channelId, scope, [], [m], true, None, false))
      && ThreadBehind(send, parse, m.threadId) == Ok(t)
  {
    hide ArchivedFromPayload;
    hide MemberTransport;
    hide ThreadBehind;
    hide ArchivePath;
    hide ChannelPath;
    hide RequestJson;
    hide Plain;
    hide PlainMember;
    hide Schema.ScopeText;
    hide Schema.ParseScope;
    Schema.ScopeRoundTrip(scope);
    var request := ArchivedRequest(env, channelId, scope, before, limit);
    MemberTransportReplies(t, m, parse, request.path, request.query);
    AnyMemberIsPassedOn(env, parse, channelId, scope, m);
  }

  function MemberIn(threadId: string): Member {
    Member(threadId, "1", None, 0.0)
  }

  lemma MemberInIsPlain()
    ensures PlainMember(MemberIn("1"))
  {
    assert !Blank("1") by {
      assert !IsSpace("1"[0]);
    }
    assert 0.0 == 0.0.Floor as real;
  }

  /** For the members of an archived answer this holds exactly when the configured list names no guild. */
  lemma ArchivedMembersListedIff(allowedGuildIds: string, env: Env, parse: DateParser)
    ensures ArchivedResourceMembersListed(allowedGuildIds, env, parse) <==> NamesNoGuild(allowedGuildIds)
    ensures ArchivedToolMembersListed(allowedGuildIds, env, parse) <==> NamesNoGuild(allowedGuildIds)
  {
    hide NamesNoGuild;
    hide ListArchived;
    hide ListArchivedThreadsTool;
    hide ThreadBehind;
    hide ParseArchivedInput;
    hide Plain;
    hide PlainMember;
    hide MemberTransport;
    if !NamesNoGuild(allowedGuildIds) {
      var g := LongGuildId(allowedGuildIds);
      var t, m, raw := ThreadIn(g), MemberIn("1"), ArchivedInputFor("1");
      var send := MemberTransport(t, m);
      LongGuildIsNotListed(allowedGuildIds);
      LongGuildIsVisible(allowedGuildIds);
      hide LongGuildId;
      hide Listed;
      ThreadInIsPlain(g);
      MemberInIsPlain();
      assert |ArchivePath("1", Public)| != |ChannelPath("1")|;
      AnyMemberIsShown(env, t, m, parse, "1", Public, None, 50.0);
      AnyMemberIsShown(env, t, m, parse, "1", Public, None, ClampLimit(50.0, env.maxThreads));
      ArchivedInputParses("1");
      ArchivedToolPassesOn(env, send, parse, raw);
      assert ResourceUris.ScopeOfParameter("public") == "public" by {
        assert |"public"| != |"joined-private"|;
      }
      assert !MemberListed(allowedGuildIds, send, parse, m);
      assert ArchivedThreadsResource(env, send, parse, "1", "public").value.members[0] == m;
      assert ListArchivedThreadsTool(env, send, parse, raw).data.members[0] == m;
    }
  }

  // ---------------------------------------------------------------- guild channels

  /** The channels resource answers with channels for accepted guilds only. */
  ghost predicate ChannelsResourceListed(allowedGuildIds: string) {
    forall send, guildId ::
      var r := GuildChannelsResource(send, guildId);
      r.Ok? && r.value.channels != [] ==> Listed(allowedGuildIds, guildId)
  }

  /** Whatever the guild, the client lists any channel with non-blank texts when the response holds it. */
  lemma AnyChannelIsListed(c: Channel)
    requires !Blank(c.id) && !Blank(c.name) && !Blank(c.guildId) && (c.isThreadCapable <==> !c.kind.OtherChannel?)
    ensures ListChannels(Always(Array([RawChannel(c)])), c.guildId) == Ok(GuildChannels(c.guildId, [c], false))
  {
    hide NormalizeChannel;
    hide RawChannel;
    hide Blank;
    hide MapAll;
    ChannelReadsBack(c);
    OneImage(RawChannel(c), ChannelOf(c.guildId), c);
  }

  lemma ChannelsListedIff(allowedGuildIds: string)
    ensures ChannelsResourceListed(allowedGuildIds) <==> NamesNoGuild(allowedGuildIds)
  {
    hide NamesNoGuild;
    hide ListChannels;
    if !NamesNoGuild(allowedGuildIds) {
      var g := LongGuildId(allowedGuildIds);
      var c := Channel("1", g, "1", GuildText, true);
      LongGuildIsNotListed(allowedGuildIds);
      LongGuildIsVisible(allowedGuildIds);
      assert !Blank("1") by {
        assert !IsSpace("1"[0]);
      }
      hide LongGuildId;
      hide Blank;
      AnyChannelIsListed(c);
      hide Listed;
      assert GuildChannelsResource(Always(Array([RawChannel(c)])), g).value.channels != [];
    }
  }

  // ---------------------------------------------------------------- messages

  /** The thread a channel lookup finds, before its guild is judged. */
  function ThreadBehind(send: Transport, parse: DateParser, threadId: string): Result<Thread, Thrown> {
    var payload :- RequestJson(send(Request(ChannelPath(threadId), [])));
    NormalizeThread(payload, None, parse)
  }

  /** A messages resource with messages belongs to a thread whose guild, if a lookup finds one, is accepted. */
  ghost predicate MessagesResourceListed(allowedGuildIds: string, env: Env, parse: DateParser) {
    forall send, threadId, limit ::
      var r, t := ThreadMessagesResource(env, send, parse, threadId, limit), ThreadBehind(send, parse, threadId);
      r.Ok? && r.value.messages != [] && t.Ok? ==> Listed(allowedGuildIds, t.value.guildId)
  }

  /** Answers a channel lookup with one payload and all else with another. */
  function Either(path: string, thread: Json, other: Json): Transport {
    (request: Request) => Response(200, None, Ok(if request.path == path then thread else other))
  }

  function MessageIn(threadId: string): Message {
    Message("1", threadId, Author("1", "1", None), "", IsoString(0), None, Default, [], None)
  }

  lemma MessageInIsWellFormed(threadId: string)
    ensures WellFormedMessage(MessageIn(threadId))
  {
    hide IsoString;
    IsoIsVisible(0);
    assert !Blank("1") by {
      assert !IsSpace("1"[0]);
    }
  }

  /** Whatever the thread and the message, the resource shows the message when the response holds it. */
  lemma AnyMessageIsShown(env: Env, t: Thread, m: Message, parse: DateParser, limit: real)
    requires ReadsIso(parse) && Plain(t) && WellFormedMessage(m)
    ensures var send := Either(ChannelPath(m.threadId), RawThread(t), Array([RawMessage(m)]));
      && ThreadMessagesResource(env, send, parse, m.threadId, limit) == Ok(ThreadMessages(m.threadId, [m], false))
      && ThreadBehind(send, parse, m.threadId) == Ok(t)
  {
    hide NormalizeThread;
    hide NormalizeMessage;
    hide RawThread;
    hide RawMessage;
    hide Blank;
    hide ReadsIso;
    hide WellFormedMessage;
    hide MapAll;
    hide DecimalInt;
    UndatedThreadIsImage(t, parse);
    MessageReadsBack(m, parse);
    OneImage(RawMessage(m), MessageOf(m.threadId, parse), m);
    assert |MessagesPath(m.threadId)| != |ChannelPath(m.threadId)|;
  }

  lemma MessagesListedIff(allowedGuildIds: string, env: Env, parse: DateParser)
    requires ReadsIso(parse)
    ensures MessagesResourceListed(allowedGuildIds, env, parse) <==> NamesNoGuild(allowedGuildIds)
  {
    hide NamesNoGuild;
    hide ThreadMessagesResource;
    hide ThreadBehind;
    hide WellFormedMessage;
    hide Plain;
    hide ReadsIso;
    if !NamesNoGuild(allowedGuildIds) {
      var g := LongGuildId(allowedGuildIds);
      var t, m := ThreadIn(g), MessageIn("1");
      LongGuildIsNotListed(allowedGuildIds);
      LongGuildIsVisible(allowedGuildIds);
      hide LongGuildId;
      ThreadInIsPlain(g);
      MessageInIsWellFormed("1");
      AnyMessageIsShown(env, t, m, parse, 100.0);
      hide Listed;
      hide Either;
      hide RawThread;
      hide RawMessage;
      var send := Either(ChannelPath("1"), RawThread(t), Array([RawMessage(m)]));
      assert ThreadMessagesResource(env, send, parse, "1", 100.0).value.messages != [];
      assert ThreadBehind(send, parse, "1").value.guildId == g;
    }
  }
}
