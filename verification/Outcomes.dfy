/**
 * discord/endpoints.ts and discord/client.ts, operation by operation: the one request an operation makes, with
 * its path and parameters, and what it answers to each response.
 */
module Outcomes {
  import opened Wrappers
  import opened Text
  import opened Guards
  import opened Sequences
  import opened Json
  import opened Discord
  import opened Normalize
  import opened Client
  import Schema

  // ---------------------------------------------------------------- requests

  /** The request goes to a path and has exactly these parameters. */
  ghost predicate Asks(request: Request, path: string, parameters: map<string, string>) {
    && request.path == path
    && forall name :: Lookup(request.query, name) == if name in parameters then Some(parameters[name]) else None
  }

  /** A parameter that is left out when it has no value or an empty one. */
  function Given(name: string, value: Option<string>): map<string, string> {
    match value
    case Some(text) => if text == "" then map[] else map[name := text]
    case None => map[]
  }

  lemma LookupParameter(name: string, value: Option<string>, other: string)
    ensures Lookup(Parameter(name, value), other)
         == if other in Given(name, value) then Some(Given(name, value)[other]) else None
  {
    if value.Some? && value.value != "" {
      assert Parameter(name, value)[1..] == [];
    }
  }

  // ---------------------------------------------------------------- responses

  /** The error of a response that is no success. */
  predicate FailsWith(status: int, retryAfter: Option<string>, body: Json, error: Thrown) {
    && error.Api?
    && error.code == (match status case 403 => PermissionDenied case 404 => NotFound case 429 => RateLimited case _ => DiscordApi)
    && error.retryable == (status == 429 || status >= 500)
    && error.details == Http(status, if status == 429 && retryAfter != Some("") then retryAfter else None, body)
    && error.message == (match status
                         case 403 => "Discord denied access to the requested resource."
                         case 404 => "Discord did not find the requested resource."
                         case 429 => "Discord rate-limited the request."
                         case _ => "Discord API returned HTTP " + DecimalInt(status) + ".")
  }

  /**
   * A response is handed on exactly when its status is one of 200 to 299 and its body is JSON; a body that is not
   * JSON is an error of its own then, and counts as null in the error of any other status.
   */
  lemma ResponseRead(reply: HttpReply)
    ensures match reply
      case ConnectionFailed(message) => RequestJson(reply) == Err(Plain(message))
      case Response(status, retryAfter, body) =>
        if 200 <= status <= 299 then
          (match body
           case Ok(json) => RequestJson(reply) == Ok(json)
           case Err(message) => RequestJson(reply) == Err(Plain(message)))
        else
          RequestJson(reply).Err?
          && FailsWith(status, retryAfter, match body case Ok(json) => json case Err(_) => Null, RequestJson(reply).error)
  {
    hide DecimalInt;
  }

  // ---------------------------------------------------------------- guild channels

  lemma ChannelsOutcome(send: Transport, guildId: string) returns (request: Request)
    ensures Asks(request, "/guilds/" + guildId + "/channels", map[])
    ensures var r := ListChannels(send, guildId);
      match RequestJson(send(request))
      case Err(error) => r == Err(error)
      case Ok(Array(items)) =>
        (match r
         case Ok(list) =>
           Images(items, ChannelOf(guildId), list.channels) && list == GuildChannels(guildId, list.channels, false)
         case Err(error) => FirstError(items, ChannelOf(guildId), error))
      case Ok(_) => r == Err(Api(DiscordApi, "Guild channel payload was not an array.", false, NoDetails))
  {
    hide RequestJson;
    hide MapAll;
    hide ChannelOf;
    hide Images;
    hide FirstError;
    hide AllOk;
    request := Request("/guilds/" + guildId + "/channels", []);
    var reply := RequestJson(send(request));
    if reply.Ok? && reply.value.Array? {
      MapAllOutcome(reply.value.items, ChannelOf(guildId));
    }
  }

  // ---------------------------------------------------------------- thread lists

  /** Every raw thread and member of a payload fits the output schema. */
  ghost predicate PayloadFits(payload: Json, parse: DateParser) {
    && (forall i | 0 <= i < |RawThreads(payload)| :: RawThreadFits(RawThreads(payload)[i], parse))
    && (forall i | 0 <= i < |RawMembers(payload)| :: RawMemberFits(RawMembers(payload)[i], parse))
  }

  lemma ListFits(payload: Json, parent: Option<string>, parse: DateParser)
    requires NormalizeThreadList(payload, parent, parse).Ok?
    ensures var list := NormalizeThreadList(payload, parent, parse).value;
      Schema.ThreadsSchema(list.threads, list.members) <==> PayloadFits(payload, parse)
  {
    hide NormalizeThreadList;
    hide RawThreadFits;
    hide RawMemberFits;
    hide RawThreads;
    hide RawMembers;
    hide Schema.ThreadsSchema;
    ThreadListFits(payload, parent, parse);
  }

  /** The parent channel asked for is a parameter of the request and the parent of every thread listed. */
  lemma ActiveOutcome(send: Transport, parse: DateParser, guildId: string, parent: Option<string>) returns (request: Request)
    ensures Asks(request, "/guilds/" + guildId + "/threads/active", Given("channel_id", parent))
    ensures var r := ListActive(send, parse, guildId, parent);
      match RequestJson(send(request))
      case Err(error) => r == Err(error)
      case Ok(payload) =>
        match NormalizeThreadList(payload, parent, parse)
        case Err(error) => r == Err(error)
        case Ok(list) =>
          if PayloadFits(payload, parse) then r == Ok(ActiveThreads(guildId, list.threads, list.members, false))
          else r == Err(Invalid("ListActiveThreadsOutput"))
  {
    hide RequestJson;
    hide NormalizeThreadList;
    hide PayloadFits;
    hide Schema.ThreadsSchema;
    request := Request("/guilds/" + guildId + "/threads/active", Parameter("channel_id", parent));
    forall name ensures Lookup(request.query, name) == if name in Given("channel_id", parent) then Some(Given("channel_id", parent)[name]) else None {
      LookupParameter("channel_id", parent, name);
    }
    hide Parameter;
    hide Given;
    hide Lookup;
    var reply := RequestJson(send(request));
    if reply.Ok? && NormalizeThreadList(reply.value, parent, parse).Ok? {
      ListFits(reply.value, parent, parse);
    }
  }

  /** The guild is on the list, or there is no list. */
  predicate Accepts(env: Env, guildId: string) {
    env.allowed == {} || guildId in env.allowed
  }

  function Refusal(env: Env, guildId: string): Thrown {
    Api(GuildNotAllowed, "Guild is not allowed by the configured allowlist.", false, Guild(guildId, env.allowed))
  }

  /** The refusal of the first thread whose guild is not accepted. */
  ghost predicate RefusesFirst(env: Env, threads: seq<Thread>, error: Thrown) {
    exists i | 0 <= i < |threads| ::
      && !Accepts(env, threads[i].guildId) && error == Refusal(env, threads[i].guildId)
      && forall j | 0 <= j < i :: Accepts(env, threads[j].guildId)
  }

  lemma GuildsChecked(env: Env, threads: seq<Thread>)
    ensures CheckGuilds(env, threads).Ok? ==> forall i | 0 <= i < |threads| :: Accepts(env, threads[i].guildId)
    ensures CheckGuilds(env, threads).Err? ==> RefusesFirst(env, threads, CheckGuilds(env, threads).error)
  {
    CheckGuildsOutcome(env, threads);
    hide CheckGuilds;
    if CheckGuilds(env, threads).Err? {
      RefusedFirst(env, threads, CheckGuilds(env, threads).error);
    }
  }

  lemma RefusedFirst(env: Env, threads: seq<Thread>, error: Thrown)
    requires FirstRefused(env, threads, error)
    ensures RefusesFirst(env, threads, error)
  {
    var i :| 0 <= i < |threads| && AssertGuildAllowed(env, threads[i].guildId) == Err(error)
      && forall j | 0 <= j < i :: GuildAllowed(env, threads[j].guildId);
    assert !Accepts(env, threads[i].guildId) && error == Refusal(env, threads[i].guildId);
  }

  /** What the client makes of the payload of an archived listing: guilds are judged before the schema. */
  lemma ArchivedPayloadOutcome(env: Env, parse: DateParser, channelId: string, scope: Scope, payload: Json)
    ensures var r := ArchivedFromPayload(env, parse, channelId, scope, payload);
      match NormalizeThreadList(payload, Some(channelId), parse)
      case Err(error) => r == Err(error)
      case Ok(list) =>
        if exists i | 0 <= i < |list.threads| :: !Accepts(env, list.threads[i].guildId) then
          r.Err? && RefusesFirst(env, list.threads, r.error)
        else if !PayloadFits(payload, parse) then r == Err(Invalid("ListArchivedThreadsOutput"))
        else
          r == Ok(ArchivedThreads(
                    channelId, scope, list.threads, list.members, list.hasMore,
                    if list.threads == [] then None else list.threads[|list.threads| - 1].archiveTimestamp, false))
  {
    hide NormalizeThreadList;
    hide PayloadFits;
    hide CheckGuilds;
    hide Accepts;
    hide RefusesFirst;
    hide Schema.ThreadsSchema;
    if NormalizeThreadList(payload, Some(channelId), parse).Ok? {
      var list := NormalizeThreadList(payload, Some(channelId), parse).value;
      GuildsChecked(env, list.threads);
      if CheckGuilds(env, list.threads).Err? {
        RefusedIsNotAccepted(env, list.threads, CheckGuilds(env, list.threads).error);
      }
      ListFits(payload, Some(channelId), parse);
    }
  }

  lemma RefusedIsNotAccepted(env: Env, threads: seq<Thread>, error: Thrown)
    requires RefusesFirst(env, threads, error)
    ensures exists i | 0 <= i < |threads| :: !Accepts(env, threads[i].guildId)
  {
    hide Accepts;
  }

  /** The path and the parameters of an archived listing, scope by scope. */
  lemma ArchivedAsks(env: Env, channelId: string, scope: Scope, before: Option<string>, limit: real)
    ensures Asks(
      ArchivedRequest(env, channelId, scope, before, limit),
      match scope
      case Public => "/channels/" + channelId + "/threads/archived/public"
      case Private => "/channels/" + channelId + "/threads/archived/private"
      case JoinedPrivate => "/channels/" + channelId + "/users/@me/threads/archived/private",
      Given("before", before) + map["limit" := DecimalInt(ClampInt(limit, 1, env.maxThreads))])
  {
    hide DecimalInt;
    hide ClampInt;
    var l := [("limit", DecimalInt(ClampInt(limit, 1, env.maxThreads)))];
    assert "before" != "limit" by { assert |"before"| != |"limit"|; }
    var sent := ArchivedRequest(env, channelId, scope, before, limit).query;
    var given := Given("before", before) + map["limit" := DecimalInt(ClampInt(limit, 1, env.maxThreads))];
    forall name ensures Lookup(sent, name) == if name in given then Some(given[name]) else None {
      LookupAppend(Parameter("before", before), l, name);
      LookupParameter("before", before, name);
      assert l[1..] == [];
    }
    hide Parameter;
  }

  /** What the client answers to the response to its one request. */
  predicate Answers(
    env: Env, parse: DateParser, channelId: string, scope: Scope, reply: Result<Json, Thrown>, r: Result<ArchivedThreads, Thrown>
  )
  {
    match reply
    case Err(error) => r == Err(error)
    case Ok(payload) => r == ArchivedFromPayload(env, parse, channelId, scope, payload)
  }

  predicate NamesScope(text: string, scope: Scope) {
    match scope
    case Public => text == "public"
    case Private => text == "private"
    case JoinedPrivate => text == "joined_private"
  }

  /** A listing with one of the three scopes depends on that request alone; any other scope is refused. */
  lemma ArchivedOutcome(
    env: Env, send: Transport, parse: DateParser, channelId: string, archiveScope: string, before: Option<string>, limit: real
  )
    ensures var r := ListArchived(env, send, parse, channelId, archiveScope, before, limit);
      && (archiveScope !in {"public", "private", "joined_private"} ==> r == Err(Invalid("ArchiveScope")))
      && forall scope | NamesScope(archiveScope, scope) ::
           Answers(env, parse, channelId, scope, RequestJson(send(ArchivedRequest(env, channelId, scope, before, limit))), r)
  {
    hide RequestJson;
    hide ArchivedRequest;
    hide ArchivedFromPayload;
    forall scope | NamesScope(archiveScope, scope)
      ensures Answers(
        env, parse, channelId, scope, RequestJson(send(ArchivedRequest(env, channelId, scope, before, limit))),
        ListArchived(env, send, parse, channelId, archiveScope, before, limit))
    {
      Schema.ScopeRoundTrip(scope);
      assert Schema.ScopeText(scope) == archiveScope;
      hide Schema.ParseScope;
      hide Schema.ScopeText;
    }
  }

  // ---------------------------------------------------------------- one thread and its messages

  lemma ThreadOutcome(env: Env, send: Transport, parse: DateParser, threadId: string) returns (request: Request)
    ensures Asks(request, "/channels/" + threadId, map[])
    ensures var r := GetThread(env, send, parse, threadId);
      match RequestJson(send(request))
      case Err(error) => r == Err(error)
      case Ok(payload) =>
        match NormalizeThread(payload, None, parse)
        case Err(error) => r == Err(error)
        case Ok(thread) => r == if Accepts(env, thread.guildId) then Ok(thread) else Err(Refusal(env, thread.guildId))
  {
    hide RequestJson;
    hide NormalizeThread;
    request := Request("/channels/" + threadId, []);
  }

  /** The parameters of a messages request. */
  function MessageParameters(env: Env, query: MessagesQuery): map<string, string> {
    Given("before", query.before) + Given("after", query.after) + Given("around", query.around)
    + match query.limit
      case Some(limit) => map["limit" := DecimalInt(ClampInt(limit, 1, env.maxMessages))]
      case None => map[]
  }

  lemma MessagesAsk(env: Env, threadId: string, query: MessagesQuery)
    ensures Asks(MessagesRequest(env, threadId, query), "/channels/" + threadId + "/messages", MessageParameters(env, query))
  {
    hide DecimalInt;
    hide ClampInt;
    NamesDiffer();
    var limit := if query.limit.Some? then Some(DecimalInt(ClampInt(query.limit.value, 1, env.maxMessages))) else None;
    var l := if limit.Some? then [("limit", limit.value)] else [];
    var b, a, r := Parameter("before", query.before), Parameter("after", query.after), Parameter("around", query.around);
    assert MessagesRequest(env, threadId, query).query == b + a + r + l;
    var sent, given := MessagesRequest(env, threadId, query).query, MessageParameters(env, query);
    forall name ensures Lookup(sent, name) == if name in given then Some(given[name]) else None {
      LookupFour(b, a, r, l, name);
      LookupParameter("before", query.before, name);
      LookupParameter("after", query.after, name);
      LookupParameter("around", query.around, name);
      if limit.Some? {
        assert l[1..] == [];
      }
    }
    hide Parameter;
  }

  /** Beyond `MessagesOutcome`: failed requests and payloads that are no array. */
  lemma MessagesFailure(env: Env, send: Transport, parse: DateParser, threadId: string, query: MessagesQuery)
    ensures var r := GetMessages(env, send, parse, threadId, query);
      match RequestJson(send(MessagesRequest(env, threadId, query)))
      case Err(error) => r == Err(error)
      case Ok(payload) =>
        if payload.Array? then r.Ok? ==> r.value.threadId == threadId && !r.value.partial
        else r == Err(Api(DiscordApi, "Thread message payload was not an array.", false, NoDetails))
  {
    hide RequestJson;
    hide MessagesRequest;
    hide MapAll;
    hide WithoutSystem;
  }
}
