/** discord/client.ts and discord/permissions.ts: requests, the guild allowlist, and the client's operations. */
module Client {
  import opened Wrappers
  import opened Text
  import opened Guards
  import opened Sequences
  import opened Json
  import opened Discord
  import opened Normalize
  import Schema

  // ---------------------------------------------------------------- environment and allowlist

  datatype Env = Env(allowed: set<string>, maxThreads: int, maxMessages: int) {
    predicate Valid() {
      1 <= maxThreads <= 100 && 1 <= maxMessages <= 200
    }
  }

  /** The part of `loadDiscordFetchEnv` the client reads: two bounded ceilings and the parsed allowlist. */
  function LoadEnv(allowedGuildIds: string, maxThreads: int, maxMessages: int): (r: Option<Env>)
    ensures r.Some? <==> 1 <= maxThreads <= 100 && 1 <= maxMessages <= 200
    ensures r.Some? ==> r.value.Valid() && r.value.allowed == ParseCsvSet(allowedGuildIds)
    ensures r.Some? ==> r.value.maxThreads == maxThreads && r.value.maxMessages == maxMessages
  {
    if 1 <= maxThreads <= 100 && 1 <= maxMessages <= 200
    then Some(Env(ParseCsvSet(allowedGuildIds), maxThreads, maxMessages))
    else None
  }

  predicate GuildAllowed(env: Env, guildId: string) {
    env.allowed == {} || guildId in env.allowed
  }

  function AssertGuildAllowed(env: Env, guildId: string): Result<(), Thrown> {
    if GuildAllowed(env, guildId) then Ok(())
    else Err(Api(GuildNotAllowed, "Guild is not allowed by the configured allowlist.", false, Guild(guildId, env.allowed)))
  }

  /** Every field of the configured list is blank: no guild is named, and every guild is accepted. */
  predicate NamesNoGuild(allowedGuildIds: string) {
    forall i | 0 <= i < |Split(allowedGuildIds, ',')| :: Blank(Split(allowedGuildIds, ',')[i])
  }

  /** What the configured list says: no name at all, or one trimmed field that is the guild. */
  ghost predicate Listed(allowedGuildIds: string, guildId: string) {
    var fields := Split(allowedGuildIds, ',');
    || NamesNoGuild(allowedGuildIds)
    || (guildId != "" && exists i | 0 <= i < |fields| :: Trim(fields[i]) == guildId)
  }

  lemma AllowlistAccepts(allowedGuildIds: string, maxThreads: int, maxMessages: int, guildId: string)
    requires LoadEnv(allowedGuildIds, maxThreads, maxMessages).Some?
    ensures AssertGuildAllowed(LoadEnv(allowedGuildIds, maxThreads, maxMessages).value, guildId).Ok?
       <==> Listed(allowedGuildIds, guildId)
  {
    hide Blank;
    hide Trim;
    hide Split;
    var fields := Split(allowedGuildIds, ',');
    forall i | 0 <= i < |fields| ensures Trim(fields[i]) == "" <==> Blank(fields[i]) {
      TrimEmpty(fields[i]);
    }
    var names := FieldSet(fields);
    if !(forall i | 0 <= i < |fields| :: Blank(fields[i])) {
      var i :| 0 <= i < |fields| && !Blank(fields[i]);
      assert Trim(fields[i]) in names;
    }
  }

  /** A guild id longer than the whole list. */
  function LongGuildId(allowedGuildIds: string): string {
    seq(|allowedGuildIds| + 1, _ => 'x')
  }

  /** A list that names a guild does not name every guild. */
  lemma LongGuildIsNotListed(allowedGuildIds: string)
    requires !NamesNoGuild(allowedGuildIds)
    ensures !Listed(allowedGuildIds, LongGuildId(allowedGuildIds))
  {
    hide NamesNoGuild;
    hide Trim;
    hide Split;
    var fields := Split(allowedGuildIds, ',');
    SplitShorter(allowedGuildIds, ',');
    forall i | 0 <= i < |fields| ensures |Trim(fields[i])| <= |allowedGuildIds| {
      TrimShorter(fields[i]);
    }
    assert |LongGuildId(allowedGuildIds)| == |allowedGuildIds| + 1;
  }

  lemma LongGuildIsVisible(allowedGuildIds: string)
    ensures !Blank(LongGuildId(allowedGuildIds)) && LongGuildId(allowedGuildIds) != ""
  {
    assert LongGuildId(allowedGuildIds)[0] == 'x' && !IsSpace('x');
  }

  /** The loop of `listArchivedThreads`: the error of the first thread whose guild is not allowed. */
  function CheckGuilds(env: Env, threads: seq<Thread>): Result<(), Thrown> {
    if threads == [] then Ok(())
    else
      var _ :- CheckGuilds(env, threads[..|threads| - 1]);
      AssertGuildAllowed(env, threads[|threads| - 1].guildId)
  }

  /** `error` is the refusal of the first thread whose guild is not allowed. */
  ghost predicate FirstRefused(env: Env, threads: seq<Thread>, error: Thrown) {
    exists i | 0 <= i < |threads| ::
      AssertGuildAllowed(env, threads[i].guildId) == Err(error)
      && forall j | 0 <= j < i :: GuildAllowed(env, threads[j].guildId)
  }

  lemma {:induction false} CheckGuildsOutcome(env: Env, threads: seq<Thread>)
    ensures match CheckGuilds(env, threads)
      case Ok(_) => forall i | 0 <= i < |threads| :: GuildAllowed(env, threads[i].guildId)
      case Err(error) => FirstRefused(env, threads, error)
  {
    if threads != [] {
      var front, last := threads[..|threads| - 1], threads[|threads| - 1];
      assert forall j | 0 <= j < |front| :: threads[j] == front[j];
      CheckGuildsOutcome(env, front);
      AllowedIsOk(env, last.guildId);
      hide AssertGuildAllowed;
      hide GuildAllowed;
      if CheckGuilds(env, front).Err? {
        var error := CheckGuilds(env, front).error;
        var i :| 0 <= i < |front| && AssertGuildAllowed(env, front[i].guildId) == Err(error)
          && forall j | 0 <= j < i :: GuildAllowed(env, front[j].guildId);
        assert threads[i] == front[i];
      }
    }
  }

  lemma CheckGuildsEmpty(env: Env)
    ensures CheckGuilds(env, []).Ok?
  {
  }

  lemma CheckGuildsStep(env: Env, threads: seq<Thread>, i: nat)
    requires i < |threads| && CheckGuilds(env, threads[..i]).Ok?
    ensures CheckGuilds(env, threads[..i + 1]) == AssertGuildAllowed(env, threads[i].guildId)
  {
    assert threads[..i + 1][..i] == threads[..i];
  }

  lemma {:induction false} CheckGuildsPrefix(env: Env, threads: seq<Thread>, n: nat)
    requires n <= |threads|
    requires CheckGuilds(env, threads[..n]).Err?
    ensures CheckGuilds(env, threads) == CheckGuilds(env, threads[..n])
  {
    if n == |threads| {
      assert threads[..n] == threads;
    } else {
      var front := threads[..|threads| - 1];
      assert front[..n] == threads[..n];
      CheckGuildsPrefix(env, front, n);
    }
  }

  // ---------------------------------------------------------------- requests

  /** A request path with its query parameters in the order they are set, before URL encoding. */
  datatype Request = Request(path: string, query: seq<(string, string)>)

  /** A response, whose body is JSON or the message of the parse error, or a failed connection. */
  datatype HttpReply =
    | Response(status: int, retryAfter: Option<string>, body: Result<Json, string>)
    | ConnectionFailed(message: string)

  type Transport = Request -> HttpReply

  predicate IsSuccessStatus(status: int) {
    200 <= status <= 299
  }

  /** An empty `retry-after` header counts as none. */
  function StatusError(status: int, retryAfter: Option<string>, body: Json): Thrown {
    if status == 403 then
      Api(PermissionDenied, "Discord denied access to the requested resource.", false, Http(status, None, body))
    else if status == 404 then
      Api(NotFound, "Discord did not find the requested resource.", false, Http(status, None, body))
    else if status == 429 then
      Api(RateLimited, "Discord rate-limited the request.", true, Http(status, NonEmpty(retryAfter), body))
    else
      Api(DiscordApi, "Discord API returned HTTP " + DecimalInt(status) + ".", status >= 500, Http(status, None, body))
  }

  /** `requestDiscordJson` */
  function RequestJson(reply: HttpReply): Result<Json, Thrown> {
    match reply
    case ConnectionFailed(message) => Err(Plain(message))
    case Response(status, retryAfter, body) =>
      if !IsSuccessStatus(status) then Err(StatusError(status, retryAfter, if body.Ok? then body.value else Null))
      else if body.Err? then Err(Plain(body.error))
      else Ok(body.value)
  }

  function ChannelPath(channelId: string): string {
    "/channels/" + channelId
  }

  function ArchivePath(channelId: string, scope: Scope): string {
    match scope
    case Public => ChannelPath(channelId) + "/threads/archived/public"
    case Private => ChannelPath(channelId) + "/threads/archived/private"
    case JoinedPrivate => ChannelPath(channelId) + "/users/@me/threads/archived/private"
  }

  function MessagesPath(threadId: string): string {
    ChannelPath(threadId) + "/messages"
  }

  /** A parameter that is set only when its value is a non-empty string. */
  function Parameter(name: string, value: Option<string>): seq<(string, string)> {
    if value.Some? && value.value != "" then [(name, value.value)] else []
  }

  /** `threads.at(-1)?.archive_timestamp ?? null` */
  function NextCursor(threads: seq<Thread>): Option<string> {
    if threads == [] then None else threads[|threads| - 1].archiveTimestamp
  }

  // ---------------------------------------------------------------- operations

  function ListChannels(send: Transport, guildId: string): Result<GuildChannels, Thrown> {
    var payload :- RequestJson(send(Request("/guilds/" + guildId + "/channels", [])));
    if !payload.Array? then Err(Api(DiscordApi, "Guild channel payload was not an array.", false, NoDetails))
    else
      var channels :- MapAll(payload.items, ChannelOf(guildId));
      Schema.ParseGuildChannels(GuildChannels(guildId, channels, false))
  }

  function ListActive(send: Transport, parse: DateParser, guildId: string, parent: Option<string>): Result<ActiveThreads, Thrown> {
    var payload :- RequestJson(send(Request("/guilds/" + guildId + "/threads/active", Parameter("channel_id", parent))));
    var list :- NormalizeThreadList(payload, parent, parse);
    Schema.ParseActiveThreads(ActiveThreads(guildId, list.threads, list.members, false))
  }

  function ArchivedRequest(env: Env, channelId: string, scope: Scope, before: Option<string>, limit: real): Request {
    Request(
      ArchivePath(channelId, scope),
      Parameter("before", before) + [("limit", DecimalInt(ClampInt(limit, 1, env.maxThreads)))])
  }

  /** What is made of the payload of an archived listing. */
  function ArchivedFromPayload(env: Env, parse: DateParser, channelId: string, scope: Scope, payload: Json)
    : Result<ArchivedThreads, Thrown>
  {
    var list :- NormalizeThreadList(payload, Some(channelId), parse);
    var _ :- CheckGuilds(env, list.threads);
    Schema.ParseArchivedThreads(
      ArchivedThreads(channelId, scope, list.threads, list.members, list.hasMore, NextCursor(list.threads), false))
  }

  function ListArchived(
    env: Env, send: Transport, parse: DateParser,
    channelId: string, archiveScope: string, before: Option<string>, limit: real
  ): Result<ArchivedThreads, Thrown>
  {
    var scope :- Schema.ParseScope(archiveScope);
    var payload :- RequestJson(send(ArchivedRequest(env, channelId, scope, before, limit)));
    ArchivedFromPayload(env, parse, channelId, scope, payload)
  }

  /** `listArchivedThreads`: sets the query step by step and stops at the first thread of a disallowed guild. */
  method ListArchivedThreads(
    env: Env, send: Transport, parse: DateParser,
    channelId: string, archiveScope: string, before: Option<string>, limit: real
  ) returns (r: Result<ArchivedThreads, Thrown>)
    ensures r == ListArchived(env, send, parse, channelId, archiveScope, before, limit)
    ensures r.Ok? ==> forall i | 0 <= i < |r.value.threads| :: GuildAllowed(env, r.value.threads[i].guildId)
  {
    hide NormalizeThreadList;
    hide ArchivePath;
    hide ClampInt;
    hide DecimalInt;
    hide RequestJson;
    hide CheckGuilds;
    hide Schema.ParseScope;
    hide NextCursor;
    hide Schema.ThreadsSchema;
    assert CheckGuilds(env, []).Ok? by {
      CheckGuildsEmpty(env);
    }
    var scope :- Schema.ParseScope(archiveScope);
    var query := [];
    if before.Some? && before.value != "" {
      query := query + [("before", before.value)];
    }
    query := query + [("limit", DecimalInt(ClampInt(limit, 1, env.maxThreads)))];
    assert Request(ArchivePath(channelId, scope), query) == ArchivedRequest(env, channelId, scope, before, limit);
    var payload :- RequestJson(send(Request(ArchivePath(channelId, scope), query)));
    var list :- NormalizeThreadList(payload, Some(channelId), parse);
    for i := 0 to |list.threads|
      invariant CheckGuilds(env, list.threads[..i]).Ok?
      invariant forall j | 0 <= j < i :: GuildAllowed(env, list.threads[j].guildId)
    {
      var checked := AssertGuildAllowed(env, list.threads[i].guildId);
      CheckGuildsStep(env, list.threads, i);
      if checked.Err? {
        CheckGuildsPrefix(env, list.threads, i + 1);
        return Err(checked.error);
      }
    }
    assert list.threads[..|list.threads|] == list.threads;
    r := Schema.ParseArchivedThreads(
      ArchivedThreads(channelId, scope, list.threads, list.members, list.hasMore, NextCursor(list.threads), false));
  }

  function GetThread(env: Env, send: Transport, parse: DateParser, threadId: string): Result<Thread, Thrown> {
    var payload :- RequestJson(send(Request(ChannelPath(threadId), [])));
    var thread :- NormalizeThread(payload, None, parse);
    var _ :- AssertGuildAllowed(env, thread.guildId);
    Ok(thread)
  }

  datatype MessagesQuery = MessagesQuery(
    before: Option<string>,
    after: Option<string>,
    around: Option<string>,
    limit: Option<real>,
    includeSystem: bool
  )

  function MessagesRequest(env: Env, threadId: string, query: MessagesQuery): Request {
    Request(
      MessagesPath(threadId),
      Parameter("before", query.before) + Parameter("after", query.after) + Parameter("around", query.around)
      + if query.limit.Some? then [("limit", DecimalInt(ClampInt(query.limit.value, 1, env.maxMessages)))] else [])
  }

  /** The value a query gives a name. */
  function Lookup(query: seq<(string, string)>, name: string): Option<string> {
    if query == [] then None
    else if query[0].0 == name then Some(query[0].1)
    else Lookup(query[1..], name)
  }

  lemma {:induction false} LookupAppend(a: seq<(string, string)>, b: seq<(string, string)>, name: string)
    ensures Lookup(a + b, name) == if Lookup(a, name).Some? then Lookup(a, name) else Lookup(b, name)
  {
    if a == [] {
      assert a + b == b;
    } else {
      assert (a + b)[1..] == a[1..] + b;
      LookupAppend(a[1..], b, name);
    }
  }

  function NonEmpty(value: Option<string>): Option<string> {
    if value == Some("") then None else value
  }

  /** Each parameter of a messages request carries the value it was given, and empty values are left out. */
  lemma MessagesRequestParameters(env: Env, threadId: string, query: MessagesQuery)
    ensures var sent := MessagesRequest(env, threadId, query).query;
      && Lookup(sent, "before") == NonEmpty(query.before)
      && Lookup(sent, "after") == NonEmpty(query.after)
      && Lookup(sent, "around") == NonEmpty(query.around)
      && (query.limit.Some? ==> Lookup(sent, "limit") == Some(DecimalInt(ClampInt(query.limit.value, 1, env.maxMessages))))
  {
    var b, a, r := Parameter("before", query.before), Parameter("after", query.after), Parameter("around", query.around);
    var l := Parameter("limit", if query.limit.Some? then Some(DecimalInt(ClampInt(query.limit.value, 1, env.maxMessages))) else None);
    assert MessagesRequest(env, threadId, query).query == b + a + r + l;
    NamesDiffer();
    LookupFour(b, a, r, l, "before");
    LookupFour(b, a, r, l, "after");
    LookupFour(b, a, r, l, "around");
    LookupFour(b, a, r, l, "limit");
    hide Parameter;
    hide Lookup;
    hide MessagesRequest;
  }

  lemma NamesDiffer()
    ensures "before" != "around" && "after" != "limit"
    ensures "before" != "after" && "before" != "limit" && "around" != "after" && "around" != "limit"
  {
    assert "before"[0] != "around"[0] && "after"[0] != "limit"[0];
    assert |"before"| == |"around"| == 6 && |"after"| == |"limit"| == 5;
  }

  lemma LookupFour(
    b: seq<(string, string)>, a: seq<(string, string)>, r: seq<(string, string)>, l: seq<(string, string)>, name: string
  )
    ensures Lookup(b + a + r + l, name)
         == if Lookup(b, name).Some? then Lookup(b, name)
            else if Lookup(a, name).Some? then Lookup(a, name)
            else if Lookup(r, name).Some? then Lookup(r, name)
            else Lookup(l, name)
  {
    LookupAppend(b + a + r, l, name);
    LookupAppend(b + a, r, name);
    LookupAppend(b, a, name);
  }

  function WithoutSystem(messages: seq<Message>): seq<Message> {
    if messages == [] then []
    else
      WithoutSystem(messages[..|messages| - 1])
      + if messages[|messages| - 1].messageType != System then [messages[|messages| - 1]] else []
  }

  function GetMessages(
    env: Env, send: Transport, parse: DateParser, threadId: string, query: MessagesQuery
  ): Result<ThreadMessages, Thrown>
  {
    var payload :- RequestJson(send(MessagesRequest(env, threadId, query)));
    if !payload.Array? then Err(Api(DiscordApi, "Thread message payload was not an array.", false, NoDetails))
    else
      var messages :- MapAll(payload.items, MessageOf(threadId, parse));
      Ok(ThreadMessages(threadId, if query.includeSystem then messages else WithoutSystem(messages), false))
  }

  /** `getThreadMessages`: sets each query parameter in turn. */
  method GetThreadMessages(env: Env, send: Transport, parse: DateParser, threadId: string, query: MessagesQuery)
    returns (r: Result<ThreadMessages, Thrown>)
    ensures r == GetMessages(env, send, parse, threadId, query)
  {
    hide MapAll;
    hide WithoutSystem;
    hide MessagesPath;
    hide ClampInt;
    hide DecimalInt;
    hide RequestJson;
    hide MessageOf;
    var params := [];
    if query.before.Some? && query.before.value != "" {
      params := params + [("before", query.before.value)];
    }
    assert params == Parameter("before", query.before);
    if query.after.Some? && query.after.value != "" {
      params := params + [("after", query.after.value)];
    }
    assert params == Parameter("before", query.before) + Parameter("after", query.after);
    if query.around.Some? && query.around.value != "" {
      params := params + [("around", query.around.value)];
    }
    if query.limit.Some? {
      params := params + [("limit", DecimalInt(ClampInt(query.limit.value, 1, env.maxMessages)))];
    }
    assert params == MessagesRequest(env, threadId, query).query;
    var payload :- RequestJson(send(Request(MessagesPath(threadId), params)));
    if !payload.Array? {
      return Err(Api(DiscordApi, "Thread message payload was not an array.", false, NoDetails));
    }
    var messages :- MapAll(payload.items, MessageOf(threadId, parse));
    r := Ok(ThreadMessages(threadId, if query.includeSystem then messages else WithoutSystem(messages), false));
  }

  // ---------------------------------------------------------------- properties of the operations

  /** The positions of the raw messages that are kept: all, or those whose raw type is not the string SYSTEM. */
  function KeptMessages(items: seq<Json>, includeSystem: bool): set<nat> {
    set i: nat | i < |items| && (includeSystem || Field(items[i], "type") != Some(String("SYSTEM")))
  }

  lemma MessageTypeOfRaw(raw: Json, threadId: string, parse: DateParser)
    requires NormalizeMessage(raw, threadId, parse).Ok?
    ensures NormalizeMessage(raw, threadId, parse).value.messageType == System
       <==> Field(raw, "type") == Some(String("SYSTEM"))
  {
    hide Blank;
    hide NormalizeMessageType;
    hide NormalizeAttachments;
    hide ToIso8601;
    hide CreatedAt;
    hide ReferencedId;
    hide AuthorField;
  }

  lemma {:induction false} WithoutSystemIsPick(messages: seq<Message>, keep: set<nat>)
    requires forall i: nat | i < |messages| :: i in keep <==> messages[i].messageType != System
    ensures WithoutSystem(messages) == Pick(messages, keep)
  {
    if messages != [] {
      WithoutSystemIsPick(messages[..|messages| - 1], keep);
    }
  }

  /**
   * For every payload: the messages returned are the normalised messages at exactly the kept
   * positions, in order, and never more than the payload holds; a payload with a bad message gives
   * the error of the first one, whether or not that message would have been kept.
   */
  lemma MessagesOutcome(env: Env, send: Transport, parse: DateParser, threadId: string, query: MessagesQuery, payload: Json)
    requires RequestJson(send(MessagesRequest(env, threadId, query))) == Ok(payload) && payload.Array?
    ensures var items, f := payload.items, MessageOf(threadId, parse);
      match GetMessages(env, send, parse, threadId, query)
      case Ok(r) =>
        && AllOk(items, f) && |r.messages| <= |items|
        && exists all ::
          && Images(items, f, all)
          && r == ThreadMessages(threadId, Pick(all, KeptMessages(items, query.includeSystem)), false)
      case Err(error) => FirstError(items, f, error)
  {
    hide NormalizeMessage;
    hide MessagesRequest;
    var items, f := payload.items, MessageOf(threadId, parse);
    MapAllOutcome(items, f);
    var r := GetMessages(env, send, parse, threadId, query);
    if r.Ok? {
      var all := MapAll(items, f).value;
      var keep := KeptMessages(items, query.includeSystem);
      PickAtMost(all, keep);
      if query.includeSystem {
        PickAll(all, keep);
      } else {
        forall i: nat | i < |all| ensures i in keep <==> all[i].messageType != System {
          assert f(items[i]) == Ok(all[i]);
          MessageTypeOfRaw(items[i], threadId, parse);
        }
        WithoutSystemIsPick(all, keep);
      }
      assert Images(items, f, all);
    }
  }

  /** No more messages are returned than the request asks for, when the response holds no more. */
  lemma MessagesWithinLimit(env: Env, send: Transport, parse: DateParser, threadId: string, query: MessagesQuery)
    requires query.limit.Some? && GetMessages(env, send, parse, threadId, query).Ok?
    ensures var request, n := MessagesRequest(env, threadId, query), ClampInt(query.limit.value, 1, env.maxMessages);
      var reply, r := RequestJson(send(request)), GetMessages(env, send, parse, threadId, query).value;
      && Lookup(request.query, "limit") == Some(DecimalInt(n))
      && reply.Ok? && reply.value.Array?
      && (|reply.value.items| <= n ==> |r.messages| <= n)
  {
    MessagesRequestParameters(env, threadId, query);
    var reply := RequestJson(send(MessagesRequest(env, threadId, query)));
    MessagesOutcome(env, send, parse, threadId, query, reply.value);
    hide MessagesRequest;
    hide RequestJson;
    hide MapAll;
    hide KeptMessages;
    hide ClampInt;
    hide DecimalInt;
  }

  /** Every thread a listing returns is in a guild the configured list accepts. */
  lemma ArchivedThreadsAreListed(
    allowedGuildIds: string, maxThreads: int, maxMessages: int, send: Transport, parse: DateParser,
    channelId: string, archiveScope: string, before: Option<string>, limit: real
  )
    requires LoadEnv(allowedGuildIds, maxThreads, maxMessages).Some?
    ensures var env := LoadEnv(allowedGuildIds, maxThreads, maxMessages).value;
      var r := ListArchived(env, send, parse, channelId, archiveScope, before, limit);
      r.Ok? ==> forall i | 0 <= i < |r.value.threads| :: Listed(allowedGuildIds, r.value.threads[i].guildId)
  {
    hide NormalizeThreadList;
    hide Listed;
    hide ArchivedRequest;
    hide RequestJson;
    hide CheckGuilds;
    hide Schema.ParseScope;
    hide NextCursor;
    hide LoadEnv;
    hide AssertGuildAllowed;
    hide Schema.ThreadsSchema;
    var env := LoadEnv(allowedGuildIds, maxThreads, maxMessages).value;
    var r := ListArchived(env, send, parse, channelId, archiveScope, before, limit);
    if r.Ok? {
      var threads := r.value.threads;
      assert CheckGuilds(env, threads).Ok?;
      CheckGuildsOutcome(env, threads);
      forall i | 0 <= i < |threads| ensures Listed(allowedGuildIds, threads[i].guildId) {
        AllowedIsOk(env, threads[i].guildId);
        AllowlistAccepts(allowedGuildIds, maxThreads, maxMessages, threads[i].guildId);
      }
    }
  }

  lemma AllowedIsOk(env: Env, guildId: string)
    ensures AssertGuildAllowed(env, guildId).Ok? <==> GuildAllowed(env, guildId)
  {
  }

  /** So is the thread a lookup returns. */
  lemma ThreadIsListed(
    allowedGuildIds: string, maxThreads: int, maxMessages: int, send: Transport, parse: DateParser, threadId: string
  )
    requires LoadEnv(allowedGuildIds, maxThreads, maxMessages).Some?
    ensures var r := GetThread(LoadEnv(allowedGuildIds, maxThreads, maxMessages).value, send, parse, threadId);
      r.Ok? ==> Listed(allowedGuildIds, r.value.guildId)
  {
    hide NormalizeThread;
    hide Listed;
    hide RequestJson;
    hide ChannelPath;
    hide LoadEnv;
    hide AssertGuildAllowed;
    var env := LoadEnv(allowedGuildIds, maxThreads, maxMessages).value;
    var r := GetThread(env, send, parse, threadId);
    if r.Ok? {
      AllowlistAccepts(allowedGuildIds, maxThreads, maxMessages, r.value.guildId);
    }
  }
}
