/**
 * server/resources/ and server/registerResources.ts: the five resource URI printers, one reader for all
 * of them, and the URI templates the resources are registered under.
 */
module ResourceUris {
  import opened Wrappers
  import opened Text
  import opened Discord
  import opened Schema

  datatype ResourceRequest =
    | GuildChannelList(guildId: string)
    | GuildActiveList(guildId: string)
    | ArchivedList(channelId: string, scope: Scope)
    | ThreadMetadata(threadId: string)
    | ThreadHistory(threadId: string, limit: int)

  function GuildChannelsResourceUri(guildId: string): string {
    "discord://guild/" + guildId + "/channels"
  }

  function GuildActiveThreadsResourceUri(guildId: string): string {
    "discord://guild/" + guildId + "/threads/active"
  }

  function ScopeUriText(scope: Scope): string {
    if scope == JoinedPrivate then "joined-private" else ScopeText(scope)
  }

  function ArchivedThreadsResourceUri(channelId: string, scope: Scope): string {
    "discord://channel/" + channelId + "/threads/archived/" + ScopeUriText(scope)
  }

  function ThreadResourceUri(threadId: string): string {
    "discord://thread/" + threadId
  }

  function ThreadMessagesResourceUri(threadId: string, limit: int): string {
    "discord://thread/" + threadId + "/messages?limit=" + DecimalInt(limit)
  }

  function Uri(r: ResourceRequest): string {
    match r
    case GuildChannelList(g) => GuildChannelsResourceUri(g)
    case GuildActiveList(g) => GuildActiveThreadsResourceUri(g)
    case ArchivedList(c, s) => ArchivedThreadsResourceUri(c, s)
    case ThreadMetadata(t) => ThreadResourceUri(t)
    case ThreadHistory(t, l) => ThreadMessagesResourceUri(t, l)
  }

  /** How a registered handler reads the scope parameter before passing it to the client. */
  function ScopeOfParameter(parameter: string): string {
    if parameter == "joined-private" then "joined_private" else parameter
  }

  lemma ScopeParameterRoundTrip(scope: Scope)
    ensures ParseScope(ScopeOfParameter(ScopeUriText(scope))) == Ok(scope)
    ensures '/' !in ScopeUriText(scope)
  {
    ScopeRoundTrip(scope);
  }

  // ---------------------------------------------------------------- reading a URI

  const MESSAGES := "messages?limit="

  function DecodeParts(p: seq<string>): Option<ResourceRequest> {
    if |p| < 4 || p[0] != "discord:" || p[1] != "" then None
    else if |p| == 4 && p[2] == "thread" then Some(ThreadMetadata(p[3]))
    else if |p| == 5 && p[2] == "thread" && MESSAGES <= p[4] then
      (match ParseInt(p[4][|MESSAGES|..])
       case Some(limit) => Some(ThreadHistory(p[3], limit))
       case None => None)
    else if |p| == 5 && p[2] == "guild" && p[4] == "channels" then Some(GuildChannelList(p[3]))
    else if |p| == 6 && p[2] == "guild" && p[4] == "threads" && p[5] == "active" then Some(GuildActiveList(p[3]))
    else if |p| == 7 && p[2] == "channel" && p[4] == "threads" && p[5] == "archived" then
      (match ParseScope(ScopeOfParameter(p[6]))
       case Ok(scope) => Some(ArchivedList(p[3], scope))
       case Err(_) => None)
    else None
  }

  /** One reader for the URIs of all five resources. */
  function Decode(uri: string): Option<ResourceRequest> {
    DecodeParts(Split(uri, '/'))
  }

  // ---------------------------------------------------------------- the round trip

  function IdOf(r: ResourceRequest): string {
    match r
    case GuildChannelList(g) => g
    case GuildActiveList(g) => g
    case ArchivedList(c, _) => c
    case ThreadMetadata(t) => t
    case ThreadHistory(t, _) => t
  }

  lemma DecodesFrom(uri: string, parts: seq<string>)
    requires Split(uri, '/') == parts
    ensures Decode(uri) == DecodeParts(parts)
  {
  }

  /** The literal in front of an id: scheme, nothing, and the kind of the id. */
  predicate Opens(literal: string, kind: string) {
    literal == "discord:" + "/" + "" + "/" + kind + "/" && '/' !in kind
  }

  lemma OpeningLiterals()
    ensures Opens("discord://guild/", "guild") && Opens("discord://channel/", "channel") && Opens("discord://thread/", "thread")
  {
  }

  lemma SplitFourPieces(a: string, b: string, c: string, d: string)
    requires '/' !in a && '/' !in b && '/' !in c && '/' !in d
    ensures Split(a + "/" + b + "/" + c + "/" + d, '/') == [a, b, c, d]
  {
    SplitFree(a, '/');
    SplitFree(b, '/');
    SplitFree(c, '/');
    SplitFree(d, '/');
    hide Split;
    SplitAppend(a, '/', b);
    SplitAppend(a + "/" + b, '/', c);
    SplitAppend(a + "/" + b + "/" + c, '/', d);
  }

  lemma SplitOpening(literal: string, kind: string, id: string)
    requires Opens(literal, kind) && '/' !in id
    ensures Split(literal + id, '/') == ["discord:", "", kind, id]
  {
    hide Split;
    SplitFourPieces("discord:", "", kind, id);
  }

  lemma SplitClosing(front: string, literal: string, piece: string)
    requires literal == "/" + piece && '/' !in piece
    ensures Split(front + literal, '/') == Split(front, '/') + [piece]
  {
    SplitFree(piece, '/');
    SplitAppend(front, '/', piece);
    assert front + literal == front + ['/'] + piece;
  }

  lemma GuildChannelsDecodes(guildId: string)
    requires '/' !in guildId
    ensures Decode(GuildChannelsResourceUri(guildId)) == Some(GuildChannelList(guildId))
  {
    OpeningLiterals();
    hide Opens;
    SplitOpening("discord://guild/", "guild", guildId);
    SplitClosing("discord://guild/" + guildId, "/channels", "channels");
    DecodesFrom(GuildChannelsResourceUri(guildId), ["discord:", "", "guild", guildId, "channels"]);
  }

  lemma GuildActiveThreadsDecodes(guildId: string)
    requires '/' !in guildId
    ensures Decode(GuildActiveThreadsResourceUri(guildId)) == Some(GuildActiveList(guildId))
  {
    OpeningLiterals();
    hide Opens;
    SplitOpening("discord://guild/", "guild", guildId);
    SplitClosing("discord://guild/" + guildId, "/threads", "threads");
    SplitClosing("discord://guild/" + guildId + "/threads", "/active", "active");
    assert "/threads/active" == "/threads" + "/active";
    assert GuildActiveThreadsResourceUri(guildId) == "discord://guild/" + guildId + "/threads" + "/active";
    DecodesFrom(GuildActiveThreadsResourceUri(guildId), ["discord:", "", "guild", guildId, "threads", "active"]);
  }

  lemma ArchivedDecodes(channelId: string, scope: Scope)
    requires '/' !in channelId
    ensures Decode(ArchivedThreadsResourceUri(channelId, scope)) == Some(ArchivedList(channelId, scope))
  {
    OpeningLiterals();
    ScopeParameterRoundTrip(scope);
    hide Opens;
    hide ScopeUriText;
    hide ScopeOfParameter;
    hide ParseScope;
    var s := ScopeUriText(scope);
    var front := "discord://channel/" + channelId;
    SplitOpening("discord://channel/", "channel", channelId);
    SplitClosing(front, "/threads", "threads");
    SplitClosing(front + "/threads", "/archived", "archived");
    SplitClosing(front + "/threads" + "/archived", "/" + s, s);
    ArchivedSuffix(front, s);
    DecodesFrom(
      ArchivedThreadsResourceUri(channelId, scope), ["discord:", "", "channel", channelId, "threads", "archived", s]);
  }

  lemma ArchivedSuffix(front: string, s: string)
    ensures front + "/threads/archived/" + s == front + "/threads" + "/archived" + ("/" + s)
  {
    assert "/threads/archived/" == "/threads" + "/archived" + "/";
  }

  lemma ThreadDecodes(threadId: string)
    requires '/' !in threadId
    ensures Decode(ThreadResourceUri(threadId)) == Some(ThreadMetadata(threadId))
  {
    OpeningLiterals();
    hide Opens;
    SplitOpening("discord://thread/", "thread", threadId);
    DecodesFrom(ThreadResourceUri(threadId), ["discord:", "", "thread", threadId]);
  }

  lemma {:induction false} DecimalHasNoSlash(n: nat)
    ensures '/' !in Decimal(n)
  {
    assert !IsDigit('/');
  }

  lemma ThreadMessagesDecodes(threadId: string, limit: int)
    requires '/' !in threadId
    ensures Decode(ThreadMessagesResourceUri(threadId, limit)) == Some(ThreadHistory(threadId, limit))
  {
    OpeningLiterals();
    DecimalIntRoundTrip(limit);
    DecimalHasNoSlash(if limit < 0 then -limit else limit);
    var n := DecimalInt(limit);
    assert '/' !in n;
    hide Opens;
    hide DecimalInt;
    hide ParseInt;
    var front := "discord://thread/" + threadId;
    SplitOpening("discord://thread/", "thread", threadId);
    SplitClosing(front, "/" + (MESSAGES + n), MESSAGES + n);
    MessagesSuffix(front, n);
    assert (MESSAGES + n)[|MESSAGES|..] == n;
    DecodesFrom(ThreadMessagesResourceUri(threadId, limit), ["discord:", "", "thread", threadId, MESSAGES + n]);
  }

  lemma MessagesSuffix(front: string, n: string)
    ensures front + "/messages?limit=" + n == front + ("/" + (MESSAGES + n))
    ensures MESSAGES <= MESSAGES + n
  {
    assert "/messages?limit=" == "/" + MESSAGES;
  }

  lemma SlashFreeDecodes(r: ResourceRequest)
    requires '/' !in IdOf(r)
    ensures Decode(Uri(r)) == Some(r)
  {
    hide Decode;
    match r
    case GuildChannelList(g) => GuildChannelsDecodes(g);
    case GuildActiveList(g) => GuildActiveThreadsDecodes(g);
    case ArchivedList(c, s) => ArchivedDecodes(c, s);
    case ThreadMetadata(t) => ThreadDecodes(t);
    case ThreadHistory(t, l) => ThreadMessagesDecodes(t, l);
  }

  /** The reader takes an id from between two slashes. */
  lemma ReadIdsHaveNoSlash(p: seq<string>)
    requires FreeOf(p, '/') && DecodeParts(p).Some?
    ensures '/' !in IdOf(DecodeParts(p).value)
  {
    hide ParseInt;
    hide ScopeOfParameter;
    hide ParseScope;
  }

  /** This reader, which goes by the slashes alone, recovers a request exactly when its id holds none. */
  lemma UriRoundTrip(r: ResourceRequest)
    ensures Decode(Uri(r)) == Some(r) <==> '/' !in IdOf(r)
  {
    hide Uri;
    hide DecodeParts;
    if '/' !in IdOf(r) {
      SlashFreeDecodes(r);
    } else if Decode(Uri(r)).Some? {
      SplitPieces(Uri(r), '/');
      ReadIdsHaveNoSlash(Split(Uri(r), '/'));
    }
  }

  // ---------------------------------------------------------------- which requests share a URI

  /** The first request's id spells the second one's id and the rest of its URI. */
  predicate Spells(a: ResourceRequest, b: ResourceRequest) {
    && a.ThreadMetadata? && b.ThreadHistory?
    && a.threadId == b.threadId + "/messages?limit=" + DecimalInt(b.limit)
  }

  /** The first letter of the kind. */
  function KindLetter(r: ResourceRequest): char {
    match r
    case GuildChannelList(_) => 'g'
    case GuildActiveList(_) => 'g'
    case ArchivedList(_, _) => 'c'
    case ThreadMetadata(_) => 't'
    case ThreadHistory(_, _) => 't'
  }

  lemma KindLetterShows(r: ResourceRequest)
    ensures |Uri(r)| > 10 && Uri(r)[10] == KindLetter(r)
  {
    hide ScopeUriText;
    hide DecimalInt;
    assert "discord://guild/"[10] == 'g' && "discord://channel/"[10] == 'c' && "discord://thread/"[10] == 't';
  }

  lemma Enclosed(front: string, a: string, b: string, back: string)
    ensures front + a + back == front + b + back <==> a == b
  {
    SameBack(front + a, front + b, back);
    SameFront(front, a, b);
  }

  lemma GuildUrisDiffer(g: string, h: string)
    ensures GuildChannelsResourceUri(g) != GuildActiveThreadsResourceUri(h)
  {
    var x, y := "/channels", "/threads/active";
    assert x[|x| - 1] == 's' && y[|y| - 1] == 'e';
    EndsDiffer("discord://guild/" + g, x, "discord://guild/" + h, y, 0);
  }

  lemma ArchivedEndsDiffer(front: string, other: string, x: string, y: string)
    requires |x| >= 6 && |y| >= 6 && (x[|x| - 1] != y[|y| - 1] || (|x| >= 8 && |y| >= 8 && x[|x| - 8] != y[|y| - 8]))
    ensures front + x != other + y
  {
    if x[|x| - 1] != y[|y| - 1] {
      EndsDiffer(front, x, other, y, 0);
    } else {
      EndsDiffer(front, x, other, y, 7);
    }
  }

  function ArchivedEnd(scope: Scope): string {
    "/threads/archived/" + ScopeUriText(scope)
  }

  lemma ScopeEndsDiffer(s: Scope, t: Scope)
    requires s != t
    ensures var x, y := ArchivedEnd(s), ArchivedEnd(t);
      |x| >= 8 && |y| >= 8 && (x[|x| - 1] != y[|y| - 1] || x[|x| - 8] != y[|y| - 8])
  {
    assert "public"[5] == 'c' && "private"[6] == 'e' && "joined-private"[13] == 'e' && "joined-private"[6] == '-';
    assert "/threads/archived/"[17] == '/';
  }

  lemma ArchivedUrisCollideIff(c: string, s: Scope, d: string, t: Scope)
    ensures ArchivedThreadsResourceUri(c, s) == ArchivedThreadsResourceUri(d, t) <==> c == d && s == t
  {
    var front := "discord://channel/";
    assert ArchivedThreadsResourceUri(c, s) == front + c + ArchivedEnd(s);
    assert ArchivedThreadsResourceUri(d, t) == front + d + ArchivedEnd(t);
    hide ArchivedThreadsResourceUri;
    if s == t {
      Enclosed(front, c, d, ArchivedEnd(s));
    } else {
      ScopeEndsDiffer(s, t);
      hide ArchivedEnd;
      ArchivedEndsDiffer(front + c, front + d, ArchivedEnd(s), ArchivedEnd(t));
    }
  }

  lemma DecimalIntHasNoEquals(n: int)
    ensures '=' !in DecimalInt(n)
  {
    assert !IsDigit('=');
  }

  lemma HistoryEnd(front: string, n: string)
    ensures front + "/messages?limit=" + n == front + "/messages?limit" + ['='] + n
  {
    assert "/messages?limit=" == "/messages?limit" + "=";
  }

  lemma HistoryUrisCollideIff(t: string, n: int, u: string, m: int)
    ensures ThreadMessagesResourceUri(t, n) == ThreadMessagesResourceUri(u, m) <==> t == u && n == m
  {
    var front := "discord://thread/";
    DecimalIntHasNoEquals(n);
    DecimalIntHasNoEquals(m);
    DecimalIntRoundTrip(n);
    DecimalIntRoundTrip(m);
    hide DecimalInt;
    hide ParseInt;
    HistoryEnd(front + t, DecimalInt(n));
    HistoryEnd(front + u, DecimalInt(m));
    CutAtLast(front + t + "/messages?limit", DecimalInt(n), front + u + "/messages?limit", DecimalInt(m), '=');
    Enclosed(front, t, u, "/messages?limit");
  }

  lemma ThreadUrisCollideIff(t: string, u: string, n: int)
    ensures ThreadResourceUri(t) == ThreadMessagesResourceUri(u, n) <==> Spells(ThreadMetadata(t), ThreadHistory(u, n))
  {
    hide DecimalInt;
    var front, rest := "discord://thread/", u + "/messages?limit=" + DecimalInt(n);
    assert ThreadMessagesResourceUri(u, n) == front + rest;
    SameFront(front, t, rest);
  }

  /**
   * Two requests, of any kinds and with any ids, share a URI exactly when they are one request or one is for
   * the metadata of a thread whose id spells the other's thread, history and limit.
   */
  lemma UrisCollideIff(a: ResourceRequest, b: ResourceRequest)
    ensures Uri(a) == Uri(b) <==> a == b || Spells(a, b) || Spells(b, a)
  {
    KindLetterShows(a);
    KindLetterShows(b);
    hide GuildChannelsResourceUri;
    hide GuildActiveThreadsResourceUri;
    hide ArchivedThreadsResourceUri;
    hide ThreadResourceUri;
    hide ThreadMessagesResourceUri;
    hide Spells;
    NoSpelling(a, b);
    match (a, b)
    case (GuildChannelList(g), GuildChannelList(h)) => GuildChannelUrisCollideIff(g, h);
    case (GuildActiveList(g), GuildActiveList(h)) => GuildActiveUrisCollideIff(g, h);
    case (GuildChannelList(g), GuildActiveList(h)) => GuildUrisDiffer(g, h);
    case (GuildActiveList(g), GuildChannelList(h)) => GuildUrisDiffer(h, g);
    case (ArchivedList(c, s), ArchivedList(d, t)) => ArchivedUrisCollideIff(c, s, d, t);
    case (ThreadMetadata(t), ThreadMetadata(u)) => MetadataUrisCollideIff(t, u);
    case (ThreadHistory(t, n), ThreadHistory(u, m)) => HistoryUrisCollideIff(t, n, u, m);
    case (ThreadMetadata(t), ThreadHistory(u, n)) => ThreadUrisCollideIff(t, u, n);
    case (ThreadHistory(u, n), ThreadMetadata(t)) => ThreadUrisCollideIff(t, u, n);
    case _ =>
  }

  lemma NoSpelling(a: ResourceRequest, b: ResourceRequest)
    ensures Spells(a, b) ==> a.ThreadMetadata? && b.ThreadHistory?
    ensures Spells(b, a) ==> b.ThreadMetadata? && a.ThreadHistory?
  {
  }

  lemma GuildChannelUrisCollideIff(g: string, h: string)
    ensures GuildChannelsResourceUri(g) == GuildChannelsResourceUri(h) <==> g == h
  {
    Enclosed("discord://guild/", g, h, "/channels");
  }

  lemma GuildActiveUrisCollideIff(g: string, h: string)
    ensures GuildActiveThreadsResourceUri(g) == GuildActiveThreadsResourceUri(h) <==> g == h
  {
    Enclosed("discord://guild/", g, h, "/threads/active");
  }

  lemma MetadataUrisCollideIff(t: string, u: string)
    ensures ThreadResourceUri(t) == ThreadResourceUri(u) <==> t == u
  {
    SameFront("discord://thread/", t, u);
  }

  /** That one exception is met by every thread and limit. */
  lemma SlashInIdCollides(threadId: string, limit: int)
    ensures Uri(ThreadMetadata(threadId + "/messages?limit=" + DecimalInt(limit))) == Uri(ThreadHistory(threadId, limit))
    ensures '/' in IdOf(ThreadMetadata(threadId + "/messages?limit=" + DecimalInt(limit)))
  {
    hide DecimalInt;
    var n := DecimalInt(limit);
    var id := threadId + "/messages?limit=" + n;
    assert id[|threadId|] == '/';
    assert "discord://thread/" + id == "discord://thread/" + threadId + "/messages?limit=" + n;
  }

  // ---------------------------------------------------------------- templates, section 3.2.2 of RFC 6570

  predicate Unreserved(c: char) {
    'a' <= c <= 'z' || 'A' <= c <= 'Z' || IsDigit(c) || c == '-' || c == '.' || c == '_' || c == '~'
  }

  ghost predicate AllUnreserved(s: string) {
    forall i | 0 <= i < |s| :: Unreserved(s[i])
  }

  /** A value as simple expansion prints it: unreserved characters as they are, all others encoded. */
  function ExpandValue(s: string, encode: char -> string): string {
    if s == "" then "" else (if Unreserved(s[0]) then [s[0]] else encode(s[0])) + ExpandValue(s[1..], encode)
  }

  lemma {:induction false} UnreservedValue(s: string, encode: char -> string)
    requires AllUnreserved(s)
    ensures ExpandValue(s, encode) == s
  {
    if s != "" {
      UnreservedValue(s[1..], encode);
      assert [s[0]] + s[1..] == s;
    }
  }

  datatype TemplatePart = Literal(text: string) | Variable(name: string)

  /** Simple expansion; an undefined variable expands to nothing. */
  function Expand(template: seq<TemplatePart>, values: map<string, string>, encode: char -> string): string {
    if template == [] then ""
    else
      (match template[0]
       case Literal(text) => text
       case Variable(name) => if name in values then ExpandValue(values[name], encode) else "")
      + Expand(template[1..], values, encode)
  }

  function ArchivedThreadsTemplate(): seq<TemplatePart> {
    [Literal("discord://channel/"), Variable("channel_id"), Literal("/threads/archived/"), Variable("scope")]
  }

  function ThreadMessagesTemplate(): seq<TemplatePart> {
    [Literal("discord://thread/"), Variable("thread_id"), Literal("/messages?limit=100")]
  }

  function GuildChannelsTemplate(): seq<TemplatePart> {
    [Literal("discord://guild/"), Variable("guild_id"), Literal("/channels")]
  }

  function GuildActiveThreadsTemplate(): seq<TemplatePart> {
    [Literal("discord://guild/"), Variable("guild_id"), Literal("/threads/active")]
  }

  function ThreadTemplate(): seq<TemplatePart> {
    [Literal("discord://thread/"), Variable("thread_id")]
  }

  lemma ExpandOneVariable(l0: string, n0: string, l1: string, values: map<string, string>, encode: char -> string)
    requires n0 in values && AllUnreserved(values[n0])
    ensures Expand([Literal(l0), Variable(n0), Literal(l1)], values, encode) == l0 + values[n0] + l1
    ensures Expand([Literal(l0), Variable(n0)], values, encode) == l0 + values[n0]
  {
    UnreservedValue(values[n0], encode);
    hide ExpandValue;
    var t, u := [Literal(l0), Variable(n0), Literal(l1)], [Literal(l0), Variable(n0)];
    assert t[1..] == [Variable(n0), Literal(l1)] && t[1..][1..] == [Literal(l1)] && u[1..] == [Variable(n0)];
    assert Expand([Literal(l1)], values, encode) == l1;
    assert Expand([Variable(n0)], values, encode) == values[n0];
    assert Expand(t[1..], values, encode) == values[n0] + l1;
  }

  /** The other three templates expand to the printers' URIs. */
  lemma PlainTemplatesExpand(id: string, encode: char -> string)
    requires AllUnreserved(id)
    ensures Expand(GuildChannelsTemplate(), map["guild_id" := id], encode) == GuildChannelsResourceUri(id)
    ensures Expand(GuildActiveThreadsTemplate(), map["guild_id" := id], encode) == GuildActiveThreadsResourceUri(id)
    ensures Expand(ThreadTemplate(), map["thread_id" := id], encode) == ThreadResourceUri(id)
  {
    hide Expand;
    hide AllUnreserved;
    ExpandOneVariable("discord://guild/", "guild_id", "/channels", map["guild_id" := id], encode);
    ExpandOneVariable("discord://guild/", "guild_id", "/threads/active", map["guild_id" := id], encode);
    ExpandOneVariable("discord://thread/", "thread_id", "", map["thread_id" := id], encode);
  }

  lemma ExpandTwoVariables(
    l0: string, n0: string, l1: string, n1: string, values: map<string, string>, encode: char -> string
  )
    requires n0 in values && n1 in values && AllUnreserved(values[n0]) && AllUnreserved(values[n1])
    ensures Expand([Literal(l0), Variable(n0), Literal(l1), Variable(n1)], values, encode)
         == l0 + values[n0] + l1 + values[n1]
  {
    UnreservedValue(values[n0], encode);
    UnreservedValue(values[n1], encode);
    hide ExpandValue;
    var t := [Literal(l0), Variable(n0), Literal(l1), Variable(n1)];
    assert t[1..] == [Variable(n0), Literal(l1), Variable(n1)];
    assert t[1..][1..] == [Literal(l1), Variable(n1)];
    assert t[1..][1..][1..] == [Variable(n1)];
    assert Expand(t[1..][1..][1..], values, encode) == values[n1];
    assert Expand(t[1..][1..], values, encode) == l1 + values[n1];
  }

  /** Expanding the archived template with the hyphenated scope gives the printer's URI. */
  lemma ArchivedTemplateExpands(channelId: string, scope: Scope, encode: char -> string)
    requires AllUnreserved(channelId)
    ensures Expand(ArchivedThreadsTemplate(), map["channel_id" := channelId, "scope" := ScopeUriText(scope)], encode)
         == ArchivedThreadsResourceUri(channelId, scope)
  {
    var s := ScopeUriText(scope);
    assert AllUnreserved(s);
    hide ScopeUriText;
    hide AllUnreserved;
    hide Expand;
    assert |"channel_id"| != |"scope"|;
    var values := map["channel_id" := channelId, "scope" := s];
    ExpandTwoVariables("discord://channel/", "channel_id", "/threads/archived/", "scope", values, encode);
  }

  /** The messages template has the limit 100 written into it: it covers the printer's URI for that limit only. */
  lemma MessagesTemplateExpands(threadId: string, limit: int, encode: char -> string)
    requires AllUnreserved(threadId)
    ensures Expand(ThreadMessagesTemplate(), map["thread_id" := threadId], encode) == ThreadMessagesResourceUri(threadId, limit)
       <==> limit == 100
  {
    UnreservedValue(threadId, encode);
    hide ExpandValue;
    var values := map["thread_id" := threadId];
    var t := ThreadMessagesTemplate();
    assert t[1..][1..] == [Literal("/messages?limit=100")];
    assert Expand(t[1..][1..], values, encode) == "/messages?limit=100";
    assert Expand(t[1..], values, encode) == threadId + "/messages?limit=100";
    assert "/messages?limit=100" == "/messages?limit=" + "100";
    HundredIsDecimal();
    assert Expand(t, values, encode) == ThreadMessagesResourceUri(threadId, 100);
    assert '/' !in threadId;
    hide Expand;
    ThreadMessagesDecodes(threadId, limit);
    ThreadMessagesDecodes(threadId, 100);
  }

  lemma HundredIsDecimal()
    ensures DecimalInt(100) == "100"
  {
    assert Decimal(1) == "1";
    assert Decimal(10) == "10";
  }
}
