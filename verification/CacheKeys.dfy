/** cache/keys.ts: the five cache-key printers, and one reader for all of them. */
module CacheKeys {
  import opened Wrappers
  import opened Text
  import Discord
  import Schema

  /** The requests the keys stand for. Limits are the whole positive numbers of the input schemas. */
  datatype CacheRequest =
    | GuildChannels(guildId: string)
    | ActiveThreads(guildId: string, parent: Option<string>)
    | ArchivedThreads(channelId: string, scope: string, before: Option<string>, limit: Option<nat>)
    | Thread(threadId: string)
    | ThreadMessages(
        threadId: string, before: Option<string>, after: Option<string>, around: Option<string>, limit: Option<nat>)

  function GuildChannelsCacheKey(guildId: string): string {
    "guild:" + guildId + ":channels"
  }

  /** An empty parent counts as none. */
  function ActiveThreadsCacheKey(guildId: string, parent: Option<string>): string {
    if parent.Some? && parent.value != "" then "guild:" + guildId + ":parent:" + parent.value + ":active_threads"
    else "guild:" + guildId + ":active_threads"
  }

  function LimitText(limit: Option<nat>): string {
    match limit
    case Some(n) => Decimal(n)
    case None => "default"
  }

  function ArchivedThreadsCacheKey(channelId: string, scope: string, before: Option<string>, limit: Option<nat>): string {
    "channel:" + channelId + ":scope:" + scope + ":before:" + before.GetOr("latest") + ":limit:" + LimitText(limit)
  }

  function ThreadCacheKey(threadId: string): string {
    "thread:" + threadId
  }

  function ThreadMessagesCacheKey(
    threadId: string, before: Option<string>, after: Option<string>, around: Option<string>, limit: Option<nat>
  ): string
  {
    "thread:" + threadId + ":before:" + before.GetOr("") + ":after:" + after.GetOr("")
    + ":around:" + around.GetOr("") + ":limit:" + LimitText(limit)
  }

  function Key(r: CacheRequest): string {
    match r
    case GuildChannels(g) => GuildChannelsCacheKey(g)
    case ActiveThreads(g, p) => ActiveThreadsCacheKey(g, p)
    case ArchivedThreads(c, s, b, l) => ArchivedThreadsCacheKey(c, s, b, l)
    case Thread(t) => ThreadCacheKey(t)
    case ThreadMessages(t, b, a, r, l) => ThreadMessagesCacheKey(t, b, a, r, l)
  }

  // ---------------------------------------------------------------- reading a key

  function ReadLimit(s: string): Option<nat> {
    if s == "default" then None else ParseDecimal(s)
  }

  function ReadNonEmpty(s: string): Option<string> {
    if s == "" then None else Some(s)
  }

  function ReadBefore(s: string): Option<string> {
    if s == "latest" then None else Some(s)
  }

  function DecodeParts(p: seq<string>): Option<CacheRequest> {
    if |p| == 2 && p[0] == "thread" then Some(Thread(p[1]))
    else if |p| == 3 && p[0] == "guild" && p[2] == "channels" then Some(GuildChannels(p[1]))
    else if |p| == 3 && p[0] == "guild" && p[2] == "active_threads" then Some(ActiveThreads(p[1], None))
    else if |p| == 5 && p[0] == "guild" && p[2] == "parent" && p[4] == "active_threads" then Some(ActiveThreads(p[1], Some(p[3])))
    else if |p| == 10 && p[0] == "thread" && p[2] == "before" && p[4] == "after" && p[6] == "around" && p[8] == "limit" then
      Some(ThreadMessages(p[1], ReadNonEmpty(p[3]), ReadNonEmpty(p[5]), ReadNonEmpty(p[7]), ReadLimit(p[9])))
    else if |p| >= 8 && p[0] == "channel" && p[2] == "scope" && p[4] == "before" && p[|p| - 2] == "limit" then
      Some(ArchivedThreads(p[1], p[3], ReadBefore(Join(p[5..|p| - 2], ":")), ReadLimit(p[|p| - 1])))
    else None
  }

  /** One reader for the keys of all five families. */
  function Decode(key: string): Option<CacheRequest> {
    DecodeParts(Split(key, ':'))
  }

  // ---------------------------------------------------------------- the round trip

  predicate ColonFree(s: string) {
    ':' !in s
  }

  predicate OptionColonFree(s: Option<string>) {
    s.Some? ==> ColonFree(s.value)
  }

  /** Ids and the scope have no colon. The time an archived listing starts before may have any. */
  predicate ColonFreeIds(r: CacheRequest) {
    match r
    case GuildChannels(g) => ColonFree(g)
    case ActiveThreads(g, p) => ColonFree(g) && OptionColonFree(p)
    case ArchivedThreads(c, s, _, _) => ColonFree(c) && ColonFree(s)
    case Thread(t) => ColonFree(t)
    case ThreadMessages(t, b, a, r, _) =>
      ColonFree(t) && OptionColonFree(b) && OptionColonFree(a) && OptionColonFree(r)
  }

  function DropEmpty(s: Option<string>): Option<string> {
    if s == Some("") then None else s
  }

  function DropLatest(s: Option<string>): Option<string> {
    if s == Some("latest") then None else s
  }

  /** The request a key cannot tell from this one: empty optional ids, and a time called latest, count as none. */
  function Canonical(r: CacheRequest): CacheRequest {
    match r
    case ActiveThreads(g, p) => ActiveThreads(g, DropEmpty(p))
    case ArchivedThreads(c, s, b, l) => ArchivedThreads(c, s, DropLatest(b), l)
    case ThreadMessages(t, b, a, r, l) => ThreadMessages(t, DropEmpty(b), DropEmpty(a), DropEmpty(r), l)
    case _ => r
  }

  // Each literal of a key is a name with a colon on the side, or sides, where a value stands.

  predicate Opens(literal: string, name: string) {
    literal == name + ":" && ColonFree(name)
  }

  predicate Links(literal: string, name: string) {
    literal == ":" + name + ":" && ColonFree(name)
  }

  predicate Closes(literal: string, name: string) {
    literal == ":" + name && ColonFree(name)
  }

  lemma OpeningLiterals()
    ensures Opens("guild:", "guild") && Opens("channel:", "channel") && Opens("thread:", "thread")
  {
  }

  lemma LinkingLiterals()
    ensures Links(":parent:", "parent") && Links(":scope:", "scope") && Links(":limit:", "limit")
    ensures Links(":before:", "before") && Links(":after:", "after") && Links(":around:", "around")
  {
  }

  lemma ClosingLiterals()
    ensures Closes(":channels", "channels") && Closes(":active_threads", "active_threads")
  {
  }

  lemma SplitOpening(literal: string, name: string, rest: string)
    requires Opens(literal, name)
    ensures Split(literal + rest, ':') == [name] + Split(rest, ':')
  {
    SplitFree(name, ':');
    SplitAppend(name, ':', rest);
    assert literal + rest == name + [':'] + rest;
  }

  /** A name and its value are added behind; both values may hold colons. */
  lemma SplitLink(front: string, literal: string, name: string, value: string)
    requires Links(literal, name)
    ensures Split(front + literal + value, ':') == Split(front, ':') + [name] + Split(value, ':')
  {
    SplitFree(name, ':');
    SplitAppend(front, ':', name);
    SplitAppend(front + [':'] + name, ':', value);
    hide Split;
    assert front + literal + value == front + [':'] + name + [':'] + value;
  }

  lemma SplitClosing(front: string, literal: string, name: string)
    requires Closes(literal, name)
    ensures Split(front + literal, ':') == Split(front, ':') + [name]
  {
    SplitFree(name, ':');
    SplitAppend(front, ':', name);
    assert front + literal == front + [':'] + name;
  }

  lemma DigitsAreColonFree(s: string)
    requires AllDigits(s)
    ensures ':' !in s && s != "default"
  {
    assert !IsDigit(':') && !IsDigit("default"[0]);
  }

  lemma LimitReadsBack(limit: Option<nat>)
    ensures ReadLimit(LimitText(limit)) == limit && ':' !in LimitText(limit)
  {
    if limit.Some? {
      DecimalRoundTrip(limit.value);
      DigitsAreColonFree(Decimal(limit.value));
    }
  }

  lemma DecodesFrom(key: string, parts: seq<string>)
    requires Split(key, ':') == parts
    ensures Decode(key) == DecodeParts(parts)
  {
  }

  lemma GuildChannelsDecodes(guildId: string)
    requires ColonFree(guildId)
    ensures Decode(GuildChannelsCacheKey(guildId)) == Some(GuildChannels(guildId))
  {
    OpeningLiterals();
    ClosingLiterals();
    hide Opens;
    hide Closes;
    SplitOpening("guild:", "guild", guildId);
    SplitFree(guildId, ':');
    SplitClosing("guild:" + guildId, ":channels", "channels");
    DecodesFrom(GuildChannelsCacheKey(guildId), ["guild", guildId, "channels"]);
  }

  lemma ActiveThreadsDecodes(guildId: string, parent: Option<string>)
    requires ColonFree(guildId) && OptionColonFree(parent)
    ensures Decode(ActiveThreadsCacheKey(guildId, parent)) == Some(ActiveThreads(guildId, DropEmpty(parent)))
  {
    OpeningLiterals();
    LinkingLiterals();
    ClosingLiterals();
    hide Opens;
    hide Links;
    hide Closes;
    var key := ActiveThreadsCacheKey(guildId, parent);
    SplitOpening("guild:", "guild", guildId);
    SplitFree(guildId, ':');
    if parent.Some? && parent.value != "" {
      SplitFree(parent.value, ':');
      SplitLink("guild:" + guildId, ":parent:", "parent", parent.value);
      SplitClosing("guild:" + guildId + ":parent:" + parent.value, ":active_threads", "active_threads");
      DecodesFrom(key, ["guild", guildId, "parent", parent.value, "active_threads"]);
    } else {
      SplitClosing("guild:" + guildId, ":active_threads", "active_threads");
      DecodesFrom(key, ["guild", guildId, "active_threads"]);
    }
  }

  lemma ThreadDecodes(threadId: string)
    requires ColonFree(threadId)
    ensures Decode(ThreadCacheKey(threadId)) == Some(Thread(threadId))
  {
    OpeningLiterals();
    SplitOpening("thread:", "thread", threadId);
    SplitFree(threadId, ':');
    DecodesFrom(ThreadCacheKey(threadId), ["thread", threadId]);
  }

  /** Two names with colon-free values, then two with any. */
  lemma SplitFourPairs(
    l0: string, n0: string, v0: string, l1: string, n1: string, v1: string,
    l2: string, n2: string, v2: string, l3: string, n3: string, v3: string
  )
    requires Opens(l0, n0) && Links(l1, n1) && Links(l2, n2) && Links(l3, n3)
    requires ColonFree(v0) && ColonFree(v1)
    ensures Split(l0 + v0 + l1 + v1 + l2 + v2 + l3 + v3, ':')
         == [n0, v0, n1, v1, n2] + Split(v2, ':') + [n3] + Split(v3, ':')
  {
    SplitFree(v0, ':');
    SplitFree(v1, ':');
    hide Opens;
    hide Links;
    hide Split;
    SplitOpening(l0, n0, v0);
    SplitLink(l0 + v0, l1, n1, v1);
    SplitLink(l0 + v0 + l1 + v1, l2, n2, v2);
    SplitLink(l0 + v0 + l1 + v1 + l2 + v2, l3, n3, v3);
  }

  /** The time in the middle may hold colons: it is what stands between the fifth piece and the last two. */
  lemma ArchivedThreadsDecodes(channelId: string, scope: string, before: Option<string>, limit: Option<nat>)
    requires ColonFree(channelId) && ColonFree(scope)
    ensures Decode(ArchivedThreadsCacheKey(channelId, scope, before, limit))
         == Some(ArchivedThreads(channelId, scope, DropLatest(before), limit))
  {
    OpeningLiterals();
    LinkingLiterals();
    LimitReadsBack(limit);
    hide Opens;
    hide Links;
    hide LimitText;
    hide ReadLimit;
    hide DecodeParts;
    var b, l := before.GetOr("latest"), LimitText(limit);
    SplitFree(l, ':');
    SplitFourPairs("channel:", "channel", channelId, ":scope:", "scope", scope, ":before:", "before", b, ":limit:", "limit", l);
    JoinSplit(b, ':');
    var parts := ["channel", channelId, "scope", scope, "before"] + Split(b, ':') + ["limit", l];
    DecodesFrom(ArchivedThreadsCacheKey(channelId, scope, before, limit), parts);
    ArchivedParts(parts, channelId, scope, Split(b, ':'), l);
  }

  lemma ArchivedParts(p: seq<string>, channelId: string, scope: string, middle: seq<string>, l: string)
    requires |middle| >= 1
    requires p == ["channel", channelId, "scope", scope, "before"] + middle + ["limit", l]
    ensures DecodeParts(p) == Some(ArchivedThreads(channelId, scope, ReadBefore(Join(middle, ":")), ReadLimit(l)))
  {
    hide ReadLimit;
    hide ReadBefore;
    hide Join;
    assert |p| == |middle| + 7;
    assert p[0] == "channel" && p[1] == channelId && p[2] == "scope" && p[3] == scope && p[4] == "before";
    assert p[|p| - 2] == "limit" && p[|p| - 1] == l;
    assert p[5..|p| - 2] == middle;
  }

  /** Five names with colon-free values. */
  lemma SplitFivePairs(
    l0: string, n0: string, v0: string, l1: string, n1: string, v1: string, l2: string, n2: string, v2: string,
    l3: string, n3: string, v3: string, l4: string, n4: string, v4: string
  )
    requires Opens(l0, n0) && Links(l1, n1) && Links(l2, n2) && Links(l3, n3) && Links(l4, n4)
    requires ColonFree(v0) && ColonFree(v1) && ColonFree(v2) && ColonFree(v3) && ColonFree(v4)
    ensures Split(l0 + v0 + l1 + v1 + l2 + v2 + l3 + v3 + l4 + v4, ':') == [n0, v0, n1, v1, n2, v2, n3, v3, n4, v4]
  {
    SplitFree(v2, ':');
    SplitFree(v3, ':');
    SplitFree(v4, ':');
    hide Opens;
    hide Links;
    hide Split;
    SplitFourPairs(l0, n0, v0, l1, n1, v1, l2, n2, v2, l3, n3, v3);
    SplitLink(l0 + v0 + l1 + v1 + l2 + v2 + l3 + v3, l4, n4, v4);
  }

  lemma MessagesParts(threadId: string, b: string, a: string, r: string, l: string)
    ensures DecodeParts(["thread", threadId, "before", b, "after", a, "around", r, "limit", l])
         == Some(ThreadMessages(threadId, ReadNonEmpty(b), ReadNonEmpty(a), ReadNonEmpty(r), ReadLimit(l)))
  {
    hide ReadLimit;
    hide ReadNonEmpty;
  }

  lemma ThreadMessagesDecodes(
    threadId: string, before: Option<string>, after: Option<string>, around: Option<string>, limit: Option<nat>
  )
    requires ColonFree(threadId) && OptionColonFree(before) && OptionColonFree(after) && OptionColonFree(around)
    ensures Decode(ThreadMessagesCacheKey(threadId, before, after, around, limit))
         == Some(ThreadMessages(threadId, DropEmpty(before), DropEmpty(after), DropEmpty(around), limit))
  {
    OpeningLiterals();
    LinkingLiterals();
    LimitReadsBack(limit);
    var b, a, r, l := before.GetOr(""), after.GetOr(""), around.GetOr(""), LimitText(limit);
    hide Opens;
    hide Links;
    hide LimitText;
    hide ReadLimit;
    SplitFivePairs(
      "thread:", "thread", threadId, ":before:", "before", b, ":after:", "after", a,
      ":around:", "around", r, ":limit:", "limit", l);
    hide Split;
    hide DecodeParts;
    MessagesParts(threadId, b, a, r, l);
    DecodesFrom(
      ThreadMessagesCacheKey(threadId, before, after, around, limit),
      ["thread", threadId, "before", b, "after", a, "around", r, "limit", l]);
  }

  lemma ColonFreeDecodes(r: CacheRequest)
    requires ColonFreeIds(r)
    ensures Decode(Key(r)) == Some(Canonical(r))
  {
    hide Decode;
    match r
    case GuildChannels(g) => GuildChannelsDecodes(g);
    case ActiveThreads(g, p) => ActiveThreadsDecodes(g, p);
    case ArchivedThreads(c, s, b, l) => ArchivedThreadsDecodes(c, s, b, l);
    case Thread(t) => ThreadDecodes(t);
    case ThreadMessages(t, b, a, r, l) => ThreadMessagesDecodes(t, b, a, r, l);
  }

  /** The reader takes ids from between two colons. */
  lemma ReadIdsHaveNoColon(p: seq<string>)
    requires FreeOf(p, ':') && DecodeParts(p).Some?
    ensures ColonFreeIds(DecodeParts(p).value)
  {
    hide ReadLimit;
    hide ReadBefore;
    hide Join;
  }

  lemma CanonicalKeepsColons(r: CacheRequest)
    ensures ColonFreeIds(Canonical(r)) <==> ColonFreeIds(r)
  {
  }

  /**
   * This reader, which goes by the colons, gives back the request, up to optional values the printers
   * themselves treat as absent, exactly when the ids have no colon.
   */
  lemma KeyRoundTrip(r: CacheRequest)
    ensures Decode(Key(r)) == Some(Canonical(r)) <==> ColonFreeIds(r)
  {
    hide Key;
    hide Canonical;
    hide DecodeParts;
    hide ColonFreeIds;
    if ColonFreeIds(r) {
      ColonFreeDecodes(r);
    } else if Decode(Key(r)).Some? {
      SplitPieces(Key(r), ':');
      ReadIdsHaveNoColon(Split(Key(r), ':'));
      CanonicalKeepsColons(r);
    }
  }

  lemma CanonicalHasSameKey(r: CacheRequest)
    ensures Key(Canonical(r)) == Key(r)
  {
  }

  /** Two requests of any families share a key exactly when their canonical forms are one. */
  lemma KeysCollideIff(a: CacheRequest, b: CacheRequest)
    requires ColonFreeIds(a) && ColonFreeIds(b)
    ensures Key(a) == Key(b) <==> Canonical(a) == Canonical(b)
  {
    hide Decode;
    hide Key;
    hide Canonical;
    KeyRoundTrip(a);
    KeyRoundTrip(b);
    CanonicalHasSameKey(a);
    CanonicalHasSameKey(b);
  }

  /** No optional id is empty; the input schemas see to that. */
  predicate NoEmptyOption(r: CacheRequest) {
    match r
    case ActiveThreads(_, p) => p != Some("")
    case ThreadMessages(_, b, a, r, _) => b != Some("") && a != Some("") && r != Some("")
    case _ => true
  }

  /** A time called latest, which the schemas let through, counts as none. */
  function LatestAsNone(r: CacheRequest): CacheRequest {
    match r
    case ArchivedThreads(c, s, b, l) => ArchivedThreads(c, s, DropLatest(b), l)
    case _ => r
  }

  /** So no two different such requests share a key, a time called latest apart. */
  lemma KeysAreInjective(a: CacheRequest, b: CacheRequest)
    requires ColonFreeIds(a) && ColonFreeIds(b) && NoEmptyOption(a) && NoEmptyOption(b)
    ensures Key(a) == Key(b) <==> LatestAsNone(a) == LatestAsNone(b)
  {
    hide Key;
    KeysCollideIff(a, b);
  }

  // ---------------------------------------------------------------- keys of any ids

  datatype Family = ChannelFamily | ActiveFamily | ArchiveFamily | ThreadFamily

  function FamilyOf(r: CacheRequest): Family {
    match r
    case GuildChannels(_) => ChannelFamily
    case ActiveThreads(_, _) => ActiveFamily
    case ArchivedThreads(_, _, _, _) => ArchiveFamily
    case Thread(_) => ThreadFamily
    case ThreadMessages(_, _, _, _, _) => ThreadFamily
  }

  function ArchivedText(channelId: string, scope: string, before: string): string {
    channelId + ":scope:" + scope + ":before:" + before
  }

  function MessagesText(threadId: string, before: string, after: string, around: string): string {
    threadId + ":before:" + before + ":after:" + after + ":around:" + around
  }

  /** The text between the words that open and close the keys of a family. */
  function Body(r: CacheRequest): string {
    match r
    case GuildChannels(g) => g
    case ActiveThreads(g, p) => if p.Some? && p.value != "" then g + ":parent:" + p.value else g
    case ArchivedThreads(c, s, b, _) => ArchivedText(c, s, b.GetOr("latest"))
    case Thread(t) => t
    case ThreadMessages(t, b, a, r, l) => MessagesText(t, b.GetOr(""), a.GetOr(""), r.GetOr("")) + ":limit:" + LimitText(l)
  }

  predicate SameText(a: CacheRequest, b: CacheRequest) {
    && FamilyOf(a) == FamilyOf(b)
    && Body(a) == Body(b)
    && (a.ArchivedThreads? && b.ArchivedThreads? ==> a.limit == b.limit)
  }

  lemma GuildKeysDiffer(a: string, b: string)
    ensures "guild:" + a + ":channels" != "guild:" + b + ":active_threads"
  {
    var x, y := ":channels", ":active_threads";
    assert x[|x| - 2] == 'l' && y[|y| - 2] == 'd';
    EndsDiffer("guild:" + a, x, "guild:" + b, y, 1);
  }

  lemma Enclosed(front: string, a: string, b: string, back: string)
    ensures front + a + back == front + b + back <==> a == b
  {
    SameBack(front + a, front + b, back);
    SameFront(front, a, b);
  }

  /** The last colon of a key that ends in a limit stands before the limit. */
  lemma LimitsCut(a: string, l: Option<nat>, b: string, m: Option<nat>)
    ensures a + ":limit:" + LimitText(l) == b + ":limit:" + LimitText(m) <==> a == b && l == m
  {
    LimitReadsBack(l);
    LimitReadsBack(m);
    hide LimitText;
    hide ReadLimit;
    var x, y := LimitText(l), LimitText(m);
    LimitEnd(a, x);
    LimitEnd(b, y);
    CutAtLast(a + ":limit", x, b + ":limit", y, ':');
    SameBack(a, b, ":limit");
  }

  lemma LimitEnd(front: string, l: string)
    ensures front + ":limit:" + l == front + ":limit" + [':'] + l
  {
    assert ":limit:" == ":limit" + ":";
  }

  function Front(f: Family): string {
    match f
    case ChannelFamily => "guild:"
    case ActiveFamily => "guild:"
    case ArchiveFamily => "channel:"
    case ThreadFamily => "thread:"
  }

  function Back(r: CacheRequest): string {
    match r
    case GuildChannels(_) => ":channels"
    case ActiveThreads(_, _) => ":active_threads"
    case ArchivedThreads(_, _, _, l) => ":limit:" + LimitText(l)
    case _ => ""
  }

  lemma KeyParts(r: CacheRequest)
    ensures Key(r) == Front(FamilyOf(r)) + Body(r) + Back(r)
  {
    hide LimitText;
    match r
    case ArchivedThreads(c, s, b, l) =>
      ArchivedKeyParts("channel:", c, s, b.GetOr("latest"), LimitText(l));
    case ThreadMessages(t, b, a, r, l) =>
      MessagesKeyParts("thread:", t, b.GetOr(""), a.GetOr(""), r.GetOr(""), LimitText(l));
    case _ =>
  }

  lemma ArchivedKeyParts(front: string, c: string, s: string, b: string, l: string)
    ensures front + c + ":scope:" + s + ":before:" + b + ":limit:" + l == front + ArchivedText(c, s, b) + (":limit:" + l)
  {
  }

  lemma MessagesKeyParts(front: string, t: string, b: string, a: string, r: string, l: string)
    ensures front + t + ":before:" + b + ":after:" + a + ":around:" + r + ":limit:" + l
         == front + (MessagesText(t, b, a, r) + ":limit:" + l) + ""
  {
  }

  lemma FrontsDiffer(a: CacheRequest, b: CacheRequest)
    requires Key(a) == Key(b)
    ensures FamilyOf(a) == FamilyOf(b)
  {
    hide Key;
    hide Body;
    hide Back;
    KeyParts(a);
    KeyParts(b);
    assert Key(a)[0] == Front(FamilyOf(a))[0] && Key(b)[0] == Front(FamilyOf(b))[0];
    assert "guild:"[0] == 'g' && "channel:"[0] == 'c' && "thread:"[0] == 't';
    if FamilyOf(a) != FamilyOf(b) {
      GuildKeysDiffer(Body(a), Body(b));
      GuildKeysDiffer(Body(b), Body(a));
      GuildBacks(a);
      GuildBacks(b);
    }
  }

  lemma GuildBacks(r: CacheRequest)
    ensures FamilyOf(r) == ChannelFamily ==> Back(r) == ":channels"
    ensures FamilyOf(r) == ActiveFamily ==> Back(r) == ":active_threads"
  {
  }

  /**
   * Without any condition on ids: two requests share a key exactly when they are of one family, have one
   * text in it, and archived listings also one limit. A family holds lookups and messages of threads together.
   */
  lemma KeysAgreeIff(a: CacheRequest, b: CacheRequest)
    ensures Key(a) == Key(b) <==> SameText(a, b)
  {
    KeyParts(a);
    KeyParts(b);
    hide Key;
    hide Body;
    hide LimitText;
    if Key(a) == Key(b) {
      FrontsDiffer(a, b);
    }
    if FamilyOf(a) == FamilyOf(b) {
      var front := Front(FamilyOf(a));
      hide Front;
      if a.ArchivedThreads? {
        LimitsCut(front + Body(a), a.limit, front + Body(b), b.limit);
        Regroup(front + Body(a), ":limit:", LimitText(a.limit));
        Regroup(front + Body(b), ":limit:", LimitText(b.limit));
        SameFront(front, Body(a), Body(b));
      } else {
        Enclosed(front, Body(a), Body(b), Back(a));
      }
    }
  }

  lemma Regroup(a: string, b: string, c: string)
    ensures a + b + c == a + (b + c)
  {
  }

  /** Two message requests share a key exactly when their limits agree and their other parts spell one text. */
  lemma MessageKeysAgreeIff(a: CacheRequest, b: CacheRequest)
    requires a.ThreadMessages? && b.ThreadMessages?
    ensures Key(a) == Key(b) <==>
      && a.limit == b.limit
      && MessagesText(a.threadId, a.before.GetOr(""), a.after.GetOr(""), a.around.GetOr(""))
         == MessagesText(b.threadId, b.before.GetOr(""), b.after.GetOr(""), b.around.GetOr(""))
  {
    KeysAgreeIff(a, b);
    hide Key;
    hide MessagesText;
    hide LimitText;
    LimitsCut(
      MessagesText(a.threadId, a.before.GetOr(""), a.after.GetOr(""), a.around.GetOr("")), a.limit,
      MessagesText(b.threadId, b.before.GetOr(""), b.after.GetOr(""), b.around.GetOr("")), b.limit);
  }

  // ---------------------------------------------------------------- when a key is shared

  predicate LimitWithin(limit: Option<nat>, high: nat) {
    limit.Some? ==> 1 <= limit.value <= high
  }

  /** The requests the input schemas accept: ids not empty, one of the three scopes, limits in their range. */
  predicate Accepted(r: CacheRequest) {
    match r
    case GuildChannels(g) => g != ""
    case ActiveThreads(g, p) => g != "" && p != Some("")
    case ArchivedThreads(c, s, b, l) => c != "" && Schema.ParseScope(s).Ok? && b != Some("") && LimitWithin(l, 100)
    case Thread(t) => t != ""
    case ThreadMessages(t, b, a, r, l) => t != "" && b != Some("") && a != Some("") && r != Some("") && LimitWithin(l, 200)
  }

  /** The other request is accepted, is not merely another way to write an absent value, and has the key. */
  predicate SharesKey(r: CacheRequest, other: CacheRequest) {
    Accepted(other) && Canonical(other) == other && other != r && Key(other) == Key(r)
  }

  ghost predicate Shared(r: CacheRequest) {
    exists other :: SharesKey(r, other)
  }

  /** A link stands in the text at a place. */
  predicate At(s: string, k: int, link: string) {
    0 <= k <= |s| - |link| && s[k..k + |link|] == link
  }

  lemma CutAt(s: string, k: nat, link: string)
    requires At(s, k, link)
    ensures s == s[..k] + link + s[k + |link|..]
  {
  }

  lemma StandsAt(front: string, link: string, back: string)
    ensures At(front + link + back, |front|, link)
  {
  }

  /** The texts a limit prints as: the word for none, and the numbers in range, without a leading zero. */
  predicate IsLimitText(s: string, high: nat) {
    || s == "default"
    || (s != "" && (forall i | 0 <= i < |s| :: IsDigit(s[i])) && s[0] != '0'
        && ParseDecimal(s).Some? && ParseDecimal(s).value <= high)
  }

  lemma {:induction false} DecimalOfDigits(s: string) returns (n: nat)
    requires s != "" && AllDigits(s) && s[0] != '0'
    ensures Decimal(n) == s && n > 0
  {
    n := DigitValue(s[|s| - 1]);
    if |s| > 1 {
      var m := DecimalOfDigits(s[..|s| - 1]);
      n := 10 * m + n;
      assert Decimal(n) == Decimal(m) + [s[|s| - 1]];
    }
  }

  lemma LimitTexts(s: string, high: nat)
    ensures IsLimitText(s, high) <==> exists l :: LimitWithin(l, high) && LimitText(l) == s
  {
    hide ParseDecimal;
    if s == "default" {
      assert LimitText(None) == s;
    } else if IsLimitText(s, high) {
      var n := DecimalOfDigits(s);
      DecimalRoundTrip(n);
      assert LimitWithin(Some(n), high) && LimitText(Some(n)) == s;
    }
    forall l | LimitWithin(l, high) && LimitText(l) == s ensures IsLimitText(s, high) {
      if l.Some? {
        DecimalLeads(l.value);
        DecimalRoundTrip(l.value);
      }
    }
  }

  /** A thread id spells what a messages key has behind its first word. */
  ghost predicate SpellsMessages(id: string) {
    exists t, b, a, r, l :: t != "" && IsLimitText(l, 200) && id == MessagesText(t, b, a, r) + ":limit:" + l
  }

  /** What stands between the channel and the time of an archived listing. */
  function ScopeLink(scope: Discord.Scope): string {
    ":scope:" + Schema.ScopeText(scope) + ":before:"
  }

  /** The text can be cut at the place, with something on both sides of the link. */
  predicate CutsAt(text: string, k: nat, scope: Discord.Scope) {
    0 < k && k + |ScopeLink(scope)| < |text| && At(text, k, ScopeLink(scope))
  }

  /** The text of an archived listing can be cut into channel, scope and time in another way. */
  ghost predicate CutsOtherwise(channelId: string, scope: string, before: string) {
    exists k: nat, s ::
      && CutsAt(ArchivedText(channelId, scope, before), k, s)
      && (k != |channelId| || Schema.ScopeText(s) != scope)
  }

  lemma ParentShared(g: string)
    ensures Shared(ActiveThreads(g, None)) <==> exists k: nat :: 0 < k && At(g, k, ":parent:") && k + 8 < |g|
  {
    var r := ActiveThreads(g, None);
    if Shared(r) {
      var other :| SharesKey(r, other);
      KeysAgreeIff(other, r);
      StandsAt(other.guildId, ":parent:", other.parent.value);
      assert At(g, |other.guildId|, ":parent:");
    }
    if k: nat :| 0 < k && At(g, k, ":parent:") && k + 8 < |g| {
      CutAt(g, k, ":parent:");
      var other := ActiveThreads(g[..k], Some(g[k + 8..]));
      KeysAgreeIff(other, r);
      assert SharesKey(r, other);
    }
  }

  /** A listing under a parent shares its key with a listing of the guild whose id names that parent. */
  lemma ParentInIdCollides(g: string, p: string)
    requires p != ""
    ensures Key(ActiveThreads(g + ":parent:" + p, None)) == Key(ActiveThreads(g, Some(p)))
    ensures Shared(ActiveThreads(g, Some(p)))
  {
    KeysAgreeIff(ActiveThreads(g + ":parent:" + p, None), ActiveThreads(g, Some(p)));
    hide Key;
    var other := ActiveThreads(g + ":parent:" + p, None);
    assert SharesKey(ActiveThreads(g, Some(p)), other);
  }

  /** A messages request shares its key with the lookup of a thread whose id spells it. */
  lemma MessagesInIdCollide(r: CacheRequest)
    requires r.ThreadMessages?
    ensures Key(Thread(Body(r))) == Key(r) && Shared(r)
  {
    hide Key;
    hide MessagesText;
    hide LimitText;
    var other := Thread(Body(r));
    KeysAgreeIff(other, r);
    assert |Body(r)| >= |":limit:"|;
    assert SharesKey(r, other);
  }

  /** Links inside a channel id can be taken for the scope and the time. */
  lemma LinksInChannelCollide(c: string, s: string, b: string, t: string, e: string, limit: Option<nat>)
    ensures Key(ArchivedThreads(c + ":scope:" + s + ":before:" + b, t, Some(e), limit))
         == Key(ArchivedThreads(c, s, Some(b + ":scope:" + t + ":before:" + e), limit))
  {
    var x := ArchivedThreads(c + ":scope:" + s + ":before:" + b, t, Some(e), limit);
    var y := ArchivedThreads(c, s, Some(b + ":scope:" + t + ":before:" + e), limit);
    KeysAgreeIff(x, y);
    hide Key;
    assert ArchivedText(x.channelId, t, e) == ArchivedText(c, s, y.before.value);
  }

  lemma ChannelsNotShared(g: string)
    ensures !Shared(GuildChannels(g))
  {
    hide Key;
    forall other | Key(other) == Key(GuildChannels(g)) ensures other == GuildChannels(g) {
      KeysAgreeIff(other, GuildChannels(g));
    }
  }

  lemma ThreadShared(t: string)
    ensures Shared(Thread(t)) <==> SpellsMessages(t)
  {
    var r := Thread(t);
    hide Key;
    hide IsLimitText;
    hide LimitText;
    hide MessagesText;
    if Shared(r) {
      var other :| SharesKey(r, other);
      KeysAgreeIff(other, r);
      LimitTexts(LimitText(other.limit), 200);
    }
    if SpellsMessages(t) {
      var u, b, a, n, l :| u != "" && IsLimitText(l, 200) && t == MessagesText(u, b, a, n) + ":limit:" + l;
      LimitTexts(l, 200);
      var limit :| LimitWithin(limit, 200) && LimitText(limit) == l;
      var other := ThreadMessages(u, ReadNonEmpty(b), ReadNonEmpty(a), ReadNonEmpty(n), limit);
      KeysAgreeIff(other, r);
      assert SharesKey(r, other);
    }
  }

  lemma AcceptedScope(s: string)
    ensures Schema.ParseScope(s).Ok? <==> exists scope :: Schema.ScopeText(scope) == s
  {
    if Schema.ParseScope(s).Ok? {
      assert Schema.ScopeText(Schema.ParseScope(s).value) == s;
    }
    forall scope | Schema.ScopeText(scope) == s ensures Schema.ParseScope(s).Ok? {
      Schema.ScopeRoundTrip(scope);
    }
  }

  lemma ArchivedTextCuts(c: string, scope: Discord.Scope, b: string)
    ensures var text, link := ArchivedText(c, Schema.ScopeText(scope), b), ScopeLink(scope);
      && text == c + link + b
      && At(text, |c|, link) && text[..|c|] == c && text[|c| + |link|..] == b
  {
    hide Schema.ScopeText;
    var s := Schema.ScopeText(scope);
    assert ArchivedText(c, s, b) == c + ScopeLink(scope) + b;
    StandsAt(c, ScopeLink(scope), b);
  }

  lemma CutMakesText(text: string, k: nat, scope: Discord.Scope)
    requires CutsAt(text, k, scope)
    ensures var c, b := text[..k], text[k + |ScopeLink(scope)|..];
      c != "" && b != "" && ArchivedText(c, Schema.ScopeText(scope), b) == text
  {
    hide ScopeLink;
    CutAt(text, k, ScopeLink(scope));
    hide ArchivedText;
    ArchivedTextCuts(text[..k], scope, text[k + |ScopeLink(scope)|..]);
  }

  lemma ArchivedShared(c: string, s: string, before: Option<string>, limit: Option<nat>)
    requires before != Some("latest")
    ensures Shared(ArchivedThreads(c, s, before, limit))
       <==> LimitWithin(limit, 100) && CutsOtherwise(c, s, before.GetOr("latest"))
  {
    var r, b := ArchivedThreads(c, s, before, limit), before.GetOr("latest");
    var text := ArchivedText(c, s, b);
    hide Key;
    hide ArchivedText;
    hide At;
    hide ScopeLink;
    hide Schema.ScopeText;
    hide Schema.ParseScope;
    if Shared(r) {
      var other :| SharesKey(r, other);
      KeysAgreeIff(other, r);
      AcceptedScope(other.scope);
      var scope :| Schema.ScopeText(scope) == other.scope;
      var e := other.before.GetOr("latest");
      ArchivedTextCuts(other.channelId, scope, e);
      if |other.channelId| == |c| && other.scope == s {
        SameCut(c, s, b, other.channelId, e);
      }
      assert CutsAt(text, |other.channelId|, scope);
    }
    if LimitWithin(limit, 100) && CutsOtherwise(c, s, b) {
      var k: nat, scope :| CutsAt(text, k, scope) && (k != |c| || Schema.ScopeText(scope) != s);
      CutMakesText(text, k, scope);
      AcceptedScope(Schema.ScopeText(scope));
      var other := ArchivedThreads(text[..k], Schema.ScopeText(scope), ReadBefore(text[k + |ScopeLink(scope)|..]), limit);
      KeysAgreeIff(other, r);
      assert SharesKey(r, other);
    }
  }

  /** One cut gives one channel, scope and time. */
  lemma SameCut(c: string, s: string, b: string, d: string, e: string)
    requires ArchivedText(c, s, b) == ArchivedText(d, s, e) && |c| == |d|
    ensures c == d && b == e
  {
    var link := ":scope:" + s + ":before:";
    assert ArchivedText(c, s, b) == c + link + b && ArchivedText(d, s, e) == d + link + e;
    assert (c + link + b)[..|c|] == c && (d + link + e)[..|d|] == d;
    assert (c + link + b)[|c| + |link|..] == b && (d + link + e)[|d| + |link|..] == e;
  }

  /** For a listing with one of the three scopes another cut is at another place. */
  lemma NamedScopeCutsIff(channelId: string, scope: Discord.Scope, before: string)
    ensures var text := ArchivedText(channelId, Schema.ScopeText(scope), before);
      CutsOtherwise(channelId, Schema.ScopeText(scope), before) <==> exists k: nat, s :: k != |channelId| && CutsAt(text, k, s)
  {
    var text := ArchivedText(channelId, Schema.ScopeText(scope), before);
    ArchivedTextCuts(channelId, scope, before);
    hide ArchivedText;
    forall s | CutsAt(text, |channelId|, s) ensures s == scope {
      OneScopeStands(text, |channelId|, s, scope);
    }
    hide CutsAt;
    hide Schema.ScopeText;
  }

  lemma OneScopeStands(text: string, k: nat, s: Discord.Scope, t: Discord.Scope)
    requires At(text, k, ScopeLink(s)) && At(text, k, ScopeLink(t))
    ensures s == t
  {
    var x, y := ScopeLink(s), ScopeLink(t);
    assert text[k..k + |x|][7] == text[k + 7] == text[k..k + |y|][7];
    assert text[k..k + |x|][8] == text[k + 8] == text[k..k + |y|][8];
    assert x[7] == Schema.ScopeText(s)[0] && x[8] == Schema.ScopeText(s)[1];
    assert y[7] == Schema.ScopeText(t)[0] && y[8] == Schema.ScopeText(t)[1];
  }

  /**
   * When a request the input schemas accept shares the key, family by family, with no condition on ids: guild
   * channels never; a guild's active threads when the id names a parent; a thread when its id spells a messages
   * request; an archived listing when its text can be cut otherwise, into one of the three scopes; active
   * threads under a parent, and messages, always.
   */
  lemma SharedIff(r: CacheRequest)
    requires Canonical(r) == r
    ensures Shared(r) <==>
      match r
      case GuildChannels(_) => false
      case ActiveThreads(g, None) => exists k: nat :: 0 < k && At(g, k, ":parent:") && k + 8 < |g|
      case ActiveThreads(_, Some(_)) => true
      case ArchivedThreads(c, s, b, l) => LimitWithin(l, 100) && CutsOtherwise(c, s, b.GetOr("latest"))
      case Thread(t) => SpellsMessages(t)
      case ThreadMessages(_, _, _, _, _) => true
  {
    hide Key;
    hide Shared;
    hide CutsOtherwise;
    hide LimitWithin;
    hide SpellsMessages;
    hide At;
    match r
    case GuildChannels(g) => ChannelsNotShared(g);
    case ActiveThreads(g, None) => ParentShared(g);
    case ActiveThreads(g, Some(p)) => ParentInIdCollides(g, p);
    case ArchivedThreads(c, s, b, l) => ArchivedShared(c, s, b, l);
    case Thread(t) => ThreadShared(t);
    case ThreadMessages(_, _, _, _, _) => MessagesInIdCollide(r);
  }
}
