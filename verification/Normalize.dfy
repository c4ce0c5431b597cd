/** discord/normalize.ts: raw payloads to normalised records, or the first error thrown on the way. */
module Normalize {
  import opened Wrappers
  import opened Text
  import opened Calendar
  import opened Json
  import opened Discord
  import Schema

  /** `assertNonEmptyString` on a string; trimming leaves nothing exactly of a blank one (`TrimmedAway`). */
  function AssertNonEmpty(value: string, message: string): Result<string, Thrown> {
    if Blank(value) then Err(Plain(message)) else Ok(value)
  }

  lemma TrimmedAway(value: string, message: string)
    ensures AssertNonEmpty(value, message) == if Trim(value) == "" then Err(Plain(message)) else Ok(value)
  {
    TrimEmpty(value);
  }

  function NormalizeChannelType(raw: Option<Json>): ChannelType {
    match raw
    case Some(String(s)) =>
      if s == "GUILD_TEXT" then GuildText
      else if s == "GUILD_FORUM" then GuildForum
      else if s == "GUILD_ANNOUNCEMENT" then GuildAnnouncement
      else if s == "GUILD_MEDIA" then GuildMedia
      else OtherChannel
    case Some(Number(n)) =>
      if n == 0.0 then GuildText
      else if n == 15.0 then GuildForum
      else if n == 5.0 then GuildAnnouncement
      else if n == 16.0 then GuildMedia
      else OtherChannel
    case _ => OtherChannel
  }

  function NormalizeThreadType(raw: Option<Json>): Result<ThreadType, Thrown> {
    if raw == Some(String("PUBLIC_THREAD")) || raw == Some(Number(11.0)) then Ok(PublicThread)
    else if raw == Some(String("PRIVATE_THREAD")) || raw == Some(Number(12.0)) then Ok(PrivateThread)
    else if raw == Some(String("ANNOUNCEMENT_THREAD")) || raw == Some(Number(10.0)) then Ok(AnnouncementThread)
    else Err(Api(UnsupportedChannelType, "Unsupported thread type", false, RawType(raw)))
  }

  function NormalizeMessageType(raw: Option<Json>): (r: MessageType)
    ensures r == System <==> raw == Some(String("SYSTEM"))
  {
    if raw == Some(String("DEFAULT")) || raw == Some(Number(0.0)) then Default
    else if raw == Some(String("REPLY")) || raw == Some(Number(1.0)) then Reply
    else if raw == Some(String("THREAD_STARTER_MESSAGE")) || raw == Some(Number(19.0)) then ThreadStarterMessage
    else if raw == Some(String("SYSTEM")) then System
    else OtherMessage
  }

  /** Entries that are no records are dropped; a value that is no array counts as empty. */
  function NormalizeAttachments(raw: Option<Json>): seq<Attachment> {
    if raw.Some? && raw.value.Array? then AttachmentList(raw.value.items) else []
  }

  function AttachmentList(items: seq<Json>): seq<Attachment> {
    if items == [] then []
    else
      var a := items[0];
      (if !IsRecord(Some(a)) then []
       else [Attachment(
               AsString(Field(a, "id")),
               AsString(Field(a, "filename")),
               StringOrNull(Field(a, "content_type")),
               AsNumber(Field(a, "size"), 0.0),
               AsString(Field(a, "url")))])
      + AttachmentList(items[1..])
  }

  function NormalizeChannel(raw: Json, guildId: string): Result<Channel, Thrown> {
    if !IsRecord(Some(raw)) then Err(Api(DiscordApi, "Channel payload was not an object.", false, NoDetails))
    else
      var kind := NormalizeChannelType(Field(raw, "type"));
      var id :- AssertNonEmpty(AsString(Field(raw, "id")), "Channel payload is missing an id.");
      var name :- AssertNonEmpty(AsString(Field(raw, "name")), "Channel payload is missing a name.");
      var guild :- AssertNonEmpty(guildId, "Channel payload is missing a guild id.");
      Ok(Channel(id, guild, name, kind, Schema.ThreadCapable(kind)))
  }

  /** `metadata?.archive_timestamp`, where only a record counts as metadata. */
  function MetadataTimestamp(raw: Json): Option<Json> {
    var metadata := Field(raw, "thread_metadata");
    if IsRecord(metadata) then Field(metadata.value, "archive_timestamp") else None
  }

  function RawArchiveTimestamp(raw: Json): Option<Json> {
    Coalesce(MetadataTimestamp(raw), Field(raw, "archive_timestamp"))
  }

  function RawLastActivity(raw: Json): Option<Json> {
    Coalesce(Field(raw, "last_activity_at"), MetadataTimestamp(raw))
  }

  /** `parentIdOverride ?? asString(raw.parent_id)` */
  function ParentId(raw: Json, parentOverride: Option<string>): string {
    match parentOverride
    case Some(parent) => parent
    case None => AsString(Field(raw, "parent_id"))
  }

  function NormalizeThread(raw: Json, parentOverride: Option<string>, parse: DateParser): Result<Thread, Thrown> {
    if !IsRecord(Some(raw)) then Err(Api(DiscordApi, "Thread payload was not an object.", false, NoDetails))
    else
      var threadType :- NormalizeThreadType(Field(raw, "type"));
      var id :- AssertNonEmpty(AsString(Field(raw, "id")), "Thread payload is missing an id.");
      var guildId :- AssertNonEmpty(AsString(Field(raw, "guild_id")), "Thread payload is missing a guild id.");
      var parentId :- AssertNonEmpty(ParentId(raw, parentOverride), "Thread payload is missing a parent id.");
      var name :- AssertNonEmpty(AsString(Field(raw, "name")), "Thread payload is missing a name.");
      Ok(Thread(
           id,
           guildId,
           parentId,
           name,
           threadType,
           AsBoolean(Field(raw, "archived")),
           AsBoolean(Field(raw, "locked")),
           AsNumber(Field(raw, "auto_archive_duration"), 1440.0),
           ToIso8601(RawArchiveTimestamp(raw), parse),
           AsNumber(Field(raw, "message_count"), 0.0),
           AsNumber(Field(raw, "member_count"), 0.0),
           StringOrNull(Field(raw, "owner_id")),
           ToIso8601(Field(raw, "created_at"), parse),
           ToIso8601(RawLastActivity(raw), parse)))
  }

  function NormalizeMember(raw: Json, parse: DateParser): Result<Member, Thrown> {
    if !IsRecord(Some(raw)) then Err(Api(DiscordApi, "Thread member payload was not an object.", false, NoDetails))
    else
      var threadId :- AssertNonEmpty(AsString(Field(raw, "thread_id")), "Thread member payload is missing a thread id.");
      var userId :- AssertNonEmpty(AsString(Field(raw, "user_id")), "Thread member payload is missing a user id.");
      Ok(Member(threadId, userId, ToIso8601(Field(raw, "join_timestamp"), parse), AsNumber(Field(raw, "flags"), 0.0)))
  }

  function AuthorField(raw: Json, key: string): Option<Json> {
    var author := Field(raw, "author");
    if IsRecord(author) then Field(author.value, key) else None
  }

  function ReferencedId(raw: Json): Option<string> {
    var referenced := Field(raw, "referenced_message");
    if IsRecord(referenced) && AsString(Field(referenced.value, "id")) != ""
    then Some(AsString(Field(referenced.value, "id")))
    else None
  }

  function CreatedAt(createdAt: string, parse: DateParser): (r: Result<string, Thrown>)
    ensures r.Ok? ==> |r.value| >= 24
  {
    match DateOf(Some(String(createdAt)), parse)
    case Some(ms) => Ok(IsoString(ms))
    case None => Err(Api(DiscordApi, "Message payload has an invalid created_at timestamp.", false, NoDetails))
  }

  function NormalizeMessage(raw: Json, threadId: string, parse: DateParser): Result<Message, Thrown> {
    if !IsRecord(Some(raw)) then Err(Api(DiscordApi, "Message payload was not an object.", false, NoDetails))
    else
      var authorId :- AssertNonEmpty(AsString(AuthorField(raw, "id")), "Message payload is missing an author id.");
      var username :- AssertNonEmpty(AsString(AuthorField(raw, "username")), "Message payload is missing an author username.");
      var id :- AssertNonEmpty(AsString(Field(raw, "id")), "Message payload is missing an id.");
      var created :- AssertNonEmpty(AsString(Field(raw, "created_at")), "Message payload is missing a created_at timestamp.");
      var createdAt :- CreatedAt(created, parse);
      Ok(Message(
           id,
           threadId,
           Author(authorId, username, StringOrNull(AuthorField(raw, "global_name"))),
           AsString(Field(raw, "content")),
           createdAt,
           ToIso8601(Field(raw, "edited_at"), parse),
           NormalizeMessageType(Field(raw, "type")),
           NormalizeAttachments(Field(raw, "attachments")),
           ReferencedId(raw)))
  }

  // ---------------------------------------------------------------- lists

  /** `items.map(f)` where `f` may throw: stops at the first error. */
  function MapAll<T>(items: seq<Json>, f: Json -> Result<T, Thrown>): Result<seq<T>, Thrown> {
    if items == [] then Ok([])
    else
      var head :- f(items[0]);
      var tail :- MapAll(items[1..], f);
      Ok([head] + tail)
  }

  /** `error` is thrown on the first element that throws. */
  ghost predicate FirstError<T>(items: seq<Json>, f: Json -> Result<T, Thrown>, error: Thrown) {
    exists k | 0 <= k < |items| :: f(items[k]) == Err(error) && forall j | 0 <= j < k :: f(items[j]).Ok?
  }

  ghost predicate AllOk<T>(items: seq<Json>, f: Json -> Result<T, Thrown>) {
    forall k | 0 <= k < |items| :: f(items[k]).Ok?
  }

  ghost predicate Images<T(!new)>(items: seq<Json>, f: Json -> Result<T, Thrown>, values: seq<T>) {
    |values| == |items| && forall k | 0 <= k < |items| :: f(items[k]) == Ok(values[k])
  }

  /** All or nothing: every image in order, or the error of the first element that throws. */
  lemma {:induction false} MapAllOutcome<T(!new)>(items: seq<Json>, f: Json -> Result<T, Thrown>)
    ensures match MapAll(items, f)
            case Ok(values) => AllOk(items, f) && Images(items, f, values)
            case Err(error) => !AllOk(items, f) && FirstError(items, f, error)
  {
    if items != [] {
      var tail := items[1..];
      MapAllOutcome(tail, f);
      if f(items[0]).Ok? && MapAll(tail, f).Err? {
        var error := MapAll(tail, f).error;
        var k :| 0 <= k < |tail| && f(tail[k]) == Err(error) && forall j | 0 <= j < k :: f(tail[j]).Ok?;
        assert items[k + 1] == tail[k];
        forall j | 0 <= j < k + 1 ensures f(items[j]).Ok? {
          if j > 0 { assert items[j] == tail[j - 1]; }
        }
      }
    }
  }

  function ThreadOf(parent: Option<string>, parse: DateParser): Json -> Result<Thread, Thrown> {
    raw => NormalizeThread(raw, parent, parse)
  }

  function MemberOf(parse: DateParser): Json -> Result<Member, Thrown> {
    raw => NormalizeMember(raw, parse)
  }

  function ChannelOf(guildId: string): Json -> Result<Channel, Thrown> {
    raw => NormalizeChannel(raw, guildId)
  }

  function MessageOf(threadId: string, parse: DateParser): Json -> Result<Message, Thrown> {
    raw => NormalizeMessage(raw, threadId, parse)
  }

  datatype ThreadList = ThreadList(threads: seq<Thread>, members: seq<Member>, hasMore: bool)

  /** The arrays and the flag read off a thread list payload. */
  datatype RawList = RawList(threads: seq<Json>, members: seq<Json>, hasMore: bool)

  /** A payload has a thread array, and a member array unless members are absent or null. */
  predicate WellShaped(payload: Json) {
    && Field(payload, "threads").Some? && Field(payload, "threads").value.Array?
    && (Nullish(Field(payload, "members")) || Field(payload, "members").value.Array?)
  }

  function RawThreads(payload: Json): seq<Json> {
    ArrayItems(Field(payload, "threads"))
  }

  function RawMembers(payload: Json): seq<Json> {
    ArrayItems(Field(payload, "members"))
  }

  function ArrayItems(value: Option<Json>): seq<Json> {
    if value.Some? && value.value.Array? then value.value.items else []
  }

  function ReadList(payload: Json): (r: Result<RawList, Thrown>)
    ensures r.Ok? <==> WellShaped(payload)
    ensures r.Ok? ==> r.value == RawList(RawThreads(payload), RawMembers(payload), AsBoolean(Field(payload, "has_more")))
    ensures r.Err? ==> r.error.Api? && r.error.code == DiscordApi && !r.error.retryable
  {
    var threads := Field(payload, "threads");
    var members := Field(payload, "members");
    if !IsRecord(Some(payload)) then
      Err(Api(DiscordApi, "Thread list payload was not an object.", false, NoDetails))
    else if !(threads.Some? && threads.value.Array?) then
      Err(Api(DiscordApi, "Thread list payload is missing a threads array.", false, NoDetails))
    else if !Nullish(members) && !members.value.Array? then
      Err(Api(DiscordApi, "Thread list payload has a malformed members field.", false, NoDetails))
    else
      Ok(RawList(threads.value.items, ArrayItems(members), AsBoolean(Field(payload, "has_more"))))
  }

  /** `normalizeThreadListPayload` of discord/client.ts. */
  function NormalizeThreadList(payload: Json, parent: Option<string>, parse: DateParser): Result<ThreadList, Thrown> {
    var raw :- ReadList(payload);
    var threads :- MapAll(raw.threads, ThreadOf(parent, parse));
    var members :- MapAll(raw.members, MemberOf(parse));
    Ok(ThreadList(threads, members, raw.hasMore))
  }

  /**
   * For every payload: one normalised thread per raw thread and one member per raw member, in order;
   * or, when the payload is well shaped, the error of the first bad thread; or, when every thread is
   * good, of the first bad member.
   */
  lemma ThreadListOutcome(payload: Json, parent: Option<string>, parse: DateParser)
    ensures match NormalizeThreadList(payload, parent, parse)
      case Ok(list) =>
        && WellShaped(payload)
        && Images(RawThreads(payload), ThreadOf(parent, parse), list.threads)
        && Images(RawMembers(payload), MemberOf(parse), list.members)
        && list.hasMore == AsBoolean(Field(payload, "has_more"))
      case Err(error) =>
        if !WellShaped(payload) then error.Api? && error.code == DiscordApi && !error.retryable
        else if !AllOk(RawThreads(payload), ThreadOf(parent, parse)) then
          FirstError(RawThreads(payload), ThreadOf(parent, parse), error)
        else
          !AllOk(RawMembers(payload), MemberOf(parse)) && FirstError(RawMembers(payload), MemberOf(parse), error)
  {
    hide MapAll;
    hide AllOk;
    hide Images;
    hide FirstError;
    hide ThreadOf;
    hide MemberOf;
    hide WellShaped;
    hide RawThreads;
    hide RawMembers;
    hide ReadList;
    MapAllOutcome(RawThreads(payload), ThreadOf(parent, parse));
    MapAllOutcome(RawMembers(payload), MemberOf(parse));
  }

  predicate KnownThreadType(raw: Option<Json>) {
    raw in {
      Some(String("PUBLIC_THREAD")), Some(String("PRIVATE_THREAD")), Some(String("ANNOUNCEMENT_THREAD")),
      Some(Number(10.0)), Some(Number(11.0)), Some(Number(12.0))
    }
  }

  /** The four required texts of a thread, with the error for a blank one, in the order they are checked. */
  function RequiredTexts(raw: Json, parent: Option<string>): seq<(string, string)> {
    [
      (AsString(Field(raw, "id")), "Thread payload is missing an id."),
      (AsString(Field(raw, "guild_id")), "Thread payload is missing a guild id."),
      (ParentId(raw, parent), "Thread payload is missing a parent id."),
      (AsString(Field(raw, "name")), "Thread payload is missing a name.")
    ]
  }

  /**
   * Within a thread the type is judged before any text: an unknown type is reported whatever else is
   * wrong, and otherwise the first blank text is.
   */
  lemma ThreadErrorOrder(raw: Json, parent: Option<string>, parse: DateParser)
    requires IsRecord(Some(raw))
    ensures var r, texts := NormalizeThread(raw, parent, parse), RequiredTexts(raw, parent);
      if !KnownThreadType(Field(raw, "type")) then
        r == Err(Api(UnsupportedChannelType, "Unsupported thread type", false, RawType(Field(raw, "type"))))
      else
        match r
        case Ok(_) => forall i | 0 <= i < |texts| :: !Blank(texts[i].0)
        case Err(error) => exists i | 0 <= i < |texts| ::
          Blank(texts[i].0) && error == Plain(texts[i].1) && forall j | 0 <= j < i :: !Blank(texts[j].0)
  {
    var r, texts := NormalizeThread(raw, parent, parse), RequiredTexts(raw, parent);
    hide IsoString;
    hide IsDatetime;
    hide Blank;
    if KnownThreadType(Field(raw, "type")) {
      if r.Err? {
        var i :=
          if Blank(texts[0].0) then 0 else if Blank(texts[1].0) then 1 else if Blank(texts[2].0) then 2 else 3;
        assert Blank(texts[i].0) && r.error == Plain(texts[i].1);
      }
    }
  }

  // ---------------------------------------------------------------- which payloads fit the schemas

  predicate FitsYear(value: Option<Json>, parse: DateParser) {
    DateOf(value, parse).None? || FourDigitYear(DateOf(value, parse).value)
  }

  predicate Whole(value: Option<Json>) {
    match value
    case Some(Number(x)) => x == x.Floor as real
    case _ => true
  }

  /** A value that is a number is whole and at least so large. */
  predicate WholeFrom(low: int, value: Option<Json>) {
    match value
    case Some(Number(x)) => x == x.Floor as real && x >= low as real
    case _ => true
  }

  /** The raw numbers and dates of a thread that its schema accepts once normalised. */
  predicate RawThreadFits(raw: Json, parse: DateParser) {
    && WholeFrom(1, Field(raw, "auto_archive_duration"))
    && WholeFrom(0, Field(raw, "message_count"))
    && WholeFrom(0, Field(raw, "member_count"))
    && FitsYear(RawArchiveTimestamp(raw), parse)
    && FitsYear(Field(raw, "created_at"), parse)
    && FitsYear(RawLastActivity(raw), parse)
  }

  predicate RawMemberFits(raw: Json, parse: DateParser) {
    Whole(Field(raw, "flags")) && FitsYear(Field(raw, "join_timestamp"), parse)
  }

  lemma TimestampFits(value: Option<Json>, parse: DateParser)
    ensures Schema.NullableDatetime(ToIso8601(value, parse)) <==> FitsYear(value, parse)
  {
    if DateOf(value, parse).Some? {
      IsoIsDatetime(DateOf(value, parse).value);
    }
  }

  lemma ThreadFits(raw: Json, parent: Option<string>, parse: DateParser)
    requires NormalizeThread(raw, parent, parse).Ok?
    ensures Schema.ThreadSchema(NormalizeThread(raw, parent, parse).value) <==> RawThreadFits(raw, parse)
  {
    TimestampFits(RawArchiveTimestamp(raw), parse);
    TimestampFits(Field(raw, "created_at"), parse);
    TimestampFits(RawLastActivity(raw), parse);
    NumberFits(Field(raw, "auto_archive_duration"));
    NumberFits(Field(raw, "message_count"));
    NumberFits(Field(raw, "member_count"));
    hide Blank;
    hide Field;
    hide WholeFrom;
    hide FitsYear;
    hide ToIso8601;
    hide AsNumber;
    hide RawArchiveTimestamp;
    hide RawLastActivity;
    hide NormalizeThreadType;
    hide Schema.PositiveInt;
    hide Schema.NonNegativeInt;
    hide Schema.NullableDatetime;
  }

  lemma NumberFits(value: Option<Json>)
    ensures Schema.PositiveInt(AsNumber(value, 1440.0)) <==> WholeFrom(1, value)
    ensures Schema.NonNegativeInt(AsNumber(value, 0.0)) <==> WholeFrom(0, value)
  {
    assert 1440.0 == 1440.0.Floor as real && 0.0 == 0.0.Floor as real;
  }

  lemma MemberFits(raw: Json, parse: DateParser)
    requires NormalizeMember(raw, parse).Ok?
    ensures Schema.MemberSchema(NormalizeMember(raw, parse).value) <==> RawMemberFits(raw, parse)
  {
    hide IsoString;
    hide IsDatetime;
    hide Blank;
    TimestampFits(Field(raw, "join_timestamp"), parse);
  }

  /** The sizes of the entries that are records, the others being dropped. */
  predicate RawAttachmentsFit(items: seq<Json>) {
    forall i | 0 <= i < |items| :: IsRecord(Some(items[i])) ==> WholeFrom(0, Field(items[i], "size"))
  }

  /** The raw sizes and dates of a message that its schema accepts once normalised. */
  predicate RawMessageFits(raw: Json, parse: DateParser) {
    && RawAttachmentsFit(ArrayItems(Field(raw, "attachments")))
    && FitsYear(Some(String(AsString(Field(raw, "created_at")))), parse)
    && FitsYear(Field(raw, "edited_at"), parse)
  }

  predicate AttachmentsSchema(attachments: seq<Attachment>) {
    forall i | 0 <= i < |attachments| :: Schema.AttachmentSchema(attachments[i])
  }

  lemma AttachmentsSchemaAppend(a: seq<Attachment>, b: seq<Attachment>)
    ensures AttachmentsSchema(a + b) <==> AttachmentsSchema(a) && AttachmentsSchema(b)
  {
    hide Schema.AttachmentSchema;
    if AttachmentsSchema(a + b) {
      forall i | 0 <= i < |a| ensures Schema.AttachmentSchema(a[i]) { assert (a + b)[i] == a[i]; }
      forall i | 0 <= i < |b| ensures Schema.AttachmentSchema(b[i]) { assert (a + b)[|a| + i] == b[i]; }
    }
  }

  lemma RawAttachmentsFitStep(items: seq<Json>)
    requires items != []
    ensures RawAttachmentsFit(items) <==> RawAttachmentsFit([items[0]]) && RawAttachmentsFit(items[1..])
  {
    hide Field;
    hide WholeFrom;
    if RawAttachmentsFit([items[0]]) && RawAttachmentsFit(items[1..]) {
      forall i | 0 <= i < |items| && IsRecord(Some(items[i]))
        ensures WholeFrom(0, Field(items[i], "size"))
      {
        if i == 0 { assert items[0] == [items[0]][0]; } else { assert items[i] == items[1..][i - 1]; }
      }
    }
  }

  lemma AttachmentFits(item: Json)
    ensures AttachmentsSchema(AttachmentList([item])) <==> RawAttachmentsFit([item])
  {
    hide Field;
    assert 0.0 == 0.0.Floor as real;
    var list := AttachmentList([item]);
    assert AttachmentList([item][1..]) == [];
    if IsRecord(Some(item)) {
      assert list[0].size == AsNumber(Field(item, "size"), 0.0);
    }
  }

  lemma AttachmentListStep(head: Json, tail: seq<Json>)
    ensures AttachmentList([head] + tail) == AttachmentList([head]) + AttachmentList(tail)
  {
    assert ([head] + tail)[1..] == tail;
    assert [head][1..] == [];
    hide Field;
    hide AsString;
    hide AsNumber;
    hide StringOrNull;
  }

  lemma NoAttachmentsFit()
    ensures AttachmentsSchema(AttachmentList([])) && RawAttachmentsFit([])
  {
  }

  lemma {:induction false} AttachmentsFit(items: seq<Json>)
    ensures AttachmentsSchema(AttachmentList(items)) <==> RawAttachmentsFit(items)
  {
    NoAttachmentsFit();
    hide RawAttachmentsFit;
    hide AttachmentsSchema;
    if items != [] {
      hide AttachmentList;
      AttachmentsFit(items[1..]);
      AttachmentFits(items[0]);
      RawAttachmentsFitStep(items);
      AttachmentListStep(items[0], items[1..]);
      assert [items[0]] + items[1..] == items;
      AttachmentsSchemaAppend(AttachmentList([items[0]]), AttachmentList(items[1..]));
    }
  }

  lemma CreatedAtFits(createdAt: string, parse: DateParser)
    requires CreatedAt(createdAt, parse).Ok?
    ensures IsDatetime(CreatedAt(createdAt, parse).value) <==> FitsYear(Some(String(createdAt)), parse)
  {
    hide IsoString;
    hide IsDatetime;
    IsoIsDatetime(DateOf(Some(String(createdAt)), parse).value);
  }

  lemma MessageParts(raw: Json, threadId: string, parse: DateParser)
    requires NormalizeMessage(raw, threadId, parse).Ok?
    ensures var m, created := NormalizeMessage(raw, threadId, parse).value, AsString(Field(raw, "created_at"));
      && CreatedAt(created, parse) == Ok(m.createdAt)
      && m.editedAt == ToIso8601(Field(raw, "edited_at"), parse)
      && m.attachments == AttachmentList(ArrayItems(Field(raw, "attachments")))
  {
    hide Blank;
    hide CreatedAt;
    hide ToIso8601;
    hide NormalizeMessageType;
    hide ReferencedId;
    hide AuthorField;
    hide AttachmentList;
    assert NormalizeAttachments(Field(raw, "attachments")) == AttachmentList(ArrayItems(Field(raw, "attachments"))) by {
      NoAttachments();
    }
    hide NormalizeAttachments;
  }

  lemma NoAttachments()
    ensures AttachmentList([]) == []
  {
  }

  /**
   * A normalised message satisfies its schema exactly when the size of every attachment that is a record is
   * a whole number, not negative, or no number, and its dates, where readable, have four-digit years.
   */
  lemma MessageFits(raw: Json, threadId: string, parse: DateParser)
    requires NormalizeMessage(raw, threadId, parse).Ok?
    ensures Schema.MessageSchema(NormalizeMessage(raw, threadId, parse).value) <==> RawMessageFits(raw, parse)
  {
    hide NormalizeMessage;
    hide IsDatetime;
    hide FitsYear;
    hide CreatedAt;
    hide ToIso8601;
    hide AttachmentList;
    hide RawAttachmentsFit;
    hide Schema.AttachmentSchema;
    hide Schema.NullableDatetime;
    MessageParts(raw, threadId, parse);
    CreatedAtFits(AsString(Field(raw, "created_at")), parse);
    TimestampFits(Field(raw, "edited_at"), parse);
    AttachmentsFit(ArrayItems(Field(raw, "attachments")));
  }

  /**
   * A normalised list satisfies the schema exactly when every raw duration is a positive whole number
   * or no number, every count and flag is whole (counts not negative) or no number, and every date
   * that is readable has a four-digit year.
   */
  lemma ThreadListFits(payload: Json, parent: Option<string>, parse: DateParser)
    requires NormalizeThreadList(payload, parent, parse).Ok?
    ensures var list := NormalizeThreadList(payload, parent, parse).value;
      Schema.ThreadsSchema(list.threads, list.members) <==>
      && (forall i | 0 <= i < |RawThreads(payload)| :: RawThreadFits(RawThreads(payload)[i], parse))
      && (forall i | 0 <= i < |RawMembers(payload)| :: RawMemberFits(RawMembers(payload)[i], parse))
  {
    hide NormalizeThread;
    hide NormalizeMember;
    hide NormalizeThreadList;
    hide RawThreadFits;
    hide RawMemberFits;
    hide RawThreads;
    hide RawMembers;
    hide Schema.ThreadSchema;
    hide Schema.MemberSchema;
    ThreadListOutcome(payload, parent, parse);
    var list := NormalizeThreadList(payload, parent, parse).value;
    var threads, members := RawThreads(payload), RawMembers(payload);
    forall i | 0 <= i < |threads|
      ensures Schema.ThreadSchema(list.threads[i]) <==> RawThreadFits(threads[i], parse)
    {
      assert ThreadOf(parent, parse)(threads[i]) == Ok(list.threads[i]);
      ThreadFits(threads[i], parent, parse);
    }
    forall i | 0 <= i < |members|
      ensures Schema.MemberSchema(list.members[i]) <==> RawMemberFits(members[i], parse)
    {
      assert MemberOf(parse)(members[i]) == Ok(list.members[i]);
      MemberFits(members[i], parse);
    }
  }
}
