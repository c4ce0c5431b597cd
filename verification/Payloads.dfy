/**
 * discord/normalize.ts field by field: where in a payload each field of a normalised record comes from, what
 * stands in for a field that is missing, and which error a payload gives that cannot be normalised.
 */
module Payloads {
  import opened Wrappers
  import opened Text
  import opened Calendar
  import opened Json
  import opened Discord
  import opened Normalize
  import opened NormalForm
  import opened Guards

  // ---------------------------------------------------------------- reading one field

  /** The string under a key. */
  predicate TextAt(raw: Json, key: string, text: string) {
    Field(raw, key) == Some(String(text))
  }

  /** The string under a key, or the empty string. */
  predicate TextOrEmptyAt(raw: Json, key: string, text: string) {
    match Field(raw, key)
    case Some(String(s)) => text == s
    case _ => text == ""
  }

  predicate OptionalTextAt(raw: Json, key: string, text: Option<string>) {
    match Field(raw, key)
    case Some(String(s)) => text == Some(s)
    case _ => text == None
  }

  /** The finite number under a key, or the default; an infinity is no such number. */
  predicate NumberAt(raw: Json, key: string, default: real, x: real) {
    match Field(raw, key)
    case Some(Number(y)) => x == y
    case _ => x == default
  }

  predicate FlagAt(raw: Json, key: string, b: bool) {
    b <==> Field(raw, key) == Some(Bool(true))
  }

  /** The archive time in the thread metadata. */
  function TimeInMetadata(raw: Json): Option<Json> {
    match Field(raw, "thread_metadata")
    case Some(Object(metadata)) => if "archive_timestamp" in metadata then Some(metadata["archive_timestamp"]) else None
    case _ => None
  }

  /** The ISO form of a value or, when that is absent or null, of another. */
  predicate TimeOf(value: Option<Json>, otherwise: Option<Json>, parse: DateParser, text: Option<string>) {
    text == ToIso8601(if value == None || value == Some(Null) then otherwise else value, parse)
  }

  // ---------------------------------------------------------------- the ISO form of a value

  /** The whole number a number is cut to, toward zero. */
  predicate CutTo(x: real, n: int) {
    if x < 0.0 then n as real - 1.0 < x <= n as real else n as real <= x < n as real + 1.0
  }

  lemma CutToTrunc(x: real, n: int)
    ensures CutTo(x, n) <==> n == Trunc(x)
  {
    var floor := x.Floor;
    assert floor as real <= x < floor as real + 1.0;
    var up := (-x).Floor;
    assert up as real <= -x < up as real + 1.0;
  }

  /** The milliseconds a value stands for, if any, before the range check of a date. */
  predicate StandsFor(value: Option<Json>, parse: DateParser, ms: int) {
    match value
    case Some(Bool(b)) => ms == if b then 1 else 0
    case Some(Number(x)) => CutTo(x, ms)
    case Some(String(_)) => parse(value.value) == Some(ms)
    case Some(Array(_)) => parse(value.value) == Some(ms)
    case Some(Object(_)) => parse(value.value) == Some(ms)
    case _ => false
  }

  /**
   * A value has an ISO form exactly when it stands for milliseconds up to 100,000,000 days from 1970, and that is
   * the ISO string of those milliseconds: true is one millisecond, and nothing stands for null or an infinity.
   */
  lemma Iso8601Iff(value: Option<Json>, parse: DateParser, text: string)
    ensures ToIso8601(value, parse) == Some(text) <==>
      exists ms: Instant :: -8_640_000_000_000_000 <= ms <= 8_640_000_000_000_000 && StandsFor(value, parse, ms) && text == IsoString(ms)
  {
    hide IsoString;
    match value
    case Some(Number(x)) =>
      forall ms: int ensures CutTo(x, ms) <==> ms == Trunc(x) {
        CutToTrunc(x, ms);
      }
      hide CutTo;
      hide Trunc;
    case _ =>
  }

  // ---------------------------------------------------------------- records field by field

  lemma ThreadFieldsRead(raw: Json, parent: Option<string>, parse: DateParser)
    requires NormalizeThread(raw, parent, parse).Ok?
    ensures var t := NormalizeThread(raw, parent, parse).value;
      && TextAt(raw, "id", t.id) && TextAt(raw, "guild_id", t.guildId) && TextAt(raw, "name", t.name)
      && (match parent case Some(p) => t.parentId == p case None => TextAt(raw, "parent_id", t.parentId))
      && FlagAt(raw, "archived", t.archived) && FlagAt(raw, "locked", t.locked)
      && NumberAt(raw, "auto_archive_duration", 1440.0, t.autoArchiveDuration)
      && NumberAt(raw, "message_count", 0.0, t.messageCount) && NumberAt(raw, "member_count", 0.0, t.memberCount)
      && OptionalTextAt(raw, "owner_id", t.ownerId)
  {
    hide NormalizeThreadType;
    hide ToIso8601;
    hide RawArchiveTimestamp;
    hide RawLastActivity;
    hide Field;
    BlankIsNotText(Field(raw, "id"));
    BlankIsNotText(Field(raw, "guild_id"));
    BlankIsNotText(Field(raw, "parent_id"));
    BlankIsNotText(Field(raw, "name"));
    hide Blank;
  }

  lemma BlankIsNotText(value: Option<Json>)
    ensures !Blank(AsString(value)) ==> value == Some(String(AsString(value)))
  {
  }

  /** The three times of a thread: those of the metadata stand in for, or go before, those at the top. */
  lemma ThreadTimesRead(raw: Json, parent: Option<string>, parse: DateParser)
    requires NormalizeThread(raw, parent, parse).Ok?
    ensures var t := NormalizeThread(raw, parent, parse).value;
      && TimeOf(TimeInMetadata(raw), Field(raw, "archive_timestamp"), parse, t.archiveTimestamp)
      && TimeOf(Field(raw, "created_at"), None, parse, t.createdAt)
      && TimeOf(Field(raw, "last_activity_at"), TimeInMetadata(raw), parse, t.lastActivityAt)
  {
    hide NormalizeThreadType;
    hide Blank;
    hide IsoString;
    hide TimeClip;
    MetadataTimes(raw);
    NullishHasNoTime(Field(raw, "created_at"), parse);
    hide Field;
    hide MetadataTimestamp;
    hide TimeInMetadata;
    hide ToIso8601;
  }

  lemma MetadataTimes(raw: Json)
    ensures MetadataTimestamp(raw) == TimeInMetadata(raw)
  {
  }

  lemma NullishHasNoTime(value: Option<Json>, parse: DateParser)
    ensures Nullish(value) ==> ToIso8601(value, parse) == ToIso8601(None, parse) == None
  {
  }

  lemma MemberFieldsRead(raw: Json, parse: DateParser)
    requires NormalizeMember(raw, parse).Ok?
    ensures var m := NormalizeMember(raw, parse).value;
      && TextAt(raw, "thread_id", m.threadId) && TextAt(raw, "user_id", m.userId)
      && NumberAt(raw, "flags", 0.0, m.flags)
      && TimeOf(Field(raw, "join_timestamp"), None, parse, m.joinTimestamp)
  {
    BlankIsNotText(Field(raw, "thread_id"));
    BlankIsNotText(Field(raw, "user_id"));
    NullishHasNoTime(Field(raw, "join_timestamp"), parse);
    hide Blank;
    hide Field;
    hide ToIso8601;
  }

  lemma ChannelFieldsRead(raw: Json, guildId: string)
    requires NormalizeChannel(raw, guildId).Ok?
    ensures var c := NormalizeChannel(raw, guildId).value;
      && TextAt(raw, "id", c.id) && TextAt(raw, "name", c.name) && c.guildId == guildId
      && c.kind == NormalizeChannelType(Field(raw, "type"))
      && (c.isThreadCapable <==> c.kind != OtherChannel)
  {
    BlankIsNotText(Field(raw, "id"));
    BlankIsNotText(Field(raw, "name"));
    hide Blank;
    hide Field;
    hide NormalizeChannelType;
  }

  /** The record under a key, or a value that holds no field. */
  function RecordAt(raw: Json, key: string): Json {
    match Field(raw, key)
    case Some(Object(fields)) => Object(fields)
    case _ => Null
  }

  lemma RecordFields(raw: Json, key: string, name: string)
    ensures Field(RecordAt(raw, key), name)
         == if IsRecord(Field(raw, key)) then Field(Field(raw, key).value, name) else None
  {
  }

  lemma MessageFieldsRead(raw: Json, threadId: string, parse: DateParser)
    requires NormalizeMessage(raw, threadId, parse).Ok?
    ensures var m := NormalizeMessage(raw, threadId, parse).value;
      && TextAt(raw, "id", m.id) && m.threadId == threadId
      && TextAt(RecordAt(raw, "author"), "id", m.author.id)
      && TextAt(RecordAt(raw, "author"), "username", m.author.username)
      && OptionalTextAt(RecordAt(raw, "author"), "global_name", m.author.globalName)
      && TextOrEmptyAt(raw, "content", m.content)
      && Field(raw, "created_at").Some? && Field(raw, "created_at").value.String?
      && ToIso8601(Field(raw, "created_at"), parse) == Some(m.createdAt)
      && TimeOf(Field(raw, "edited_at"), None, parse, m.editedAt)
      && m.messageType == NormalizeMessageType(Field(raw, "type"))
      && (match Field(RecordAt(raw, "referenced_message"), "id")
          case Some(String(s)) => m.referencedMessageId == if s == "" then None else Some(s)
          case _ => m.referencedMessageId == None)
  {
    RecordFields(raw, "author", "id");
    RecordFields(raw, "author", "username");
    RecordFields(raw, "author", "global_name");
    RecordFields(raw, "referenced_message", "id");
    BlankIsNotText(Field(raw, "id"));
    BlankIsNotText(Field(raw, "created_at"));
    BlankIsNotText(AuthorField(raw, "id"));
    BlankIsNotText(AuthorField(raw, "username"));
    NullishHasNoTime(Field(raw, "edited_at"), parse);
    hide RecordAt;
    hide Blank;
    hide Field;
    hide NormalizeMessageType;
    hide NormalizeAttachments;
    hide IsoString;
    hide DateOf;
  }

  /** The entries that are records, in order. */
  function Records(items: seq<Json>): seq<Json> {
    if items == [] then []
    else (match items[0] case Object(_) => [items[0]] case Array(_) => [items[0]] case _ => []) + Records(items[1..])
  }

  ghost predicate ReadsAttachment(raw: Json, a: Attachment) {
    && TextOrEmptyAt(raw, "id", a.id) && TextOrEmptyAt(raw, "filename", a.filename) && TextOrEmptyAt(raw, "url", a.url)
    && OptionalTextAt(raw, "content_type", a.contentType)
    && NumberAt(raw, "size", 0.0, a.size)
  }

  /** One attachment for each entry that is a record, in order, field by field; none when there is no array. */
  lemma AttachmentsRead(raw: Option<Json>)
    ensures var list := NormalizeAttachments(raw);
      match raw
      case Some(Array(items)) =>
        |list| == |Records(items)| && forall i | 0 <= i < |list| :: ReadsAttachment(Records(items)[i], list[i])
      case _ => list == []
  {
    if raw.Some? && raw.value.Array? {
      AttachmentListRead(raw.value.items);
    }
  }

  lemma {:induction false} AttachmentListRead(items: seq<Json>)
    ensures var list := AttachmentList(items);
      |list| == |Records(items)| && forall i | 0 <= i < |list| :: ReadsAttachment(Records(items)[i], list[i])
  {
    if items != [] {
      AttachmentListRead(items[1..]);
      hide Field;
      var list, rest := AttachmentList(items), AttachmentList(items[1..]);
      var records, others := Records(items), Records(items[1..]);
      if IsRecord(Some(items[0])) {
        assert ReadsAttachment(records[0], list[0]);
        hide ReadsAttachment;
        forall i | 0 <= i < |list| ensures ReadsAttachment(records[i], list[i]) {
          if i > 0 {
            assert records[i] == others[i - 1] && list[i] == rest[i - 1];
          }
        }
      } else {
        assert records == others && list == rest;
      }
    }
  }

  // ---------------------------------------------------------------- types

  /** Which raw values are read as which type; every other value is of no listed type. */
  lemma TypesRead(raw: Option<Json>)
    ensures NormalizeChannelType(raw) == GuildText <==> raw in {Some(String("GUILD_TEXT")), Some(Number(0.0))}
    ensures NormalizeChannelType(raw) == GuildForum <==> raw in {Some(String("GUILD_FORUM")), Some(Number(15.0))}
    ensures NormalizeChannelType(raw) == GuildAnnouncement <==> raw in {Some(String("GUILD_ANNOUNCEMENT")), Some(Number(5.0))}
    ensures NormalizeChannelType(raw) == GuildMedia <==> raw in {Some(String("GUILD_MEDIA")), Some(Number(16.0))}
  {
    ChannelTypeReadsBack(GuildText);
    ChannelTypeReadsBack(GuildForum);
    ChannelTypeReadsBack(GuildAnnouncement);
    ChannelTypeReadsBack(GuildMedia);
  }

  lemma ThreadTypesRead(raw: Option<Json>)
    ensures NormalizeThreadType(raw) == Ok(PublicThread) <==> raw in {Some(String("PUBLIC_THREAD")), Some(Number(11.0))}
    ensures NormalizeThreadType(raw) == Ok(PrivateThread) <==> raw in {Some(String("PRIVATE_THREAD")), Some(Number(12.0))}
    ensures NormalizeThreadType(raw) == Ok(AnnouncementThread)
       <==> raw in {Some(String("ANNOUNCEMENT_THREAD")), Some(Number(10.0))}
  {
    ThreadTypeReadsBack(PublicThread);
    ThreadTypeReadsBack(PrivateThread);
    ThreadTypeReadsBack(AnnouncementThread);
  }

  lemma MessageTypesRead(raw: Option<Json>)
    ensures NormalizeMessageType(raw) == Default <==> raw in {Some(String("DEFAULT")), Some(Number(0.0))}
    ensures NormalizeMessageType(raw) == Reply <==> raw in {Some(String("REPLY")), Some(Number(1.0))}
    ensures NormalizeMessageType(raw) == ThreadStarterMessage
       <==> raw in {Some(String("THREAD_STARTER_MESSAGE")), Some(Number(19.0))}
    ensures NormalizeMessageType(raw) == System <==> raw == Some(String("SYSTEM"))
  {
    MessageTypeReadsBack(Default);
    MessageTypeReadsBack(Reply);
    MessageTypeReadsBack(ThreadStarterMessage);
    MessageTypeReadsBack(System);
  }

  // ---------------------------------------------------------------- errors

  function TextOrEmpty(value: Option<Json>): string {
    match value
    case Some(String(s)) => s
    case _ => ""
  }

  /** The error of the first blank text. */
  ghost predicate FirstBlank(texts: seq<(string, string)>, error: Thrown) {
    exists i | 0 <= i < |texts| ::
      Blank(texts[i].0) && error == Plain(texts[i].1) && forall j | 0 <= j < i :: !Blank(texts[j].0)
  }

  ghost predicate NoneBlank(texts: seq<(string, string)>) {
    forall i | 0 <= i < |texts| :: !Blank(texts[i].0)
  }

  lemma FirstBlankAt(texts: seq<(string, string)>, i: nat)
    requires i < |texts| && Blank(texts[i].0) && forall j | 0 <= j < i :: !Blank(texts[j].0)
    ensures FirstBlank(texts, Plain(texts[i].1)) && !NoneBlank(texts)
  {
  }

  predicate NotARecord(raw: Json) {
    !raw.Object? && !raw.Array?
  }

  function MemberTexts(raw: Json): seq<(string, string)> {
    [
      (TextOrEmpty(Field(raw, "thread_id")), "Thread member payload is missing a thread id."),
      (TextOrEmpty(Field(raw, "user_id")), "Thread member payload is missing a user id.")
    ]
  }

  lemma MemberErrorOrder(raw: Json, parse: DateParser)
    ensures match NormalizeMember(raw, parse)
      case Ok(_) => !NotARecord(raw) && NoneBlank(MemberTexts(raw))
      case Err(error) =>
        if NotARecord(raw) then error == Api(DiscordApi, "Thread member payload was not an object.", false, NoDetails)
        else FirstBlank(MemberTexts(raw), error)
  {
    hide Blank;
    hide Field;
    var texts := MemberTexts(raw);
    if !NotARecord(raw) {
      if Blank(texts[0].0) {
        FirstBlankAt(texts, 0);
      } else if Blank(texts[1].0) {
        FirstBlankAt(texts, 1);
      }
    }
  }

  function ChannelTexts(raw: Json, guildId: string): seq<(string, string)> {
    [
      (TextOrEmpty(Field(raw, "id")), "Channel payload is missing an id."),
      (TextOrEmpty(Field(raw, "name")), "Channel payload is missing a name."),
      (guildId, "Channel payload is missing a guild id.")
    ]
  }

  lemma ChannelErrorOrder(raw: Json, guildId: string)
    ensures match NormalizeChannel(raw, guildId)
      case Ok(_) => !NotARecord(raw) && NoneBlank(ChannelTexts(raw, guildId))
      case Err(error) =>
        if NotARecord(raw) then error == Api(DiscordApi, "Channel payload was not an object.", false, NoDetails)
        else FirstBlank(ChannelTexts(raw, guildId), error)
  {
    hide Blank;
    hide Field;
    hide NormalizeChannelType;
    var texts := ChannelTexts(raw, guildId);
    if !NotARecord(raw) {
      if Blank(texts[0].0) {
        FirstBlankAt(texts, 0);
      } else if Blank(texts[1].0) {
        FirstBlankAt(texts, 1);
      } else if Blank(texts[2].0) {
        FirstBlankAt(texts, 2);
      }
    }
  }

  function MessageTexts(raw: Json): seq<(string, string)> {
    [
      (TextOrEmpty(Field(RecordAt(raw, "author"), "id")), "Message payload is missing an author id."),
      (TextOrEmpty(Field(RecordAt(raw, "author"), "username")), "Message payload is missing an author username."),
      (TextOrEmpty(Field(raw, "id")), "Message payload is missing an id."),
      (TextOrEmpty(Field(raw, "created_at")), "Message payload is missing a created_at timestamp.")
    ]
  }

  /** The error of a text among the first that is blank. */
  function BlankError(texts: seq<(string, string)>): Option<string>
    decreases |texts|
  {
    if texts == [] then None
    else if Blank(texts[0].0) then Some(texts[0].1)
    else BlankError(texts[1..])
  }

  lemma {:induction false} BlankErrorIsFirst(texts: seq<(string, string)>)
    ensures match BlankError(texts)
      case None => NoneBlank(texts)
      case Some(message) => !NoneBlank(texts) && FirstBlank(texts, Plain(message))
  {
    hide Blank;
    if texts != [] {
      var rest := texts[1..];
      BlankErrorIsFirst(rest);
      if Blank(texts[0].0) {
        FirstBlankAt(texts, 0);
      } else if BlankError(rest).Some? {
        var i :| 0 <= i < |rest| && Blank(rest[i].0) && BlankError(rest).value == rest[i].1 && forall j | 0 <= j < i :: !Blank(rest[j].0);
        assert texts[i + 1] == rest[i];
        forall j | 0 <= j < i + 1 ensures !Blank(texts[j].0) {
          if j > 0 { assert texts[j] == rest[j - 1]; }
        }
        FirstBlankAt(texts, i + 1);
      }
    }
  }

  lemma SameText(value: Option<Json>)
    ensures AsString(value) == TextOrEmpty(value)
  {
  }

  lemma FourTexts(a: (string, string), b: (string, string), c: (string, string), d: (string, string))
    ensures BlankError([a, b, c, d])
         == if Blank(a.0) then Some(a.1) else if Blank(b.0) then Some(b.1) else if Blank(c.0) then Some(c.1)
            else if Blank(d.0) then Some(d.1) else None
  {
    hide Blank;
    assert [a, b, c, d][1..] == [b, c, d] && [b, c, d][1..] == [c, d] && [c, d][1..] == [d] && [d][1..] == [];
    assert BlankError([d]) == if Blank(d.0) then Some(d.1) else None;
    assert BlankError([c, d]) == if Blank(c.0) then Some(c.1) else BlankError([d]);
    assert BlankError([b, c, d]) == if Blank(b.0) then Some(b.1) else BlankError([c, d]);
  }

  lemma MessageStops(raw: Json, threadId: string, parse: DateParser)
    requires !NotARecord(raw)
    ensures var r, created := NormalizeMessage(raw, threadId, parse), TextOrEmpty(Field(raw, "created_at"));
      match BlankError(MessageTexts(raw))
      case Some(message) => r == Err(Plain(message))
      case None => r.Ok? == CreatedAt(created, parse).Ok? && (r.Err? ==> r.error == CreatedAt(created, parse).error)
  {
    RecordFields(raw, "author", "id");
    RecordFields(raw, "author", "username");
    hide RecordAt;
    hide Blank;
    hide Field;
    SameText(AuthorField(raw, "id"));
    SameText(AuthorField(raw, "username"));
    SameText(Field(raw, "id"));
    SameText(Field(raw, "created_at"));
    hide AsString;
    hide TextOrEmpty;
    hide CreatedAt;
    hide ToIso8601;
    hide NormalizeMessageType;
    hide NormalizeAttachments;
    hide ReferencedId;
    var texts := MessageTexts(raw);
    FourTexts(texts[0], texts[1], texts[2], texts[3]);
    hide BlankError;
  }

  /** Blank texts are reported before a time that is not readable. */
  lemma MessageErrorOrder(raw: Json, threadId: string, parse: DateParser)
    ensures var dated := ToIso8601(Some(String(TextOrEmpty(Field(raw, "created_at")))), parse).Some?;
      match NormalizeMessage(raw, threadId, parse)
      case Ok(_) => !NotARecord(raw) && NoneBlank(MessageTexts(raw)) && dated
      case Err(error) =>
        if NotARecord(raw) then error == Api(DiscordApi, "Message payload was not an object.", false, NoDetails)
        else if NoneBlank(MessageTexts(raw)) then
          !dated && error == Api(DiscordApi, "Message payload has an invalid created_at timestamp.", false, NoDetails)
        else FirstBlank(MessageTexts(raw), error)
  {
    if NotARecord(raw) {
      assert NormalizeMessage(raw, threadId, parse).Err?;
    } else {
      MessageStops(raw, threadId, parse);
      BlankErrorIsFirst(MessageTexts(raw));
      hide NormalizeMessage;
      hide MessageTexts;
      hide DateOf;
      hide IsoString;
    }
  }

  function ThreadTexts(raw: Json, parent: Option<string>): seq<(string, string)> {
    [
      (TextOrEmpty(Field(raw, "id")), "Thread payload is missing an id."),
      (TextOrEmpty(Field(raw, "guild_id")), "Thread payload is missing a guild id."),
      (if parent.Some? then parent.value else TextOrEmpty(Field(raw, "parent_id")), "Thread payload is missing a parent id."),
      (TextOrEmpty(Field(raw, "name")), "Thread payload is missing a name.")
    ]
  }

  lemma ThreadErrors(raw: Json, parent: Option<string>, parse: DateParser)
    ensures match NormalizeThread(raw, parent, parse)
      case Ok(_) => !NotARecord(raw) && KnownThreadType(Field(raw, "type")) && NoneBlank(ThreadTexts(raw, parent))
      case Err(error) =>
        if NotARecord(raw) then error == Api(DiscordApi, "Thread payload was not an object.", false, NoDetails)
        else if !KnownThreadType(Field(raw, "type")) then
          error == Api(UnsupportedChannelType, "Unsupported thread type", false, RawType(Field(raw, "type")))
        else FirstBlank(ThreadTexts(raw, parent), error)
  {
    if !NotARecord(raw) {
      ThreadErrorOrder(raw, parent, parse);
    }
    hide NormalizeThread;
    hide Blank;
    hide Field;
    assert ThreadTexts(raw, parent) == RequiredTexts(raw, parent);
  }

  /** What is wrong with the shape of a thread list, in the order it is checked. */
  lemma ListShape(payload: Json)
    ensures match ReadList(payload)
      case Ok(list) =>
        && Field(payload, "threads") == Some(Array(list.threads))
        && (match Field(payload, "members")
            case Some(Array(members)) => list.members == members
            case other => other in {None, Some(Null)} && list.members == [])
        && FlagAt(payload, "has_more", list.hasMore)
      case Err(error) =>
        if NotARecord(payload) then error == Api(DiscordApi, "Thread list payload was not an object.", false, NoDetails)
        else if !(Field(payload, "threads").Some? && Field(payload, "threads").value.Array?) then
          error == Api(DiscordApi, "Thread list payload is missing a threads array.", false, NoDetails)
        else error == Api(DiscordApi, "Thread list payload has a malformed members field.", false, NoDetails)
  {
    hide Field;
  }
}
