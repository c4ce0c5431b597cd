/**
 * Normalisation keeps what it reads: every normalised thread, member, channel and message can be written
 * back as a raw payload under the names Discord uses, and normalising that payload gives it again.
 */
module NormalForm {
  import opened Wrappers
  import opened Text
  import opened Calendar
  import opened Json
  import opened Discord
  import opened Normalize

  /** The engine reads the ISO strings it prints, as ECMAScript requires. */
  ghost predicate ReadsIso(parse: DateParser) {
    forall ms: Instant :: parse(String(IsoString(ms))) == Some(ms as int)
  }

  /** An engine that reads these strings and no others. */
  function IsoReader(): DateParser {
    (value: Json) => if value.String? then ParseIso(value.s) else None
  }

  lemma IsoReaderReads()
    ensures ReadsIso(IsoReader())
  {
    hide ParseIso;
    hide IsoString;
    forall ms: Instant ensures IsoReader()(String(IsoString(ms))) == Some(ms as int) {
      IsoRoundTrip(ms);
    }
  }

  function OptionalText(s: Option<string>): Json {
    match s
    case Some(text) => String(text)
    case None => Null
  }

  /** A timestamp is absent or the ISO string of an instant. */
  ghost predicate IsTimestamp(s: Option<string>) {
    s.None? || exists ms: Instant :: s.value == IsoString(ms)
  }

  lemma TimestampReadsBack(s: Option<string>, parse: DateParser)
    requires ReadsIso(parse) && IsTimestamp(s)
    ensures ToIso8601(Some(OptionalText(s)), parse) == s
  {
    hide IsoString;
    if s.Some? {
      var ms: Instant :| s.value == IsoString(ms);
      assert parse(String(s.value)) == Some(ms);
    }
  }

  lemma TimestampsAreInstants(value: Option<Json>, parse: DateParser)
    ensures IsTimestamp(ToIso8601(value, parse))
  {
    hide IsoString;
  }

  // ---------------------------------------------------------------- threads

  function RawThread(t: Thread): Json {
    Object(map[
      "id" := String(t.id),
      "guild_id" := String(t.guildId),
      "parent_id" := String(t.parentId),
      "name" := String(t.name),
      "type" := String(ThreadTypeText(t.threadType)),
      "archived" := Bool(t.archived),
      "locked" := Bool(t.locked),
      "auto_archive_duration" := Number(t.autoArchiveDuration),
      "archive_timestamp" := OptionalText(t.archiveTimestamp),
      "message_count" := Number(t.messageCount),
      "member_count" := Number(t.memberCount),
      "owner_id" := OptionalText(t.ownerId),
      "created_at" := OptionalText(t.createdAt),
      "last_activity_at" := OptionalText(t.lastActivityAt)
    ])
  }

  lemma RawThreadTexts(t: Thread)
    ensures var raw := RawThread(t);
      && IsRecord(Some(raw))
      && Field(raw, "id") == Some(String(t.id))
      && Field(raw, "guild_id") == Some(String(t.guildId))
      && Field(raw, "parent_id") == Some(String(t.parentId))
      && Field(raw, "name") == Some(String(t.name))
      && Field(raw, "type") == Some(String(ThreadTypeText(t.threadType)))
      && Field(raw, "owner_id") == Some(OptionalText(t.ownerId))
  {
    hide ThreadTypeText;
    hide OptionalText;
  }

  lemma RawThreadValues(t: Thread)
    ensures var raw := RawThread(t);
      && Field(raw, "archived") == Some(Bool(t.archived))
      && Field(raw, "locked") == Some(Bool(t.locked))
      && Field(raw, "auto_archive_duration") == Some(Number(t.autoArchiveDuration))
      && Field(raw, "message_count") == Some(Number(t.messageCount))
      && Field(raw, "member_count") == Some(Number(t.memberCount))
  {
    hide ThreadTypeText;
    hide OptionalText;
  }

  lemma RawThreadTimes(t: Thread)
    ensures var raw := RawThread(t);
      && Field(raw, "archive_timestamp") == Some(OptionalText(t.archiveTimestamp))
      && Field(raw, "created_at") == Some(OptionalText(t.createdAt))
      && Field(raw, "last_activity_at") == Some(OptionalText(t.lastActivityAt))
      && Field(raw, "thread_metadata") == None
  {
    hide ThreadTypeText;
    hide OptionalText;
  }

  lemma RawThreadTimestamps(t: Thread, parse: DateParser)
    requires ReadsIso(parse)
    requires IsTimestamp(t.archiveTimestamp) && IsTimestamp(t.createdAt) && IsTimestamp(t.lastActivityAt)
    ensures ToIso8601(RawArchiveTimestamp(RawThread(t)), parse) == t.archiveTimestamp
    ensures ToIso8601(Field(RawThread(t), "created_at"), parse) == t.createdAt
    ensures ToIso8601(RawLastActivity(RawThread(t)), parse) == t.lastActivityAt
  {
    hide RawThread;
    hide ReadsIso;
    hide IsTimestamp;
    hide IsoString;
    RawThreadTimes(t);
    TimestampReadsBack(t.archiveTimestamp, parse);
    TimestampReadsBack(t.createdAt, parse);
    TimestampReadsBack(t.lastActivityAt, parse);
    assert ToIso8601(None, parse) == None;
  }

  /** The number Discord sends for a thread type. */
  function ThreadTypeCode(kind: ThreadType): real {
    match kind
    case AnnouncementThread => 10.0
    case PublicThread => 11.0
    case PrivateThread => 12.0
  }

  lemma ThreadTypeReadsBack(kind: ThreadType)
    ensures NormalizeThreadType(Some(String(ThreadTypeText(kind)))) == Ok(kind)
    ensures NormalizeThreadType(Some(Number(ThreadTypeCode(kind)))) == Ok(kind)
  {
    assert ThreadTypeText(PrivateThread)[1] == 'R' && ThreadTypeText(PublicThread)[1] == 'U';
    assert ThreadTypeText(AnnouncementThread)[0] == 'A';
  }

  ghost predicate WellFormedThread(t: Thread) {
    && !Blank(t.id) && !Blank(t.guildId) && !Blank(t.parentId) && !Blank(t.name)
    && IsTimestamp(t.archiveTimestamp) && IsTimestamp(t.createdAt) && IsTimestamp(t.lastActivityAt)
  }

  lemma NormalizedThreadIsWellFormed(raw: Json, parent: Option<string>, parse: DateParser)
    requires NormalizeThread(raw, parent, parse).Ok?
    ensures WellFormedThread(NormalizeThread(raw, parent, parse).value)
  {
    hide Blank;
    hide IsTimestamp;
    hide ToIso8601;
    hide NormalizeThreadType;
    hide RawArchiveTimestamp;
    hide RawLastActivity;
    hide ParentId;
    TimestampsAreInstants(RawArchiveTimestamp(raw), parse);
    TimestampsAreInstants(Field(raw, "created_at"), parse);
    TimestampsAreInstants(RawLastActivity(raw), parse);
  }

  /** Non-blank texts are kept, and so are the timestamps when each is read back. */
  lemma ThreadIsImage(t: Thread, parse: DateParser)
    requires !Blank(t.id) && !Blank(t.guildId) && !Blank(t.parentId) && !Blank(t.name)
    requires ToIso8601(RawArchiveTimestamp(RawThread(t)), parse) == t.archiveTimestamp
    requires ToIso8601(Field(RawThread(t), "created_at"), parse) == t.createdAt
    requires ToIso8601(RawLastActivity(RawThread(t)), parse) == t.lastActivityAt
    ensures NormalizeThread(RawThread(t), None, parse) == Ok(t)
  {
    hide Blank;
    hide ThreadTypeText;
    hide RawThread;
    hide ToIso8601;
    hide NormalizeThreadType;
    hide RawArchiveTimestamp;
    hide RawLastActivity;
    hide Field;
    RawThreadTexts(t);
    RawThreadValues(t);
    ThreadTypeReadsBack(t.threadType);
  }

  lemma WellFormedThreadIsImage(t: Thread, parse: DateParser)
    requires ReadsIso(parse) && WellFormedThread(t)
    ensures NormalizeThread(RawThread(t), None, parse) == Ok(t)
  {
    hide NormalizeThread;
    hide RawThread;
    hide ReadsIso;
    hide Blank;
    hide IsTimestamp;
    RawThreadTimestamps(t, parse);
    ThreadIsImage(t, parse);
  }

  /** A thread without times needs nothing of the engine. */
  lemma UndatedThreadIsImage(t: Thread, parse: DateParser)
    requires !Blank(t.id) && !Blank(t.guildId) && !Blank(t.parentId) && !Blank(t.name)
    requires t.archiveTimestamp == None && t.createdAt == None && t.lastActivityAt == None
    ensures NormalizeThread(RawThread(t), None, parse) == Ok(t)
  {
    hide NormalizeThread;
    hide Blank;
    RawThreadTimes(t);
    hide RawThread;
    ThreadIsImage(t, parse);
  }

  /** Exactly the well-formed threads are what their raw form normalises to. */
  lemma ThreadReadsBack(t: Thread, parse: DateParser)
    requires ReadsIso(parse)
    ensures WellFormedThread(t) <==> NormalizeThread(RawThread(t), None, parse) == Ok(t)
  {
    hide ReadsIso;
    hide NormalizeThread;
    hide RawThread;
    hide WellFormedThread;
    if WellFormedThread(t) {
      WellFormedThreadIsImage(t, parse);
    } else if NormalizeThread(RawThread(t), None, parse).Ok? {
      NormalizedThreadIsWellFormed(RawThread(t), None, parse);
    }
  }

  /** Naming the parent the raw form has anyway changes nothing. */
  lemma ParentNamed(t: Thread, parse: DateParser)
    ensures NormalizeThread(RawThread(t), Some(t.parentId), parse) == NormalizeThread(RawThread(t), None, parse)
  {
    hide RawThread;
    hide ToIso8601;
    hide NormalizeThreadType;
    hide AssertNonEmpty;
    hide RawArchiveTimestamp;
    hide RawLastActivity;
    hide Field;
    RawThreadTexts(t);
    assert ParentId(RawThread(t), None) == t.parentId;
  }

  /** Whatever payload a thread was normalised from, its raw form normalises to the same thread. */
  lemma ThreadNormalForm(raw: Json, parent: Option<string>, parse: DateParser)
    requires ReadsIso(parse) && NormalizeThread(raw, parent, parse).Ok?
    ensures var t := NormalizeThread(raw, parent, parse).value; NormalizeThread(RawThread(t), None, parse) == Ok(t)
  {
    hide NormalizeThread;
    hide RawThread;
    hide WellFormedThread;
    NormalizedThreadIsWellFormed(raw, parent, parse);
    ThreadReadsBack(NormalizeThread(raw, parent, parse).value, parse);
  }

  /** The raw form with the archive time in the metadata and any value in its place at the top. */
  function ShadowedThread(t: Thread, shadow: Json): Json {
    Object(RawThread(t).fields[
      "archive_timestamp" := shadow][
      "thread_metadata" := Object(map["archive_timestamp" := OptionalText(t.archiveTimestamp)])])
  }

  lemma ShadowedFields(t: Thread, shadow: Json, key: string)
    requires |key| != |"archive_timestamp"| && |key| != |"thread_metadata"|
    ensures Field(ShadowedThread(t, shadow), key) == Field(RawThread(t), key)
  {
    hide RawThread;
    hide OptionalText;
    assert RawThread(t).Object? by {
      RawThreadIsObject(t);
    }
  }

  lemma RawThreadIsObject(t: Thread)
    ensures RawThread(t).Object?
  {
  }

  lemma ShadowedTimes(t: Thread, shadow: Json)
    requires t.archiveTimestamp.Some?
    ensures RawArchiveTimestamp(ShadowedThread(t, shadow)) == Some(OptionalText(t.archiveTimestamp))
    ensures RawLastActivity(ShadowedThread(t, shadow))
         == Some(OptionalText(if t.lastActivityAt.Some? then t.lastActivityAt else t.archiveTimestamp))
  {
    RawThreadIsObject(t);
    RawThreadTimes(t);
    ShadowedFields(t, shadow, "last_activity_at");
    hide RawThread;
    assert |"archive_timestamp"| != |"thread_metadata"|;
    var metadata := Object(map["archive_timestamp" := OptionalText(t.archiveTimestamp)]);
    assert Field(ShadowedThread(t, shadow), "thread_metadata") == Some(metadata);
    assert Field(metadata, "archive_timestamp") == Some(OptionalText(t.archiveTimestamp));
    hide ShadowedThread;
  }

  lemma ShadowedOthers(t: Thread, shadow: Json)
    ensures var raw, plain := ShadowedThread(t, shadow), RawThread(t);
      && Field(raw, "type") == Field(plain, "type") && Field(raw, "id") == Field(plain, "id")
      && Field(raw, "guild_id") == Field(plain, "guild_id") && Field(raw, "parent_id") == Field(plain, "parent_id")
      && Field(raw, "name") == Field(plain, "name") && Field(raw, "archived") == Field(plain, "archived")
      && Field(raw, "locked") == Field(plain, "locked") && Field(raw, "owner_id") == Field(plain, "owner_id")
      && Field(raw, "auto_archive_duration") == Field(plain, "auto_archive_duration")
      && Field(raw, "message_count") == Field(plain, "message_count")
      && Field(raw, "member_count") == Field(plain, "member_count")
      && Field(raw, "created_at") == Field(plain, "created_at")
  {
    hide ShadowedThread;
    hide RawThread;
    hide Field;
    ShadowedFields(t, shadow, "type");
    ShadowedFields(t, shadow, "id");
    ShadowedFields(t, shadow, "guild_id");
    ShadowedFields(t, shadow, "parent_id");
    ShadowedFields(t, shadow, "name");
    ShadowedFields(t, shadow, "archived");
    ShadowedFields(t, shadow, "locked");
    ShadowedFields(t, shadow, "owner_id");
    ShadowedFields(t, shadow, "auto_archive_duration");
    ShadowedFields(t, shadow, "message_count");
    ShadowedFields(t, shadow, "member_count");
    ShadowedFields(t, shadow, "created_at");
  }

  /**
   * With the archive time in the metadata, and any value in its place at the top, the thread is read back; the
   * metadata time also stands in for a missing activity time.
   */
  lemma ShadowedThreadReadsBack(t: Thread, shadow: Json, parse: DateParser)
    requires ReadsIso(parse) && WellFormedThread(t) && t.archiveTimestamp.Some?
    ensures NormalizeThread(ShadowedThread(t, shadow), None, parse)
         == Ok(t.(lastActivityAt := if t.lastActivityAt.Some? then t.lastActivityAt else t.archiveTimestamp))
  {
    hide ReadsIso;
    hide Blank;
    hide IsTimestamp;
    hide ShadowedThread;
    hide RawThread;
    hide ToIso8601;
    hide NormalizeThreadType;
    hide RawArchiveTimestamp;
    hide RawLastActivity;
    hide Field;
    hide ThreadTypeText;
    ShadowedIsRecord(t, shadow);
    ShadowedTimes(t, shadow);
    ShadowedOthers(t, shadow);
    RawThreadTexts(t);
    RawThreadValues(t);
    RawThreadTimes(t);
    ThreadTypeReadsBack(t.threadType);
    TimestampReadsBack(t.archiveTimestamp, parse);
    TimestampReadsBack(t.createdAt, parse);
    TimestampReadsBack(t.lastActivityAt, parse);
  }

  lemma ShadowedIsRecord(t: Thread, shadow: Json)
    ensures IsRecord(Some(ShadowedThread(t, shadow)))
  {
  }

  /** The payload with another archive time at the top. */
  function WithTopTime(raw: Json, shadow: Json): Json {
    if raw.Object? then Object(raw.fields["archive_timestamp" := shadow]) else raw
  }

  lemma TopTimeIsOneField(raw: Json, shadow: Json, key: string)
    requires |key| != |"archive_timestamp"|
    ensures Field(WithTopTime(raw, shadow), key) == Field(raw, key)
  {
  }

  lemma TopTimeLeavesOthers(raw: Json, shadow: Json)
    ensures var other := WithTopTime(raw, shadow);
      && IsRecord(Some(other)) == IsRecord(Some(raw))
      && Field(other, "type") == Field(raw, "type") && Field(other, "id") == Field(raw, "id")
      && Field(other, "guild_id") == Field(raw, "guild_id") && Field(other, "parent_id") == Field(raw, "parent_id")
      && Field(other, "name") == Field(raw, "name") && Field(other, "archived") == Field(raw, "archived")
      && Field(other, "locked") == Field(raw, "locked") && Field(other, "owner_id") == Field(raw, "owner_id")
      && Field(other, "auto_archive_duration") == Field(raw, "auto_archive_duration")
      && Field(other, "message_count") == Field(raw, "message_count")
      && Field(other, "member_count") == Field(raw, "member_count")
      && Field(other, "created_at") == Field(raw, "created_at")
      && Field(other, "last_activity_at") == Field(raw, "last_activity_at")
      && Field(other, "thread_metadata") == Field(raw, "thread_metadata")
  {
    TopTimeIsOneField(raw, shadow, "type");
    TopTimeIsOneField(raw, shadow, "id");
    TopTimeIsOneField(raw, shadow, "guild_id");
    TopTimeIsOneField(raw, shadow, "parent_id");
    TopTimeIsOneField(raw, shadow, "name");
    TopTimeIsOneField(raw, shadow, "archived");
    TopTimeIsOneField(raw, shadow, "locked");
    TopTimeIsOneField(raw, shadow, "owner_id");
    TopTimeIsOneField(raw, shadow, "auto_archive_duration");
    TopTimeIsOneField(raw, shadow, "message_count");
    TopTimeIsOneField(raw, shadow, "member_count");
    TopTimeIsOneField(raw, shadow, "created_at");
    TopTimeIsOneField(raw, shadow, "last_activity_at");
    TopTimeIsOneField(raw, shadow, "thread_metadata");
    hide Field;
  }

  /**
   * An archive time in the metadata wins: whatever stands at the top of any payload changes nothing, and the
   * archive time of the thread is the ISO form of the one in the metadata.
   */
  lemma MetadataTimeWins(raw: Json, shadow: Json, parent: Option<string>, parse: DateParser)
    requires !Nullish(MetadataTimestamp(raw))
    ensures NormalizeThread(WithTopTime(raw, shadow), parent, parse) == NormalizeThread(raw, parent, parse)
    ensures NormalizeThread(raw, parent, parse).Ok? ==>
              NormalizeThread(raw, parent, parse).value.archiveTimestamp == ToIso8601(MetadataTimestamp(raw), parse)
  {
    hide WithTopTime;
    hide Field;
    hide Blank;
    hide ToIso8601;
    hide NormalizeThreadType;
    TopTimeLeavesOthers(raw, shadow);
    assert MetadataTimestamp(WithTopTime(raw, shadow)) == MetadataTimestamp(raw);
    hide MetadataTimestamp;
  }

  // ---------------------------------------------------------------- members and channels

  function RawMember(m: Member): Json {
    Object(map[
      "thread_id" := String(m.threadId),
      "user_id" := String(m.userId),
      "join_timestamp" := OptionalText(m.joinTimestamp),
      "flags" := Number(m.flags)
    ])
  }

  lemma RawMemberFields(m: Member)
    ensures var raw := RawMember(m);
      && IsRecord(Some(raw))
      && Field(raw, "thread_id") == Some(String(m.threadId)) && Field(raw, "user_id") == Some(String(m.userId))
      && Field(raw, "join_timestamp") == Some(OptionalText(m.joinTimestamp)) && Field(raw, "flags") == Some(Number(m.flags))
  {
    hide OptionalText;
  }

  ghost predicate WellFormedMember(m: Member) {
    !Blank(m.threadId) && !Blank(m.userId) && IsTimestamp(m.joinTimestamp)
  }

  /** Exactly the well-formed members are what their raw form normalises to. */
  lemma MemberReadsBack(m: Member, parse: DateParser)
    requires ReadsIso(parse)
    ensures WellFormedMember(m) <==> NormalizeMember(RawMember(m), parse) == Ok(m)
  {
    hide ReadsIso;
    hide Blank;
    hide IsTimestamp;
    hide RawMember;
    hide ToIso8601;
    hide Field;
    RawMemberFields(m);
    TimestampsAreInstants(Field(RawMember(m), "join_timestamp"), parse);
    if IsTimestamp(m.joinTimestamp) {
      TimestampReadsBack(m.joinTimestamp, parse);
    }
  }

  /** A member without a join time needs nothing of the engine. */
  lemma UndatedMemberIsImage(m: Member, parse: DateParser)
    requires !Blank(m.threadId) && !Blank(m.userId) && m.joinTimestamp == None
    ensures NormalizeMember(RawMember(m), parse) == Ok(m)
  {
    hide Blank;
    RawMemberFields(m);
    hide RawMember;
    hide Field;
  }

  function ChannelTypeText(kind: ChannelType): string {
    match kind
    case GuildText => "GUILD_TEXT"
    case GuildForum => "GUILD_FORUM"
    case GuildAnnouncement => "GUILD_ANNOUNCEMENT"
    case GuildMedia => "GUILD_MEDIA"
    case OtherChannel => "OTHER"
  }

  function ChannelTypeCode(kind: ChannelType): real
    requires !kind.OtherChannel?
  {
    match kind
    case GuildText => 0.0
    case GuildAnnouncement => 5.0
    case GuildForum => 15.0
    case GuildMedia => 16.0
  }

  lemma ChannelTypeReadsBack(kind: ChannelType)
    ensures NormalizeChannelType(Some(String(ChannelTypeText(kind)))) == kind
    ensures !kind.OtherChannel? ==> NormalizeChannelType(Some(Number(ChannelTypeCode(kind)))) == kind
  {
    assert "GUILD_TEXT"[6] == 'T' && "GUILD_FORUM"[6] == 'F' && "GUILD_MEDIA"[6] == 'M' && "GUILD_ANNOUNCEMENT"[6] == 'A';
    assert |"OTHER"| == 5;
  }

  function RawChannel(c: Channel): Json {
    Object(map["id" := String(c.id), "name" := String(c.name), "type" := String(ChannelTypeText(c.kind))])
  }

  /**
   * Exactly the channels with non-blank texts, and a capability that says whether their type is one of the
   * four threads hang under, are what their raw form normalises to.
   */
  lemma ChannelReadsBack(c: Channel)
    ensures NormalizeChannel(RawChannel(c), c.guildId) == Ok(c) <==>
      && !Blank(c.id) && !Blank(c.name) && !Blank(c.guildId)
      && (c.isThreadCapable <==> c.kind in {GuildText, GuildForum, GuildAnnouncement, GuildMedia})
  {
    hide Blank;
    hide NormalizeChannelType;
    hide ChannelTypeText;
    hide RawChannel;
    hide Field;
    RawChannelFields(c);
    ChannelTypeReadsBack(c.kind);
  }

  lemma RawChannelFields(c: Channel)
    ensures var raw := RawChannel(c);
      && IsRecord(Some(raw)) && Field(raw, "id") == Some(String(c.id)) && Field(raw, "name") == Some(String(c.name))
      && Field(raw, "type") == Some(String(ChannelTypeText(c.kind)))
  {
    hide ChannelTypeText;
  }

  // ---------------------------------------------------------------- messages

  function RawAttachment(a: Attachment): Json {
    Object(map[
      "id" := String(a.id),
      "filename" := String(a.filename),
      "content_type" := OptionalText(a.contentType),
      "size" := Number(a.size),
      "url" := String(a.url)
    ])
  }

  function RawAttachments(attachments: seq<Attachment>): (raws: seq<Json>)
    ensures |raws| == |attachments|
  {
    if attachments == [] then [] else [RawAttachment(attachments[0])] + RawAttachments(attachments[1..])
  }

  lemma RawAttachmentFields(a: Attachment)
    ensures var raw := RawAttachment(a);
      && Field(raw, "id") == Some(String(a.id)) && Field(raw, "filename") == Some(String(a.filename))
      && Field(raw, "content_type") == Some(OptionalText(a.contentType))
      && Field(raw, "size") == Some(Number(a.size)) && Field(raw, "url") == Some(String(a.url))
  {
    hide OptionalText;
  }

  lemma AttachmentReadsBack(a: Attachment)
    ensures AttachmentList([RawAttachment(a)]) == [a]
  {
    RawAttachmentFields(a);
    assert IsRecord(Some(RawAttachment(a)));
    hide RawAttachment;
    hide Field;
    assert AttachmentList([RawAttachment(a)][1..]) == [];
  }

  lemma {:induction false} AttachmentsReadBack(attachments: seq<Attachment>)
    ensures AttachmentList(RawAttachments(attachments)) == attachments
  {
    if attachments != [] {
      var raws := RawAttachments(attachments);
      hide RawAttachment;
      AttachmentReadsBack(attachments[0]);
      AttachmentsReadBack(attachments[1..]);
      assert raws[1..] == RawAttachments(attachments[1..]);
      AttachmentListStep(raws[0], raws[1..]);
      assert raws == [raws[0]] + raws[1..];
    }
  }

  function MessageTypeText(kind: MessageType): string {
    match kind
    case Default => "DEFAULT"
    case Reply => "REPLY"
    case ThreadStarterMessage => "THREAD_STARTER_MESSAGE"
    case System => "SYSTEM"
    case OtherMessage => "OTHER"
  }

  function MessageTypeCode(kind: MessageType): real
    requires kind.Default? || kind.Reply? || kind.ThreadStarterMessage?
  {
    match kind
    case Default => 0.0
    case Reply => 1.0
    case ThreadStarterMessage => 19.0
  }

  /** Types read back from their names, and three from their numbers; no number is a system message. */
  lemma MessageTypeReadsBack(kind: MessageType)
    ensures NormalizeMessageType(Some(String(MessageTypeText(kind)))) == kind
    ensures kind.Default? || kind.Reply? || kind.ThreadStarterMessage? ==>
              NormalizeMessageType(Some(Number(MessageTypeCode(kind)))) == kind
    ensures forall n: real :: NormalizeMessageType(Some(Number(n))) != System
  {
    assert "DEFAULT"[0] == 'D' && "REPLY"[0] == 'R' && "THREAD_STARTER_MESSAGE"[0] == 'T' && "SYSTEM"[0] == 'S' && "OTHER"[0] == 'O';
  }

  function RawAuthor(a: Author): Json {
    Object(map["id" := String(a.id), "username" := String(a.username), "global_name" := OptionalText(a.globalName)])
  }

  function RawReference(id: Option<string>): Json {
    match id
    case Some(s) => Object(map["id" := String(s)])
    case None => Null
  }

  function RawMessage(m: Message): Json {
    Object(map[
      "id" := String(m.id),
      "author" := RawAuthor(m.author),
      "content" := String(m.content),
      "created_at" := String(m.createdAt),
      "edited_at" := OptionalText(m.editedAt),
      "type" := String(MessageTypeText(m.messageType)),
      "attachments" := Array(RawAttachments(m.attachments)),
      "referenced_message" := RawReference(m.referencedMessageId)
    ])
  }

  lemma RawMessageFields(m: Message)
    ensures var raw := RawMessage(m);
      && IsRecord(Some(raw))
      && Field(raw, "id") == Some(String(m.id)) && Field(raw, "author") == Some(RawAuthor(m.author))
      && Field(raw, "content") == Some(String(m.content)) && Field(raw, "created_at") == Some(String(m.createdAt))
      && Field(raw, "edited_at") == Some(OptionalText(m.editedAt))
      && Field(raw, "type") == Some(String(MessageTypeText(m.messageType)))
      && Field(raw, "attachments") == Some(Array(RawAttachments(m.attachments)))
      && Field(raw, "referenced_message") == Some(RawReference(m.referencedMessageId))
  {
    hide OptionalText;
    hide RawAuthor;
    hide RawAttachments;
    hide RawReference;
    hide MessageTypeText;
  }

  lemma RawAuthorFields(m: Message)
    ensures var raw := RawMessage(m);
      && AuthorField(raw, "id") == Some(String(m.author.id))
      && AuthorField(raw, "username") == Some(String(m.author.username))
      && AuthorField(raw, "global_name") == Some(OptionalText(m.author.globalName))
  {
    RawMessageFields(m);
    hide RawMessage;
    hide OptionalText;
  }

  lemma RawReferenceReadsBack(m: Message)
    requires m.referencedMessageId != Some("")
    ensures ReferencedId(RawMessage(m)) == m.referencedMessageId
  {
    RawMessageFields(m);
    hide RawMessage;
  }

  lemma AttachmentsField(m: Message)
    ensures NormalizeAttachments(Field(RawMessage(m), "attachments")) == m.attachments
  {
    RawMessageFields(m);
    AttachmentsReadBack(m.attachments);
    hide RawMessage;
    hide RawAttachments;
    hide AttachmentList;
  }

  ghost predicate WellFormedMessage(m: Message) {
    && !Blank(m.id) && !Blank(m.author.id) && !Blank(m.author.username) && !Blank(m.createdAt)
    && (exists ms: Instant :: m.createdAt == IsoString(ms))
    && IsTimestamp(m.editedAt)
    && m.referencedMessageId != Some("")
  }

  lemma CreatedAtReadsBack(createdAt: string, parse: DateParser)
    requires ReadsIso(parse) && exists ms: Instant :: createdAt == IsoString(ms)
    ensures CreatedAt(createdAt, parse) == Ok(createdAt)
  {
    hide IsoString;
    var ms: Instant :| createdAt == IsoString(ms);
    assert parse(String(createdAt)) == Some(ms);
  }

  lemma CreatedAtIsInstant(createdAt: string, parse: DateParser)
    requires CreatedAt(createdAt, parse).Ok?
    ensures exists ms: Instant :: CreatedAt(createdAt, parse).value == IsoString(ms)
    ensures !Blank(CreatedAt(createdAt, parse).value)
  {
    hide IsoString;
    hide Blank;
    IsoIsVisible(DateOf(Some(String(createdAt)), parse).value);
  }

  lemma ReferencedIdIsNotEmpty(raw: Json)
    ensures ReferencedId(raw) != Some("")
  {
    hide Field;
  }

  lemma NormalizedMessageIsWellFormed(raw: Json, threadId: string, parse: DateParser)
    requires NormalizeMessage(raw, threadId, parse).Ok?
    ensures WellFormedMessage(NormalizeMessage(raw, threadId, parse).value)
    ensures NormalizeMessage(raw, threadId, parse).value.threadId == threadId
  {
    hide Blank;
    hide IsoString;
    hide IsTimestamp;
    hide ToIso8601;
    hide NormalizeAttachments;
    hide NormalizeMessageType;
    hide AuthorField;
    ReferencedIdIsNotEmpty(raw);
    hide ReferencedId;
    var created := AsString(Field(raw, "created_at"));
    CreatedAtIsInstant(created, parse);
    TimestampsAreInstants(Field(raw, "edited_at"), parse);
    hide CreatedAt;
  }

  lemma WellFormedMessageIsImage(m: Message, parse: DateParser)
    requires ReadsIso(parse) && WellFormedMessage(m)
    ensures NormalizeMessage(RawMessage(m), m.threadId, parse) == Ok(m)
  {
    hide ReadsIso;
    hide Blank;
    hide IsoString;
    hide IsTimestamp;
    hide RawMessage;
    hide RawAuthor;
    hide RawReference;
    hide RawAttachments;
    hide NormalizeAttachments;
    hide ToIso8601;
    hide NormalizeMessageType;
    hide MessageTypeText;
    hide ReferencedId;
    hide AuthorField;
    hide CreatedAt;
    hide Field;
    RawMessageFields(m);
    RawAuthorFields(m);
    RawReferenceReadsBack(m);
    MessageTypeReadsBack(m.messageType);
    AttachmentsField(m);
    CreatedAtReadsBack(m.createdAt, parse);
    TimestampReadsBack(m.editedAt, parse);
  }

  /** Exactly the well-formed messages are what their raw form normalises to. */
  lemma MessageReadsBack(m: Message, parse: DateParser)
    requires ReadsIso(parse)
    ensures WellFormedMessage(m) <==> NormalizeMessage(RawMessage(m), m.threadId, parse) == Ok(m)
  {
    hide ReadsIso;
    hide NormalizeMessage;
    hide RawMessage;
    hide WellFormedMessage;
    if WellFormedMessage(m) {
      WellFormedMessageIsImage(m, parse);
    } else if NormalizeMessage(RawMessage(m), m.threadId, parse).Ok? {
      NormalizedMessageIsWellFormed(RawMessage(m), m.threadId, parse);
    }
  }

  /** Whatever payload a message was normalised from, its raw form normalises to the same message. */
  lemma MessageNormalForm(raw: Json, threadId: string, parse: DateParser)
    requires ReadsIso(parse) && NormalizeMessage(raw, threadId, parse).Ok?
    ensures var m := NormalizeMessage(raw, threadId, parse).value; NormalizeMessage(RawMessage(m), threadId, parse) == Ok(m)
  {
    hide NormalizeMessage;
    hide RawMessage;
    hide WellFormedMessage;
    NormalizedMessageIsWellFormed(raw, threadId, parse);
    MessageReadsBack(NormalizeMessage(raw, threadId, parse).value, parse);
  }
}
