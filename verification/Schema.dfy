/** The output schemas of lib/schema.ts, as predicates on the normalised shapes. */
module Schema {
  import opened Wrappers
  import opened Calendar
  import opened Discord

  /** `z.number().int()` on a finite number. */
  predicate IsWhole(x: real) {
    x == x.Floor as real
  }

  predicate NonNegativeInt(x: real) {
    IsWhole(x) && x >= 0.0
  }

  predicate PositiveInt(x: real) {
    IsWhole(x) && x > 0.0
  }

  predicate NullableDatetime(s: Option<string>) {
    s.None? || IsDatetime(s.value)
  }

  predicate ThreadCapable(kind: ChannelType) {
    !kind.OtherChannel?
  }

  predicate ThreadSchema(t: Thread) {
    && PositiveInt(t.autoArchiveDuration)
    && NullableDatetime(t.archiveTimestamp)
    && NonNegativeInt(t.messageCount)
    && NonNegativeInt(t.memberCount)
    && NullableDatetime(t.createdAt)
    && NullableDatetime(t.lastActivityAt)
  }

  predicate MemberSchema(m: Member) {
    NullableDatetime(m.joinTimestamp) && IsWhole(m.flags)
  }

  predicate AttachmentSchema(a: Attachment) {
    NonNegativeInt(a.size)
  }

  predicate MessageSchema(m: Message) {
    && IsDatetime(m.createdAt)
    && NullableDatetime(m.editedAt)
    && forall i | 0 <= i < |m.attachments| :: AttachmentSchema(m.attachments[i])
  }

  predicate ThreadsSchema(threads: seq<Thread>, members: seq<Member>) {
    && (forall i | 0 <= i < |threads| :: ThreadSchema(threads[i]))
    && (forall i | 0 <= i < |members| :: MemberSchema(members[i]))
  }

  predicate MessagesSchema(messages: seq<Message>) {
    forall i | 0 <= i < |messages| :: MessageSchema(messages[i])
  }

  // ---------------------------------------------------------------- the archive scope

  function ScopeText(scope: Scope): string {
    match scope
    case Public => "public"
    case Private => "private"
    case JoinedPrivate => "joined_private"
  }

  function ParseScope(text: string): Result<Scope, Thrown> {
    if text == "public" then Ok(Public)
    else if text == "private" then Ok(Private)
    else if text == "joined_private" then Ok(JoinedPrivate)
    else Err(Invalid("ArchiveScope"))
  }

  lemma ScopeRoundTrip(scope: Scope)
    ensures ParseScope(ScopeText(scope)) == Ok(scope)
  {
    assert ScopeText(Private)[1] != ScopeText(Public)[1] && ScopeText(JoinedPrivate)[0] == 'j';
  }

  // ---------------------------------------------------------------- parsing outputs

  // `schema.parse`: the value itself, or a validation error. A guild channel list has only strings,
  // enum values and booleans, so its schema accepts every list the types allow.

  function ParseGuildChannels(r: GuildChannels): Result<GuildChannels, Thrown> {
    Ok(r)
  }

  function ParseActiveThreads(r: ActiveThreads): Result<ActiveThreads, Thrown> {
    if ThreadsSchema(r.threads, r.members) then Ok(r) else Err(Invalid("ListActiveThreadsOutput"))
  }

  function ParseArchivedThreads(r: ArchivedThreads): Result<ArchivedThreads, Thrown> {
    if ThreadsSchema(r.threads, r.members) then Ok(r) else Err(Invalid("ListArchivedThreadsOutput"))
  }

  function ParseThreadMessages(r: ThreadMessages): Result<ThreadMessages, Thrown> {
    if MessagesSchema(r.messages) then Ok(r) else Err(Invalid("GetThreadMessagesOutput"))
  }
}
