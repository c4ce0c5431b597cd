/** The normalised shapes of discord/types.ts and the thrown errors of lib/errors.ts. */
module Discord {
  import opened Wrappers
  import Json

  datatype ChannelType = GuildText | GuildForum | GuildAnnouncement | GuildMedia | OtherChannel

  datatype ThreadType = PublicThread | PrivateThread | AnnouncementThread

  /** The name of a thread type, as the normalised shape spells it. */
  function ThreadTypeText(t: ThreadType): (s: string)
    ensures '\n' !in s
  {
    match t
    case PublicThread => "PUBLIC_THREAD"
    case PrivateThread => "PRIVATE_THREAD"
    case AnnouncementThread => "ANNOUNCEMENT_THREAD"
  }

  datatype MessageType = Default | Reply | ThreadStarterMessage | System | OtherMessage

  datatype Scope = Public | Private | JoinedPrivate

  datatype Channel = Channel(id: string, guildId: string, name: string, kind: ChannelType, isThreadCapable: bool)

  datatype Thread = Thread(
    id: string,
    guildId: string,
    parentId: string,
    name: string,
    threadType: ThreadType,
    archived: bool,
    locked: bool,
    autoArchiveDuration: real,
    archiveTimestamp: Option<string>,
    messageCount: real,
    memberCount: real,
    ownerId: Option<string>,
    createdAt: Option<string>,
    lastActivityAt: Option<string>
  )

  datatype Member = Member(threadId: string, userId: string, joinTimestamp: Option<string>, flags: real)

  datatype Author = Author(id: string, username: string, globalName: Option<string>)

  datatype Attachment = Attachment(
    id: string,
    filename: string,
    contentType: Option<string>,
    size: real,
    url: string
  )

  datatype Message = Message(
    id: string,
    threadId: string,
    author: Author,
    content: string,
    createdAt: string,
    editedAt: Option<string>,
    messageType: MessageType,
    attachments: seq<Attachment>,
    referencedMessageId: Option<string>
  )

  datatype GuildChannels = GuildChannels(guildId: string, channels: seq<Channel>, partial: bool)

  datatype ActiveThreads =
    ActiveThreads(guildId: string, threads: seq<Thread>, members: seq<Member>, partial: bool)

  datatype ArchivedThreads = ArchivedThreads(
    channelId: string,
    scope: Scope,
    threads: seq<Thread>,
    members: seq<Member>,
    hasMore: bool,
    nextCursor: Option<string>,
    partial: bool
  )

  datatype ThreadMessages = ThreadMessages(threadId: string, messages: seq<Message>, partial: bool)

  // ---------------------------------------------------------------- errors

  datatype ErrorCode =
    | InvalidInput
    | NotFound
    | PermissionDenied
    | RateLimited
    | DiscordApi
    | UnsupportedChannelType
    | GuildNotAllowed
    | ToolExecutionFailed

  datatype Details =
    | NoDetails
    | RawType(raw: Option<Json.Json>)
    | Guild(guildId: string, allowed: set<string>)
    | Http(status: int, retryAfter: Option<string>, body: Json.Json)
    | Issues

  /** `DiscordApiError`, any other `Error`, or a `ZodError` named after the schema that refused. */
  datatype Thrown =
    | Api(code: ErrorCode, message: string, retryable: bool, details: Details)
    | Plain(message: string)
    | Invalid(schema: string)
}
