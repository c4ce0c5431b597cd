# Discord fetch template and fixture validator: a Dafny model

The model covers two programs of the repository: the Discord fetch template under `templates/` and one validator
under `scripts/tools/`.

**The `discord-fetch-mcp` template** is a read-only server that asks Discord for channels, threads and
messages, normalises the JSON it gets, checks a guild allowlist, validates its output and wraps it in an
envelope. The model has

- `Guards`, `Text`, `Calendar`, `Json`: the limit clamp, the allowlist parser, string splitting and trimming,
  the ISO strings of `toISOString` on the proleptic Gregorian calendar, and the loosely typed readers;
- `Discord`, `Schema`, `Normalize`, `Payloads`, `NormalForm`: the normalised shapes, the output schemas as predicates,
  the normalisers with thrown errors as results, where each field and each error comes from, and the raw forms that
  show what normalising keeps;
- `Client`, `Outcomes`, `Tools`, `Handlers`, `Resources`: the client operations over a transport that maps each request
  to a reply, with the request each makes and its answer to each response written out; the handlers, with their input
  schemas as tables and their answers told by the keys of the raw input; what the resources load, and which answers
  the guild list governs;
- `Pagination`, `ArchiveRun`, `RunEnding`: whole runs over the archived threads of a channel, first on a list of times
  in microseconds, then on the JSON the client really reads and the ISO cursors it really sends, and which runs end
  when times are not readable;
- `CacheKeys`, `ResourceUris`, `Markdown`: the printers of cache keys, resource URIs and the markdown export,
  each with a reader, and with the inputs they print alike;
- `Wrappers`, `Sequences`: absent values, thrown errors, and order-preserving selection (`Sequences.Pick`), the
  reference for every filter and for what a run sees.

**The registry-disposition fixture validator** is a Python loop over test cases (`FixtureValidator`), with the
JSON Schema verdict as a parameter.

Some promises one might read into the code are false, and the model says exactly when they hold:

- a paged run over archived threads is complete for every choice of limits only if no two archive times share a
  millisecond, because the cursor is cut to milliseconds (`Pagination.CompleteForEveryLimitIff`, and for the client
  itself `ArchiveRun.ClientCompleteIff`);
- a page that says there is more hands on no cursor when it is empty or its last thread has no readable time
  (`ArchiveRun.CursorIsMissingIff`), and the next call then starts over. With unreadable times runs still end for every
  choice of limits exactly when no page can end in such a thread: each of them, unless it is the very last, stands
  behind as many threads of its own millisecond as one call may ask for (`RunEnding.EndsForEveryLimitIff`);
- the configured guild list does not govern every answer. It governs the guild the channel handler is asked for, the
  threads of an archived answer, the thread of a lookup, and the thread looked up before messages or an export. It does
  not govern the members of an archived answer, the threads of the active handler and resource, and what the channels
  and messages resources return. Over all responses each of these stays within the list exactly when the list names no guild
  (`Resources.ArchivedMembersListedIff`, `Resources.ActiveThreadsListedIff`, `Resources.ChannelsListedIff`,
  `Resources.MessagesListedIff`);
- two requests can share a resource URI, but only in one way: the metadata of a thread whose id spells another
  thread's messages URI (`ResourceUris.UrisCollideIff`);
- two requests can share a cache key, when an id, or the time of an archived listing, brings a second link such as
  `:parent:` or `:scope:public:before:` into the key; for guild channels that never happens
  (`CacheKeys.KeysAgreeIff` for any two requests, `CacheKeys.SharedIff` for requests the input schemas accept);
- different threads can have one markdown export, by a line break, by a colon and a space in a user name, or by an
  activity time spelled `null` (`Markdown.LineBreakImitatesMessage`, `Markdown.SeparatorImitatesContent`,
  `Markdown.NullImitatesNone`). Exports whose fields break no line are told apart otherwise
  (`Markdown.ExportsAgreeIff`), and the reader given here recovers an export exactly when its fields hold none of these
  (`Markdown.ExportRoundTrip`).

The readers for keys and URIs go by colons and slashes, so what they recover (`CacheKeys.KeyRoundTrip`,
`ResourceUris.UriRoundTrip`) is a fact about them; which requests the printers keep apart is said without a reader.

Where the code and what surrounds it differ, the model follows the code:

- `discord/client.ts` imports `DiscordArchiveScopeSchema`, which `lib/schema.ts` does not export; the model takes
  it to be `ArchiveScopeSchema`.
- A message is dropped as a system message only when its raw type is the string `SYSTEM`. The numbers Discord
  sends for system messages are read as `OTHER` and kept.
- The template of the messages resource has `limit=100` as literal text, so no `limit` parameter ever reaches its
  handler.
- A response that fails its output schema is reported under the code `invalid_input`, like bad input.

Dates in strings are read by the JavaScript engine; the model takes that reading as a parameter and asks of it
only, in `NormalForm`, that the engine reads the ISO strings it prints, which a parser written here does
(`NormalForm.IsoReaderReads`). Times are cut to milliseconds by flooring.

## Model

| member | source | states |
|---|---|---|
| Pagination.Run | templates/discord-fetch-mcp/src/discord/client.ts:131-160 | A run is one call per page, each starting before the cursor of the one before; it is well-founded because fewer threads are older than each next cursor, and it has at least one page. |
| Pagination.PageMakesProgress | templates/discord-fetch-mcp/src/discord/client.ts:142-158 | A page with more to come is full, its cursor is earlier than the one it was asked with, and strictly fewer threads are older than it. |
| Pagination.RunLength | templates/discord-fetch-mcp/src/discord/client.ts:157-158 | A run makes at most as many calls as there are threads older than its cursor, and one when there are none. |
| Pagination.RunEnds | templates/discord-fetch-mcp/src/discord/client.ts:157 | Every page but the last says there is more, and the last does not. |
| Pagination.RunSees | templates/discord-fetch-mcp/src/discord/client.ts:158 | From any cursor on, a run shows exactly the threads that are older and do not follow a page's last thread within its millisecond. |
| Pagination.WholeRun | templates/discord-fetch-mcp/src/discord/client.ts:131-160 | Over every archive sorted by descending microsecond and every sequence of limits, a whole run yields the archive, in order and none twice, without exactly the threads that follow a page's last thread and share its millisecond; it is complete exactly when there is no such thread. |
| Pagination.CompleteWhenMillisDiffer | templates/discord-fetch-mcp/src/lib/time.ts:1-8 | When archive times differ at millisecond resolution every thread appears exactly once, in order, whatever the limits. |
| Pagination.OneByOneMisses | templates/discord-fetch-mcp/src/lib/time.ts:7 | When two archive times share a millisecond, a run with limit 1 misses a thread. |
| Pagination.CompleteForEveryLimitIff | templates/discord-fetch-mcp/src/lib/time.ts:1-8 | Runs are complete for every choice of limits exactly when no two archive times share a millisecond. |
| ArchiveRun.CallShowsPage | templates/discord-fetch-mcp/src/discord/client.ts:131-161 | One call of the client on the JSON of a serving archive shows one page: its threads normalised, its flag, and as next_cursor the ISO string of the last thread's millisecond. |
| ArchiveRun.CallShowsAnyPage | templates/discord-fetch-mcp/src/discord/client.ts:131-161 | Also when archive times are not readable one call shows one page, and hands on no cursor exactly when the page is empty or its last time is not readable. |
| ArchiveRun.RunShowsPages | templates/discord-fetch-mcp/src/discord/client.ts:131-161 | Any run of the client shows, call by call, the pages of the abstract run. |
| ArchiveRun.RunExists | templates/discord-fetch-mcp/src/discord/client.ts:131-161 | Against a serving archive no call fails and the calls come to an end. |
| ArchiveRun.ClientRun | templates/discord-fetch-mcp/src/discord/client.ts:131-161 | A whole run of the client makes at most one call per archived thread and returns, in order and normalised, exactly the threads not skipped within a millisecond. |
| ArchiveRun.ClientRunIsComplete | templates/discord-fetch-mcp/src/discord/client.ts:152-160 | With archive times a millisecond apart the client returns every thread once, in order. |
| ArchiveRun.ClientCompleteIff | templates/discord-fetch-mcp/src/discord/client.ts:131-161 | Every run of the client, for every choice of limits, returns every thread once and in order exactly when no two archive times share a millisecond. |
| ArchiveRun.CursorIsMissingIff | templates/discord-fetch-mcp/src/discord/client.ts:157-158 | For every payload that is accepted, the result hands on a cursor exactly when the last raw thread has a readable archive time, whatever it says about more to come. |
| ArchiveRun.NoRunWithoutCursor | templates/discord-fetch-mcp/src/discord/client.ts:157-158 | When the first page says there is more and hands on no cursor, for every limit still to come, calls start over and no run comes to an end. |
| ArchiveRun.ArchiveServerServes | templates/discord-fetch-mcp/src/discord/client.ts:138-147 | A server with a public, a private and a joined archive of the channel, each at its path, that reads the cursor string back to its instant and answers with the page before it, meets the assumptions for each scope, for every sorted archive of admissible entries; with every time readable when the entries are good. |
| ArchiveRun.ScopeShowsItsArchive | templates/discord-fetch-mcp/src/discord/endpoints.ts:12-22 | From such a server a public, private or joined_private listing shows the page of its own archive, from the cursor given and as large as the limit and the ceiling allow, under its own label. |
| ArchiveRun.RawThreadIsGood | templates/discord-fetch-mcp/src/discord/client.ts:148-151 | Every well-formed thread of an allowed guild that fits the schema makes an entry such an archive may hold, at any microsecond of its archive millisecond. |
| RunEnding.EndsForEveryLimitIff | templates/discord-fetch-mcp/src/discord/client.ts:157-158 | With times that need not be readable, the client's runs come to an end for every choice of limits exactly when every thread without a readable time, other than the very last, stands behind at least as many threads of its own millisecond as one call may ask for. |
| RunEnding.ReadableTimesEnd | templates/discord-fetch-mcp/src/discord/client.ts:157-158 | With readable times every run ends, whatever the limits. |
| RunEnding.NoRunInCycle | templates/discord-fetch-mcp/src/discord/client.ts:157-158 | Limits whose calls all say there is more and lead back to no cursor make, asked for over and over, no run. |
| RunEnding.UndatedThreadIsAdmissible | templates/discord-fetch-mcp/src/discord/normalize.ts:147-171 | Every thread without times of an allowed guild makes an entry such an archive may hold, without a readable time. |
| RunEnding.EmptyPageStartsOver | templates/discord-fetch-mcp/src/discord/client.ts:157-158 | A server that always sends a page without threads and says there is more makes the listing start over, for every limit. |
| Calendar.IsoRoundTrip | templates/discord-fetch-mcp/src/lib/time.ts:7 | The ISO string of every instant a Date holds, in the signed six-digit years too, reads back as that instant. |
| Calendar.IsoIsInjective | templates/discord-fetch-mcp/src/lib/time.ts:7 | No two instants print alike, in any year. |
| Calendar.IsoOfParts | templates/discord-fetch-mcp/src/lib/time.ts:7 | The ISO string of the instant of any valid date and time of day prints just these. |
| Calendar.IsoSamples | templates/discord-fetch-mcp/src/lib/time.ts:7 | A Date's range is from -271821-04-20 to 275760-09-13, and it prints its ends and its start as those dates. |
| Calendar.IsoIsDatetime | templates/discord-fetch-mcp/src/lib/schema.ts:57 | The datetime check of the schemas accepts the ISO string of an instant exactly when its year is one of 0 to 9999. |
| Calendar.DayRoundTrip | templates/discord-fetch-mcp/src/lib/time.ts:7 | The civil date of a day, put into the closed day-number formula, gives the day back. |
| Calendar.DateOfNextDay | templates/discord-fetch-mcp/src/lib/time.ts:7 | The date of the next day is the next date, by the calendar's month lengths; with day 0 this fixes the date of every day. |
| Calendar.DayZero | templates/discord-fetch-mcp/src/lib/time.ts:7 | Day 0 is 1970-01-01. |
| Calendar.DayOfNextDate | templates/discord-fetch-mcp/src/lib/time.ts:7 | The day number of the next date is one more, for every valid date. |
| Calendar.DateRoundTrip | templates/discord-fetch-mcp/src/lib/time.ts:7 | Every valid date is the date of its day number, so no two dates share one. |
| Text.DecimalIntForm | templates/discord-fetch-mcp/src/discord/client.ts:142 | A limit is sent as its digits without a leading zero, which read back as the limit. |
| Guards.LimitPipeline | templates/discord-fetch-mcp/src/lib/guards.ts:7-9 | Clamping in the handler and again in the client is one clamp into 1..ceiling, and a whole number of that range is within it exactly when it is 1 or within the limit asked for. |
| Guards.LimitMonotone | templates/discord-fetch-mcp/src/discord/pagination.ts:3-9 | The limit sent never falls when the limit asked for rises. |
| Guards.LimitOfSchemaInput | templates/discord-fetch-mcp/src/discord/client.ts:142 | On the whole positive limits the input schemas accept, the limit sent is the smaller of limit and ceiling. |
| Guards.CsvCommaIsUnion | templates/discord-fetch-mcp/src/lib/guards.ts:15-22 | Parsing two lists joined by a comma gives the union of the two parses. |
| Guards.CsvRoundTrip | templates/discord-fetch-mcp/src/lib/guards.ts:15-22 | Any comma-separated listing of a set of trimmed, comma-free names, in any order, with repeats, padding and blank fields, parses back to that set. |
| Guards.CsvNamesAreClean | templates/discord-fetch-mcp/src/lib/guards.ts:19-20 | Every name a parse yields is trimmed, non-empty and comma-free. |
| Client.AllowlistAccepts | templates/discord-fetch-mcp/src/discord/permissions.ts:5-16 | A guild is accepted exactly when every field of the configured list is blank or one trimmed field equals it. |
| Client.LoadEnv | templates/discord-fetch-mcp/src/lib/env.ts:4-29 | An environment loads exactly when its ceilings are in range, and holds those ceilings and the parsed list. |
| Outcomes.ResponseRead | templates/discord-fetch-mcp/src/discord/client.ts:45-78 | A response is handed on exactly when its status is one of 200 to 299 and its body is JSON; every other status gives its code, message, retry mark and details. |
| Outcomes.ChannelsOutcome | templates/discord-fetch-mcp/src/discord/client.ts:107-118 | The path a channel listing asks for, and its answer to every response. |
| Outcomes.ActiveOutcome | templates/discord-fetch-mcp/src/discord/client.ts:120-129 | The path and the one parameter an active listing asks for, and its answer to every response. |
| Outcomes.ArchivedAsks | templates/discord-fetch-mcp/src/discord/endpoints.ts:12-22 | The path of an archived listing scope by scope, and exactly its parameters: the cursor when there is one, and the clamped limit. |
| Outcomes.ArchivedOutcome | templates/discord-fetch-mcp/src/discord/client.ts:137-147 | An archived listing depends on that one request for its scope, and any other scope is refused without one. |
| Outcomes.ArchivedPayloadOutcome | templates/discord-fetch-mcp/src/discord/client.ts:148-160 | For every payload: the list's own error, else the refusal of the first thread whose guild is not accepted, else the schema's, else the list with its flag and the last thread's archive time as cursor. |
| Outcomes.ThreadOutcome | templates/discord-fetch-mcp/src/discord/client.ts:163-170 | The path of a thread lookup, and its answer to every response, the refusal of a guild last. |
| Outcomes.MessagesAsk | templates/discord-fetch-mcp/src/discord/client.ts:176-184 | The path of a messages request and exactly its parameters. |
| CacheKeys.KeyRoundTrip | templates/discord-fetch-mcp/src/cache/keys.ts:1-19 | The reader that goes by colons recovers the request from the keys of all five families, up to the optional values the printers treat as absent, exactly when the ids hold no colon; an archived time may hold any. |
| CacheKeys.KeysAgreeIff | templates/discord-fetch-mcp/src/cache/keys.ts:1-19 | With no condition on ids, two requests share a key exactly when they are of one family, spell one text in it, and archived listings have one limit; no two families share a key, but thread lookups and messages are one family. |
| CacheKeys.SharedIff | templates/discord-fetch-mcp/src/cache/keys.ts:1-19 | When another request the input schemas accept has the same key: guild channels never; active threads of a guild exactly when the id holds `:parent:` with something on both sides; a thread exactly when its id spells a messages request with a limit of 1 to 200 or none; an archived listing exactly when its limit is accepted and its text can be cut into channel, one of the three scopes, and time in another way; active threads under a parent, and messages, always. |
| CacheKeys.NamedScopeCutsIff | templates/discord-fetch-mcp/src/lib/schema.ts:15 | For a listing with one of the three scopes that other cut is one at another place than the end of the channel id. |
| CacheKeys.ParentInIdCollides | templates/discord-fetch-mcp/src/cache/keys.ts:5-7 | Active threads under a parent share a key with those of the guild whose id names that parent. |
| CacheKeys.MessagesInIdCollide | templates/discord-fetch-mcp/src/cache/keys.ts:13-19 | Every messages request shares its key with the lookup of the thread whose id spells it. |
| CacheKeys.LinksInChannelCollide | templates/discord-fetch-mcp/src/cache/keys.ts:9-11 | Links inside a channel id move the cut: the scope and time can be read out of the channel id or out of the time. |
| CacheKeys.MessageKeysAgreeIff | templates/discord-fetch-mcp/src/cache/keys.ts:17-19 | Two messages requests share a key exactly when their limits agree and their other parts spell one text. |
| CacheKeys.KeysCollideIff | templates/discord-fetch-mcp/src/cache/keys.ts:1-19 | For ids without a colon, two requests, within or across families, share a key exactly when they agree once empty optional ids and a time called latest are dropped. |
| CacheKeys.KeysAreInjective | templates/discord-fetch-mcp/src/lib/schema.ts:115-138 | No two different requests with colon-free ids and no empty optional id share a key, a time called latest counting as none. |
| CacheKeys.ArchivedThreadsDecodes | templates/discord-fetch-mcp/src/cache/keys.ts:9-11 | The archived time is recovered from between the fifth piece and the last two, whatever colons it holds. |
| ResourceUris.UriRoundTrip | templates/discord-fetch-mcp/src/server/resources/archived_threads.ts:11-13 | The reader that goes by slashes recovers kind, id, scope and limit from the URIs of all five builders exactly when the id holds no slash. |
| ResourceUris.UrisCollideIff | templates/discord-fetch-mcp/src/server/resources/thread_messages.ts:11-13 | With no condition on ids, two requests of any kinds share a URI exactly when they are one request or one is for the metadata of a thread whose id spells the other's thread, `/messages?limit=` and limit. |
| ResourceUris.SlashInIdCollides | templates/discord-fetch-mcp/src/server/resources/thread_messages.ts:11-13 | That exception is met: for every thread and limit there is another thread id whose metadata URI is that thread's messages URI. |
| ResourceUris.ScopeParameterRoundTrip | templates/discord-fetch-mcp/src/server/registerResources.ts:53 | The hyphen written for joined_private is undone by the registered handler, for all three scopes. |
| ResourceUris.ArchivedTemplateExpands | templates/discord-fetch-mcp/src/server/resources/archived_threads.ts:5 | Simple expansion (section 3.2.2 of RFC 6570) of the archived template with the hyphenated scope is the builder's URI. |
| ResourceUris.MessagesTemplateExpands | templates/discord-fetch-mcp/src/server/resources/thread_messages.ts:5 | Expansion of the messages template, which has the limit written into it, is the builder's URI exactly for limit 100. |
| ResourceUris.PlainTemplatesExpand | templates/discord-fetch-mcp/src/server/resources/guild_channels.ts:5 | The templates of the guild channels, guild active threads and thread resources expand to the builders' URIs. |
| Markdown.RenderThreadMarkdownExport | templates/discord-fetch-mcp/src/lib/markdown.ts:3-24 | The loop that pushes one line per message and joins them prints the export that `Markdown.ExportText` writes out. |
| Markdown.ExportText | templates/discord-fetch-mcp/src/lib/markdown.ts:3-24 | The whole text of every export, label by label with its value, then a line for each message in order. |
| Markdown.ExportLineCount | templates/discord-fetch-mcp/src/lib/markdown.ts:4-20 | An export has 11 header lines, one per message, and one more per line break inside a field; 11 and one per message exactly when no printed field breaks a line. |
| Markdown.ExportRoundTrip | templates/discord-fetch-mcp/src/lib/markdown.ts:3-24 | The reader given here recovers the header fields and, in order, each message's time, user name and content, exactly when no field breaks a line, no user name holds a colon and a space, and no activity time is the word null. |
| Markdown.LineBreakImitatesMessage | templates/discord-fetch-mcp/src/lib/markdown.ts:20 | No reader can do so in general: a message with a line break prints as two messages do, the second of any author, time and content. |
| Markdown.SeparatorImitatesContent | templates/discord-fetch-mcp/src/lib/markdown.ts:20 | A user name that holds a colon and a space prints as a shorter name with a longer content. |
| Markdown.ExportsAgreeIff | templates/discord-fetch-mcp/src/lib/markdown.ts:3-24 | Two exports whose fields break no line are one text exactly when the threads agree in every field shown (an activity time called null counting as none), there are as many messages, and each agrees in the time shown and in user name and content put together. |
| Markdown.StampShowsSecond | templates/discord-fetch-mcp/src/lib/markdown.ts:19 | The 19 characters shown of a time denote that time to the second exactly when its year has four digits. |
| FixtureValidator.ValidateFixture | scripts/tools/validate-registry-disposition-schema.py:11-43 | The loop with its seen ids and early exits computes the report defined case by case from the whole list. |
| FixtureValidator.CaseReads | scripts/tools/validate-registry-disposition-schema.py:23-38 | What a case says: its id is the string under `id` when that is not blank, its expectation the boolean under `expectedPass`, and its input the value under `input` or null. |
| FixtureValidator.PassedIff | scripts/tools/validate-registry-disposition-schema.py:43 | A fixture passes exactly when it has cases, each is an object with a non-blank string id and a boolean expectation equal to the schema's verdict, and no id repeats. |
| FixtureValidator.PassedPermuted | scripts/tools/validate-registry-disposition-schema.py:22-43 | Passing is the same for every order of the cases. |
| FixtureValidator.PassedConcatenated | scripts/tools/validate-registry-disposition-schema.py:22-43 | Two non-empty fixtures pass as one exactly when each passes and they share no id. |
| FixtureValidator.CasesConserved | scripts/tools/validate-registry-disposition-schema.py:16-42 | In a report the cases number the issues plus the results that matched, exactly when there are cases at all; without cases there is one issue. |
| FixtureValidator.ResultsInOrder | scripts/tools/validate-registry-disposition-schema.py:30-40 | The results of a report stand, in case order, for exactly the cases that are the first identified with their id and have a boolean expectation; each carries that case's id, the schema's verdict and whether it was expected. |
| FixtureValidator.IssuesInOrder | scripts/tools/validate-registry-disposition-schema.py:22-42 | The issues of a report stand, in case order, one for each case that is not good or not the first with its id, and each says what is so of its case: no object, no id, a repeated id, no boolean expectation, or a verdict other than expected. |
| FixtureValidator.NoCasesReport | scripts/tools/validate-registry-disposition-schema.py:14-18 | A fixture that is no object, or has no array of cases, or an empty one, has one issue that says which, and no results. |
| FixtureValidator.PythonSpacesListed | scripts/tools/validate-registry-disposition-schema.py:27 | The 29 characters an id may not consist of, one by one. |
| FixtureValidator.ResultIdsDistinct | scripts/tools/validate-registry-disposition-schema.py:30-33 | No two results of a report have the same id. |
| FixtureValidator.DuplicatesCounted | scripts/tools/validate-registry-disposition-schema.py:30-33 | The duplicate issues of a report number the identified cases less the distinct ids, also when the first holder of an id was itself rejected. |
| Normalize.MapAllOutcome | templates/discord-fetch-mcp/src/discord/client.ts:95-98 | Mapping a throwing normaliser gives every image in order, or the error of the first element that throws. |
| Normalize.ThreadListOutcome | templates/discord-fetch-mcp/src/discord/client.ts:81-101 | For every payload: one thread per raw thread and one member per raw member in order; or the error of the first bad thread; or, with all threads good, of the first bad member. |
| Normalize.ThreadErrorOrder | templates/discord-fetch-mcp/src/discord/normalize.ts:141-155 | Within a thread an unknown type is reported before any missing text, and otherwise the first blank text is. |
| Normalize.ThreadListFits | templates/discord-fetch-mcp/src/lib/schema.ts:47-73 | A normalised list satisfies its schema exactly when every raw duration, count and flag that is a number is whole and in range, and every readable date has a four-digit year. |
| Normalize.MessageFits | templates/discord-fetch-mcp/src/lib/schema.ts:75-87 | A normalised message satisfies its schema exactly when every raw attachment size that is a number is whole and not negative and every readable date has a four-digit year. |
| Payloads.ThreadFieldsRead | templates/discord-fetch-mcp/src/discord/normalize.ts:147-167 | For every payload that normalises, each text, flag and number of the thread by cases on the payload: flags are true only for true, a missing duration is 1440, missing counts are 0, a parent given wins over the payload's. |
| Payloads.ThreadTimesRead | templates/discord-fetch-mcp/src/discord/normalize.ts:147-171 | The three times of the thread: the metadata time goes before the one at the top, and stands in for a missing activity time. |
| Payloads.MemberFieldsRead | templates/discord-fetch-mcp/src/discord/normalize.ts:180-190 | Each field of a member by cases on the payload; missing flags are 0. |
| Payloads.ChannelFieldsRead | templates/discord-fetch-mcp/src/discord/normalize.ts:126-138 | Each field of a channel by cases on the payload; its guild is the one asked for. |
| Payloads.MessageFieldsRead | templates/discord-fetch-mcp/src/discord/normalize.ts:198-234 | Each field of a message by cases on the payload: missing content is empty, an empty referenced id is none, the author's fields come from the author record. |
| Payloads.AttachmentsRead | templates/discord-fetch-mcp/src/discord/normalize.ts:99-119 | One attachment for each entry that is a record, in order, each field by cases on the entry and a missing size 0; none when there is no array. |
| Payloads.Iso8601Iff | templates/discord-fetch-mcp/src/lib/time.ts:1-8 | A value has an ISO form exactly when it stands for milliseconds up to 100,000,000 days from 1970, and that is their ISO string; numbers are cut toward zero, true is one millisecond, null and infinities stand for none. |
| Payloads.TypesRead | templates/discord-fetch-mcp/src/discord/normalize.ts:33-55 | Which raw values are read as which channel type; every other name or number is of none of the four. |
| Payloads.ThreadTypesRead | templates/discord-fetch-mcp/src/discord/normalize.ts:57-77 | Which raw values are read as which thread type. |
| Payloads.MessageTypesRead | templates/discord-fetch-mcp/src/discord/normalize.ts:79-97 | Which raw values are read as which message type; every other name or number is of none of the four. |
| Payloads.ThreadErrors | templates/discord-fetch-mcp/src/discord/normalize.ts:141-155 | For every payload the error a thread gives: no object, then an unknown type, then the first blank text with its message. |
| Payloads.MemberErrorOrder | templates/discord-fetch-mcp/src/discord/normalize.ts:175-183 | For every payload the error a member gives, or none. |
| Payloads.ChannelErrorOrder | templates/discord-fetch-mcp/src/discord/normalize.ts:121-131 | For every payload the error a channel gives, or none. |
| Payloads.MessageErrorOrder | templates/discord-fetch-mcp/src/discord/normalize.ts:193-229 | For every payload the error a message gives, or none: the author's texts come first, and a time that is not readable is reported last. |
| Payloads.ListShape | templates/discord-fetch-mcp/src/discord/client.ts:81-101 | What is read off a thread list payload, or which of three faults of its shape is reported. |
| NormalForm.ThreadReadsBack | templates/discord-fetch-mcp/src/discord/normalize.ts:141-173 | Exactly the well-formed threads are what their raw form, under Discord's field names, normalises to: no field is lost, swapped or altered. |
| NormalForm.ThreadNormalForm | templates/discord-fetch-mcp/src/discord/normalize.ts:141-173 | Whatever payload a thread was normalised from, its raw form normalises to the same thread. |
| NormalForm.MetadataTimeWins | templates/discord-fetch-mcp/src/discord/normalize.ts:147-171 | For every payload whose metadata has an archive time, the value at the top changes nothing in the normalised thread, and its archive time is the ISO form of the one in the metadata. |
| NormalForm.ShadowedThreadReadsBack | templates/discord-fetch-mcp/src/discord/normalize.ts:147-171 | A thread written with its archive time in the metadata and any value in its place at the top is read back, the metadata time also standing in for a missing activity time. |
| NormalForm.MemberReadsBack | templates/discord-fetch-mcp/src/discord/normalize.ts:175-191 | Exactly the well-formed members are what their raw form normalises to. |
| NormalForm.ChannelReadsBack | templates/discord-fetch-mcp/src/discord/normalize.ts:121-139 | Exactly the channels with non-blank texts and the capability of their type are what their raw form normalises to. |
| NormalForm.ThreadTypeReadsBack | templates/discord-fetch-mcp/src/discord/normalize.ts:57-77 | The name and the number of each thread type are read as that type. |
| NormalForm.MessageTypeReadsBack | templates/discord-fetch-mcp/src/discord/normalize.ts:79-97 | Message types are read from their names and three from their numbers, and no number is read as a system message. |
| NormalForm.MessageReadsBack | templates/discord-fetch-mcp/src/discord/normalize.ts:193-235 | Exactly the well-formed messages, with author and attachments, are what their raw form normalises to. |
| NormalForm.MessageNormalForm | templates/discord-fetch-mcp/src/discord/normalize.ts:193-235 | Whatever payload a message was normalised from, its raw form normalises to the same message. |
| NormalForm.AttachmentsReadBack | templates/discord-fetch-mcp/src/discord/normalize.ts:99-119 | Every attachment list is what its raw form normalises to. |
| NormalForm.IsoReaderReads | templates/discord-fetch-mcp/src/lib/time.ts:1-8 | What the read-backs ask of the engine can be met: a parser of ISO strings reads every string the engine prints. |
| Normalize.TrimmedAway | templates/discord-fetch-mcp/src/lib/guards.ts:1-5 | A required text is refused exactly when trimming leaves nothing of it. |
| Text.SpacesListed | templates/discord-fetch-mcp/src/lib/guards.ts:2 | The 25 characters that trimming removes, one by one. |
| Client.ListArchivedThreads | templates/discord-fetch-mcp/src/discord/client.ts:131-161 | Setting the query step by step and stopping at the first thread of a disallowed guild computes the specified outcome; every thread of a result is in an allowed guild. |
| Client.CheckGuildsOutcome | templates/discord-fetch-mcp/src/discord/client.ts:149-151 | The allowlist loop passes exactly when every thread's guild is allowed, and otherwise throws for the first that is not. |
| Client.ArchivedThreadsAreListed | templates/discord-fetch-mcp/src/discord/client.ts:148-161 | For every response, each thread an archived listing returns is in a guild the configured list accepts. |
| Client.ThreadIsListed | templates/discord-fetch-mcp/src/discord/client.ts:163-170 | For every response, the thread a lookup returns is in a guild the configured list accepts. |
| Client.GetThreadMessages | templates/discord-fetch-mcp/src/discord/client.ts:172-196 | Setting each query parameter in turn computes the specified outcome. |
| Client.MessagesRequestParameters | templates/discord-fetch-mcp/src/discord/client.ts:176-180 | Each parameter of a messages request carries the value it was given, and empty values are left out. |
| Client.MessagesOutcome | templates/discord-fetch-mcp/src/discord/client.ts:186-195 | For every array payload the messages returned are the normalised ones, in order, at exactly the positions whose raw type is not the string SYSTEM (or at all), never more than the payload holds; a bad message gives the error of the first, kept or not. |
| Outcomes.MessagesFailure | templates/discord-fetch-mcp/src/discord/client.ts:181-195 | A failed messages request gives its own error, and a payload that is no array one that says so. |
| Client.MessagesWithinLimit | templates/discord-fetch-mcp/src/discord/client.ts:180-195 | The limit sent is the clamped one, and a response with no more messages than it gives a result with no more. |
| Tools.ArchivedToolPassesOn | templates/discord-fetch-mcp/src/server/tools/discord_list_archived_threads.ts:26-68 | With accepted input the archived handler answers exactly with the client's result, unchanged, or the client's error: its second validation never fails. |
| Tools.ArchivedToolHttpFailure | templates/discord-fetch-mcp/src/discord/client.ts:45-78 | A response with a status outside 200 to 299 becomes an error envelope with the code and message of its status, the status, the body and for 429 the time to wait, retryable exactly for 429 and from 500 up. |
| Tools.ActiveToolPassesOn | templates/discord-fetch-mcp/src/server/tools/discord_list_active_threads.ts:25-54 | With accepted input the active handler answers exactly with the client's result or error. |
| Tools.ChannelsToolPassesOn | templates/discord-fetch-mcp/src/server/tools/discord_list_guild_channels.ts:26-57 | The channel handler refuses a guild that is not allowed without regard to any response, and otherwise answers with exactly the client's channels of the types asked for, in order, or the client's error. |
| Tools.MessagesNeedThread | templates/discord-fetch-mcp/src/server/tools/discord_get_thread_messages.ts:26-46 | When the thread looked up first is refused, the answer is that refusal and no other response has a part in it. |
| Tools.ExportNeedsThread | templates/discord-fetch-mcp/src/server/tools/discord_export_thread.ts:32-65 | The same for exports. |
| Tools.DataNeedsListedThread | templates/discord-fetch-mcp/src/server/tools/discord_export_thread.ts:27-48 | The messages handler and the export handler give message data only for a looked-up thread whose guild the configured list accepts. |
| Tools.MessagesToolSucceedsIff | templates/discord-fetch-mcp/src/server/tools/discord_get_thread_messages.ts:26-35 | The messages handler succeeds exactly when its input is accepted, the thread is found and allowed, the response is an array in which every message normalises, and the kept messages fit the schema. |
| Tools.MessagesToolWithinLimit | templates/discord-fetch-mcp/src/server/tools/discord_get_thread_messages.ts:26-35 | When the response holds no more messages than the limit sent, the handler returns no more than the limit of its input nor than the configured ceiling. |
| Tools.MarkdownExportReadsBack | templates/discord-fetch-mcp/src/server/tools/discord_export_thread.ts:32-54 | A markdown export returned for any responses reads back, to what it shows of the thread and messages fetched, exactly when their texts are readable; each stamp read then denotes the fetched message's time to the second, exactly if its year has four digits. |
| Handlers.ArchivedInputIff | templates/discord-fetch-mcp/src/lib/schema.ts:131-138 | The raw inputs the archived handler accepts, by a table of keys and rules, and what it reads from each key. |
| Handlers.ActiveInputIff | templates/discord-fetch-mcp/src/lib/schema.ts:115-120 | The same for the active handler. |
| Handlers.ChannelsInputIff | templates/discord-fetch-mcp/src/lib/schema.ts:97-105 | The same for the channel handler: distinct names of channel types, and the four that threads hang under when none are given. |
| Handlers.MessagesInputIff | templates/discord-fetch-mcp/src/lib/schema.ts:164-173 | The same for the messages handler. |
| Handlers.ExportInputIff | templates/discord-fetch-mcp/src/lib/schema.ts:183-189 | The same for the export handler. |
| Handlers.ArchivedHandler | templates/discord-fetch-mcp/src/server/tools/discord_list_archived_threads.ts:26-64 | For every raw input: the report of a bad one, or the request sent with path, cursor and the smaller of the ceiling and the limit (50 when absent), and the answer to its response. |
| Handlers.ActiveHandler | templates/discord-fetch-mcp/src/server/tools/discord_list_active_threads.ts:26-54 | For every raw input: the report of a bad one, or the client's answer for the guild and parent channel under their keys. |
| Handlers.ChannelsHandler | templates/discord-fetch-mcp/src/server/tools/discord_list_guild_channels.ts:26-57 | For every raw input: the report of a bad one, the refusal of a guild, or the channels of the types asked for. |
| Handlers.MessagesHandler | templates/discord-fetch-mcp/src/server/tools/discord_get_thread_messages.ts:26-46 | For every raw input: the report of a bad one, or the request in which before, after and around carry the values under those keys and the limit is the smaller of the ceiling and the one asked for (50 when absent), and the answer: the refusal of the thread, the failure of the request, the first bad message, or the messages, system messages only when asked for. |
| Handlers.ExportHandler | templates/discord-fetch-mcp/src/server/tools/discord_export_thread.ts:26-63 | For every raw input: the report of a bad one, or the request with the smaller of the ceiling and the limit (200 when absent), and the answer: refusal, failure, first bad message, or the export of all messages in the format asked for, markdown when none is. |
| Resources.MessagesResourceAnswers | templates/discord-fetch-mcp/src/server/resources/thread_messages.ts:7-8 | The request of the messages resource and its answer to every response; it keeps system messages. |
| Resources.ArchivedResourceAnswers | templates/discord-fetch-mcp/src/server/registerResources.ts:52-58 | The request of the archived resource for each scope parameter, hyphened or not: no cursor, and 50 threads at most. |
| Resources.ActiveThreadsListedIff | templates/discord-fetch-mcp/src/server/resources/guild_active_threads.ts:7 | For every engine, the active handler and the active resource return threads of accepted guilds only, over all transports and inputs, exactly when every field of the configured list is blank. |
| Resources.AnyThreadIsListed | templates/discord-fetch-mcp/src/discord/client.ts:120-129 | Whatever guild is asked for, an active listing returns any undated thread that fits the schema, of any guild, when the response holds it. |
| Resources.ChannelsListedIff | templates/discord-fetch-mcp/src/server/resources/guild_channels.ts:7 | The channels resource shows channels of accepted guilds only exactly when every field of the configured list is blank. |
| Resources.MessagesListedIff | templates/discord-fetch-mcp/src/server/resources/thread_messages.ts:7-8 | The messages resource shows messages only of threads whose guild, as a lookup finds it, is accepted exactly when every field of the configured list is blank. |
| Resources.AnyMessageIsShown | templates/discord-fetch-mcp/src/server/registerResources.ts:80-86 | Whatever the thread, its guild and the limit, the messages resource shows any well-formed message the response holds. |
| Resources.ArchivedMembersListedIff | templates/discord-fetch-mcp/src/discord/client.ts:148-161 | Over all transports, channels, scopes and inputs, the members the archived resource and the archived handler return belong only to threads whose guild, as a lookup finds it, is accepted exactly when every field of the configured list is blank: only the threads are judged. |
| Resources.AnyMemberIsShown | templates/discord-fetch-mcp/src/discord/client.ts:148-161 | Whatever the configured list, a page without threads passes on a member of any thread, of any guild. |
| Resources.ChannelsToolIsListed | templates/discord-fetch-mcp/src/server/tools/discord_list_guild_channels.ts:26-57 | The channel handler, in contrast, succeeds for accepted guilds only. |
| Resources.ArchivedAndThreadAreListed | templates/discord-fetch-mcp/src/server/resources/archived_threads.ts:7-8 | Every thread the archived and thread resources return is in an accepted guild. |

## Left out

- Pagination.Run: the archive does not change during a run, every archive time is readable, and the scope is public or private; the cursor of the joined-private endpoint is not known to be a time. With unreadable times `RunEnding` says which runs end, not what they show.
- ArchiveRun.CallShowsPage: entries must normalise, fit the schema and be in an allowed guild; one that does not makes the whole call fail, as `Normalize.ThreadListOutcome`, `Normalize.ThreadListFits` and `Client.CheckGuildsOutcome` say.
- Guards.LimitPipeline: finite limits only; an infinite limit is cut to the ceiling by the same expression.
- CacheKeys.KeyRoundTrip, and the other lemmas about keys: limits are whole and not negative, as the input schemas have it.
- ResourceUris.UriRoundTrip, and ResourceUris.UrisCollideIff: limits are whole numbers; a fraction given to the messages URI is not modelled.
- ResourceUris.ArchivedTemplateExpands: ids of unreserved characters only, since the builders do not percent-encode; the matching of incoming URIs against templates is the SDK's.
- Markdown.ExportRoundTrip: message times have at least 19 characters and no line break, which `Tools.FetchedAreStamped` proves of everything fetched.
- Normalize.ThreadErrorOrder: the message of an unknown thread type stops before the text JavaScript makes of the raw value; the raw value itself is kept in the details.
- FixtureValidator.ValidateFixture: issues are values, not their English texts, and building the validator from a malformed schema is not modelled.
- Handlers and resources are modelled on values; request ids, display text, titles, logging, and the URL object and JSON text a resource answer is wrapped in, are not part of this model.
- HTTP, headers, tokens, URL encoding and the resolution of a path against the API base: a request is a path and a list of parameters, and a transport answers it.
- Outcomes.ResponseRead: the time to wait of a 429 is kept as the text of its header; the client turns that text into a number.
- The text of validation errors and the JSON text of an export: an error names its schema, and the export holds the thread and messages the text is made of.
- Strictness of the output schemas about unknown keys: normalised values are typed records, so there are none; for the same reason the channel list schema accepts every value.
- The get-thread handler, which adds to `Client.GetThread` only the input and output parsing the other handlers show; `exportThread` of the client, which nothing calls; and the fallback limit of an export, which is never reached because the input schema has a default.
- The cache storage, a placeholder that always misses; only its keys are modelled.
- Environment loading beyond the allowlist and the two ceilings.
- The merge executor, attestation audit, regression gate and planner described in the repository's documents: their sources are not part of this model.
