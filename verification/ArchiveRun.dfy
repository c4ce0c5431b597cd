/**
 * Runs of the real client operation against an archive: each call of `ListArchived` on the JSON the
 * server sends shows one page of the abstract run, and the ISO string it returns as `next_cursor` is the
 * millisecond the next page starts before.
 */
module ArchiveRun {
  import opened Wrappers
  import opened Text
  import opened Guards
  import opened Calendar
  import opened Sequences
  import opened Json
  import opened Discord
  import opened Normalize
  import opened Client
  import opened Pagination
  import NormalForm
  import Schema
  import Tools

  /** Everything that stays fixed during a run. Only the public and private scopes page by time. */
  datatype Listing = Listing(
    env: Env,
    send: Transport,
    parse: DateParser,
    channelId: string,
    scope: Scope,
    server: seq<Entry>
  )

  /** The string that stands for a cursor. */
  function CursorText(before: Option<int>): Option<string>
    requires before.Some? ==> FourDigitYear(before.value)
  {
    match before
    case None => None
    case Some(ms) => Some(IsoString(ms))
  }

  /** The engine reads the archive time of the entry. */
  predicate Dated(l: Listing, e: Entry) {
    DateOf(RawArchiveTimestamp(e.raw), l.parse).Some?
  }

  /** The entry normalises, fits the schema, is allowed, and its archive time, if read, is cut to its millisecond. */
  ghost predicate Admissible(l: Listing, e: Entry) {
    && NormalizeThread(e.raw, Some(l.channelId), l.parse).Ok?
    && RawThreadFits(e.raw, l.parse)
    && GuildAllowed(l.env, NormalizeThread(e.raw, Some(l.channelId), l.parse).value.guildId)
    && (Dated(l, e) ==> DateOf(RawArchiveTimestamp(e.raw), l.parse) == Some(Millis(e)))
  }

  ghost predicate GoodEntry(l: Listing, e: Entry) {
    Admissible(l, e) && Dated(l, e)
  }

  function Raws(entries: seq<Entry>): (raws: seq<Json>)
    ensures |raws| == |entries| && forall i | 0 <= i < |entries| :: raws[i] == entries[i].raw
  {
    seq(|entries|, i requires 0 <= i < |entries| => entries[i].raw)
  }

  /** The payload carries a page: its threads in order, its flag, and members that normalise and fit. */
  ghost predicate Carries(l: Listing, payload: Json, page: Page) {
    && WellShaped(payload)
    && RawThreads(payload) == Raws(page.threads)
    && Field(payload, "has_more") == Some(Bool(page.hasMore))
    && AllOk(RawMembers(payload), MemberOf(l.parse))
    && forall i | 0 <= i < |RawMembers(payload)| :: RawMemberFits(RawMembers(payload)[i], l.parse)
  }

  /** A request for `limit` threads before a cursor is answered with the page of that size before it. */
  ghost predicate Answers(l: Listing, before: Option<int>, limit: nat)
    requires before.Some? ==> FourDigitYear(before.value)
  {
    var request := Request(
      ArchivePath(l.channelId, l.scope), Parameter("before", CursorText(before)) + [("limit", Decimal(limit))]);
    RequestJson(l.send(request)).Ok? && Carries(l, RequestJson(l.send(request)).value, PageOf(l.server, before, limit))
  }

  /** A server that lists a fixed archive by descending time. */
  ghost predicate Serves(l: Listing) {
    ServesAny(l) && forall i | 0 <= i < |l.server| :: Dated(l, l.server[i])
  }

  /** The same, where the engine need not read every archive time the server sorts by. */
  ghost predicate ServesAny(l: Listing) {
    && l.env.Valid()
    && Sorted(l.server) && Distinct(l.server)
    && (forall i | 0 <= i < |l.server| :: Admissible(l, l.server[i]))
    && (forall before: Option<int>, limit: nat
          | (before.Some? ==> FourDigitYear(before.value)) && 1 <= limit <= l.env.maxThreads ::
          Answers(l, before, limit))
  }

  /** The client's call with a cursor string, for a limit the handler has clamped. */
  function Call(l: Listing, before: Option<string>, limit: real): Result<ArchivedThreads, Thrown> {
    ListArchived(
      l.env, l.send, l.parse, l.channelId, Schema.ScopeText(l.scope), before, Tools.ClampLimit(limit, l.env.maxThreads))
  }

  ghost predicate Normalized(l: Listing, entries: seq<Entry>, threads: seq<Thread>) {
    && |threads| == |entries|
    && forall i | 0 <= i < |entries| :: NormalizeThread(entries[i].raw, Some(l.channelId), l.parse) == Ok(threads[i])
  }

  /**
   * Every well-formed thread of an allowed guild that fits the schema makes a good entry, at any
   * microsecond of its archive millisecond.
   */
  lemma RawThreadIsGood(l: Listing, t: Thread, micros: int)
    requires NormalForm.ReadsIso(l.parse) && NormalForm.WellFormedThread(t) && Schema.ThreadSchema(t)
    requires t.parentId == l.channelId && GuildAllowed(l.env, t.guildId)
    requires FourDigitYear(micros / 1000) && t.archiveTimestamp == Some(IsoString(micros / 1000))
    ensures GoodEntry(l, Entry(NormalForm.RawThread(t), micros))
  {
    hide NormalizeThread;
    hide RawThreadFits;
    hide IsoString;
    hide DateOf;
    hide NormalForm.RawThread;
    hide NormalForm.ReadsIso;
    hide Schema.ThreadSchema;
    hide RawArchiveTimestamp;
    var raw := NormalForm.RawThread(t);
    NormalForm.ThreadReadsBack(t, l.parse);
    NormalForm.ParentNamed(t, l.parse);
    ThreadFits(raw, Some(l.channelId), l.parse);
    NormalForm.RawThreadTimestamps(t, l.parse);
    IsoRoundTrip(micros / 1000);
    SameInstant(RawArchiveTimestamp(raw), l.parse, micros / 1000);
  }

  lemma SameInstant(value: Option<Json>, parse: DateParser, ms: Instant)
    requires FourDigitYear(ms) && ToIso8601(value, parse) == Some(IsoString(ms))
    ensures DateOf(value, parse) == Some(ms)
  {
    hide DateOf;
    hide IsoString;
    hide IsDatetime;
    hide ParseIso;
    var read := DateOf(value, parse).value;
    IsoIsDatetime(ms);
    IsoIsDatetime(read);
    IsoRoundTrip(ms);
    IsoRoundTrip(read);
  }

  // ---------------------------------------------------------------- one call

  lemma CallReadsPayload(l: Listing, before: Option<int>, limit: real)
    requires ServesAny(l) && (before.Some? ==> FourDigitYear(before.value))
    ensures var n := LimitSent(limit, l.env.maxThreads);
      && n >= 1
      && exists payload ::
        && Carries(l, payload, PageOf(l.server, before, n))
        && Call(l, CursorText(before), limit) == ArchivedFromPayload(l.env, l.parse, l.channelId, l.scope, payload)
  {
    Schema.ScopeRoundTrip(l.scope);
    LimitPipeline(limit, l.env.maxThreads, 1);
    var n := LimitSent(limit, l.env.maxThreads);
    assert Answers(l, before, n);
    hide Carries;
    hide ArchivedFromPayload;
    hide RequestJson;
    hide Schema.ScopeText;
    hide Schema.ParseScope;
    hide ArchivePath;
    hide Parameter;
    hide PageOf;
    hide CursorText;
    hide ClampInt;
    hide ServesAny;
    SentTwice(limit, l.env.maxThreads);
    var request := ArchivedRequest(
      l.env, l.channelId, l.scope, CursorText(before), Tools.ClampLimit(limit, l.env.maxThreads));
    assert DecimalInt(n) == Decimal(n);
    var payload := RequestJson(l.send(request)).value;
    assert Carries(l, payload, PageOf(l.server, before, n));
  }

  lemma SentTwice(limit: real, ceiling: int)
    ensures ClampInt(Tools.ClampLimit(limit, ceiling), 1, ceiling) == LimitSent(limit, ceiling)
  {
  }

  /** What the client makes of a page of admissible entries. */
  lemma PayloadGivesPage(l: Listing, payload: Json, page: Page)
    requires Carries(l, payload, page)
    requires forall i | 0 <= i < |page.threads| :: Admissible(l, page.threads[i])
    ensures var r := ArchivedFromPayload(l.env, l.parse, l.channelId, l.scope, payload);
      && r.Ok?
      && Normalized(l, page.threads, r.value.threads)
      && r.value.hasMore == page.hasMore
      && r.value.nextCursor == NextCursor(r.value.threads)
  {
    hide NormalizeThread;
    hide NormalizeMember;
    hide RawThreadFits;
    hide RawMemberFits;
    hide WellShaped;
    hide RawThreads;
    hide RawMembers;
    hide GuildAllowed;
    hide DateOf;
    hide NextCursor;
    var parent := Some(l.channelId);
    ThreadListOutcome(payload, parent, l.parse);
    var raws := RawThreads(payload);
    assert AllOk(raws, ThreadOf(parent, l.parse)) by {
      forall i | 0 <= i < |raws| ensures ThreadOf(parent, l.parse)(raws[i]).Ok? {
        assert Admissible(l, page.threads[i]);
      }
    }
    var list := NormalizeThreadList(payload, parent, l.parse).value;
    ListIsNormalized(l, payload, page, list);
    ListFits(l, payload, page);
    ListIsAllowed(l, page, list.threads);
    hide NormalizeThreadList;
    hide CheckGuilds;
    hide Schema.ThreadsSchema;
  }

  lemma ListIsNormalized(l: Listing, payload: Json, page: Page, list: ThreadList)
    requires RawThreads(payload) == Raws(page.threads)
    requires Images(RawThreads(payload), ThreadOf(Some(l.channelId), l.parse), list.threads)
    ensures Normalized(l, page.threads, list.threads)
  {
    hide NormalizeThread;
    hide RawThreads;
    forall i | 0 <= i < |page.threads|
      ensures NormalizeThread(page.threads[i].raw, Some(l.channelId), l.parse) == Ok(list.threads[i])
    {
      assert ThreadOf(Some(l.channelId), l.parse)(RawThreads(payload)[i]) == Ok(list.threads[i]);
    }
  }

  lemma ListFits(l: Listing, payload: Json, page: Page)
    requires Carries(l, payload, page)
    requires forall i | 0 <= i < |page.threads| :: Admissible(l, page.threads[i])
    requires NormalizeThreadList(payload, Some(l.channelId), l.parse).Ok?
    ensures var list := NormalizeThreadList(payload, Some(l.channelId), l.parse).value;
      Schema.ThreadsSchema(list.threads, list.members)
  {
    hide NormalizeThread;
    hide NormalizeThreadList;
    hide RawThreadFits;
    hide RawMemberFits;
    hide RawThreads;
    hide RawMembers;
    hide WellShaped;
    hide GuildAllowed;
    hide DateOf;
    hide Schema.ThreadsSchema;
    ThreadListFits(payload, Some(l.channelId), l.parse);
    forall i | 0 <= i < |RawThreads(payload)| ensures RawThreadFits(RawThreads(payload)[i], l.parse) {
      assert Admissible(l, page.threads[i]);
    }
  }

  lemma ListIsAllowed(l: Listing, page: Page, threads: seq<Thread>)
    requires Normalized(l, page.threads, threads)
    requires forall i | 0 <= i < |page.threads| :: Admissible(l, page.threads[i])
    ensures CheckGuilds(l.env, threads).Ok?
  {
    hide NormalizeThread;
    hide RawThreadFits;
    hide CheckGuilds;
    CheckGuildsOutcome(l.env, threads);
    forall i | 0 <= i < |threads| ensures GuildAllowed(l.env, threads[i].guildId) {
      assert Admissible(l, page.threads[i]);
    }
    NotBothAllowedAndRefused(l.env, threads);
  }

  lemma NotBothAllowedAndRefused(env: Env, threads: seq<Thread>)
    requires forall i | 0 <= i < |threads| :: GuildAllowed(env, threads[i].guildId)
    ensures forall error :: !FirstRefused(env, threads, error)
  {
  }

  lemma NormalizedTimestamp(l: Listing, e: Entry)
    requires GoodEntry(l, e)
    ensures -MAX_DATE <= Millis(e) <= MAX_DATE && FourDigitYear(Millis(e))
    ensures NormalizeThread(e.raw, Some(l.channelId), l.parse).value.archiveTimestamp == Some(IsoString(Millis(e)))
  {
    hide IsoString;
    hide DateOf;
    hide GuildAllowed;
    hide NormalizeThreadType;
    hide ParentId;
    hide RawArchiveTimestamp;
    hide RawLastActivity;
    var ms := DateOf(RawArchiveTimestamp(e.raw), l.parse);
    assert FitsYear(RawArchiveTimestamp(e.raw), l.parse);
    assert ToIso8601(RawArchiveTimestamp(e.raw), l.parse) == Some(IsoString(ms.value));
  }

  lemma UndatedTimestamp(l: Listing, e: Entry)
    requires Admissible(l, e) && !Dated(l, e)
    ensures NormalizeThread(e.raw, Some(l.channelId), l.parse).value.archiveTimestamp == None
  {
    hide RawThreadFits;
    hide GuildAllowed;
    hide NormalizeThread;
    ThreadIsDatedIff(e.raw, Some(l.channelId), l.parse);
  }

  lemma PageEntries(l: Listing, before: Option<int>, limit: nat)
    requires ServesAny(l)
    ensures forall i | 0 <= i < |PageOf(l.server, before, limit).threads| ::
              Admissible(l, PageOf(l.server, before, limit).threads[i]) && PageOf(l.server, before, limit).threads[i] in l.server
  {
    hide Admissible;
    hide Answers;
    var page := PageOf(l.server, before, limit);
    forall i | 0 <= i < |page.threads| ensures Admissible(l, page.threads[i]) && page.threads[i] in l.server {
      OlderElement(l.server, before, i);
    }
  }

  /** The cursor the client makes of a page: none when the last entry has no readable time. */
  function ReadCursor(l: Listing, page: Page): Option<int> {
    if page.threads == [] || !Dated(l, Last(page)) then None else Some(Millis(Last(page)))
  }

  /** One call shows one page, whether or not its times are readable. */
  lemma CallShowsAnyPage(l: Listing, before: Option<int>, limit: real)
    requires ServesAny(l) && (before.Some? ==> FourDigitYear(before.value))
    ensures var page, r := PageOf(l.server, before, LimitSent(limit, l.env.maxThreads)), Call(l, CursorText(before), limit);
      && LimitSent(limit, l.env.maxThreads) >= 1
      && r.Ok?
      && Normalized(l, page.threads, r.value.threads)
      && r.value.hasMore == page.hasMore
      && (ReadCursor(l, page).Some? ==> FourDigitYear(ReadCursor(l, page).value))
      && r.value.nextCursor == CursorText(ReadCursor(l, page))
  {
    hide ServesAny;
    hide Call;
    hide Carries;
    hide Admissible;
    hide Dated;
    hide PageOf;
    hide ArchivedFromPayload;
    hide NormalizeThread;
    hide IsoString;
    hide Millis;
    CallReadsPayload(l, before, limit);
    var n := LimitSent(limit, l.env.maxThreads);
    var page := PageOf(l.server, before, n);
    var payload :|
      && Carries(l, payload, page)
      && Call(l, CursorText(before), limit) == ArchivedFromPayload(l.env, l.parse, l.channelId, l.scope, payload);
    PageEntries(l, before, n);
    PayloadGivesPage(l, payload, page);
    if page.threads != [] {
      if Dated(l, Last(page)) {
        NormalizedTimestamp(l, Last(page));
      } else {
        UndatedTimestamp(l, Last(page));
      }
    }
  }

  /**
   * One call shows one page: its entries normalised, its flag, and the cursor of its last entry as an ISO
   * string.
   */
  lemma CallShowsPage(l: Listing, before: Option<int>, limit: real)
    requires Serves(l) && (before.Some? ==> FourDigitYear(before.value))
    ensures var page, r := PageOf(l.server, before, LimitSent(limit, l.env.maxThreads)), Call(l, CursorText(before), limit);
      && LimitSent(limit, l.env.maxThreads) >= 1
      && r.Ok?
      && Normalized(l, page.threads, r.value.threads)
      && r.value.hasMore == page.hasMore
      && (Cursor(page).Some? ==> FourDigitYear(Cursor(page).value))
      && r.value.nextCursor == CursorText(Cursor(page))
  {
    hide ServesAny;
    hide Call;
    hide Dated;
    hide PageOf;
    hide Normalized;
    hide CursorText;
    hide LimitSent;
    hide Millis;
    CallShowsAnyPage(l, before, limit);
    PageEntries(l, before, LimitSent(limit, l.env.maxThreads));
  }

  // ---------------------------------------------------------------- whole runs

  /** The results of calls that each start before the cursor of the one before, until none says more. */
  ghost predicate IsRun(l: Listing, before: Option<string>, limits: nat -> real, k: nat, results: seq<ArchivedThreads>)
    decreases |results|
  {
    && results != []
    && Call(l, before, limits(k)) == Ok(results[0])
    && if results[0].hasMore then IsRun(l, results[0].nextCursor, limits, k + 1, results[1..]) else |results| == 1
  }

  lemma RunOfOne(l: Listing, before: Option<string>, limits: nat -> real, k: nat, first: ArchivedThreads)
    requires Call(l, before, limits(k)) == Ok(first) && !first.hasMore
    ensures IsRun(l, before, limits, k, [first])
  {
    hide Call;
  }

  lemma RunWithFirst(
    l: Listing, before: Option<string>, limits: nat -> real, k: nat, first: ArchivedThreads, rest: seq<ArchivedThreads>
  )
    requires Call(l, before, limits(k)) == Ok(first) && first.hasMore
    requires IsRun(l, first.nextCursor, limits, k + 1, rest)
    ensures IsRun(l, before, limits, k, [first] + rest)
  {
    hide Call;
    assert ([first] + rest)[1..] == rest;
  }

  lemma RunParts(l: Listing, before: Option<string>, limits: nat -> real, k: nat, results: seq<ArchivedThreads>)
    requires IsRun(l, before, limits, k, results)
    ensures results != [] && Call(l, before, limits(k)) == Ok(results[0])
    ensures results[0].hasMore ==> IsRun(l, results[0].nextCursor, limits, k + 1, results[1..])
    ensures !results[0].hasMore ==> results == [results[0]]
    ensures AllThreads(results) == results[0].threads + AllThreads(results[1..])
  {
    hide Call;
  }

  function AllThreads(results: seq<ArchivedThreads>): seq<Thread> {
    if results == [] then [] else results[0].threads + AllThreads(results[1..])
  }

  lemma NormalizedAppend(l: Listing, a: seq<Entry>, b: seq<Entry>, ta: seq<Thread>, tb: seq<Thread>)
    requires Normalized(l, a, ta) && Normalized(l, b, tb)
    ensures Normalized(l, a + b, ta + tb)
  {
    hide NormalizeThread;
  }

  /** Any run of the client shows, call by call, the pages of the abstract run. */
  lemma {:induction false} RunShowsPages(
    l: Listing, before: Option<int>, limits: nat -> real, k: nat, results: seq<ArchivedThreads>
  )
    requires Serves(l) && (before.Some? ==> FourDigitYear(before.value))
    requires IsRun(l, CursorText(before), limits, k, results)
    ensures var run := Run(l.server, before, limits, l.env.maxThreads, k);
      |results| == |run| && Normalized(l, Seen(run), AllThreads(results))
    decreases |results|
  {
    ServesEnv(l);
    hide Serves;
    hide Call;
    hide Run;
    hide PageOf;
    hide LimitSent;
    hide Normalized;
    hide CursorText;
    hide Cursor;
    hide IsRun;
    hide AllThreads;
    hide Seen;
    CallShowsPage(l, before, limits(k));
    RunParts(l, CursorText(before), limits, k, results);
    RunWithMore(l.server, before, limits, l.env.maxThreads, k);
    var page := PageOf(l.server, before, LimitSent(limits(k), l.env.maxThreads));
    if page.hasMore {
      var rest := Run(l.server, Cursor(page), limits, l.env.maxThreads, k + 1);
      RunShowsPages(l, Cursor(page), limits, k + 1, results[1..]);
      SeenFirst(page, rest);
      NormalizedAppend(l, page.threads, Seen(rest), results[0].threads, AllThreads(results[1..]));
    } else {
      LastPage(l.server, before, limits, l.env.maxThreads, k);
      ThreadsOfOne(results[0]);
    }
  }

  lemma SeenFirst(page: Page, rest: seq<Page>)
    ensures Seen([page] + rest) == page.threads + Seen(rest)
  {
    assert ([page] + rest)[1..] == rest;
  }

  lemma ThreadsOfOne(r: ArchivedThreads)
    ensures AllThreads([r]) == r.threads
  {
  }

  lemma ServesEnv(l: Listing)
    requires Serves(l)
    ensures l.env.maxThreads >= 1 && Sorted(l.server) && Distinct(l.server)
  {
  }

  lemma LastPage(server: seq<Entry>, before: Option<int>, limits: nat -> real, ceiling: int, k: nat)
    requires ceiling >= 1 && LimitSent(limits(k), ceiling) >= 1
    requires !PageOf(server, before, LimitSent(limits(k), ceiling)).hasMore
    ensures var run := Run(server, before, limits, ceiling, k);
      && |run| == 1
      && Seen(run) == PageOf(server, before, LimitSent(limits(k), ceiling)).threads
  {
    RunAtEnd(server, before, limits, ceiling, k);
    var run := Run(server, before, limits, ceiling, k);
    assert run[1..] == [];
  }

  /** The client can always be run to the end: no call fails, and calls come to an end. */
  lemma {:induction false} RunExists(l: Listing, before: Option<int>, limits: nat -> real, k: nat)
    returns (results: seq<ArchivedThreads>)
    requires Serves(l) && (before.Some? ==> FourDigitYear(before.value))
    ensures IsRun(l, CursorText(before), limits, k, results)
    decreases |Older(l.server, before)|
  {
    ServesEnv(l);
    hide Serves;
    hide Call;
    hide Run;
    hide PageOf;
    hide LimitSent;
    hide Normalized;
    hide CursorText;
    hide Cursor;
    hide IsRun;
    CallShowsPage(l, before, limits(k));
    RunWithMore(l.server, before, limits, l.env.maxThreads, k);
    var page := PageOf(l.server, before, LimitSent(limits(k), l.env.maxThreads));
    var first := Call(l, CursorText(before), limits(k)).value;
    if page.hasMore {
      var rest := RunExists(l, Cursor(page), limits, k + 1);
      RunWithFirst(l, CursorText(before), limits, k, first, rest);
      results := [first] + rest;
    } else {
      RunOfOne(l, CursorText(before), limits, k, first);
      results := [first];
    }
  }

  /**
   * A whole run of the client: at most one call per archived thread (one for an empty archive), and the
   * threads returned are, in the server's order and none twice, exactly those that do not follow a page's
   * last thread within its millisecond.
   */
  lemma ClientRun(l: Listing, limits: nat -> real, results: seq<ArchivedThreads>)
    requires Serves(l) && IsRun(l, None, limits, 0, results)
    ensures var run := Run(l.server, None, limits, l.env.maxThreads, 0);
      && |results| == |run| <= Max(1, |l.server|)
      && Normalized(l, Pick(l.server, Kept(l.server, run, 0)), AllThreads(results))
  {
    ServesEnv(l);
    OlderIsSuffix(l.server, None);
    hide Serves;
    hide IsRun;
    hide Run;
    hide Normalized;
    RunShowsPages(l, None, limits, 0, results);
    RunLength(l.server, None, limits, l.env.maxThreads, 0);
    WholeRun(l.server, limits, l.env.maxThreads);
  }

  /** With archive times a millisecond apart the client returns every thread once, in order. */
  lemma ClientRunIsComplete(l: Listing, limits: nat -> real, results: seq<ArchivedThreads>)
    requires Serves(l) && IsRun(l, None, limits, 0, results) && DistinctMillis(l.server)
    ensures Normalized(l, l.server, AllThreads(results))
  {
    ServesEnv(l);
    hide Serves;
    hide IsRun;
    hide Run;
    hide Normalized;
    RunShowsPages(l, None, limits, 0, results);
    CompleteWhenMillisDiffer(l.server, limits, l.env.maxThreads);
  }

  /** A run with limit 1 is short when two threads share a millisecond. */
  lemma ClientRunIsShort(l: Listing, i: nat, j: nat, results: seq<ArchivedThreads>)
    requires Serves(l) && IsRun(l, None, OneByOne(), 0, results)
    requires i < j < |l.server| && Millis(l.server[i]) == Millis(l.server[j])
    ensures |AllThreads(results)| < |l.server|
  {
    ServesEnv(l);
    hide Serves;
    hide IsRun;
    hide Run;
    hide Seen;
    hide Millis;
    RunShowsPages(l, None, OneByOne(), 0, results);
    var run := Run(l.server, None, OneByOne(), l.env.maxThreads, 0);
    var kept := Kept(l.server, run, 0);
    WholeRun(l.server, OneByOne(), l.env.maxThreads);
    OneByOneMisses(l.server, l.env.maxThreads, i, j);
    hide Kept;
    PickAtMost(l.server, kept);
    PickWhole(l.server, kept);
    if |Pick(l.server, kept)| == |l.server| {
      PickAll(l.server, kept);
    }
  }

  /** The client returns every thread once, in order, for every choice of limits. */
  ghost predicate AlwaysComplete(l: Listing) {
    forall limits, results | IsRun(l, None, limits, 0, results) :: Normalized(l, l.server, AllThreads(results))
  }

  /** It does so exactly when no two archive times share a millisecond. */
  lemma ClientCompleteIff(l: Listing)
    requires Serves(l)
    ensures AlwaysComplete(l) <==> DistinctMillis(l.server)
  {
    hide Serves;
    hide IsRun;
    hide Millis;
    if DistinctMillis(l.server) {
      forall limits, results | IsRun(l, None, limits, 0, results)
        ensures Normalized(l, l.server, AllThreads(results))
      {
        ClientRunIsComplete(l, limits, results);
      }
    } else {
      var i, j :| 0 <= i < j < |l.server| && Millis(l.server[i]) == Millis(l.server[j]);
      var results := RunExists(l, None, OneByOne(), 0);
      ClientRunIsShort(l, i, j, results);
      assert CursorText(None) == None;
      assert IsRun(l, None, OneByOne(), 0, results);
    }
  }

  // ---------------------------------------------------------------- a cursor that is missing

  /** The last raw thread of a payload has a readable archive time. */
  predicate LastIsDated(payload: Json, parse: DateParser) {
    var raws := RawThreads(payload);
    raws != [] && DateOf(RawArchiveTimestamp(raws[|raws| - 1]), parse).Some?
  }

  /**
   * A call hands on a cursor exactly when its payload ends in a thread whose archive time is readable,
   * whatever it says about more threads to come.
   */
  lemma CursorIsMissingIff(env: Env, parse: DateParser, channelId: string, scope: Scope, payload: Json)
    requires ArchivedFromPayload(env, parse, channelId, scope, payload).Ok?
    ensures var r := ArchivedFromPayload(env, parse, channelId, scope, payload).value;
      && (r.nextCursor.Some? <==> LastIsDated(payload, parse))
      && (r.hasMore <==> Field(payload, "has_more") == Some(Bool(true)))
  {
    hide CheckGuilds;
    hide NormalizeThreadList;
    hide NormalizeThread;
    hide RawThreads;
    hide DateOf;
    hide WellShaped;
    hide MapAll;
    hide Schema.ThreadsSchema;
    hide RawArchiveTimestamp;
    ThreadListOutcome(payload, Some(channelId), parse);
    var threads := NormalizeThreadList(payload, Some(channelId), parse).value.threads;
    var raws := RawThreads(payload);
    if raws != [] {
      var k := |raws| - 1;
      assert ThreadOf(Some(channelId), parse)(raws[k]) == Ok(threads[k]);
      ThreadIsDatedIff(raws[k], Some(channelId), parse);
    }
  }

  lemma ThreadIsDatedIff(raw: Json, parent: Option<string>, parse: DateParser)
    requires NormalizeThread(raw, parent, parse).Ok?
    ensures NormalizeThread(raw, parent, parse).value.archiveTimestamp.Some?
       <==> DateOf(RawArchiveTimestamp(raw), parse).Some?
  {
    hide DateOf;
    hide IsoString;
    hide Blank;
    hide NormalizeThreadType;
    hide RawArchiveTimestamp;
    hide RawLastActivity;
    hide ParentId;
  }

  /** The first page says there is more and hands on no cursor. */
  predicate StartsOver(l: Listing, limit: real) {
    Call(l, None, limit).Ok? && Call(l, None, limit).value.hasMore && Call(l, None, limit).value.nextCursor == None
  }

  /**
   * Then the next call asks for the first page again; when that holds for every limit still to come, as it
   * does with one limit throughout, there is no run at all.
   */
  lemma {:induction false} NoRunWithoutCursor(l: Listing, limits: nat -> real, k: nat, results: seq<ArchivedThreads>)
    requires forall i: nat | i >= k :: StartsOver(l, limits(i))
    ensures !IsRun(l, None, limits, k, results)
    decreases |results|
  {
    hide Call;
    assert StartsOver(l, limits(k));
    if results != [] {
      NoRunWithoutCursor(l, limits, k + 1, results[1..]);
    }
  }

  // ---------------------------------------------------------------- a server that serves

  /** Reads the two parameters of an archived listing: an ISO cursor, when there is one, and a limit. */
  function ReadQuery(query: seq<(string, string)>): Option<(Option<int>, nat)> {
    if |query| == 1 && query[0].0 == "limit" && ParseDecimal(query[0].1).Some? then
      Some((None, ParseDecimal(query[0].1).value))
    else if
      && |query| == 2 && query[0].0 == "before" && ParseIso(query[0].1).Some?
      && query[1].0 == "limit" && ParseDecimal(query[1].1).Some?
    then Some((ParseIso(query[0].1), ParseDecimal(query[1].1).value))
    else None
  }

  function PagePayload(page: Page): Json {
    Object(map["threads" := Array(Raws(page.threads)), "members" := Array([]), "has_more" := Bool(page.hasMore)])
  }

  function Reply(server: seq<Entry>, query: seq<(string, string)>): HttpReply {
    match ReadQuery(query)
    case None => Response(400, None, Ok(Null))
    case Some(q) => Response(200, None, Ok(PagePayload(PageOf(server, q.0, q.1))))
  }

  /** A server with three archives of a channel, each at its path; it reads the cursor back from its ISO string. */
  function ArchiveServer(channelId: string, archives: Scope -> seq<Entry>): Transport {
    (request: Request) =>
      if request.path == "/channels/" + channelId + "/threads/archived/public" then Reply(archives(Public), request.query)
      else if request.path == "/channels/" + channelId + "/threads/archived/private" then
        Reply(archives(Private), request.query)
      else if request.path == "/channels/" + channelId + "/users/@me/threads/archived/private" then
        Reply(archives(JoinedPrivate), request.query)
      else Response(404, None, Ok(Null))
  }

  lemma QueryReadsBack(before: Option<int>, limit: nat)
    requires before.Some? ==> FourDigitYear(before.value)
    ensures ReadQuery(Parameter("before", CursorText(before)) + [("limit", Decimal(limit))]) == Some((before, limit))
  {
    hide ParseIso;
    hide IsoString;
    hide ParseDecimal;
    hide Decimal;
    DecimalRoundTrip(limit);
    if before.Some? {
      IsoRoundTrip(before.value);
      IsoIsOneLine(before.value);
      hide FourDigitYear;
      var iso, d := IsoString(before.value), Decimal(limit);
      assert Parameter("before", CursorText(before)) + [("limit", d)] == [("before", iso), ("limit", d)];
      hide CursorText;
      hide Parameter;
    } else {
      assert Parameter("before", CursorText(before)) == [];
    }
  }

  lemma PayloadCarries(l: Listing, page: Page)
    ensures Carries(l, PagePayload(page), page)
  {
    var payload := PagePayload(page);
    assert "threads"[0] != "members"[0] && |"has_more"| != |"threads"|;
    assert Field(payload, "threads") == Some(Array(Raws(page.threads)));
    assert Field(payload, "members") == Some(Array([]));
    assert Field(payload, "has_more") == Some(Bool(page.hasMore));
  }

  lemma PathsDiffer(channelId: string)
    ensures var front := "/channels/" + channelId;
      && front + "/threads/archived/public" != front + "/threads/archived/private"
      && front + "/threads/archived/private" != front + "/users/@me/threads/archived/private"
      && front + "/threads/archived/public" != front + "/users/@me/threads/archived/private"
  {
    var front := "/channels/" + channelId;
    var public, private, joined := "/threads/archived/public", "/threads/archived/private", "/users/@me/threads/archived/private";
    assert |public| != |private| && |private| != |joined| && |public| != |joined|;
  }

  lemma ServerReplies(channelId: string, archives: Scope -> seq<Entry>, scope: Scope, query: seq<(string, string)>)
    ensures ArchiveServer(channelId, archives)(Request(ArchivePath(channelId, scope), query)) == Reply(archives(scope), query)
  {
    hide Reply;
    PathsDiffer(channelId);
  }

  lemma ReplyIsPage(server: seq<Entry>, query: seq<(string, string)>, before: Option<int>, limit: nat)
    requires ReadQuery(query) == Some((before, limit))
    ensures RequestJson(Reply(server, query)) == Ok(PagePayload(PageOf(server, before, limit)))
  {
    hide ReadQuery;
    hide PagePayload;
    hide PageOf;
  }

  lemma TransportAnswers(l: Listing, archives: Scope -> seq<Entry>, before: Option<int>, limit: nat)
    requires before.Some? ==> FourDigitYear(before.value)
    requires l.send == ArchiveServer(l.channelId, archives) && l.server == archives(l.scope)
    ensures Answers(l, before, limit)
  {
    QueryReadsBack(before, limit);
    PayloadCarries(l, PageOf(l.server, before, limit));
    hide Carries;
    hide PagePayload;
    hide ReadQuery;
    hide CursorText;
    hide Parameter;
    hide ArchivePath;
    hide PageOf;
    hide ArchiveServer;
    hide Reply;
    hide RequestJson;
    var query := Parameter("before", CursorText(before)) + [("limit", Decimal(limit))];
    ServerReplies(l.channelId, archives, l.scope, query);
    ReplyIsPage(l.server, query, before, limit);
  }

  /**
   * The assumptions on a server can be met for every sorted archive of admissible entries, with every time
   * readable when the entries are good.
   */
  lemma ArchiveServerServes(l: Listing, archives: Scope -> seq<Entry>)
    requires l.env.Valid() && Sorted(l.server) && Distinct(l.server)
    requires forall i | 0 <= i < |l.server| :: Admissible(l, l.server[i])
    requires l.send == ArchiveServer(l.channelId, archives) && l.server == archives(l.scope)
    ensures ServesAny(l)
    ensures (forall i | 0 <= i < |l.server| :: GoodEntry(l, l.server[i])) ==> Serves(l)
  {
    hide Admissible;
    hide Dated;
    hide Sorted;
    hide Distinct;
    hide Answers;
    hide ArchiveServer;
    forall before: Option<int>, limit: nat
      | (before.Some? ==> FourDigitYear(before.value)) && 1 <= limit <= l.env.maxThreads
      ensures Answers(l, before, limit)
    {
      TransportAnswers(l, archives, before, limit);
    }
  }

  /** So each scope shows pages of its own archive: the entries after the cursor, as many as the limit allows. */
  lemma ScopeShowsItsArchive(l: Listing, archives: Scope -> seq<Entry>, before: Option<int>, limit: real)
    requires l.env.Valid() && Sorted(l.server) && Distinct(l.server)
    requires forall i | 0 <= i < |l.server| :: Admissible(l, l.server[i])
    requires l.send == ArchiveServer(l.channelId, archives) && l.server == archives(l.scope)
    requires before.Some? ==> FourDigitYear(before.value)
    ensures var r := ListArchived(
        l.env, l.send, l.parse, l.channelId,
        match l.scope case Public => "public" case Private => "private" case JoinedPrivate => "joined_private",
        CursorText(before), limit);
      var page := PageOf(archives(l.scope), before, ClampInt(limit, 1, l.env.maxThreads));
      && r.Ok? && r.value.scope == l.scope && r.value.channelId == l.channelId
      && Normalized(l, page.threads, r.value.threads) && r.value.hasMore == page.hasMore
  {
    ArchiveServerServes(l, archives);
    hide ServesAny;
    hide Admissible;
    hide ArchiveServer;
    hide PageOf;
    hide Normalized;
    hide ListArchived;
    hide Sorted;
    hide Distinct;
    LimitPipeline(limit, l.env.maxThreads, 1);
    ClampedOnce(l, before, limit);
    CallShowsAnyPage(l, before, limit);
    ListingIsLabelled(l, CursorText(before), limit);
  }

  lemma ListingIsLabelled(l: Listing, before: Option<string>, limit: real)
    ensures Call(l, before, limit).Ok? ==>
              Call(l, before, limit).value.scope == l.scope && Call(l, before, limit).value.channelId == l.channelId
  {
    Tools.ClientResultIsValid(
      l.env, l.send, l.parse, l.channelId, l.scope, before, Tools.ClampLimit(limit, l.env.maxThreads));
    hide ListArchived;
  }

  /** The clamp of the handler does not change what the client asks for. */
  lemma ClampedOnce(l: Listing, before: Option<int>, limit: real)
    requires l.env.Valid() && (before.Some? ==> FourDigitYear(before.value))
    ensures ListArchived(
        l.env, l.send, l.parse, l.channelId,
        match l.scope case Public => "public" case Private => "private" case JoinedPrivate => "joined_private",
        CursorText(before), limit)
      == Call(l, CursorText(before), limit)
  {
    hide ArchivedFromPayload;
    hide RequestJson;
    hide ArchivePath;
    hide Parameter;
    hide IsoString;
    hide Schema.ParseScope;
    SentTwice(limit, l.env.maxThreads);
    LimitPipeline(limit, l.env.maxThreads, 1);
    hide ClampInt;
    assert Schema.ScopeText(l.scope)
        == match l.scope case Public => "public" case Private => "private" case JoinedPrivate => "joined_private";
  }
}
