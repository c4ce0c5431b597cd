/**
 * Which archives a run over the archived threads of a channel comes to an end on, when some archive times
 * are not readable: a page that ends in such a thread hands on no cursor, and the next call starts over.
 */
module RunEnding {
  import opened Wrappers
  import opened Text
  import opened Guards
  import opened Calendar
  import opened Sequences
  import opened Json
  import opened Discord
  import opened Normalize
  import opened Client
  import opened Pagination
  import opened ArchiveRun
  import NormalForm
  import Resources
  import Schema

  // ---------------------------------------------------------------- the condition

  /** At least `ceiling` entries of its own millisecond stand in front of entry `i`. */
  predicate Deep(server: seq<Entry>, i: nat, ceiling: int)
    requires i < |server| && ceiling >= 0
  {
    i >= ceiling && Millis(server[i - ceiling]) == Millis(server[i])
  }

  /** An entry whose time is not readable, with more behind it, that a page can end in. */
  predicate Traps(l: Listing, i: nat)
    requires l.env.Valid()
  {
    i + 1 < |l.server| && !Dated(l, l.server[i]) && !Deep(l.server, i, l.env.maxThreads)
  }

  ghost predicate NoTraps(l: Listing)
    requires l.env.Valid()
  {
    forall i: nat | i < |l.server| :: !Traps(l, i)
  }

  /** A run with these limits comes to an end. */
  ghost predicate Ends(l: Listing, limits: nat -> real) {
    exists results :: IsRun(l, None, limits, 0, results)
  }

  ghost predicate EndsForEveryLimit(l: Listing) {
    forall limits :: Ends(l, limits)
  }

  // ---------------------------------------------------------------- without traps every run ends

  /** The entry a page starts with is in an earlier millisecond than the one in front of it. */
  lemma StartsMillisecond(server: seq<Entry>, before: Option<int>)
    requires Sorted(server)
    ensures var p := Start(server, before);
      0 < p < |server| ==> Millis(server[p]) < Millis(server[p - 1])
  {
    OlderIsSuffix(server, before);
  }

  /** The last entry of a page with more to come is not deep in its millisecond. */
  lemma PageEndIsNotDeep(server: seq<Entry>, before: Option<int>, limit: nat, ceiling: nat)
    requires Sorted(server) && 1 <= limit <= ceiling && PageOf(server, before, limit).hasMore
    ensures var end := Start(server, before) + limit - 1;
      end + 1 < |server| && Last(PageOf(server, before, limit)) == server[end] && !Deep(server, end, ceiling)
  {
    OlderIsSuffix(server, before);
    var p := Start(server, before);
    var end := p + limit - 1;
    if Deep(server, end, ceiling) {
      StartsMillisecond(server, before);
      MillisFall(server, end - ceiling, p - 1);
      MillisFall(server, p, end);
      assert false;
    }
  }

  lemma SentIsClamped(limit: real, ceiling: int)
    requires ceiling >= 1
    ensures 1 <= LimitSent(limit, ceiling) <= ceiling
  {
    LimitPipeline(limit, ceiling, 1);
  }

  lemma ServesAnyEnv(l: Listing)
    requires ServesAny(l)
    ensures l.env.Valid() && Sorted(l.server) && Distinct(l.server)
  {
  }

  lemma PageEndIsDated(l: Listing, before: Option<int>, limit: nat)
    requires l.env.Valid() && Sorted(l.server) && NoTraps(l)
    requires 1 <= limit <= l.env.maxThreads && PageOf(l.server, before, limit).hasMore
    ensures PageOf(l.server, before, limit).threads != [] && Dated(l, Last(PageOf(l.server, before, limit)))
  {
    PageMakesProgress(l.server, before, limit);
    hide PageOf;
    hide Dated;
    hide Deep;
    hide Start;
    hide Sorted;
    PageEndIsNotDeep(l.server, before, limit, l.env.maxThreads);
    assert !Traps(l, Start(l.server, before) + limit - 1);
  }

  /** Without traps every page with more to come ends in a readable time. */
  lemma PageIsDated(l: Listing, before: Option<int>, limit: real)
    requires ServesAny(l) && NoTraps(l)
    requires PageOf(l.server, before, LimitSent(limit, l.env.maxThreads)).hasMore
    ensures var page := PageOf(l.server, before, LimitSent(limit, l.env.maxThreads));
      ReadCursor(l, page) == Cursor(page) && |Older(l.server, Cursor(page))| < |Older(l.server, before)|
  {
    ServesAnyEnv(l);
    hide ServesAny;
    hide PageOf;
    hide Dated;
    hide Millis;
    hide NoTraps;
    hide Sorted;
    hide Older;
    SentIsClamped(limit, l.env.maxThreads);
    hide LimitSent;
    var n := LimitSent(limit, l.env.maxThreads);
    PageMakesProgress(l.server, before, n);
    PageEndIsDated(l, before, n);
  }

  lemma {:induction false} RunEndsFrom(l: Listing, before: Option<int>, limits: nat -> real, k: nat)
    returns (results: seq<ArchivedThreads>)
    requires ServesAny(l) && NoTraps(l) && (before.Some? ==> FourDigitYear(before.value))
    ensures IsRun(l, CursorText(before), limits, k, results)
    decreases |Older(l.server, before)|
  {
    hide ServesAny;
    hide NoTraps;
    hide Call;
    hide PageOf;
    hide LimitSent;
    hide Normalized;
    hide CursorText;
    hide ReadCursor;
    hide IsRun;
    CallShowsAnyPage(l, before, limits(k));
    var page := PageOf(l.server, before, LimitSent(limits(k), l.env.maxThreads));
    var first := Call(l, CursorText(before), limits(k)).value;
    if page.hasMore {
      PageIsDated(l, before, limits(k));
      var rest := RunEndsFrom(l, ReadCursor(l, page), limits, k + 1);
      RunWithFirst(l, CursorText(before), limits, k, first, rest);
      results := [first] + rest;
    } else {
      RunOfOne(l, CursorText(before), limits, k, first);
      results := [first];
    }
  }

  // ---------------------------------------------------------------- calls that lead back to the start

  /** Calls with these limits all say there is more, and the last of them hands on no cursor. */
  ghost predicate LeadsBack(l: Listing, before: Option<string>, limits: seq<real>)
    decreases |limits|
  {
    && limits != []
    && Call(l, before, limits[0]).Ok?
    && var r := Call(l, before, limits[0]).value;
    && r.hasMore
    && if |limits| == 1 then r.nextCursor == None else LeadsBack(l, r.nextCursor, limits[1..])
  }

  /** The place in a cycle of length `n` after `k` steps. */
  function Phase(k: nat, n: nat): (p: nat)
    requires n > 0
    ensures p < n
  {
    if k < n then k else Phase(k - n, n)
  }

  lemma {:induction false} NextPhase(k: nat, n: nat)
    requires n > 0
    ensures Phase(k + 1, n) == if Phase(k, n) + 1 < n then Phase(k, n) + 1 else 0
  {
    if k >= n {
      NextPhase(k - n, n);
    }
  }

  /** Limits asked for over and over. */
  function Cycle(limits: seq<real>): nat -> real
    requires limits != []
  {
    (k: nat) => limits[Phase(k, |limits|)]
  }

  /** Asked over and over, such limits make no run. */
  lemma {:induction false} NoRunInCycle(
    l: Listing, limits: seq<real>, before: Option<string>, k: nat, results: seq<ArchivedThreads>
  )
    requires LeadsBack(l, None, limits) && LeadsBack(l, before, limits[Phase(k, |limits|)..])
    ensures !IsRun(l, before, Cycle(limits), k, results)
    decreases |results|
  {
    hide Call;
    if results != [] {
      var at := Phase(k, |limits|);
      NextPhase(k, |limits|);
      var next := Call(l, before, limits[at]).value.nextCursor;
      if at + 1 < |limits| {
        assert limits[at..][1..] == limits[at + 1..];
        NoRunInCycle(l, limits, next, k + 1, results[1..]);
      } else {
        assert limits[0..] == limits;
        NoRunInCycle(l, limits, None, k + 1, results[1..]);
      }
    }
  }

  // ---------------------------------------------------------------- with a trap some run does not end

  lemma {:induction false} FirstTrap(l: Listing, i: nat) returns (first: nat)
    requires l.env.Valid() && Traps(l, i)
    ensures first <= i && Traps(l, first) && forall j: nat | j < first :: !Traps(l, j)
  {
    hide Traps;
    first := i;
    if j: nat :| j < i && Traps(l, j) {
      first := FirstTrap(l, j);
    }
  }

  /** One page that ends in a given entry with more behind it. */
  lemma PageUpTo(server: seq<Entry>, before: Option<int>, end: nat)
    requires Sorted(server) && Start(server, before) <= end && end + 1 < |server|
    ensures var page := PageOf(server, before, end + 1 - Start(server, before));
      page.hasMore && page.threads != [] && Last(page) == server[end]
  {
    OlderIsSuffix(server, before);
  }

  lemma SizeIsSent(n: nat, ceiling: int)
    requires 1 <= n <= ceiling
    ensures LimitSent(n as real, ceiling) == n
  {
    LimitOfSchemaInput(n, ceiling);
  }

  lemma CallOfSize(l: Listing, before: Option<int>, n: nat)
    requires ServesAny(l) && l.env.Valid() && (before.Some? ==> FourDigitYear(before.value)) && 1 <= n <= l.env.maxThreads
    ensures var page, r := PageOf(l.server, before, n), Call(l, CursorText(before), n as real);
      && r.Ok?
      && r.value.hasMore == page.hasMore
      && (ReadCursor(l, page).Some? ==> FourDigitYear(ReadCursor(l, page).value))
      && r.value.nextCursor == CursorText(ReadCursor(l, page))
  {
    hide ServesAny;
    hide Call;
    hide PageOf;
    hide ReadCursor;
    hide CursorText;
    hide Normalized;
    hide LimitSent;
    hide FourDigitYear;
    SizeIsSent(n, l.env.maxThreads);
    CallShowsAnyPage(l, before, n as real);
  }

  /** The cursor handed on when a page ends in an entry. */
  function CursorAt(l: Listing, end: nat): Option<int>
    requires end < |l.server|
  {
    if Dated(l, l.server[end]) then Some(Millis(l.server[end])) else None
  }

  /** The call that asks for just that page. */
  lemma CallUpTo(l: Listing, before: Option<int>, end: nat, n: nat)
    requires ServesAny(l) && l.env.Valid() && Sorted(l.server) && (before.Some? ==> FourDigitYear(before.value))
    requires end + 1 == Start(l.server, before) + n && end + 1 < |l.server| && 1 <= n <= l.env.maxThreads
    ensures var r := Call(l, CursorText(before), n as real);
      && r.Ok? && r.value.hasMore
      && (CursorAt(l, end).Some? ==> FourDigitYear(CursorAt(l, end).value))
      && r.value.nextCursor == CursorText(CursorAt(l, end))
  {
    PageUpTo(l.server, before, end);
    hide ServesAny;
    hide Call;
    hide PageOf;
    hide Dated;
    hide CursorText;
    hide Millis;
    hide Start;
    hide Sorted;
    CallOfSize(l, before, n);
  }

  /** Before the first trap a page of one entry ends in a readable time. */
  lemma FrontIsDated(l: Listing, before: Option<int>, trap: nat)
    requires ServesAny(l) && Start(l.server, before) < trap && trap + 1 < |l.server|
    requires forall j: nat | j < trap :: !Traps(l, j)
    ensures Dated(l, l.server[Start(l.server, before)])
  {
    ServesAnyEnv(l);
    hide ServesAny;
    hide Dated;
    hide Deep;
    hide Millis;
    var p := Start(l.server, before);
    PageUpTo(l.server, before, p);
    PageEndIsNotDeep(l.server, before, 1, l.env.maxThreads);
    assert !Traps(l, p);
  }

  /** When the trap is too far for one page, a page of one entry leaves it ahead. */
  lemma NextStart(l: Listing, before: Option<int>, trap: nat)
    requires Sorted(l.server) && l.env.Valid() && Traps(l, trap)
    requires trap + 1 - Start(l.server, before) > l.env.maxThreads && Start(l.server, before) <= trap
    ensures var p := Start(l.server, before);
      p < Start(l.server, Some(Millis(l.server[p]))) <= trap
  {
    hide Start;
    hide Millis;
    hide Sorted;
    hide Dated;
    var p := Start(l.server, before);
    MillisFall(l.server, p, trap - l.env.maxThreads);
    MillisFall(l.server, trap - l.env.maxThreads, trap);
    StartByMillis(l.server, l.server[p]);
  }

  lemma LeadsBackAtOnce(l: Listing, before: Option<string>, limit: real)
    requires Call(l, before, limit).Ok? && Call(l, before, limit).value.hasMore
    requires Call(l, before, limit).value.nextCursor == None
    ensures LeadsBack(l, before, [limit])
  {
    hide Call;
  }

  lemma LeadsBackLater(l: Listing, before: Option<string>, limit: real, rest: seq<real>)
    requires Call(l, before, limit).Ok? && Call(l, before, limit).value.hasMore
    requires LeadsBack(l, Call(l, before, limit).value.nextCursor, rest)
    ensures LeadsBack(l, before, [limit] + rest)
  {
    hide Call;
    assert ([limit] + rest)[1..] == rest;
  }

  /** Pages of one entry, and a last one up to the first trap. */
  lemma {:induction false} PathToTrap(l: Listing, before: Option<int>, trap: nat) returns (limits: seq<real>)
    requires ServesAny(l) && l.env.Valid() && Sorted(l.server) && (before.Some? ==> FourDigitYear(before.value))
    requires Traps(l, trap) && forall j: nat | j < trap :: !Traps(l, j)
    requires Start(l.server, before) <= trap
    ensures LeadsBack(l, CursorText(before), limits)
    decreases trap - Start(l.server, before)
  {
    hide ServesAny;
    hide Call;
    hide CursorText;
    hide Dated;
    hide Millis;
    hide Deep;
    hide LeadsBack;
    var p := Start(l.server, before);
    assert trap + 1 < |l.server| && !Dated(l, l.server[trap]);
    if trap + 1 - p <= l.env.maxThreads {
      CallUpTo(l, before, trap, trap + 1 - p);
      NoCursorText();
      limits := [(trap + 1 - p) as real];
      LeadsBackAtOnce(l, CursorText(before), (trap + 1 - p) as real);
    } else {
      FrontIsDated(l, before, trap);
      CallUpTo(l, before, p, 1);
      NextStart(l, before, trap);
      hide Traps;
      var rest := PathToTrap(l, Some(Millis(l.server[p])), trap);
      limits := [1.0] + rest;
      LeadsBackLater(l, CursorText(before), 1.0, rest);
    }
  }

  lemma NoCursorText()
    ensures CursorText(None) == None
  {
  }

  lemma StartOfAll(server: seq<Entry>)
    requires Sorted(server)
    ensures Start(server, None) == 0
  {
    OlderAll(server, None);
  }

  /**
   * Runs come to an end for every choice of limits exactly when every thread whose archive time is not
   * readable, other than the very last, stands behind at least as many threads of its own millisecond as one
   * call may ask for: no page can end in it.
   */
  lemma EndsForEveryLimitIff(l: Listing)
    requires ServesAny(l) && l.env.Valid()
    ensures EndsForEveryLimit(l) <==> NoTraps(l)
  {
    ServesAnyEnv(l);
    NoCursorText();
    hide ServesAny;
    hide Traps;
    hide IsRun;
    hide LeadsBack;
    hide CursorText;
    if NoTraps(l) {
      forall limits ensures Ends(l, limits) {
        var results := RunEndsFrom(l, None, limits, 0);
        assert IsRun(l, None, limits, 0, results);
      }
    } else {
      var i: nat :| i < |l.server| && Traps(l, i);
      var trap := FirstTrap(l, i);
      StartOfAll(l.server);
      var limits := PathToTrap(l, None, trap);
      LimitsNotEmpty(l, None, limits);
      forall results ensures !IsRun(l, None, Cycle(limits), 0, results) {
        assert limits[Phase(0, |limits|)..] == limits;
        NoRunInCycle(l, limits, None, 0, results);
      }
      assert !Ends(l, Cycle(limits));
    }
  }

  lemma LimitsNotEmpty(l: Listing, before: Option<string>, limits: seq<real>)
    requires LeadsBack(l, before, limits)
    ensures limits != []
  {
    hide Call;
  }

  /** With readable times every run ends, whatever the limits. */
  lemma ReadableTimesEnd(l: Listing)
    requires Serves(l)
    ensures EndsForEveryLimit(l)
  {
    ServesAnyEnv(l);
    assert NoTraps(l);
    hide Serves;
    hide NoTraps;
    hide EndsForEveryLimit;
    EndsForEveryLimitIff(l);
  }

  // ---------------------------------------------------------------- such archives and answers exist

  /** An undated thread of an accepted guild makes an entry such an archive may hold, at any time. */
  lemma UndatedThreadIsAdmissible(l: Listing, t: Thread, micros: int)
    requires Resources.Plain(t) && t.parentId == l.channelId && GuildAllowed(l.env, t.guildId)
    ensures var e := Entry(NormalForm.RawThread(t), micros); Admissible(l, e) && !Dated(l, e)
  {
    hide NormalizeThread;
    hide RawThreadFits;
    hide NormalForm.RawThread;
    hide Schema.ThreadSchema;
    hide Blank;
    hide DateOf;
    hide RawArchiveTimestamp;
    var raw := NormalForm.RawThread(t);
    NormalForm.UndatedThreadIsImage(t, l.parse);
    NormalForm.ParentNamed(t, l.parse);
    ThreadFits(raw, Some(l.channelId), l.parse);
    ThreadIsDatedIff(raw, Some(l.channelId), l.parse);
  }

  /** A page without threads that promises more starts every listing over, for every limit. */
  lemma EmptyPageStartsOver(l: Listing, m: Member, limit: real)
    requires Resources.PlainMember(m) && l.send == Resources.Always(Resources.MembersPayload(m))
    ensures StartsOver(l, limit)
  {
    Schema.ScopeRoundTrip(l.scope);
    hide ArchivedFromPayload;
    hide Resources.PlainMember;
    hide Resources.MembersPayload;
    hide Schema.ScopeText;
    hide Schema.ParseScope;
    hide ArchivedRequest;
    Resources.AnyMemberIsPassedOn(l.env, l.parse, l.channelId, l.scope, m);
  }
}
