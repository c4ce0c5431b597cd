/**
 * Runs over the archived threads of a channel: a caller feeds each `next_cursor` back as `before` until
 * `has_more` is false. The server keeps archive times in microseconds; the cursor it is given has been
 * cut to milliseconds by lib/time.ts.
 */
module Pagination {
  import opened Wrappers
  import opened Guards
  import opened Sequences
  import opened Json

  /** An archived thread as the server has it. */
  datatype Entry = Entry(raw: Json, micros: int)

  /** The millisecond an entry's archive time is cut to. */
  function Millis(e: Entry): int {
    e.micros / 1000
  }

  ghost predicate Sorted(server: seq<Entry>) {
    forall i, j | 0 <= i < j < |server| :: server[i].micros >= server[j].micros
  }

  /** Archived before the cursor's millisecond began; without a cursor every entry is. */
  predicate IsOlder(e: Entry, before: Option<int>) {
    before.None? || e.micros < 1000 * before.value
  }

  function Older(server: seq<Entry>, before: Option<int>): seq<Entry> {
    if server == [] then []
    else (if IsOlder(server[0], before) then [server[0]] else []) + Older(server[1..], before)
  }

  datatype Page = Page(threads: seq<Entry>, hasMore: bool)

  /** The server's answer: the newest `limit` entries older than the cursor, and whether any are left. */
  function PageOf(server: seq<Entry>, before: Option<int>, limit: nat): Page {
    var older := Older(server, before);
    if limit < |older| then Page(older[..limit], true) else Page(older, false)
  }

  function Last(page: Page): Entry
    requires page.threads != []
  {
    page.threads[|page.threads| - 1]
  }

  /** The cursor a page hands on. */
  function Cursor(page: Page): Option<int> {
    if page.threads == [] then None else Some(Millis(Last(page)))
  }

  // ---------------------------------------------------------------- the measure

  lemma {:induction false} OlderElement(server: seq<Entry>, before: Option<int>, k: nat)
    requires k < |Older(server, before)|
    ensures IsOlder(Older(server, before)[k], before) && Older(server, before)[k] in server
  {
    if IsOlder(server[0], before) {
      if k > 0 { OlderElement(server[1..], before, k - 1); }
    } else {
      OlderElement(server[1..], before, k);
    }
  }

  /** Fewer entries are older than an earlier cursor; strictly fewer when an entry lies between. */
  lemma {:induction false} OlderShrinks(server: seq<Entry>, before: Option<int>, cursor: int)
    requires before.None? || cursor <= before.value
    ensures |Older(server, Some(cursor))| <= |Older(server, before)|
    ensures (exists e :: e in server && IsOlder(e, before) && !IsOlder(e, Some(cursor))) ==>
              |Older(server, Some(cursor))| < |Older(server, before)|
  {
    if server != [] {
      var tail := server[1..];
      OlderShrinks(tail, before, cursor);
      if exists e :: e in server && IsOlder(e, before) && !IsOlder(e, Some(cursor)) {
        var e :| e in server && IsOlder(e, before) && !IsOlder(e, Some(cursor));
        assert e == server[0] || e in tail;
      }
    }
  }

  /** A page with more to come is not empty, and fewer entries are older than its cursor. */
  lemma PageMakesProgress(server: seq<Entry>, before: Option<int>, limit: nat)
    requires limit >= 1 && PageOf(server, before, limit).hasMore
    ensures var page := PageOf(server, before, limit);
      && |page.threads| == limit
      && |Older(server, Cursor(page))| <= |Older(server, before)| - 1
      && (before.Some? ==> Cursor(page).value < before.value)
  {
    var older := Older(server, before);
    var last := older[limit - 1];
    OlderElement(server, before, limit - 1);
    assert Last(PageOf(server, before, limit)) == last;
    assert !IsOlder(last, Some(Millis(last)));
    OlderShrinks(server, before, Millis(last));
  }

  // ---------------------------------------------------------------- runs

  /** The pages of a run from a cursor; call number `k` asks for `limits(k)`, clamped twice on the way. */
  function Run(server: seq<Entry>, before: Option<int>, limits: nat -> real, ceiling: int, k: nat): (run: seq<Page>)
    requires ceiling >= 1
    ensures |run| >= 1
    decreases |Older(server, before)|
  {
    LimitPipeline(limits(k), ceiling, 1);
    var page := PageOf(server, before, LimitSent(limits(k), ceiling));
    if page.hasMore then
      PageMakesProgress(server, before, LimitSent(limits(k), ceiling));
      [page] + Run(server, Cursor(page), limits, ceiling, k + 1)
    else [page]
  }

  lemma RunWithMore(server: seq<Entry>, before: Option<int>, limits: nat -> real, ceiling: int, k: nat)
    requires ceiling >= 1
    ensures var limit := LimitSent(limits(k), ceiling);
      && limit >= 1
      && (var page := PageOf(server, before, limit);
          page.hasMore ==>
            && |Older(server, Cursor(page))| < |Older(server, before)|
            && Run(server, before, limits, ceiling, k) == [page] + Run(server, Cursor(page), limits, ceiling, k + 1))
  {
    LimitPipeline(limits(k), ceiling, 1);
    var limit := LimitSent(limits(k), ceiling);
    if PageOf(server, before, limit).hasMore {
      PageMakesProgress(server, before, limit);
    }
  }

  lemma RunAtEnd(server: seq<Entry>, before: Option<int>, limits: nat -> real, ceiling: int, k: nat)
    requires ceiling >= 1
    requires LimitSent(limits(k), ceiling) >= 1 ==> !PageOf(server, before, LimitSent(limits(k), ceiling)).hasMore
    ensures Run(server, before, limits, ceiling, k) == [Page(Older(server, before), false)]
  {
    LimitPipeline(limits(k), ceiling, 1);
  }

  /** Everything the pages of a run showed, in order. */
  function Seen(run: seq<Page>): seq<Entry> {
    if run == [] then [] else run[0].threads + Seen(run[1..])
  }

  /** A run makes at most as many calls as there are threads to list, and one when there are none. */
  lemma {:induction false} RunLength(server: seq<Entry>, before: Option<int>, limits: nat -> real, ceiling: int, k: nat)
    requires ceiling >= 1
    ensures |Run(server, before, limits, ceiling, k)| <= Max(1, |Older(server, before)|)
    decreases |Older(server, before)|
  {
    hide Run;
    hide LimitSent;
    RunWithMore(server, before, limits, ceiling, k);
    var page := PageOf(server, before, LimitSent(limits(k), ceiling));
    if page.hasMore {
      RunLength(server, Cursor(page), limits, ceiling, k + 1);
    } else {
      RunAtEnd(server, before, limits, ceiling, k);
    }
  }

  /** Every page but the last has more to come, and the last has not. */
  lemma {:induction false} RunEnds(server: seq<Entry>, before: Option<int>, limits: nat -> real, ceiling: int, k: nat)
    requires ceiling >= 1
    ensures var run := Run(server, before, limits, ceiling, k);
      forall n | 0 <= n < |run| :: run[n].hasMore <==> n < |run| - 1
    decreases |Older(server, before)|
  {
    hide Run;
    hide LimitSent;
    hide PageOf;
    RunWithMore(server, before, limits, ceiling, k);
    var page := PageOf(server, before, LimitSent(limits(k), ceiling));
    if page.hasMore {
      RunEnds(server, Cursor(page), limits, ceiling, k + 1);
    } else {
      RunAtEnd(server, before, limits, ceiling, k);
    }
  }

  // ---------------------------------------------------------------- what a run sees

  /** The entry is the last of a page of the run. */
  ghost predicate EndsPage(run: seq<Page>, e: Entry) {
    exists n | 0 <= n < |run| :: run[n].threads != [] && Last(run[n]) == e
  }

  /** Entry `i` follows the last entry of some page and shares its millisecond. */
  ghost predicate Skipped(server: seq<Entry>, run: seq<Page>, i: nat)
    requires i < |server|
  {
    exists e: nat | e < i :: EndsPage(run, server[e]) && Millis(server[e]) == Millis(server[i])
  }

  ghost function Kept(server: seq<Entry>, run: seq<Page>, start: nat): set<nat> {
    set i: nat | start <= i < |server| && !Skipped(server, run, i)
  }

  lemma {:induction false} OlderAll(server: seq<Entry>, before: Option<int>)
    requires forall i | 0 <= i < |server| :: IsOlder(server[i], before)
    ensures Older(server, before) == server
  {
    if server != [] {
      OlderAll(server[1..], before);
    }
  }

  lemma OlderDrops(server: seq<Entry>, before: Option<int>)
    requires server != [] && !IsOlder(server[0], before)
    ensures Older(server, before) == Older(server[1..], before)
  {
  }

  lemma AllOlder(server: seq<Entry>, before: Option<int>)
    requires Sorted(server) && server != [] && IsOlder(server[0], before)
    ensures forall i | 0 <= i < |server| :: IsOlder(server[i], before)
  {
  }

  /** In a sorted list the older entries are the ones from some position on. */
  lemma {:induction false} OlderIsSuffix(server: seq<Entry>, before: Option<int>)
    requires Sorted(server)
    ensures |Older(server, before)| <= |server|
    ensures Older(server, before) == server[|server| - |Older(server, before)|..]
    ensures forall i | 0 <= i < |server| :: IsOlder(server[i], before) <==> i >= |server| - |Older(server, before)|
  {
    hide Older;
    hide IsOlder;
    if server == [] {
      OlderAll(server, before);
    } else if IsOlder(server[0], before) {
      AllOlder(server, before);
      OlderAll(server, before);
    } else {
      var tail := server[1..];
      var older := Older(tail, before);
      assert Sorted(tail);
      OlderIsSuffix(tail, before);
      OlderDrops(server, before);
      hide Sorted;
      assert server[|server| - |older|..] == tail[|tail| - |older|..];
      forall i | 0 < i < |server| ensures IsOlder(server[i], before) <==> i >= |server| - |older| {
        assert server[i] == tail[i - 1];
      }
    }
  }

  ghost function Start(server: seq<Entry>, before: Option<int>): nat
    requires Sorted(server)
  {
    OlderIsSuffix(server, before);
    |server| - |Older(server, before)|
  }

  lemma MillisFall(server: seq<Entry>, i: nat, j: nat)
    requires Sorted(server) && i <= j < |server|
    ensures Millis(server[i]) >= Millis(server[j])
  {
  }

  lemma EndsPageStep(page: Page, rest: seq<Page>, e: Entry)
    ensures EndsPage([page] + rest, e) <==> (page.threads != [] && Last(page) == e) || EndsPage(rest, e)
  {
    var run := [page] + rest;
    if page.threads != [] && Last(page) == e {
      assert run[0] == page;
    }
    if EndsPage(rest, e) {
      var n :| 0 <= n < |rest| && rest[n].threads != [] && Last(rest[n]) == e;
      assert run[n + 1] == rest[n];
    }
    if EndsPage(run, e) {
      var n :| 0 <= n < |run| && run[n].threads != [] && Last(run[n]) == e;
      if n > 0 { assert rest[n - 1] == run[n]; }
    }
  }

  /** Pages of a run hold entries from its start on. */
  lemma {:induction false} RunStaysOlder(
    server: seq<Entry>, before: Option<int>, limits: nat -> real, ceiling: int, k: nat, e: Entry
  )
    requires ceiling >= 1
    requires EndsPage(Run(server, before, limits, ceiling, k), e)
    ensures IsOlder(e, before)
    decreases |Older(server, before)|
  {
    hide Run;
    hide LimitSent;
    hide EndsPage;
    RunWithMore(server, before, limits, ceiling, k);
    var limit := LimitSent(limits(k), ceiling);
    var page := PageOf(server, before, limit);
    if page.hasMore {
      var rest := Run(server, Cursor(page), limits, ceiling, k + 1);
      EndsPageStep(page, rest, e);
      OlderElement(server, before, limit - 1);
      if EndsPage(rest, e) {
        RunStaysOlder(server, Cursor(page), limits, ceiling, k + 1, e);
      }
    } else {
      RunAtEnd(server, before, limits, ceiling, k);
      EndsPageStep(page, [], e);
      assert [page] + [] == [page];
      NoPageEnds(e);
      OlderElement(server, before, |page.threads| - 1);
    }
  }

  lemma NoPageEnds(e: Entry)
    ensures !EndsPage([], e)
  {
  }

  /**
   * One page, ending with entry `end`, in front of the rest of a run: the page itself is kept, entries
   * that share the millisecond of its last are skipped, and behind them the rest decides.
   */
  lemma KeptStep(server: seq<Entry>, start: nat, end: nat, next: nat, page: Page, rest: seq<Page>)
    requires Sorted(server) && Distinct(server)
    requires start <= end < next <= |server|
    requires page.threads == server[start..end + 1]
    requires forall i: nat | i < |server| :: i >= next <==> Millis(server[i]) < Millis(server[end])
    requires forall e: nat | e < |server| && EndsPage(rest, server[e]) :: e >= next
    ensures forall i: nat | i < |server| ::
              i in Kept(server, [page] + rest, start) <==> start <= i < end + 1 || i in Kept(server, rest, next)
  {
    var run := [page] + rest;
    assert Last(page) == server[end];
    forall i: nat | start <= i < |server|
      ensures Skipped(server, run, i) <==> end < i < next || (i >= next && Skipped(server, rest, i))
    {
      SkippedStep(server, end, next, page, rest, i);
    }
  }

  lemma SkippedStep(server: seq<Entry>, end: nat, next: nat, page: Page, rest: seq<Page>, i: nat)
    requires Sorted(server) && Distinct(server)
    requires end < next <= |server| && i < |server|
    requires page.threads != [] && Last(page) == server[end]
    requires forall j: nat | j < |server| :: j >= next <==> Millis(server[j]) < Millis(server[end])
    requires forall e: nat | e < |server| && EndsPage(rest, server[e]) :: e >= next
    ensures Skipped(server, [page] + rest, i) <==> end < i < next || (i >= next && Skipped(server, rest, i))
  {
    var run := [page] + rest;
    if Skipped(server, run, i) {
      var e: nat :| e < i && EndsPage(run, server[e]) && Millis(server[e]) == Millis(server[i]);
      EndsPageStep(page, rest, server[e]);
      if EndsPage(rest, server[e]) {
        assert i >= next && Skipped(server, rest, i);
      } else {
        assert e == end;
      }
    }
    if end < i < next {
      MillisFall(server, end, i);
      EndsPageStep(page, rest, server[end]);
      assert EndsPage(run, server[end]);
    }
    if i >= next && Skipped(server, rest, i) {
      var e: nat :| e < i && EndsPage(rest, server[e]) && Millis(server[e]) == Millis(server[i]);
      EndsPageStep(page, rest, server[e]);
      assert EndsPage(run, server[e]);
    }
  }

  /** From a cursor on, a run sees exactly the entries that are older and not skipped, in order. */
  lemma {:induction false} RunSees(server: seq<Entry>, before: Option<int>, limits: nat -> real, ceiling: int, k: nat)
    requires Sorted(server) && Distinct(server) && ceiling >= 1
    ensures var run := Run(server, before, limits, ceiling, k);
      Seen(run) == Pick(server, Kept(server, run, Start(server, before)))
    decreases |Older(server, before)|
  {
    hide Run;
    hide Kept;
    hide Skipped;
    hide EndsPage;
    hide LimitSent;
    hide PageOf;
    hide Pick;
    RunWithMore(server, before, limits, ceiling, k);
    var limit := LimitSent(limits(k), ceiling);
    var page := PageOf(server, before, limit);
    if page.hasMore {
      RunSees(server, Cursor(page), limits, ceiling, k + 1);
      RunSeesStep(server, before, limit, Run(server, Cursor(page), limits, ceiling, k + 1)) by {
        RestEndsLater(server, Cursor(page), limits, ceiling, k + 1);
      }
    } else {
      RunAtEnd(server, before, limits, ceiling, k);
      RunSeesEnd(server, before);
    }
  }

  /** A page that is a block of the list, in front of pages that show a selection behind it. */
  lemma SeenBlock(
    server: seq<Entry>, start: nat, end: nat, page: Page, rest: seq<Page>, keep: set<nat>, behind: set<nat>
  )
    requires start <= end <= |server| && page.threads == server[start..end]
    requires forall i: nat | i < |server| :: i in keep <==> start <= i < end || i in behind
    requires forall i: nat | i in behind :: i >= end
    requires Seen(rest) == Pick(server, behind)
    ensures Seen([page] + rest) == Pick(server, keep)
  {
    assert ([page] + rest)[1..] == rest;
    hide Pick;
    PickBlock(server, start, end, keep, behind);
  }

  /** One page in front of a run that sees what it should makes a run that sees what it should. */
  lemma RunSeesStep(server: seq<Entry>, before: Option<int>, limit: nat, rest: seq<Page>)
    requires Sorted(server) && Distinct(server) && limit >= 1 && PageOf(server, before, limit).hasMore
    requires var next := Start(server, Cursor(PageOf(server, before, limit)));
      && Seen(rest) == Pick(server, Kept(server, rest, next))
      && forall e: nat | e < |server| && EndsPage(rest, server[e]) :: e >= next
    ensures var run := [PageOf(server, before, limit)] + rest;
      Seen(run) == Pick(server, Kept(server, run, Start(server, before)))
  {
    hide Seen;
    hide Pick;
    hide Skipped;
    hide EndsPage;
    hide Start;
    hide PageOf;
    hide Cursor;
    hide Sorted;
    hide Distinct;
    hide Millis;
    var page := PageOf(server, before, limit);
    PagePlaces(server, before, limit);
    var start, next := Start(server, before), Start(server, Cursor(page));
    KeptStep(server, start, start + limit - 1, next, page, rest);
    var keep, behind := Kept(server, [page] + rest, start), Kept(server, rest, next);
    assert forall i: nat | i in behind :: i >= next;
    SeenBlock(server, start, start + limit, page, rest, keep, behind);
  }

  lemma NothingSeen(server: seq<Entry>)
    ensures Seen([]) == Pick(server, {})
  {
    PickNone(server, {});
  }

  lemma RunSeesEnd(server: seq<Entry>, before: Option<int>)
    requires Sorted(server) && Distinct(server)
    ensures var run := [Page(Older(server, before), false)];
      Seen(run) == Pick(server, Kept(server, run, Start(server, before)))
  {
    OlderIsSuffix(server, before);
    LastPageSeen(server, Start(server, before), Page(Older(server, before), false));
  }

  lemma LastPageSeen(server: seq<Entry>, start: nat, page: Page)
    requires Distinct(server) && start <= |server| && page.threads == server[start..]
    ensures Seen([page]) == Pick(server, Kept(server, [page], start))
  {
    hide Skipped;
    hide Pick;
    hide Seen;
    LastPageKept(server, page, start);
    NothingSeen(server);
    assert server[start..|server|] == server[start..];
    SeenBlock(server, start, |server|, page, [], Kept(server, [page], start), {});
    assert [page] + [] == [page];
  }

  /** An entry is older than a cursor exactly when its own millisecond is. */
  lemma OlderByMillis(e: Entry, last: Entry)
    ensures IsOlder(e, Some(Millis(last))) <==> Millis(e) < Millis(last)
  {
  }

  lemma StartByMillis(server: seq<Entry>, last: Entry)
    requires Sorted(server)
    ensures Start(server, Some(Millis(last))) <= |server|
    ensures forall i: nat | i < |server| :: i >= Start(server, Some(Millis(last))) <==> Millis(server[i]) < Millis(last)
  {
    var cursor := Some(Millis(last));
    OlderIsSuffix(server, cursor);
    hide Older;
    hide IsOlder;
    forall i: nat | i < |server| ensures i >= Start(server, cursor) <==> Millis(server[i]) < Millis(last) {
      OlderByMillis(server[i], last);
    }
  }

  lemma PageBlock(server: seq<Entry>, before: Option<int>, limit: nat)
    requires Sorted(server) && limit >= 1 && PageOf(server, before, limit).hasMore
    ensures var page, start := PageOf(server, before, limit), Start(server, before);
      && start + limit <= |server|
      && page.threads == server[start..start + limit]
      && Cursor(page) == Some(Millis(server[start + limit - 1]))
  {
    hide Older;
    hide IsOlder;
    hide Sorted;
    hide Millis;
    OlderIsSuffix(server, before);
    SliceOfDrop(server, Start(server, before), limit);
    assert PageOf(server, before, limit).threads == server[Start(server, before)..][..limit];
  }

  lemma SliceOfDrop(s: seq<Entry>, a: nat, k: nat)
    requires a + k <= |s|
    ensures s[a..][..k] == s[a..a + k]
  {
  }

  lemma PagePlaces(server: seq<Entry>, before: Option<int>, limit: nat)
    requires Sorted(server) && limit >= 1 && PageOf(server, before, limit).hasMore
    ensures var page := PageOf(server, before, limit);
      var start, next := Start(server, before), Start(server, Cursor(page));
      && start + limit <= next <= |server|
      && page.threads == server[start..start + limit]
      && Last(page) == server[start + limit - 1]
      && (forall i: nat | i < |server| :: i >= next <==> Millis(server[i]) < Millis(server[start + limit - 1]))
  {
    hide Start;
    hide PageOf;
    hide Sorted;
    hide Millis;
    PageBlock(server, before, limit);
    var start := Start(server, before);
    StartByMillis(server, server[start + limit - 1]);
    MillisFallUpTo(server, start + limit - 1);
  }

  lemma MillisFallUpTo(server: seq<Entry>, n: nat)
    requires Sorted(server) && n < |server|
    ensures forall i: nat | i <= n :: Millis(server[i]) >= Millis(server[n])
  {
  }

  lemma RestEndsLater(server: seq<Entry>, before: Option<int>, limits: nat -> real, ceiling: int, k: nat)
    requires Sorted(server) && ceiling >= 1
    ensures forall e: nat | e < |server| && EndsPage(Run(server, before, limits, ceiling, k), server[e]) ::
              e >= Start(server, before)
  {
    OlderIsSuffix(server, before);
    forall e: nat | e < |server| && EndsPage(Run(server, before, limits, ceiling, k), server[e])
      ensures e >= Start(server, before)
    {
      RunStaysOlder(server, before, limits, ceiling, k, server[e]);
    }
  }

  lemma LastPageKept(server: seq<Entry>, page: Page, start: nat)
    requires Distinct(server) && start <= |server| && page.threads == server[start..]
    ensures forall i: nat | i < |server| :: i in Kept(server, [page], start) <==> start <= i
  {
    forall i: nat | start <= i < |server| ensures !Skipped(server, [page], i) {
      forall e: nat | e < i ensures !EndsPage([page], server[e]) {
        assert Last(page) == server[|server| - 1];
      }
    }
  }

  /**
   * A whole run yields the server's list without exactly those entries that follow a page's last entry
   * and share its millisecond, in the server's order and none of them twice.
   */
  lemma WholeRun(server: seq<Entry>, limits: nat -> real, ceiling: int)
    requires Sorted(server) && Distinct(server) && ceiling >= 1
    ensures var run := Run(server, None, limits, ceiling, 0);
      && Seen(run) == Pick(server, Kept(server, run, 0))
      && Distinct(Seen(run))
      && (Seen(run) == server <==> forall i: nat | i < |server| :: !Skipped(server, run, i))
  {
    var run := Run(server, None, limits, ceiling, 0);
    StartOfAll(server);
    RunSees(server, None, limits, ceiling, 0);
    var keep := Kept(server, run, 0);
    hide Run;
    hide Seen;
    hide Skipped;
    hide Start;
    hide Pick;
    PickDistinct(server, keep);
    PickWhole(server, keep);
    if forall i: nat | i < |server| :: !Skipped(server, run, i) {
      PickAll(server, keep);
    }
    if Seen(run) == server {
      forall i: nat | i < |server| ensures !Skipped(server, run, i) {
        assert i in keep;
      }
    }
  }

  lemma StartOfAll(server: seq<Entry>)
    requires Sorted(server)
    ensures Start(server, None) == 0
  {
    OlderIsSuffix(server, None);
    if server != [] {
      assert IsOlder(server[0], None);
    }
  }

  // ---------------------------------------------------------------- when a run is complete

  ghost predicate DistinctMillis(server: seq<Entry>) {
    forall i, j | 0 <= i < j < |server| :: Millis(server[i]) != Millis(server[j])
  }

  /** Times that differ at millisecond resolution: every thread exactly once, in order, whatever the limits. */
  lemma CompleteWhenMillisDiffer(server: seq<Entry>, limits: nat -> real, ceiling: int)
    requires Sorted(server) && Distinct(server) && ceiling >= 1 && DistinctMillis(server)
    ensures Seen(Run(server, None, limits, ceiling, 0)) == server
  {
    WholeRun(server, limits, ceiling);
  }

  function OneByOne(): nat -> real {
    _ => 1.0
  }

  lemma {:induction false} SeenEndsPage(server: seq<Entry>, before: Option<int>, ceiling: int, k: nat, e: Entry)
    requires ceiling >= 1
    requires e in Seen(Run(server, before, OneByOne(), ceiling, k))
    ensures EndsPage(Run(server, before, OneByOne(), ceiling, k), e)
    decreases |Older(server, before)|
  {
    var limits := OneByOne();
    LimitPipeline(limits(k), ceiling, 1);
    var limit := LimitSent(limits(k), ceiling);
    assert limit == 1;
    var page := PageOf(server, before, limit);
    var run := Run(server, before, limits, ceiling, k);
    if page.hasMore {
      PageMakesProgress(server, before, limit);
      var rest := Run(server, Cursor(page), limits, ceiling, k + 1);
      assert run[1..] == rest;
      EndsPageStep(page, rest, e);
      if e in Seen(rest) {
        SeenEndsPage(server, Cursor(page), ceiling, k + 1, e);
      }
    } else {
      assert run == [page] && Seen(run) == page.threads;
      assert run[0] == page;
    }
  }

  ghost predicate Complete(server: seq<Entry>, limits: nat -> real, ceiling: int)
    requires ceiling >= 1
  {
    Seen(Run(server, None, limits, ceiling, 0)) == server
  }

  lemma OneByOneMisses(server: seq<Entry>, ceiling: int, i: nat, j: nat)
    requires Sorted(server) && Distinct(server) && ceiling >= 1
    requires i < j < |server| && Millis(server[i]) == Millis(server[j])
    ensures !Complete(server, OneByOne(), ceiling)
  {
    hide Run;
    hide Seen;
    hide EndsPage;
    hide Millis;
    var run := Run(server, None, OneByOne(), ceiling, 0);
    WholeRun(server, OneByOne(), ceiling);
    if EndsPage(run, server[i]) {
      assert Skipped(server, run, j);
    }
    if Seen(run) == server {
      SeenEndsPage(server, None, ceiling, 0, server[i]);
      assert false;
    }
  }

  /** Runs are complete for every choice of limits exactly when no two archive times share a millisecond. */
  lemma CompleteForEveryLimitIff(server: seq<Entry>, ceiling: int)
    requires Sorted(server) && Distinct(server) && ceiling >= 1
    ensures (forall limits: nat -> real :: Complete(server, limits, ceiling)) <==> DistinctMillis(server)
  {
    if DistinctMillis(server) {
      forall limits: nat -> real ensures Complete(server, limits, ceiling) {
        CompleteWhenMillisDiffer(server, limits, ceiling);
      }
    } else {
      var i, j :| 0 <= i < j < |server| && Millis(server[i]) == Millis(server[j]);
      OneByOneMisses(server, ceiling, i, j);
    }
  }
}
