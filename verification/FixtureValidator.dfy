/**
 * scripts/tools/validate-registry-disposition-schema.py: the fixture loop. The JSON Schema verdict on a
 * case's input is a parameter.
 */
module FixtureValidator {
  import opened Wrappers
  import opened Json

  datatype Issue =
    | FixtureNotObject
    | NoCases
    | CaseNotObject
    | BadId
    | Duplicate(id: string)
    | ExpectationNotBoolean(id: string)
    | Mismatch(id: string, expected: bool, observed: bool)

  datatype CaseResult = CaseResult(id: string, validationPassed: bool, matchedExpected: bool)

  datatype Report = Report(passed: bool, issues: seq<Issue>, results: seq<CaseResult>)

  /** The schema's verdict; a missing input is judged as null. */
  type Verdict = Json -> bool

  /** Unicode white space, the characters Python's `str.strip` removes. */
  predicate IsPythonSpace(c: char) {
    || '\t' <= c <= '\r'
    || '\U{001C}' <= c <= ' '
    || c == '\U{0085}'
    || c == '\U{00A0}'
    || c == '\U{1680}'
    || '\U{2000}' <= c <= '\U{200A}'
    || '\U{2028}' <= c <= '\U{2029}'
    || c == '\U{202F}'
    || c == '\U{205F}'
    || c == '\U{3000}'
  }

  /** One by one: unlike `trim` it takes the separators 1C to 1F and the next line, but not the byte order mark. */
  lemma PythonSpacesListed(c: char)
    ensures IsPythonSpace(c) <==> c as int in {
      0x09, 0x0A, 0x0B, 0x0C, 0x0D, 0x1C, 0x1D, 0x1E, 0x1F, 0x20, 0x85, 0xA0, 0x1680, 0x2000, 0x2001, 0x2002, 0x2003,
      0x2004, 0x2005, 0x2006, 0x2007, 0x2008, 0x2009, 0x200A, 0x2028, 0x2029, 0x202F, 0x205F, 0x3000
    }
  {
  }

  /** `not s.strip()` */
  predicate StripsToNothing(s: string) {
    forall i | 0 <= i < |s| :: IsPythonSpace(s[i])
  }

  /** The id of a case that is an object with a non-blank string id. */
  function IdOf(c: Json): Option<string> {
    if Field(c, "id").Some? && Field(c, "id").value.String? && !StripsToNothing(Field(c, "id").value.s)
    then Some(Field(c, "id").value.s)
    else None
  }

  function Expectation(c: Json): Option<bool> {
    if Field(c, "expectedPass").Some? && Field(c, "expectedPass").value.Bool?
    then Some(Field(c, "expectedPass").value.b)
    else None
  }

  function Observed(accepts: Verdict, c: Json): bool {
    accepts(if Field(c, "input").Some? then Field(c, "input").value else Null)
  }

  // ---------------------------------------------------------------- the loop, from its meaning

  /** An earlier case already has the id, whatever became of that case. */
  ghost predicate SeenBefore(cases: seq<Json>, i: nat)
    requires i < |cases|
  {
    exists j | 0 <= j < i :: IdOf(cases[j]) == IdOf(cases[i])
  }

  /** What case `i` contributes, judged from the whole list and not from loop state. */
  datatype Finding = Finding(issue: Option<Issue>, result: Option<CaseResult>)

  ghost function FindingOf(accepts: Verdict, cases: seq<Json>, i: nat): Finding
    requires i < |cases|
  {
    var c := cases[i];
    match IdOf(c)
    case None => Finding(Some(if c.Object? then BadId else CaseNotObject), None)
    case Some(id) =>
      if SeenBefore(cases, i) then Finding(Some(Duplicate(id)), None)
      else
        match Expectation(c)
        case None => Finding(Some(ExpectationNotBoolean(id)), None)
        case Some(expected) =>
          var observed := Observed(accepts, c);
          Finding(
            if observed == expected then None else Some(Mismatch(id, expected, observed)),
            Some(CaseResult(id, observed, observed == expected)))
  }

  function OptionSeq<T>(o: Option<T>): seq<T> {
    match o
    case Some(v) => [v]
    case None => []
  }

  ghost function Issues(accepts: Verdict, cases: seq<Json>, n: nat): seq<Issue>
    requires n <= |cases|
  {
    if n == 0 then [] else Issues(accepts, cases, n - 1) + OptionSeq(FindingOf(accepts, cases, n - 1).issue)
  }

  ghost function Results(accepts: Verdict, cases: seq<Json>, n: nat): seq<CaseResult>
    requires n <= |cases|
  {
    if n == 0 then [] else Results(accepts, cases, n - 1) + OptionSeq(FindingOf(accepts, cases, n - 1).result)
  }

  ghost function ReportOf(accepts: Verdict, fixture: Json): Report {
    if !fixture.Object? then Report(false, [FixtureNotObject], [])
    else
      match Field(fixture, "cases")
      case Some(Array(cases)) =>
        if cases == [] then Report(false, [NoCases], [])
        else
          var issues := Issues(accepts, cases, |cases|);
          Report(issues == [], issues, Results(accepts, cases, |cases|))
      case _ => Report(false, [NoCases], [])
  }

  /** `validate_fixture` */
  method ValidateFixture(accepts: Verdict, fixture: Json) returns (report: Report)
    ensures report == ReportOf(accepts, fixture)
  {
    hide IdOf;
    hide Expectation;
    hide Observed;
    hide SeenBefore;
    var issues: seq<Issue> := [];
    var results: seq<CaseResult> := [];
    if !fixture.Object? {
      return Report(false, [FixtureNotObject], results);
    }
    var field := Field(fixture, "cases");
    if !(field.Some? && field.value.Array?) || field.value.items == [] {
      return Report(false, [NoCases], results);
    }
    var cases := field.value.items;
    var seenIds: set<string> := {};
    for i := 0 to |cases|
      invariant seenIds == Ids(cases, i)
      invariant issues == Issues(accepts, cases, i)
      invariant results == Results(accepts, cases, i)
    {
      var c := cases[i];
      SeenByIds(cases, i);
      if !c.Object? {
        NoIdWithoutObject(c);
        issues := issues + [CaseNotObject];
        continue;
      }
      var caseId := IdOf(c);
      if caseId.None? {
        issues := issues + [BadId];
        continue;
      }
      if caseId.value in seenIds {
        issues := issues + [Duplicate(caseId.value)];
        continue;
      }
      seenIds := seenIds + {caseId.value};
      var expected := Expectation(c);
      if expected.None? {
        issues := issues + [ExpectationNotBoolean(caseId.value)];
        continue;
      }
      var validationPassed := Observed(accepts, c);
      var matched := validationPassed == expected.value;
      results := results + [CaseResult(caseId.value, validationPassed, matched)];
      if !matched {
        issues := issues + [Mismatch(caseId.value, expected.value, validationPassed)];
      }
    }
    report := Report(issues == [], issues, results);
  }

  lemma NoIdWithoutObject(c: Json)
    requires !c.Object?
    ensures IdOf(c) == None
  {
  }

  // ---------------------------------------------------------------- the order-free specification

  /** The case is an object whose id is this string, which is not blank. */
  ghost predicate Named(c: Json, id: string) {
    && c.Object? && "id" in c.fields && c.fields["id"] == String(id)
    && exists k | 0 <= k < |id| :: !IsPythonSpace(id[k])
  }

  /** The schema's verdict on the input of a case, or on null when it has none. */
  predicate Verified(accepts: Verdict, c: Json) {
    accepts(if c.Object? && "input" in c.fields then c.fields["input"] else Null)
  }

  /** The case is an object that expects a verdict. */
  predicate Expects(c: Json, expected: bool) {
    c.Object? && "expectedPass" in c.fields && c.fields["expectedPass"] == Bool(expected)
  }

  /** A case that has an id and expects the schema's verdict. */
  ghost predicate Good(accepts: Verdict, c: Json) {
    (exists id :: Named(c, id)) && Expects(c, Verified(accepts, c))
  }

  lemma CaseReads(accepts: Verdict, c: Json)
    ensures forall id :: IdOf(c) == Some(id) <==> Named(c, id)
    ensures forall expected :: Expectation(c) == Some(expected) <==> Expects(c, expected)
    ensures Observed(accepts, c) == Verified(accepts, c)
    ensures Good(accepts, c) <==> IdOf(c).Some? && Expectation(c) == Some(Observed(accepts, c))
  {
    hide IsPythonSpace;
    if IdOf(c).Some? {
      assert Named(c, IdOf(c).value);
    }
  }

  ghost predicate AllGood(accepts: Verdict, cases: seq<Json>) {
    forall i | 0 <= i < |cases| :: Good(accepts, cases[i])
  }

  ghost predicate DistinctIds(cases: seq<Json>) {
    forall i, j | 0 <= i < j < |cases| :: IdOf(cases[i]) != IdOf(cases[j])
  }

  ghost predicate Passes(accepts: Verdict, cases: seq<Json>) {
    AllGood(accepts, cases) && DistinctIds(cases)
  }

  lemma {:induction false} IssuesEmpty(accepts: Verdict, cases: seq<Json>, n: nat)
    requires n <= |cases|
    ensures Issues(accepts, cases, n) == [] <==> forall i | 0 <= i < n :: FindingOf(accepts, cases, i).issue.None?
  {
    hide FindingOf;
    if n > 0 {
      IssuesEmpty(accepts, cases, n - 1);
    }
  }

  lemma NoIssueMeans(accepts: Verdict, cases: seq<Json>, i: nat)
    requires i < |cases|
    ensures FindingOf(accepts, cases, i).issue.None? <==> Good(accepts, cases[i]) && !SeenBefore(cases, i)
  {
    CaseReads(accepts, cases[i]);
    hide Good;
    hide IdOf;
    hide Expectation;
    hide Observed;
    hide SeenBefore;
  }

  /** A fixture with cases passes exactly when each case is good and no id repeats, in whatever order. */
  lemma PassedIff(accepts: Verdict, fixture: Json)
    ensures ReportOf(accepts, fixture).passed <==>
      && fixture.Object? && Field(fixture, "cases").Some? && Field(fixture, "cases").value.Array?
      && Field(fixture, "cases").value.items != []
      && Passes(accepts, Field(fixture, "cases").value.items)
  {
    if fixture.Object? && Field(fixture, "cases").Some? && Field(fixture, "cases").value.Array? {
      var cases := Field(fixture, "cases").value.items;
      hide FindingOf;
      hide Issues;
      hide Results;
      hide Good;
      hide Field;
      hide IdOf;
      IssuesEmpty(accepts, cases, |cases|);
      forall i: nat | i < |cases|
        ensures FindingOf(accepts, cases, i).issue.None? <==> Good(accepts, cases[i]) && !SeenBefore(cases, i)
      {
        NoIssueMeans(accepts, cases, i);
      }
      SeenMeansRepeated(cases);
    }
  }

  lemma SeenMeansRepeated(cases: seq<Json>)
    ensures DistinctIds(cases) <==> forall i: nat | i < |cases| :: !SeenBefore(cases, i)
  {
    hide IdOf;
    if !DistinctIds(cases) {
      var i, j :| 0 <= i < j < |cases| && IdOf(cases[i]) == IdOf(cases[j]);
      assert SeenBefore(cases, j);
    }
  }

  ghost function IdSet(cases: multiset<Json>): set<Option<string>> {
    set c | c in cases :: IdOf(c)
  }

  lemma IdSetMember(cases: seq<Json>, id: Option<string>)
    ensures id in IdSet(multiset(cases)) <==> exists i | 0 <= i < |cases| :: IdOf(cases[i]) == id
  {
    hide IdOf;
    if id in IdSet(multiset(cases)) {
      var c :| c in multiset(cases) && IdOf(c) == id;
      assert c in cases;
    }
    if exists i | 0 <= i < |cases| :: IdOf(cases[i]) == id {
      var i :| 0 <= i < |cases| && IdOf(cases[i]) == id;
      assert cases[i] in multiset(cases);
    }
  }

  lemma IdSetAppend(front: seq<Json>, last: Json)
    ensures IdSet(multiset(front + [last])) == IdSet(multiset(front)) + {IdOf(last)}
  {
    hide IdOf;
    assert multiset(front + [last]) == multiset(front) + multiset{last};
    forall id ensures id in IdSet(multiset(front + [last])) <==> id in IdSet(multiset(front)) + {IdOf(last)} {
      if id in IdSet(multiset(front)) {
        var c :| c in multiset(front) && IdOf(c) == id;
        assert c in multiset(front + [last]);
      }
      if id == IdOf(last) {
        assert last in multiset(front + [last]);
      }
    }
  }

  lemma DistinctAppend(front: seq<Json>, last: Json)
    ensures DistinctIds(front + [last]) <==> DistinctIds(front) && IdOf(last) !in IdSet(multiset(front))
  {
    hide IdOf;
    hide IdSet;
    var cases := front + [last];
    IdSetMember(front, IdOf(last));
    assert forall i | 0 <= i < |front| :: cases[i] == front[i];
    assert cases[|front|] == last;
    if DistinctIds(cases) {
      assert forall i | 0 <= i < |front| :: IdOf(cases[i]) != IdOf(cases[|front|]);
    }
  }

  /** Ids are distinct exactly when there are as many of them as cases, which no reordering changes. */
  lemma {:induction false} DistinctByCounting(cases: seq<Json>)
    ensures |IdSet(multiset(cases))| <= |cases|
    ensures DistinctIds(cases) <==> |IdSet(multiset(cases))| == |cases|
  {
    hide IdOf;
    if cases == [] {
      assert IdSet(multiset(cases)) == {};
    } else {
      var front, last := cases[..|cases| - 1], cases[|cases| - 1];
      assert cases == front + [last];
      hide IdSet;
      hide DistinctIds;
      DistinctByCounting(front);
      IdSetAppend(front, last);
      DistinctAppend(front, last);
    }
  }

  lemma PassesByCounting(accepts: Verdict, cases: seq<Json>)
    ensures Passes(accepts, cases) <==>
      && (forall c | c in multiset(cases) :: Good(accepts, c))
      && |IdSet(multiset(cases))| == |multiset(cases)|
  {
    hide Good;
    hide DistinctIds;
    DistinctByCounting(cases);
    AllGoodMembers(accepts, cases);
  }

  lemma AllGoodMembers(accepts: Verdict, cases: seq<Json>)
    ensures AllGood(accepts, cases) <==> forall c | c in multiset(cases) :: Good(accepts, c)
  {
    hide Good;
    if AllGood(accepts, cases) {
      forall c | c in multiset(cases) ensures Good(accepts, c) {
        assert c in cases;
      }
    }
    if forall c | c in multiset(cases) :: Good(accepts, c) {
      forall i | 0 <= i < |cases| ensures Good(accepts, cases[i]) {
        assert cases[i] in multiset(cases);
      }
    }
  }

  ghost predicate DisjointIds(a: seq<Json>, b: seq<Json>) {
    forall i, j | 0 <= i < |a| && 0 <= j < |b| :: IdOf(a[i]) != IdOf(b[j])
  }

  /** Two case lists pass together exactly when each passes and they share no id. */
  lemma PassesConcatenated(accepts: Verdict, a: seq<Json>, b: seq<Json>)
    ensures Passes(accepts, a + b) <==> Passes(accepts, a) && Passes(accepts, b) && DisjointIds(a, b)
  {
    hide Good;
    hide IdOf;
    var c := a + b;
    assert forall i | 0 <= i < |a| :: c[i] == a[i];
    assert forall j | 0 <= j < |b| :: c[|a| + j] == b[j];
    if Passes(accepts, c) {
      forall j | 0 <= j < |b| ensures Good(accepts, b[j]) { assert Good(accepts, c[|a| + j]); }
      forall i, j | 0 <= i < j < |b| ensures IdOf(b[i]) != IdOf(b[j]) {
        assert IdOf(c[|a| + i]) != IdOf(c[|a| + j]);
      }
      forall i, j | 0 <= i < |a| && 0 <= j < |b| ensures IdOf(a[i]) != IdOf(b[j]) {
        assert IdOf(c[i]) != IdOf(c[|a| + j]);
      }
    }
    if Passes(accepts, a) && Passes(accepts, b) && DisjointIds(a, b) {
      forall i | 0 <= i < |c| ensures Good(accepts, c[i]) {
        if i >= |a| { assert c[i] == b[i - |a|]; }
      }
      forall i, j | 0 <= i < j < |c| ensures IdOf(c[i]) != IdOf(c[j]) {
        if j >= |a| {
          assert c[j] == b[j - |a|];
          if i >= |a| { assert c[i] == b[i - |a|]; }
        }
      }
    }
  }

  function FixtureOf(cases: seq<Json>): Json {
    Object(map["cases" := Array(cases)])
  }

  /** `passed` is the same for every order of the cases. */
  lemma PassedPermuted(accepts: Verdict, a: seq<Json>, b: seq<Json>)
    requires multiset(a) == multiset(b)
    ensures ReportOf(accepts, FixtureOf(a)).passed == ReportOf(accepts, FixtureOf(b)).passed
  {
    hide ReportOf;
    hide Passes;
    PassedIff(accepts, FixtureOf(a));
    PassedIff(accepts, FixtureOf(b));
    PassesByCounting(accepts, a);
    PassesByCounting(accepts, b);
    assert a == [] <==> |multiset(a)| == 0;
    assert b == [] <==> |multiset(b)| == 0;
  }

  /** Two fixtures pass as one exactly when each passes and they share no id. */
  lemma PassedConcatenated(accepts: Verdict, a: seq<Json>, b: seq<Json>)
    requires a != [] && b != []
    ensures ReportOf(accepts, FixtureOf(a + b)).passed <==>
      ReportOf(accepts, FixtureOf(a)).passed && ReportOf(accepts, FixtureOf(b)).passed && DisjointIds(a, b)
  {
    hide ReportOf;
    hide Passes;
    hide DisjointIds;
    PassedIff(accepts, FixtureOf(a));
    PassedIff(accepts, FixtureOf(b));
    PassedIff(accepts, FixtureOf(a + b));
    PassesConcatenated(accepts, a, b);
  }

  // ---------------------------------------------------------------- conservation

  function Matched(results: seq<CaseResult>): nat {
    if results == [] then 0
    else Matched(results[..|results| - 1]) + if results[|results| - 1].matchedExpected then 1 else 0
  }

  lemma MatchedAppend(results: seq<CaseResult>, r: CaseResult)
    ensures Matched(results + [r]) == Matched(results) + if r.matchedExpected then 1 else 0
  {
    assert (results + [r])[..|results|] == results;
  }

  lemma {:induction false} PrefixConserved(accepts: Verdict, cases: seq<Json>, n: nat)
    requires n <= |cases|
    ensures n == |Issues(accepts, cases, n)| + Matched(Results(accepts, cases, n))
  {
    hide IdOf;
    hide Expectation;
    hide Observed;
    hide SeenBefore;
    hide Matched;
    if n == 0 {
      MatchedNone();
    } else {
      PrefixConserved(accepts, cases, n - 1);
      var finding := FindingOf(accepts, cases, n - 1);
      var before := Results(accepts, cases, n - 1);
      if finding.result.Some? {
        MatchedAppend(before, finding.result.value);
      } else {
        assert before + [] == before;
      }
    }
  }

  /** The report of a list of cases: the issues and results of all of them, or the issue that there are none. */
  lemma ReportOfCases(accepts: Verdict, cases: seq<Json>)
    ensures var report := ReportOf(accepts, FixtureOf(cases));
      && report.results == Results(accepts, cases, |cases|)
      && report.issues == if cases == [] then [NoCases] else Issues(accepts, cases, |cases|)
  {
    hide FindingOf;
  }

  /**
   * Each case of a report is accounted for once, by an issue or by a result that matched; only a fixture
   * without cases has an issue beyond its cases.
   */
  lemma CasesConserved(accepts: Verdict, cases: seq<Json>)
    ensures var report := ReportOf(accepts, FixtureOf(cases));
      |cases| == |report.issues| + Matched(report.results) <==> cases != []
  {
    ReportOfCases(accepts, cases);
    hide ReportOf;
    PrefixConserved(accepts, cases, |cases|);
  }

  lemma MatchedNone()
    ensures Matched([]) == 0
  {
  }

  // ---------------------------------------------------------------- results and duplicates

  /** The first identified case with its id. */
  ghost predicate First(cases: seq<Json>, i: nat)
    requires i < |cases|
  {
    IdOf(cases[i]).Some? && !SeenBefore(cases, i)
  }

  /** A case has a result exactly when it is the first with its id and its expectation is boolean. */
  lemma ResultIff(accepts: Verdict, cases: seq<Json>, i: nat)
    requires i < |cases|
    ensures FindingOf(accepts, cases, i).result.Some? <==> First(cases, i) && Expectation(cases[i]).Some?
    ensures FindingOf(accepts, cases, i).result.Some? ==>
              FindingOf(accepts, cases, i).result.value.id == IdOf(cases[i]).value
  {
    hide IdOf;
    hide Expectation;
    hide Observed;
    hide SeenBefore;
  }

  /** The case each result stands for, in case order. */
  ghost function Origins(accepts: Verdict, cases: seq<Json>, n: nat): seq<nat>
    requires n <= |cases|
  {
    if n == 0 then []
    else Origins(accepts, cases, n - 1) + if FindingOf(accepts, cases, n - 1).result.Some? then [n - 1] else []
  }

  lemma {:induction false} PrefixOrigins(accepts: Verdict, cases: seq<Json>, n: nat)
    requires n <= |cases|
    ensures var origins, results := Origins(accepts, cases, n), Results(accepts, cases, n);
      && |origins| == |results|
      && (forall k | 0 <= k < |origins| ::
            origins[k] < n && FindingOf(accepts, cases, origins[k]).result == Some(results[k]))
      && (forall k, l | 0 <= k < l < |origins| :: origins[k] < origins[l])
      && (forall i: nat | i < n && FindingOf(accepts, cases, i).result.Some? :: i in origins)
  {
    hide FindingOf;
    if n > 0 {
      PrefixOrigins(accepts, cases, n - 1);
    }
  }

  /** Origins are the positions, in ascending order, of exactly the cases that deserve a result. */
  ghost predicate StandFor(accepts: Verdict, cases: seq<Json>, origins: seq<nat>, results: seq<CaseResult>) {
    && |origins| == |results|
    && (forall k | 0 <= k < |origins| :: origins[k] < |cases|)
    && (forall k, l | 0 <= k < l < |origins| :: origins[k] < origins[l])
    && (forall i: nat | i < |cases| :: i in origins <==> FirstNamed(cases, i) && exists expected :: Expects(cases[i], expected))
    && (forall k | 0 <= k < |origins| :: Judges(accepts, cases[origins[k]], results[k]))
  }

  /** The case has an id that no case before it has. */
  ghost predicate FirstNamed(cases: seq<Json>, i: nat)
    requires i < |cases|
  {
    exists id :: Named(cases[i], id) && forall j | 0 <= j < i :: !Named(cases[j], id)
  }

  lemma FirstReads(accepts: Verdict, cases: seq<Json>, i: nat)
    requires i < |cases|
    ensures First(cases, i) <==> FirstNamed(cases, i)
    ensures Expectation(cases[i]).Some? <==> exists expected :: Expects(cases[i], expected)
  {
    forall j | 0 <= j <= i ensures forall id :: IdOf(cases[j]) == Some(id) <==> Named(cases[j], id) {
      CaseReads(accepts, cases[j]);
    }
    CaseReads(accepts, cases[i]);
    hide Named;
    hide IdOf;
    hide Expectation;
    hide Expects;
    if First(cases, i) {
      assert Named(cases[i], IdOf(cases[i]).value);
    }
    if Expectation(cases[i]).Some? {
      assert Expects(cases[i], Expectation(cases[i]).value);
    }
  }

  /** The result carries the case's id, the schema's verdict, and whether the case expected it. */
  ghost predicate Judges(accepts: Verdict, c: Json, r: CaseResult) {
    && Named(c, r.id)
    && r.validationPassed == Verified(accepts, c)
    && (r.matchedExpected <==> Good(accepts, c))
  }

  lemma FindingJudges(accepts: Verdict, cases: seq<Json>, i: nat)
    requires i < |cases|
    ensures var result := FindingOf(accepts, cases, i).result;
      result.Some? ==> Judges(accepts, cases[i], result.value)
  {
    CaseReads(accepts, cases[i]);
    hide Good;
    hide Named;
    hide Verified;
    hide IdOf;
    hide Expectation;
    hide Observed;
    hide SeenBefore;
  }

  /**
   * The results of a report stand, in case order, for exactly the cases that are the first with their id and
   * have a boolean expectation; each carries that case's id, verdict and match.
   */
  lemma ResultsInOrder(accepts: Verdict, cases: seq<Json>)
    ensures exists origins :: StandFor(accepts, cases, origins, ReportOf(accepts, FixtureOf(cases)).results)
  {
    ReportOfCases(accepts, cases);
    hide ReportOf;
    hide FindingOf;
    hide First;
    hide FirstNamed;
    hide Expectation;
    hide Expects;
    hide Judges;
    PrefixOrigins(accepts, cases, |cases|);
    var origins, results := Origins(accepts, cases, |cases|), Results(accepts, cases, |cases|);
    forall i: nat | i < |cases|
      ensures i in origins <==> FirstNamed(cases, i) && exists expected :: Expects(cases[i], expected)
    {
      ResultIff(accepts, cases, i);
      FirstReads(accepts, cases, i);
    }
    forall k | 0 <= k < |origins| ensures Judges(accepts, cases[origins[k]], results[k]) {
      FindingJudges(accepts, cases, origins[k]);
    }
    assert StandFor(accepts, cases, origins, results);
  }

  lemma OneName(c: Json)
    ensures forall a, b | Named(c, a) && Named(c, b) :: a == b
  {
  }

  // ---------------------------------------------------------------- the issues of a report

  /** What an issue says is so of a case. */
  ghost predicate Explains(accepts: Verdict, cases: seq<Json>, i: nat, issue: Issue)
    requires i < |cases|
  {
    match issue
    case CaseNotObject => !cases[i].Object?
    case BadId => cases[i].Object? && forall id :: !Named(cases[i], id)
    case Duplicate(id) => Named(cases[i], id) && exists j | 0 <= j < i :: Named(cases[j], id)
    case ExpectationNotBoolean(id) =>
      Named(cases[i], id) && FirstNamed(cases, i) && !Expects(cases[i], true) && !Expects(cases[i], false)
    case Mismatch(id, expected, observed) =>
      && Named(cases[i], id) && FirstNamed(cases, i) && Expects(cases[i], expected)
      && observed == Verified(accepts, cases[i]) && observed != expected
    case _ => false
  }

  /** Origins are the positions, in ascending order, of exactly the cases something is wrong with. */
  ghost predicate Explain(accepts: Verdict, cases: seq<Json>, origins: seq<nat>, issues: seq<Issue>) {
    && |origins| == |issues|
    && (forall k | 0 <= k < |origins| :: origins[k] < |cases|)
    && (forall k, l | 0 <= k < l < |origins| :: origins[k] < origins[l])
    && (forall i: nat | i < |cases| :: i in origins <==> !(FirstNamed(cases, i) && Good(accepts, cases[i])))
    && (forall k | 0 <= k < |origins| :: Explains(accepts, cases, origins[k], issues[k]))
  }

  lemma FindingExplains(accepts: Verdict, cases: seq<Json>, i: nat)
    requires i < |cases|
    ensures var issue := FindingOf(accepts, cases, i).issue;
      && (issue.Some? <==> !(FirstNamed(cases, i) && Good(accepts, cases[i])))
      && (issue.Some? ==> Explains(accepts, cases, i, issue.value))
  {
    FirstReads(accepts, cases, i);
    CaseReads(accepts, cases[i]);
    if IdOf(cases[i]).Some? {
      SeenReads(accepts, cases, i);
    }
    hide Named;
    hide Expects;
    hide Verified;
    hide Good;
    hide FirstNamed;
    hide SeenBefore;
    hide IdOf;
    hide Expectation;
    hide Observed;
  }

  lemma SeenReads(accepts: Verdict, cases: seq<Json>, i: nat)
    requires i < |cases| && IdOf(cases[i]).Some?
    ensures SeenBefore(cases, i) <==> exists j | 0 <= j < i :: Named(cases[j], IdOf(cases[i]).value)
  {
    forall j | 0 <= j < i ensures Named(cases[j], IdOf(cases[i]).value) <==> IdOf(cases[j]) == IdOf(cases[i]) {
      CaseReads(accepts, cases[j]);
    }
    hide Named;
    hide IdOf;
  }

  ghost function IssueOrigins(accepts: Verdict, cases: seq<Json>, n: nat): seq<nat>
    requires n <= |cases|
  {
    if n == 0 then []
    else IssueOrigins(accepts, cases, n - 1) + if FindingOf(accepts, cases, n - 1).issue.Some? then [n - 1] else []
  }

  lemma {:induction false} PrefixIssueOrigins(accepts: Verdict, cases: seq<Json>, n: nat)
    requires n <= |cases|
    ensures var origins, issues := IssueOrigins(accepts, cases, n), Issues(accepts, cases, n);
      && |origins| == |issues|
      && (forall k | 0 <= k < |origins| ::
            origins[k] < n && FindingOf(accepts, cases, origins[k]).issue == Some(issues[k]))
      && (forall k, l | 0 <= k < l < |origins| :: origins[k] < origins[l])
      && (forall i: nat | i < n && FindingOf(accepts, cases, i).issue.Some? :: i in origins)
  {
    hide FindingOf;
    if n > 0 {
      PrefixIssueOrigins(accepts, cases, n - 1);
    }
  }

  /**
   * The issues of a report with cases stand, in case order, one for each case that is not good or not the first
   * with its id, and each says what is wrong with its case.
   */
  lemma IssuesInOrder(accepts: Verdict, cases: seq<Json>)
    requires cases != []
    ensures exists origins :: Explain(accepts, cases, origins, ReportOf(accepts, FixtureOf(cases)).issues)
  {
    ReportOfCases(accepts, cases);
    hide ReportOf;
    hide FindingOf;
    hide FirstNamed;
    hide Good;
    hide Explains;
    PrefixIssueOrigins(accepts, cases, |cases|);
    var origins, issues := IssueOrigins(accepts, cases, |cases|), Issues(accepts, cases, |cases|);
    forall i: nat | i < |cases| ensures i in origins <==> !(FirstNamed(cases, i) && Good(accepts, cases[i])) {
      FindingExplains(accepts, cases, i);
    }
    forall k | 0 <= k < |origins| ensures Explains(accepts, cases, origins[k], issues[k]) {
      FindingExplains(accepts, cases, origins[k]);
    }
    assert Explain(accepts, cases, origins, issues);
  }

  /** A fixture that is no object, or has no array of cases, or an empty one, has one issue and no results. */
  lemma NoCasesReport(accepts: Verdict, fixture: Json)
    ensures var report := ReportOf(accepts, fixture);
      && (!fixture.Object? ==> report == Report(false, [FixtureNotObject], []))
      && (fixture.Object? && !(exists cases :: cases != [] && Field(fixture, "cases") == Some(Array(cases))) ==>
            report == Report(false, [NoCases], []))
  {
    hide Issues;
    hide Results;
  }

  // ---------------------------------------------------------------- results and duplicates, counted

  /** No two results of a report have the same id. */
  lemma ResultIdsDistinct(accepts: Verdict, cases: seq<Json>)
    ensures var results := ReportOf(accepts, FixtureOf(cases)).results;
      forall k, l | 0 <= k < l < |results| :: results[k].id != results[l].id
  {
    hide ReportOf;
    hide Named;
    hide Verified;
    hide Expects;
    hide Good;
    ResultsInOrder(accepts, cases);
    var results := ReportOf(accepts, FixtureOf(cases)).results;
    var origins :| StandFor(accepts, cases, origins, results);
    forall k, l | 0 <= k < l < |results| ensures results[k].id != results[l].id {
      assert Judges(accepts, cases[origins[k]], results[k]) && Judges(accepts, cases[origins[l]], results[l]);
      assert origins[l] in origins && FirstNamed(cases, origins[l]);
      OneName(cases[origins[l]]);
      assert origins[k] < origins[l];
    }
  }

  ghost function Duplicates(issues: seq<Issue>): nat {
    if issues == [] then 0
    else Duplicates(issues[..|issues| - 1]) + if issues[|issues| - 1].Duplicate? then 1 else 0
  }

  lemma DuplicatesAppend(issues: seq<Issue>, issue: Issue)
    ensures Duplicates(issues + [issue]) == Duplicates(issues) + if issue.Duplicate? then 1 else 0
  {
    assert (issues + [issue])[..|issues|] == issues;
  }

  ghost function Identified(cases: seq<Json>, n: nat): nat
    requires n <= |cases|
  {
    if n == 0 then 0 else Identified(cases, n - 1) + if IdOf(cases[n - 1]).Some? then 1 else 0
  }

  ghost function Ids(cases: seq<Json>, n: nat): set<string>
    requires n <= |cases|
  {
    if n == 0 then {} else Ids(cases, n - 1) + if IdOf(cases[n - 1]).Some? then {IdOf(cases[n - 1]).value} else {}
  }

  lemma {:induction false} IdsMember(cases: seq<Json>, n: nat, id: string)
    requires n <= |cases|
    ensures id in Ids(cases, n) <==> exists j | 0 <= j < n :: IdOf(cases[j]) == Some(id)
  {
    hide IdOf;
    if n > 0 {
      IdsMember(cases, n - 1, id);
    }
  }

  lemma SeenByIds(cases: seq<Json>, i: nat)
    requires i < |cases|
    ensures IdOf(cases[i]).Some? ==> (IdOf(cases[i]).value in Ids(cases, i) <==> SeenBefore(cases, i))
  {
    hide IdOf;
    if IdOf(cases[i]).Some? {
      IdsMember(cases, i, IdOf(cases[i]).value);
    }
  }

  lemma DuplicateMeans(accepts: Verdict, cases: seq<Json>, i: nat)
    requires i < |cases|
    ensures var issue := FindingOf(accepts, cases, i).issue;
      issue.Some? && issue.value.Duplicate? <==> IdOf(cases[i]).Some? && SeenBefore(cases, i)
  {
    hide IdOf;
    hide Expectation;
    hide Observed;
    hide SeenBefore;
  }

  lemma {:induction false} PrefixDuplicates(accepts: Verdict, cases: seq<Json>, n: nat)
    requires n <= |cases|
    ensures Duplicates(Issues(accepts, cases, n)) == Identified(cases, n) - |Ids(cases, n)|
  {
    hide IdOf;
    hide FindingOf;
    hide Duplicates;
    if n == 0 {
      NoDuplicates();
    } else {
      var i := n - 1;
      PrefixDuplicates(accepts, cases, i);
      DuplicateMeans(accepts, cases, i);
      var finding := FindingOf(accepts, cases, i);
      var before := Issues(accepts, cases, i);
      if finding.issue.Some? {
        DuplicatesAppend(before, finding.issue.value);
      } else {
        assert before + [] == before;
      }
      if IdOf(cases[i]).Some? {
        var id := IdOf(cases[i]).value;
        SeenByIds(cases, i);
        assert Ids(cases, n) == Ids(cases, i) + {id};
        if id in Ids(cases, i) {
          assert Ids(cases, n) == Ids(cases, i);
        }
      }
    }
  }

  /**
   * Duplicate issues of a report number the identified cases less the distinct ids; also when the first
   * holder of an id was itself refused for its expectation.
   */
  lemma DuplicatesCounted(accepts: Verdict, cases: seq<Json>)
    ensures Duplicates(ReportOf(accepts, FixtureOf(cases)).issues)
         == Identified(cases, |cases|) - |Ids(cases, |cases|)|
  {
    ReportOfCases(accepts, cases);
    PrefixDuplicates(accepts, cases, |cases|);
    DuplicatesAppend([], NoCases);
    assert [] + [NoCases] == [NoCases];
    hide ReportOf;
    hide Duplicates;
    NoDuplicates();
  }

  lemma NoDuplicates()
    ensures Duplicates([]) == 0
  {
  }
}
