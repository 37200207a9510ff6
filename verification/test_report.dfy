/**
 * The test-report generator (scripts/generate-test-report-enhanced.js): the
 * summary counts read from the back end's Jest output and the front end's
 * Vitest output, the success flags and status badges derived from them, the
 * code attached to each back-end test case and copied onto the suites' tests,
 * and the HTML escaping used when the report is rendered.
 *
 * Running the test commands is a parameter: what the command printed, or the
 * error it threw. The summary regular expressions are parameters too, each
 * giving the numbers its match captures.
 */
module TestReport {
  import opened Common
  import opened TestResults
  import ExtractTestCode

  // ---------------------------------------------------------------------
  // escapeHtml
  // ---------------------------------------------------------------------

  /** The characters escapeHtml replaces besides `&`. */
  predicate IsMarkup(c: char)
  {
    c == '<' || c == '>' || c == '"' || c == '\''
  }

  function EscapeChar(c: char): (r: string)
    ensures |r| > 0
  {
    match c
      case '&' => "&amp;"
      case '<' => "&lt;"
      case '>' => "&gt;"
      case '"' => "&quot;"
      case '\'' => "&#039;"
      case _ => [c]
  }

  /** `text.replace(/[&<>"']/g, m => map[m])`. */
  function Escape(s: string): (r: string)
    decreases |s|
  {
    if |s| == 0 then "" else EscapeChar(s[0]) + Escape(s[1..])
  }

  /** escapeHtml: a missing text gives the empty string. */
  function EscapeHtml(text: Option<string>): (r: string)
    ensures text.None? || text == Some("") ==> r == ""
    ensures text.Some? ==> |r| >= |text.value|
  {
    if text.None? || |text.value| == 0 then "" else EscapeLength(text.value); Escape(text.value)
  }

  lemma {:induction false} EscapeLength(s: string)
    ensures |Escape(s)| >= |s|
    decreases |s|
  {
    if |s| > 0 {
      EscapeLength(s[1..]);
    }
  }

  /** The character the entity `t` starts with stands for, and the entity's length, if it starts with one of the five. */
  function EntityAt(t: string): (r: Option<(char, nat)>)
    ensures r.Some? ==> 0 < r.value.1 <= |t|
  {
    if StartsWith(t, "&amp;") then Some(('&', 5))
    else if StartsWith(t, "&lt;") then Some(('<', 4))
    else if StartsWith(t, "&gt;") then Some(('>', 4))
    else if StartsWith(t, "&quot;") then Some(('"', 6))
    else if StartsWith(t, "&#039;") then Some(('\'', 6))
    else None
  }

  /** Decoding the five entities, left to right. */
  function Unescape(t: string): string
    decreases |t|
  {
    if |t| == 0 then ""
    else if t[0] == '&' && EntityAt(t).Some? then [EntityAt(t).value.0] + Unescape(t[EntityAt(t).value.1..])
    else [t[0]] + Unescape(t[1..])
  }

  /** A character's escape followed by anything decodes to the character followed by the decoding of the rest. */
  lemma UnescapeChar(c: char, rest: string)
    ensures Unescape(EscapeChar(c) + rest) == [c] + Unescape(rest)
  {
    match c
      case '&' => UnescapeAmp(rest);
      case '<' => UnescapeLt(rest);
      case '>' => UnescapeGt(rest);
      case '"' => UnescapeQuot(rest);
      case '\'' => UnescapeApos(rest);
      case _ => UnescapePlain(c, rest);
  }

  lemma UnescapePlain(c: char, rest: string)
    requires c != '&'
    ensures Unescape([c] + rest) == [c] + Unescape(rest)
  {
    var t := [c] + rest;
    assert t[0] == c && t[1..] == rest;
  }

  lemma UnescapeAmp(rest: string)
    ensures Unescape("&amp;" + rest) == "&" + Unescape(rest)
  {
    var t := "&amp;" + rest;
    assert t[..5] == "&amp;" && t[5..] == rest && t[1] == 'a';
  }

  lemma UnescapeLt(rest: string)
    ensures Unescape("&lt;" + rest) == "<" + Unescape(rest)
  {
    var t := "&lt;" + rest;
    assert t[..4] == "&lt;" && t[4..] == rest && t[1] == 'l';
  }

  lemma UnescapeGt(rest: string)
    ensures Unescape("&gt;" + rest) == ">" + Unescape(rest)
  {
    var t := "&gt;" + rest;
    assert t[..4] == "&gt;" && t[4..] == rest && t[1] == 'g';
  }

  lemma UnescapeQuot(rest: string)
    ensures Unescape("&quot;" + rest) == "\"" + Unescape(rest)
  {
    var t := "&quot;" + rest;
    assert t[..6] == "&quot;" && t[6..] == rest && t[1] == 'q';
  }

  lemma UnescapeApos(rest: string)
    ensures Unescape("&#039;" + rest) == "'" + Unescape(rest)
  {
    var t := "&#039;" + rest;
    assert t[..6] == "&#039;" && t[6..] == rest && t[1] == '#';
  }

  /** Escaping loses nothing: decoding the entities gives the text back. */
  lemma {:induction false} UnescapeEscape(s: string)
    ensures Unescape(Escape(s)) == s
    decreases |s|
  {
    if |s| > 0 {
      UnescapeEscape(s[1..]);
      UnescapeChar(s[0], Escape(s[1..]));
      assert [s[0]] + s[1..] == s;
    }
  }

  /** The escaped text holds no markup character, and every `&` in it starts one of the five entities. */
  lemma {:induction false} EscapeSafe(s: string)
    ensures forall k :: 0 <= k < |Escape(s)| ==> !IsMarkup(Escape(s)[k])
    ensures forall k :: 0 <= k < |Escape(s)| && Escape(s)[k] == '&' ==> EntityAt(Escape(s)[k..]).Some?
    decreases |s|
  {
    if |s| > 0 {
      EscapeSafe(s[1..]);
      EscapeCharSafe(s[0], Escape(s[1..]));
      SafeAppend(EscapeChar(s[0]), Escape(s[1..]));
      assert Escape(s) == EscapeChar(s[0]) + Escape(s[1..]);
    }
  }

  /** One escaped character holds no markup character, and an `&` in it is its first and starts an entity. */
  lemma EscapeCharSafe(c: char, rest: string)
    ensures forall k :: 0 <= k < |EscapeChar(c)| ==> !IsMarkup(EscapeChar(c)[k])
    ensures forall k :: 0 <= k < |EscapeChar(c)| && EscapeChar(c)[k] == '&' ==>
      k == 0 && EntityAt(EscapeChar(c) + rest).Some?
  {
    var t := EscapeChar(c) + rest;
    match c
    case '&' => assert t[..5] == "&amp;";
    case '<' => assert t[..4] == "&lt;";
    case '>' => assert t[..4] == "&gt;";
    case '"' => assert t[..6] == "&quot;";
    case '\'' => assert t[..6] == "&#039;";
    case _ =>
  }

  /** Safe text after an escaped character whose only `&` starts an entity is safe as a whole. */
  lemma SafeAppend(e: string, rest: string)
    requires forall k :: 0 <= k < |e| ==> !IsMarkup(e[k])
    requires forall k :: 0 <= k < |e| && e[k] == '&' ==> k == 0 && EntityAt(e + rest).Some?
    requires forall k :: 0 <= k < |rest| ==> !IsMarkup(rest[k])
    requires forall k :: 0 <= k < |rest| && rest[k] == '&' ==> EntityAt(rest[k..]).Some?
    ensures forall k :: 0 <= k < |e + rest| ==> !IsMarkup((e + rest)[k])
    ensures forall k :: 0 <= k < |e + rest| && (e + rest)[k] == '&' ==> EntityAt((e + rest)[k..]).Some?
  {
    var t := e + rest;
    forall k | 0 <= k < |t|
      ensures !IsMarkup(t[k])
      ensures t[k] == '&' ==> EntityAt(t[k..]).Some?
    {
      if k >= |e| {
        assert t[k] == rest[k - |e|];
        assert t[k..] == rest[k - |e|..];
      } else {
        assert t[k] == e[k];
        assert k == 0 ==> t[k..] == t;
      }
    }
  }

  /** Text without `&` or markup characters is left as it is. */
  lemma {:induction false} EscapePlain(s: string)
    requires forall k :: 0 <= k < |s| ==> s[k] != '&' && !IsMarkup(s[k])
    ensures Escape(s) == s
    decreases |s|
  {
    if |s| > 0 {
      EscapePlain(s[1..]);
      assert [s[0]] + s[1..] == s;
    }
  }

  // ---------------------------------------------------------------------
  // Summary counts
  // ---------------------------------------------------------------------

  datatype Summary = Summary(total: nat, passed: nat, failed: nat, skipped: nat)

  const Zero := Summary(0, 0, 0, 0)

  /** One match of a global count pattern: `N passing`, `N failing`, `N skipped` (or Vitest's `N passed`, `N failed`). */
  datatype Count = Passing(n: nat) | Failing(n: nat) | Skipped(n: nat)

  /** What each back-end summary pattern captures in the output, tried in this order. */
  datatype BackendPatterns = BackendPatterns(
    failedPassedTotal: string -> Option<(nat, nat, nat)>,
    passedTotal: string -> Option<(nat, nat)>,
    passedFailed: string -> Option<(nat, nat)>,
    counts: string -> seq<Count>)

  /** One match applied to the summary: the count is overwritten and, for passing and failing, added to the total. */
  function Step(s: Summary, c: Count): Summary
  {
    match c
      case Passing(n) => s.(passed := n, total := s.total + n)
      case Failing(n) => s.(failed := n, total := s.total + n)
      case Skipped(n) => s.(skipped := n)
  }

  /** The summary after the matches, in order, starting from zero. */
  function Tallied(counts: seq<Count>): Summary
  {
    if |counts| == 0 then Zero else Step(Tallied(counts[..|counts| - 1]), counts[|counts| - 1])
  }

  /** The forEach over the matches. */
  method Tally(counts: seq<Count>) returns (s: Summary)
    ensures s == Tallied(counts)
  {
    s := Zero;
    var i := 0;
    while i < |counts|
      invariant 0 <= i <= |counts|
      invariant s == Tallied(counts[..i])
    {
      assert counts[..i + 1][..i] == counts[..i];
      match counts[i] {
        case Passing(n) =>
          s := s.(passed := n, total := s.total + n);
        case Failing(n) =>
          s := s.(failed := n, total := s.total + n);
        case Skipped(n) =>
          s := s.(skipped := n);
      }
      i := i + 1;
    }
    assert counts[..i] == counts;
  }

  predicate IsPassing(c: Count) { c.Passing? }
  predicate IsFailing(c: Count) { c.Failing? }

  /** At most one passing and at most one failing match. */
  predicate Once(counts: seq<Count>)
  {
    (forall j, k :: 0 <= j < k < |counts| && IsPassing(counts[j]) ==> !IsPassing(counts[k])) &&
    (forall j, k :: 0 <= j < k < |counts| && IsFailing(counts[j]) ==> !IsFailing(counts[k]))
  }

  /**
   * The tallied passed and failed counts never exceed the total, and match it exactly when each kind
   * occurs at most once; the total also counts every earlier passing or failing match.
   */
  lemma {:induction false} TallyTotal(counts: seq<Count>)
    ensures Tallied(counts).passed + Tallied(counts).failed <= Tallied(counts).total
    ensures Once(counts) ==> Tallied(counts).passed + Tallied(counts).failed == Tallied(counts).total
    ensures (forall k :: 0 <= k < |counts| ==> !IsPassing(counts[k])) ==> Tallied(counts).passed == 0
    ensures (forall k :: 0 <= k < |counts| ==> !IsFailing(counts[k])) ==> Tallied(counts).failed == 0
  {
    if |counts| > 0 {
      var init := counts[..|counts| - 1];
      TallyTotal(init);
      assert forall k :: 0 <= k < |init| ==> init[k] == counts[k];
      var last := counts[|counts| - 1];
      if Once(counts) {
        assert Once(init);
        if last.Passing? {
          assert forall k :: 0 <= k < |init| ==> !IsPassing(init[k]);
        } else if last.Failing? {
          assert forall k :: 0 <= k < |init| ==> !IsFailing(init[k]);
        }
      }
    }
  }

  /**
   * The back end's summary: the first pattern that matches decides; `P passed, T total` means no
   * failures, `P passed, F failed` totals the two, and without any the count matches are tallied.
   */
  method BackendSummary(output: string, p: BackendPatterns) returns (s: Summary)
    ensures p.failedPassedTotal(output).Some? ==>
      var m := p.failedPassedTotal(output).value; s == Summary(m.2, m.1, m.0, 0)
    ensures p.failedPassedTotal(output).None? && p.passedTotal(output).Some? ==>
      var m := p.passedTotal(output).value; s == Summary(m.1, m.0, 0, 0)
    ensures p.failedPassedTotal(output).None? && p.passedTotal(output).None? && p.passedFailed(output).Some? ==>
      var m := p.passedFailed(output).value; s == Summary(m.0 + m.1, m.0, m.1, 0)
    ensures p.failedPassedTotal(output).None? && p.passedTotal(output).None? && p.passedFailed(output).None? ==>
      s == Tallied(p.counts(output))
  {
    var fpt := p.failedPassedTotal(output);
    if fpt.Some? {
      var (f, ps, t) := fpt.value;
      return Summary(t, ps, f, 0);
    }
    var pt := p.passedTotal(output);
    if pt.Some? {
      var (ps, t) := pt.value;
      return Summary(t, ps, 0, 0);
    }
    var pf := p.passedFailed(output);
    if pf.Some? {
      var (ps, f) := pf.value;
      return Summary(ps + f, ps, f, 0);
    }
    s := Tally(p.counts(output));
  }

  /** Vitest prints a `Test Files` line before the `Tests` line: both match `N passed`, so both add to the total. */
  lemma FrontendTotalAddsFileCount()
    ensures Tallied([Passing(3), Passing(14)]) == Summary(17, 14, 0, 0)
  {
    assert [Passing(3), Passing(14)][..1] == [Passing(3)];
  }

  // ---------------------------------------------------------------------
  // Success, errors and badges
  // ---------------------------------------------------------------------

  /** A test command: what it printed when it exited normally, or the error it threw and the output attached to it. */
  datatype Exec = Exited(stdout: string) | Threw(message: string, stdout: string)

  /** One side of the report (back end or front end). */
  datatype Side = Side(summary: Summary, success: bool, error: Option<string>, output: Option<string>)

  /** The back end's output: the command's, or on a throw the error's output, else its message, else ''. */
  function BackendOutput(exec: Exec): (r: string)
    ensures exec.Exited? ==> r == exec.stdout
    ensures exec.Threw? && |exec.stdout| > 0 ==> r == exec.stdout
    ensures exec.Threw? && |exec.stdout| == 0 ==> r == exec.message
  {
    match exec
      case Exited(stdout) => stdout
      case Threw(message, stdout) => Or(stdout, message)
  }

  /**
   * The back end's side. When changing into the back end's directory fails (`chdir` holds the error's
   * message), nothing runs: the counts stay at zero and the error is recorded with no output. Otherwise
   * the summary is always read, and the side succeeds exactly when no failure was counted.
   */
  method BackendSide(chdir: Option<string>, exec: Exec, p: BackendPatterns) returns (side: Side)
    ensures chdir.Some? ==> side == Side(Zero, false, chdir, None)
    ensures chdir.Some? ==> Badge(side) != SuccessBadge && (Badge(side) == ErrorBadge <==> |chdir.value| > 0)
    ensures chdir.None? ==> side.output == Some(BackendOutput(exec)) && side.error.None?
    ensures chdir.None? ==> (side.success <==> side.summary.failed == 0)
    ensures chdir.None? ==> (side.summary.failed == 0 <==> Badge(side) == SuccessBadge)
  {
    if chdir.Some? {
      side := Side(Zero, false, chdir, None);
      return;
    }
    var output := BackendOutput(exec);
    var summary := BackendSummary(output, p);
    side := Side(summary, summary.failed == 0, None, Some(output));
  }

  /**
   * The front end's side. Only a command that exits normally has its `N passed` / `N failed` matches
   * tallied; a command that throws (as Vitest's does when a test fails) leaves the counts at zero and
   * records the error, with the error's output when it has any.
   */
  method FrontendSide(exec: Exec, counts: string -> seq<Count>) returns (side: Side)
    ensures exec.Exited? ==>
      side == Side(Tallied(counts(exec.stdout)), Tallied(counts(exec.stdout)).failed == 0, None, Some(exec.stdout))
    ensures exec.Threw? ==>
      side == Side(Zero, false, Some(exec.message), if |exec.stdout| > 0 then Some(exec.stdout) else None)
    ensures exec.Threw? ==> Badge(side) != SuccessBadge && (Badge(side) == ErrorBadge <==> |exec.message| > 0)
  {
    match exec {
      case Exited(stdout) =>
        var summary := Tally(counts(stdout));
        side := Side(summary, summary.failed == 0, None, Some(stdout));
      case Threw(message, stdout) =>
        side := Side(Zero, false, Some(message), if |stdout| > 0 then Some(stdout) else None);
    }
  }

  datatype BadgeStatus = SuccessBadge | ErrorBadge | WarningBadge

  /** The status badge: success, else error when an error message was recorded, else warning. */
  function Badge(side: Side): (b: BadgeStatus)
    ensures b == SuccessBadge <==> side.success
    ensures b == ErrorBadge <==> !side.success && side.error.Some? && |side.error.value| > 0
  {
    if side.success then SuccessBadge
    else if side.error.Some? && |side.error.value| > 0 then ErrorBadge
    else WarningBadge
  }

  // ---------------------------------------------------------------------
  // Test code on the back end's cases and suites
  // ---------------------------------------------------------------------

  datatype CodeInfo = CodeInfo(code: string, startLine: nat, endLine: nat)

  /** A test case with the code extracted for it, if any. */
  datatype ReportCase = ReportCase(test: TestCase, code: Option<CodeInfo>)

  /** A suite's test with the code copied onto it, if any. */
  datatype ReportTest = ReportTest(test: SuiteTest, code: Option<CodeInfo>)

  datatype ReportSuite = ReportSuite(status: Status, file: string, name: string, tests: seq<ReportTest>)

  /** The code extractTestCode finds for a case, by its file and name and with no describe groups. */
  function CodeOf(files: string -> Option<string>, c: TestCase): Option<CodeInfo>
  {
    match ExtractTestCode.Extraction(files(c.file), c.file, c.name)
      case None => None
      case Some(e) => Some(CodeInfo(e.code, e.startLine, e.endLine))
  }

  /** Attaches the extracted code to every case. */
  method AttachCode(cases: seq<TestCase>, files: string -> Option<string>) returns (r: seq<ReportCase>)
    ensures |r| == |cases|
    ensures forall k :: 0 <= k < |r| ==> r[k] == ReportCase(cases[k], CodeOf(files, cases[k]))
  {
    r := [];
    var i := 0;
    while i < |cases|
      invariant 0 <= i <= |cases| && |r| == i
      invariant forall k :: 0 <= k < i ==> r[k] == ReportCase(cases[k], CodeOf(files, cases[k]))
    {
      var c := cases[i];
      var info := ExtractTestCode.Extract(files(c.file), c.file, c.name, []);
      var code := if info.Some? then Some(CodeInfo(info.value.code, info.value.startLine, info.value.endLine)) else None;
      r := r + [ReportCase(c, code)];
      i := i + 1;
    }
  }

  /** A case matches a suite's test when the name or the full name agrees and the file is the suite's. */
  predicate MatchesTest(c: ReportCase, t: ReportTest, file: string)
  {
    (c.test.name == t.test.name || c.test.fullName == t.test.fullName) && c.test.file == file
  }

  function MatchesFor(t: ReportTest, file: string): ReportCase -> bool
  {
    (c: ReportCase) => MatchesTest(c, t, file)
  }

  /**
   * A suite's test after enrichment. A test takes code only from the first case of the same file with
   * its name or full name, together with that case's full name (or its own name) and describe group;
   * with no such case it is left as it is.
   */
  function Enriched(t: ReportTest, file: string, cases: seq<ReportCase>): (r: ReportTest)
    ensures (forall k :: 0 <= k < |cases| ==> !MatchesTest(cases[k], t, file)) ==> r == t
    ensures r != t ==>
      exists k :: 0 <= k < |cases| && MatchesTest(cases[k], t, file) &&
        r.code == cases[k].code && r.test.describeGroup == Some(cases[k].test.describeGroup)
    ensures r.test.name == t.test.name && r.test.status == t.test.status && r.test.duration == t.test.duration
  {
    match FindIndex(cases, MatchesFor(t, file))
      case None => t
      case Some(k) =>
        var c := cases[k];
        ReportTest(t.test.(fullName := Or(c.test.fullName, t.test.name), describeGroup := Some(c.test.describeGroup)), c.code)
  }

  /** The inner loop: each of a suite's tests, in place. */
  method EnrichTests(tests: seq<ReportTest>, file: string, cases: seq<ReportCase>) returns (r: seq<ReportTest>)
    ensures |r| == |tests|
    ensures forall i :: 0 <= i < |r| ==> r[i] == Enriched(tests[i], file, cases)
  {
    r := tests;
    var i := 0;
    while i < |r|
      invariant 0 <= i <= |r| == |tests|
      invariant forall j :: 0 <= j < i ==> r[j] == Enriched(tests[j], file, cases)
      invariant forall j :: i <= j < |r| ==> r[j] == tests[j]
    {
      var t := r[i];
      var found := FindIndex(cases, MatchesFor(t, file));
      if found.Some? {
        var c := cases[found.value];
        r := r[i := ReportTest(t.test.(fullName := Or(c.test.fullName, t.test.name), describeGroup := Some(c.test.describeGroup)), c.code)];
      }
      i := i + 1;
    }
  }

  /** The outer loop: every suite's tests, each suite keeping its other fields. */
  method EnrichSuites(suites: seq<ReportSuite>, cases: seq<ReportCase>) returns (r: seq<ReportSuite>)
    ensures |r| == |suites|
    ensures forall j :: 0 <= j < |r| ==> r[j].(tests := []) == suites[j].(tests := []) && |r[j].tests| == |suites[j].tests|
    ensures forall j, i :: 0 <= j < |r| && 0 <= i < |r[j].tests| ==>
      r[j].tests[i] == Enriched(suites[j].tests[i], suites[j].file, cases)
  {
    r := suites;
    var j := 0;
    while j < |r|
      invariant 0 <= j <= |r| == |suites|
      invariant forall m :: 0 <= m < |r| ==> r[m].(tests := []) == suites[m].(tests := []) && |r[m].tests| == |suites[m].tests|
      invariant forall m, i :: 0 <= m < j && 0 <= i < |r[m].tests| ==>
        r[m].tests[i] == Enriched(suites[m].tests[i], suites[m].file, cases)
      invariant forall m :: j <= m < |r| ==> r[m] == suites[m]
    {
      var tests := EnrichTests(r[j].tests, r[j].file, cases);
      r := r[j := r[j].(tests := tests)];
      j := j + 1;
    }
  }

  /** A parsed suite as the report first holds it: its tests carry no code. */
  function ToReport(s: Suite): (r: ReportSuite)
    ensures r.file == s.file && |r.tests| == |s.tests|
    ensures forall i :: 0 <= i < |r.tests| ==> r.tests[i] == ReportTest(s.tests[i], None)
  {
    ReportSuite(s.status, s.file, s.name, seq(|s.tests|, i requires 0 <= i < |s.tests| => ReportTest(s.tests[i], None)))
  }

  /**
   * The back-end part of the report. With the directory change failed, only the side is set. Otherwise
   * the side from the summary patterns, then the suites and cases JestReport reads from the output.
   */
  method BackendReport(chdir: Option<string>, exec: Exec, p: BackendPatterns, jest: JestPatterns,
                       files: string -> Option<string>)
    returns (side: Side, suites: seq<ReportSuite>, cases: seq<ReportCase>)
    ensures chdir.Some? ==> side == Side(Zero, false, chdir, None) && suites == [] && cases == []
    ensures chdir.None? ==> side.output == Some(BackendOutput(exec)) && (side.success <==> side.summary.failed == 0)
    ensures chdir.None? ==> JestReported(BackendOutput(exec), jest, files, suites, cases)
    ensures forall k :: 0 <= k < |cases| ==> cases[k].code == CodeOf(files, cases[k].test)
    ensures forall j, i :: 0 <= j < |suites| && 0 <= i < |suites[j].tests| && suites[j].tests[i].code.Some? ==>
      exists k :: 0 <= k < |cases| && cases[k].test.file == suites[j].file && suites[j].tests[i].code == cases[k].code
  {
    side := BackendSide(chdir, exec, p);
    if chdir.Some? {
      return side, [], [];
    }
    suites, cases := JestReport(BackendOutput(exec), jest, files);
  }

  /**
   * What the report holds after parsing Jest's output: the cases ParseJest yields, in order, each with
   * its extracted code; one suite per header, with its file and status, whose tests are ParseJest's
   * tests of that suite, each enriched from the first case of the suite's file with its name or full name.
   */
  ghost predicate JestReported(output: string, jest: JestPatterns, files: string -> Option<string>,
                               suites: seq<ReportSuite>, cases: seq<ReportCase>)
  {
    var lines := Split(output, '\n');
    var parsed := JestCases(lines, jest, |lines|);
    |cases| == |parsed| &&
    (forall k :: 0 <= k < |cases| ==> cases[k].test == parsed[k] && cases[k].code == CodeOf(files, parsed[k])) &&
    |suites| == |jest.headers| &&
    forall j :: 0 <= j < |suites| ==>
      var file := jest.headers[j].file;
      var raw := if LastFor(jest.headers, j, file) then TestsOf(parsed, file, true) else [];
      suites[j].file == file && suites[j].status == StatusOf(jest.headers[j].passed) &&
      |suites[j].tests| == |raw| &&
      forall i :: 0 <= i < |raw| ==> suites[j].tests[i] == Enriched(ReportTest(raw[i], None), file, cases)
  }

  /** parseJestOutput, code extraction for every case, then every suite test enriched from the cases. */
  method JestReport(output: string, jest: JestPatterns, files: string -> Option<string>)
    returns (suites: seq<ReportSuite>, cases: seq<ReportCase>)
    ensures JestReported(output, jest, files, suites, cases)
    ensures forall j, i :: 0 <= j < |suites| && 0 <= i < |suites[j].tests| && suites[j].tests[i].code.Some? ==>
      exists k :: 0 <= k < |cases| && cases[k].test.file == suites[j].file && suites[j].tests[i].code == cases[k].code
  {
    var parsedSuites, parsedCases, origin := ParseJest(output, jest);
    cases := AttachCode(parsedCases, files);
    var initial := seq(|parsedSuites|, j requires 0 <= j < |parsedSuites| => ToReport(parsedSuites[j]));
    suites := EnrichSuites(initial, cases);
    forall j, i | 0 <= j < |suites| && 0 <= i < |suites[j].tests| && suites[j].tests[i].code.Some?
      ensures exists k :: 0 <= k < |cases| && cases[k].test.file == suites[j].file && suites[j].tests[i].code == cases[k].code
    {
      var t := initial[j].tests[i];
      assert t.code.None?;
      assert suites[j].tests[i] != t;
    }
  }

  /** A suite test that takes code takes it from a case of the suite's file with the test's name or full name. */
  lemma ReportedCodeMatches(output: string, jest: JestPatterns, files: string -> Option<string>,
                            suites: seq<ReportSuite>, cases: seq<ReportCase>, j: nat, i: nat)
    requires JestReported(output, jest, files, suites, cases)
    requires j < |suites| && i < |suites[j].tests| && suites[j].tests[i].code.Some?
    ensures var lines := Split(output, '\n');
      var file := jest.headers[j].file;
      var raw := TestsOf(JestCases(lines, jest, |lines|), file, true);
      LastFor(jest.headers, j, file) && i < |raw| &&
      exists k :: 0 <= k < |cases| && MatchesTest(cases[k], ReportTest(raw[i], None), file) &&
        suites[j].tests[i].code == cases[k].code
  {
    var lines := Split(output, '\n');
    var file := jest.headers[j].file;
    var raw := if LastFor(jest.headers, j, file) then TestsOf(JestCases(lines, jest, |lines|), file, true) else [];
    assert i < |raw|;
    assert suites[j].tests[i] != ReportTest(raw[i], None);
  }
}
