/**
 * The test-output parsers of the report script (scripts/parse-test-results.js):
 * parseJestOutput and parseVitestOutput turn the text a test run prints into
 * suites and test cases. The regular expressions that recognise suite
 * headers, test lines and durations are parameters; the describe-indent
 * patterns, the `includes` checks and the splitting are modelled.
 */
module TestResults {
  import opened Common

  datatype Status = Passed | Failed

  function StatusOf(passed: bool): Status
  {
    if passed then Passed else Failed
  }

  /** A test as a suite lists it: a Jest entry has no describe group, a Vitest entry carries one. */
  datatype SuiteTest = SuiteTest(name: string, fullName: string, describeGroup: Option<string>, status: Status, duration: Option<nat>)

  datatype Suite = Suite(status: Status, file: string, name: string, tests: seq<SuiteTest>)

  datatype TestCase = TestCase(name: string, fullName: string, describeGroup: string, status: Status,
                               duration: Option<nat>, file: string)

  /** One `PASS|FAIL tests/....test.js` occurrence. */
  datatype SuiteHit = SuiteHit(passed: bool, file: string)

  /**
   * The Jest patterns: every suite-header occurrence in the whole output, the suite header of one
   * line, and a test line's trimmed name and duration.
   */
  datatype JestPatterns = JestPatterns(
    headers: seq<SuiteHit>,
    header: string -> Option<SuiteHit>,
    test: string -> Option<(string, nat)>)

  const Arrow := " › "

  /** The entry a suite keeps for a test case; only Vitest's keeps the describe group. */
  function EntryOf(c: TestCase, jest: bool): (e: SuiteTest)
    ensures e.name == c.name && e.fullName == c.fullName && e.status == c.status && e.duration == c.duration
    ensures e.describeGroup == if jest then None else Some(c.describeGroup)
  {
    SuiteTest(c.name, c.fullName, if jest then None else Some(c.describeGroup), c.status, c.duration)
  }

  /** The entries of the test cases of one file, in order. */
  function TestsOf(cases: seq<TestCase>, file: string, jest: bool): seq<SuiteTest>
  {
    if |cases| == 0 then []
    else
      var last := cases[|cases| - 1];
      TestsOf(cases[..|cases| - 1], file, jest) + (if last.file == file then [EntryOf(last, jest)] else [])
  }

  lemma TestsOfStep(cases: seq<TestCase>, c: TestCase, file: string, jest: bool)
    ensures TestsOf(cases + [c], file, jest) == TestsOf(cases, file, jest) + (if c.file == file then [EntryOf(c, jest)] else [])
  {
    assert (cases + [c])[..|cases|] == cases;
  }

  // ---------------------------------------------------------------------
  // Line shapes
  // ---------------------------------------------------------------------

  predicate IsUpper(c: char)
  {
    'A' <= c <= 'Z'
  }

  /** `^\s{n}([A-Z][^\n]+)$` with exactly `n` leading spaces, on a line without newlines. */
  predicate TitleAt(line: string, n: nat)
  {
    Indent(line) == n && n + 2 <= |line| && IsUpper(line[n])
  }

  predicate HasMark(line: string)
  {
    Contains(line, "✓") || Contains(line, "✗")
  }

  /**
   * The describe stack after a title at depth `level` (1 or more): the title replaces the entry at
   * that index and the stack is cut after it. Entries JavaScript leaves undefined join as "".
   */
  function SetLevel(stack: seq<string>, level: nat, title: string): (r: seq<string>)
    ensures |r| == level + 1 && r[level] == title
    ensures forall k :: 0 <= k < level ==> r[k] == (if k < |stack| then stack[k] else "")
  {
    (if level <= |stack| then stack[..level] else stack + seq(level - |stack|, _ => "")) + [title]
  }

  function FullName(group: string, name: string): string
  {
    if |group| > 0 then group + Arrow + name else name
  }

  // ---------------------------------------------------------------------
  // parseJestOutput
  // ---------------------------------------------------------------------

  /** The index of the last hit for `file`: the suite the file's tests are added to. */
  predicate LastFor(hits: seq<SuiteHit>, k: nat, file: string)
  {
    k < |hits| && hits[k].file == file && forall j :: k < j < |hits| ==> hits[j].file != file
  }

  /** The Jest suites: one per header occurrence, and the map from a file to its last suite. */
  predicate JestSuitesOk(hits: seq<SuiteHit>, suites: seq<Suite>, suiteMap: map<string, nat>)
  {
    |suites| == |hits| &&
    (forall k :: 0 <= k < |suites| ==>
       suites[k].file == hits[k].file && suites[k].status == StatusOf(hits[k].passed) && suites[k].name == "") &&
    (forall k :: 0 <= k < |hits| ==> hits[k].file in suiteMap) &&
    (forall f :: f in suiteMap ==> LastFor(hits, suiteMap[f], f))
  }

  /** Each suite lists the tests of its file when it is the file's last suite, and none otherwise. */
  predicate JestTestsOk(suites: seq<Suite>, suiteMap: map<string, nat>, cases: seq<TestCase>)
  {
    forall k :: 0 <= k < |suites| ==>
      suites[k].file in suiteMap &&
      suites[k].tests == (if suiteMap[suites[k].file] == k then TestsOf(cases, suites[k].file, true) else [])
  }

  /** A test case read from `line` under the suite `file` and the describe group `group`. */
  predicate JestCaseFrom(c: TestCase, line: string, p: JestPatterns, file: string, group: string)
  {
    p.test(line).Some? && c.name == p.test(line).value.0 && c.duration == Some(p.test(line).value.1) &&
    c.status == StatusOf(Contains(line, "✓")) && c.describeGroup == group &&
    c.fullName == FullName(group, c.name) && c.file == file
  }

  /** The suites, in the order their headers occur, each starting with no tests. */
  method JestSuites(hits: seq<SuiteHit>) returns (suites: seq<Suite>, suiteMap: map<string, nat>)
    ensures JestSuitesOk(hits, suites, suiteMap)
    ensures forall k :: 0 <= k < |suites| ==> suites[k].tests == []
  {
    suites := [];
    suiteMap := map[];
    var k := 0;
    while k < |hits|
      invariant 0 <= k <= |hits|
      invariant JestSuitesOk(hits[..k], suites, suiteMap)
      invariant forall j :: 0 <= j < |suites| ==> suites[j].tests == []
    {
      assert hits[..k + 1][..k] == hits[..k];
      suites := suites + [Suite(StatusOf(hits[k].passed), hits[k].file, "", [])];
      suiteMap := suiteMap[hits[k].file := k];
      LastForStep(hits, k, suiteMap);
      k := k + 1;
    }
    assert hits[..k] == hits;
  }

  lemma LastForStep(hits: seq<SuiteHit>, k: nat, suiteMap: map<string, nat>)
    requires k < |hits|
    requires forall f :: f in suiteMap && f != hits[k].file ==> LastFor(hits[..k], suiteMap[f], f)
    requires hits[k].file in suiteMap && suiteMap[hits[k].file] == k
    ensures forall f :: f in suiteMap ==> LastFor(hits[..k + 1], suiteMap[f], f)
  {
  }

  /** The parser's state between lines: the file of the current suite, if any, and the describe stack. */
  datatype JestState = JestState(suite: Option<string>, stack: seq<string>)

  /** What a line is to the parser, tested in the parser's order. */
  datatype JestLineKind = HeaderLine(file: string) | ConsoleLine | TopTitle | NestedTitle | TestLine | OtherLine

  /**
   * A suite header first; then console output; then, under an open suite and without a ✓ or ✗, a
   * title indented by two, then a title indented by four or more; then a test line under an open suite.
   */
  function KindOf(st: JestState, line: string, p: JestPatterns): (k: JestLineKind)
    ensures k.HeaderLine? <==> p.header(line).Some?
    ensures k.HeaderLine? ==> k.file == p.header(line).value.file
    ensures k.TopTitle? ==> TitleAt(line, 2) && st.suite.Some? && !HasMark(line)
    ensures k.NestedTitle? ==> Indent(line) >= 4 && TitleAt(line, Indent(line)) && st.suite.Some? && !HasMark(line)
    ensures k.TestLine? ==>
      p.test(line).Some? && st.suite.Some? && p.header(line).None? &&
      !Contains(line, "● Console") && !Contains(line, "console.log")
  {
    if p.header(line).Some? then HeaderLine(p.header(line).value.file)
    else if Contains(line, "● Console") || Contains(line, "console.log") then ConsoleLine
    else if TitleAt(line, 2) && st.suite.Some? && !HasMark(line) then TopTitle
    else if Indent(line) >= 4 && TitleAt(line, Indent(line)) && st.suite.Some? && !HasMark(line) then NestedTitle
    else if p.test(line).Some? && st.suite.Some? then TestLine
    else OtherLine
  }

  /**
   * The state after a line: a header opens its file's suite with an empty stack, a top title is
   * pushed, a nested title at indent n sets level n / 2 - 1 and cuts the stack there, and any other
   * line leaves the state as it was.
   */
  function JestStep(st: JestState, line: string, p: JestPatterns): (r: JestState)
    ensures p.header(line).Some? ==> r == JestState(Some(p.header(line).value.file), [])
    ensures p.header(line).None? ==> r.suite == st.suite
    ensures KindOf(st, line, p).TopTitle? ==>
      |r.stack| == |st.stack| + 1 && r.stack[..|st.stack|] == st.stack && r.stack[|st.stack|] == Trim(line[2..])
    ensures KindOf(st, line, p).NestedTitle? ==>
      |r.stack| == Indent(line) / 2 && r.stack[Indent(line) / 2 - 1] == Trim(line[Indent(line)..]) &&
      forall k :: 0 <= k < Indent(line) / 2 - 1 ==> r.stack[k] == (if k < |st.stack| then st.stack[k] else "")
    ensures !KindOf(st, line, p).HeaderLine? && !KindOf(st, line, p).TopTitle? && !KindOf(st, line, p).NestedTitle? ==>
      r == st
  {
    match KindOf(st, line, p)
      case HeaderLine(file) => JestState(Some(file), [])
      case TopTitle => st.(stack := st.stack + [Trim(line[2..])])
      case NestedTitle => st.(stack := SetLevel(st.stack, Indent(line) / 2 - 1, Trim(line[Indent(line)..])))
      case _ => st
  }

  /** The case a line yields: a test line under an open suite, read with the describe stack in force. */
  function CaseOf(st: JestState, line: string, p: JestPatterns): (r: Option<TestCase>)
    ensures r.Some? <==> KindOf(st, line, p).TestLine?
    ensures r.Some? ==>
      st.suite.Some? && JestCaseFrom(r.value, line, p, st.suite.value, Join(st.stack, Arrow)) &&
      !Contains(line, "console.log")
  {
    if KindOf(st, line, p).TestLine? then Some(JestCase(line, p, st.suite.value, st.stack)) else None
  }

  /** The state before line `i`: the earlier lines applied in turn, from no suite and an empty stack. */
  function StateAt(lines: seq<string>, p: JestPatterns, i: nat): JestState
    requires i <= |lines|
  {
    if i == 0 then JestState(None, []) else JestStep(StateAt(lines, p, i - 1), lines[i - 1], p)
  }

  /** The case line `i` yields in the state the earlier lines leave. */
  function CaseAt(lines: seq<string>, p: JestPatterns, i: nat): Option<TestCase>
    requires i < |lines|
  {
    CaseOf(StateAt(lines, p, i), lines[i], p)
  }

  /** The case each line yields, by line index; none past the last line. */
  function CaseFn(lines: seq<string>, p: JestPatterns): nat -> Option<TestCase>
  {
    (i: nat) => if i < |lines| then CaseAt(lines, p, i) else None
  }

  /** The cases of the first `n` lines, in line order. */
  function JestCases(lines: seq<string>, p: JestPatterns, n: nat): seq<TestCase>
    requires n <= |lines|
  {
    Somes(CaseFn(lines, p), n)
  }

  /** The indexes, ascending, of the lines among the first `n` that yield a case. */
  function CaseLines(lines: seq<string>, p: JestPatterns, n: nat): seq<nat>
    requires n <= |lines|
  {
    SomeIndexes(CaseFn(lines, p), n)
  }

  /** The values present among `at(0)`, ..., `at(n - 1)`, in index order. */
  function Somes<T>(at: nat -> Option<T>, n: nat): seq<T>
  {
    if n == 0 then [] else Somes(at, n - 1) + (if at(n - 1).Some? then [at(n - 1).value] else [])
  }

  /** The indexes below `n` at which `at` holds a value, in index order. */
  function SomeIndexes<T>(at: nat -> Option<T>, n: nat): seq<nat>
  {
    if n == 0 then [] else SomeIndexes(at, n - 1) + (if at(n - 1).Some? then [n - 1] else [])
  }

  /**
   * The k-th case comes from the k-th case line, the case lines ascend, and every line among the
   * first `n` that yields a case is one of them.
   */
  lemma CaseLinesMeaning(lines: seq<string>, p: JestPatterns, n: nat)
    requires n <= |lines|
    ensures var cs, ls := JestCases(lines, p, n), CaseLines(lines, p, n);
      |ls| == |cs| &&
      (forall k :: 0 <= k < |ls| ==> ls[k] < n && CaseAt(lines, p, ls[k]) == Some(cs[k])) &&
      (forall j, k :: 0 <= j < k < |ls| ==> ls[j] < ls[k]) &&
      (forall i :: 0 <= i < n && CaseAt(lines, p, i).Some? ==> i in ls)
  {
    var at := CaseFn(lines, p);
    SomesYield(at, n);
    SomeIndexesAscend(at, n);
    SomeIndexesCover(at, n);
    var cs, ls := JestCases(lines, p, n), CaseLines(lines, p, n);
    forall k | 0 <= k < |ls|
      ensures ls[k] < n && CaseAt(lines, p, ls[k]) == Some(cs[k])
    {
      assert at(ls[k]) == Some(cs[k]);
    }
    forall i | 0 <= i < n && CaseAt(lines, p, i).Some?
      ensures i in ls
    {
      assert at(i).Some?;
    }
  }

  /** The k-th value is the one `at` holds at the k-th index, and there are as many of each. */
  lemma {:induction false} SomesYield<T>(at: nat -> Option<T>, n: nat)
    ensures var cs, ls := Somes(at, n), SomeIndexes(at, n);
      |ls| == |cs| && forall k :: 0 <= k < |ls| ==> ls[k] < n && at(ls[k]) == Some(cs[k])
  {
    if n > 0 {
      SomesYield(at, n - 1);
    }
  }

  /** The indexes are below `n` and ascend. */
  lemma {:induction false} SomeIndexesAscend<T>(at: nat -> Option<T>, n: nat)
    ensures forall k :: 0 <= k < |SomeIndexes(at, n)| ==> SomeIndexes(at, n)[k] < n
    ensures forall j, k :: 0 <= j < k < |SomeIndexes(at, n)| ==> SomeIndexes(at, n)[j] < SomeIndexes(at, n)[k]
  {
    if n > 0 {
      SomeIndexesAscend(at, n - 1);
      AscendAppend(SomeIndexes(at, n - 1), if at(n - 1).Some? then [n - 1] else [], n - 1);
    }
  }

  /** Appending nothing, or one index above all the earlier ones, keeps indexes ascending. */
  lemma AscendAppend(ls0: seq<nat>, tail: seq<nat>, m: nat)
    requires forall k :: 0 <= k < |ls0| ==> ls0[k] < m
    requires forall j, k :: 0 <= j < k < |ls0| ==> ls0[j] < ls0[k]
    requires tail == [] || tail == [m]
    ensures var ls := ls0 + tail;
      (forall k :: 0 <= k < |ls| ==> ls[k] < m + 1) && forall j, k :: 0 <= j < k < |ls| ==> ls[j] < ls[k]
  {
  }

  /** Every index below `n` at which `at` holds a value is listed. */
  lemma {:induction false} SomeIndexesCover<T>(at: nat -> Option<T>, n: nat)
    ensures forall i :: 0 <= i < n && at(i).Some? ==> i in SomeIndexes(at, n)
  {
    if n > 0 {
      SomeIndexesCover(at, n - 1);
    }
  }

  /** The references over one more line: the state moved on by that line, and the case it yields appended. */
  lemma JestPrefixStep(lines: seq<string>, p: JestPatterns, i: nat)
    requires i < |lines|
    ensures StateAt(lines, p, i + 1) == JestStep(StateAt(lines, p, i), lines[i], p)
    ensures var c := CaseOf(StateAt(lines, p, i), lines[i], p);
      JestCases(lines, p, i + 1) == JestCases(lines, p, i) + (if c.Some? then [c.value] else [])
  {
  }

  /** Each case comes from its case line, read under the suite and describe stack the earlier lines leave. */
  lemma JestCasesTraced(lines: seq<string>, p: JestPatterns)
    ensures var cs, ls := JestCases(lines, p, |lines|), CaseLines(lines, p, |lines|);
      |ls| == |cs| &&
      (forall k :: 0 <= k < |cs| ==>
        ls[k] < |lines| && CaseAt(lines, p, ls[k]) == Some(cs[k]) &&
        StateAt(lines, p, ls[k]).suite.Some? &&
        JestCaseFrom(cs[k], lines[ls[k]], p, StateAt(lines, p, ls[k]).suite.value, Join(StateAt(lines, p, ls[k]).stack, Arrow))) &&
      (forall j, k :: 0 <= j < k < |ls| ==> ls[j] < ls[k]) &&
      (forall i :: 0 <= i < |lines| && CaseAt(lines, p, i).Some? ==> i in ls)
  {
    CaseLinesMeaning(lines, p, |lines|);
  }

  /**
   * parseJestOutput. Every header occurrence makes a suite, passed iff it reads PASS; a file's last
   * suite lists the file's cases. The cases are exactly those the lines yield, in line order, each
   * read under the suite and describe stack the earlier lines leave.
   */
  method ParseJest(output: string, p: JestPatterns) returns (suites: seq<Suite>, cases: seq<TestCase>, ghost origin: seq<nat>)
    ensures |suites| == |p.headers|
    ensures forall k :: 0 <= k < |suites| ==>
      suites[k].file == p.headers[k].file && suites[k].status == StatusOf(p.headers[k].passed)
    ensures forall k :: 0 <= k < |suites| ==>
      suites[k].tests == (if LastFor(p.headers, k, suites[k].file) then TestsOf(cases, suites[k].file, true) else [])
    ensures cases == JestCases(Split(output, '\n'), p, |Split(output, '\n')|)
    ensures |origin| == |cases|
    ensures forall k :: 0 <= k < |cases| ==>
      var lines := Split(output, '\n');
      origin[k] < |lines| && CaseAt(lines, p, origin[k]) == Some(cases[k]) &&
      StateAt(lines, p, origin[k]).suite.Some? &&
      JestCaseFrom(cases[k], lines[origin[k]], p, StateAt(lines, p, origin[k]).suite.value,
                   Join(StateAt(lines, p, origin[k]).stack, Arrow))
    ensures forall j, k :: 0 <= j < k < |origin| ==> origin[j] < origin[k]
    ensures forall i :: 0 <= i < |Split(output, '\n')| && CaseAt(Split(output, '\n'), p, i).Some? ==> i in origin
  {
    var suiteMap;
    suites, suiteMap := JestSuites(p.headers);
    var lines := Split(output, '\n');
    var currentSuite: Option<string> := None;
    var describeStack: seq<string> := [];
    cases := [];
    var i := 0;
    while i < |lines|
      invariant 0 <= i <= |lines|
      invariant JestSuitesOk(p.headers, suites, suiteMap)
      invariant JestTestsOk(suites, suiteMap, cases)
      invariant JestState(currentSuite, describeStack) == StateAt(lines, p, i)
      invariant cases == JestCases(lines, p, i)
    {
      JestPrefixStep(lines, p, i);
      suites, currentSuite, describeStack, cases :=
        JestLine(lines[i], p, suites, suiteMap, currentSuite, describeStack, cases);
      i := i + 1;
    }
    origin := CaseLines(lines, p, |lines|);
    JestCasesTraced(lines, p);
    forall k | 0 <= k < |suites|
      ensures suites[k].tests == (if LastFor(p.headers, k, suites[k].file) then TestsOf(cases, suites[k].file, true) else [])
    {
      assert LastFor(p.headers, suiteMap[suites[k].file], suites[k].file);
    }
  }

  /**
   * One line of Jest output: the suite and describe stack move on as JestStep says, the case the line
   * yields, if any, is appended, and the suites' test lists stay in step with the cases.
   */
  method JestLine(line: string, p: JestPatterns, suites: seq<Suite>, suiteMap: map<string, nat>,
                  currentSuite: Option<string>, describeStack: seq<string>, cases: seq<TestCase>)
    returns (suites': seq<Suite>, currentSuite': Option<string>, describeStack': seq<string>, cases': seq<TestCase>)
    requires JestSuitesOk(p.headers, suites, suiteMap) && JestTestsOk(suites, suiteMap, cases)
    ensures JestSuitesOk(p.headers, suites', suiteMap) && JestTestsOk(suites', suiteMap, cases')
    ensures JestState(currentSuite', describeStack') == JestStep(JestState(currentSuite, describeStack), line, p)
    ensures var c := CaseOf(JestState(currentSuite, describeStack), line, p);
      cases' == cases + (if c.Some? then [c.value] else [])
  {
    suites', currentSuite', describeStack', cases' := suites, currentSuite, describeStack, cases;
    var header := p.header(line);
    if header.Some? {
      currentSuite' := Some(header.value.file);
      describeStack' := [];
    } else if Contains(line, "● Console") || Contains(line, "console.log") {
    } else if TitleAt(line, 2) && currentSuite.Some? && !HasMark(line) {
      describeStack' := describeStack + [Trim(line[2..])];
    } else if Indent(line) >= 4 && TitleAt(line, Indent(line)) && currentSuite.Some? && !HasMark(line) {
      describeStack' := SetLevel(describeStack, Indent(line) / 2 - 1, Trim(line[Indent(line)..]));
    } else if p.test(line).Some? && currentSuite.Some? {
      var c := JestCase(line, p, currentSuite.value, describeStack);
      suites' := AddJestCase(suites, suiteMap, cases, c);
      cases' := cases + [c];
    }
  }

  /** The test case a test line yields. */
  function JestCase(line: string, p: JestPatterns, file: string, stack: seq<string>): (c: TestCase)
    requires p.test(line).Some?
    ensures JestCaseFrom(c, line, p, file, Join(stack, Arrow))
  {
    var name := p.test(line).value.0;
    var group := if |stack| > 0 then Join(stack, Arrow) else "";
    assert |stack| == 0 ==> Join(stack, Arrow) == "";
    TestCase(name, FullName(group, name), group, StatusOf(Contains(line, "✓")), Some(p.test(line).value.1), file)
  }

  /** Adding a case to the list and, when its file has a suite, to that suite keeps the suites' lists in step. */
  method AddJestCase(suites: seq<Suite>, suiteMap: map<string, nat>, cases: seq<TestCase>, c: TestCase)
    returns (r: seq<Suite>)
    requires forall f :: f in suiteMap ==> suiteMap[f] < |suites| && suites[suiteMap[f]].file == f
    requires JestTestsOk(suites, suiteMap, cases)
    ensures |r| == |suites| && JestTestsOk(r, suiteMap, cases + [c])
    ensures forall k :: 0 <= k < |r| ==> r[k].(tests := []) == suites[k].(tests := [])
  {
    r := suites;
    if c.file in suiteMap {
      var k := suiteMap[c.file];
      r := suites[k := suites[k].(tests := suites[k].tests + [EntryOf(c, true)])];
    }
    forall k | 0 <= k < |r|
      ensures r[k].tests == (if suiteMap[r[k].file] == k then TestsOf(cases + [c], r[k].file, true) else [])
    {
      TestsOfStep(cases, c, r[k].file, true);
    }
  }

  /** Only the file's last suite collects its tests: an earlier duplicate header keeps an empty list. */
  lemma JestDuplicateHeaderEmpty(suites: seq<Suite>, hits: seq<SuiteHit>, cases: seq<TestCase>, k: nat, j: nat)
    requires |suites| == |hits| && k < j < |hits| && hits[k].file == hits[j].file
    requires forall m :: 0 <= m < |suites| ==>
      suites[m].file == hits[m].file &&
      suites[m].tests == (if LastFor(hits, m, suites[m].file) then TestsOf(cases, suites[m].file, true) else [])
    ensures suites[k].tests == []
  {
  }

  // ---------------------------------------------------------------------
  // parseVitestOutput
  // ---------------------------------------------------------------------

  /**
   * The Vitest patterns on a trimmed line: a test line's file and the path after `>`, an old-format
   * summary line's file, and the `(N ms)` duration.
   */
  datatype VitestPatterns = VitestPatterns(
    test: string -> Option<(string, string)>,
    summary: string -> Option<string>,
    duration: string -> Option<nat>)

  const PathSep := " > "

  /** String.prototype.split with a non-empty separator. */
  function SplitOn(s: string, sep: string): (r: seq<string>)
    requires |sep| > 0
    ensures |r| > 0
    decreases |s|
  {
    match IndexOf(s, sep)
      case None => [s]
      case Some(i) => [s[..i]] + SplitOn(s[i + |sep|..], sep)
  }

  /** Splitting on a separator and joining with it gives the text back. */
  lemma {:induction false} SplitOnJoin(s: string, sep: string)
    requires |sep| > 0
    ensures Join(SplitOn(s, sep), sep) == s
    decreases |s|
  {
    match IndexOf(s, sep)
    case None =>
    case Some(i) =>
      var rest := s[i + |sep|..];
      SplitOnJoin(rest, sep);
      var r := SplitOn(rest, sep);
      var parts := [s[..i]] + r;
      assert SplitOn(s, sep) == parts;
      assert parts[1..] == r;
      assert Join(parts, sep) == s[..i] + sep + Join(r, sep);
      assert s == s[..i] + s[i..i + |sep|] + rest;
  }

  /** The test name is the last part of the path and the describe group the others, joined with ›. */
  function NameAndGroup(fullPath: string): (r: (string, string))
    ensures var parts := SplitOn(fullPath, PathSep);
      r.0 == parts[|parts| - 1] && r.1 == (if |parts| > 1 then Join(parts[..|parts| - 1], Arrow) else "")
  {
    var parts := SplitOn(fullPath, PathSep);
    (parts[|parts| - 1], if |parts| > 1 then Join(parts[..|parts| - 1], Arrow) else "")
  }

  /** The suite name a file gets: its last path segment without `.test.js`, `.test.ts`, `.spec.js` or `.spec.ts`. */
  function BaseName(file: string): (r: string)
    ensures var seg := Split(file, '/')[|Split(file, '/')| - 1];
      |r| <= |seg| && StartsWith(seg, r)
  {
    var segs := Split(file, '/');
    var seg := segs[|segs| - 1];
    if EndsWith(seg, ".test.js") || EndsWith(seg, ".test.ts") || EndsWith(seg, ".spec.js") || EndsWith(seg, ".spec.ts")
    then seg[..|seg| - 8] else seg
  }

  /** The Vitest suites: one per file, found through the map, each failed once it was openPassed failed or any test failed. */
  predicate VitestOk(suites: seq<Suite>, suiteMap: map<string, nat>, cases: seq<TestCase>, openPassed: seq<bool>)
  {
    |openPassed| == |suites| &&
    (forall f :: f in suiteMap ==> suiteMap[f] < |suites| && suites[suiteMap[f]].file == f) &&
    (forall k :: 0 <= k < |suites| ==> suites[k].file in suiteMap && suiteMap[suites[k].file] == k) &&
    (forall k :: 0 <= k < |suites| ==> suites[k].tests == TestsOf(cases, suites[k].file, false)) &&
    (forall k :: 0 <= k < |suites| ==>
       (suites[k].status == Passed <==> openPassed[k] && forall t :: t in suites[k].tests ==> t.status == Passed)) &&
    (forall k :: 0 <= k < |cases| ==> cases[k].file in suiteMap)
  }

  /** The cases the trimmed lines yield, in line order: one per test line. */
  function VitestCases(lines: seq<string>, p: VitestPatterns): seq<TestCase>
  {
    if |lines| == 0 then []
    else
      var line := Trim(lines[|lines| - 1]);
      VitestCases(lines[..|lines| - 1], p) + (if p.test(line).Some? then [VitestCase(line, p)] else [])
  }

  /** A suite as it is opened: its file, its name, and whether the line that opened it passed. */
  datatype Opened = Opened(file: string, name: string, passed: bool)

  /** The name a test line gives its file's new suite: the first describe of the path, or the file's base name. */
  function SuiteName(fullPath: string, file: string): string
  {
    var parts := SplitOn(fullPath, PathSep);
    if |parts| > 1 then parts[0] else BaseName(file)
  }

  /**
   * The suite a trimmed line opens when its file has none yet: a test line's carries the test's status
   * and the name of its path; a summary line's is named by the file and passed when the line starts with ✓.
   */
  function OpensFor(line: string, p: VitestPatterns): Option<Opened>
  {
    if p.test(line).Some? then
      Some(Opened(p.test(line).value.0, SuiteName(p.test(line).value.1, p.test(line).value.0), Contains(line, "✓")))
    else if p.summary(line).Some? then
      Some(Opened(p.summary(line).value, BaseName(p.summary(line).value), StartsWith(line, "✓")))
    else None
  }

  function FilesOf(os: seq<Opened>): (fs: seq<string>)
    ensures |fs| == |os| && forall k :: 0 <= k < |os| ==> fs[k] == os[k].file
  {
    seq(|os|, k requires 0 <= k < |os| => os[k].file)
  }

  /** The suites the lines open, in order: a line naming a file with no suite yet opens one. */
  function OpenedBy(lines: seq<string>, p: VitestPatterns): seq<Opened>
  {
    if |lines| == 0 then []
    else
      var prev := OpenedBy(lines[..|lines| - 1], p);
      var o := OpensFor(Trim(lines[|lines| - 1]), p);
      if o.Some? && o.value.file !in FilesOf(prev) then prev + [o.value] else prev
  }

  /** The suites are those the lines open, with their files, names and opening statuses, in order. */
  predicate SuitesOpened(suites: seq<Suite>, openPassed: seq<bool>, opens: seq<Opened>)
  {
    |suites| == |opens| == |openPassed| &&
    forall k :: 0 <= k < |suites| ==>
      suites[k].file == opens[k].file && suites[k].name == opens[k].name && openPassed[k] == opens[k].passed
  }

  /**
   * parseVitestOutput. The cases are exactly those the trimmed test lines yield, in order. The suites
   * are those the lines open, one per file in order of first sight, each listing exactly its file's
   * cases, and passed exactly when it opened passed and none of its tests failed.
   */
  method ParseVitest(output: string, p: VitestPatterns) returns (suites: seq<Suite>, cases: seq<TestCase>, ghost openPassed: seq<bool>)
    ensures cases == VitestCases(Split(output, '\n'), p)
    ensures SuitesOpened(suites, openPassed, OpenedBy(Split(output, '\n'), p))
    ensures forall j, k :: 0 <= j < k < |suites| ==> suites[j].file != suites[k].file
    ensures forall k :: 0 <= k < |suites| ==> suites[k].tests == TestsOf(cases, suites[k].file, false)
    ensures forall k :: 0 <= k < |suites| ==>
      (suites[k].status == Passed <==> openPassed[k] && forall t :: t in suites[k].tests ==> t.status == Passed)
    ensures forall k :: 0 <= k < |cases| ==> HasSuite(suites, cases[k].file)
  {
    var suiteMap: map<string, nat> := map[];
    suites := [];
    cases := [];
    openPassed := [];
    var lines := Split(output, '\n');
    var i := 0;
    while i < |lines|
      invariant 0 <= i <= |lines|
      invariant VitestOk(suites, suiteMap, cases, openPassed)
      invariant cases == VitestCases(lines[..i], p)
      invariant SuitesOpened(suites, openPassed, OpenedBy(lines[..i], p))
    {
      ghost var before, opens := suites, OpenedBy(lines[..i], p);
      ghost var passedBefore := openPassed;
      FilesOfSuites(suites, suiteMap, cases, openPassed, opens);
      VitestPrefixStep(lines, i, p);
      suites, suiteMap, cases, openPassed := VitestLine(suites, suiteMap, cases, openPassed, Trim(lines[i]), p);
      SuitesOpenedStep(before, passedBefore, opens, suites, openPassed, OpensFor(Trim(lines[i]), p));
      i := i + 1;
    }
    assert lines[..i] == lines;
    forall k | 0 <= k < |cases| ensures HasSuite(suites, cases[k].file) {
      var j := suiteMap[cases[k].file];
      assert 0 <= j < |suites| && suites[j].file == cases[k].file;
    }
  }

  /** The references over one more line: that line's case appended, and its suite opened when its file is new. */
  lemma VitestPrefixStep(lines: seq<string>, i: nat, p: VitestPatterns)
    requires i < |lines|
    ensures var line := Trim(lines[i]);
      VitestCases(lines[..i + 1], p) == VitestCases(lines[..i], p) + (if p.test(line).Some? then [VitestCase(line, p)] else [])
    ensures var o := OpensFor(Trim(lines[i]), p);
      OpenedBy(lines[..i + 1], p) ==
        if o.Some? && o.value.file !in FilesOf(OpenedBy(lines[..i], p)) then OpenedBy(lines[..i], p) + [o.value]
        else OpenedBy(lines[..i], p)
  {
    assert lines[..i + 1][..i] == lines[..i];
  }

  /** Opening the suite a line names, exactly when its file is new, keeps the suites matched to the references. */
  lemma SuitesOpenedStep(suites: seq<Suite>, openPassed: seq<bool>, opens: seq<Opened>,
                         suites': seq<Suite>, openPassed': seq<bool>, o: Option<Opened>)
    requires SuitesOpened(suites, openPassed, opens)
    requires o.Some? && o.value.file !in FilesOf(opens) ==>
      |suites'| == |suites| + 1 && openPassed' == openPassed + [o.value.passed] &&
      suites'[|suites|].file == o.value.file && suites'[|suites|].name == o.value.name
    requires !(o.Some? && o.value.file !in FilesOf(opens)) ==> |suites'| == |suites| && openPassed' == openPassed
    requires |suites'| >= |suites| &&
      forall k :: 0 <= k < |suites| ==> suites'[k].file == suites[k].file && suites'[k].name == suites[k].name
    ensures SuitesOpened(suites', openPassed',
      if o.Some? && o.value.file !in FilesOf(opens) then opens + [o.value] else opens)
  {
  }

  /**
   * One trimmed line of Vitest output: a test line appends its case to the list and to its file's
   * suite, a test or summary line naming a file with no suite opens one, and no suite loses its file
   * or name.
   */
  method VitestLine(suites: seq<Suite>, suiteMap: map<string, nat>, cases: seq<TestCase>, ghost openPassed: seq<bool>,
                    line: string, p: VitestPatterns)
    returns (suites': seq<Suite>, suiteMap': map<string, nat>, cases': seq<TestCase>, ghost openPassed': seq<bool>)
    requires VitestOk(suites, suiteMap, cases, openPassed)
    ensures VitestOk(suites', suiteMap', cases', openPassed')
    ensures cases' == cases + (if p.test(line).Some? then [VitestCase(line, p)] else [])
    ensures var o := OpensFor(line, p);
      if o.Some? && o.value.file !in suiteMap then
        |suites'| == |suites| + 1 && openPassed' == openPassed + [o.value.passed] &&
        suites'[|suites|].file == o.value.file && suites'[|suites|].name == o.value.name
      else |suites'| == |suites| && openPassed' == openPassed
    ensures |suites'| >= |suites| &&
      forall k :: 0 <= k < |suites| ==> suites'[k].file == suites[k].file && suites'[k].name == suites[k].name
  {
    suites', suiteMap', cases', openPassed' := suites, suiteMap, cases, openPassed;
    var testLine := p.test(line);
    if testLine.Some? {
      suites', suiteMap', cases', openPassed' := VitestTest(suites, suiteMap, cases, openPassed, line, p);
    } else {
      var summary := p.summary(line);
      if summary.Some? && summary.value !in suiteMap {
        var file := summary.value;
        var passed := StartsWith(line, "✓");
        suiteMap' := suiteMap[file := |suites|];
        suites' := suites + [Suite(StatusOf(passed), file, BaseName(file), [])];
        openPassed' := openPassed + [passed];
        assert TestsOf(cases, file, false) == [] by {
          TestsOfAbsent(cases, file, false);
        }
      }
    }
  }

  /** Through the map, a file has a suite exactly when one of the opened suites carries it. */
  lemma FilesOfSuites(suites: seq<Suite>, suiteMap: map<string, nat>, cases: seq<TestCase>, openPassed: seq<bool>,
                      opens: seq<Opened>)
    requires VitestOk(suites, suiteMap, cases, openPassed) && SuitesOpened(suites, openPassed, opens)
    ensures forall f :: f in suiteMap <==> f in FilesOf(opens)
  {
    forall f | f in FilesOf(opens) ensures f in suiteMap {
      var k :| 0 <= k < |opens| && FilesOf(opens)[k] == f;
      assert suites[k].file == f;
    }
  }

  predicate HasSuite(suites: seq<Suite>, file: string)
  {
    exists j :: 0 <= j < |suites| && suites[j].file == file
  }

  /** A file none of whose cases exist has no tests. */
  lemma TestsOfAbsent(cases: seq<TestCase>, file: string, jest: bool)
    requires forall k :: 0 <= k < |cases| ==> cases[k].file != file
    ensures TestsOf(cases, file, jest) == []
    decreases |cases|
  {
    if |cases| > 0 {
      TestsOfAbsent(cases[..|cases| - 1], file, jest);
    }
  }

  /** One Vitest test line: the suite is found or created, updated, and the case appended. */
  method VitestTest(suites: seq<Suite>, suiteMap: map<string, nat>, cases: seq<TestCase>, ghost openPassed: seq<bool>,
                    line: string, p: VitestPatterns)
    returns (suites': seq<Suite>, suiteMap': map<string, nat>, cases': seq<TestCase>, ghost openPassed': seq<bool>)
    requires p.test(line).Some?
    requires VitestOk(suites, suiteMap, cases, openPassed)
    ensures VitestOk(suites', suiteMap', cases', openPassed')
    ensures cases' == cases + [VitestCase(line, p)]
    ensures var o := OpensFor(line, p).value;
      |suites'| == (if o.file in suiteMap then |suites| else |suites| + 1) &&
      openPassed' == (if o.file in suiteMap then openPassed else openPassed + [o.passed]) &&
      (o.file !in suiteMap ==> suites'[|suites|].file == o.file && suites'[|suites|].name == o.name) &&
      forall k :: 0 <= k < |suites| ==> suites'[k].file == suites[k].file && suites'[k].name == suites[k].name
  {
    var c := VitestCase(line, p);
    suites', suiteMap', openPassed' := VitestSuite(suites, suiteMap, cases, openPassed, c.file, p.test(line).value.1, c.status);
    suites' := AddVitestCase(suites', suiteMap', cases, openPassed', c);
    cases' := cases + [c];
  }

  /** The suite of a test line's file, created on first sight with the test's status, named by the first describe or by the file. */
  method VitestSuite(suites: seq<Suite>, suiteMap: map<string, nat>, cases: seq<TestCase>, ghost openPassed: seq<bool>,
                     file: string, fullPath: string, status: Status)
    returns (suites': seq<Suite>, suiteMap': map<string, nat>, ghost openPassed': seq<bool>)
    requires VitestOk(suites, suiteMap, cases, openPassed)
    ensures VitestOk(suites', suiteMap', cases, openPassed') && file in suiteMap'
    ensures file in suiteMap ==> suites' == suites && suiteMap' == suiteMap && openPassed' == openPassed
    ensures file !in suiteMap ==>
      suites' == suites + [Suite(status, file, SuiteName(fullPath, file), [])] &&
      openPassed' == openPassed + [status == Passed]
  {
    suites' := suites;
    suiteMap' := suiteMap;
    openPassed' := openPassed;
    if file !in suiteMap {
      var parts := SplitOn(fullPath, PathSep);
      var suiteName := if |parts| > 1 then parts[0] else BaseName(file);
      suiteMap' := suiteMap[file := |suites|];
      suites' := suites + [Suite(status, file, suiteName, [])];
      openPassed' := openPassed + [status == Passed];
      TestsOfAbsent(cases, file, false);
    }
  }

  /** The case goes to its file's suite, which turns failed if the case failed. */
  method AddVitestCase(suites: seq<Suite>, suiteMap: map<string, nat>, cases: seq<TestCase>, ghost openPassed: seq<bool>,
                       c: TestCase) returns (suites': seq<Suite>)
    requires VitestOk(suites, suiteMap, cases, openPassed) && c.file in suiteMap
    ensures VitestOk(suites', suiteMap, cases + [c], openPassed)
    ensures |suites'| == |suites| &&
      forall k :: 0 <= k < |suites| ==> suites'[k].file == suites[k].file && suites'[k].name == suites[k].name
  {
    var k := suiteMap[c.file];
    var suite := suites[k];
    var status := if c.status == Failed then Failed else suite.status;
    suites' := suites[k := suite.(status := status, tests := suite.tests + [EntryOf(c, false)])];
    var cases' := cases + [c];
    forall j | 0 <= j < |suites'| ensures suites'[j].tests == TestsOf(cases', suites'[j].file, false) {
      TestsOfStep(cases, c, suites'[j].file, false);
    }
    forall j | 0 <= j < |cases'| ensures cases'[j].file in suiteMap {
      if j < |cases| {
        assert cases'[j] == cases[j];
      }
    }
    forall j | 0 <= j < |suites'|
      ensures suites'[j].status == Passed <==> openPassed[j] && forall t :: t in suites'[j].tests ==> t.status == Passed
    {
      if j == k {
        AllPassedAppend(suite.tests, EntryOf(c, false));
      }
    }
  }

  lemma AllPassedAppend(tests: seq<SuiteTest>, e: SuiteTest)
    ensures (forall t :: t in tests + [e] ==> t.status == Passed) <==>
      (forall t :: t in tests ==> t.status == Passed) && e.status == Passed
  {
  }

  /** The test case a Vitest test line yields; its full name is the whole path after `>`. */
  function VitestCase(line: string, p: VitestPatterns): (c: TestCase)
    requires p.test(line).Some?
    ensures c.file == p.test(line).value.0 && c.fullName == p.test(line).value.1
    ensures c.status == StatusOf(Contains(line, "✓")) && c.duration == p.duration(line)
    ensures Join(SplitOn(c.fullName, PathSep), PathSep) == c.fullName
    ensures (c.name, c.describeGroup) == NameAndGroup(c.fullName)
  {
    var fullPath := p.test(line).value.1;
    var ng := NameAndGroup(fullPath);
    SplitOnJoin(fullPath, PathSep);
    TestCase(ng.0, fullPath, ng.1, StatusOf(Contains(line, "✓")), p.duration(line), p.test(line).value.0)
  }
}
