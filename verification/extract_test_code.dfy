/**
 * The test-code extractor (scripts/extract-test-code.js). Given a test file's
 * text, a test name and its describe groups, it finds the first `test(` /
 * `it(` line whose name matches, scans forward counting braces to find where
 * the test's block ends, and returns the lines in between with trailing blank
 * lines dropped, together with the 1-based start and end line numbers.
 *
 * The file system is a parameter: the file's text, or None when the file does
 * not exist.
 */
module ExtractTestCode {
  import opened Common

  /** What a successful extraction returns. */
  datatype Extracted = Extracted(code: string, startLine: nat, endLine: nat, file: string)

  // ---------------------------------------------------------------------
  // The two name patterns: describe(['"]name['"] and (test|it)(['"]name['"]
  // ---------------------------------------------------------------------

  predicate IsQuote(c: char)
  {
    c == '\'' || c == '"'
  }

  /** The length of the run of non-quote characters `s` starts with (`[^'"]+`, taken greedily). */
  function QuoteFree(s: string): (n: nat)
    ensures n <= |s|
    ensures forall k :: 0 <= k < n ==> !IsQuote(s[k])
    ensures n < |s| ==> IsQuote(s[n])
    decreases |s|
  {
    if |s| > 0 && !IsQuote(s[0]) then 1 + QuoteFree(s[1..]) else 0
  }

  /** The name quoted right at the start of `s`: a quote, one or more non-quote characters, a quote. */
  function QuotedAt(s: string): (r: Option<string>)
    ensures r.Some? ==> |r.value| > 0 && forall k :: 0 <= k < |r.value| ==> !IsQuote(r.value[k])
    ensures r.Some? ==> 2 + |r.value| <= |s| && IsQuote(s[0]) && s[1..1 + |r.value|] == r.value && IsQuote(s[1 + |r.value|])
  {
    if |s| > 0 && IsQuote(s[0]) then
      var n := QuoteFree(s[1..]);
      if n > 0 && n + 1 < |s| then Some(s[1..n + 1]) else None
    else None
  }

  /** The name of a call to the first of `callees` that matches exactly at the start of `s`. */
  function NameAt(s: string, callees: seq<string>): (r: Option<string>)
    decreases |callees|
  {
    if |callees| == 0 then None
    else
      var w := callees[0] + "(";
      if StartsWith(s, w) && QuotedAt(s[|w|..]).Some? then QuotedAt(s[|w|..])
      else NameAt(s, callees[1..])
  }

  /** The name captured by the leftmost match of `(callee)\(['"]([^'"]+)['"]` in the line. */
  function CallName(line: string, callees: seq<string>): (r: Option<string>)
    decreases |line|
  {
    if NameAt(line, callees).Some? then NameAt(line, callees)
    else if |line| == 0 then None
    else CallName(line[1..], callees)
  }

  /** A captured name is never empty and holds no quote, and a line it is captured from is not blank. */
  lemma {:induction false} CallNameShape(line: string, callees: seq<string>)
    ensures var r := CallName(line, callees);
      r.Some? ==> |r.value| > 0 && (forall k :: 0 <= k < |r.value| ==> !IsQuote(r.value[k])) && !Blank(line)
    decreases |line|
  {
    NameAtShape(line, callees);
    if NameAt(line, callees).None? && |line| > 0 {
      CallNameShape(line[1..], callees);
      if CallName(line[1..], callees).Some? {
        var k :| 0 <= k < |line[1..]| && !IsSpace(line[1..][k]);
        assert line[k + 1] == line[1..][k];
      }
    }
  }

  lemma {:induction false} NameAtShape(s: string, callees: seq<string>)
    ensures var r := NameAt(s, callees);
      r.Some? ==> |r.value| > 0 && (forall k :: 0 <= k < |r.value| ==> !IsQuote(r.value[k])) && !Blank(s)
    decreases |callees|
  {
    if |callees| > 0 {
      NameAtShape(s, callees[1..]);
      var w := callees[0] + "(";
      if StartsWith(s, w) && QuotedAt(s[|w|..]).Some? {
        assert s[|w|] == s[|w|..][0];
      }
    }
  }

  function DescribeName(line: string): Option<string>
  {
    CallName(line, ["describe"])
  }

  function TestName(line: string): Option<string>
  {
    CallName(line, ["test", "it"])
  }

  /** `/(test|it)\(/`. */
  predicate IsTestCall(line: string)
  {
    Contains(line, "test(") || Contains(line, "it(")
  }

  /** `/describe\(/`. */
  predicate IsDescribeCall(line: string)
  {
    Contains(line, "describe(")
  }

  /** `/(test|it|describe)\(/`. */
  predicate IsBlockCall(line: string)
  {
    IsTestCall(line) || IsDescribeCall(line)
  }

  // ---------------------------------------------------------------------
  // Choosing the test
  // ---------------------------------------------------------------------

  /** A test name is taken when it equals the wanted name, contains it, or is contained in it. */
  predicate NameMatches(name: string, testName: string)
  {
    name == testName || Contains(name, testName) || Contains(testName, name)
  }

  /** A line is chosen when it is no describe line and names a matching test. */
  predicate Selects(line: string, testName: string)
  {
    DescribeName(line).None? && TestName(line).Some? && NameMatches(TestName(line).value, testName)
  }

  /** The first line from `i` on that names a matching test. */
  function FirstSelected(lines: seq<string>, testName: string, i: nat): (r: Option<nat>)
    requires i <= |lines|
    ensures r.Some? ==> i <= r.value < |lines|
    decreases |lines| - i
  {
    if i == |lines| then None
    else if Selects(lines[i], testName) then Some(i)
    else FirstSelected(lines, testName, i + 1)
  }

  /** FirstSelected is the first selected line from `i` on, and None when there is none. */
  lemma {:induction false} FirstSelectedIsFirst(lines: seq<string>, testName: string, i: nat)
    requires i <= |lines|
    ensures var r := FirstSelected(lines, testName, i);
      (r.Some? ==> Selects(lines[r.value], testName) && forall k :: i <= k < r.value ==> !Selects(lines[k], testName)) &&
      (r.None? ==> forall k :: i <= k < |lines| ==> !Selects(lines[k], testName))
    decreases |lines| - i
  {
    if i < |lines| && !Selects(lines[i], testName) {
      FirstSelectedIsFirst(lines, testName, i + 1);
    }
  }

  /** The first line naming a matching test; describe lines are skipped whatever they contain. */
  method FindTest(lines: seq<string>, testName: string) returns (start: Option<nat>)
    ensures start == FirstSelected(lines, testName, 0)
  {
    var i := 0;
    while i < |lines|
      invariant 0 <= i <= |lines|
      invariant FirstSelected(lines, testName, 0) == FirstSelected(lines, testName, i)
    {
      var line := lines[i];
      if DescribeName(line).Some? {
        i := i + 1;
        continue;
      }
      var name := TestName(line);
      if name.Some? && NameMatches(name.value, testName) {
        return Some(i);
      }
      i := i + 1;
    }
    return None;
  }

  // ---------------------------------------------------------------------
  // Brace counting
  // ---------------------------------------------------------------------

  /** How often `c` occurs in `s`. */
  function Count(s: string, c: char): (n: nat)
    ensures n <= |s|
  {
    if |s| == 0 then 0 else Count(s[..|s| - 1], c) + (if s[|s| - 1] == c then 1 else 0)
  }

  /** What one line adds to the brace count. */
  function Delta(line: string): int
  {
    Count(line, '{') - Count(line, '}')
  }

  /** The brace count over a run of lines. */
  function Depth(lines: seq<string>): int
  {
    if |lines| == 0 then 0 else Depth(lines[..|lines| - 1]) + Delta(lines[|lines| - 1])
  }

  /** Whether a run of lines holds an opening brace. */
  predicate HasOpen(lines: seq<string>)
  {
    exists k :: 0 <= k < |lines| && '{' in lines[k]
  }

  /** Counts the braces of one line, character by character, onto the running count and flag. */
  method CountBraces(line: string, count: int, found: bool) returns (count': int, found': bool)
    ensures count' == count + Delta(line)
    ensures found' <==> found || '{' in line
  {
    count', found' := count, found;
    var k := 0;
    while k < |line|
      invariant 0 <= k <= |line|
      invariant count' == count + Count(line[..k], '{') - Count(line[..k], '}')
      invariant found' <==> found || '{' in line[..k]
    {
      assert line[..k + 1][..k] == line[..k];
      if line[k] == '{' {
        count' := count' + 1;
        found' := true;
      } else if line[k] == '}' {
        count' := count' - 1;
      }
      k := k + 1;
    }
    assert line[..k] == line;
  }

  /** Extending the scanned run by one line adds that line's braces. */
  lemma SpanStep(lines: seq<string>, i: nat, j: nat)
    requires i <= j < |lines|
    ensures Depth(lines[i..j + 1]) == Depth(lines[i..j]) + Delta(lines[j])
    ensures HasOpen(lines[i..j + 1]) <==> HasOpen(lines[i..j]) || '{' in lines[j]
  {
    var span := lines[i..j + 1];
    assert span[..|span| - 1] == lines[i..j];
    if HasOpen(span) && !('{' in lines[j]) {
      var k :| 0 <= k < |span| && '{' in span[k];
      assert span[k] == lines[i..j][k];
    }
    if HasOpen(lines[i..j]) {
      var k :| 0 <= k < j - i && '{' in lines[i..j][k];
      assert span[k] == lines[i..j][k];
    }
    if '{' in lines[j] {
      assert span[j - i] == lines[j];
    }
  }

  // ---------------------------------------------------------------------
  // Finding the end of the test's block
  // ---------------------------------------------------------------------

  /** After a balanced line, the next line closes the block: a call at indent ≤ base, or a non-blank line indented more than 2 less. */
  predicate ClosesBlock(next: string, base: nat)
  {
    (IsBlockCall(next) && Indent(next) <= base) || (Indent(next) < base - 2 && Trim(next) != "")
  }

  /**
   * Where the scan stops at line `j` of the block that starts at line `i`, if it stops there. Once a
   * `{` has been seen and the braces of lines i..j balance, it ends at j when j is the last line or the
   * next line closes the block. Otherwise, once a `{` has been seen, a later test call at the base
   * indent ends the block on the line before it.
   */
  function StopAt(lines: seq<string>, i: nat, base: nat, j: nat): Option<int>
    requires i <= j < |lines|
  {
    var span := lines[i..j + 1];
    if HasOpen(span) && Depth(span) == 0 && (j + 1 == |lines| || ClosesBlock(lines[j + 1], base)) then Some(j)
    else if j > i && HasOpen(span) && IsTestCall(lines[j]) && Indent(lines[j]) == base then Some(j - 1)
    else None
  }

  /** The first stop at or after line `j`. */
  function FirstStop(lines: seq<string>, i: nat, base: nat, j: nat): Option<int>
    requires i <= j <= |lines|
    decreases |lines| - j
  {
    if j == |lines| then None
    else if StopAt(lines, i, base, j).Some? then StopAt(lines, i, base, j)
    else FirstStop(lines, i, base, j + 1)
  }

  /** FirstStop is the stop of the first line `k` that has one, and None when no line from `j` on has one. */
  lemma {:induction false} FirstStopIsFirst(lines: seq<string>, i: nat, base: nat, j: nat) returns (k: nat)
    requires i <= j <= |lines|
    ensures FirstStop(lines, i, base, j).None? <==> forall m :: j <= m < |lines| ==> StopAt(lines, i, base, m).None?
    ensures FirstStop(lines, i, base, j).Some? ==>
      j <= k < |lines| && StopAt(lines, i, base, k) == FirstStop(lines, i, base, j) &&
      forall m :: j <= m < k ==> StopAt(lines, i, base, m).None?
    decreases |lines| - j
  {
    k := j;
    if j < |lines| {
      k := FirstStopIsFirst(lines, i, base, j + 1);
      if StopAt(lines, i, base, j).Some? {
        k := j;
      }
    }
  }

  /** A stop never lies before the block's first line nor past the last line. */
  lemma {:induction false} FirstStopBounds(lines: seq<string>, i: nat, base: nat, j: nat)
    requires i <= j <= |lines|
    ensures FirstStop(lines, i, base, j).Some? ==> i <= FirstStop(lines, i, base, j).value < |lines|
    decreases |lines| - j
  {
    if j < |lines| {
      FirstStopBounds(lines, i, base, j + 1);
    }
  }

  /** The scan after an unbalanced block: a test call at indent ≤ base, or a describe call at indent < base. */
  predicate FallbackAt(line: string, base: nat)
  {
    (IsTestCall(line) && Indent(line) <= base) || (IsDescribeCall(line) && Indent(line) < base)
  }

  /** The line before the first fallback line at or after `j`. */
  function FirstFallback(lines: seq<string>, base: nat, j: nat): (r: Option<int>)
    requires 1 <= j <= |lines|
    ensures r.Some? ==> j - 1 <= r.value < |lines| - 1
    decreases |lines| - j
  {
    if j == |lines| then None
    else if FallbackAt(lines[j], base) then Some(j - 1)
    else FirstFallback(lines, base, j + 1)
  }

  /** FirstFallback ends the block just before the first fallback line, or is None when there is none. */
  lemma {:induction false} FirstFallbackIsFirst(lines: seq<string>, base: nat, j: nat)
    requires 1 <= j <= |lines|
    ensures var r := FirstFallback(lines, base, j);
      (r.Some? ==> FallbackAt(lines[r.value + 1], base) && forall k :: j <= k <= r.value ==> !FallbackAt(lines[k], base)) &&
      (r.None? ==> forall k :: j <= k < |lines| ==> !FallbackAt(lines[k], base))
    decreases |lines| - j
  {
    if j < |lines| && !FallbackAt(lines[j], base) {
      FirstFallbackIsFirst(lines, base, j + 1);
    }
  }

  function Min(a: int, b: int): int
  {
    if a <= b then a else b
  }

  /**
   * The chosen end line (0-based) of the block starting at line `i`: the first stop of the brace scan;
   * failing that, when a `{` was seen, the line before the first fallback line; failing that, line
   * i + 30 clamped to the last line.
   */
  function EndLine(lines: seq<string>, i: nat): (r: int)
    requires i < |lines|
    ensures i <= r < |lines|
  {
    var base := Indent(lines[i]);
    var stop := FirstStop(lines, i, base, i);
    FirstStopBounds(lines, i, base, i);
    if stop.Some? then stop.value
    else
      var fallback := FirstFallback(lines, base, i + 1);
      if HasOpen(lines[i..]) && fallback.Some? then fallback.value
      else Min(i + 30, |lines| - 1)
  }

  /** The brace scan: the counters and the stop conditions, line by line, from the test's own line. */
  method ScanEnd(lines: seq<string>, i: nat, base: nat) returns (end: Option<int>, found: bool)
    requires i < |lines|
    ensures end == FirstStop(lines, i, base, i)
    ensures end.None? ==> (found <==> HasOpen(lines[i..]))
  {
    var count := 0;
    found := false;
    var j := i;
    while j < |lines|
      invariant i <= j <= |lines|
      invariant count == Depth(lines[i..j]) && (found <==> HasOpen(lines[i..j]))
      invariant FirstStop(lines, i, base, i) == FirstStop(lines, i, base, j)
    {
      count, found := CountBraces(lines[j], count, found);
      SpanStep(lines, i, j);
      if found && count == 0 {
        if j + 1 < |lines| {
          var next := lines[j + 1];
          if IsBlockCall(next) && Indent(next) <= base {
            return Some(j), found;
          }
          if Indent(next) < base - 2 && Trim(next) != "" {
            return Some(j), found;
          }
        } else {
          return Some(j), found;
        }
      }
      if j > i && found {
        if IsTestCall(lines[j]) && Indent(lines[j]) == base {
          return Some(j - 1), found;
        }
      }
      j := j + 1;
    }
    assert lines[i..j] == lines[i..];
    return None, found;
  }

  /** The fallback scan from the line after the test's. */
  method ScanFallback(lines: seq<string>, i: nat, base: nat) returns (end: Option<int>)
    requires i < |lines|
    ensures end == FirstFallback(lines, base, i + 1)
  {
    var j := i + 1;
    while j < |lines|
      invariant i + 1 <= j <= |lines|
      invariant FirstFallback(lines, base, i + 1) == FirstFallback(lines, base, j)
    {
      var line := lines[j];
      var indent := Indent(line);
      if IsTestCall(line) && indent <= base {
        return Some(j - 1);
      }
      if IsDescribeCall(line) && indent < base {
        return Some(j - 1);
      }
      j := j + 1;
    }
    return None;
  }

  /** The end line of the block starting at line `i`, found as the script finds it. */
  method FindEnd(lines: seq<string>, i: nat) returns (end: int)
    requires i < |lines|
    ensures end == EndLine(lines, i)
  {
    var base := Indent(lines[i]);
    var stop, found := ScanEnd(lines, i, base);
    if stop.Some? {
      return stop.value;
    }
    if found {
      var fallback := ScanFallback(lines, i, base);
      if fallback.Some? {
        return fallback.value;
      }
    }
    end := Min(i + 30, |lines| - 1);
  }

  // ---------------------------------------------------------------------
  // Trailing blank lines, and the whole extraction
  // ---------------------------------------------------------------------

  /** A line holding white space only. */
  predicate Blank(line: string)
  {
    forall k :: 0 <= k < |line| ==> IsSpace(line[k])
  }

  /** `line.trim() === ''` is exactly a white-space-only line. */
  lemma TrimEmpty(line: string)
    ensures Trim(line) == "" <==> Blank(line)
  {
    var t := TrimStart(line);
    assert line[|line| - |t|..] == t;
  }

  /** The lines without their trailing blank ones. */
  function DropTrailingBlank(lines: seq<string>): (r: seq<string>)
    ensures |r| <= |lines|
  {
    if |lines| > 0 && Blank(lines[|lines| - 1]) then DropTrailingBlank(lines[..|lines| - 1]) else lines
  }

  /** Dropping trailing blank lines keeps the longest prefix that does not end in a blank line. */
  lemma {:induction false} DropTrailingBlankPrefix(lines: seq<string>)
    ensures var r := DropTrailingBlank(lines);
      r == lines[..|r|] && (|r| > 0 ==> !Blank(r[|r| - 1])) &&
      forall k :: |r| <= k < |lines| ==> Blank(lines[k])
  {
    if |lines| > 0 && Blank(lines[|lines| - 1]) {
      var init := lines[..|lines| - 1];
      DropTrailingBlankPrefix(init);
      var r := DropTrailingBlank(init);
      assert init[..|r|] == lines[..|r|];
      assert forall k :: |r| <= k < |lines| - 1 ==> init[k] == lines[k];
    } else {
      assert lines[..|lines|] == lines;
    }
  }

  /** Pops blank lines off the end while there are any. */
  method PopBlank(lines: seq<string>) returns (r: seq<string>)
    ensures r == DropTrailingBlank(lines)
  {
    r := lines;
    while |r| > 0 && Trim(r[|r| - 1]) == ""
      invariant DropTrailingBlank(r) == DropTrailingBlank(lines)
    {
      TrimEmpty(r[|r| - 1]);
      r := r[..|r| - 1];
    }
    if |r| > 0 {
      TrimEmpty(r[|r| - 1]);
    }
  }

  /**
   * What extractTestCode returns. None when the file does not exist or no line names a matching test.
   * Otherwise the first matching test's block, from its line to the chosen end line, joined with
   * newlines after trailing blank lines are dropped; the reported end line is the chosen one, not
   * adjusted for the dropped lines.
   */
  function Extraction(content: Option<string>, testFile: string, testName: string): (r: Option<Extracted>)
    ensures r.None? <==> content.None? || FirstSelected(Split(content.value, '\n'), testName, 0).None?
    ensures r.Some? ==> 1 <= r.value.startLine <= r.value.endLine <= |Split(content.value, '\n')|
    ensures r.Some? ==> r.value.file == testFile
  {
    if content.None? then None
    else
      var lines := Split(content.value, '\n');
      match FirstSelected(lines, testName, 0)
        case None => None
        case Some(start) =>
          var end := EndLine(lines, start);
          Some(Extracted(Join(DropTrailingBlank(lines[start..end + 1]), "\n"), start + 1, end + 1, testFile))
  }

  /** extractTestCode. The describe groups take no part in the result. */
  method Extract(content: Option<string>, testFile: string, testName: string, describeGroups: seq<string>)
    returns (r: Option<Extracted>)
    ensures r == Extraction(content, testFile, testName)
  {
    if content.None? {
      return None;
    }
    var lines := Split(content.value, '\n');
    var start := FindTest(lines, testName);
    if start.None? {
      return None;
    }
    var end := FindEnd(lines, start.value);
    var codeLines := PopBlank(lines[start.value..end + 1]);
    r := Some(Extracted(Join(codeLines, "\n"), start.value + 1, end + 1, testFile));
  }

  /**
   * What an extraction reports: the chosen line is the first one naming a matching test, the
   * 1-based lines satisfy 1 ≤ start ≤ end ≤ line count, and the code holds no more lines than the
   * reported range, ending in a non-blank line.
   */
  lemma ExtractedShape(lines: seq<string>, testName: string)
    requires FirstSelected(lines, testName, 0).Some?
    ensures var start := FirstSelected(lines, testName, 0).value;
      var end := EndLine(lines, start);
      var code := DropTrailingBlank(lines[start..end + 1]);
      Selects(lines[start], testName) &&
      (forall k :: 0 <= k < start ==> !Selects(lines[k], testName)) &&
      1 <= start + 1 <= end + 1 <= |lines| &&
      0 < |code| <= end + 1 - start && code[0] == lines[start] && !Blank(code[|code| - 1])
  {
    var start := FirstSelected(lines, testName, 0).value;
    FirstSelectedIsFirst(lines, testName, 0);
    CallNameShape(lines[start], ["test", "it"]);
    var block := lines[start..EndLine(lines, start) + 1];
    DropTrailingBlankPrefix(block);
    assert block[0] == lines[start];
  }
}
