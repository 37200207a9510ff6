/**
 * The PAC endpoints (server/back-end/controllers/pacController.js): the
 * proxy host the generated script names, and the reading of host lists out
 * of a foreign PAC script that declares `var proxyDomains = [...];`.
 */
module PacController {
  import opened Common
  import opened JsonText
  import ProxyServices
  import HostConfigs
  import PacGenerator
  import SystemConfigs
  import SystemConfigController
  import ServiceHost

  // ---------------------------------------------------------------------
  // getProxyHost
  // ---------------------------------------------------------------------

  /**
   * getProxyHost: a configured pac_service_host other than the shipped placeholder wins; an unset
   * or placeholder value gives the host the request came in on; a failing store read gives
   * PROXY_HOST or 127.0.0.1. `stored` is the outcome of the findByKey('pac_service_host') call.
   */
  function GetProxyHost(stored: Outcome<Option<SystemConfigs.SystemConfig>>, req: ServiceHost.Request,
                        interfaces: ServiceHost.Interfaces, envProxyHost: Option<string>): (r: string)
    ensures stored.Done? && stored.value.Some? && |stored.value.value.value| > 0 &&
            stored.value.value.value != SystemConfigController.PLACEHOLDER_HOST ==>
      r == stored.value.value.value
    ensures stored.Done? && (stored.value.None? || stored.value.value.value in {"", SystemConfigController.PLACEHOLDER_HOST}) ==>
      r == ServiceHost.GetServiceHost(req, interfaces)
    ensures stored.Threw? ==> r == if ServiceHost.Given(envProxyHost) then envProxyHost.value else "127.0.0.1"
  {
    match stored
      case Threw => if ServiceHost.Given(envProxyHost) then envProxyHost.value else "127.0.0.1"
      case Done(row) =>
        if row.Some? && |row.value.value| > 0 && row.value.value != SystemConfigController.PLACEHOLDER_HOST
        then row.value.value
        else ServiceHost.GetServiceHost(req, interfaces)
  }

  /**
   * The host the PAC script names is the host the system-config list reports for pac_service_host,
   * except for the stored texts 'true' and 'false', which the list shows as booleans.
   */
  lemma ListReportsProxyHost(c: SystemConfigs.SystemConfig, req: ServiceHost.Request,
                             interfaces: ServiceHost.Interfaces, envProxyHost: Option<string>)
    requires c.key == SystemConfigController.PAC_HOST_KEY && c.value != "true" && c.value != "false"
    ensures SystemConfigController.ListItem(c, req, interfaces).value ==
            SystemConfigController.TextValue(GetProxyHost(Done(Some(c)), req, interfaces, envProxyHost))
  {
  }

  // ---------------------------------------------------------------------
  // parseHostsFromPAC: the pattern /var\s+proxyDomains\s*=\s*\[([\s\S]*?)\];/
  // followed by the literals /"([^"]+)"|'([^']+)'/g
  // ---------------------------------------------------------------------

  const DOMAINS_VAR := "proxyDomains"

  /** The end of the white-space run starting at `j` (`\s*`). */
  function SkipSpaces(s: string, j: nat): (r: nat)
    requires j <= |s|
    ensures j <= r <= |s|
    ensures r < |s| ==> !IsSpace(s[r])
    ensures forall k :: j <= k < r ==> IsSpace(s[k])
    decreases |s| - j
  {
    if j < |s| && IsSpace(s[j]) then SkipSpaces(s, j + 1) else j
  }

  /**
   * Where `var\s+proxyDomains\s*=\s*\[` ends when it is matched at `i`. Each white-space run is
   * followed by a character that is not white space, so the greedy runs never give anything back.
   */
  function HeaderEnd(s: string, i: nat): (r: Option<nat>)
    requires i <= |s|
    ensures r.Some? ==> i < r.value <= |s|
  {
    if !StartsWith(s[i..], "var") then None
    else
      var a := SkipSpaces(s, i + 3);
      if a == i + 3 || !StartsWith(s[a..], DOMAINS_VAR) then None
      else
        var b := SkipSpaces(s, a + |DOMAINS_VAR|);
        if b == |s| || s[b] != '=' then None
        else
          var c := SkipSpaces(s, b + 1);
          if c == |s| || s[c] != '[' then None
          else Some(c + 1)
  }

  /** The capture group when the whole pattern matches at `i`: the lazy body ends at the first `];`. */
  function MatchAt(s: string, i: nat): Option<string>
    requires i <= |s|
  {
    match HeaderEnd(s, i)
      case None => None
      case Some(h) =>
        match IndexOf(s[h..], "];")
          case None => None
          case Some(q) => Some(s[h..h + q])
  }

  /** String.prototype.match: the capture of the leftmost match at or after `i`. */
  function ArrayMatch(s: string, i: nat): Option<string>
    requires i <= |s|
    decreases |s| - i
  {
    match MatchAt(s, i)
      case Some(body) => Some(body)
      case None => if i == |s| then None else ArrayMatch(s, i + 1)
  }

  /**
   * matchAll of /"([^"]+)"|'([^']+)'/g: at a quote the literal runs to the next equal quote and must
   * not be empty; otherwise the scan moves on by one character.
   */
  function Literals(s: string): seq<string>
    decreases |s|
  {
    if |s| == 0 then []
    else if s[0] == '"' || s[0] == '\'' then
      match IndexOf(s[1..], [s[0]])
        case Some(m) => if m > 0 then [s[1..m + 1]] + Literals(s[m + 2..]) else Literals(s[1..])
        case None => Literals(s[1..])
    else Literals(s[1..])
  }

  /** The hosts kept from the literals visited so far: each trimmed, the blank ones dropped. */
  function HostsOfLiterals(ls: seq<string>): (r: seq<string>)
    ensures |r| <= |ls|
    ensures forall k :: 0 <= k < |r| ==> |r[k]| > 0 && IsTrimmed(r[k])
    decreases |ls|
  {
    if |ls| == 0 then []
    else
      var rest := HostsOfLiterals(ls[..|ls| - 1]);
      var host := Trim(ls[|ls| - 1]);
      TrimIsTrimmed(ls[|ls| - 1]);
      if |host| > 0 then rest + [host] else rest
  }

  /** The list parseHostsFromPAC returns for a script. */
  function HostsFromPac(pacContent: string): seq<string>
  {
    match ArrayMatch(pacContent, 0)
      case None => []
      case Some(arrayContent) => HostsOfLiterals(Literals(arrayContent))
  }

  /**
   * parseHostsFromPAC: the loop over the literal matches, pushing each trimmed non-blank one. The
   * result is the specification above, and every host in it is trimmed and non-empty.
   */
  method ParseHostsFromPAC(pacContent: string) returns (hosts: seq<string>)
    ensures hosts == HostsFromPac(pacContent)
    ensures forall k :: 0 <= k < |hosts| ==> |hosts[k]| > 0 && IsTrimmed(hosts[k])
  {
    hosts := [];
    var arrayMatch := ArrayMatch(pacContent, 0);
    if arrayMatch.Some? {
      var stringMatches := Literals(arrayMatch.value);
      for i := 0 to |stringMatches|
        invariant hosts == HostsOfLiterals(stringMatches[..i])
      {
        var host := stringMatches[i];
        assert stringMatches[..i + 1][..i] == stringMatches[..i];
        if |Trim(host)| > 0 {
          hosts := hosts + [Trim(host)];
        }
      }
      assert stringMatches[..|stringMatches|] == stringMatches;
    }
  }

  /**
   * extractHostsFromPAC: a missing or empty pacUrl is refused with 400 before anything is fetched;
   * a failing fetch gives 500; otherwise the hosts parsed from the fetched text. `fetched` is the
   * outcome of fetchPACFile(pacUrl).
   */
  function ExtractHostsFromPAC(pacUrl: Option<string>, fetched: Outcome<string>): (r: Reply<seq<string>>)
    ensures !ServiceHost.Given(pacUrl) ==> r == Failure(400, "VALIDATION_ERROR")
    ensures ServiceHost.Given(pacUrl) && fetched.Threw? ==> r == Failure(500, "INTERNAL_ERROR")
    ensures ServiceHost.Given(pacUrl) && fetched.Done? ==> r == Success(HostsFromPac(fetched.value))
  {
    if !ServiceHost.Given(pacUrl) then Failure(400, "VALIDATION_ERROR")
    else match fetched
      case Threw => Failure(500, "INTERNAL_ERROR")
      case Done(pacContent) => Success(HostsFromPac(pacContent))
  }

  // ---------------------------------------------------------------------
  // A text without the declaration yields no hosts
  // ---------------------------------------------------------------------

  lemma HeaderNeedsName(s: string, i: nat)
    requires i <= |s|
    ensures HeaderEnd(s, i).Some? ==> Contains(s, DOMAINS_VAR)
  {
    if HeaderEnd(s, i).Some? {
      var a := SkipSpaces(s, i + 3);
      assert s[a..a + |DOMAINS_VAR|] == s[a..][..|DOMAINS_VAR|];
      ContainsAt(s, DOMAINS_VAR, a);
    }
  }

  lemma {:induction false} ArrayMatchNeedsName(s: string, i: nat)
    requires i <= |s|
    ensures ArrayMatch(s, i).Some? ==> Contains(s, DOMAINS_VAR)
    decreases |s| - i
  {
    HeaderNeedsName(s, i);
    if i < |s| {
      ArrayMatchNeedsName(s, i + 1);
    }
  }

  /** parseHostsFromPAC returns [] for any text that never mentions proxyDomains. */
  lemma NoDeclarationNoHosts(pacContent: string)
    requires !Contains(pacContent, DOMAINS_VAR)
    ensures HostsFromPac(pacContent) == []
  {
    ArrayMatchNeedsName(pacContent, 0);
  }

  // ---------------------------------------------------------------------
  // A declaration written by JSON.stringify is read back
  // ---------------------------------------------------------------------

  lemma {:induction false} HostsOfCleanLiterals(ls: seq<string>)
    requires forall k :: 0 <= k < |ls| ==> |ls[k]| > 0 && IsTrimmed(ls[k])
    ensures HostsOfLiterals(ls) == ls
    decreases |ls|
  {
    if |ls| > 0 {
      HostsOfCleanLiterals(ls[..|ls| - 1]);
      TrimmedFixed(ls[|ls| - 1]);
      assert ls == ls[..|ls| - 1] + [ls[|ls| - 1]];
    }
  }

  lemma {:induction false} QuotedListLacks(hs: seq<string>, c: char)
    requires |hs| > 0 && c != '"' && c != ','
    requires forall k :: 0 <= k < |hs| ==> Plain(hs[k]) && c !in hs[k]
    ensures c !in QuotedList(hs)
    decreases |hs|
  {
    EscapePlain(hs[0]);
    if |hs| > 1 {
      QuotedListLacks(hs[1..], c);
    }
  }

  /** A literal in double quotes is taken whole, and the scan goes on after its closing quote. */
  lemma LiteralsAfterQuote(h: string, tail: string)
    requires Plain(h) && |h| > 0
    ensures Literals("\"" + h + "\"" + tail) == [h] + Literals(tail)
  {
    var q := "\"" + h + "\"" + tail;
    assert q[0] == '"' && [q[0]] == "\"";
    assert q[1..] == h + "\"" + tail;
    assert '"' !in h by {
      forall k | 0 <= k < |h| ensures h[k] != '"' {
      }
    }
    IndexOfAfter(h, "\"", tail);
    assert IndexOf(q[1..], [q[0]]) == Some(|h|);
    assert q[1..|h| + 1] == h;
    assert q[|h| + 2..] == tail;
  }

  /** Characters other than quotes are skipped. */
  lemma LiteralsSkip(c: char, t: string)
    requires c != '"' && c != '\''
    ensures Literals([c] + t) == Literals(t)
  {
    assert ([c] + t)[1..] == t;
  }

  /** The literal scan of `"h1",...` takes h1 first, then scans what follows the comma. */
  lemma QuotedListStep(hs: seq<string>)
    requires |hs| > 0 && Plain(hs[0]) && |hs[0]| > 0
    ensures Literals(QuotedList(hs)) == [hs[0]] + (if |hs| == 1 then [] else Literals(QuotedList(hs[1..])))
  {
    var h := hs[0];
    EscapePlain(h);
    var tail := if |hs| == 1 then "" else "," + QuotedList(hs[1..]);
    assert QuotedList(hs) == "\"" + h + "\"" + tail;
    LiteralsAfterQuote(h, tail);
    if |hs| > 1 {
      LiteralsSkip(',', QuotedList(hs[1..]));
    }
  }

  /** The literal scan of `"h1","h2",...` gives back h1, h2, ... */
  lemma {:induction false} LiteralsQuotedList(hs: seq<string>)
    requires |hs| > 0
    requires forall k :: 0 <= k < |hs| ==> Plain(hs[k]) && |hs[k]| > 0
    ensures Literals(QuotedList(hs)) == hs
    decreases |hs|
  {
    QuotedListStep(hs);
    if |hs| > 1 {
      LiteralsQuotedList(hs[1..]);
      assert hs == [hs[0]] + hs[1..];
    }
  }

  /** The header `var proxyDomains = [` matched at the start of a text ends after its bracket. */
  lemma HeaderOfDeclaration(t: string)
    ensures HeaderEnd("var " + DOMAINS_VAR + " = [" + t, 0) == Some(20)
  {
    var s := "var " + DOMAINS_VAR + " = [" + t;
    assert s[0..][..3] == "var";
    assert SkipSpaces(s, 4) == 4;
    assert SkipSpaces(s, 3) == 4;
    assert s[4..][..|DOMAINS_VAR|] == DOMAINS_VAR;
    assert SkipSpaces(s, 17) == 17;
    assert SkipSpaces(s, 16) == 17;
    assert SkipSpaces(s, 19) == 19;
    assert SkipSpaces(s, 18) == 19;
  }

  /** The lazy body of a declaration ends at the first `];`, which the bracket-free body cannot hold. */
  lemma DeclarationBody(body: string)
    requires ']' !in body
    ensures ArrayMatch("var " + DOMAINS_VAR + " = [" + body + "];", 0) == Some(body)
  {
    var s := "var " + DOMAINS_VAR + " = [" + body + "];";
    assert s == "var " + DOMAINS_VAR + " = [" + (body + "];");
    HeaderOfDeclaration(body + "];");
    assert s[20..] == body + "];" + "";
    IndexOfAfter(body, "];", "");
    assert s[20..20 + |body|] == body;
    assert MatchAt(s, 0) == Some(body);
  }

  /**
   * A declaration `var proxyDomains = <JSON.stringify(hs)>;` is read back as `hs` when every host
   * is trimmed, non-empty, needs no escaping and has no ']'.
   */
  lemma DeclarationRoundTrip(hs: seq<string>)
    requires forall k :: 0 <= k < |hs| ==> Plain(hs[k]) && |hs[k]| > 0 && IsTrimmed(hs[k]) && ']' !in hs[k]
    ensures HostsFromPac("var " + DOMAINS_VAR + " = " + EncodeStringArray(hs) + ";") == hs
  {
    var body := if |hs| == 0 then "" else QuotedList(hs);
    assert "var " + DOMAINS_VAR + " = " + EncodeStringArray(hs) + ";" == "var " + DOMAINS_VAR + " = [" + body + "];";
    if |hs| > 0 {
      QuotedListLacks(hs, ']');
      LiteralsQuotedList(hs);
    }
    DeclarationBody(body);
    HostsOfCleanLiterals(hs);
  }

  // ---------------------------------------------------------------------
  // The script this repository generates yields no hosts
  // ---------------------------------------------------------------------

  /** Text that JSON.stringify leaves alone and that cannot spell the declared name. */
  predicate CleanText(s: string)
  {
    Plain(s) && !Contains(s, DOMAINS_VAR)
  }

  predicate CleanRules(rules: seq<PacGenerator.Rule>)
  {
    forall i :: 0 <= i < |rules| ==>
      CleanText(rules[i].proxy) && forall j :: 0 <= j < |rules[i].domains| ==> CleanText(rules[i].domains[j])
  }

  lemma QuoteClean(x: string)
    requires CleanText(x)
    ensures Absent(Quote(x), DOMAINS_VAR) && |Quote(x)| > 0 && Quote(x)[0] == '"'
  {
    var w := DOMAINS_VAR;
    EscapePlain(x);
    AbsentNotContains(x, w);
    AbsentMissingChar("\"", w, 'D');
    AbsentConcatLeft("\"", x, w);
    AbsentConcatRight("\"" + x, "\"", w);
  }

  lemma PrettyStringsClean(xs: seq<string>, depth: nat)
    requires forall k :: 0 <= k < |xs| ==> CleanText(xs[k])
    ensures Absent(PacGenerator.PrettyStrings(xs, depth), DOMAINS_VAR)
    ensures |PacGenerator.PrettyStrings(xs, depth)| > 0 && PacGenerator.PrettyStrings(xs, depth)[0] == '['
  {
    var w := DOMAINS_VAR;
    if |xs| == 0 {
      AbsentMissingChar("[]", w, 'D');
    } else {
      var inner := PacGenerator.Spaces(2 * depth + 2);
      var parts := seq(|xs|, k requires 0 <= k < |xs| => inner + Quote(xs[k]));
      PartsClean(xs, inner);
      AbsentMissingChar(",\n", w, 'D');
      AbsentJoin(parts, ",\n", w);
      Bracketed(Join(parts, ",\n"), PacGenerator.Spaces(2 * depth));
    }
  }

  /** Each indented literal of a clean list is clean. */
  lemma PartsClean(xs: seq<string>, inner: string)
    requires forall k :: 0 <= k < |xs| ==> CleanText(xs[k])
    requires 'D' !in inner
    ensures forall k :: 0 <= k < |xs| ==> Absent(inner + Quote(xs[k]), DOMAINS_VAR)
  {
    AbsentMissingChar(inner, DOMAINS_VAR, 'D');
    forall k | 0 <= k < |xs| ensures Absent(inner + Quote(xs[k]), DOMAINS_VAR) {
      QuoteClean(xs[k]);
      AbsentConcatRight(inner, Quote(xs[k]), DOMAINS_VAR);
    }
  }

  /** `[`, a newline, the joined items, a newline, the outer indent and `]`: clean when the items are. */
  lemma Bracketed(j: string, outer: string)
    requires Absent(j, DOMAINS_VAR) && 'D' !in outer
    ensures Absent("[\n" + j + "\n" + outer + "]", DOMAINS_VAR)
  {
    var w := DOMAINS_VAR;
    AbsentMissingChar(outer, w, 'D');
    AbsentMissingChar("[\n", w, 'D');
    AbsentConcatLeft("[\n", j, w);
    AbsentMissingChar("\n", w, 'D');
    AbsentConcatRight("[\n" + j, "\n", w);
    AbsentConcatLeft("[\n" + j + "\n", outer, w);
    AbsentMissingChar("]", w, 'D');
    AbsentConcatRight("[\n" + j + "\n" + outer, "]", w);
  }

  const RULE_OPEN := "  {\n    \"domains\": "
  const RULE_MID := ",\n    \"proxy\": "
  const RULE_CLOSE := "\n  }"

  lemma RulePiecesClean()
    ensures Absent(RULE_OPEN, DOMAINS_VAR) && Absent(RULE_MID, DOMAINS_VAR) && Absent(RULE_CLOSE, DOMAINS_VAR)
    ensures RULE_MID[0] == ',' && RULE_CLOSE[0] == '\n'
  {
    AbsentMissingChar(RULE_OPEN, DOMAINS_VAR, 'D');
    AbsentMissingChar(RULE_MID, DOMAINS_VAR, 'D');
    AbsentMissingChar(RULE_CLOSE, DOMAINS_VAR, 'D');
  }

  lemma PrettyRuleClean(r: PacGenerator.Rule)
    requires CleanText(r.proxy) && forall j :: 0 <= j < |r.domains| ==> CleanText(r.domains[j])
    ensures Absent(PacGenerator.PrettyRule(r), DOMAINS_VAR)
  {
    var w := DOMAINS_VAR;
    var b := PacGenerator.PrettyStrings(r.domains, 2);
    var d := Quote(r.proxy);
    assert PacGenerator.PrettyRule(r) == RULE_OPEN + b + RULE_MID + d + RULE_CLOSE;
    PrettyStringsClean(r.domains, 2);
    QuoteClean(r.proxy);
    RulePiecesClean();
    AbsentConcatRight(RULE_OPEN, b, w);
    AbsentConcatRight(RULE_OPEN + b, RULE_MID, w);
    AbsentConcatRight(RULE_OPEN + b + RULE_MID, d, w);
    AbsentConcatRight(RULE_OPEN + b + RULE_MID + d, RULE_CLOSE, w);
  }

  lemma PrettyRulesClean(rules: seq<PacGenerator.Rule>)
    requires CleanRules(rules)
    ensures Absent(PacGenerator.PrettyRules(rules), DOMAINS_VAR)
    ensures |PacGenerator.PrettyRules(rules)| > 0 && PacGenerator.PrettyRules(rules)[0] == '['
  {
    var w := DOMAINS_VAR;
    if |rules| == 0 {
      AbsentMissingChar("[]", w, 'D');
    } else {
      var parts := seq(|rules|, k requires 0 <= k < |rules| => PacGenerator.PrettyRule(rules[k]));
      forall k | 0 <= k < |rules| ensures Absent(parts[k], w) {
        PrettyRuleClean(rules[k]);
      }
      AbsentMissingChar(",\n", w, 'D');
      AbsentJoin(parts, ",\n", w);
      var j := Join(parts, ",\n");
      AbsentMissingChar("[\n", w, 'D');
      AbsentConcatLeft("[\n", j, w);
      AbsentMissingChar("\n]", w, 'D');
      AbsentConcatRight("[\n" + j, "\n]", w);
    }
  }

  lemma ScriptHeadClean()
    ensures Absent(PacGenerator.ScriptHead, DOMAINS_VAR)
  {
    AbsentMissingChar(PacGenerator.ScriptHead, DOMAINS_VAR, 'D');
  }

  lemma ScriptLoopOuterLacksD()
    ensures 'D' !in PacGenerator.ScriptLoopOuter
  {
  }

  lemma ScriptLoopForLacksD()
    ensures 'D' !in PacGenerator.ScriptLoopFor
  {
  }

  lemma ScriptLoopIfLacksD()
    ensures 'D' !in PacGenerator.ScriptLoopIf
  {
  }

  lemma ScriptLoopInnerLacksD()
    ensures 'D' !in PacGenerator.ScriptLoopInner
  {
    ScriptLoopForLacksD();
    ScriptLoopIfLacksD();
  }

  lemma ScriptLoopClean()
    ensures Absent(PacGenerator.ScriptLoop, DOMAINS_VAR) && PacGenerator.ScriptLoop[0] == ';'
  {
    ScriptLoopOuterLacksD();
    ScriptLoopInnerLacksD();
    AbsentMissingChar(PacGenerator.ScriptLoop, DOMAINS_VAR, 'D');
  }

  lemma ScriptDirectClean()
    ensures Absent(PacGenerator.ScriptDirect, DOMAINS_VAR) && PacGenerator.ScriptDirect[0] == ' '
  {
    AbsentMissingChar(PacGenerator.ScriptDirect, DOMAINS_VAR, 'x');
  }

  lemma PacScriptClean(rules: seq<PacGenerator.Rule>)
    requires CleanRules(rules)
    ensures !Contains(PacGenerator.PacScript(rules), DOMAINS_VAR)
  {
    var w := DOMAINS_VAR;
    var head := PacGenerator.ScriptHead;
    var body := PacGenerator.PrettyRules(rules);
    PrettyRulesClean(rules);
    ScriptHeadClean();
    ScriptLoopClean();
    ScriptDirectClean();
    AbsentConcatRight(head, body, w);
    AbsentConcatRight(head + body, PacGenerator.ScriptLoop, w);
    AbsentConcatRight(head + body + PacGenerator.ScriptLoop, PacGenerator.ScriptDirect, w);
    AbsentNotContains(PacGenerator.PacScript(rules), w);
  }

  lemma ProxyClean(proxyHost: string, v: HostConfigs.HostConfigView)
    requires CleanText(proxyHost)
    ensures CleanText(PacGenerator.ProxyOf(proxyHost, v))
  {
    var port := if v.proxyServicePort.Some? then IntToString(v.proxyServicePort.value) else "null";
    assert PacGenerator.ProxyOf(proxyHost, v) == "SOCKS5 " + proxyHost + ":" + port;
    assert JsonText.Plain(port) && 'D' !in port;
    SocksClean(proxyHost, port);
  }

  /** `SOCKS5 <host>:<port>` is clean when the host is and the port holds no quote, backslash or 'D'. */
  lemma SocksClean(proxyHost: string, port: string)
    requires CleanText(proxyHost) && JsonText.Plain(port) && 'D' !in port && |port| > 0
    ensures CleanText("SOCKS5 " + proxyHost + ":" + port)
  {
    var w := DOMAINS_VAR;
    var a := "SOCKS5 " + proxyHost;
    var b := a + ":";
    PlainConcat("SOCKS5 ", proxyHost);
    PlainConcat(a, ":");
    PlainConcat(b, port);
    AbsentNotContains(proxyHost, w);
    AbsentMissingChar("SOCKS5 ", w, 'D');
    AbsentConcatLeft("SOCKS5 ", proxyHost, w);
    AbsentMissingChar(":", w, 'D');
    AbsentConcatRight(a, ":", w);
    AbsentMissingChar(port, w, 'D');
    AbsentConcatLeft(b, port, w);
    AbsentNotContains(b + port, w);
  }

  lemma ConfigRulesClean(proxyHost: string, running: seq<ProxyServices.ProxyService>,
                         views: seq<HostConfigs.HostConfigView>)
    requires CleanText(proxyHost)
    requires forall k, j :: 0 <= k < |views| && 0 <= j < |views[k].hosts| ==> CleanText(views[k].hosts[j])
    ensures CleanRules(PacGenerator.ConfigFor(proxyHost, running, views).proxyRules)
  {
    var rules := PacGenerator.ConfigFor(proxyHost, running, views).proxyRules;
    PacGenerator.ConfigProxies(proxyHost, running, views);
    forall i | 0 <= i < |rules|
      ensures CleanText(rules[i].proxy) && forall j :: 0 <= j < |rules[i].domains| ==> CleanText(rules[i].domains[j])
    {
      var k :| 0 <= k < |views| && PacGenerator.Qualifies(views[k]) &&
               rules[i].proxy == PacGenerator.ProxyOf(proxyHost, views[k]);
      ProxyClean(proxyHost, views[k]);
      forall j | 0 <= j < |rules[i].domains| ensures CleanText(rules[i].domains[j]) {
        var d := rules[i].domains[j];
        assert PacGenerator.InRules(rules, d);
        PacGenerator.ConfigDomains(proxyHost, running, views, d);
        var m :| 0 <= m < |views| && PacGenerator.Qualifies(views[m]) && d in views[m].hosts;
        var t :| 0 <= t < |views[m].hosts| && views[m].hosts[t] == d;
      }
    }
  }

  /**
   * The script generatePACFile writes declares `var proxyRules`, so reading hosts back out of it
   * gives [] whenever the proxy host and the configured hosts are plain text that does not itself
   * spell proxyDomains.
   */
  lemma GeneratedScriptHasNoHosts(proxyHost: string, running: seq<ProxyServices.ProxyService>,
                                  views: seq<HostConfigs.HostConfigView>)
    requires CleanText(proxyHost)
    requires forall k, j :: 0 <= k < |views| && 0 <= j < |views[k].hosts| ==> CleanText(views[k].hosts[j])
    ensures HostsFromPac(PacGenerator.PacScript(PacGenerator.ConfigFor(proxyHost, running, views).proxyRules)) == []
  {
    ConfigRulesClean(proxyHost, running, views);
    PacScriptClean(PacGenerator.ConfigFor(proxyHost, running, views).proxyRules);
    NoDeclarationNoHosts(PacGenerator.PacScript(PacGenerator.ConfigFor(proxyHost, running, views).proxyRules));
  }
}
