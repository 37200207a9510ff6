/**
 * The client side of the service-start log stream
 * (server/front-end/src/api/proxy-services.js, connectProxyService): a
 * line buffer over the decoded response text that dispatches the `data: `
 * lines of the server-sent event stream (a subset of the WHATWG HTML Living
 * Standard, section 9.2) to the caller's callbacks. JSON.parse is a
 * parameter; the callbacks are recorded as a sequence of events.
 */
module SseParser {
  import opened Common

  /** A parsed payload: `level` and `message` ("" when absent or empty) and `success`, when defined. */
  datatype Frame = Frame(level: string, message: string, success: Option<bool>)

  /** The callbacks, in the order they were called. */
  datatype Event = Log(level: string, message: string) | Completed(frame: Frame) | Failed(error: string)

  /** How the returned promise settled. */
  datatype Settled = Resolved | Rejected(error: string)

  const Prefix := "data: "

  predicate IsDataLine(line: string)
  {
    |Trim(line)| > 0 && StartsWith(line, Prefix)
  }

  /** The complete lines of the buffered text: everything before the last newline, split at newlines. */
  function CompleteLines(s: string): seq<string>
  {
    var lines := Split(s, '\n');
    lines[..|lines| - 1]
  }

  /** The incomplete last line the buffer keeps. */
  function Tail(s: string): string
  {
    var lines := Split(s, '\n');
    lines[|lines| - 1]
  }

  /** One complete line: a data line whose payload parses goes to onLog when it has a level and a message, else to onComplete when it has a success flag. */
  function Handle(line: string, parse: string -> Option<Frame>): (r: seq<Event>)
    ensures |r| <= 1
    ensures |r| == 1 ==> IsDataLine(line) && parse(line[|Prefix|..]).Some?
    ensures |r| == 1 && r[0].Log? ==> r[0] == Log(parse(line[|Prefix|..]).value.level, parse(line[|Prefix|..]).value.message)
    ensures |r| == 1 && r[0].Completed? ==>
      r[0].frame == parse(line[|Prefix|..]).value && r[0].frame.success.Some? &&
      (|r[0].frame.level| == 0 || |r[0].frame.message| == 0)
    ensures |r| == 1 ==> !r[0].Failed?
  {
    if IsDataLine(line) then
      match parse(line[|Prefix|..])
        case None => []
        case Some(f) =>
          if |f.level| > 0 && |f.message| > 0 then [Log(f.level, f.message)]
          else if f.success.Some? then [Completed(f)]
          else []
    else []
  }

  /** The events of a run of complete lines, in order. */
  function Dispatch(lines: seq<string>, parse: string -> Option<Frame>): seq<Event>
  {
    if |lines| == 0 then [] else Dispatch(lines[..|lines| - 1], parse) + Handle(lines[|lines| - 1], parse)
  }

  /** The events of one leftover line: a completion only for a data line whose payload has a success flag. */
  function LeftoverLine(line: string, parse: string -> Option<Frame>): seq<Event>
  {
    if StartsWith(line, Prefix) && parse(line[|Prefix|..]).Some? && parse(line[|Prefix|..]).value.success.Some?
    then [Completed(parse(line[|Prefix|..]).value)] else []
  }

  /** The events of the leftover buffer at end of stream, line by line. */
  function Leftover(lines: seq<string>, parse: string -> Option<Frame>): seq<Event>
  {
    if |lines| == 0 then [] else Leftover(lines[..|lines| - 1], parse) + LeftoverLine(lines[|lines| - 1], parse)
  }

  predicate NonBlank(line: string)
  {
    |Trim(line)| > 0
  }

  predicate AnyCompleted(events: seq<Event>)
  {
    exists k :: 0 <= k < |events| && events[k].Completed?
  }

  /** Dispatching two runs of lines is dispatching each in turn. */
  lemma {:induction false} DispatchAppend(a: seq<string>, b: seq<string>, parse: string -> Option<Frame>)
    ensures Dispatch(a + b, parse) == Dispatch(a, parse) + Dispatch(b, parse)
    decreases |b|
  {
    if |b| > 0 {
      var b' := b[..|b| - 1];
      assert (a + b)[..|a + b| - 1] == a + b';
      assert (a + b)[|a + b| - 1] == b[|b| - 1];
      DispatchAppend(a, b', parse);
      assert Dispatch(a + b, parse) == Dispatch(a + b', parse) + Handle(b[|b| - 1], parse);
      assert Dispatch(b, parse) == Dispatch(b', parse) + Handle(b[|b| - 1], parse);
    } else {
      assert a + b == a;
    }
  }

  /** Splitting a concatenation: the complete lines of the first part, then the split of its tail followed by the second part. */
  lemma {:induction false} SplitConcat(a: string, b: string, c: char)
    ensures SplitsAcross(a, b, c)
    decreases |a|
  {
    if |a| > 0 {
      SplitConcat(a[1..], b, c);
      SplitConcatStep(a, b, c);
    } else {
      assert a + b == b;
    }
  }

  /** The equation SplitConcat proves, for one pair of parts. */
  predicate SplitsAcross(a: string, b: string, c: char)
  {
    var p := Split(a, c);
    Split(a + b, c) == p[..|p| - 1] + Split(p[|p| - 1] + b, c)
  }

  /** The equation carries over from a string without its first character to the whole string. */
  lemma SplitConcatStep(a: string, b: string, c: char)
    requires |a| > 0 && SplitsAcross(a[1..], b, c)
    ensures SplitsAcross(a, b, c)
  {
    var x := a[0];
    var p := Split(a, c);
    var q := Split(a[1..], c);
    var qt := Split(q[|q| - 1] + b, c);
    var pt := Split(p[|p| - 1] + b, c);
    SplitFirst(a, c);
    assert (a + b)[1..] == a[1..] + b && (a + b)[0] == x;
    SplitFirst(a + b, c);
    SplitTail(x, c, q, p, b);
    ConsAlgebra(x, c, q, Split(a[1..] + b, c), p, Split(a + b, c), qt, pt);
  }

  /** One step of Split, for a non-empty string. */
  lemma SplitFirst(s: string, c: char)
    requires |s| > 0
    ensures var r := Split(s[1..], c);
      Split(s, c) == if s[0] == c then [""] + r else [[s[0]] + r[0]] + r[1..]
  {
  }

  /** The last part of the split of `[x] + a[1..]`, followed by `b`, splits as SplitConcatStep needs. */
  lemma SplitTail(x: char, c: char, q: seq<string>, p: seq<string>, b: string)
    requires |q| > 0
    requires p == if x == c then [""] + q else [[x] + q[0]] + q[1..]
    ensures var qt, pt := Split(q[|q| - 1] + b, c), Split(p[|p| - 1] + b, c);
      (x != c && |q| == 1 ==> pt == [[x] + qt[0]] + qt[1..]) && (x == c || |q| > 1 ==> pt == qt)
  {
    if x != c && |q| == 1 {
      var t := p[|p| - 1] + b;
      assert t[0] == x && t[1..] == q[0] + b;
      SplitFirst(t, c);
    } else {
      assert p[|p| - 1] == q[|q| - 1];
    }
  }

  /** The sequence algebra of SplitConcatStep, with every split named. */
  lemma ConsAlgebra(x: char, c: char, q: seq<string>, r: seq<string>, p: seq<string>, ab: seq<string>,
                    qt: seq<string>, pt: seq<string>)
    requires |q| > 0 && |qt| > 0
    requires r == q[..|q| - 1] + qt
    requires p == if x == c then [""] + q else [[x] + q[0]] + q[1..]
    requires ab == if x == c then [""] + r else [[x] + r[0]] + r[1..]
    requires x != c && |q| == 1 ==> pt == [[x] + qt[0]] + qt[1..]
    requires x == c || |q| > 1 ==> pt == qt
    ensures ab == p[..|p| - 1] + pt
  {
    if x == c {
      assert p[..|p| - 1] == [""] + q[..|q| - 1];
    } else if |q| > 1 {
      assert p[..|p| - 1] == [[x] + q[0]] + q[1..|q| - 1];
    } else {
      assert r == qt;
    }
  }

  /** The buffer never holds a newline, and the complete lines, the newlines and the tail spell the text exactly. */
  lemma LinesSpell(s: string)
    ensures '\n' !in Tail(s)
    ensures forall k :: 0 <= k < |CompleteLines(s)| ==> '\n' !in CompleteLines(s)[k]
    ensures Join(CompleteLines(s) + [Tail(s)], "\n") == s
  {
    SplitJoin(s, '\n');
    var lines := Split(s, '\n');
    assert CompleteLines(s) + [Tail(s)] == lines;
  }

  /**
   * Where the chunk boundaries fall does not matter: reading `t1` then `t2` leaves the same buffer and
   * completes the same lines as reading `t1 + t2` at once.
   */
  lemma ChunkBoundaries(buffer: string, t1: string, t2: string)
    ensures Tail(Tail(buffer + t1) + t2) == Tail(buffer + t1 + t2)
    ensures CompleteLines(buffer + t1) + CompleteLines(Tail(buffer + t1) + t2) == CompleteLines(buffer + t1 + t2)
  {
    SplitConcat(buffer + t1, t2, '\n');
    var p := Split(buffer + t1, '\n');
    var q := Split(Tail(buffer + t1) + t2, '\n');
    assert Split(buffer + t1 + t2, '\n') == p[..|p| - 1] + q;
    assert (p[..|p| - 1] + q)[..|p[..|p| - 1] + q| - 1] == p[..|p| - 1] + q[..|q| - 1];
  }

  /** So reading in two chunks dispatches exactly the events of reading in one. */
  lemma ChunkBoundariesDispatch(buffer: string, t1: string, t2: string, parse: string -> Option<Frame>)
    ensures Dispatch(CompleteLines(buffer + t1), parse) + Dispatch(CompleteLines(Tail(buffer + t1) + t2), parse) ==
            Dispatch(CompleteLines(buffer + t1 + t2), parse)
  {
    ChunkBoundaries(buffer, t1, t2);
    DispatchAppend(CompleteLines(buffer + t1), CompleteLines(Tail(buffer + t1) + t2), parse);
  }

  /**
   * A frame as the server writes it, `data: <json>\n\n`, read into an empty buffer, yields exactly one
   * dispatch for a log payload with a level and a message, and none for one whose message is empty.
   */
  lemma ServerFrame(json: string, parse: string -> Option<Frame>, level: string, message: string)
    requires '\n' !in json && parse(json) == Some(Frame(level, message, None))
    ensures Tail("" + Prefix + json + "\n\n") == ""
    ensures Dispatch(CompleteLines("" + Prefix + json + "\n\n"), parse) ==
      (if |level| > 0 && |message| > 0 then [Log(level, message)] else [])
  {
    ServerFrameLines(json);
    ServerFrameDispatch(json, parse, level, message);
  }

  /** The frame splits into its data line and the blank line that ends it, leaving nothing buffered. */
  lemma ServerFrameLines(json: string)
    requires '\n' !in json
    ensures Tail("" + Prefix + json + "\n\n") == ""
    ensures CompleteLines("" + Prefix + json + "\n\n") == [Prefix + json, ""]
  {
    var line := Prefix + json;
    var s := "" + Prefix + json + "\n\n";
    assert '\n' !in line by {
      assert forall k :: 0 <= k < |Prefix| ==> line[k] == Prefix[k];
      assert forall k :: |Prefix| <= k < |line| ==> line[k] == json[k - |Prefix|];
    }
    assert s == line + ['\n'] + ("" + ['\n'] + "");
    SplitAfter(line, "" + ['\n'] + "", '\n');
    SplitAfter("", "", '\n');
    assert Split("", '\n') == [""];
    assert Split(s, '\n') == [line, "", ""];
  }

  /** The data line is handled as the parsed payload and the blank line adds nothing. */
  lemma ServerFrameDispatch(json: string, parse: string -> Option<Frame>, level: string, message: string)
    requires parse(json) == Some(Frame(level, message, None))
    ensures Dispatch([Prefix + json, ""], parse) ==
      (if |level| > 0 && |message| > 0 then [Log(level, message)] else [])
  {
    var line := Prefix + json;
    assert line[|Prefix|..] == json;
    assert StartsWith(line, Prefix) && |Trim(line)| > 0 by {
      assert line[..|Prefix|] == Prefix;
      TrimStartsAt(line);
    }
    assert Dispatch([line, ""], parse) == Dispatch([line], parse) + Handle("", parse);
    assert [line, ""][..1] == [line];
    assert Dispatch([line], parse) == Dispatch([], parse) + Handle(line, parse);
  }

  /** A string starting with a non-space character does not trim to nothing. */
  lemma TrimStartsAt(s: string)
    requires |s| > 0 && !IsSpace(s[0])
    ensures |Trim(s)| > 0
  {
    assert TrimStart(s) == s;
    assert !IsSpace(s[0]);
  }

  /** At end of stream, the leftover buffer yields only completions, each carrying a success flag. */
  lemma LeftoverOnlyCompletes(lines: seq<string>, parse: string -> Option<Frame>)
    ensures forall k :: 0 <= k < |Leftover(lines, parse)| ==>
      Leftover(lines, parse)[k].Completed? && Leftover(lines, parse)[k].frame.success.Some?
    decreases |lines|
  {
    if |lines| > 0 {
      LeftoverOnlyCompletes(lines[..|lines| - 1], parse);
    }
  }

  lemma DispatchStep(lines: seq<string>, i: nat, parse: string -> Option<Frame>)
    requires i < |lines|
    ensures Dispatch(lines[..i + 1], parse) == Dispatch(lines[..i], parse) + Handle(lines[i], parse)
  {
    assert lines[..i + 1][..i] == lines[..i];
  }

  lemma LeftoverStep(lines: seq<string>, i: nat, parse: string -> Option<Frame>)
    requires i < |lines|
    ensures Leftover(lines[..i + 1], parse) == Leftover(lines[..i], parse) + LeftoverLine(lines[i], parse)
  {
    assert lines[..i + 1][..i] == lines[..i];
  }

  /** One more line keeps the dispatch loop's invariant. */
  lemma {:induction false} DispatchLoopStep(lines: seq<string>, i: nat, parse: string -> Option<Frame>,
                         events0: seq<Event>, completed0: bool, events1: seq<Event>, completed1: bool,
                         events2: seq<Event>, completed2: bool)
    requires i < |lines|
    requires events1 == events0 + Dispatch(lines[..i], parse)
    requires completed1 == (completed0 || AnyCompleted(Dispatch(lines[..i], parse)))
    requires events2 == events1 + Handle(lines[i], parse)
    requires completed2 == (completed1 || AnyCompleted(Handle(lines[i], parse)))
    ensures events2 == events0 + Dispatch(lines[..i + 1], parse)
    ensures completed2 == (completed0 || AnyCompleted(Dispatch(lines[..i + 1], parse)))
  {
    DispatchStep(lines, i, parse);
    EventsAppend(events0, Dispatch(lines[..i], parse), Handle(lines[i], parse), completed0);
  }

  /** Collecting two runs of events one after the other is collecting their concatenation. */
  lemma EventsAppend(events0: seq<Event>, d: seq<Event>, h: seq<Event>, completed0: bool)
    ensures (events0 + d) + h == events0 + (d + h)
    ensures ((completed0 || AnyCompleted(d)) || AnyCompleted(h)) == (completed0 || AnyCompleted(d + h))
  {
    AnyCompletedAppend(d, h);
  }

  lemma AnyCompletedAppend(a: seq<Event>, b: seq<Event>)
    ensures AnyCompleted(a + b) <==> AnyCompleted(a) || AnyCompleted(b)
  {
    if AnyCompleted(a) {
      var k :| 0 <= k < |a| && a[k].Completed?;
      assert (a + b)[k] == a[k];
    }
    if AnyCompleted(b) {
      var k :| 0 <= k < |b| && b[k].Completed?;
      assert (a + b)[|a| + k] == b[k];
    }
    if AnyCompleted(a + b) {
      var k :| 0 <= k < |a + b| && (a + b)[k].Completed?;
      if k >= |a| {
        assert b[k - |a|] == (a + b)[k];
      } else {
        assert a[k] == (a + b)[k];
      }
    }
  }

  /** One call of connectProxyService, from the moment the response body is being read. */
  class Reader {
    var buffer: string
    var completed: bool
    var events: seq<Event>
    var settled: Option<Settled>

    constructor()
      ensures buffer == "" && !completed && events == [] && settled.None?
    {
      buffer := "";
      completed := false;
      events := [];
      settled := None;
    }

    /**
     * A chunk of decoded text: the buffer takes the text, the complete lines are dispatched in order
     * and the buffer keeps only the text after the last newline.
     */
    method Receive(text: string, parse: string -> Option<Frame>)
      modifies this
      ensures buffer == Tail(old(buffer) + text)
      ensures events == old(events) + Dispatch(CompleteLines(old(buffer) + text), parse)
      ensures completed == (old(completed) || AnyCompleted(Dispatch(CompleteLines(old(buffer) + text), parse)))
      ensures settled == old(settled)
    {
      buffer := buffer + text;
      var lines := Split(buffer, '\n');
      buffer := lines[|lines| - 1];
      DispatchLines(lines[..|lines| - 1], parse);
    }

    /** The complete lines of one chunk, in order. */
    method DispatchLines(lines: seq<string>, parse: string -> Option<Frame>)
      modifies this
      ensures events == old(events) + Dispatch(lines, parse)
      ensures completed == (old(completed) || AnyCompleted(Dispatch(lines, parse)))
      ensures buffer == old(buffer) && settled == old(settled)
    {
      ghost var events0, completed0 := events, completed;
      var i := 0;
      while i < |lines|
        invariant 0 <= i <= |lines|
        invariant events == events0 + Dispatch(lines[..i], parse)
        invariant completed == (completed0 || AnyCompleted(Dispatch(lines[..i], parse)))
        invariant buffer == old(buffer) && settled == old(settled)
      {
        ghost var events1, completed1 := events, completed;
        DispatchLine(lines[i], parse);
        DispatchLoopStep(lines, i, parse, events0, completed0, events1, completed1, events, completed);
        i := i + 1;
      }
      assert lines[..i] == lines;
    }

    /** One complete line: onLog for a level and a message, else onComplete for a success flag; a payload that does not parse is skipped. */
    method DispatchLine(line: string, parse: string -> Option<Frame>)
      modifies this
      ensures events == old(events) + Handle(line, parse)
      ensures completed == (old(completed) || AnyCompleted(Handle(line, parse)))
      ensures buffer == old(buffer) && settled == old(settled)
    {
      if |Trim(line)| > 0 && StartsWith(line, Prefix) {
        var parsed := parse(line[6..]);
        if parsed.Some? {
          if |parsed.value.level| > 0 && |parsed.value.message| > 0 {
            events := events + [Log(parsed.value.level, parsed.value.message)];
          } else if parsed.value.success.Some? {
            events := events + [Completed(parsed.value)];
            completed := true;
            assert Handle(line, parse)[0].Completed?;
          }
        }
      }
    }

    /**
     * End of stream. When nothing completed yet and the buffer is not blank, its non-blank lines that are
     * data lines with a success flag go to onComplete; the promise resolves.
     */
    method End(parse: string -> Option<Frame>)
      modifies this
      ensures settled == Some(Resolved) && buffer == old(buffer)
      ensures old(completed) || |Trim(old(buffer))| == 0 ==> events == old(events) && completed == old(completed)
      ensures !old(completed) && |Trim(old(buffer))| > 0 ==>
        events == old(events) + Leftover(Filter(Split(old(buffer), '\n'), NonBlank), parse) &&
        completed == AnyCompleted(Leftover(Filter(Split(old(buffer), '\n'), NonBlank), parse))
    {
      if !completed && |Trim(buffer)| > 0 {
        var lines := Filter(Split(buffer, '\n'), NonBlank);
        FinishLines(lines, parse);
      }
      settled := Some(Resolved);
    }

    /** The non-blank lines left in the buffer at end of stream, in order. */
    method FinishLines(lines: seq<string>, parse: string -> Option<Frame>)
      modifies this
      ensures events == old(events) + Leftover(lines, parse)
      ensures completed == (old(completed) || AnyCompleted(Leftover(lines, parse)))
      ensures buffer == old(buffer) && settled == old(settled)
    {
      var i := 0;
      while i < |lines|
        invariant 0 <= i <= |lines|
        invariant events == old(events) + Leftover(lines[..i], parse)
        invariant completed == (old(completed) || AnyCompleted(Leftover(lines[..i], parse)))
        invariant buffer == old(buffer) && settled == old(settled)
      {
        ghost var before := Leftover(lines[..i], parse);
        FinishLine(lines[i], parse);
        LeftoverStep(lines, i, parse);
        AnyCompletedAppend(before, LeftoverLine(lines[i], parse));
        i := i + 1;
      }
      assert lines[..i] == lines;
    }

    /** One leftover line: onComplete only for a data line whose payload carries a success flag. */
    method FinishLine(line: string, parse: string -> Option<Frame>)
      modifies this
      ensures events == old(events) + LeftoverLine(line, parse)
      ensures completed == (old(completed) || AnyCompleted(LeftoverLine(line, parse)))
      ensures buffer == old(buffer) && settled == old(settled)
    {
      if StartsWith(line, Prefix) {
        var parsed := parse(line[6..]);
        if parsed.Some? && parsed.value.success.Some? {
          events := events + [Completed(parsed.value)];
          completed := true;
          assert LeftoverLine(line, parse)[0].Completed?;
        }
      }
    }

    /**
     * A failed read. An abort resolves quietly; any other error goes to onError and rejects, unless the
     * stream already completed, in which case it is dropped and the promise stays unsettled.
     */
    method ReadFailed(isAbort: bool, error: string)
      modifies this
      ensures buffer == old(buffer) && completed == old(completed)
      ensures isAbort ==> settled == Some(Resolved) && events == old(events)
      ensures !isAbort && !old(completed) ==> settled == Some(Rejected(error)) && events == old(events) + [Failed(error)]
      ensures !isAbort && old(completed) ==> settled == old(settled) && events == old(events)
    {
      if isAbort {
        settled := Some(Resolved);
        return;
      }
      if !completed {
        events := events + [Failed(error)];
        settled := Some(Rejected(error));
      }
    }

    /** The request itself failed (HTTP error, no body): onError and reject, unless it was aborted. */
    method RequestFailed(isAbort: bool, error: string)
      modifies this
      ensures buffer == old(buffer) && completed == old(completed)
      ensures isAbort ==> settled == Some(Resolved) && events == old(events)
      ensures !isAbort ==> settled == Some(Rejected(error)) && events == old(events) + [Failed(error)]
    {
      if isAbort {
        settled := Some(Resolved);
        return;
      }
      events := events + [Failed(error)];
      settled := Some(Rejected(error));
    }
  }
}
