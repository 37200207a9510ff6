/**
 * The JSON text of a list of strings, as JSON.stringify writes it and
 * JSON.parse reads it back. The host lists of host configurations are
 * stored in this form, and the PAC script embeds its rules in it.
 */
module JsonText {
  import opened Common

  function HexDigit(d: nat): char
    requires d < 16
  {
    if d < 10 then DigitChar(d) else (87 + d) as char
  }

  function HexValue(c: char): Option<nat>
  {
    if '0' <= c <= '9' then Some(c as int - '0' as int)
    else if 'a' <= c <= 'f' then Some(c as int - 'a' as int + 10)
    else if 'A' <= c <= 'F' then Some(c as int - 'A' as int + 10)
    else None
  }

  /** How JSON.stringify writes one character inside a string literal. */
  function EscapeChar(c: char): string
  {
    if c == '"' then "\\\""
    else if c == '\\' then "\\\\"
    else if c == '\U{0008}' then "\\b"
    else if c == '\U{000C}' then "\\f"
    else if c == '\n' then "\\n"
    else if c == '\r' then "\\r"
    else if c == '\t' then "\\t"
    else if c < ' ' then "\\u00" + [HexDigit(c as int / 16), HexDigit(c as int % 16)]
    else [c]
  }

  function Escape(s: string): string
    decreases |s|
  {
    if |s| == 0 then "" else EscapeChar(s[0]) + Escape(s[1..])
  }

  /** JSON.stringify of a string. */
  function Quote(s: string): string
  {
    "\"" + Escape(s) + "\""
  }

  /** Text that JSON.stringify writes unchanged inside a literal: no control character, quote or backslash. */
  predicate Plain(s: string)
  {
    forall k :: 0 <= k < |s| ==> s[k] >= ' ' && s[k] != '"' && s[k] != '\\'
  }

  lemma {:induction false} EscapePlain(s: string)
    requires Plain(s)
    ensures Escape(s) == s
    decreases |s|
  {
    if |s| > 0 {
      EscapePlain(s[1..]);
      assert s == [s[0]] + s[1..];
    }
  }

  lemma PlainConcat(a: string, b: string)
    requires Plain(a) && Plain(b)
    ensures Plain(a + b)
  {
  }

  /** The comma-separated literals of a non-empty list. */
  function QuotedList(xs: seq<string>): string
    requires |xs| > 0
    decreases |xs|
  {
    if |xs| == 1 then Quote(xs[0]) else Quote(xs[0]) + "," + QuotedList(xs[1..])
  }

  /** JSON.stringify of an array of strings. */
  function EncodeStringArray(xs: seq<string>): string
  {
    if |xs| == 0 then "[]" else "[" + QuotedList(xs) + "]"
  }

  // ---------------------------------------------------------------------
  // JSON.parse, restricted to an array of strings written without
  // insignificant white space
  // ---------------------------------------------------------------------

  function FourHex(s: string): Option<nat>
    requires |s| >= 4
  {
    match (HexValue(s[0]), HexValue(s[1]), HexValue(s[2]), HexValue(s[3]))
      case (Some(a), Some(b), Some(c), Some(d)) => Some(4096 * a + 256 * b + 16 * c + d)
      case _ => None
  }

  /** The character an escape sequence (after the backslash) stands for. */
  function ParseEscape(s: string): (r: Option<(char, string)>)
    ensures r.Some? ==> |r.value.1| < |s|
  {
    if |s| == 0 then None
    else if s[0] == '"' then Some(('"', s[1..]))
    else if s[0] == '\\' then Some(('\\', s[1..]))
    else if s[0] == '/' then Some(('/', s[1..]))
    else if s[0] == 'b' then Some(('\U{0008}', s[1..]))
    else if s[0] == 'f' then Some(('\U{000C}', s[1..]))
    else if s[0] == 'n' then Some(('\n', s[1..]))
    else if s[0] == 'r' then Some(('\r', s[1..]))
    else if s[0] == 't' then Some(('\t', s[1..]))
    else if s[0] == 'u' && |s| >= 5 then
      match FourHex(s[1..5])
        case Some(v) =>
          if v < 0xD800 || (0xE000 <= v < 0x11_0000) then Some((v as char, s[5..])) else None
        case None => None
    else None
  }

  /** Reads the body of a string literal up to its closing quote. */
  function ParseBody(s: string): (r: Option<(string, string)>)
    ensures r.Some? ==> |r.value.1| < |s|
    decreases |s|
  {
    if |s| == 0 then None
    else if s[0] == '"' then Some(("", s[1..]))
    else if s[0] == '\\' then
      match ParseEscape(s[1..])
        case None => None
        case Some((c, after)) =>
          match ParseBody(after)
            case None => None
            case Some((t, rest)) => Some(([c] + t, rest))
    else if s[0] < ' ' then None
    else
      match ParseBody(s[1..])
        case None => None
        case Some((t, rest)) => Some(([s[0]] + t, rest))
  }

  /** Reads `"..."` followed by `,"..."` items and the closing bracket. */
  function ParseItems(s: string): Option<seq<string>>
    decreases |s|, 1
  {
    if |s| == 0 || s[0] != '"' then None
    else
      match ParseBody(s[1..])
        case None => None
        case Some((x, rest)) => ItemsAfter(x, rest)
  }

  /** What follows item `x`: the closing bracket, or a comma and more items. */
  function ItemsAfter(x: string, rest: string): Option<seq<string>>
    decreases |rest|, 0
  {
    if rest == "]" then Some([x])
    else if |rest| > 0 && rest[0] == ',' then
      match ParseItems(rest[1..])
        case None => None
        case Some(xs) => Some([x] + xs)
    else None
  }

  /** JSON.parse of the text of an array of strings; None where JSON.parse would throw. */
  function DecodeStringArray(s: string): Option<seq<string>>
  {
    if s == "[]" then Some([])
    else if |s| > 0 && s[0] == '[' then ParseItems(s[1..])
    else None
  }

  // ---------------------------------------------------------------------
  // Round trip
  // ---------------------------------------------------------------------

  lemma HexRoundTrip(d: nat)
    requires d < 16
    ensures HexValue(HexDigit(d)) == Some(d)
  {
  }

  lemma EscapeCharRoundTrip(c: char, t: string)
    ensures ParseBody(EscapeChar(c) + t) ==
      match ParseBody(t)
        case None => None
        case Some((u, rest)) => Some(([c] + u, rest))
  {
    var e := EscapeChar(c);
    if c == '"' || c == '\\' || c == '\U{0008}' || c == '\U{000C}' || c == '\n' || c == '\r' || c == '\t' {
      assert (e + t)[1..] == [e[1]] + t;
      assert ([e[1]] + t)[1..] == t;
    } else if c < ' ' {
      var hi, lo := c as int / 16, c as int % 16;
      HexRoundTrip(hi);
      HexRoundTrip(lo);
      var s := e + t;
      assert s[1..] == "u00" + [HexDigit(hi), HexDigit(lo)] + t;
      assert s[1..][1..5] == "00" + [HexDigit(hi), HexDigit(lo)];
      assert FourHex(s[1..][1..5]) == Some(c as int);
      assert s[1..][5..] == t;
    } else {
      assert (e + t)[1..] == t;
    }
  }

  lemma {:induction false} BodyRoundTrip(x: string, rest: string)
    ensures ParseBody(Escape(x) + "\"" + rest) == Some((x, rest))
    decreases |x|
  {
    if |x| == 0 {
      assert Escape(x) + "\"" + rest == "\"" + rest;
    } else {
      BodyRoundTrip(x[1..], rest);
      assert Escape(x) + "\"" + rest == EscapeChar(x[0]) + (Escape(x[1..]) + "\"" + rest);
      EscapeCharRoundTrip(x[0], Escape(x[1..]) + "\"" + rest);
      assert [x[0]] + x[1..] == x;
    }
  }

  lemma ItemsStep(x: string, tail: string)
    ensures ParseItems("\"" + Escape(x) + "\"" + tail) == ItemsAfter(x, tail)
  {
    var s := "\"" + Escape(x) + "\"" + tail;
    assert s[0] == '"';
    assert s[1..] == Escape(x) + "\"" + tail;
    BodyRoundTrip(x, tail);
  }

  lemma {:induction false} ItemsRoundTrip(xs: seq<string>)
    requires |xs| > 0
    ensures ParseItems(QuotedList(xs) + "]") == Some(xs)
    decreases |xs|
  {
    if |xs| == 1 {
      assert QuotedList(xs) + "]" == "\"" + Escape(xs[0]) + "\"" + "]";
      ItemsStep(xs[0], "]");
      assert xs == [xs[0]];
    } else {
      var next := QuotedList(xs[1..]) + "]";
      var tail := "," + next;
      assert QuotedList(xs) + "]" == "\"" + Escape(xs[0]) + "\"" + tail;
      ItemsStep(xs[0], tail);
      ItemsRoundTrip(xs[1..]);
      ItemsAfterComma(xs[0], next);
      assert [xs[0]] + xs[1..] == xs;
    }
  }

  /** After a comma, the item list continues with whatever the rest parses to. */
  lemma ItemsAfterComma(x: string, t: string)
    ensures ItemsAfter(x, "," + t) == match ParseItems(t) case None => None case Some(xs) => Some([x] + xs)
  {
    var rest := "," + t;
    assert rest[0] == ',' && "]"[0] == ']';
    assert rest[1..] == t;
  }

  /** JSON.parse(JSON.stringify(xs)) gives back xs, for every list of strings. */
  lemma StringArrayRoundTrip(xs: seq<string>)
    ensures DecodeStringArray(EncodeStringArray(xs)) == Some(xs)
  {
    if |xs| > 0 {
      var s := EncodeStringArray(xs);
      assert s == "[" + (QuotedList(xs) + "]");
      assert s != "[]" by {
        assert |QuotedList(xs)| >= 2 by { QuotedListNonEmpty(xs); }
      }
      assert s[1..] == QuotedList(xs) + "]";
      ItemsRoundTrip(xs);
    }
  }

  lemma QuotedListNonEmpty(xs: seq<string>)
    requires |xs| > 0
    ensures |QuotedList(xs)| >= 2
  {
  }
}
