/**
 * Shared vocabulary of the model: optional values, the JavaScript string
 * operations the repository relies on (startsWith, endsWith, includes,
 * trim, toLowerCase, split, join), decimal rendering of numbers and the
 * stable sort that Array.prototype.sort performs.
 */
module Common {

  datatype Option<T> = None | Some(value: T)

  /** What an HTTP handler answers: a success with its payload, or an error status with the body's error code. */
  datatype Reply<T> = Success(data: T) | Failure(status: nat, code: string)

  /** The outcome of a call into code outside the model: its value, or an exception. */
  datatype Outcome<T> = Done(value: T) | Threw

  /** A promise that resolves with a value or rejects with an Error carrying a message. */
  datatype Result<T> = Ok(value: T) | Err(message: string)

  /** JavaScript truthiness of an optional number: present and not zero. */
  predicate Truthy(n: Option<int>)
  {
    n.Some? && n.value != 0
  }

  /** `text || fallback`: the text when it is non-empty, else the fallback. */
  function Or(text: string, fallback: string): (r: string)
    ensures |text| > 0 ==> r == text
    ensures |text| == 0 ==> r == fallback
    ensures |fallback| > 0 ==> |r| > 0
  {
    if |text| > 0 then text else fallback
  }

  // ---------------------------------------------------------------------
  // Prefixes, suffixes and substrings
  // ---------------------------------------------------------------------

  predicate StartsWith(s: string, p: string)
  {
    |p| <= |s| && s[..|p|] == p
  }

  predicate EndsWith(s: string, p: string)
  {
    |p| <= |s| && s[|s| - |p|..] == p
  }

  /** String.prototype.includes: `w` occurs in `s` at some position. */
  predicate Contains(s: string, w: string)
    decreases |s|
  {
    StartsWith(s, w) || (|s| > 0 && Contains(s[1..], w))
  }

  /** Index of the first occurrence of `w` in `s` (indexOf), if any. */
  function IndexOf(s: string, w: string): (r: Option<nat>)
    ensures r.Some? ==> r.value + |w| <= |s| && s[r.value..r.value + |w|] == w
    decreases |s|
  {
    if StartsWith(s, w) then Some(0)
    else if |s| == 0 then None
    else match IndexOf(s[1..], w)
      case None => None
      case Some(i) => Some(i + 1)
  }

  lemma {:induction false} IndexOfFinds(s: string, w: string)
    ensures IndexOf(s, w).Some? <==> Contains(s, w)
    ensures IndexOf(s, w).Some? ==>
      forall j :: 0 <= j < IndexOf(s, w).value ==> !StartsWith(s[j..], w)
    decreases |s|
  {
    IndexOfContains(s, w);
    if IndexOf(s, w).Some? {
      IndexOfFirst(s, w);
    }
  }

  lemma {:induction false} IndexOfContains(s: string, w: string)
    ensures IndexOf(s, w).Some? <==> Contains(s, w)
    decreases |s|
  {
    if !StartsWith(s, w) && |s| > 0 {
      IndexOfContains(s[1..], w);
    }
  }

  /** No occurrence of `w` starts before the index indexOf reports. */
  lemma {:induction false} IndexOfFirst(s: string, w: string)
    requires IndexOf(s, w).Some?
    ensures forall j :: 0 <= j < IndexOf(s, w).value ==> !StartsWith(s[j..], w)
    decreases |s|
  {
    if !StartsWith(s, w) {
      IndexOfFirst(s[1..], w);
      var i := IndexOf(s[1..], w).value;
      forall j | 0 <= j < i + 1 ensures !StartsWith(s[j..], w) {
        if j > 0 {
          assert s[j..] == s[1..][j - 1..];
        }
      }
    }
  }

  /** indexOf finds `w` at `p` when it occurs there and at no earlier position. */
  lemma IndexOfExact(s: string, w: string, p: nat)
    requires p + |w| <= |s| && s[p..p + |w|] == w
    requires forall k :: 0 <= k < p ==> !StartsWith(s[k..], w)
    ensures IndexOf(s, w) == Some(p)
  {
    ContainsAt(s, w, p);
    IndexOfFinds(s, w);
    var q := IndexOf(s, w).value;
    assert s[p..][..|w|] == s[p..p + |w|];
    assert s[q..][..|w|] == s[q..q + |w|];
  }

  /** indexOf finds `w` right after a prefix that lacks its first character. */
  lemma IndexOfAfter(a: string, w: string, rest: string)
    requires |w| > 0 && w[0] !in a
    ensures IndexOf(a + w + rest, w) == Some(|a|)
  {
    var s := a + w + rest;
    forall k | 0 <= k < |a| ensures !StartsWith(s[k..], w) {
      assert s[k..][0] == a[k];
    }
    assert s[|a|..|a| + |w|] == w;
    IndexOfExact(s, w, |a|);
  }

  lemma {:induction false} ContainsAt(s: string, w: string, i: nat)
    requires i + |w| <= |s| && s[i..i + |w|] == w
    ensures Contains(s, w)
    decreases i
  {
    if i > 0 {
      assert s[1..][i - 1..i - 1 + |w|] == w;
      ContainsAt(s[1..], w, i - 1);
    }
  }

  lemma {:induction false} ContainsWitness(s: string, w: string) returns (i: nat)
    requires Contains(s, w)
    ensures i + |w| <= |s| && s[i..i + |w|] == w
    decreases |s|
  {
    if StartsWith(s, w) {
      i := 0;
    } else {
      var k := ContainsWitness(s[1..], w);
      i := k + 1;
      assert s[i..i + |w|] == s[1..][k..k + |w|];
    }
  }

  /** `w` starts at no position of a text that does not contain it. */
  lemma {:induction false} NotContainsAt(s: string, w: string, i: nat)
    requires !Contains(s, w) && i <= |s|
    ensures !StartsWith(s[i..], w)
    decreases i
  {
    if i == 0 {
      assert s[0..] == s;
    } else {
      assert s[i..] == s[1..][i - 1..];
      NotContainsAt(s[1..], w, i - 1);
    }
  }

  /** A text in which `w` starts at no position does not contain it. */
  lemma {:induction false} NotContainsFromPositions(s: string, w: string)
    requires forall i :: 0 <= i <= |s| ==> !StartsWith(s[i..], w)
    ensures !Contains(s, w)
    decreases |s|
  {
    assert s[0..] == s;
    if |s| > 0 {
      forall i | 0 <= i <= |s[1..]| ensures !StartsWith(s[1..][i..], w) {
        assert s[1..][i..] == s[i + 1..];
      }
      NotContainsFromPositions(s[1..], w);
    }
  }

  /** `w` starts at no position of `s`: the position-wise form of !Contains(s, w). */
  predicate Absent(s: string, w: string)
  {
    forall i :: 0 <= i <= |s| ==> !StartsWith(s[i..], w)
  }

  lemma AbsentNotContains(s: string, w: string)
    ensures Absent(s, w) <==> !Contains(s, w)
  {
    if Absent(s, w) {
      NotContainsFromPositions(s, w);
    }
    if !Contains(s, w) {
      forall i | 0 <= i <= |s| ensures !StartsWith(s[i..], w) {
        NotContainsAt(s, w, i);
      }
    }
  }

  /** A text lacking one of the characters of `w` cannot contain `w`. */
  lemma AbsentMissingChar(s: string, w: string, c: char)
    requires c in w && c !in s
    ensures Absent(s, w)
  {
    var k :| 0 <= k < |w| && w[k] == c;
    forall i | 0 <= i <= |s| ensures !StartsWith(s[i..], w) {
      if k < |s| - i {
        assert s[i..][k] == s[i + k];
      }
    }
  }

  /** `w` cannot straddle a join whose left side ends in a character foreign to `w`. */
  lemma AbsentConcatLeft(a: string, b: string, w: string)
    requires Absent(a, w) && Absent(b, w)
    requires |a| > 0 && a[|a| - 1] !in w
    ensures Absent(a + b, w)
  {
    forall i | 0 <= i <= |a + b| ensures !StartsWith((a + b)[i..], w) {
      if i + |w| <= |a| {
        assert (a + b)[i..][..|w|] == a[i..][..|w|];
      } else if i >= |a| {
        assert (a + b)[i..] == b[i - |a|..];
      } else if i + |w| <= |a + b| {
        assert (a + b)[i..][|a| - 1 - i] == a[|a| - 1];
      }
    }
  }

  /** `w` cannot straddle a join whose right side starts with a character foreign to `w`. */
  lemma AbsentConcatRight(a: string, b: string, w: string)
    requires Absent(a, w) && Absent(b, w)
    requires |b| > 0 && b[0] !in w
    ensures Absent(a + b, w)
  {
    forall i | 0 <= i <= |a + b| ensures !StartsWith((a + b)[i..], w) {
      if i + |w| <= |a| {
        assert (a + b)[i..][..|w|] == a[i..][..|w|];
      } else if i >= |a| {
        assert (a + b)[i..] == b[i - |a|..];
      } else if i + |w| <= |a + b| {
        assert (a + b)[i..][|a| - i] == b[0];
      }
    }
  }

  /** The first occurrence of `w` is removed, the text around it kept: String.prototype.replace(w, ''). */
  function ReplaceFirst(s: string, w: string): (r: string)
  {
    match IndexOf(s, w)
      case None => s
      case Some(i) => s[..i] + s[i + |w|..]
  }

  /**
   * String.prototype.length: the number of UTF-16 code units, one for a character of the Basic
   * Multilingual Plane and two (a surrogate pair) for one above U+FFFF.
   */
  function Utf16Length(s: string): (n: nat)
    ensures |s| <= n <= 2 * |s|
    ensures n == |s| <==> forall k :: 0 <= k < |s| ==> s[k] as int < 0x1_0000
    decreases |s|
  {
    if |s| == 0 then 0
    else
      var rest := Utf16Length(s[1..]);
      assert forall k :: 1 <= k < |s| ==> s[k] == s[1..][k - 1];
      rest + (if s[0] as int < 0x1_0000 then 1 else 2)
  }

  // ---------------------------------------------------------------------
  // Characters: white space as JavaScript's trim and \s understand it,
  // and ASCII case folding
  // ---------------------------------------------------------------------

  /** WhiteSpace and LineTerminator code points of ECMAScript (trim, \s). */
  predicate IsSpace(c: char)
  {
    c == ' ' || c == '\t' || c == '\n' || c == '\r' || c == '\U{000B}' || c == '\U{000C}' ||
    c == '\U{00A0}' || c == '\U{FEFF}' || c == '\U{1680}' || ('\U{2000}' <= c <= '\U{200A}') ||
    c == '\U{2028}' || c == '\U{2029}' || c == '\U{202F}' || c == '\U{205F}' || c == '\U{3000}'
  }

  /** The length of the leading white space (`^\s*`). */
  function Indent(line: string): (n: nat)
    ensures n <= |line|
    ensures forall k :: 0 <= k < n ==> IsSpace(line[k])
    ensures n < |line| ==> !IsSpace(line[n])
    decreases |line|
  {
    if |line| > 0 && IsSpace(line[0]) then 1 + Indent(line[1..]) else 0
  }

  function TrimStart(s: string): (r: string)
    ensures |r| <= |s| && s[|s| - |r|..] == r
    ensures |r| > 0 ==> !IsSpace(r[0])
    ensures forall k :: 0 <= k < |s| - |r| ==> IsSpace(s[k])
    decreases |s|
  {
    if |s| > 0 && IsSpace(s[0]) then TrimStart(s[1..]) else s
  }

  function TrimEnd(s: string): (r: string)
    ensures |r| <= |s| && s[..|r|] == r
    ensures |r| > 0 ==> !IsSpace(r[|r| - 1])
    ensures forall k :: |r| <= k < |s| ==> IsSpace(s[k])
    decreases |s|
  {
    if |s| > 0 && IsSpace(s[|s| - 1]) then TrimEnd(s[..|s| - 1]) else s
  }

  /** String.prototype.trim. */
  function Trim(s: string): (r: string)
  {
    TrimEnd(TrimStart(s))
  }

  predicate IsTrimmed(s: string)
  {
    |s| == 0 || (!IsSpace(s[0]) && !IsSpace(s[|s| - 1]))
  }

  lemma TrimIsTrimmed(s: string)
    ensures IsTrimmed(Trim(s))
    ensures |Trim(s)| <= |s|
  {
    var a := TrimStart(s);
    var b := TrimEnd(a);
    if |b| > 0 {
      assert b[0] == a[0];
    }
  }

  lemma TrimmedFixed(s: string)
    requires IsTrimmed(s)
    ensures Trim(s) == s
  {
  }

  /** ASCII part of String.prototype.toLowerCase. */
  function LowerChar(c: char): char
  {
    if 'A' <= c <= 'Z' then (c as int + 32) as char else c
  }

  function Lower(s: string): (r: string)
    ensures |r| == |s|
    ensures forall k :: 0 <= k < |s| ==> r[k] == LowerChar(s[k])
  {
    seq(|s|, k requires 0 <= k < |s| => LowerChar(s[k]))
  }

  // ---------------------------------------------------------------------
  // split and join on a separator
  // ---------------------------------------------------------------------

  /** String.prototype.split with a one-character separator. */
  function Split(s: string, c: char): (r: seq<string>)
    ensures |r| > 0
    decreases |s|
  {
    if |s| == 0 then [""]
    else
      var rest := Split(s[1..], c);
      if s[0] == c then [""] + rest
      else [[s[0]] + rest[0]] + rest[1..]
  }

  /** Array.prototype.join. */
  function Join(parts: seq<string>, sep: string): string
    decreases |parts|
  {
    if |parts| == 0 then ""
    else if |parts| == 1 then parts[0]
    else parts[0] + sep + Join(parts[1..], sep)
  }

  /** Joining pieces free of `w` with a separator whose ends are foreign to `w` introduces no `w`. */
  lemma {:induction false} AbsentJoin(parts: seq<string>, sep: string, w: string)
    requires |w| > 0
    requires forall k :: 0 <= k < |parts| ==> Absent(parts[k], w)
    requires Absent(sep, w) && |sep| > 0 && sep[0] !in w && sep[|sep| - 1] !in w
    ensures Absent(Join(parts, sep), w)
    decreases |parts|
  {
    if |parts| == 0 {
      assert ""[0..] == "";
    } else if |parts| > 1 {
      AbsentJoin(parts[1..], sep, w);
      AbsentConcatRight(parts[0], sep, w);
      assert (parts[0] + sep)[|parts[0] + sep| - 1] == sep[|sep| - 1];
      AbsentConcatLeft(parts[0] + sep, Join(parts[1..], sep), w);
    }
  }

  lemma {:induction false} SplitJoin(s: string, c: char)
    ensures Join(Split(s, c), [c]) == s
    ensures forall k :: 0 <= k < |Split(s, c)| ==> c !in Split(s, c)[k]
    decreases |s|
  {
    if |s| > 0 {
      var rest := Split(s[1..], c);
      SplitJoin(s[1..], c);
      if s[0] == c {
        assert Split(s, c) == [""] + rest;
        assert Split(s, c)[1..] == rest;
      } else {
        var r := Split(s, c);
        assert r == [[s[0]] + rest[0]] + rest[1..];
        if |rest| == 1 {
          assert Join(r, [c]) == [s[0]] + rest[0];
        } else {
          assert r[1..] == rest[1..];
          assert Join(rest, [c]) == rest[0] + [c] + Join(rest[1..], [c]);
        }
      }
    }
  }

  lemma {:induction false} SplitNoSeparator(a: string, c: char)
    requires c !in a
    ensures Split(a, c) == [a]
    decreases |a|
  {
    if |a| > 0 {
      SplitNoSeparator(a[1..], c);
      assert a == [a[0]] + a[1..];
    }
  }

  /** Splitting at a separator that follows a separator-free piece yields that piece first. */
  lemma {:induction false} SplitAfter(a: string, b: string, c: char)
    requires c !in a
    ensures Split(a + [c] + b, c) == [a] + Split(b, c)
    decreases |a|
  {
    var s := a + [c] + b;
    if |a| == 0 {
      assert s == [c] + b;
      assert s[1..] == b;
    } else {
      SplitAfter(a[1..], b, c);
      assert s[1..] == a[1..] + [c] + b;
      assert s[0] == a[0];
      assert a == [a[0]] + a[1..];
    }
  }

  /** Joining separator-free pieces and splitting again gives the pieces back. */
  lemma {:induction false} JoinSplit(parts: seq<string>, c: char)
    requires |parts| > 0
    requires forall k :: 0 <= k < |parts| ==> c !in parts[k]
    ensures Split(Join(parts, [c]), c) == parts
    decreases |parts|
  {
    if |parts| == 1 {
      SplitNoSeparator(parts[0], c);
    } else {
      JoinSplit(parts[1..], c);
      SplitAfter(parts[0], Join(parts[1..], [c]), c);
      assert parts == [parts[0]] + parts[1..];
    }
  }

  // ---------------------------------------------------------------------
  // Decimal rendering (String(n), template literals)
  // ---------------------------------------------------------------------

  function DigitChar(d: nat): char
    requires d < 10
  {
    (48 + d) as char
  }

  predicate IsDigit(c: char)
  {
    '0' <= c <= '9'
  }

  function NatToString(n: nat): (r: string)
    ensures |r| > 0
    ensures forall k :: 0 <= k < |r| ==> IsDigit(r[k])
    decreases n
  {
    if n < 10 then [DigitChar(n)] else NatToString(n / 10) + [DigitChar(n % 10)]
  }

  function IntToString(i: int): (r: string)
    ensures |r| > 0
    ensures forall k :: 0 <= k < |r| ==> r[k] == '-' || IsDigit(r[k])
  {
    if i < 0 then "-" + NatToString(-i) else NatToString(i)
  }

  function DigitsValue(s: string): nat
    requires forall k :: 0 <= k < |s| ==> IsDigit(s[k])
    decreases |s|
  {
    if |s| == 0 then 0
    else
      assert IsDigit(s[|s| - 1]);
      10 * DigitsValue(s[..|s| - 1]) + (s[|s| - 1] as int - '0' as int)
  }

  /** Reading the digits back gives the number: decimal rendering is injective. */
  lemma {:induction false} NatToStringValue(n: nat)
    ensures DigitsValue(NatToString(n)) == n
    decreases n
  {
    if n >= 10 {
      NatToStringValue(n / 10);
      var s := NatToString(n);
      assert s[..|s| - 1] == NatToString(n / 10);
    }
  }

  lemma NatToStringInjective(a: nat, b: nat)
    requires NatToString(a) == NatToString(b)
    ensures a == b
  {
    NatToStringValue(a);
    NatToStringValue(b);
  }

  // ---------------------------------------------------------------------
  // Lexicographic order of strings. JavaScript's < on strings and the
  // default Array.prototype.sort compare UTF-16 code units; SQLite's
  // BINARY collation compares the UTF-8 bytes, which is code point order.
  // Both are the lexicographic order of integer sequences, read through
  // two encodings.
  // ---------------------------------------------------------------------

  /** The code units of one character: itself in the Basic Multilingual Plane, else its surrogate pair. */
  function Units(c: char): (u: seq<int>)
    ensures |u| == (if c as int < 0x1_0000 then 1 else 2)
    ensures |u| == 2 ==> 0xD800 <= u[0] < 0xDC00 && 0xDC00 <= u[1] < 0xE000
  {
    if c as int < 0x1_0000 then [c as int]
    else [0xD800 + (c as int - 0x1_0000) / 0x400, 0xDC00 + (c as int - 0x1_0000) % 0x400]
  }

  /** The UTF-16 code units of a text, as charCodeAt reads them. */
  function CodeUnits(s: string): (u: seq<int>)
    ensures |u| == Utf16Length(s)
    decreases |s|
  {
    if |s| == 0 then [] else Units(s[0]) + CodeUnits(s[1..])
  }

  /** The code points of a text. */
  function CodePoints(s: string): (u: seq<int>)
    ensures |u| == |s| && forall k :: 0 <= k < |s| ==> u[k] == s[k] as int
  {
    seq(|s|, k requires 0 <= k < |s| => s[k] as int)
  }

  lemma CodePointsInjective(a: string, b: string)
    requires CodePoints(a) == CodePoints(b)
    ensures a == b
  {
    assert forall k :: 0 <= k < |a| ==> a[k] as int == b[k] as int;
  }

  /** `a` comes before `b`: smaller at the first difference, or a proper prefix. */
  predicate LexLess(a: seq<int>, b: seq<int>)
    decreases |a|
  {
    if |a| == 0 then |b| > 0
    else if |b| == 0 then false
    else a[0] < b[0] || (a[0] == b[0] && LexLess(a[1..], b[1..]))
  }

  lemma {:induction false} LexLessIrreflexive(a: seq<int>)
    ensures !LexLess(a, a)
    decreases |a|
  {
    if |a| > 0 {
      LexLessIrreflexive(a[1..]);
    }
  }

  lemma {:induction false} LexLessTransitive(a: seq<int>, b: seq<int>, c: seq<int>)
    requires LexLess(a, b) && LexLess(b, c)
    ensures LexLess(a, c)
    decreases |a|
  {
    if |a| > 0 && |b| > 0 && |c| > 0 && a[0] == b[0] && b[0] == c[0] {
      LexLessTransitive(a[1..], b[1..], c[1..]);
    }
  }

  lemma {:induction false} LexLessTotal(a: seq<int>, b: seq<int>)
    ensures LexLess(a, b) || LexLess(b, a) || a == b
    decreases |a|
  {
    if |a| > 0 && |b| > 0 && a[0] == b[0] {
      LexLessTotal(a[1..], b[1..]);
      if a[1..] == b[1..] {
        assert a == [a[0]] + a[1..];
        assert b == [b[0]] + b[1..];
      }
    }
  }

  lemma {:induction false} LexLessAsymmetric(a: seq<int>, b: seq<int>)
    requires LexLess(a, b)
    ensures !LexLess(b, a)
    decreases |a|
  {
    if |a| > 0 && a[0] == b[0] {
      LexLessAsymmetric(a[1..], b[1..]);
    }
  }

  /** Not-less is transitive too: the order is the strict part of a total preorder. */
  lemma LexNotLessTransitive(a: seq<int>, b: seq<int>, c: seq<int>)
    requires !LexLess(a, b) && !LexLess(b, c)
    ensures !LexLess(a, c)
  {
    LexLessTotal(a, b);
    LexLessTotal(b, c);
    if a != b && b != c {
      LexLessTransitive(c, b, a);
      LexLessAsymmetric(c, a);
    }
  }

  /** Any order that compares the images of an encoding lexicographically is a strict weak order. */
  lemma LexImageStrictWeak<T>(dom: set<T>, f: T -> seq<int>, before: (T, T) -> bool)
    requires forall a, b | a in dom && b in dom :: before(a, b) == LexLess(f(a), f(b))
    ensures StrictWeakOn(dom, before)
  {
    forall a | a in dom ensures !before(a, a) {
      LexLessIrreflexive(f(a));
    }
    forall a, b, c | a in dom && b in dom && c in dom && before(a, b) && before(b, c) ensures before(a, c) {
      LexLessTransitive(f(a), f(b), f(c));
    }
    forall a, b, c | a in dom && b in dom && c in dom && !before(a, b) && !before(b, c) ensures !before(a, c) {
      LexNotLessTransitive(f(a), f(b), f(c));
    }
  }

  /** Swapping the arguments of a strict weak order gives one. */
  lemma StrictWeakReversed<T>(dom: set<T>, before: (T, T) -> bool, after: (T, T) -> bool)
    requires StrictWeakOn(dom, before)
    requires forall a, b | a in dom && b in dom :: after(a, b) == before(b, a)
    ensures StrictWeakOn(dom, after)
  {
  }

  /** Code point order (SQLite's BINARY collation on UTF-8 text). */
  predicate StrLess(a: string, b: string)
  {
    LexLess(CodePoints(a), CodePoints(b))
  }

  /** Code unit order (JavaScript's < on two strings and the default sort). */
  predicate JsLess(a: string, b: string)
  {
    LexLess(CodeUnits(a), CodeUnits(b))
  }

  lemma StrLessTotal(a: string, b: string)
    ensures StrLess(a, b) || StrLess(b, a) || a == b
  {
    LexLessTotal(CodePoints(a), CodePoints(b));
    if CodePoints(a) == CodePoints(b) {
      CodePointsInjective(a, b);
    }
  }

  /** The code-point order on strings is a strict weak order, so sorting by it sorts. */
  lemma StrLessStrictWeak(dom: set<string>, before: (string, string) -> bool)
    requires forall a, b :: before(a, b) == StrLess(a, b)
    ensures StrictWeakOn(dom, before)
  {
    LexImageStrictWeak(dom, CodePoints, before);
  }

  /** So is the code-unit order. */
  lemma JsLessStrictWeak(dom: set<string>, before: (string, string) -> bool)
    requires forall a, b :: before(a, b) == JsLess(a, b)
    ensures StrictWeakOn(dom, before)
  {
    LexImageStrictWeak(dom, CodeUnits, before);
  }

  /**
   * The two orders disagree once a character above U+FFFF meets one from U+E000 to U+FFFF: a
   * surrogate pair starts below 0xE000, so JavaScript puts U+1F600 before U+FF61 while code point
   * order puts it after.
   */
  lemma CodeUnitOrderDiffers()
    ensures JsLess("\U{1F600}", "\U{FF61}") && StrLess("\U{FF61}", "\U{1F600}")
  {
    assert CodeUnits("\U{1F600}") == [0xD83D, 0xDE00];
    assert CodeUnits("\U{FF61}") == [0xFF61];
    assert CodePoints("\U{FF61}") == [0xFF61];
    assert CodePoints("\U{1F600}") == [0x1F600];
  }

  /** Within the Basic Multilingual Plane the two orders agree. */
  lemma OrdersAgreeInBmp(a: string, b: string)
    requires forall k :: 0 <= k < |a| ==> a[k] as int < 0x1_0000
    requires forall k :: 0 <= k < |b| ==> b[k] as int < 0x1_0000
    ensures JsLess(a, b) == StrLess(a, b)
  {
    UnitsInBmp(a);
    UnitsInBmp(b);
  }

  /** A text of the Basic Multilingual Plane has one code unit per character, equal to its code point. */
  lemma {:induction false} UnitsInBmp(s: string)
    requires forall k :: 0 <= k < |s| ==> s[k] as int < 0x1_0000
    ensures CodeUnits(s) == CodePoints(s)
    decreases |s|
  {
    if |s| > 0 {
      UnitsInBmp(s[1..]);
      assert CodePoints(s) == [s[0] as int] + CodePoints(s[1..]);
    }
  }

  // ---------------------------------------------------------------------
  // Stable sort (Array.prototype.sort with a comparator, which ECMAScript
  // requires to be stable). `before(a, b)` means the comparator orders a
  // strictly before b.
  // ---------------------------------------------------------------------

  function Insert<T>(x: T, s: seq<T>, before: (T, T) -> bool): (r: seq<T>)
    ensures multiset(r) == multiset(s) + multiset{x}
    ensures |r| == |s| + 1
    decreases |s|
  {
    if |s| == 0 || !before(s[0], x) then [x] + s
    else
      assert s == [s[0]] + s[1..];
      [s[0]] + Insert(x, s[1..], before)
  }

  function SortBy<T>(s: seq<T>, before: (T, T) -> bool): (r: seq<T>)
    ensures multiset(r) == multiset(s)
    ensures |r| == |s|
    decreases |s|
  {
    if |s| == 0 then []
    else
      assert s == [s[0]] + s[1..];
      Insert(s[0], SortBy(s[1..], before), before)
  }

  predicate SortedBy<T>(r: seq<T>, before: (T, T) -> bool)
  {
    forall i, j :: 0 <= i < j < |r| ==> !before(r[j], r[i])
  }

  /** `before` is a strict weak order on the values in `s`. */
  predicate StrictWeakOn<T>(s: set<T>, before: (T, T) -> bool)
  {
    (forall a | a in s :: !before(a, a)) &&
    (forall a, b, c | a in s && b in s && c in s :: before(a, b) && before(b, c) ==> before(a, c)) &&
    (forall a, b, c | a in s && b in s && c in s :: !before(a, b) && !before(b, c) ==> !before(a, c))
  }

  lemma {:induction false} InsertSorted<T>(x: T, s: seq<T>, before: (T, T) -> bool, dom: set<T>)
    requires x in dom && (forall k :: 0 <= k < |s| ==> s[k] in dom)
    requires StrictWeakOn(dom, before)
    requires SortedBy(s, before)
    ensures SortedBy(Insert(x, s, before), before)
    ensures forall k :: 0 <= k < |Insert(x, s, before)| ==> Insert(x, s, before)[k] in dom
    decreases |s|
  {
    var r := Insert(x, s, before);
    if |s| == 0 {
    } else if !before(s[0], x) {
      assert r == [x] + s;
      forall i, j | 0 <= i < j < |r| ensures !before(r[j], r[i]) {
        if i == 0 {
          assert r[j] == s[j - 1];
          if j - 1 > 0 {
            assert !before(s[j - 1], s[0]);
          }
        } else {
          assert r[i] == s[i - 1] && r[j] == s[j - 1];
        }
      }
    } else {
      var t := Insert(x, s[1..], before);
      InsertSorted(x, s[1..], before, dom);
      assert r == [s[0]] + t;
      assert multiset(t) == multiset(s[1..]) + multiset{x};
      forall i, j | 0 <= i < j < |r| ensures !before(r[j], r[i]) {
        if i == 0 {
          var y := t[j - 1];
          assert y in multiset(t);
          if y == x {
            assert !before(x, s[0]);
          } else {
            assert y in multiset(s[1..]);
            var m :| 0 <= m < |s[1..]| && s[1..][m] == y;
            assert s[m + 1] == y;
          }
        } else {
          assert r[i] == t[i - 1] && r[j] == t[j - 1];
        }
      }
      forall k | 0 <= k < |r| ensures r[k] in dom {
        if k > 0 {
          assert r[k] == t[k - 1];
        }
      }
    }
  }

  /** The sort returns a permutation of its input ordered by `before`. */
  lemma {:induction false} SortBySorted<T>(s: seq<T>, before: (T, T) -> bool, dom: set<T>)
    requires forall k :: 0 <= k < |s| ==> s[k] in dom
    requires StrictWeakOn(dom, before)
    ensures SortedBy(SortBy(s, before), before)
    ensures forall k :: 0 <= k < |SortBy(s, before)| ==> SortBy(s, before)[k] in dom
    decreases |s|
  {
    if |s| > 0 {
      SortBySorted(s[1..], before, dom);
      InsertSorted(s[0], SortBy(s[1..], before), before, dom);
    }
  }
  // ---------------------------------------------------------------------
  // Searching, filtering and paging sequences of records
  // ---------------------------------------------------------------------

  /** Index of the first element satisfying `p` (Array.prototype.findIndex, db.get). */
  function FindIndex<T>(s: seq<T>, p: T -> bool): (r: Option<nat>)
    ensures r.Some? ==> r.value < |s| && p(s[r.value])
    ensures r.Some? ==> forall k :: 0 <= k < r.value ==> !p(s[k])
    ensures r.None? ==> forall k :: 0 <= k < |s| ==> !p(s[k])
    decreases |s|
  {
    if |s| == 0 then None
    else if p(s[0]) then Some(0)
    else match FindIndex(s[1..], p)
      case None => None
      case Some(i) => Some(i + 1)
  }

  /** Array.prototype.filter, and a SQL WHERE clause. */
  function Filter<T>(s: seq<T>, p: T -> bool): (r: seq<T>)
    ensures |r| <= |s|
    ensures forall k :: 0 <= k < |r| ==> r[k] in s && p(r[k])
    ensures forall k :: 0 <= k < |s| && p(s[k]) ==> s[k] in r
    decreases |s|
  {
    if |s| == 0 then []
    else if p(s[0]) then [s[0]] + Filter(s[1..], p)
    else Filter(s[1..], p)
  }

  /** Every element of `w` occurs in `s`. */
  predicate Within<T(==)>(w: seq<T>, s: seq<T>)
  {
    forall k :: 0 <= k < |w| ==> w[k] in s
  }

  lemma WithinTrans<T>(w: seq<T>, s: seq<T>, t: seq<T>)
    requires Within(w, s) && Within(s, t)
    ensures Within(w, t)
  {
    forall k | 0 <= k < |w| ensures w[k] in t {
      var j :| 0 <= j < |s| && s[j] == w[k];
    }
  }

  /** What holds of every element of `s` holds of every element of a `w` within it. */
  lemma WithinKeeps<T>(w: seq<T>, s: seq<T>, p: T -> bool)
    requires Within(w, s) && forall k :: 0 <= k < |s| ==> p(s[k])
    ensures forall k :: 0 <= k < |w| ==> p(w[k])
  {
    forall k | 0 <= k < |w| ensures p(w[k]) {
      var j :| 0 <= j < |s| && s[j] == w[k];
    }
  }

  /** Two sequences holding the same multiset hold the same elements. */
  lemma SameElements<T>(a: seq<T>, b: seq<T>)
    requires multiset(a) == multiset(b)
    ensures Within(a, b) && Within(b, a)
  {
    forall k | 0 <= k < |a| ensures a[k] in b {
      assert a[k] in multiset(b);
    }
    forall k | 0 <= k < |b| ensures b[k] in a {
      assert b[k] in multiset(a);
    }
  }

  /** Filtering keeps the order of what it keeps. */
  lemma {:induction false} FilterSorted<T>(s: seq<T>, p: T -> bool, before: (T, T) -> bool)
    requires SortedBy(s, before)
    ensures SortedBy(Filter(s, p), before)
    decreases |s|
  {
    if |s| > 0 {
      var rest := Filter(s[1..], p);
      assert SortedBy(s[1..], before) by {
        forall i, j | 0 <= i < j < |s[1..]| ensures !before(s[1..][j], s[1..][i]) {
          assert s[1..][j] == s[j + 1] && s[1..][i] == s[i + 1];
        }
      }
      FilterSorted(s[1..], p, before);
      if p(s[0]) {
        var r := [s[0]] + rest;
        forall i, j | 0 <= i < j < |r| ensures !before(r[j], r[i]) {
          if i == 0 {
            assert r[j] == rest[j - 1] && rest[j - 1] in s[1..];
            var m :| 0 <= m < |s[1..]| && s[1..][m] == rest[j - 1];
            assert s[m + 1] == r[j];
          } else {
            assert r[i] == rest[i - 1] && r[j] == rest[j - 1];
          }
        }
      }
    }
  }

  /** A filter that no element passes keeps nothing. */
  lemma {:induction false} FilterNone<T>(s: seq<T>, p: T -> bool)
    requires forall k :: 0 <= k < |s| ==> !p(s[k])
    ensures Filter(s, p) == []
    decreases |s|
  {
    if |s| > 0 {
      FilterNone(s[1..], p);
    }
  }

  /** A filter that every element passes keeps the whole sequence. */
  lemma {:induction false} FilterAll<T>(s: seq<T>, p: T -> bool)
    requires forall k :: 0 <= k < |s| ==> p(s[k])
    ensures Filter(s, p) == s
    decreases |s|
  {
    if |s| > 0 {
      FilterAll(s[1..], p);
    }
  }

  /**
   * SQL `LIMIT limit OFFSET offset`: a negative offset counts as zero and a negative limit means no
   * limit. The result is the run of `limit` elements (or all that remain) starting at the offset.
   */
  function Page<T>(s: seq<T>, limit: int, offset: int): (r: seq<T>)
    ensures offset <= 0 && limit < 0 ==> r == s
    ensures 0 <= limit ==> |r| <= limit
    ensures var start := if offset < 0 then 0 else offset;
      |r| == if start >= |s| then 0 else if 0 <= limit < |s| - start then limit else |s| - start
    ensures forall k :: 0 <= k < |r| ==>
      k + (if offset < 0 then 0 else offset) < |s| && r[k] == s[k + (if offset < 0 then 0 else offset)]
  {
    var start := if offset < 0 then 0 else if offset > |s| then |s| else offset;
    var rest := s[start..];
    if 0 <= limit < |rest| then rest[..limit] else rest
  }

  /** A page holds only elements of what it pages. */
  lemma PageWithin<T>(s: seq<T>, limit: int, offset: int)
    ensures Within(Page(s, limit, offset), s)
  {
    var r := Page(s, limit, offset);
    forall k | 0 <= k < |r| ensures r[k] in s {
      assert r[k] == s[k + (if offset < 0 then 0 else offset)];
    }
  }

  /** A page of a sorted sequence is sorted. */
  lemma PageSorted<T>(s: seq<T>, limit: int, offset: int, before: (T, T) -> bool)
    requires SortedBy(s, before)
    ensures SortedBy(Page(s, limit, offset), before)
  {
    var r := Page(s, limit, offset);
    var start := if offset < 0 then 0 else offset;
    forall i, j | 0 <= i < j < |r| ensures !before(r[j], r[i]) {
      var a, b := i + start, j + start;
      assert a < b < |s| && r[i] == s[a] && r[j] == s[b];
    }
    assert SortedBy(r, before);
  }

  /**
   * The index an Array.prototype.slice bound `i` stands for in a sequence of length `n`: a negative
   * bound counts back from the end, and either kind is clamped to 0..n.
   */
  function SliceIndex(n: nat, i: int): (r: nat)
    ensures r <= n
    ensures 0 <= i <= n ==> r == i
    ensures i < 0 && 0 <= n + i ==> r == n + i
  {
    if i < 0 then (if n + i < 0 then 0 else n + i) else if i > n then n else i
  }

  /** Array.prototype.slice(start, end): the elements from the start bound up to the end bound. */
  function Slice<T>(s: seq<T>, start: int, end: int): (r: seq<T>)
    ensures var from, to := SliceIndex(|s|, start), SliceIndex(|s|, end);
      |r| == (if from < to then to - from else 0) &&
      forall k :: 0 <= k < |r| ==> from + k < |s| && r[k] == s[from + k]
  {
    var from, to := SliceIndex(|s|, start), SliceIndex(|s|, end);
    if from >= to then [] else s[from..to]
  }

  /** Next identifier: 1 for an empty table, otherwise one above the largest. */
  function NextId(ids: seq<nat>): (r: nat)
    ensures r >= 1
    ensures forall k :: 0 <= k < |ids| ==> ids[k] < r
    ensures |ids| == 0 ==> r == 1
    ensures |ids| > 0 ==> r - 1 in ids
    decreases |ids|
  {
    if |ids| == 0 then 1
    else
      var m := NextId(ids[1..]);
      if ids[0] + 1 > m then ids[0] + 1 else m
  }
  /** FindIndex is determined by its contract: the first index satisfying `p`, or None. */
  lemma FindIndexUnique<T>(s: seq<T>, p: T -> bool, r: Option<nat>)
    requires r.Some? ==> r.value < |s| && p(s[r.value]) && forall k :: 0 <= k < r.value ==> !p(s[k])
    requires r.None? ==> forall k :: 0 <= k < |s| ==> !p(s[k])
    ensures FindIndex(s, p) == r
  {
  }

  lemma FindIndexAppend<T>(a: seq<T>, b: seq<T>, p: T -> bool)
    ensures FindIndex(a + b, p) ==
      match FindIndex(a, p)
        case Some(i) => Some(i)
        case None => (match FindIndex(b, p) case None => None case Some(j) => Some(|a| + j))
  {
    var fa := FindIndex(a, p);
    var fb := FindIndex(b, p);
    var r := match fa case Some(i) => Some(i) case None => (match fb case None => None case Some(j) => Some(|a| + j));
    if fa.None? {
      forall k | 0 <= k < |a| + |b| && (r.None? || k < r.value) ensures !p((a + b)[k]) {
        if k >= |a| {
          assert (a + b)[k] == b[k - |a|];
        }
      }
      if fb.Some? {
        assert (a + b)[|a| + fb.value] == b[fb.value];
      }
    }
    FindIndexUnique(a + b, p, r);
  }
}
