/** The few string operations the agent uses from Go's standard library, on
    strings as sequences of characters, with the laws the other modules need. */
module Text {
  import opened Powers

  datatype Option<+T> = None | Some(value: T) {
    predicate IsFailure() { None? }
    function PropagateFailure<U>(): Option<U> requires None? { None }
    function Extract(): T requires Some? { value }
  }

  lemma SameParts<T>(a: seq<T>, b: seq<T>, x: seq<T>, y: seq<T>)
    requires |a| == |b|
    ensures a + x == b + y <==> a == b && x == y
  {
    assert (a + x)[..|a|] == a && (b + y)[..|a|] == b && (a + x)[|a|..] == x && (b + y)[|a|..] == y;
  }

  // ---------- trimming ----------

  /** unicode.IsSpace. */
  predicate IsSpace(c: char) {
    c in " \t\n\r" || c == '\U{0B}' || c == '\U{0C}' || c == '\U{85}' || c == '\U{A0}' ||
    c == '\U{1680}' || '\U{2000}' <= c <= '\U{200A}' || c == '\U{2028}' || c == '\U{2029}' ||
    c == '\U{202F}' || c == '\U{205F}' || c == '\U{3000}'
  }

  predicate AllSpace(s: string) { forall i | 0 <= i < |s| :: IsSpace(s[i]) }

  function SpaceRun(s: string): (n: nat)
    ensures n <= |s|
    ensures n < |s| ==> !IsSpace(s[n])
  {
    if s != "" && IsSpace(s[0]) then 1 + SpaceRun(s[1..]) else 0
  }

  function TrimLeft(s: string): string { s[SpaceRun(s)..] }

  function TrimRight(s: string): (r: string)
    ensures r <= s && AllSpace(s[|r|..])
    ensures r != "" ==> !IsSpace(r[|r| - 1])
  {
    if s != "" && IsSpace(s[|s| - 1]) then TrimRight(s[..|s| - 1]) else s
  }

  /** strings.TrimSpace. */
  function TrimSpace(s: string): (r: string)
    ensures Trimmed(r)
    ensures |r| <= |s|
    ensures forall c :: c in r ==> c in s
  {
    TrimRight(TrimLeft(s))
  }

  /** No space at either end. */
  predicate Trimmed(s: string) {
    s == "" || (!IsSpace(s[0]) && !IsSpace(s[|s| - 1]))
  }

  lemma TrimSpaceOfTrimmed(s: string)
    requires Trimmed(s)
    ensures TrimSpace(s) == s
  {}

  lemma {:induction false} SpaceRunPad(pad: string, s: string)
    requires AllSpace(pad)
    ensures SpaceRun(pad + s) == |pad| + SpaceRun(s)
    ensures TrimLeft(pad + s) == TrimLeft(s)
  {
    if pad == "" {
      assert pad + s == s;
    } else {
      SpaceRunPad(pad[1..], s);
      assert (pad + s)[1..] == pad[1..] + s;
    }
  }

  lemma {:induction false} SpaceRunSpace(s: string)
    ensures AllSpace(s[..SpaceRun(s)])
  {
    if s != "" && IsSpace(s[0]) {
      SpaceRunSpace(s[1..]);
      assert s[..SpaceRun(s)] == [s[0]] + s[1..][..SpaceRun(s[1..])];
    }
  }

  lemma {:induction false} TrimRightPad(s: string, pad: string)
    requires AllSpace(pad)
    ensures TrimRight(s + pad) == TrimRight(s)
  {
    if pad == "" {
      assert s + pad == s;
    } else {
      assert (s + pad)[..|s + pad| - 1] == s + pad[..|pad| - 1];
      TrimRightPad(s, pad[..|pad| - 1]);
    }
  }

  /** Spaces on either side of a text do not change what is left of it. */
  lemma {:induction false} TrimSpacePad(before: string, s: string, after: string)
    requires AllSpace(before) && AllSpace(after)
    ensures TrimSpace(before + s + after) == TrimSpace(s)
  {
    var lead, body := s[..SpaceRun(s)], TrimLeft(s);
    SpaceRunSpace(s);
    assert before + s + after == (before + lead) + (body + after);
    SpaceRunPad(before + lead, body + after);
    TrimRightPad(body, after);
    if body == "" {
      assert body + after == after;
      SpaceRunPad(after, "");
      assert after + "" == after;
    } else {
      assert (body + after)[0] == body[0];
    }
  }

  lemma {:induction false} TrimPadded(pad: string, key: string)
    requires AllSpace(pad) && Trimmed(key)
    ensures TrimSpace(pad + key) == key
  {
    TrimSpacePad(pad, key, "");
    assert pad + key + "" == pad + key;
    TrimSpaceOfTrimmed(key);
  }

  lemma {:induction false} TrimParts(s: string) returns (a: string, b: string)
    ensures s == a + (TrimSpace(s) + b) && AllSpace(a) && AllSpace(b)
  {
    SpaceRunSpace(s);
    var body := TrimLeft(s);
    a, b := s[..SpaceRun(s)], body[|TrimRight(body)|..];
    assert s == a + body && body == TrimRight(body) + b;
  }

  lemma {:induction false} TrimRightKeeps(s: string, n: nat)
    requires 0 < n <= |s| && !IsSpace(s[n - 1])
    ensures |TrimRight(s)| >= n && TrimRight(s)[..n] == s[..n]
  {
    if IsSpace(s[|s| - 1]) {
      TrimRightKeeps(s[..|s| - 1], n);
    }
  }

  lemma {:induction false} SpaceRunBefore(s: string, j: nat)
    requires j < |s| && !IsSpace(s[j])
    ensures SpaceRun(s) <= j
  {
    if IsSpace(s[0]) { SpaceRunBefore(s[1..], j - 1); }
  }

  lemma {:induction false} TrimNotEmpty(s: string, j: nat)
    requires j < |s| && !IsSpace(s[j])
    ensures TrimSpace(s) != ""
  {
    SpaceRunBefore(s, j);
    assert TrimLeft(s)[j - SpaceRun(s)] == s[j];
    TrimRightKeeps(TrimLeft(s), j - SpaceRun(s) + 1);
  }

  lemma {:induction false} LongerTrimmed(t: string, b: string, rest: string, j: nat)
    requires Trimmed(t) && j < |rest| && !IsSpace(rest[j])
    ensures TrimRight(TrimLeft(t + (b + rest))) != t
  {
    var more := t + (b + rest);
    assert more[|t| + |b| + j] == rest[j];
    if t == "" {
      TrimNotEmpty(more, |t| + |b| + j);
    } else {
      assert more[0] == t[0];
      TrimRightKeeps(more, |t| + |b| + j + 1);
    }
  }

  lemma {:induction false} LongerTrim(front: string, rest: string, j: nat)
    requires j < |rest| && !IsSpace(rest[j])
    ensures TrimSpace(front + rest) != TrimSpace(front)
  {
    var a, b := TrimParts(front);
    var t := TrimSpace(front);
    assert front + rest == a + (t + (b + rest));
    SpaceRunPad(a, t + (b + rest));
    LongerTrimmed(t, b, rest, j);
  }

  /** A text and a first part of it are the same but for spaces around them exactly when the
      rest is spaces. */
  lemma {:induction false} CutTrim(s: string, n: nat)
    requires n <= |s|
    ensures TrimSpace(s[..n]) == TrimSpace(s) <==> AllSpace(s[n..])
  {
    var front, rest := s[..n], s[n..];
    assert s == front + rest;
    if AllSpace(rest) {
      TrimSpacePad("", front, rest);
      assert "" + front + rest == s;
    } else {
      var j :| 0 <= j < |rest| && !IsSpace(rest[j]);
      LongerTrim(front, rest, j);
    }
  }

  // ---------- searching ----------

  predicate HasPrefix(s: string, p: string) { |p| <= |s| && s[..|p|] == p }

  predicate HasSuffix(s: string, p: string) { |p| <= |s| && s[|s| - |p|..] == p }

  predicate OccursAt(s: string, sub: string, i: nat) {
    i + |sub| <= |s| && s[i..i + |sub|] == sub
  }

  /** strings.Contains. */
  predicate Contains(s: string, sub: string) {
    exists i | 0 <= i <= |s| :: OccursAt(s, sub, i)
  }

  lemma ContainsPart(before: string, sub: string, after: string)
    ensures Contains(before + sub + after, sub)
  {
    assert OccursAt(before + sub + after, sub, |before|);
  }

  /** A single character is contained when it is an element. */
  lemma ContainsChar(s: string, c: char)
    ensures Contains(s, [c]) <==> c in s
  {
    if c in s {
      var i :| 0 <= i < |s| && s[i] == c;
      assert OccursAt(s, [c], i);
    }
    if Contains(s, [c]) {
      var i :| 0 <= i <= |s| && OccursAt(s, [c], i);
      assert s[i..i + 1][0] == c;
    }
  }

  // ---------- lines ----------

  predicate NoNewline(s: string) { '\n' !in s }

  predicate AllLines(lines: seq<string>) { forall i | 0 <= i < |lines| :: NoNewline(lines[i]) }

  /** Length of the longest newline-free prefix. */
  function LineEnd(s: string): (n: nat)
    ensures n <= |s| && NoNewline(s[..n])
    ensures n < |s| ==> s[n] == '\n'
  {
    if s == "" || s[0] == '\n' then 0
    else
      var n := 1 + LineEnd(s[1..]);
      assert s[..n] == [s[0]] + s[1..][..n - 1];
      n
  }

  lemma {:induction false} LineEndOf(line: string, rest: string)
    requires NoNewline(line)
    ensures rest == "" || rest[0] == '\n' ==> LineEnd(line + rest) == |line|
  {
    if line == "" {
      assert line + rest == rest;
    } else {
      LineEndOf(line[1..], rest);
      assert (line + rest)[1..] == line[1..] + rest;
    }
  }

  /** strings.Split(s, "\n"). */
  function Split(s: string): (lines: seq<string>)
    ensures |lines| >= 1
    ensures AllLines(lines)
  {
    var n := LineEnd(s);
    if n == |s| then [s] else [s[..n]] + Split(s[n + 1..])
  }

  /** strings.Join(lines, "\n"). */
  function Join(lines: seq<string>): string {
    if |lines| == 0 then "" else if |lines| == 1 then lines[0] else lines[0] + "\n" + Join(lines[1..])
  }

  lemma {:induction false} SplitLine(line: string, rest: string)
    requires NoNewline(line)
    ensures Split(line + "\n" + rest) == [line] + Split(rest)
    ensures Split(line) == [line]
  {
    LineEndOf(line, "\n" + rest);
    LineEndOf(line, "");
    assert line + "" == line;
    var s := line + "\n" + rest;
    assert s == line + ("\n" + rest);
    assert s[..|line|] == line && s[|line| + 1..] == rest;
  }

  lemma {:induction false} SplitJoin(lines: seq<string>)
    requires |lines| >= 1 && AllLines(lines)
    ensures Split(Join(lines)) == lines
  {
    if |lines| == 1 {
      SplitLine(lines[0], "");
    } else {
      SplitJoin(lines[1..]);
      SplitLine(lines[0], Join(lines[1..]));
    }
  }

  function DropCR(line: string): (r: string)
    ensures r <= line && |line| <= |r| + 1 && (r != line ==> line == r + "\r")
  {
    if line != "" && line[|line| - 1] == '\r' then line[..|line| - 1] else line
  }

  function DropCRs(lines: seq<string>): (r: seq<string>)
    ensures |r| == |lines|
    ensures forall i | 0 <= i < |r| :: r[i] == DropCR(lines[i])
  {
    seq(|lines|, i requires 0 <= i < |lines| => DropCR(lines[i]))
  }

  /** The pieces bufio.Scanner cuts a text into, before it removes a carriage return. */
  function RawLines(s: string): (lines: seq<string>)
    ensures AllLines(lines)
  {
    var parts := Split(s);
    if parts[|parts| - 1] == "" then parts[..|parts| - 1] else parts
  }

  /** bufio.Scanner gives up at a line that does not fit its buffer. */
  const MAX_LINE := 65536

  predicate Fits(lines: seq<string>) { forall i | 0 <= i < |lines| :: |lines[i]| < MAX_LINE }

  /** The lines before the first one that does not fit. */
  function Fitting(lines: seq<string>): (r: seq<string>)
    ensures r <= lines && Fits(r) && (Fits(lines) ==> r == lines)
    ensures r != lines ==> |lines[|r|]| >= MAX_LINE
  {
    if lines == [] || |lines[0]| >= MAX_LINE then [] else [lines[0]] + Fitting(lines[1..])
  }

  /** The tokens of a bufio.Scanner with its default split function. */
  function ScanLines(s: string): (lines: seq<string>)
    ensures Fits(RawLines(s)) ==> |lines| == |RawLines(s)|
    ensures AllLines(lines)
  {
    var raw := Fitting(RawLines(s));
    var lines := DropCRs(raw);
    assert forall i | 0 <= i < |lines| :: lines[i] <= raw[i];
    lines
  }

  /** Text with every line, the last one included, ended by a newline. */
  function Unlines(lines: seq<string>): string {
    if |lines| == 0 then "" else lines[0] + "\n" + Unlines(lines[1..])
  }

  lemma {:induction false} SplitUnlines(lines: seq<string>)
    requires AllLines(lines)
    ensures Split(Unlines(lines)) == lines + [""]
  {
    if |lines| == 0 {
    } else {
      SplitUnlines(lines[1..]);
      SplitLine(lines[0], Unlines(lines[1..]));
      Cons(lines, "");
    }
  }

  lemma Cons(lines: seq<string>, last: string)
    requires |lines| > 0
    ensures [lines[0]] + (lines[1..] + [last]) == lines + [last]
  {}

  /** Lines without newline or carriage return are read back as they were written. */
  lemma ScanUnlines(lines: seq<string>)
    requires AllLines(lines)
    ensures RawLines(Unlines(lines)) == lines
  {
    SplitUnlines(lines);
    assert (lines + [""])[..|lines|] == lines;
  }

  lemma {:induction false} UnlinesAppend(a: seq<string>, b: seq<string>)
    ensures Unlines(a + b) == Unlines(a) + Unlines(b)
  {
    if a == [] {
      assert a + b == b;
    } else {
      assert (a + b)[1..] == a[1..] + b;
      UnlinesAppend(a[1..], b);
    }
  }

  // ---------- decimal numbers ----------

  predicate IsDigit(c: char) { '0' <= c <= '9' }

  predicate AllDigits(s: string) { forall i | 0 <= i < |s| :: IsDigit(s[i]) }

  function DigitValue(c: char): (d: nat)
    requires IsDigit(c)
    ensures d < 10
  {
    (c - '0') as nat
  }

  function Digit(d: nat): (c: char)
    requires d < 10
    ensures IsDigit(c) && DigitValue(c) == d
  {
    '0' + d as char
  }

  function Value(s: string): nat
    requires AllDigits(s)
  {
    if s == "" then 0 else 10 * Value(s[..|s| - 1]) + DigitValue(s[|s| - 1])
  }

  /** strconv.Itoa for a number that is not negative. */
  function Itoa(n: nat): (s: string)
    ensures s != "" && AllDigits(s)
    ensures Value(s) == n
  {
    if n < 10 then
      var s := [Digit(n)];
      assert s[..0] == "";
      s
    else
      var s := Itoa(n / 10) + [Digit(n % 10)];
      assert s[..|s| - 1] == Itoa(n / 10);
      s
  }

  lemma {:induction false} ItoaLength(n: nat, digits: nat)
    requires digits > 0 && n < Pow10(digits)
    ensures |Itoa(n)| <= digits
  {
    if n >= 10 { ItoaLength(n / 10, digits - 1); }
  }

  const MAX_INT64: nat := 0x7fff_ffff_ffff_ffff

  /** strconv.Atoi of a digit string: None is the range error. */
  function Atoi(s: string): Option<nat>
    requires AllDigits(s) && s != ""
  {
    if Value(s) <= MAX_INT64 then Some(Value(s)) else None
  }

  /** The number Atoi returns when its error is ignored: out of range gives the largest. */
  function AtoiClamped(s: string): nat
    requires AllDigits(s) && s != ""
  {
    if Value(s) <= MAX_INT64 then Value(s) else MAX_INT64
  }

  // ---------- order of strings ----------

  /** Go's string order; by characters it is the order of the UTF-8 bytes. */
  predicate StringLess(a: string, b: string) {
    b != "" && (a == "" || a[0] < b[0] || (a[0] == b[0] && StringLess(a[1..], b[1..])))
  }

  lemma StringLessTotal(a: string, b: string)
    ensures StringLess(a, b) || a == b || StringLess(b, a)
  {
    if a != "" && b != "" && a[0] == b[0] {
      StringLessTotal(a[1..], b[1..]);
      if a[1..] == b[1..] {
        assert a == [a[0]] + a[1..] == b;
      }
    }
  }

  lemma StringLessAsym(a: string, b: string)
    requires StringLess(a, b)
    ensures !StringLess(b, a) && a != b
  {}

  lemma StringLessTrans(a: string, b: string, c: string)
    requires StringLess(a, b) && StringLess(b, c)
    ensures StringLess(a, c)
  {
    if a != "" && a[0] == b[0] && b[0] == c[0] {
      StringLessTrans(a[1..], b[1..], c[1..]);
    }
  }
}
