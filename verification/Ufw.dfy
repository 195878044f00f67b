/** The firewall the agent drives: a list of rules that numbers itself, and the text
    `ufw status numbered` prints for it. */
module Ufw {
  import opened Powers
  import opened Text
  import opened UfwLine
  import opened Allowlist

  /** `Other` stands for every rule the agent's regular expression does not match;
      such a rule holds a number all the same. */
  datatype Rule = Allow(port: nat, proto: string, v6: bool, from: string) | Other(text: string)

  // ---------- what UFW prints ----------

  function Spaces(n: nat): (s: string)
    ensures |s| == n && AllBlank(s)
  {
    seq(n, _ => ' ')
  }

  function Gap(length: nat, width: nat): nat { if length < width then width - length else 0 }

  /** Width of the first column. */
  function ToWidth(r: Rule): nat
    requires r.Allow?
  {
    |Itoa(r.port)| + 4 + if r.v6 then 5 else 0
  }

  /** The padded columns of a parsable rule. */
  function Columns(n: nat, r: Rule): Pieces
    requires r.Allow?
  {
    Pieces("", Spaces(Gap(|Itoa(n)|, 2)), Itoa(n), "", " ",
           Itoa(r.port), r.proto, if r.v6 then Some(" ") else None,
           Spaces(1 + Gap(ToWidth(r), 26)), " ", Spaces(4), r.from, "")
  }

  function NumberedLine(n: nat, r: Rule): string {
    match r
    case Allow(_, _, _, _) => LineOf(Columns(n, r))
    case Other(text) => "[" + (Spaces(Gap(|Itoa(n)|, 2)) + (Itoa(n) + ("]" + (" " + text))))
  }

  /** The lines of the rules, numbered from one. */
  function NumberedLines(rules: seq<Rule>): seq<string> {
    if rules == [] then []
    else NumberedLines(rules[..|rules| - 1]) + [NumberedLine(|rules|, rules[|rules| - 1])]
  }

  /** An inactive firewall prints its heading and no rules. */
  function StatusText(header: seq<string>, active: bool, rules: seq<Rule>): string {
    Unlines(header + if active then NumberedLines(rules) else [])
  }

  /** UFW's own columns take less than this; what is printed in them is shorter than the
      rest of a line the agent can read. */
  const COLUMNS := 200

  predicate Short(s: string) { |s| + COLUMNS < MAX_LINE }

  /** Texts UFW can print on one line. */
  predicate OneLine(s: string) { NoNewline(s) && '\r' !in s }

  /** Lines above the rules; their first visible character, if any, is not `[`. */
  predicate IsHeader(header: seq<string>) {
    forall i | 0 <= i < |header| ::
      OneLine(header[i]) && Short(header[i]) && (DropBlanks(header[i]) == "" || DropBlanks(header[i])[0] != '[')
  }

  predicate Showable(r: Rule) {
    match r
    case Allow(port, proto, _, from) => port <= 65535 && IsProto(proto) && from != "" && OneLine(from) && Short(from)
    case Other(text) => OneLine(text) && Short(text) && MatchRule(DropBlanks(text)).None?
  }

  predicate AllShowable(rules: seq<Rule>) {
    |rules| <= MAX_INT64 && forall i | 0 <= i < |rules| :: Showable(rules[i])
  }

  /** The source the agent attributes to a rule. */
  function SourceOf(r: Rule): string
    requires r.Allow?
  {
    NormalizeSource(r.from, r.v6)
  }

  /** What the agent should read: each parsable rule with its own number. */
  function Listing(rules: seq<Rule>): seq<ExistingRule> {
    if rules == [] then []
    else
      var n, r := |rules|, rules[|rules| - 1];
      Listing(rules[..n - 1]) +
      if r.Allow? then [ExistingRule(n, r.port, r.proto, SourceOf(r), r.v6)] else []
  }

  lemma {:induction false} ReadAllowLine(n: nat, r: Rule)
    requires r.Allow? && Showable(r) && n <= MAX_INT64
    ensures ParseLine(NumberedLine(n, r)) == Some(ExistingRule(n, r.port, r.proto, SourceOf(r), r.v6))
  {
    ParseLineOf(Columns(n, r));
  }

  lemma {:induction false} ReadOtherLine(n: nat, r: Rule)
    requires r.Other? && Showable(r)
    ensures ParseLine(NumberedLine(n, r)) == None
  {
    EatNumberOfText(Spaces(Gap(|Itoa(n)|, 2)), Itoa(n), r.text);
  }

  lemma {:induction false} EatNumberOfText(pad: string, num: string, text: string)
    requires AllBlank(pad) && num != "" && AllDigits(num)
    ensures EatNumber("[" + (pad + (num + ("]" + (" " + text))))) == Some((num, DropBlanks(text)))
  {
    var close := "]" + (" " + text);
    var inner := pad + (num + close);
    assert !IsBlank(("[" + inner)[0]);
    assert DropBlanks("[" + inner) == "[" + inner;
    EatOf("[", inner);
    assert IsDigit((num + close)[0]) && !IsDigit(close[0]);
    DropBlanksOf(pad, num + close);
    Digits1Of(num, close);
    EatCloseOfText(text);
  }

  lemma {:induction false} EatCloseOfText(text: string)
    ensures EatClose("]" + (" " + text)) == Some(DropBlanks(text))
  {
    var s := "]" + (" " + text);
    DropBlanksOf("", s);
    assert "" + s == s;
    EatOf("]", " " + text);
    assert (" " + text)[1..] == text;
    assert BlankRun(" " + text) == 1 + BlankRun(text);
    assert (" " + text)[1 + BlankRun(text)..] == text[BlankRun(text)..];
  }

  lemma {:induction false} NoRules(lines: seq<string>)
    requires IsHeader(lines)
    ensures RulesIn(lines) == []
  {
    if lines == [] {
    } else {
      NoRules(lines[..|lines| - 1]);
    }
  }

  lemma {:induction false} RulesInAppend(a: seq<string>, b: seq<string>)
    ensures RulesIn(a + b) == RulesIn(a) + RulesIn(b)
  {
    if b == [] {
      assert a + b == a;
    } else {
      assert (a + b)[..|a + b| - 1] == a + b[..|b| - 1];
      RulesInAppend(a, b[..|b| - 1]);
    }
  }

  lemma {:induction false} RulesInOneLine(line: string)
    ensures RulesIn([line]) == if ParseLine(line).Some? then [ParseLine(line).value] else []
  {
    assert [line][..0] == [];
  }

  lemma {:induction false} ReadNumberedLines(rules: seq<Rule>)
    requires AllShowable(rules)
    ensures RulesIn(NumberedLines(rules)) == Listing(rules)
  {
    if rules == [] {
    } else {
      var n, r := |rules|, rules[|rules| - 1];
      var before := NumberedLines(rules[..n - 1]);
      ReadNumberedLines(rules[..n - 1]);
      if r.Allow? { ReadAllowLine(n, r); } else { ReadOtherLine(n, r); }
      RulesInAppend(before, [NumberedLine(n, r)]);
      RulesInOneLine(NumberedLine(n, r));
    }
  }

  predicate AllOneLine(lines: seq<string>) { forall i | 0 <= i < |lines| :: OneLine(lines[i]) }

  lemma {:induction false} JoinOneLine(a: string, b: string)
    requires OneLine(a) && OneLine(b)
    ensures OneLine(a + b)
  {}

  lemma {:induction false} ColumnsAreOneLine(n: nat, r: Rule)
    requires Showable(r) && r.Allow?
    ensures var p := Columns(n, r); OneLine(ActionOf(p)) && OneLine(RuleOf(p)) && OneLine(LineOf(p))
  {
    var p := Columns(n, r);
    assert OneLine(p.num) && OneLine(p.port) && OneLine(p.b1) && OneLine(p.b5) && OneLine(p.b7);
    assert OneLine(ActionOf(p));
    JoinOneLine(p.b5, ActionOf(p));
    assert OneLine(TagOf(p));
    assert OneLine(RuleOf(p));
    assert OneLine(CloseOf(p));
  }

  lemma {:induction false} NumberedLineIsOneLine(n: nat, r: Rule)
    requires Showable(r)
    ensures OneLine(NumberedLine(n, r))
  {
    if r.Allow? {
      ColumnsAreOneLine(n, r);
    } else {
      assert OneLine(Spaces(Gap(|Itoa(n)|, 2))) && OneLine(Itoa(n));
      assert OneLine(Itoa(n) + ("]" + (" " + r.text)));
    }
  }

  lemma {:induction false} NumberedLinesAreOneLine(rules: seq<Rule>)
    requires AllShowable(rules)
    ensures AllOneLine(NumberedLines(rules))
  {
    if rules == [] {
    } else {
      NumberedLinesAreOneLine(rules[..|rules| - 1]);
      NumberedLineIsOneLine(|rules|, rules[|rules| - 1]);
    }
  }

  lemma {:induction false} NumberedLineFits(n: nat, r: Rule)
    requires Showable(r) && n <= MAX_INT64
    ensures |NumberedLine(n, r)| < MAX_LINE
  {
    Pow10Of19();
    ItoaLength(n, 19);
    if r.Allow? {
      ItoaLength(r.port, 19);
      ColumnsFit(Columns(n, r), |r.from|);
    }
  }

  lemma {:induction false} ColumnsFit(p: Pieces, length: nat)
    requires |p.b0| + |p.b1| + |p.b2| + |p.b3| + |p.b6| + |p.b7| + |p.b8| <= 10 && |p.b5| <= 27
    requires |p.num| <= 19 && |p.port| <= 19 && IsProto(p.proto) && (p.b4.Some? ==> |p.b4.value| <= 1)
    requires |p.src| == length
    ensures |LineOf(p)| < length + COLUMNS
  {
    assert |ActionOf(p)| <= length + 17;
    assert |TagOf(p)| <= length + 17 + 32;
    assert |RuleOf(p)| <= length + 17 + 32 + 23;
    assert |CloseOf(p)| <= length + 17 + 32 + 23 + 11;
  }

  lemma {:induction false} NumberedLinesFit(rules: seq<Rule>)
    requires AllShowable(rules)
    ensures Fits(NumberedLines(rules))
  {
    if rules == [] {
    } else {
      NumberedLinesFit(rules[..|rules| - 1]);
      NumberedLineFits(|rules|, rules[|rules| - 1]);
    }
  }

  lemma {:induction false} ScanOneLines(lines: seq<string>)
    requires AllOneLine(lines) && Fits(lines)
    ensures ScanLines(Unlines(lines)) == lines
  {
    ScanUnlines(lines);
  }

  /** Reading what an active UFW prints gives every parsable rule, in order, with
      the number `ufw delete` expects; the other lines are skipped. */
  lemma {:induction false} StatusRoundTrip(header: seq<string>, active: bool, rules: seq<Rule>)
    requires IsHeader(header) && AllShowable(rules)
    ensures RulesIn(ScanLines(StatusText(header, active, rules))) == if active then Listing(rules) else []
  {
    var shown := if active then NumberedLines(rules) else [];
    NoRules(header);
    ReadNumberedLines(rules);
    RulesInAppend(header, shown);
    NumberedLinesAreOneLine(rules);
    NumberedLinesFit(rules);
    ScanOneLines(header + shown);
    assert RulesIn([]) == [];
  }
}
