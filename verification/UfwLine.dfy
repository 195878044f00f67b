/** The regular expression that recognises one line of `ufw status numbered`
    (internal/openport/allowlist.go, ufwLineRE):

      ^\s*\[\s*(\d+)\s*\]\s+(\d+)/(tcp|udp)(\s+\(v6\))?\s+ALLOW\s+IN\s+(.+?)\s*$

    `MatchLine` runs it from left to right. `Pieces` says what the expression
    means: the line is cut into parts, one for each item of the expression. */
module UfwLine {
  import opened Text

  /** `\s` of Go's regexp package. */
  predicate IsBlank(c: char) { c in " \t\n\r" || c == '\U{0C}' }

  predicate AllBlank(s: string) { forall i | 0 <= i < |s| :: IsBlank(s[i]) }

  datatype Match = Match(num: string, port: string, proto: string, v6: bool, src: string)

  predicate Captured(m: Match) {
    && m.num != "" && AllDigits(m.num)
    && m.port != "" && AllDigits(m.port)
    && IsProto(m.proto)
  }

  predicate IsProto(p: string) { p == "tcp" || p == "udp" }

  // ---------- the matcher ----------

  function BlankRun(s: string): (n: nat)
    ensures n <= |s|
    ensures n < |s| ==> !IsBlank(s[n])
  {
    if s != "" && IsBlank(s[0]) then 1 + BlankRun(s[1..]) else 0
  }

  function DropBlanks(s: string): string { s[BlankRun(s)..] }

  function DropBlanksRight(s: string): (r: string)
    ensures r <= s && AllBlank(s[|r|..])
    ensures s != "" && !IsBlank(s[0]) ==> r != ""
  {
    if s != "" && IsBlank(s[|s| - 1]) then DropBlanksRight(s[..|s| - 1]) else s
  }

  function Blanks1(s: string): Option<string> {
    if s != "" && IsBlank(s[0]) then Some(DropBlanks(s)) else None
  }

  function DigitRun(s: string): (n: nat)
    ensures n <= |s| && AllDigits(s[..n])
    ensures n < |s| ==> !IsDigit(s[n])
  {
    if s != "" && IsDigit(s[0]) then 1 + DigitRun(s[1..]) else 0
  }

  function Digits1(s: string): (r: Option<(string, string)>)
    ensures r.Some? ==> r.value.0 != "" && AllDigits(r.value.0) && s == r.value.0 + r.value.1
  {
    var n := DigitRun(s);
    if n == 0 then None else Some((s[..n], s[n..]))
  }

  function Eat(item: string, s: string): (r: Option<string>)
    ensures r.Some? ==> s == item + r.value
  {
    if HasPrefix(s, item) then Some(s[|item|..]) else None
  }

  function EatProto(s: string): (r: Option<(string, string)>)
    ensures r.Some? ==> IsProto(r.value.0) && s == r.value.0 + r.value.1
  {
    if HasPrefix(s, "tcp") then Some(("tcp", s[3..]))
    else if HasPrefix(s, "udp") then Some(("udp", s[3..]))
    else None
  }

  /** `\s+(.+?)\s*$`: the first part takes all it can and the middle part as
      little as it can, but the middle part needs one character, if only a blank. */
  function EatSource(s: string): Option<string> {
    var t := DropBlanks(s);
    if t != "" then
      if |t| < |s| then Some(DropBlanksRight(t)) else None
    else if |s| >= 2 then Some(s[|s| - 1..])
    else None
  }

  /** `^\s*\[\s*(\d+)\s*\]\s+`: the rule number and the rest. */
  function EatNumber(line: string): (r: Option<(string, string)>)
    ensures r.Some? ==> r.value.0 != "" && AllDigits(r.value.0)
  {
    var s :- Eat("[", DropBlanks(line));
    var n :- Digits1(DropBlanks(s));
    var s :- EatClose(n.1);
    Some((n.0, s))
  }

  /** `\s*\]\s+`. */
  function EatClose(s: string): Option<string> {
    var s :- Eat("]", DropBlanks(s));
    Blanks1(s)
  }

  /** `(\s+\(v6\))?\s+`: whether the tag is there, and the rest. */
  function EatTag(s: string): Option<(bool, string)> {
    var s :- Blanks1(s);
    var tag := Eat("(v6)", s);
    if tag.None? then Some((false, s)) else
    var s :- Blanks1(tag.value);
    Some((true, s))
  }

  datatype Body = Body(port: string, proto: string, v6: bool, src: string)

  /** The expression after the rule number. */
  function MatchRule(s: string): (r: Option<Body>)
    ensures r.Some? ==> r.value.port != "" && AllDigits(r.value.port) && IsProto(r.value.proto)
  {
    var p :- Digits1(s);
    var s :- Eat("/", p.1);
    var q :- EatProto(s);
    var t :- EatTag(q.1);
    var src :- MatchAction(t.1);
    Some(Body(p.0, q.0, t.0, src))
  }

  function MatchLine(line: string): (r: Option<Match>)
    ensures r.Some? ==> Captured(r.value)
  {
    var n :- EatNumber(line);
    var b :- MatchRule(n.1);
    Some(Match(n.0, b.port, b.proto, b.v6, b.src))
  }

  function MatchAction(s: string): Option<string> {
    var s :- Eat("ALLOW", s);
    var s :- Blanks1(s);
    var s :- Eat("IN", s);
    EatSource(s)
  }

  // ---------- what the expression means ----------

  /** One text for each item of the expression; b0 to b8 are its blank runs. */
  datatype Pieces = Pieces(
    b0: string, b1: string, num: string, b2: string, b3: string,
    port: string, proto: string, b4: Option<string>,
    b5: string, b6: string, b7: string, src: string, b8: string)

  predicate WellFormed(p: Pieces) {
    && AllBlank(p.b0) && AllBlank(p.b1) && AllBlank(p.b2) && AllBlank(p.b8)
    && IsGap(p.b3) && (p.b4.Some? ==> IsGap(p.b4.value)) && IsGap(p.b5) && IsGap(p.b6) && IsGap(p.b7)
    && p.num != "" && AllDigits(p.num) && p.port != "" && AllDigits(p.port)
    && IsProto(p.proto) && p.src != "" && NoNewline(p.src)
  }

  predicate IsGap(b: string) { b != "" && AllBlank(b) }

  function LineOf(p: Pieces): string {
    p.b0 + ("[" + (p.b1 + (p.num + CloseOf(p))))
  }

  function CloseOf(p: Pieces): string {
    p.b2 + ("]" + (p.b3 + RuleOf(p)))
  }

  function RuleOf(p: Pieces): string {
    p.port + ("/" + (p.proto + TagOf(p)))
  }

  function TagOf(p: Pieces): string {
    if p.b4.Some? then p.b4.value + ("(v6)" + (p.b5 + ActionOf(p))) else p.b5 + ActionOf(p)
  }

  function ActionOf(p: Pieces): string {
    "ALLOW" + (p.b6 + ("IN" + (p.b7 + (p.src + p.b8))))
  }

  // ---------- taking the parts off again ----------

  lemma {:induction false} BlankRunOf(b: string, t: string)
    requires AllBlank(b) && (t != "" ==> !IsBlank(t[0]))
    ensures BlankRun(b + t) == |b|
  {
    if b == "" {
      assert b + t == t;
    } else {
      BlankRunOf(b[1..], t);
      assert (b + t)[1..] == b[1..] + t;
    }
  }

  lemma {:induction false} DropBlanksOf(b: string, t: string)
    requires AllBlank(b) && (t != "" ==> !IsBlank(t[0]))
    ensures DropBlanks(b + t) == t
    ensures b != "" ==> Blanks1(b + t) == Some(t)
  {
    BlankRunOf(b, t);
    assert (b + t)[|b|..] == t;
  }

  lemma {:induction false} BlankRunBlank(s: string)
    ensures AllBlank(s[..BlankRun(s)])
  {
    if s != "" && IsBlank(s[0]) {
      BlankRunBlank(s[1..]);
      assert s[..BlankRun(s)] == [s[0]] + s[1..][..BlankRun(s[1..])];
    }
  }

  /** A text is its leading blanks and the rest. */
  lemma {:induction false} BlankCut(s: string) returns (b: string)
    ensures AllBlank(b) && s == b + DropBlanks(s) && |b| == BlankRun(s)
  {
    b := s[..BlankRun(s)];
    BlankRunBlank(s);
  }

  lemma {:induction false} DigitRunOf(d: string, t: string)
    requires AllDigits(d) && (t != "" ==> !IsDigit(t[0]))
    ensures DigitRun(d + t) == |d|
  {
    if d == "" {
      assert d + t == t;
    } else {
      assert (d + t)[1..] == d[1..] + t;
      DigitRunOf(d[1..], t);
    }
  }

  lemma {:induction false} Digits1Of(d: string, t: string)
    requires d != "" && AllDigits(d) && (t != "" ==> !IsDigit(t[0]))
    ensures Digits1(d + t) == Some((d, t))
  {
    DigitRunOf(d, t);
    assert (d + t)[..|d|] == d && (d + t)[|d|..] == t;
  }

  lemma {:induction false} EatOf(item: string, t: string)
    ensures Eat(item, item + t) == Some(t)
    ensures IsProto(item) ==> EatProto(item + t) == Some((item, t))
  {
    assert (item + t)[..|item|] == item && (item + t)[|item|..] == t;
  }

  lemma {:induction false} BlankIsSpace(b: string)
    requires AllBlank(b)
    ensures AllSpace(b)
  {}

  /** However the tail is cut, the source is the same up to the spaces around it. */
  lemma {:induction false} EatSourceOf(b7: string, src: string, b8: string)
    requires IsGap(b7) && AllBlank(b8) && src != ""
    ensures EatSource(b7 + (src + b8)).Some?
    ensures TrimSpace(EatSource(b7 + (src + b8)).value) == TrimSpace(src)
  {
    var s := b7 + (src + b8);
    assert EatSource(s).Some? by {
      assert IsBlank(s[0]);
    }
    var c7, c8 := EatSourceCut(s);
    SameTrim(s, b7, src, b8);
    SameTrim(s, c7, EatSource(s).value, c8);
  }

  lemma {:induction false} SameTrim(s: string, b: string, t: string, b': string)
    requires AllBlank(b) && AllBlank(b') && s == b + (t + b')
    ensures TrimSpace(s) == TrimSpace(t)
  {
    BlankIsSpace(b);
    BlankIsSpace(b');
    assert s == b + t + b';
    TrimSpacePad(b, t, b');
  }

  lemma {:induction false} MatchActionOf(p: Pieces)
    requires WellFormed(p)
    ensures var r := MatchAction(ActionOf(p)); r.Some? && TrimSpace(r.value) == TrimSpace(p.src)
  {
    var s3 := p.b7 + (p.src + p.b8);
    var s2 := "IN" + s3;
    var s1 := p.b6 + s2;
    EatOf("ALLOW", s1);
    DropBlanksOf(p.b6, s2);
    EatOf("IN", s3);
    EatSourceOf(p.b7, p.src, p.b8);
  }

  lemma {:induction false} EatTagOf(p: Pieces)
    requires WellFormed(p)
    ensures EatTag(TagOf(p)) == Some((p.b4.Some?, ActionOf(p)))
  {
    var action := ActionOf(p);
    assert action[0] == 'A';
    DropBlanksOf(p.b5, action);
    if p.b4.Some? {
      DropBlanksOf(p.b4.value, "(v6)" + (p.b5 + action));
      EatOf("(v6)", p.b5 + action);
    }
  }

  lemma {:induction false} MatchRuleOf(p: Pieces)
    requires WellFormed(p)
    ensures var r := MatchRule(RuleOf(p));
            && r.Some? && r.value.port == p.port && r.value.proto == p.proto
            && r.value.v6 == p.b4.Some? && TrimSpace(r.value.src) == TrimSpace(p.src)
  {
    var tag := TagOf(p);
    Digits1Of(p.port, "/" + (p.proto + tag));
    EatOf("/", p.proto + tag);
    EatOf(p.proto, tag);
    EatTagOf(p);
    MatchActionOf(p);
  }

  lemma {:induction false} EatCloseOf(p: Pieces)
    requires WellFormed(p)
    ensures EatClose(CloseOf(p)) == Some(RuleOf(p))
  {
    var rule := RuleOf(p);
    assert IsDigit(rule[0]);
    DropBlanksOf(p.b2, "]" + (p.b3 + rule));
    EatOf("]", p.b3 + rule);
    DropBlanksOf(p.b3, rule);
  }

  lemma {:induction false} EatNumberOf(p: Pieces)
    requires WellFormed(p)
    ensures EatNumber(LineOf(p)) == Some((p.num, RuleOf(p)))
  {
    var close := CloseOf(p);
    var num := p.num + close;
    assert IsDigit(num[0]) && !IsDigit(close[0]);
    DropBlanksOf(p.b0, "[" + (p.b1 + num));
    EatOf("[", p.b1 + num);
    DropBlanksOf(p.b1, num);
    Digits1Of(p.num, close);
    EatCloseOf(p);
  }

  /** Every line the expression describes is matched, and the captures are those
      of whichever cut one takes; only spaces around the source may differ. */
  lemma {:induction false} MatchLineOf(p: Pieces)
    requires WellFormed(p)
    ensures var r := MatchLine(LineOf(p));
            && r.Some? && r.value.num == p.num && r.value.port == p.port && r.value.proto == p.proto
            && r.value.v6 == p.b4.Some? && TrimSpace(r.value.src) == TrimSpace(p.src)
  {
    EatNumberOf(p);
    MatchRuleOf(p);
  }

  // ---------- nothing else is matched ----------

  lemma {:induction false} Blanks1Cut(s: string) returns (b: string)
    requires Blanks1(s).Some?
    ensures IsGap(b) && s == b + Blanks1(s).value
  {
    b := BlankCut(s);
  }

  lemma {:induction false} EatSourceCut(s: string) returns (b7: string, b8: string)
    requires EatSource(s).Some?
    ensures IsGap(b7) && AllBlank(b8) && EatSource(s).value != "" && s == b7 + (EatSource(s).value + b8)
  {
    var t := DropBlanks(s);
    b7 := BlankCut(s);
    if t != "" {
      b8 := t[|EatSource(s).value|..];
    } else {
      assert s == b7;
      b7, b8 := s[..|s| - 1], "";
    }
  }

  lemma {:induction false} MatchActionCut(s: string) returns (b6: string, b7: string, b8: string)
    requires MatchAction(s).Some?
    ensures IsGap(b6) && IsGap(b7) && AllBlank(b8) && MatchAction(s).value != ""
    ensures s == "ALLOW" + (b6 + ("IN" + (b7 + (MatchAction(s).value + b8))))
  {
    var s1 := Eat("ALLOW", s).value;
    b6 := Blanks1Cut(s1);
    b7, b8 := EatSourceCut(Eat("IN", Blanks1(s1).value).value);
  }

  lemma {:induction false} EatTagCut(s: string) returns (b4: Option<string>, b5: string)
    requires EatTag(s).Some?
    ensures IsGap(b5) && (b4.Some? ==> IsGap(b4.value)) && b4.Some? == EatTag(s).value.0
    ensures var t := EatTag(s).value.1;
            s == if b4.Some? then b4.value + ("(v6)" + (b5 + t)) else b5 + t
  {
    var b := Blanks1Cut(s);
    var tag := Eat("(v6)", Blanks1(s).value);
    if tag.None? {
      b4, b5 := None, b;
    } else {
      b4 := Some(b);
      b5 := Blanks1Cut(tag.value);
    }
  }

  lemma {:induction false} MatchRuleCut(num: string, s: string) returns (p: Pieces)
    requires num != "" && AllDigits(num)
    requires MatchRule(s).Some? && NoNewline(s)
    ensures WellFormed(p) && s == RuleOf(p) && p.num == num
    ensures MatchRule(s).value == Body(p.port, p.proto, p.b4.Some?, p.src)
  {
    var m := MatchRule(s).value;
    var q := EatProto(Eat("/", Digits1(s).value.1).value).value;
    var b4, b5 := EatTagCut(q.1);
    var b6, b7, b8 := MatchActionCut(EatTag(q.1).value.1);
    p := Pieces("", "", num, "", " ", m.port, m.proto, b4, b5, b6, b7, m.src, b8);
    assert q.1 == TagOf(p);
    NoNewlinePart(s, p);
  }

  lemma {:induction false} NoNewlinePart(s: string, p: Pieces)
    requires NoNewline(s) && s == RuleOf(p)
    ensures NoNewline(p.src)
  {
    assert forall c :: c in p.src ==> c in p.src + p.b8;
    assert forall c :: c in p.src + p.b8 ==> c in ActionOf(p);
    assert forall c :: c in ActionOf(p) ==> c in TagOf(p);
    assert forall c :: c in TagOf(p) ==> c in s;
  }

  lemma {:induction false} EatCloseCut(s: string) returns (b2: string, b3: string)
    requires EatClose(s).Some?
    ensures AllBlank(b2) && IsGap(b3) && s == b2 + ("]" + (b3 + EatClose(s).value))
  {
    b2 := BlankCut(s);
    b3 := Blanks1Cut(Eat("]", DropBlanks(s)).value);
  }

  lemma {:induction false} EatNumberCut(line: string) returns (b0: string, b1: string, b2: string, b3: string)
    requires EatNumber(line).Some?
    ensures AllBlank(b0) && AllBlank(b1) && AllBlank(b2) && IsGap(b3)
    ensures var n := EatNumber(line).value;
            line == b0 + ("[" + (b1 + (n.0 + (b2 + ("]" + (b3 + n.1))))))
  {
    var s1 := Eat("[", DropBlanks(line)).value;
    var n := Digits1(DropBlanks(s1)).value;
    b0 := BlankCut(line);
    b1 := BlankCut(s1);
    b2, b3 := EatCloseCut(n.1);
  }

  /** A matched line can be cut as the expression says, with the captured parts. */
  lemma {:induction false} MatchLineCut(line: string) returns (p: Pieces)
    requires MatchLine(line).Some? && NoNewline(line)
    ensures WellFormed(p) && LineOf(p) == line
    ensures MatchLine(line).value == Match(p.num, p.port, p.proto, p.b4.Some?, p.src)
  {
    var n := EatNumber(line).value;
    var b0, b1, b2, b3 := EatNumberCut(line);
    assert forall c :: c in n.1 ==> c in line by {
      assert forall c :: c in n.1 ==> c in b3 + n.1;
      assert forall c :: c in b3 + n.1 ==> c in b2 + ("]" + (b3 + n.1));
      assert forall c :: c in b2 + ("]" + (b3 + n.1)) ==> c in line;
    }
    p := MatchRuleCut(n.0, n.1);
    p := p.(b0 := b0, b1 := b1, b2 := b2, b3 := b3);
    assert RuleOf(p) == n.1;
  }
}
