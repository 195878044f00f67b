/** internal/openport/allowlist.go: reading `ufw status numbered`, planning the
    change to one port's sources, and wording the command that adds a source. */
module Allowlist {
  import opened Text
  import opened UfwLine

  const ANY4 := "0.0.0.0/0"
  const ANY6 := "::/0"

  /** One ALLOW IN rule as the agent sees it; `number` is what `ufw delete` expects. */
  datatype ExistingRule = ExistingRule(number: nat, port: nat, proto: string, source: string, v6: bool)

  function TrimSuffix(s: string, suffix: string): string {
    if HasSuffix(s, suffix) then s[..|s| - |suffix|] else s
  }

  function NormalizeSource(raw: string, v6: bool): string {
    var raw := TrimSpace(raw);
    if raw == "Anywhere" || raw == "Anywhere (v6)" then
      if v6 then ANY6 else ANY4
    else
      var raw := TrimSpace(TrimSuffix(raw, "(v6)"));
      if !Contains(raw, "/") then
        if Contains(raw, ":") then raw + "/128" else raw + "/32"
      else raw
  }

  // ---------- reading the status text ----------

  function ParseLine(line: string): Option<ExistingRule> {
    var m :- MatchLine(line);
    var port :- Atoi(m.port);
    Some(ExistingRule(AtoiClamped(m.num), port, m.proto, NormalizeSource(TrimSpace(m.src), m.v6), m.v6))
  }

  /** The rules of the lines that are rules, in order. */
  function RulesIn(lines: seq<string>): seq<ExistingRule> {
    if lines == [] then []
    else
      var r := ParseLine(lines[|lines| - 1]);
      RulesIn(lines[..|lines| - 1]) + if r.Some? then [r.value] else []
  }

  predicate OnPort(r: ExistingRule, port: int, proto: string) { r.port == port && r.proto == proto }

  function ForPort(rs: seq<ExistingRule>, port: int, proto: string): seq<ExistingRule> {
    if rs == [] then []
    else
      var r := rs[|rs| - 1];
      ForPort(rs[..|rs| - 1], port, proto) + if OnPort(r, port, proto) then [r] else []
  }

  lemma {:induction false} ReadOne(lines: seq<string>, i: nat, port: int, proto: string)
    requires i < |lines|
    ensures var r := ParseLine(lines[i]);
            && RulesIn(lines[..i + 1]) == RulesIn(lines[..i]) + (if r.Some? then [r.value] else [])
            && ForPort(RulesIn(lines[..i + 1]), port, proto) ==
               ForPort(RulesIn(lines[..i]), port, proto) +
               (if r.Some? && OnPort(r.value, port, proto) then [r.value] else [])
  {
    RulesInOne(lines, i);
    ForPortOne(RulesIn(lines[..i]), ParseLine(lines[i]), port, proto);
  }

  lemma {:induction false} RulesInOne(lines: seq<string>, i: nat)
    requires i < |lines|
    ensures var r := ParseLine(lines[i]);
            RulesIn(lines[..i + 1]) == RulesIn(lines[..i]) + (if r.Some? then [r.value] else [])
  {
    assert lines[..i + 1][..i] == lines[..i];
  }

  lemma {:induction false} ForPortOne(a: seq<ExistingRule>, r: Option<ExistingRule>, port: int, proto: string)
    ensures ForPort(a + (if r.Some? then [r.value] else []), port, proto) ==
            ForPort(a, port, proto) + (if r.Some? && OnPort(r.value, port, proto) then [r.value] else [])
  {
    if r.Some? {
      assert (a + [r.value])[..|a|] == a;
    } else {
      assert a + [] == a;
    }
  }

  method ParseAllUFWAllowRules(status: string) returns (out: seq<ExistingRule>)
    ensures out == RulesIn(ScanLines(status))
  {
    out := [];
    var lines := ScanLines(status);
    for i := 0 to |lines|
      invariant out == RulesIn(lines[..i])
    {
      ReadOne(lines, i, 0, "");
      var m := MatchLine(lines[i]);
      if m.None? { continue; }
      var port := Atoi(m.value.port);
      if port.None? { continue; }
      out := out + [ExistingRule(AtoiClamped(m.value.num), port.value, m.value.proto,
                                 NormalizeSource(TrimSpace(m.value.src), m.value.v6), m.value.v6)];
    }
    assert lines[..|lines|] == lines;
  }

  /** Reading one port is reading everything and keeping that port, for any text. */
  method ParseUFWRulesForPort(status: string, port: int, proto: string) returns (out: seq<ExistingRule>)
    ensures out == ForPort(RulesIn(ScanLines(status)), port, proto)
  {
    out := [];
    var lines := ScanLines(status);
    for i := 0 to |lines|
      invariant out == ForPort(RulesIn(lines[..i]), port, proto)
    {
      ReadOne(lines, i, port, proto);
      var m := MatchLine(lines[i]);
      if m.None? { continue; }
      var rulePort := Atoi(m.value.port);
      if rulePort.None? || rulePort.value != port { continue; }
      if m.value.proto != proto { continue; }
      out := out + [ExistingRule(AtoiClamped(m.value.num), rulePort.value, m.value.proto,
                                 NormalizeSource(TrimSpace(m.value.src), m.value.v6), m.value.v6)];
    }
    assert lines[..|lines|] == lines;
  }

  /** What a line cut into the expression's parts says. */
  function EntryOf(p: Pieces): ExistingRule
    requires WellFormed(p)
  {
    ExistingRule(AtoiClamped(p.num), Value(p.port), p.proto, NormalizeSource(p.src, p.b4.Some?), p.b4.Some?)
  }

  ghost predicate Describes(p: Pieces, line: string, r: ExistingRule) {
    WellFormed(p) && LineOf(p) == line && Value(p.port) <= MAX_INT64 && r == EntryOf(p)
  }

  lemma NormalizeTrimmed(raw: string, v6: bool)
    ensures NormalizeSource(TrimSpace(raw), v6) == NormalizeSource(raw, v6)
  {
    TrimSpaceOfTrimmed(TrimSpace(raw));
  }

  /** A line is read as a rule exactly when the regular expression describes it
      and its port fits an int; the rule does not depend on how the line is cut. */
  lemma {:induction false} ParseLineMeaning(line: string, r: ExistingRule)
    requires NoNewline(line)
    ensures ParseLine(line) == Some(r) <==> exists p :: Describes(p, line, r)
  {
    if ParseLine(line) == Some(r) {
      var p := ParseLineCut(line);
    }
    forall p | Describes(p, line, r)
      ensures ParseLine(line) == Some(r)
    {
      ParseLineOf(p);
    }
  }

  lemma {:induction false} ParseLineCut(line: string) returns (p: Pieces)
    requires NoNewline(line) && ParseLine(line).Some?
    ensures Describes(p, line, ParseLine(line).value)
  {
    p := MatchLineCut(line);
    NormalizeTrimmed(p.src, p.b4.Some?);
  }

  lemma {:induction false} ParseLineOf(p: Pieces)
    requires WellFormed(p) && Value(p.port) <= MAX_INT64
    ensures ParseLine(LineOf(p)) == Some(EntryOf(p))
  {
    MatchLineOf(p);
    NormalizeTrimmed(p.src, p.b4.Some?);
  }

  // ---------- the plan ----------

  /** Entries that count: trimmed and not blank. */
  function Entries(desired: seq<string>): set<string> {
    if desired == [] then {}
    else
      var c := TrimSpace(desired[|desired| - 1]);
      Entries(desired[..|desired| - 1]) + if c == "" then {} else {c}
  }

  /** No entry at all means open to everyone. */
  function DesiredSet(desired: seq<string>): set<string> {
    if Entries(desired) == {} then {ANY4} else Entries(desired)
  }

  lemma {:induction false} EntriesAre(desired: seq<string>, c: string)
    ensures c in Entries(desired) <==> c != "" && exists i | 0 <= i < |desired| :: TrimSpace(desired[i]) == c
  {
    if desired == [] {
    } else {
      var front := desired[..|desired| - 1];
      EntriesAre(front, c);
      assert forall i | 0 <= i < |desired| :: desired[i] == if i < |front| then front[i] else desired[|front|];
    }
  }

  lemma {:induction false} NoEntries(desired: seq<string>)
    ensures Entries(desired) == {} <==> forall i | 0 <= i < |desired| :: TrimSpace(desired[i]) == ""
  {
    forall i | 0 <= i < |desired| && TrimSpace(desired[i]) != ""
      ensures TrimSpace(desired[i]) in Entries(desired)
    {
      EntriesAre(desired, TrimSpace(desired[i]));
    }
    if c :| c in Entries(desired) { EntriesAre(desired, c); }
  }

  /** What is wanted, entry by entry: the entries that are not blank, and everyone exactly
      when all of them are. */
  lemma {:induction false} WantedIs(desired: seq<string>, c: string)
    ensures c in DesiredSet(desired) <==>
            (c != "" && exists i | 0 <= i < |desired| :: TrimSpace(desired[i]) == c) ||
            (c == "0.0.0.0/0" && forall i | 0 <= i < |desired| :: TrimSpace(desired[i]) == "")
  {
    EntriesAre(desired, c);
    NoEntries(desired);
  }

  function SourceSet(rs: seq<ExistingRule>): set<string> {
    if rs == [] then {} else SourceSet(rs[..|rs| - 1]) + {rs[|rs| - 1].source}
  }

  /** Numbers of the rules that are not the first rule of a desired source. */
  function Obsolete(rs: seq<ExistingRule>, desired: set<string>): seq<nat> {
    if rs == [] then []
    else
      var before, r := rs[..|rs| - 1], rs[|rs| - 1];
      Obsolete(before, desired) +
      if r.source in desired && r.source !in SourceSet(before) then [] else [r.number]
  }

  predicate Descending(s: seq<nat>) {
    |s| <= 1 || (s[0] >= s[1] && Descending(s[1..]))
  }

  /** sort.Sort(sort.Reverse(sort.IntSlice(s))). */
  function SortDescending(s: seq<nat>): seq<nat> {
    if s == [] then [] else InsertDescending(SortDescending(s[1..]), s[0])
  }

  function InsertDescending(s: seq<nat>, x: nat): seq<nat> {
    if s == [] || x >= s[0] then [x] + s else [s[0]] + InsertDescending(s[1..], x)
  }

  lemma {:induction false} InsertDescendingSorts(s: seq<nat>, x: nat)
    ensures multiset(InsertDescending(s, x)) == multiset(s) + multiset{x}
    ensures Descending(s) ==> Descending(InsertDescending(s, x))
  {
    if s != [] && x < s[0] {
      InsertDescendingSorts(s[1..], x);
      assert s == [s[0]] + s[1..];
    }
  }

  lemma {:induction false} SortDescendingSorts(s: seq<nat>)
    ensures multiset(SortDescending(s)) == multiset(s) && Descending(SortDescending(s))
  {
    if s == [] {
    } else {
      SortDescendingSorts(s[1..]);
      InsertDescendingSorts(SortDescending(s[1..]), s[0]);
      assert s == [s[0]] + s[1..];
    }
  }

  predicate Alphabetical(s: seq<string>) {
    |s| <= 1 || (!StringLess(s[1], s[0]) && Alphabetical(s[1..]))
  }

  /** sort.Strings. */
  function SortStrings(s: seq<string>): seq<string> {
    if s == [] then [] else InsertString(SortStrings(s[1..]), s[0])
  }

  function InsertString(s: seq<string>, x: string): seq<string> {
    if s == [] || !StringLess(s[0], x) then [x] + s else [s[0]] + InsertString(s[1..], x)
  }

  lemma {:induction false} InsertStringSorts(s: seq<string>, x: string)
    ensures multiset(InsertString(s, x)) == multiset(s) + multiset{x}
    ensures Alphabetical(s) ==> Alphabetical(InsertString(s, x))
  {
    if s != [] && StringLess(s[0], x) {
      InsertStringSorts(s[1..], x);
      StringLessAsym(s[0], x);
      assert s == [s[0]] + s[1..];
    }
  }

  lemma {:induction false} SortStringsSorts(s: seq<string>)
    ensures multiset(SortStrings(s)) == multiset(s) && Alphabetical(SortStrings(s))
  {
    if s == [] {
    } else {
      SortStringsSorts(s[1..]);
      InsertStringSorts(SortStrings(s[1..]), s[0]);
      assert s == [s[0]] + s[1..];
    }
  }

  lemma {:induction false} EntriesOne(desired: seq<string>, i: nat)
    requires i < |desired|
    ensures var c := TrimSpace(desired[i]);
            Entries(desired[..i + 1]) == Entries(desired[..i]) + if c == "" then {} else {c}
  {
    assert desired[..i + 1][..i] == desired[..i];
  }

  lemma {:induction false} ObsoleteOne(rs: seq<ExistingRule>, i: nat, d: set<string>)
    requires i < |rs|
    ensures SourceSet(rs[..i + 1]) == SourceSet(rs[..i]) + {rs[i].source}
    ensures Obsolete(rs[..i + 1], d) ==
            Obsolete(rs[..i], d) +
            if rs[i].source in d && rs[i].source !in SourceSet(rs[..i]) then [] else [rs[i].number]
  {
    assert rs[..i + 1][..i] == rs[..i];
  }

  lemma {:induction false} ObsoleteSnoc(before: seq<ExistingRule>, r: ExistingRule, d: set<string>)
    ensures Obsolete(before + [r], d) ==
            Obsolete(before, d) + if r.source in d && r.source !in SourceSet(before) then [] else [r.number]
  {
    assert (before + [r])[..|before|] == before;
  }

  method CollectDesired(desired: seq<string>) returns (desiredSet: set<string>)
    ensures desiredSet == DesiredSet(desired)
    ensures forall c :: c in desiredSet <==>
              (c != "" && exists i | 0 <= i < |desired| :: TrimSpace(desired[i]) == c) ||
              (c == "0.0.0.0/0" && forall i | 0 <= i < |desired| :: TrimSpace(desired[i]) == "")
  {
    desiredSet := {};
    for i := 0 to |desired|
      invariant desiredSet == Entries(desired[..i])
    {
      EntriesOne(desired, i);
      var c := TrimSpace(desired[i]);
      if c == "" { continue; }
      desiredSet := desiredSet + {c};
    }
    assert desired[..|desired|] == desired;
    if |desiredSet| == 0 {
      desiredSet := desiredSet + {ANY4};
    }
    forall c { WantedIs(desired, c); }
  }

  method SplitExisting(existing: seq<ExistingRule>, desiredSet: set<string>)
    returns (keep: set<string>, obsolete: seq<nat>)
    ensures keep == desiredSet * SourceSet(existing)
    ensures obsolete == Obsolete(existing, desiredSet)
  {
    keep, obsolete := {}, [];
    for i := 0 to |existing|
      invariant forall c :: c in keep <==> c in desiredSet && c in SourceSet(existing[..i])
      invariant obsolete == Obsolete(existing[..i], desiredSet)
    {
      var r := existing[i];
      ObsoleteOne(existing, i, desiredSet);
      if r.source in desiredSet && r.source !in keep {
        keep := keep + {r.source};
        continue;
      }
      obsolete := obsolete + [r.number];
    }
    assert existing[..|existing|] == existing;
  }

  /** The map of desired entries is walked in no particular order; sorting makes
      the plan depend on nothing but the set. */
  method DiffAllowlist(existing: seq<ExistingRule>, desired: seq<string>)
    returns (toDelete: seq<nat>, toAdd: seq<string>)
    ensures toDelete == SortDescending(Obsolete(existing, DesiredSet(desired)))
    ensures multiset(toAdd) == multiset(DesiredSet(desired) - SourceSet(existing)) && Alphabetical(toAdd)
  {
    var desiredSet := CollectDesired(desired);
    var keep, obsolete := SplitExisting(existing, desiredSet);
    toDelete := SortDescending(obsolete);
    toAdd := [];
    var rest := desiredSet;
    while rest != {}
      invariant rest <= desiredSet
      invariant multiset(toAdd) == multiset(desiredSet - rest - keep)
      decreases |rest|
    {
      var c :| c in rest;
      WalkOne(desiredSet, rest, keep, c);
      rest := rest - {c};
      if c !in keep {
        toAdd := toAdd + [c];
      }
    }
    SortStringsSorts(toAdd);
    assert desiredSet - rest - keep == desiredSet - SourceSet(existing);
    toAdd := SortStrings(toAdd);
  }

  lemma WalkOne(all: set<string>, rest: set<string>, keep: set<string>, c: string)
    requires rest <= all && c in rest
    ensures multiset(all - (rest - {c}) - keep) ==
            multiset(all - rest - keep) + if c in keep then multiset{} else multiset{c}
  {
    if c in keep {
      assert all - (rest - {c}) - keep == all - rest - keep;
    } else {
      assert all - (rest - {c}) - keep == (all - rest - keep) + {c};
    }
  }

  // ---------- the command ----------

  function FormatAddRule(port: nat, proto: string, cidr: string): seq<string> {
    if cidr == ANY4 || cidr == ANY6 || cidr == "" then
      ["allow", Itoa(port) + "/" + proto]
    else
      ["allow", "from", cidr, "to", "any", "port", Itoa(port), "proto", proto]
  }
}
