/** One port's part of the rule list: which of its sources survive the agent's
    deletes and what its adds put there. */
module PortRules {
  import opened Text
  import opened Allowlist
  import opened Ufw
  import opened Renumbering
  import opened Firewalls

  // ---------- one port's part of the rule list ----------

  predicate OnTarget(r: Rule, port: int, proto: string) { r.Allow? && r.port == port && r.proto == proto }

  /** The sources of the port's rules, in order. */
  function Sources(rules: seq<Rule>, port: int, proto: string): seq<string> {
    if rules == [] then []
    else
      var r := rules[|rules| - 1];
      Sources(rules[..|rules| - 1], port, proto) + if OnTarget(r, port, proto) then [SourceOf(r)] else []
  }

  /** Everything else in the list, in order. */
  function Elsewhere(rules: seq<Rule>, port: int, proto: string): seq<Rule> {
    if rules == [] then []
    else
      var r := rules[|rules| - 1];
      Elsewhere(rules[..|rules| - 1], port, proto) + if OnTarget(r, port, proto) then [] else [r]
  }

  predicate NoDup(s: seq<string>) { forall i, j | 0 <= i < j < |s| :: s[i] != s[j] }

  function SetOf(s: seq<string>): set<string> { set x | x in s }

  lemma {:induction false} SplitTarget(a: seq<Rule>, b: seq<Rule>, port: int, proto: string)
    ensures Sources(a + b, port, proto) == Sources(a, port, proto) + Sources(b, port, proto)
    ensures Elsewhere(a + b, port, proto) == Elsewhere(a, port, proto) + Elsewhere(b, port, proto)
  {
    if b == [] {
      assert a + b == a;
    } else {
      assert (a + b)[..|a + b| - 1] == a + b[..|b| - 1];
      SplitTarget(a, b[..|b| - 1], port, proto);
    }
  }

  lemma {:induction false} TargetOne(r: Rule, port: int, proto: string)
    ensures Sources([r], port, proto) == if OnTarget(r, port, proto) then [SourceOf(r)] else []
    ensures Elsewhere([r], port, proto) == if OnTarget(r, port, proto) then [] else [r]
  {
    assert [r][..0] == [];
  }

  lemma {:induction false} MemberListed(rules: seq<Rule>, port: int, proto: string, i: nat)
    requires i < |rules| && OnTarget(rules[i], port, proto)
    ensures SourceOf(rules[i]) in Sources(rules, port, proto)
  {
    if i < |rules| - 1 {
      MemberListed(rules[..|rules| - 1], port, proto, i);
    }
  }

  lemma {:induction false} ListedMember(rules: seq<Rule>, port: int, proto: string, c: string) returns (i: nat)
    requires c in Sources(rules, port, proto)
    ensures i < |rules| && OnTarget(rules[i], port, proto) && SourceOf(rules[i]) == c
  {
    var front := rules[..|rules| - 1];
    if c in Sources(front, port, proto) {
      i := ListedMember(front, port, proto, c);
    } else {
      i := |front|;
    }
  }

  // ---------- the deletes ----------

  /** Flags the port's rules that are not the first of a desired source. */
  function ObsoleteFlags(rules: seq<Rule>, port: int, proto: string, desired: set<string>): (flags: seq<bool>)
    ensures |flags| == |rules|
  {
    if rules == [] then []
    else
      var front, r := rules[..|rules| - 1], rules[|rules| - 1];
      ObsoleteFlags(front, port, proto, desired) +
      [OnTarget(r, port, proto) && (SourceOf(r) !in desired || SourceOf(r) in Sources(front, port, proto))]
  }

  /** The first occurrence of each desired source. */
  function Firsts(s: seq<string>, desired: set<string>): seq<string> {
    if s == [] then []
    else
      var front, c := s[..|s| - 1], s[|s| - 1];
      Firsts(front, desired) + if c in desired && c !in front then [c] else []
  }

  lemma {:induction false} FirstsAre(s: seq<string>, desired: set<string>)
    ensures NoDup(Firsts(s, desired))
    ensures forall x :: x in Firsts(s, desired) <==> x in s && x in desired
  {
    if s == [] {
    } else {
      var front, c := s[..|s| - 1], s[|s| - 1];
      FirstsAre(front, desired);
      assert forall x :: x in s <==> x in front || x == c;
      assert forall x :: x in Firsts(front, desired) + [c] <==> x in Firsts(front, desired) || x == c;
    }
  }

  lemma {:induction false} FirstsOne(s: seq<string>, c: string, desired: set<string>)
    ensures Firsts(s + [c], desired) == Firsts(s, desired) + if c in desired && c !in s then [c] else []
  {
    assert (s + [c])[..|s|] == s;
  }

  lemma {:induction false} KeepFirsts(rules: seq<Rule>, port: int, proto: string, desired: set<string>)
    ensures var left := Unflagged(rules, ObsoleteFlags(rules, port, proto, desired));
            && Sources(left, port, proto) == Firsts(Sources(rules, port, proto), desired)
            && Elsewhere(left, port, proto) == Elsewhere(rules, port, proto)
  {
    if rules == [] {
    } else {
      var front, r := rules[..|rules| - 1], rules[|rules| - 1];
      var flags := ObsoleteFlags(rules, port, proto, desired);
      var kept := Unflagged(front, ObsoleteFlags(front, port, proto, desired));
      KeepFirsts(front, port, proto, desired);
      assert flags[..|front|] == ObsoleteFlags(front, port, proto, desired);
      assert Unflagged(rules, flags) == if flags[|front|] then kept else kept + [r];
      KeepOne(front, kept, r, port, proto, desired);
    }
  }

  lemma {:induction false} KeepOne(front: seq<Rule>, kept: seq<Rule>, r: Rule, port: int, proto: string, desired: set<string>)
    requires Sources(kept, port, proto) == Firsts(Sources(front, port, proto), desired)
    requires Elsewhere(kept, port, proto) == Elsewhere(front, port, proto)
    ensures var target := OnTarget(r, port, proto);
            var drop := target && (SourceOf(r) !in desired || SourceOf(r) in Sources(front, port, proto));
            var left := if drop then kept else kept + [r];
            var before := Sources(front, port, proto) + if target then [SourceOf(r)] else [];
            && Sources(left, port, proto) == Firsts(before, desired)
            && Elsewhere(left, port, proto) == Elsewhere(front, port, proto) + if target then [] else [r]
  {
    SplitTarget(kept, [r], port, proto);
    TargetOne(r, port, proto);
    if OnTarget(r, port, proto) {
      FirstsOne(Sources(front, port, proto), SourceOf(r), desired);
    } else {
      assert Sources(front, port, proto) + [] == Sources(front, port, proto);
    }
  }

  /** The agent's view of the port grows with the rule list. */
  lemma {:induction false} ListedOne(rules: seq<Rule>, port: int, proto: string)
    requires rules != []
    ensures var front, r := rules[..|rules| - 1], rules[|rules| - 1];
            ForPort(Listing(rules), port, proto) ==
            ForPort(Listing(front), port, proto) +
            if OnTarget(r, port, proto) then [ExistingRule(|rules|, r.port, r.proto, SourceOf(r), r.v6)] else []
  {
    var front, r := rules[..|rules| - 1], rules[|rules| - 1];
    ForPortOne(Listing(front), if r.Allow? then Some(ExistingRule(|rules|, r.port, r.proto, SourceOf(r), r.v6)) else None,
               port, proto);
  }

  lemma {:induction false} ListedSources(rules: seq<Rule>, port: int, proto: string)
    ensures var rs := ForPort(Listing(rules), port, proto);
            && |rs| == |Sources(rules, port, proto)|
            && forall i | 0 <= i < |rs| :: rs[i].source == Sources(rules, port, proto)[i]
  {
    if rules == [] {
    } else {
      ListedSources(rules[..|rules| - 1], port, proto);
      ListedOne(rules, port, proto);
    }
  }

  lemma {:induction false} SourceSetOf(rs: seq<ExistingRule>, s: seq<string>)
    requires |rs| == |s| && forall i | 0 <= i < |rs| :: rs[i].source == s[i]
    ensures SourceSet(rs) == SetOf(s)
  {
    if rs == [] {
    } else {
      var n := |rs| - 1;
      SourceSetOf(rs[..n], s[..n]);
      assert s == s[..n] + [s[n]];
      assert forall x :: x in s <==> x in s[..n] || x == s[n];
    }
  }

  lemma {:induction false} ListedSet(rules: seq<Rule>, port: int, proto: string)
    ensures SourceSet(ForPort(Listing(rules), port, proto)) == SetOf(Sources(rules, port, proto))
  {
    ListedSources(rules, port, proto);
    SourceSetOf(ForPort(Listing(rules), port, proto), Sources(rules, port, proto));
  }

  /** The planned deletes are the flagged rules. */
  lemma {:induction false} PlannedDeletes(rules: seq<Rule>, port: int, proto: string, desired: set<string>)
    ensures Obsolete(ForPort(Listing(rules), port, proto), desired) ==
            Numbers(ObsoleteFlags(rules, port, proto, desired))
  {
    if rules == [] {
    } else {
      var front, r := rules[..|rules| - 1], rules[|rules| - 1];
      var flags := ObsoleteFlags(rules, port, proto, desired);
      PlannedDeletes(front, port, proto, desired);
      assert flags[..|front|] == ObsoleteFlags(front, port, proto, desired);
      ListedOne(rules, port, proto);
      ListedSet(front, port, proto);
      var before := ForPort(Listing(front), port, proto);
      if OnTarget(r, port, proto) {
        ObsoleteSnoc(before, ExistingRule(|rules|, r.port, r.proto, SourceOf(r), r.v6), desired);
      } else {
        assert before + [] == before;
      }
    }
  }

  // ---------- the adds ----------

  predicate IsBlanket(c: string) { c == ANY4 || c == ANY6 }

  /** What everyone means to UFW. */
  function Anywhere(ufw: Settings): set<string> { if ufw.ipv6 then {ANY4, ANY6} else {ANY4} }

  /** UFW refuses the entry. */
  predicate IsRefused(c: string, ufw: Settings) { !IsBlanket(c) && !ufw.ipv6 && ':' in c }

  /** The sources that `ufw allow` lists for an entry: every family for a blanket entry,
      UFW's own form for any other that it takes. */
  function Image(c: string, ufw: Settings): set<string> {
    if IsBlanket(c) then Anywhere(ufw) else if IsRefused(c, ufw) then {} else {ufw.canon(c)}
  }

  function Images(cs: set<string>, ufw: Settings): set<string> {
    set c, s | c in cs && s in Image(c, ufw) :: s
  }

  lemma {:induction false} AddedSource(before: seq<Rule>, port: nat, proto: string, c: string, after: seq<Rule>)
    requires IsCidr(c) && PrintsAddresses(before) && Added(before, RuleFor(port, proto, c), after)
    requires NoDup(Sources(before, port, proto))
    ensures NoDup(Sources(after, port, proto))
    ensures SetOf(Sources(after, port, proto)) == SetOf(Sources(before, port, proto)) + {c}
    ensures Elsewhere(after, port, proto) == Elsewhere(before, port, proto)
  {
    var r := RuleFor(port, proto, c);
    SourceRoundTrip(port, proto, c);
    if r in before {
      var i :| 0 <= i < |before| && before[i] == r;
      MemberListed(before, port, proto, i);
    } else {
      var i :| 0 <= i <= |before| && after == InsertAt(before, i, r);
      if c in Sources(before, port, proto) {
        var k := ListedMember(before, port, proto, c);
        assert false;
      }
      InsertTarget(before, i, r, port, proto);
    }
  }

  lemma {:induction false} InsertTarget(before: seq<Rule>, i: nat, r: Rule, port: int, proto: string)
    requires i <= |before| && OnTarget(r, port, proto) && NoDup(Sources(before, port, proto))
    requires SourceOf(r) !in Sources(before, port, proto)
    ensures var after := InsertAt(before, i, r);
            && NoDup(Sources(after, port, proto))
            && SetOf(Sources(after, port, proto)) == SetOf(Sources(before, port, proto)) + {SourceOf(r)}
            && Elsewhere(after, port, proto) == Elsewhere(before, port, proto)
  {
    var a, b := before[..i], before[i..];
    assert before == a + b;
    SplitTarget(a, b, port, proto);
    SplitThree(a, r, b, port, proto);
    MiddleNoDup(Sources(a, port, proto), SourceOf(r), Sources(b, port, proto));
  }

  lemma {:induction false} SplitThree(a: seq<Rule>, r: Rule, b: seq<Rule>, port: int, proto: string)
    requires OnTarget(r, port, proto)
    ensures Sources(a + [r] + b, port, proto) == Sources(a, port, proto) + [SourceOf(r)] + Sources(b, port, proto)
    ensures Elsewhere(a + [r] + b, port, proto) == Elsewhere(a, port, proto) + Elsewhere(b, port, proto)
  {
    SplitTarget(a, [r], port, proto);
    SplitTarget(a + [r], b, port, proto);
    TargetOne(r, port, proto);
  }

  lemma {:induction false} MiddleNoDup(a: seq<string>, c: string, b: seq<string>)
    requires NoDup(a + b) && c !in a + b
    ensures NoDup(a + [c] + b) && SetOf(a + [c] + b) == SetOf(a + b) + {c}
  {
    var s, t := a + b, a + [c] + b;
    forall i, j | 0 <= i < j < |t|
      ensures t[i] != t[j]
    {
      assert t[i] == if i < |a| then s[i] else if i == |a| then c else s[i - 1];
      assert t[j] == if j < |a| then s[j] else if j == |a| then c else s[j - 1];
    }
    assert forall x :: x in t <==> x in s || x == c;
  }

  /** Adding a source never disturbs the rest of the list and loses no source. */
  lemma {:induction false} AddedElsewhere(before: seq<Rule>, port: nat, proto: string, c: string, after: seq<Rule>)
    requires Added(before, RuleFor(port, proto, c), after)
    ensures Elsewhere(after, port, proto) == Elsewhere(before, port, proto)
    ensures SetOf(Sources(before, port, proto)) <= SetOf(Sources(after, port, proto))
  {
    var r := RuleFor(port, proto, c);
    if r !in before {
      var i :| 0 <= i <= |before| && after == InsertAt(before, i, r);
      assert before == before[..i] + before[i..];
      SplitTarget(before[..i], before[i..], port, proto);
      SplitThree(before[..i], r, before[i..], port, proto);
    }
  }

  // ---------- one run ----------

  /** The port's sources after a run, from those before it. */
  function NextSources(sources: set<string>, desired: set<string>, ufw: Settings): set<string> {
    sources * desired + Images(desired - sources, ufw)
  }

  lemma {:induction false} FirstKept(rules: seq<Rule>, port: int, proto: string, desired: set<string>, c: string) returns (i: nat)
    requires c in desired && c in Sources(rules, port, proto)
    ensures i < |rules| && OnTarget(rules[i], port, proto) && SourceOf(rules[i]) == c
    ensures !ObsoleteFlags(rules, port, proto, desired)[i]
  {
    var front := rules[..|rules| - 1];
    if c in Sources(front, port, proto) {
      i := FirstKept(front, port, proto, desired, c);
    } else {
      i := |front|;
    }
  }

  lemma {:induction false} StaysWithout(rules: seq<Rule>, gone: set<nat>, i: nat)
    requires i < |rules| && i + 1 !in gone
    ensures rules[i] in Without(rules, gone)
  {
    if i < |rules| - 1 {
      StaysWithout(rules[..|rules| - 1], gone, i);
    }
  }

  lemma {:induction false} ElsewhereWithout(rules: seq<Rule>, gone: set<nat>, port: int, proto: string)
    requires forall n | n in gone && 1 <= n <= |rules| :: OnTarget(rules[n - 1], port, proto)
    ensures Elsewhere(Without(rules, gone), port, proto) == Elsewhere(rules, port, proto)
  {
    if rules == [] {
    } else {
      var front, r := rules[..|rules| - 1], rules[|rules| - 1];
      forall n | n in gone && 1 <= n <= |front|
        ensures OnTarget(front[n - 1], port, proto)
      {
        assert front[n - 1] == rules[n - 1];
      }
      ElsewhereWithout(front, gone, port, proto);
      if |rules| in gone {
        assert OnTarget(rules[|rules| - 1], port, proto);
        assert Without(front, gone) + [] == Without(front, gone);
      } else {
        SplitTarget(Without(front, gone), [r], port, proto);
        TargetOne(r, port, proto);
      }
    }
  }

  lemma {:induction false} FlagsOnTarget(rules: seq<Rule>, port: int, proto: string, desired: set<string>)
    ensures var flags := ObsoleteFlags(rules, port, proto, desired);
            forall i | 0 <= i < |rules| && flags[i] :: OnTarget(rules[i], port, proto)
  {
    if rules == [] {
    } else {
      FlagsOnTarget(rules[..|rules| - 1], port, proto, desired);
    }
  }

  /** However far the deletes get: nothing else is touched and no desired source is lost. */
  lemma {:induction false} SomeDeleted(rules: seq<Rule>, gone: set<nat>, port: int, proto: string, desired: set<string>)
    requires gone <= Elems(Numbers(ObsoleteFlags(rules, port, proto, desired)))
    ensures Elsewhere(Without(rules, gone), port, proto) == Elsewhere(rules, port, proto)
    ensures SetOf(Sources(rules, port, proto)) * desired <= SetOf(Sources(Without(rules, gone), port, proto))
  {
    var flags := ObsoleteFlags(rules, port, proto, desired);
    NumbersAscend(flags);
    FlagsOnTarget(rules, port, proto, desired);
    ElsewhereWithout(rules, gone, port, proto);
    forall c | c in SetOf(Sources(rules, port, proto)) * desired
      ensures c in Sources(Without(rules, gone), port, proto)
    {
      var i := FirstKept(rules, port, proto, desired, c);
      assert i + 1 !in Numbers(flags);
      StaysWithout(rules, gone, i);
      var k :| 0 <= k < |Without(rules, gone)| && Without(rules, gone)[k] == rules[i];
      MemberListed(Without(rules, gone), port, proto, k);
    }
  }

  /** All planned deletes done: one rule is left for each desired source that had one. */
  lemma {:induction false} AllDeleted(rules: seq<Rule>, port: int, proto: string, desired: set<string>)
    ensures var left := Without(rules, Elems(Numbers(ObsoleteFlags(rules, port, proto, desired))));
            && NoDup(Sources(left, port, proto))
            && SetOf(Sources(left, port, proto)) == SetOf(Sources(rules, port, proto)) * desired
  {
    WithoutPlan(rules, ObsoleteFlags(rules, port, proto, desired));
    KeepFirsts(rules, port, proto, desired);
    FirstsAre(Sources(rules, port, proto), desired);
  }

  /** What adding sources does to the port: the rest of the list stays, no source is
      lost, and sources listed once are still listed once. */
  ghost predicate Gains(before: seq<Rule>, port: nat, proto: string, cs: set<string>, after: seq<Rule>) {
    && Elsewhere(after, port, proto) == Elsewhere(before, port, proto)
    && SetOf(Sources(before, port, proto)) <= SetOf(Sources(after, port, proto))
    && (PrintsAddresses(before) && NoDup(Sources(before, port, proto)) ==>
        && PrintsAddresses(after) && NoDup(Sources(after, port, proto))
        && SetOf(Sources(after, port, proto)) == SetOf(Sources(before, port, proto)) + cs)
  }

  lemma {:induction false} AddedGains(before: seq<Rule>, port: nat, proto: string, c: string, after: seq<Rule>)
    requires IsCidr(c) && Added(before, RuleFor(port, proto, c), after)
    ensures Gains(before, port, proto, {c}, after)
  {
    AddedElsewhere(before, port, proto, c, after);
    if PrintsAddresses(before) && NoDup(Sources(before, port, proto)) {
      AddedSource(before, port, proto, c, after);
      AddedPrints(before, port, proto, c, after);
    }
  }

  /** One successful `ufw allow` of the agent. */
  lemma {:induction false} AllowStep(before: seq<Rule>, port: nat, proto: string, c: string, ufw: Settings, after: seq<Rule>)
    requires 1 <= port <= 65535 && c != "" && IsSettings(ufw)
    requires ParseCommand(FormatAddRule(port, proto, c)).Some?
    requires Applied(before, ParseCommand(FormatAddRule(port, proto, c)).value, ufw, after)
    ensures Gains(before, port, proto, Image(c, ufw), after)
  {
    FormatAddRuleMeaning(port, proto, c);
    if IsBlanket(c) {
      AnyAreCidrs();
      var mid :| Added(before, RuleFor(port, proto, ANY4), mid) &&
        (if ufw.ipv6 then Added(mid, RuleFor(port, proto, ANY6), after) else after == mid);
      AddedGains(before, port, proto, ANY4, mid);
      if ufw.ipv6 { AddedGains(mid, port, proto, ANY6, after); }
    } else {
      AddedGains(before, port, proto, ufw.canon(c), after);
    }
  }

  lemma {:induction false} AddedPrints(before: seq<Rule>, port: nat, proto: string, c: string, after: seq<Rule>)
    requires IsCidr(c) && PrintsAddresses(before) && Added(before, RuleFor(port, proto, c), after)
    ensures PrintsAddresses(after)
  {
    SourceRoundTrip(port, proto, c);
    var r := RuleFor(port, proto, c);
    if r !in before {
      var i :| 0 <= i <= |before| && after == InsertAt(before, i, r);
      InsertAll(before, i, r, x => PrintsAddress(x));
    }
  }
}
