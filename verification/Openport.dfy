/** internal/openport/openport.go: bringing one port's rules to the desired sources. */
module Openport {
  import opened Text
  import opened UfwLine
  import opened Allowlist
  import opened Ufw
  import opened Renumbering
  import opened Firewalls
  import opened PortRules

  datatype Outcome = Err | Ok(allowed: seq<string>)

  /** The rules of the port as the agent sees them. */
  function Seen(active: bool, rules: seq<Rule>, port: int, proto: string): seq<ExistingRule> {
    ForPort(if active then Listing(rules) else [], port, proto)
  }

  method ListRulesForPort(fw: Firewall, port: int, proto: string) returns (r: Option<seq<ExistingRule>>)
    requires fw.Valid()
    ensures r.Some? ==> r.value == Seen(fw.active, fw.rules, port, proto)
    ensures fw.reliable ==> r.Some?
  {
    var out := fw.StatusNumbered();
    if out.None? { return None; }
    StatusRoundTrip(fw.header, fw.active, fw.rules);
    var rules := ParseUFWRulesForPort(out.value, port, proto);
    r := Some(rules);
  }

  function PortSources(rules: seq<Rule>, port: int, proto: string): set<string> {
    SetOf(Sources(rules, port, proto))
  }

  /** UFW takes every one of the entries. */
  predicate AllTaken(cs: set<string>, ufw: Settings) { forall c | c in cs :: !IsRefused(c, ufw) }

  lemma TakenParts(cs: set<string>, all: set<string>, ufw: Settings)
    requires cs <= all
    ensures AllTaken(all, ufw) ==> AllTaken(cs, ufw)
  {}

  /** The loop over the entries to add. */
  method AddMissing(fw: Firewall, port: nat, proto: string, toAdd: seq<string>) returns (ok: bool)
    requires fw.Valid() && 1 <= port <= 65535 && "" !in toAdd
    modifies fw`rules
    ensures fw.Valid()
    ensures Elsewhere(fw.rules, port, proto) == old(Elsewhere(fw.rules, port, proto))
    ensures old(PortSources(fw.rules, port, proto)) <= PortSources(fw.rules, port, proto)
    ensures ok && NoDup(old(Sources(fw.rules, port, proto))) ==>
            NoDup(Sources(fw.rules, port, proto)) &&
            PortSources(fw.rules, port, proto) ==
            old(PortSources(fw.rules, port, proto)) + Images(SetOf(toAdd), fw.ufw)
    ensures fw.reliable && IsProto(proto) && AllTaken(SetOf(toAdd), fw.ufw) && !ok ==>
            |fw.rules| + 2 > MAX_INT64
  {
    assert SetOf(toAdd[..0]) == {};
    for i := 0 to |toAdd|
      invariant fw.Valid()
      invariant Elsewhere(fw.rules, port, proto) == old(Elsewhere(fw.rules, port, proto))
      invariant old(PortSources(fw.rules, port, proto)) <= PortSources(fw.rules, port, proto)
      invariant NoDup(old(Sources(fw.rules, port, proto))) ==>
        NoDup(Sources(fw.rules, port, proto)) &&
        PortSources(fw.rules, port, proto) ==
        old(PortSources(fw.rules, port, proto)) + Images(SetOf(toAdd[..i]), fw.ufw)
    {
      ghost var before := fw.rules;
      ImagesStep(toAdd, i, fw.ufw);
      FormatAddRuleMeaning(port, proto, toAdd[i]);
      ok := fw.Allow(FormatAddRule(port, proto, toAdd[i]));
      if !ok {
        AbandonStep(before, port, proto, toAdd[i], fw.ufw, fw.rules);
        return;
      }
      AllowStep(before, port, proto, toAdd[i], fw.ufw, fw.rules);
    }
    assert toAdd[..|toAdd|] == toAdd;
    ok := true;
  }

  lemma {:induction false} ImagesStep(cs: seq<string>, i: nat, ufw: Settings)
    requires i < |cs|
    ensures Images(SetOf(cs[..i + 1]), ufw) == Images(SetOf(cs[..i]), ufw) + Image(cs[i], ufw)
  {
    assert cs[..i + 1] == cs[..i] + [cs[i]];
    assert SetOf(cs[..i + 1]) == SetOf(cs[..i]) + {cs[i]};
  }

  lemma {:induction false} AbandonStep(before: seq<Rule>, port: nat, proto: string, c: string, ufw: Settings, after: seq<Rule>)
    requires 1 <= port <= 65535 && c != "" && IsSettings(ufw)
    requires Abandoned(before, ParseCommand(FormatAddRule(port, proto, c)), ufw, after)
    ensures Elsewhere(after, port, proto) == Elsewhere(before, port, proto)
    ensures PortSources(before, port, proto) <= PortSources(after, port, proto)
  {
    var cmd := ParseCommand(FormatAddRule(port, proto, c));
    FormatAddRuleMeaning(port, proto, c);
    if after == before {
    } else if Applied(before, cmd.value, ufw, after) {
      AllowStep(before, port, proto, c, ufw, after);
    } else {
      AddedElsewhere(before, port, proto, ANY4, after);
    }
  }

  function SourceList(rules: seq<ExistingRule>): (s: seq<string>)
    ensures |s| == |rules| && forall i | 0 <= i < |s| :: s[i] == rules[i].source
  {
    seq(|rules|, i requires 0 <= i < |rules| => rules[i].source)
  }

  /** Each source once, in the order seen. */
  method Summarize(rules: seq<ExistingRule>) returns (allowed: seq<string>)
    ensures NoDup(allowed) && SetOf(allowed) == SourceSet(rules)
    ensures NoDup(SourceList(rules)) ==> allowed == SourceList(rules)
  {
    allowed := [];
    for i := 0 to |rules|
      invariant NoDup(allowed) && SetOf(allowed) == SourceSet(rules[..i])
      invariant NoDup(SourceList(rules)) ==> allowed == SourceList(rules)[..i]
    {
      ObsoleteOne(rules, i, {});
      var c := rules[i].source;
      if c in allowed { continue; }
      allowed := allowed + [c];
    }
    assert rules[..|rules|] == rules;
  }

  lemma {:induction false} DesiredNotBlank(desired: seq<string>)
    ensures "" !in Entries(desired) && "" !in DesiredSet(desired)
  {
    if desired == [] {
    } else {
      DesiredNotBlank(desired[..|desired| - 1]);
    }
  }

  /** The loop over the rules to delete. */
  method DeleteObsolete(fw: Firewall, port: nat, proto: string, ghost D: set<string>, plan: seq<nat>) returns (ok: bool)
    requires fw.Valid() && plan == SortDescending(Obsolete(Seen(fw.active, fw.rules, port, proto), D))
    modifies fw`rules
    ensures fw.Valid()
    ensures Elsewhere(fw.rules, port, proto) == old(Elsewhere(fw.rules, port, proto))
    ensures old(PortSources(fw.rules, port, proto)) * D <= PortSources(fw.rules, port, proto)
    ensures ok && fw.active ==>
            NoDup(Sources(fw.rules, port, proto)) &&
            PortSources(fw.rules, port, proto) == old(PortSources(fw.rules, port, proto)) * D
    ensures fw.reliable ==> ok
  {
    ghost var start := fw.rules;
    ghost var flags := if fw.active then ObsoleteFlags(start, port, proto, D) else [];
    PlannedDeletes(start, port, proto, D);
    PlanIsDescending(flags);
    assert plan == SortDescending(Numbers(flags));
    ghost var done;
    ok, done := fw.DeleteAll(plan);
    assert Elems(plan[..done]) <= Elems(plan) == Elems(Numbers(flags));
    if fw.active {
      SomeDeleted(start, Elems(plan[..done]), port, proto, D);
      AllDeleted(start, port, proto, D);
      assert ok ==> plan[..done] == plan;
    } else {
      WithoutLater(start, Elems(plan[..done]));
    }
  }

  lemma {:induction false} SeenSet(active: bool, rules: seq<Rule>, port: int, proto: string)
    ensures SourceSet(Seen(active, rules, port, proto)) == if active then PortSources(rules, port, proto) else {}
  {
    ListedSet(rules, port, proto);
  }

  lemma {:induction false} AddsAre(toAdd: seq<string>, desired: seq<string>, sources: set<string>)
    requires multiset(toAdd) == multiset(DesiredSet(desired) - sources)
    ensures SetOf(toAdd) == DesiredSet(desired) - sources && "" !in toAdd
  {
    DesiredNotBlank(desired);
    forall c
      ensures c in toAdd <==> c in DesiredSet(desired) - sources
    {
      assert c in toAdd <==> c in multiset(toAdd);
    }
  }

  /** The sources in place at the end, as reported. */
  method ReadBack(fw: Firewall, port: nat, proto: string) returns (r: Outcome)
    requires fw.Valid()
    ensures r.Ok? && fw.active && NoDup(Sources(fw.rules, port, proto)) ==> r.allowed == Sources(fw.rules, port, proto)
    ensures r.Ok? && !fw.active ==> r.allowed == []
    ensures fw.reliable ==> r.Ok?
  {
    var after := ListRulesForPort(fw, port, proto);
    if after.None? { return Err; }
    ListedSources(fw.rules, port, proto);
    assert fw.active ==> SourceList(after.value) == Sources(fw.rules, port, proto);
    var allowed := Summarize(after.value);
    r := Ok(allowed);
  }

  /** Every source in place is a given entry or what UFW lists for one, and every given entry
      is in place or has its sources there; if no entry is given, the sources are those of an
      open port, and it is open. Entries count when they are not blank. */
  ghost predicate ComeFrom(sources: set<string>, desired: seq<string>, ufw: Settings) {
    && (forall s | s in sources ::
         (exists i | 0 <= i < |desired| :: TrimSpace(desired[i]) != "" &&
            (s == TrimSpace(desired[i]) || s in Image(TrimSpace(desired[i]), ufw))) ||
         ((forall i | 0 <= i < |desired| :: TrimSpace(desired[i]) == "") && s in {"0.0.0.0/0", "::/0"}))
    && (forall i | 0 <= i < |desired| && TrimSpace(desired[i]) != "" ::
         TrimSpace(desired[i]) in sources || Image(TrimSpace(desired[i]), ufw) <= sources)
    && ((forall i | 0 <= i < |desired| :: TrimSpace(desired[i]) == "") ==> "0.0.0.0/0" in sources)
  }

  lemma {:induction false} NextComeFrom(sources: set<string>, desired: seq<string>, ufw: Settings)
    ensures ComeFrom(NextSources(sources, DesiredSet(desired), ufw), desired, ufw)
  {
    var next := NextSources(sources, DesiredSet(desired), ufw);
    NoEntries(desired);
    forall s | s in next && !(forall i | 0 <= i < |desired| :: TrimSpace(desired[i]) == "")
      ensures exists i | 0 <= i < |desired| :: TrimSpace(desired[i]) != "" &&
                (s == TrimSpace(desired[i]) || s in Image(TrimSpace(desired[i]), ufw))
    {
      var c := NextFrom(sources, DesiredSet(desired), ufw, s);
      EntriesAre(desired, c);
    }
    forall s | s in next && Entries(desired) == {}
      ensures s in {"0.0.0.0/0", "::/0"}
    {
      var c := NextFrom(sources, {ANY4}, ufw, s);
    }
    forall i | 0 <= i < |desired| && TrimSpace(desired[i]) != ""
      ensures TrimSpace(desired[i]) in next || Image(TrimSpace(desired[i]), ufw) <= next
    {
      EntriesAre(desired, TrimSpace(desired[i]));
      NextHas(sources, DesiredSet(desired), ufw, TrimSpace(desired[i]));
    }
    if Entries(desired) == {} { NextHas(sources, {ANY4}, ufw, ANY4); }
  }

  lemma NextFrom(sources: set<string>, desired: set<string>, ufw: Settings, s: string) returns (c: string)
    requires s in NextSources(sources, desired, ufw)
    ensures c in desired && (s == c || s in Image(c, ufw))
  {
    if s in sources * desired {
      c := s;
    } else {
      c :| c in desired - sources && s in Image(c, ufw);
    }
  }

  lemma NextHas(sources: set<string>, desired: set<string>, ufw: Settings, c: string)
    requires c in desired
    ensures c in NextSources(sources, desired, ufw) || Image(c, ufw) <= NextSources(sources, desired, ufw)
  {
    if c !in sources {
      forall s | s in Image(c, ufw)
        ensures s in NextSources(sources, desired, ufw)
      {
        InImages(c, desired - sources, ufw, s);
      }
    }
  }

  /** One run. Rules of other ports and protocols, and rules the agent cannot parse,
      are never touched, in whatever way the run ends; no desired source that was
      there is lost. When the run succeeds on an active firewall, the port has the
      sources of `NextSources`, each once, and reports them. */
  method Reconcile(fw: Firewall, port: nat, proto: string, desired: seq<string>) returns (r: Outcome)
    requires fw.Valid() && 1 <= port <= 65535
    modifies fw`rules
    ensures fw.Valid()
    ensures Elsewhere(fw.rules, port, proto) == old(Elsewhere(fw.rules, port, proto))
    ensures old(PortSources(fw.rules, port, proto)) * DesiredSet(desired) <= PortSources(fw.rules, port, proto)
    ensures r.Ok? && fw.active ==>
            && NoDup(Sources(fw.rules, port, proto))
            && PortSources(fw.rules, port, proto) ==
               NextSources(old(PortSources(fw.rules, port, proto)), DesiredSet(desired), fw.ufw)
            && r.allowed == Sources(fw.rules, port, proto)
    ensures r.Ok? && fw.active ==>
            (PortSources(fw.rules, port, proto) == DesiredSet(desired) <==>
             Settled(old(PortSources(fw.rules, port, proto)), DesiredSet(desired), fw.ufw) &&
             BlanketWanted(old(PortSources(fw.rules, port, proto)), DesiredSet(desired), fw.ufw))
    ensures r.Ok? && fw.active ==> ComeFrom(PortSources(fw.rules, port, proto), desired, fw.ufw)
    ensures r.Ok? && !fw.active ==> r.allowed == []
    ensures fw.reliable && IsProto(proto) && AllTaken(DesiredSet(desired), fw.ufw) && r.Err? ==> |fw.rules| + 2 > MAX_INT64
  {
    ExactAfterOneRun(PortSources(fw.rules, port, proto), DesiredSet(desired), fw.ufw);
    NextComeFrom(PortSources(fw.rules, port, proto), desired, fw.ufw);
    ghost var D := DesiredSet(desired);
    SeenSet(fw.active, fw.rules, port, proto);
    var existing := ListRulesForPort(fw, port, proto);
    if existing.None? { return Err; }
    var toDelete, toAdd := DiffAllowlist(existing.value, desired);
    AddsAre(toAdd, desired, SourceSet(existing.value));
    TakenParts(SetOf(toAdd), D, fw.ufw);

    var deleted := DeleteObsolete(fw, port, proto, D, toDelete);
    if !deleted { return Err; }
    var added := AddMissing(fw, port, proto, toAdd);
    if !added { return Err; }

    r := ReadBack(fw, port, proto);
  }

  function NormalizeProtocol(p: string): (proto: string)
    ensures p == "" ==> proto == "tcp"
    ensures p != "" ==> proto == p
  {
    if p == "" then "tcp" else p
  }

  /** Opening a port is one run for it, for tcp unless another protocol is given; a port out
      of range is refused untouched. */
  method OpenPort(fw: Firewall, port: int, protocol: string, desired: seq<string>) returns (r: Outcome)
    requires fw.Valid()
    modifies fw`rules
    ensures fw.Valid()
    ensures !(1 <= port <= 65535) ==> r == Err && fw.rules == old(fw.rules)
    ensures var proto := if protocol == "" then "tcp" else protocol;
            && Elsewhere(fw.rules, port, proto) == old(Elsewhere(fw.rules, port, proto))
            && old(PortSources(fw.rules, port, proto)) * DesiredSet(desired) <= PortSources(fw.rules, port, proto)
            && (r.Ok? && fw.active ==>
                NoDup(Sources(fw.rules, port, proto)) && r.allowed == Sources(fw.rules, port, proto) &&
                PortSources(fw.rules, port, proto) ==
                NextSources(old(PortSources(fw.rules, port, proto)), DesiredSet(desired), fw.ufw) &&
                ComeFrom(PortSources(fw.rules, port, proto), desired, fw.ufw))
            && (fw.reliable && IsProto(proto) && AllTaken(DesiredSet(desired), fw.ufw) && 1 <= port <= 65535 && r.Err? ==>
                |fw.rules| + 2 > MAX_INT64)
  {
    if port < 1 || port > 65535 { return Err; }
    var missing: bool := *;
    if missing && !fw.reliable { return Err; }  // ufw is not installed
    r := Reconcile(fw, port, NormalizeProtocol(protocol), desired);
  }

  // ---------- what one run achieves ----------

  /** The entries still to be added are all such as UFW lists when it is given them: written
      its own way, and of a family it handles. */
  ghost predicate Settled(sources: set<string>, desired: set<string>, ufw: Settings) {
    forall c | c in desired - sources :: c in Image(c, ufw)
  }

  /** A blanket entry still to be added stands for every family UFW handles. */
  predicate BlanketWanted(sources: set<string>, desired: set<string>, ufw: Settings) {
    (exists c | c in desired - sources :: IsBlanket(c)) ==> Anywhere(ufw) <= desired
  }

  lemma {:induction false} InImages(c: string, cs: set<string>, ufw: Settings, s: string)
    requires c in cs && s in Image(c, ufw)
    ensures s in Images(cs, ufw)
  {}

  lemma {:induction false} SettledImages(cs: set<string>, ufw: Settings)
    requires forall c | c in cs :: c in Image(c, ufw)
    ensures Images(cs, ufw) == cs + if exists c | c in cs :: IsBlanket(c) then Anywhere(ufw) else {}
  {
    forall c | c in cs
      ensures c in Images(cs, ufw)
    {
      InImages(c, cs, ufw, c);
    }
    if c :| c in cs && IsBlanket(c) {
      forall s | s in Anywhere(ufw) ensures s in Images(cs, ufw) { InImages(c, cs, ufw, s); }
    }
  }

  lemma {:induction false} SettledNext(sources: set<string>, desired: set<string>, ufw: Settings)
    requires Settled(sources, desired, ufw)
    ensures NextSources(sources, desired, ufw) ==
            desired + if exists c | c in desired - sources :: IsBlanket(c) then Anywhere(ufw) else {}
  {
    SettledImages(desired - sources, ufw);
    assert sources * desired + (desired - sources) == desired;
  }

  /** An entry UFW does not list when it is given it is not among the sources after a run,
      unless it was there before. */
  lemma {:induction false} NeverListed(sources: set<string>, desired: set<string>, ufw: Settings, c: string)
    requires IsSettings(ufw) && c !in sources && c !in Image(c, ufw)
    ensures c !in NextSources(sources, desired, ufw)
  {
    assert ':' in ANY6 by { assert ANY6[0] == ':'; }
    forall d | d in desired - sources
      ensures c !in Image(d, ufw)
    {}
  }

  /** One successful run reaches exactly the desired sources when, and only when, every
      missing entry is in UFW's form and a missing blanket entry is wanted for every family
      UFW handles. */
  lemma {:induction false} ExactAfterOneRun(sources: set<string>, desired: set<string>, ufw: Settings)
    requires IsSettings(ufw)
    ensures NextSources(sources, desired, ufw) == desired <==>
            Settled(sources, desired, ufw) && BlanketWanted(sources, desired, ufw)
  {
    if Settled(sources, desired, ufw) {
      SettledNext(sources, desired, ufw);
    } else {
      var c :| c in desired - sources && c !in Image(c, ufw);
      NeverListed(sources, desired, ufw, c);
    }
  }

  function Runs(n: nat, sources: set<string>, desired: set<string>, ufw: Settings): set<string> {
    if n == 0 then sources else NextSources(Runs(n - 1, sources, desired, ufw), desired, ufw)
  }

  lemma {:induction false} ExactStays(n: nat, desired: set<string>, ufw: Settings)
    ensures Runs(n, desired, desired, ufw) == desired
  {
    if n == 0 {
    } else {
      ExactStays(n - 1, desired, ufw);
      assert desired - desired == {} && Images({}, ufw) == {};
      assert NextSources(desired, desired, ufw) == desired;
    }
  }

  /** Two successful runs are enough, and later runs keep the result, exactly when
      the missing entries are in UFW's form; otherwise no number of runs is enough. */
  lemma {:induction false} ExactAfterTwoRuns(sources: set<string>, desired: set<string>, ufw: Settings)
    requires IsSettings(ufw)
    ensures Settled(sources, desired, ufw) ==> Runs(2, sources, desired, ufw) == desired
    ensures !Settled(sources, desired, ufw) ==> forall n :: Runs(n, sources, desired, ufw) != desired
  {
    var once := NextSources(sources, desired, ufw);
    assert Runs(1, sources, desired, ufw) == once by { assert Runs(0, sources, desired, ufw) == sources; }
    if Settled(sources, desired, ufw) {
      SettledImages(desired - sources, ufw);
      assert desired <= once;
      assert Images({}, ufw) == {};
      assert desired - once == {} && once * desired == desired;
    } else {
      var c :| c in desired - sources && c !in Image(c, ufw);
      forall n
        ensures Runs(n, sources, desired, ufw) != desired
      {
        NeverSettles(n, sources, desired, ufw, c);
      }
    }
  }

  lemma {:induction false} NeverSettles(n: nat, sources: set<string>, desired: set<string>, ufw: Settings, c: string)
    requires IsSettings(ufw) && c in desired - sources && c !in Image(c, ufw)
    ensures c !in Runs(n, sources, desired, ufw)
  {
    if n == 0 {
    } else {
      NeverSettles(n - 1, sources, desired, ufw, c);
      NeverListed(Runs(n - 1, sources, desired, ufw), desired, ufw, c);
    }
  }

  /** An address without a prefix length is only trimmed, never normalised: asked for and
      missing, it stays missing, and every run adds it again. Its stored form is there after
      every run, and unless it is wanted as well the next run deletes it. */
  lemma {:induction false} BareAddressNeverSettles(n: nat, sources: set<string>, desired: set<string>, ufw: Settings, c: string)
    requires IsSettings(ufw) && c in desired - sources && '/' !in c
    ensures c in desired - Runs(n, sources, desired, ufw)
    ensures n > 0 && !IsRefused(c, ufw) ==> ufw.canon(c) in Runs(n, sources, desired, ufw)
    ensures n > 0 && !IsRefused(c, ufw) && ufw.canon(c) !in desired ==>
            ufw.canon(c) in Runs(n, sources, desired, ufw) - desired &&
            ufw.canon(c) !in Runs(n, sources, desired, ufw) * desired
  {
    assert ANY4[7] == '/' && ANY6[2] == '/';
    NeverSettles(n, sources, desired, ufw, c);
    if n > 0 {
      var before := Runs(n - 1, sources, desired, ufw);
      NeverSettles(n - 1, sources, desired, ufw, c);
      if !IsRefused(c, ufw) { InImages(c, desired - before, ufw, ufw.canon(c)); }
    }
  }

  /** Asking twice for an open port ends with IPv4 only: the first run adds both
      families, the second takes the other one away. */
  lemma {:induction false} SecondBlanketRunDropsIPv6(sources: set<string>, ufw: Settings)
    requires ANY4 !in sources && ufw.ipv6
    ensures Runs(1, sources, {ANY4}, ufw) == {ANY4, ANY6}
    ensures Runs(2, sources, {ANY4}, ufw) == {ANY4}
  {
    assert Runs(0, sources, {ANY4}, ufw) == sources;
    assert {ANY4} - sources == {ANY4} && sources * {ANY4} == {};
    assert Images({ANY4}, ufw) == {ANY4, ANY6} by {
      InImages(ANY4, {ANY4}, ufw, ANY4);
      InImages(ANY4, {ANY4}, ufw, ANY6);
    }
    assert Runs(1, sources, {ANY4}, ufw) == {ANY4, ANY6};
    assert {ANY4} - {ANY4, ANY6} == {} && {ANY4, ANY6} * {ANY4} == {ANY4};
    assert Images({}, ufw) == {};
  }

  /** The agent plans nothing exactly when the port has the desired sources, each once. */
  lemma {:induction false} NothingPlanned(rules: seq<Rule>, port: int, proto: string, desired: set<string>)
    ensures var seen := Seen(true, rules, port, proto);
            Obsolete(seen, desired) == [] && desired - SourceSet(seen) == {} <==>
            NoDup(Sources(rules, port, proto)) && PortSources(rules, port, proto) == desired
  {
    PlannedDeletes(rules, port, proto, desired);
    ListedSet(rules, port, proto);
    var flags := ObsoleteFlags(rules, port, proto, desired);
    KeepFirsts(rules, port, proto, desired);
    NoneFlagged(rules, port, proto, desired);
    FirstsAre(Sources(rules, port, proto), desired);
    if Numbers(flags) == [] {
      NumbersAscend(flags);
      UnflaggedAll(rules, flags);
      assert forall c :: c in Sources(rules, port, proto) ==> c in desired;
    }
  }

  lemma {:induction false} UnflaggedAll(rules: seq<Rule>, flags: seq<bool>)
    requires |rules| == |flags| && Numbers(flags) == []
    ensures Unflagged(rules, flags) == rules
  {
    if rules == [] {
    } else {
      UnflaggedAll(rules[..|rules| - 1], flags[..|rules| - 1]);
    }
  }

  lemma LastIsNew(s: seq<string>, c: string)
    ensures NoDup(s + [c]) ==> NoDup(s) && c !in s
    ensures SetOf(s + [c]) == SetOf(s) + {c}
  {
    var t := s + [c];
    assert t[|s|] == c;
    assert forall i | 0 <= i < |s| :: t[i] == s[i];
  }

  lemma {:induction false} NoneFlagged(rules: seq<Rule>, port: int, proto: string, desired: set<string>)
    ensures NoDup(Sources(rules, port, proto)) && PortSources(rules, port, proto) <= desired ==>
            Numbers(ObsoleteFlags(rules, port, proto, desired)) == []
  {
    if rules == [] {
    } else {
      var front, r := rules[..|rules| - 1], rules[|rules| - 1];
      NoneFlagged(front, port, proto, desired);
      NumbersStep(rules, port, proto, desired);
      if OnTarget(r, port, proto) { LastIsNew(Sources(front, port, proto), SourceOf(r)); }
    }
  }

  // ---------- the reported change ----------

  /** The sources of the rules a run deletes, in rule order. */
  function RemovedSources(s: seq<string>, desired: set<string>): seq<string> {
    if s == [] then []
    else
      var front, c := s[..|s| - 1], s[|s| - 1];
      RemovedSources(front, desired) + if c in desired && c !in front then [] else [c]
  }

  lemma {:induction false} KeptAndRemoved(s: seq<string>, desired: set<string>)
    ensures multiset(s) == multiset(Firsts(s, desired)) + multiset(RemovedSources(s, desired))
  {
    if s == [] {
    } else {
      KeptAndRemoved(s[..|s| - 1], desired);
      assert s == s[..|s| - 1] + [s[|s| - 1]];
    }
  }

  /** beforeByNum: the source of each listed number. */
  function ByNumber(rs: seq<ExistingRule>): map<nat, string> {
    if rs == [] then map[] else ByNumber(rs[..|rs| - 1])[rs[|rs| - 1].number := rs[|rs| - 1].source]
  }

  function LookUp(ns: seq<nat>, m: map<nat, string>): seq<string> {
    if ns == [] then []
    else LookUp(ns[..|ns| - 1], m) + if ns[|ns| - 1] in m then [m[ns[|ns| - 1]]] else []
  }

  lemma {:induction false} LookUpAppend(a: seq<nat>, b: seq<nat>, m: map<nat, string>)
    ensures LookUp(a + b, m) == LookUp(a, m) + LookUp(b, m)
  {
    if b == [] {
      assert a + b == a;
    } else {
      assert (a + b)[..|a + b| - 1] == a + b[..|b| - 1];
      LookUpAppend(a, b[..|b| - 1], m);
    }
  }

  /** Taking one number out. */
  lemma {:induction false} TakeOut(b: seq<nat>, i: nat, m: map<nat, string>)
    requires i < |b|
    ensures var rest := b[..i] + b[i + 1..];
            && multiset(b) == multiset(rest) + multiset{b[i]}
            && multiset(LookUp(b, m)) == multiset(LookUp(rest, m)) + multiset(LookUp([b[i]], m))
  {
    var x, y := b[..i], b[i + 1..];
    assert b == x + ([b[i]] + y);
    LookUpAppend(x, [b[i]] + y, m);
    LookUpAppend([b[i]], y, m);
    LookUpAppend(x, y, m);
  }

  lemma Cancel(x: multiset<nat>, y: multiset<nat>, n: nat)
    requires x + multiset{n} == y + multiset{n}
    ensures x == y
  {
    assert x == x + multiset{n} - multiset{n};
    assert y == y + multiset{n} - multiset{n};
  }

  /** Looking the numbers up in another order finds the same sources. */
  lemma {:induction false} LookUpBag(a: seq<nat>, b: seq<nat>, m: map<nat, string>)
    requires multiset(a) == multiset(b)
    ensures multiset(LookUp(a, m)) == multiset(LookUp(b, m))
  {
    if a == [] {
      assert |b| == |multiset(b)| == 0;
    } else {
      assert a[0] in multiset(b);
      var i :| 0 <= i < |b| && b[i] == a[0];
      TakeOut(a, 0, m);
      TakeOut(b, i, m);
      Cancel(multiset(a[..0] + a[1..]), multiset(b[..i] + b[i + 1..]), a[0]);
      LookUpBag(a[..0] + a[1..], b[..i] + b[i + 1..], m);
    }
  }

  lemma {:induction false} ByNumberOne(rules: seq<Rule>, port: int, proto: string)
    requires rules != []
    ensures var front, r := rules[..|rules| - 1], rules[|rules| - 1];
            var m := ByNumber(ForPort(Listing(front), port, proto));
            ByNumber(ForPort(Listing(rules), port, proto)) ==
            if OnTarget(r, port, proto) then m[|rules| := SourceOf(r)] else m
  {
    ListedOne(rules, port, proto);
    var before := ForPort(Listing(rules[..|rules| - 1]), port, proto);
    var rs := ForPort(Listing(rules), port, proto);
    if OnTarget(rules[|rules| - 1], port, proto) {
      assert rs[..|rs| - 1] == before;
    } else {
      assert rs == before;
    }
  }

  lemma {:induction false} LookUpSame(ns: seq<nat>, m: map<nat, string>, n: nat, c: string)
    requires n !in ns
    ensures LookUp(ns, m[n := c]) == LookUp(ns, m)
  {
    if ns == [] {
    } else {
      LookUpSame(ns[..|ns| - 1], m, n, c);
    }
  }

  /** The sources looked up for the planned deletes are those of the deleted rules. */
  lemma {:induction false} LookUpPlan(rules: seq<Rule>, port: int, proto: string, desired: set<string>)
    ensures LookUp(Numbers(ObsoleteFlags(rules, port, proto, desired)), ByNumber(ForPort(Listing(rules), port, proto))) ==
            RemovedSources(Sources(rules, port, proto), desired)
  {
    if rules == [] {
    } else {
      LookUpPlan(rules[..|rules| - 1], port, proto, desired);
      LookUpStep(rules, port, proto, desired);
    }
  }

  lemma {:induction false} NumbersStep(rules: seq<Rule>, port: int, proto: string, desired: set<string>)
    requires rules != []
    ensures var front, r := rules[..|rules| - 1], rules[|rules| - 1];
            var numbers := Numbers(ObsoleteFlags(front, port, proto, desired));
            && |rules| !in numbers
            && Numbers(ObsoleteFlags(rules, port, proto, desired)) == numbers +
               if OnTarget(r, port, proto) && (SourceOf(r) !in desired || SourceOf(r) in Sources(front, port, proto))
               then [|rules|] else []
  {
    var front := rules[..|rules| - 1];
    NumbersAscend(ObsoleteFlags(front, port, proto, desired));
    assert ObsoleteFlags(rules, port, proto, desired)[..|front|] == ObsoleteFlags(front, port, proto, desired);
  }

  lemma {:induction false} LookUpNext(numbers: seq<nat>, m: map<nat, string>, n: nat, c: string, more: bool)
    requires n !in numbers
    ensures LookUp(numbers + if more then [n] else [], m[n := c]) == LookUp(numbers, m) + if more then [c] else []
  {
    LookUpSame(numbers, m, n, c);
    LookUpAppend(numbers, if more then [n] else [], m[n := c]);
    assert [n][..0] == [];
  }

  lemma {:induction false} LookUpStep(rules: seq<Rule>, port: int, proto: string, desired: set<string>)
    requires rules != []
    requires var front := rules[..|rules| - 1];
             LookUp(Numbers(ObsoleteFlags(front, port, proto, desired)), ByNumber(ForPort(Listing(front), port, proto))) ==
             RemovedSources(Sources(front, port, proto), desired)
    ensures LookUp(Numbers(ObsoleteFlags(rules, port, proto, desired)), ByNumber(ForPort(Listing(rules), port, proto))) ==
            RemovedSources(Sources(rules, port, proto), desired)
  {
    var front, r, n := rules[..|rules| - 1], rules[|rules| - 1], |rules|;
    var numbers := Numbers(ObsoleteFlags(front, port, proto, desired));
    var before := Sources(front, port, proto);
    ByNumberOne(rules, port, proto);
    NumbersStep(rules, port, proto, desired);
    if OnTarget(r, port, proto) {
      var c := SourceOf(r);
      LookUpNext(numbers, ByNumber(ForPort(Listing(front), port, proto)), n, c, c !in desired || c in before);
      RemovedOne(before, c, desired);
    } else {
      assert numbers + [] == numbers && before + [] == before;
    }
  }

  lemma {:induction false} RemovedOne(s: seq<string>, c: string, desired: set<string>)
    ensures RemovedSources(s + [c], desired) ==
            RemovedSources(s, desired) + if c in desired && c !in s then [] else [c]
  {
    assert (s + [c])[..|s|] == s;
  }

  datatype Update = Failed | Updated(removed: seq<string>, added: seq<string>, allowed: seq<string>)

  /** The change reported before the run, from the listing and the plan. */
  method ReportChange(before: seq<ExistingRule>, toDelete: seq<nat>) returns (removed: seq<string>)
    ensures removed == LookUp(toDelete, ByNumber(before))
  {
    var byNumber: map<nat, string> := map[];
    for i := 0 to |before|
      invariant byNumber == ByNumber(before[..i])
    {
      assert before[..i + 1][..i] == before[..i];
      byNumber := byNumber[before[i].number := before[i].source];
    }
    assert before[..|before|] == before;
    removed := [];
    for i := 0 to |toDelete|
      invariant removed == LookUp(toDelete[..i], byNumber)
    {
      assert toDelete[..i + 1][..i] == toDelete[..i];
      if toDelete[i] in byNumber {
        removed := removed + [byNumber[toDelete[i]]];
      }
    }
    assert toDelete[..|toDelete|] == toDelete;
  }

  /** The reported removals and additions always lead from the sources before to the
      desired ones; they lead to the sources actually in place exactly when the run is
      exact. Each final source is reported once. */
  method UpdateAllowlist(fw: Firewall, port: int, protocol: string, desired: seq<string>) returns (u: Update)
    requires fw.Valid()
    modifies fw`rules
    ensures fw.Valid()
    ensures !(1 <= port <= 65535) ==> u == Failed && fw.rules == old(fw.rules)
    ensures var proto := if protocol == "" then "tcp" else protocol;
            && Elsewhere(fw.rules, port, proto) == old(Elsewhere(fw.rules, port, proto))
            && old(PortSources(fw.rules, port, proto)) * DesiredSet(desired) <= PortSources(fw.rules, port, proto)
    ensures u.Updated? && fw.active ==>
            var proto := if protocol == "" then "tcp" else protocol;
            var before, after := old(Sources(fw.rules, port, proto)), Sources(fw.rules, port, proto);
            && multiset(u.removed) <= multiset(before)
            && (multiset(before) - multiset(u.removed) + multiset(u.added) == multiset(after) <==>
                Settled(SetOf(before), DesiredSet(desired), fw.ufw) &&
                BlanketWanted(SetOf(before), DesiredSet(desired), fw.ufw))
            && NoDup(u.allowed) && u.allowed == after
            && ComeFrom(SetOf(after), desired, fw.ufw)
    ensures fw.reliable && (protocol == "" || IsProto(protocol)) && AllTaken(DesiredSet(desired), fw.ufw) &&
            1 <= port <= 65535 && u.Failed? ==>
            |fw.rules| + 2 > MAX_INT64
  {
    var proto := NormalizeProtocol(protocol);
    if port < 1 || port > 65535 { return Failed; }
    var missing: bool := *;
    if missing && !fw.reliable { return Failed; }  // ufw is not installed
    ghost var start, D := fw.rules, DesiredSet(desired);
    var before := ListRulesForPort(fw, port, proto);
    if before.None? { return Failed; }
    var toDelete, toAdd := DiffAllowlist(before.value, desired);
    var removed := ReportChange(before.value, toDelete);
    var r := Reconcile(fw, port, proto, desired);
    if r.Err? { return Failed; }
    u := Updated(removed, toAdd, r.allowed);
    if fw.active {
      TrueDelta(start, port, proto, D, removed, toAdd);
      ExactAfterOneRun(PortSources(start, port, proto), D, fw.ufw);
      SameBag(Sources(fw.rules, port, proto), D);
    }
  }

  lemma {:induction false} TrueDelta(rules: seq<Rule>, port: int, proto: string, desired: set<string>,
                                     removed: seq<string>, added: seq<string>)
    requires var seen := Seen(true, rules, port, proto);
             && removed == LookUp(SortDescending(Obsolete(seen, desired)), ByNumber(seen))
             && multiset(added) == multiset(desired - SourceSet(seen))
    ensures var before := multiset(Sources(rules, port, proto));
            multiset(removed) <= before && before - multiset(removed) + multiset(added) == multiset(desired)
  {
    var s := Sources(rules, port, proto);
    RemovedBag(rules, port, proto, desired);
    KeptAndRemoved(s, desired);
    FirstsAre(s, desired);
    ListedSet(rules, port, proto);
    NoDupBag(Firsts(s, desired));
    KeptAndMissing(s, desired);
    Exchange(multiset(Firsts(s, desired)), multiset(removed), multiset(added));
  }

  lemma {:induction false} KeptAndMissing(s: seq<string>, desired: set<string>)
    ensures multiset(SetOf(Firsts(s, desired))) + multiset(desired - SetOf(s)) == multiset(desired)
  {
    FirstsAre(s, desired);
    assert SetOf(Firsts(s, desired)) == SetOf(s) * desired;
    DisjointBag(SetOf(s) * desired, desired - SetOf(s));
    assert SetOf(s) * desired + (desired - SetOf(s)) == desired;
  }

  lemma Exchange(kept: multiset<string>, removed: multiset<string>, added: multiset<string>)
    ensures removed <= kept + removed && kept + removed - removed + added == kept + added
  {}

  lemma {:induction false} RemovedBag(rules: seq<Rule>, port: int, proto: string, desired: set<string>)
    ensures var seen := Seen(true, rules, port, proto);
            multiset(LookUp(SortDescending(Obsolete(seen, desired)), ByNumber(seen))) ==
            multiset(RemovedSources(Sources(rules, port, proto), desired))
  {
    var seen := Seen(true, rules, port, proto);
    PlannedDeletes(rules, port, proto, desired);
    SortDescendingSorts(Obsolete(seen, desired));
    LookUpBag(SortDescending(Obsolete(seen, desired)), Obsolete(seen, desired), ByNumber(seen));
    LookUpPlan(rules, port, proto, desired);
  }

  lemma DisjointBag(a: set<string>, b: set<string>)
    requires a !! b
    ensures multiset(a + b) == multiset(a) + multiset(b)
  {}

  /** A list without repetition is its set. */
  lemma {:induction false} SameBag(s: seq<string>, d: set<string>)
    requires NoDup(s)
    ensures multiset(s) == multiset(d) <==> SetOf(s) == d
  {
    NoDupBag(s);
    if multiset(s) == multiset(d) {
      forall c
        ensures c in SetOf(s) <==> c in d
      {
        assert c in s <==> c in multiset(s);
        assert c in d <==> c in multiset(d);
      }
    }
  }

  lemma {:induction false} NoDupBag(s: seq<string>)
    requires NoDup(s)
    ensures multiset(s) == multiset(SetOf(s))
  {
    if s == [] {
    } else {
      var front, c := s[..|s| - 1], s[|s| - 1];
      NoDupBag(front);
      assert s == front + [c];
      assert SetOf(s) == SetOf(front) + {c};
    }
  }
}
