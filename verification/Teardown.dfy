/** The two other callers of the deletion loop: internal/resetvm/resetvm.go brings the
    firewall back to a list of allowed ports, internal/destroy/destroy.go closes one
    port. */
module Teardown {
  import opened Text
  import opened Allowlist
  import opened Ufw
  import opened Renumbering
  import opened Firewalls

  // ---------- rules picked by a property of the rule ----------

  /** Flags the parsable rules that satisfy a property. */
  function Picked(rules: seq<Rule>, pick: ExistingRule -> bool): (flags: seq<bool>)
    ensures |flags| == |rules|
  {
    if rules == [] then []
    else Picked(rules[..|rules| - 1], pick) + [Picks(|rules|, rules[|rules| - 1], pick)]
  }

  predicate Picks(n: nat, r: Rule, pick: ExistingRule -> bool) {
    r.Allow? && pick(ExistingRule(n, r.port, r.proto, SourceOf(r), r.v6))
  }

  /** The numbers of the listed rules that satisfy a property. */
  function NumbersOf(rs: seq<ExistingRule>, pick: ExistingRule -> bool): seq<nat> {
    if rs == [] then []
    else NumbersOf(rs[..|rs| - 1], pick) + if pick(rs[|rs| - 1]) then [rs[|rs| - 1].number] else []
  }

  lemma {:induction false} NumbersOfOne(rs: seq<ExistingRule>, i: nat, pick: ExistingRule -> bool)
    requires i < |rs|
    ensures NumbersOf(rs[..i + 1], pick) == NumbersOf(rs[..i], pick) + if pick(rs[i]) then [rs[i].number] else []
  {
    assert rs[..i + 1][..i] == rs[..i];
  }

  lemma {:induction false} PlanIsPicked(rules: seq<Rule>, pick: ExistingRule -> bool)
    ensures NumbersOf(Listing(rules), pick) == Numbers(Picked(rules, pick))
  {
    if rules == [] {
    } else {
      var front, r, n := rules[..|rules| - 1], rules[|rules| - 1], |rules|;
      PlanIsPicked(front, pick);
      assert Picked(rules, pick)[..|front|] == Picked(front, pick);
      if r.Allow? {
        var e := ExistingRule(n, r.port, r.proto, SourceOf(r), r.v6);
        assert (Listing(front) + [e])[..|Listing(front)|] == Listing(front);
      } else {
        assert Listing(front) + [] == Listing(front);
      }
    }
  }

  lemma {:induction false} PickedAt(rules: seq<Rule>, pick: ExistingRule -> bool, i: nat)
    requires i < |rules|
    ensures Picked(rules, pick)[i] == Picks(i + 1, rules[i], pick)
  {
    if i < |rules| - 1 { PickedAt(rules[..|rules| - 1], pick, i); }
  }

  /** A property of a rule that does not depend on its number. */
  ghost predicate Numberless(pick: ExistingRule -> bool, stay: Rule -> bool) {
    forall n, r {:trigger Picks(n, r, pick)} :: stay(r) == !Picks(n, r, pick)
  }

  lemma {:induction false} UnflaggedIsFilter(rules: seq<Rule>, pick: ExistingRule -> bool, stay: Rule -> bool)
    requires Numberless(pick, stay)
    ensures Unflagged(rules, Picked(rules, pick)) == Filter(rules, stay)
  {
    if rules == [] {
    } else {
      var front := rules[..|rules| - 1];
      UnflaggedIsFilter(front, pick, stay);
      assert Picked(rules, pick)[..|front|] == Picked(front, pick);
      assert stay(rules[|front|]) == !Picks(|rules|, rules[|front|], pick);
    }
  }

  /** Deleting the picked rules: done entirely, exactly the others are left, in order;
      stopped early, the others are all still there, in order. */
  method DeletePicked(fw: Firewall, ghost pick: ExistingRule -> bool, ghost stay: Rule -> bool, plan: seq<nat>) returns (ok: bool)
    requires fw.Valid() && Numberless(pick, stay)
    requires plan == SortDescending(NumbersOf(if fw.active then Listing(fw.rules) else [], pick))
    modifies fw`rules
    ensures fw.Valid()
    ensures Filter(fw.rules, stay) == Filter(old(fw.rules), stay)
    ensures ok && fw.active ==> fw.rules == Filter(old(fw.rules), stay)
    ensures !fw.active ==> ok && fw.rules == old(fw.rules)
    ensures fw.reliable ==> ok
  {
    ghost var start := fw.rules;
    PlanFits(fw.active, start, pick);
    ghost var done;
    ok, done := fw.DeleteAll(plan);
    if fw.active {
      PickedAreGone(start, pick, stay, plan, done);
    } else {
      WithoutLater(start, Elems(plan[..done]));
    }
  }

  lemma {:induction false} PlanFits(active: bool, rules: seq<Rule>, pick: ExistingRule -> bool)
    ensures var plan := SortDescending(NumbersOf(if active then Listing(rules) else [], pick));
            && StrictlyDescending(plan) && Within(plan, |rules|)
            && (if active then plan == SortDescending(Numbers(Picked(rules, pick))) else plan == [])
  {
    PlanIsPicked(rules, pick);
    PlanIsDescending(if active then Picked(rules, pick) else []);
  }

  /** Numbers of rules that do not stay, from the highest down. */
  predicate Removes(plan: seq<nat>, rules: seq<Rule>, stay: Rule -> bool) {
    StrictlyDescending(plan) && forall i | 0 <= i < |plan| :: 1 <= plan[i] <= |rules| && !stay(rules[plan[i] - 1])
  }

  /** The plan has the numbers of all rules that do not stay, and no others. */
  lemma PlannedNumbers(rules: seq<Rule>, pick: ExistingRule -> bool, stay: Rule -> bool)
    requires Numberless(pick, stay)
    ensures var plan := SortDescending(NumbersOf(Listing(rules), pick));
            Removes(plan, rules, stay) && |plan| + |Filter(rules, stay)| == |rules|
  {
    var plan, flags := SortDescending(NumbersOf(Listing(rules), pick)), Picked(rules, pick);
    PlanIsPicked(rules, pick);
    PlanIsDescending(flags);
    NumbersAscend(flags);
    forall i | 0 <= i < |plan|
      ensures 1 <= plan[i] <= |rules| && !stay(rules[plan[i] - 1])
    {
      assert plan[i] in Elems(Numbers(flags));
      PickedAt(rules, pick, plan[i] - 1);
    }
    SortAscending(Numbers(flags));
    UnflaggedIsFilter(rules, pick, stay);
    FlaggedOrNot(rules, flags);
  }

  lemma {:induction false} FlaggedOrNot<T>(s: seq<T>, flags: seq<bool>)
    requires |s| == |flags|
    ensures |Numbers(flags)| + |Unflagged(s, flags)| == |s|
  {
    if s == [] {
    } else {
      FlaggedOrNot(s[..|s| - 1], flags[..|s| - 1]);
    }
  }

  lemma {:induction false} PickedAreGone(rules: seq<Rule>, pick: ExistingRule -> bool, stay: Rule -> bool, plan: seq<nat>, done: nat)
    requires Numberless(pick, stay) && plan == SortDescending(Numbers(Picked(rules, pick))) && done <= |plan|
    ensures var left := Without(rules, Elems(plan[..done]));
            Filter(left, stay) == Filter(rules, stay) && (done == |plan| ==> left == Filter(rules, stay))
  {
    var gone := Elems(plan[..done]);
    PlanIsDescending(Picked(rules, pick));
    assert gone <= Elems(plan);
    GoneArePicked(rules, pick, stay, gone);
    WithoutKeeps(rules, gone, stay);
    WithoutPlan(rules, Picked(rules, pick));
    UnflaggedIsFilter(rules, pick, stay);
    assert plan[..|plan|] == plan;
  }

  lemma {:induction false} GoneArePicked(rules: seq<Rule>, pick: ExistingRule -> bool, stay: Rule -> bool, gone: set<nat>)
    requires Numberless(pick, stay) && gone <= Elems(Numbers(Picked(rules, pick)))
    ensures forall n | n in gone && 1 <= n <= |rules| :: !stay(rules[n - 1])
  {
    NumbersAscend(Picked(rules, pick));
    forall n | n in gone && 1 <= n <= |rules|
      ensures !stay(rules[n - 1])
    {
      PickedAt(rules, pick, n - 1);
    }
  }

  lemma {:induction false} FilterTwice<T>(s: seq<T>, keep: T -> bool)
    ensures Filter(Filter(s, keep), keep) == Filter(s, keep)
    ensures forall x :: x in Filter(s, keep) ==> keep(x)
  {
    if s == [] {
    } else {
      var front, x := s[..|s| - 1], s[|s| - 1];
      FilterTwice(front, keep);
      FilterAppend(Filter(front, keep), if keep(x) then [x] else [], keep);
      FilterOne(x, keep);
      assert Filter([], keep) == [];
    }
  }

  lemma {:induction false} InFilter<T(!new)>(s: seq<T>, keep: T -> bool)
    ensures forall x :: x in Filter(s, keep) <==> x in s && keep(x)
  {
    if s == [] {
    } else {
      InFilter(s[..|s| - 1], keep);
    }
  }

  /** What the same filtered lists mean, rule by rule. */
  lemma StillThere(before: seq<Rule>, after: seq<Rule>, stay: Rule -> bool)
    requires Filter(after, stay) == Filter(before, stay)
    ensures forall r | r in before && stay(r) :: r in after
    ensures after == Filter(before, stay) ==> forall r | r in after :: stay(r) && r in before
  {
    InFilter(before, stay);
    InFilter(after, stay);
  }

  // ---------- reset-vm ----------

  /** A rule for a port that is not allowed. */
  function Stray(allowedPorts: set<nat>): ExistingRule -> bool {
    (r: ExistingRule) => r.port !in allowedPorts
  }

  /** Rules the reset leaves alone: allowed ports, and whatever it cannot parse. */
  function Baseline(allowedPorts: set<nat>): Rule -> bool {
    (r: Rule) => r.Allow? ==> r.port in allowedPorts
  }

  method PlanUFWReset(rules: seq<ExistingRule>, allowedPorts: seq<nat>) returns (toDelete: seq<nat>)
    ensures toDelete == SortDescending(NumbersOf(rules, Stray(Elems(allowedPorts))))
  {
    var allowed := Elems(allowedPorts);
    toDelete := [];
    for i := 0 to |rules|
      invariant toDelete == NumbersOf(rules[..i], Stray(allowed))
    {
      NumbersOfOne(rules, i, Stray(allowed));
      if rules[i].port in allowed { continue; }
      toDelete := toDelete + [rules[i].number];
    }
    assert rules[..|rules|] == rules;
    toDelete := SortDescending(toDelete);
  }

  datatype Teardown = Failed | Done(removed: seq<nat>)

  lemma RemovesStrays(rules: seq<Rule>, allowedPorts: seq<nat>)
    ensures var plan := SortDescending(NumbersOf(Listing(rules), Stray(Elems(allowedPorts))));
            && Removes(plan, rules, (rule: Rule) => rule.Other? || rule.port in allowedPorts)
            && |plan| + |Filter(rules, Baseline(Elems(allowedPorts)))| == |rules|
  {
    PlannedNumbers(rules, Stray(Elems(allowedPorts)), Baseline(Elems(allowedPorts)));
  }

  /** After a successful reset of an active firewall exactly the baseline is left; a
      reset that stops early has not touched the baseline. When the command cannot even be
      started there is nothing to reset. */
  method ResetUFW(fw: Firewall, startable: bool, allowedPorts: seq<nat>) returns (r: Teardown)
    requires fw.Valid()
    modifies fw`rules
    ensures fw.Valid()
    ensures Filter(fw.rules, Baseline(Elems(allowedPorts))) == Filter(old(fw.rules), Baseline(Elems(allowedPorts)))
    ensures r.Done? && startable && fw.active ==>
            fw.rules == Filter(old(fw.rules), Baseline(Elems(allowedPorts)))
    ensures forall r | r in old(fw.rules) && (r.Other? || r.port in allowedPorts) :: r in fw.rules
    ensures r.Done? && startable && fw.active ==> forall r | r in fw.rules :: r.Other? || r.port in allowedPorts
    ensures r.Done? && startable && fw.active ==>
            && |r.removed| + |fw.rules| == |old(fw.rules)|
            && Removes(r.removed, old(fw.rules), (rule: Rule) => rule.Other? || rule.port in allowedPorts)
    ensures r.Done? && !fw.active ==> r.removed == []
    ensures !startable ==> r == Done([]) && fw.rules == old(fw.rules)
    ensures fw.reliable ==> r.Done?
  {
    if !startable { return Done([]); }
    var plan := PlanReset(fw, allowedPorts);
    if plan.None? { return Failed; }
    ghost var before := fw.rules;
    RemovesStrays(before, allowedPorts);
    var ok := DeletePicked(fw, Stray(Elems(allowedPorts)), Baseline(Elems(allowedPorts)), plan.value);
    StillThere(before, fw.rules, Baseline(Elems(allowedPorts)));
    r := if ok then Done(plan.value) else Failed;
  }

  /** The numbers of the rules for other ports, from a fresh listing. */
  method PlanReset(fw: Firewall, allowedPorts: seq<nat>) returns (plan: Option<seq<nat>>)
    requires fw.Valid()
    ensures plan.Some? ==>
            plan.value == SortDescending(NumbersOf(if fw.active then Listing(fw.rules) else [], Stray(Elems(allowedPorts))))
    ensures fw.reliable ==> plan.Some?
  {
    var out := fw.StatusNumbered();
    if out.None? { return None; }
    StatusRoundTrip(fw.header, fw.active, fw.rules);
    var rules := ParseAllUFWAllowRules(out.value);
    var toDelete := PlanUFWReset(rules, allowedPorts);
    plan := Some(toDelete);
  }

  /** On a firewall with nothing but the baseline, a reset plans no deletes. */
  lemma {:induction false} ResetAgainPlansNothing(rules: seq<Rule>, allowedPorts: set<nat>)
    requires Filter(rules, Baseline(allowedPorts)) == rules
    ensures NumbersOf(Listing(rules), Stray(allowedPorts)) == []
  {
    FilterTwice(rules, Baseline(allowedPorts));
    PlanIsPicked(rules, Stray(allowedPorts));
    NothingPicked(rules, Stray(allowedPorts), Baseline(allowedPorts));
  }

  lemma {:induction false} NothingPicked(rules: seq<Rule>, pick: ExistingRule -> bool, stay: Rule -> bool)
    requires Numberless(pick, stay) && forall x :: x in rules ==> stay(x)
    ensures Numbers(Picked(rules, pick)) == []
  {
    if rules == [] {
    } else {
      var front, r := rules[..|rules| - 1], rules[|rules| - 1];
      NothingPicked(front, pick, stay);
      assert Picked(rules, pick)[..|front|] == Picked(front, pick);
      assert stay(r) == !Picks(|rules|, r, pick);
    }
  }

  // ---------- destroy ----------

  function OnTcpPort(port: nat): ExistingRule -> bool {
    (r: ExistingRule) => OnPort(r, port, "tcp")
  }

  function OffTcpPort(port: nat): Rule -> bool {
    (r: Rule) => !(r.Allow? && r.port == port && r.proto == "tcp")
  }

  function NumberList(rs: seq<ExistingRule>): (ns: seq<nat>)
    ensures |ns| == |rs| && forall i | 0 <= i < |rs| :: ns[i] == rs[i].number
  {
    seq(|rs|, i requires 0 <= i < |rs| => rs[i].number)
  }

  lemma {:induction false} NumbersForPort(rs: seq<ExistingRule>, port: nat)
    ensures NumberList(ForPort(rs, port, "tcp")) == NumbersOf(rs, OnTcpPort(port))
  {
    if rs == [] {
    } else {
      NumbersForPort(rs[..|rs| - 1], port);
    }
  }

  method CollectNumbers(existing: seq<ExistingRule>) returns (nums: seq<nat>)
    ensures nums == NumberList(existing)
  {
    nums := [];
    for i := 0 to |existing|
      invariant nums == NumberList(existing)[..i]
    {
      nums := nums + [existing[i].number];
    }
  }

  /** After a successful close on an active firewall, the port has no tcp rule left
      and every other rule is where it was; an early stop has touched none of those. */
  method CloseFirewallPort(fw: Firewall, startable: bool, port: nat) returns (ok: bool)
    requires fw.Valid()
    modifies fw`rules
    ensures fw.Valid()
    ensures Filter(fw.rules, OffTcpPort(port)) == Filter(old(fw.rules), OffTcpPort(port))
    ensures ok && startable && fw.active && port != 0 ==> fw.rules == Filter(old(fw.rules), OffTcpPort(port))
    ensures forall r | r in old(fw.rules) && !(r.Allow? && r.port == port && r.proto == "tcp") :: r in fw.rules
    ensures ok && startable && fw.active && port != 0 ==>
            forall r | r in fw.rules :: !(r.Allow? && r.port == port && r.proto == "tcp")
    ensures !startable || port == 0 ==> ok && fw.rules == old(fw.rules)
    ensures fw.reliable ==> ok
  {
    if port == 0 || !startable { return true; }
    var plan := PlanClose(fw, port);
    if plan.None? { return false; }
    ghost var before := fw.rules;
    ok := DeletePicked(fw, OnTcpPort(port), OffTcpPort(port), plan.value);
    StillThere(before, fw.rules, OffTcpPort(port));
  }

  /** The numbers of the port's tcp rules, from a fresh listing. */
  method PlanClose(fw: Firewall, port: nat) returns (plan: Option<seq<nat>>)
    requires fw.Valid()
    ensures plan.Some? ==>
            plan.value == SortDescending(NumbersOf(if fw.active then Listing(fw.rules) else [], OnTcpPort(port)))
    ensures fw.reliable ==> plan.Some?
  {
    var out := fw.StatusNumbered();
    if out.None? { return None; }
    StatusRoundTrip(fw.header, fw.active, fw.rules);
    var existing := ParseUFWRulesForPort(out.value, port, "tcp");
    var nums := CollectNumbers(existing);
    NumbersForPort(if fw.active then Listing(fw.rules) else [], port);
    plan := Some(SortDescending(nums));
  }

  /** Closing a port and resetting to ports that do not include it can be done in
      either order: the reset makes the close redundant. */
  lemma {:induction false} CloseThenReset(rules: seq<Rule>, port: nat, allowedPorts: set<nat>)
    requires port !in allowedPorts
    ensures Filter(Filter(rules, OffTcpPort(port)), Baseline(allowedPorts)) == Filter(rules, Baseline(allowedPorts))
    ensures Filter(Filter(rules, Baseline(allowedPorts)), OffTcpPort(port)) == Filter(rules, Baseline(allowedPorts))
  {
    FilterStronger(rules, Baseline(allowedPorts), OffTcpPort(port));
  }

  lemma {:induction false} FilterStronger<T(!new)>(s: seq<T>, strong: T -> bool, weak: T -> bool)
    requires forall x :: strong(x) ==> weak(x)
    ensures Filter(Filter(s, weak), strong) == Filter(s, strong)
    ensures Filter(Filter(s, strong), weak) == Filter(s, strong)
  {
    if s == [] {
    } else {
      var front, x := s[..|s| - 1], s[|s| - 1];
      FilterStronger(front, strong, weak);
      FilterAppend(Filter(front, weak), if weak(x) then [x] else [], strong);
      FilterAppend(Filter(front, strong), if strong(x) then [x] else [], weak);
      FilterOne(x, weak);
      FilterOne(x, strong);
      assert Filter([], weak) == [] && Filter([], strong) == [];
    }
  }
}
