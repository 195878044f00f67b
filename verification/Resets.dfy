/** internal/resetvm/resetvm.go, Reset: four steps, none of which waits for another to
    succeed. What the steps other than reset_ufw do to the host is left to them; they report
    success or failure. */
module Resets {
  import opened Text
  import opened Renumbering
  import opened Ufw
  import opened Firewalls
  import opened Teardown

  datatype Step = PurgeInstances | PruneDocker | ResetUfw | CleanupConfigs

  datatype StepResult = StepResult(step: Step, ok: bool)

  datatype Result = Result(success: bool, failedStep: Option<Step>, steps: seq<StepResult>, removedRules: seq<nat>)

  const DEFAULT_ALLOWED_PORTS: seq<nat> := [22, 80, 443]

  /** The first step that did not succeed, whatever came after it. */
  function FirstFailed(steps: seq<StepResult>): (f: Option<Step>)
    ensures f == None <==> forall i | 0 <= i < |steps| :: steps[i].ok
  {
    if steps == [] then None else if !steps[0].ok then Some(steps[0].step) else FirstFailed(steps[1..])
  }

  predicate Summed(r: Result) {
    r.failedStep == FirstFailed(r.steps) && (r.success <==> r.failedStep == None)
  }

  lemma {:induction false} FirstFailedOfMore(steps: seq<StepResult>, step: StepResult)
    ensures FirstFailed(steps + [step]) ==
      if FirstFailed(steps).Some? then FirstFailed(steps) else if step.ok then None else Some(step.step)
  {
    if steps == [] {
    } else {
      assert (steps + [step])[1..] == steps[1..] + [step];
      FirstFailedOfMore(steps[1..], step);
    }
  }

  /** Appends a step and records its failure; a later failure does not hide an earlier one. */
  method Record(r: Result, step: StepResult) returns (s: Result)
    requires Summed(r)
    ensures Summed(s) && s.steps == r.steps + [step] && s.removedRules == r.removedRules
  {
    FirstFailedOfMore(r.steps, step);
    s := r.(steps := r.steps + [step]);
    if step.ok { return; }
    s := s.(success := false);
    if s.failedStep == None { s := s.(failedStep := Some(step.step)); }
  }

  function AllowedPorts(ports: seq<nat>): seq<nat> {
    if ports == [] then DEFAULT_ALLOWED_PORTS else ports
  }

  /** The baseline is untouched, and after a successful step nothing else is left. */
  ghost predicate OnlyStrayGone(before: seq<Rule>, after: seq<Rule>, ports: seq<nat>, finished: bool) {
    && Filter(after, Baseline(Elems(ports))) == Filter(before, Baseline(Elems(ports)))
    && (finished ==> after == Filter(before, Baseline(Elems(ports))))
  }

  /** Rules that a reset to the ports given leaves: those that are no parsable rule, and those
      for one of the ports, which are 22, 80 and 443 if none are given. */
  predicate Stays(r: Rule, ports: seq<nat>) {
    r.Other? || if ports == [] then r.port in {22, 80, 443} else r.port in ports
  }

  lemma StaysMeaning(r: Rule, ports: seq<nat>)
    ensures Stays(r, ports) <==> r.Other? || r.port in AllowedPorts(ports)
  {}

  /** The step results around the outcome of the firewall step. */
  method Collect(purged: bool, pruned: bool, reset: Teardown, cleaned: bool) returns (r: Result)
    ensures Summed(r)
    ensures r.steps == [StepResult(PurgeInstances, purged), StepResult(PruneDocker, pruned),
                        StepResult(ResetUfw, reset.Done?), StepResult(CleanupConfigs, cleaned)]
    ensures r.removedRules == if reset.Done? then reset.removed else []
  {
    r := Result(true, None, [], []);
    r := Record(r, StepResult(PurgeInstances, purged));
    r := Record(r, StepResult(PruneDocker, pruned));
    r := Record(r, StepResult(ResetUfw, reset.Done?));
    if reset.Done? { r := r.(removedRules := reset.removed); }
    r := Record(r, StepResult(CleanupConfigs, cleaned));
  }

  /** Reset. The firewall is brought back to the baseline whenever that step succeeds, even
      if instances could not be purged or Docker not be pruned, and the baseline itself is
      never touched. */
  method Reset(fw: Firewall, startable: bool, ports: seq<nat>, purged: bool, pruned: bool, cleaned: bool)
    returns (r: Result)
    requires fw.Valid()
    modifies fw`rules
    ensures fw.Valid() && Summed(r) && |r.steps| == 4
    ensures r.steps[0] == StepResult(PurgeInstances, purged) && r.steps[1] == StepResult(PruneDocker, pruned)
    ensures r.steps[2].step == ResetUfw && r.steps[3] == StepResult(CleanupConfigs, cleaned)
    ensures OnlyStrayGone(old(fw.rules), fw.rules, AllowedPorts(ports), r.steps[2].ok && startable && fw.active)
    ensures forall rule | rule in old(fw.rules) && Stays(rule, ports) :: rule in fw.rules
    ensures r.steps[2].ok && startable && fw.active ==> forall rule | rule in fw.rules :: Stays(rule, ports)
    ensures r.steps[2].ok && startable && fw.active ==>
            && |r.removedRules| + |fw.rules| == |old(fw.rules)|
            && Removes(r.removedRules, old(fw.rules), (rule: Rule) => Stays(rule, ports))
    ensures !r.steps[2].ok || !startable || !fw.active ==> r.removedRules == []
    ensures fw.reliable ==> r.steps[2].ok
  {
    var reset := ResetUFW(fw, startable, AllowedPorts(ports));
    forall rule: Rule ensures Stays(rule, ports) <==> rule.Other? || rule.port in AllowedPorts(ports) {
      StaysMeaning(rule, ports);
    }
    r := Collect(purged, pruned, reset, cleaned);
  }
}
