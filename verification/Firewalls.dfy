/** The firewall as the agent's commands change it. Any command may fail, and may have had
    its effect all the same. UFW chooses where a new rule goes and how it stores an address
    given to `allow from` (it may mask host bits or add a prefix length); nothing is assumed
    of that beyond `IsSettings`. */
module Firewalls {
  import opened Text
  import opened UfwLine
  import opened Allowlist
  import opened Ufw
  import opened Renumbering

  // ---------- addresses ----------

  predicate AddressChar(c: char) {
    IsDigit(c) || 'a' <= c <= 'f' || 'A' <= c <= 'F' || c == '.' || c == ':'
  }

  predicate IsAddress(a: string) { a != "" && forall i | 0 <= i < |a| :: AddressChar(a[i]) }

  /** An address, a slash and a prefix length. */
  predicate CidrAt(c: string, i: nat) {
    i + 1 < |c| && c[i] == '/' && IsAddress(c[..i]) && AllDigits(c[i + 1..])
  }

  /** No address is longer than this, in whatever form. */
  const MAX_CIDR := 64

  predicate IsCidr(c: string) { |c| <= MAX_CIDR && exists i | 0 <= i < |c| :: CidrAt(c, i) }

  /** UFW drops the prefix length of a single host when it prints an address. */
  function Shown(c: string): string {
    if HasSuffix(c, "/32") && ':' !in c then c[..|c| - 3]
    else if HasSuffix(c, "/128") && ':' in c then c[..|c| - 4]
    else c
  }

  /** The rule UFW keeps for a source. */
  function RuleFor(port: nat, proto: string, c: string): Rule {
    if c == ANY4 then Allow(port, proto, false, "Anywhere")
    else if c == ANY6 then Allow(port, proto, true, "Anywhere (v6)")
    else Allow(port, proto, ':' in c, Shown(c))
  }

  /** How UFW is set up: the form it gives an address, and whether it handles IPv6. */
  datatype Settings = Settings(canon: string -> string, ipv6: bool)

  /** What UFW stores for a source it is given: an address in CIDR form, and storing that
      again changes nothing. One that handles IPv4 only does not mix up the families. */
  ghost predicate IsSettings(ufw: Settings) {
    forall c {:trigger ufw.canon(c)} ::
      && IsCidr(ufw.canon(c)) && ufw.canon(ufw.canon(c)) == ufw.canon(c)
      && (ufw.ipv6 || (':' in ufw.canon(c) <==> ':' in c))
  }

  lemma {:induction false} CidrChars(c: string, i: nat)
    requires CidrAt(c, i)
    ensures forall k | 0 <= k < |c| :: k != i ==> AddressChar(c[k])
    ensures forall k | 0 <= k < |c| :: !IsSpace(c[k])
    ensures OneLine(c) && '/' in c && ')' !in c && 'n' !in c
  {
    forall k | 0 <= k < |c| && k != i
      ensures AddressChar(c[k])
    {
      if k < i { assert c[k] == c[..i][k]; } else { assert c[k] == c[i + 1..][k - i - 1]; }
    }
  }

  lemma {:induction false} ShownCidr(c: string, i: nat)
    requires CidrAt(c, i)
    ensures Shown(c) == c || (Shown(c) == c[..i] && c[i..] == if ':' in c then "/128" else "/32")
    ensures Shown(c) != "" && Shown(c) <= c
  {
    var n := |c| - |Shown(c)|;
    if n > 0 {
      assert c[|c| - n] == '/' by { assert c[|c| - n..][0] == '/'; }
      CidrChars(c, i);
      assert |c| - n == i;
    }
  }

  /** Text without parentheses, not the word "Anywhere", is normalised by adding a
      host prefix length when it has none. */
  lemma {:induction false} NormalizePlain(s: string, v6: bool)
    requires s != "" && Trimmed(s) && ')' !in s && 'n' !in s
    ensures NormalizeSource(s, v6) == if '/' in s then s else if ':' in s then s + "/128" else s + "/32"
  {
    TrimSpaceOfTrimmed(s);
    assert "Anywhere"[1] == 'n' && "Anywhere (v6)"[1] == 'n';
    assert s != "Anywhere" && s != "Anywhere (v6)";
    ContainsChar(s, '/');
    ContainsChar(s, ':');
  }

  lemma {:induction false} BareHost(c: string, i: nat)
    requires CidrAt(c, i) && Shown(c) != c
    ensures var s := Shown(c);
            c == s + (if ':' in c then "/128" else "/32") && '/' !in s && (':' in c <==> ':' in s)
  {
    ShownCidr(c, i);
    assert c == c[..i] + c[i..];
    assert forall k | 0 <= k < i :: AddressChar(c[..i][k]);
  }

  lemma {:induction false} ShownSource(c: string)
    requires IsCidr(c)
    ensures NormalizeSource(Shown(c), ':' in c) == c
  {
    var i :| 0 <= i < |c| && CidrAt(c, i);
    CidrChars(c, i);
    ShownCidr(c, i);
    PlainPrefix(c, Shown(c));
    if Shown(c) != c { BareHost(c, i); }
    NormalizePlain(Shown(c), ':' in c);
  }

  lemma PlainPrefix(c: string, s: string)
    requires ')' !in c && 'n' !in c && OneLine(c) && s <= c
    requires s != "" && forall k | 0 <= k < |c| :: !IsSpace(c[k])
    ensures ')' !in s && 'n' !in s && OneLine(s) && Trimmed(s)
  {
    assert forall x :: x in s ==> x in c;
  }

  /** The agent reads back the source UFW stored. */
  lemma {:induction false} SourceRoundTrip(port: nat, proto: string, c: string)
    requires IsCidr(c)
    ensures SourceOf(RuleFor(port, proto, c)) == c
  {
    if c == ANY4 || c == ANY6 { AnywhereSource(); } else { ShownSource(c); }
  }

  lemma {:induction false} AnywhereSource()
    ensures NormalizeSource("Anywhere", false) == ANY4
    ensures NormalizeSource("Anywhere (v6)", true) == ANY6
  {
    TrimSpaceOfTrimmed("Anywhere");
    TrimSpaceOfTrimmed("Anywhere (v6)");
  }

  lemma {:induction false} ShownIsOneLine(c: string)
    requires IsCidr(c)
    ensures Shown(c) != "" && OneLine(Shown(c))
  {
    var i :| 0 <= i < |c| && CidrAt(c, i);
    CidrChars(c, i);
    ShownCidr(c, i);
    PlainPrefix(c, Shown(c));
  }

  lemma AnywhereIsOneLine()
    ensures OneLine("Anywhere") && OneLine("Anywhere (v6)")
  {}

  lemma {:induction false} RuleForShowable(port: nat, proto: string, c: string)
    requires port <= 65535 && IsProto(proto) && IsCidr(c)
    ensures Showable(RuleFor(port, proto, c))
  {
    AnywhereIsOneLine();
    ShownIsOneLine(c);
  }

  lemma AnyAreCidrs()
    ensures IsCidr(ANY4) && IsCidr(ANY6)
  {
    assert CidrAt(ANY4, 7);
    assert CidrAt(ANY6, 2);
  }

  // ---------- commands ----------

  datatype Command = AllowPort(port: nat, proto: string) | AllowFrom(cidr: string, port: nat, proto: string)

  predicate IsPort(s: string) { s != "" && AllDigits(s) && 1 <= Value(s) <= 65535 }

  /** The two command lines of `ufw allow` the agent uses. */
  function ParseCommand(args: seq<string>): Option<Command> {
    if |args| == 2 && args[0] == "allow" then
      var p :- Digits1(args[1]);
      var proto :- Eat("/", p.1);
      if IsPort(p.0) && IsProto(proto) then Some(AllowPort(Value(p.0), proto)) else None
    else if |args| == 9 && args[0] == "allow" && args[1] == "from" && args[3..6] == ["to", "any", "port"] &&
            IsPort(args[6]) && args[7] == "proto" && IsProto(args[8]) then
      Some(AllowFrom(args[2], Value(args[6]), args[8]))
    else None
  }

  lemma {:induction false} ShortFormMeaning(port: nat, proto: string)
    ensures ParseCommand(["allow", Itoa(port) + "/" + proto]) ==
            if 1 <= port <= 65535 && IsProto(proto) then Some(AllowPort(port, proto)) else None
  {
    assert Itoa(port) + "/" + proto == Itoa(port) + ("/" + proto);
    Digits1Of(Itoa(port), "/" + proto);
    EatOf("/", proto);
  }

  /** The agent's command lines mean what it intends: a blanket source opens the
      port to everyone, any other source opens it to that source. A protocol UFW
      does not know is refused. */
  lemma {:induction false} FormatAddRuleMeaning(port: nat, proto: string, cidr: string)
    requires 1 <= port <= 65535
    ensures ParseCommand(FormatAddRule(port, proto, cidr)) ==
            if !IsProto(proto) then None
            else Some(if cidr in {ANY4, ANY6, ""} then AllowPort(port, proto) else AllowFrom(cidr, port, proto))
  {
    var args := FormatAddRule(port, proto, cidr);
    if cidr in {ANY4, ANY6, ""} {
      ShortFormMeaning(port, proto);
    } else {
      assert args[3..6] == ["to", "any", "port"];
    }
  }

  function InsertAt(rules: seq<Rule>, i: nat, r: Rule): seq<Rule>
    requires i <= |rules|
  {
    rules[..i] + [r] + rules[i..]
  }

  /** A rule already there is not added again; a new one goes where UFW likes. */
  ghost predicate Added(before: seq<Rule>, r: Rule, after: seq<Rule>) {
    if r in before then after == before
    else exists i | 0 <= i <= |before| :: after == InsertAt(before, i, r)
  }

  /** An IPv6 address given to a UFW that handles IPv4 only. */
  predicate Refused(cmd: Command, ufw: Settings) { cmd.AllowFrom? && !ufw.ipv6 && ':' in cmd.cidr }

  /** Opening a port to everyone adds an IPv4 rule and, where IPv6 is handled, an IPv6 one. */
  ghost predicate Applied(before: seq<Rule>, cmd: Command, ufw: Settings, after: seq<Rule>) {
    match cmd
    case AllowFrom(c, port, proto) => !Refused(cmd, ufw) && Added(before, RuleFor(port, proto, ufw.canon(c)), after)
    case AllowPort(port, proto) =>
      exists mid :: Added(before, RuleFor(port, proto, ANY4), mid) &&
        (if ufw.ipv6 then Added(mid, RuleFor(port, proto, ANY6), after) else after == mid)
  }

  /** What a failed command may leave behind: nothing, the IPv4 half, or all it was given for. */
  ghost predicate Abandoned(before: seq<Rule>, cmd: Option<Command>, ufw: Settings, after: seq<Rule>) {
    after == before ||
    (cmd.Some? && Applied(before, cmd.value, ufw, after)) ||
    (cmd.Some? && cmd.value.AllowPort? && Added(before, RuleFor(cmd.value.port, cmd.value.proto, ANY4), after))
  }

  /** UFW prints every address in its own way. */
  predicate PrintsAddresses(rules: seq<Rule>) {
    forall i | 0 <= i < |rules| :: PrintsAddress(rules[i])
  }

  predicate PrintsAddress(r: Rule) {
    r.Allow? && IsCidr(SourceOf(r)) ==> r == RuleFor(r.port, r.proto, SourceOf(r))
  }

  predicate ValidRules(rules: seq<Rule>) { AllShowable(rules) && PrintsAddresses(rules) }

  lemma InsertAll(rules: seq<Rule>, i: nat, r: Rule, p: Rule -> bool)
    requires i <= |rules| && p(r) && forall k | 0 <= k < |rules| :: p(rules[k])
    ensures forall k | 0 <= k < |InsertAt(rules, i, r)| :: p(InsertAt(rules, i, r)[k])
  {
    var after := InsertAt(rules, i, r);
    assert forall k | 0 <= k < |after| :: after[k] == if k < i then rules[k] else if k == i then r else rules[k - 1];
  }

  lemma {:induction false} InsertValid(rules: seq<Rule>, i: nat, r: Rule)
    requires i <= |rules| < MAX_INT64 && ValidRules(rules) && Showable(r) && PrintsAddress(r)
    ensures ValidRules(InsertAt(rules, i, r))
  {
    InsertAll(rules, i, r, x => Showable(x) && PrintsAddress(x));
  }

  class Firewall {
    const header: seq<string>
    const ufw: Settings
    /** No command fails that UFW understands and has room for. */
    const reliable: bool
    var active: bool
    var rules: seq<Rule>

    ghost predicate Valid()
      reads this
    {
      IsHeader(header) && IsSettings(ufw) && ValidRules(rules)
    }

    constructor (header: seq<string>, ufw: Settings, reliable: bool, active: bool, rules: seq<Rule>)
      requires IsHeader(header) && IsSettings(ufw) && ValidRules(rules)
      ensures Valid() && this.rules == rules && this.active == active
      ensures this.ufw == ufw && this.reliable == reliable
    {
      this.header, this.ufw, this.reliable, this.active, this.rules := header, ufw, reliable, active, rules;
    }

    /** `ufw status numbered`. */
    method StatusNumbered() returns (out: Option<string>)
      ensures out.Some? ==> out.value == StatusText(header, active, rules)
      ensures reliable ==> out.Some?
    {
      var fails: bool := *;
      out := if fails && !reliable then None else Some(StatusText(header, active, rules));
    }

    /** `ufw --force delete n`, which may fail and have had its effect. */
    method Delete(n: nat) returns (ok: bool)
      requires Valid()
      modifies this`rules
      ensures Valid()
      ensures ok ==> 1 <= n <= |old(rules)| && rules == DeleteAt(old(rules), n)
      ensures !ok ==> rules == old(rules) || (1 <= n <= |old(rules)| && rules == DeleteAt(old(rules), n))
      ensures reliable && 1 <= n <= |old(rules)| ==> ok
    {
      ok := false;
      if n < 1 || n > |rules| { return; }
      var fails: bool, inEffect: bool := *, *;
      ok := reliable || !fails;
      if ok || inEffect { rules := DeleteAt(rules, n); }
    }

    method Insert(r: Rule)
      requires Valid() && Showable(r) && PrintsAddress(r) && |rules| < MAX_INT64
      modifies this`rules
      ensures Valid() && Added(old(rules), r, rules) && |rules| <= |old(rules)| + 1
    {
      if r !in rules {
        var i: nat :| i <= |rules|;
        InsertValid(rules, i, r);
        rules := InsertAt(rules, i, r);
      }
    }

    /** `ufw allow ...`. */
    method Allow(args: seq<string>) returns (ok: bool)
      requires Valid()
      modifies this`rules
      ensures Valid()
      ensures ok ==> ParseCommand(args).Some? && Applied(old(rules), ParseCommand(args).value, ufw, rules)
      ensures !ok ==> Abandoned(old(rules), ParseCommand(args), ufw, rules)
      ensures reliable && ParseCommand(args).Some? && !Refused(ParseCommand(args).value, ufw) && !ok ==>
              |rules| + 2 > MAX_INT64
    {
      ok := false;
      var cmd := ParseCommand(args);
      if cmd.None? || Refused(cmd.value, ufw) || |rules| + 2 > MAX_INT64 { return; }
      var port, proto := cmd.value.port, cmd.value.proto;
      var fails: bool, failsBetween: bool, failsLate: bool := *, *, *;
      if fails && !reliable { return; }
      if cmd.value.AllowFrom? {
        StoredRule(port, proto, ufw.canon(cmd.value.cidr));
        Insert(RuleFor(port, proto, ufw.canon(cmd.value.cidr)));
        ok := !failsLate || reliable;
      } else {
        AnyAreCidrs();
        StoredRule(port, proto, ANY4);
        StoredRule(port, proto, ANY6);
        Insert(RuleFor(port, proto, ANY4));
        if failsBetween && !reliable { return; }
        if ufw.ipv6 { Insert(RuleFor(port, proto, ANY6)); }
        ok := !failsLate || reliable;
      }
    }

    /** The agent's deletion loop: the planned numbers in descending order, stopping
        at the first failure. Whatever happens, exactly a first part of the plan is
        gone, by the numbers the entries had at the start; `done` is how much. */
    method DeleteAll(plan: seq<nat>) returns (ok: bool, ghost done: nat)
      requires Valid()
      requires StrictlyDescending(plan) && Within(plan, |rules|)
      modifies this`rules
      ensures Valid() && done <= |plan| && (ok ==> done == |plan|)
      ensures rules == Without(old(rules), Elems(plan[..done]))
      ensures reliable || plan == [] ==> ok
    {
      WithoutLater(rules, {});
      done := 0;
      assert Elems(plan[..0]) == {};
      for i := 0 to |plan|
        invariant done == i && Valid()
        invariant rules == Without(old(rules), Elems(plan[..done]))
      {
        ghost var before := rules;
        DeletePlanned(old(rules), plan, done);
        var deleted := Delete(plan[i]);
        if deleted || rules != before { done := done + 1; }
        if !deleted { return false, done; }
      }
      ok := true;
    }
  }

  lemma {:induction false} StoredRule(port: nat, proto: string, c: string)
    requires port <= 65535 && IsProto(proto) && IsCidr(c)
    ensures Showable(RuleFor(port, proto, c)) && PrintsAddress(RuleFor(port, proto, c))
  {
    RuleForShowable(port, proto, c);
    SourceRoundTrip(port, proto, c);
  }
}
