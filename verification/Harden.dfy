/** internal/harden/harden.go: the hardening pipeline, the order of its firewall
    commands, and the rollback from the latest backup. A command may fail with or
    without having had its effect (a timeout kills it part way); a command that reports
    success has had its effect. */
module Harden {
  import opened Powers
  import opened Text

  // ---------- backups and their names ----------

  datatype Stamp = Stamp(year: nat, month: nat, day: nat, hour: nat, minute: nat, second: nat)

  predicate IsStamp(t: Stamp) {
    t.year < 10000 && t.month < 100 && t.day < 100 && t.hour < 100 && t.minute < 100 && t.second < 100
  }

  /** A number in decimal, filled up with zeros to a width. */
  function Fixed(n: nat, width: nat): (s: string)
    ensures |s| == width && AllDigits(s)
  {
    if width == 0 then "" else Fixed(n / 10, width - 1) + [Digit(n % 10)]
  }

  /** Go's layout 20060102-150405. */
  function Format(t: Stamp): string {
    Fixed(t.year, 4) + (Fixed(t.month, 2) + (Fixed(t.day, 2) + ("-" +
    (Fixed(t.hour, 2) + (Fixed(t.minute, 2) + Fixed(t.second, 2))))))
  }

  /** Earlier in time. */
  predicate Earlier(a: Stamp, b: Stamp) {
    a.year < b.year || (a.year == b.year && (
    a.month < b.month || (a.month == b.month && (
    a.day < b.day || (a.day == b.day && (
    a.hour < b.hour || (a.hour == b.hour && (
    a.minute < b.minute || (a.minute == b.minute && a.second < b.second)))))))))
  }

  lemma {:induction false} LessFirst(a: string, b: string, x: string, y: string)
    requires |a| == |b|
    ensures StringLess(a + x, b + y) <==> StringLess(a, b) || (a == b && StringLess(x, y))
  {
    if a == "" {
      assert a + x == x && b + y == y;
    } else {
      LessFirst(a[1..], b[1..], x, y);
      assert (a + x)[1..] == a[1..] + x && (b + y)[1..] == b[1..] + y;
      assert a == [a[0]] + a[1..] && b == [b[0]] + b[1..];
    }
  }

  lemma {:induction false} FixedOrder(a: nat, b: nat, width: nat)
    requires a < Pow10(width) && b < Pow10(width)
    ensures StringLess(Fixed(a, width), Fixed(b, width)) <==> a < b
    ensures Fixed(a, width) == Fixed(b, width) <==> a == b
  {
    if width == 0 {
    } else {
      FixedOrder(a / 10, b / 10, width - 1);
      var x, y := [Digit(a % 10)], [Digit(b % 10)];
      LessFirst(Fixed(a / 10, width - 1), Fixed(b / 10, width - 1), x, y);
      DigitOrder(a % 10, b % 10);
      SameParts(Fixed(a / 10, width - 1), Fixed(b / 10, width - 1), x, y);
    }
  }

  lemma DigitOrder(a: nat, b: nat)
    requires a < 10 && b < 10
    ensures StringLess([Digit(a)], [Digit(b)]) <==> a < b
    ensures Digit(a) == Digit(b) <==> a == b
  {}

  /** Names in order are times in order: this is what makes the last name the latest backup. */
  lemma {:induction false} FormatOrder(a: Stamp, b: Stamp)
    requires IsStamp(a) && IsStamp(b)
    ensures StringLess(Format(a), Format(b)) <==> Earlier(a, b)
  {
    assert Pow10(2) == 100 && Pow10(4) == 10000 by { assert Pow10(1) == 10; }
    FixedOrder(a.year, b.year, 4);
    FixedOrder(a.month, b.month, 2);
    FixedOrder(a.day, b.day, 2);
    FixedOrder(a.hour, b.hour, 2);
    FixedOrder(a.minute, b.minute, 2);
    FixedOrder(a.second, b.second, 2);
    var s5, t5 := Fixed(a.second, 2), Fixed(b.second, 2);
    var s4, t4 := Fixed(a.minute, 2) + s5, Fixed(b.minute, 2) + t5;
    var s3, t3 := Fixed(a.hour, 2) + s4, Fixed(b.hour, 2) + t4;
    var s2, t2 := "-" + s3, "-" + t3;
    var s1, t1 := Fixed(a.day, 2) + s2, Fixed(b.day, 2) + t2;
    var s0, t0 := Fixed(a.month, 2) + s1, Fixed(b.month, 2) + t1;
    LessFirst(Fixed(a.minute, 2), Fixed(b.minute, 2), s5, t5);
    LessFirst(Fixed(a.hour, 2), Fixed(b.hour, 2), s4, t4);
    LessFirst("-", "-", s3, t3);
    assert !StringLess("-", "-");
    LessFirst(Fixed(a.day, 2), Fixed(b.day, 2), s2, t2);
    LessFirst(Fixed(a.month, 2), Fixed(b.month, 2), s1, t1);
    LessFirst(Fixed(a.year, 4), Fixed(b.year, 4), s0, t0);
  }

  /** Year, month, day, hour, minute and second, each with its leading zeros. */
  lemma FormatExample()
    ensures Format(Stamp(2024, 1, 2, 3, 4, 5)) == "2024" + ("01" + ("02" + ("-" + ("03" + ("04" + "05")))))
  {
    FixedYear();
    FixedTwo(1);
    FixedTwo(2);
    FixedTwo(3);
    FixedTwo(4);
    FixedTwo(5);
  }

  lemma FixedTwo(n: nat)
    requires n < 100
    ensures Fixed(n, 2) == [Digit(n / 10), Digit(n % 10)]
  {
    assert Fixed(n / 100, 0) == "";
    assert Fixed(n / 10, 1) == [Digit(n / 10)];
  }

  lemma FixedYear()
    ensures Fixed(2024, 4) == "2024"
  {
    FixedTwo(20);
    assert Fixed(202, 3) == Fixed(20, 2) + [Digit(2)];
    assert Fixed(2024, 4) == Fixed(202, 3) + [Digit(4)];
  }

  const PREFIX := "sshd_config."

  function BackupName(t: Stamp): string { PREFIX + Format(t) }

  function KeysName(t: Stamp): string { "authorized_keys." + Format(t) }

  /** os.ReadDir: the names in order, each once. */
  predicate Listed(names: seq<string>) {
    forall i, j | 0 <= i < j < |names| :: StringLess(names[i], names[j])
  }

  /** The last name with the prefix. */
  predicate IsLast(names: seq<string>, i: nat) {
    i < |names| && HasPrefix(names[i], PREFIX) && forall j | i < j < |names| :: !HasPrefix(names[j], PREFIX)
  }

  method LatestBackup(names: seq<string>) returns (r: Option<nat>)
    ensures r.None? ==> forall j | 0 <= j < |names| :: !HasPrefix(names[j], PREFIX)
    ensures r.Some? ==> IsLast(names, r.value)
  {
    var i := |names|;
    while i > 0
      invariant 0 <= i <= |names|
      invariant forall j | i <= j < |names| :: !HasPrefix(names[j], PREFIX)
    {
      i := i - 1;
      if HasPrefix(names[i], PREFIX) { return Some(i); }
    }
    r := None;
  }

  /** Among backups named by their time, the last name is the latest time. */
  lemma {:induction false} LatestIsLatest(names: seq<string>, stamps: set<Stamp>, i: nat, t: Stamp)
    requires Listed(names) && IsLast(names, i) && t in stamps && names[i] == BackupName(t)
    requires forall u | u in stamps :: IsStamp(u) && BackupName(u) in names
    ensures forall u | u in stamps :: u == t || Earlier(u, t)
  {
    forall u | u in stamps && u != t
      ensures Earlier(u, t)
    {
      var j :| 0 <= j < |names| && names[j] == BackupName(u);
      assert HasPrefix(names[j], PREFIX) by { assert BackupName(u)[..|PREFIX|] == PREFIX; }
      if j == i {
        SameStamp(u, t);
      } else {
        LessFirst(PREFIX, PREFIX, Format(u), Format(t));
        LessIrreflexive(PREFIX);
        FormatOrder(u, t);
      }
    }
  }

  lemma {:induction false} LessIrreflexive(s: string)
    ensures !StringLess(s, s)
  {
    if s == "" {
    } else {
      LessIrreflexive(s[1..]);
    }
  }

  lemma {:induction false} SameStamp(a: Stamp, b: Stamp)
    requires IsStamp(a) && IsStamp(b) && BackupName(a) == BackupName(b)
    ensures a == b
  {
    SameParts(PREFIX, PREFIX, Format(a), Format(b));
    LessIrreflexive(Format(a));
    FormatOrder(a, b);
    FormatOrder(b, a);
  }

  // ---------- the machine ----------

  /** The parts of the host a hardening run touches: the firewall, sshd_config and root's
      authorized_keys, the drop-in file, and the backup directory. */
  datatype Host = Host(active: bool, allowed: set<nat>, config: Option<string>, keys: Option<string>,
                       custom: bool, backups: map<string, string>)

  /** The backup directory with a copy of each of the two files that is there. */
  function Copies(h: Host, now: Stamp): map<string, string> {
    var first := if h.config.Some? then h.backups[BackupName(now) := h.config.value] else h.backups;
    if h.keys.Some? then first[KeysName(now) := h.keys.value] else first
  }

  /** A firewall that is on lets the configured SSH port through. */
  predicate Reachable(h: Host, port: nat) { h.active ==> port in h.allowed }

  // ---------- the order of the names in a directory ----------

  function InsertName(names: seq<string>, n: string): seq<string> {
    if names == [] then [n]
    else if StringLess(n, names[0]) then [n] + names
    else [names[0]] + InsertName(names[1..], n)
  }

  lemma {:induction false} InsertNameListed(names: seq<string>, n: string)
    requires Listed(names) && n !in names
    ensures Listed(InsertName(names, n))
    ensures forall m :: m in InsertName(names, n) <==> m == n || m in names
  {
    if names == [] {
    } else if StringLess(n, names[0]) {
      forall j | 0 < j < |names| ensures StringLess(n, names[j]) { StringLessTrans(n, names[0], names[j]); }
    } else {
      InsertNameListed(names[1..], n);
      StringLessTotal(n, names[0]);
      assert forall m :: m in names <==> m == names[0] || m in names[1..];
      assert forall m | m in InsertName(names[1..], n) :: StringLess(names[0], m);
    }
  }

  // ---------- what a rollback restores ----------

  /** The backup whose name comes last. */
  ghost predicate IsNewest(name: string, backups: map<string, string>) {
    name in backups && HasPrefix(name, PREFIX) &&
    forall n | n in backups && HasPrefix(n, PREFIX) :: n == name || StringLess(n, name)
  }

  /** sshd_config is a copy of the newest backup, if there is a backup at all. */
  ghost predicate Restored(before: Host, after: Host) {
    && (forall n | IsNewest(n, before.backups) :: after.config == Some(before.backups[n]))
    && ((forall n | n in before.backups :: !HasPrefix(n, PREFIX)) ==> after.config == before.config)
  }

  ghost predicate RolledBack(before: Host, after: Host) {
    Restored(before, after) && !after.active && !after.custom
  }

  /** No backup of sshd_config has a name after the one this run gives. */
  predicate NoneAfter(backups: map<string, string>, now: Stamp) {
    forall n | n in backups && HasPrefix(n, PREFIX) :: n == BackupName(now) || StringLess(n, BackupName(now))
  }

  /** The backup whose name comes last has this content. */
  ghost predicate NewestHas(backups: map<string, string>, content: string) {
    exists n :: IsNewest(n, backups) && backups[n] == content
  }

  lemma {:induction false} LatestFile(names: seq<string>, i: nat, backups: map<string, string>)
    requires Listed(names) && (forall n :: n in names <==> n in backups) && IsLast(names, i)
    ensures IsNewest(names[i], backups)
    ensures forall n | IsNewest(n, backups) :: n == names[i]
  {
    forall n | n in backups && HasPrefix(n, PREFIX)
      ensures n == names[i] || StringLess(n, names[i])
    {
      var j :| 0 <= j < |names| && names[j] == n;
    }
    forall n | IsNewest(n, backups)
      ensures n == names[i]
    {
      if n != names[i] { StringLessAsym(n, names[i]); }
    }
  }

  lemma NewestIsOne(m: string, n: string, backups: map<string, string>)
    requires IsNewest(m, backups) && IsNewest(n, backups)
    ensures m == n
  {
    if m != n { StringLessAsym(m, n); }
  }

  lemma {:induction false} NewestExists(names: set<string>, n: string) returns (m: string)
    requires n in names && HasPrefix(n, PREFIX)
    ensures m in names && HasPrefix(m, PREFIX)
    ensures forall k | k in names && HasPrefix(k, PREFIX) :: k == m || StringLess(k, m)
    decreases |names|
  {
    m := n;
    if k :| k in names && HasPrefix(k, PREFIX) && k != n && !StringLess(k, n) {
      StringLessTotal(k, n);
      m := NewestExists(names - {n}, k);
      if k != m { StringLessTrans(n, k, m); }
    }
  }

  lemma PrefixOfNames(now: Stamp)
    ensures HasPrefix(BackupName(now), PREFIX) && !HasPrefix(KeysName(now), PREFIX)
  {
    assert KeysName(now)[0] == 'a' && PREFIX[0] == 's';
    assert BackupName(now)[..|PREFIX|] == PREFIX;
  }

  /** The copy this run made is the newest backup exactly when no other name comes later. */
  lemma {:induction false} JustMadeIsNewest(h: Host, now: Stamp)
    requires h.config.Some?
    ensures IsNewest(BackupName(now), Copies(h, now)) <==> NoneAfter(h.backups, now)
    ensures Copies(h, now)[BackupName(now)] == h.config.value
  {
    PrefixOfNames(now);
    forall n | HasPrefix(n, PREFIX)
      ensures n in Copies(h, now) <==> n == BackupName(now) || n in h.backups
    {}
  }

  /** Otherwise the newest one is whatever was the newest before. */
  lemma {:induction false} OlderStaysNewest(h: Host, now: Stamp) returns (m: string)
    requires h.config.Some? && !NoneAfter(h.backups, now)
    ensures IsNewest(m, h.backups) && IsNewest(m, Copies(h, now)) && Copies(h, now)[m] == h.backups[m]
  {
    PrefixOfNames(now);
    var mine := BackupName(now);
    var n :| n in h.backups && HasPrefix(n, PREFIX) && n != mine && !StringLess(n, mine);
    StringLessTotal(n, mine);
    m := NewestExists(h.backups.Keys, n);
    if n != m { StringLessTrans(mine, n, m); }
    StringLessAsym(mine, m);
  }

  /** For backups named by a time, not after in name is not later in time. */
  lemma {:induction false} NameOrder(a: Stamp, b: Stamp)
    requires IsStamp(a) && IsStamp(b)
    ensures BackupName(a) == BackupName(b) || StringLess(BackupName(a), BackupName(b)) <==> !Earlier(b, a)
  {
    LessFirst(PREFIX, PREFIX, Format(a), Format(b));
    LessIrreflexive(PREFIX);
    FormatOrder(a, b);
    if BackupName(a) == BackupName(b) { SameStamp(a, b); }
  }

  /** A file kept by hand under a word, such as sshd_config.orig, comes after every time. */
  lemma {:induction false} WordIsAfter(backups: map<string, string>, now: Stamp, word: string)
    requires word != "" && word[0] > '9' && PREFIX + word in backups
    ensures !NoneAfter(backups, now)
  {
    var name, mine := PREFIX + word, BackupName(now);
    assert name[..|PREFIX|] == PREFIX;
    WordOrder(now, word);
    StringLessAsym(mine, name);
  }

  lemma {:induction false} WordOrder(now: Stamp, word: string)
    requires word != "" && word[0] > '9'
    ensures StringLess(BackupName(now), PREFIX + word)
  {
    LessFirst(PREFIX, PREFIX, Format(now), word);
    assert Format(now)[0] == Fixed(now.year, 4)[0] && IsDigit(Format(now)[0]);
  }

  /** A rollback puts back the file that was there when the run made its copy exactly when
      no other name comes after the copy's, or the file of the last name is the same. */
  lemma {:induction false} BackupComesBack(h: Host, now: Stamp, before: Host, after: Host)
    requires h.config.Some? && before.backups == Copies(h, now) && Restored(before, after)
    ensures after.config == h.config <==> NoneAfter(h.backups, now) || NewestHas(h.backups, h.config.value)
  {
    JustMadeIsNewest(h, now);
    if !NoneAfter(h.backups, now) {
      var m := OlderStaysNewest(h, now);
      forall n | IsNewest(n, h.backups) ensures n == m { NewestIsOne(n, m, h.backups); }
    }
  }

  // ---------- the pipeline ----------

  datatype Config = Config(firewall: bool, fail2ban: bool, autoUpdates: bool)

  datatype Step = Preflight | Backups | User | SSH | Restart | Firewall | Fail2Ban | AutoUpdates | Script

  /** NotRun is RollbackApplied == false; Unreadable is a rollback that returned early. */
  datatype RollbackDetail = NotRun | Unreadable | Ran

  /** Whether the commands that open the two ports of the web work. For a rollback: whether
      the backup directory can be read, and whether its own commands (the copy, the removal
      and switching the firewall off) work. */
  datatype Odds = Odds(http: bool, https: bool, readable: bool, undoes: bool)

  datatype StepResult = StepResult(step: Step, completed: bool)

  /** The steps as the run records them, in order. */
  datatype Result = Result(success: bool, failedStep: Option<Step>, steps: seq<StepResult>, rollback: RollbackDetail)

  /** The steps a configuration asks for whose failure ends the run. */
  function Core(c: Config): seq<Step> {
    [Preflight, Backups, User, SSH, Restart] + (if c.firewall then [Firewall] else []) +
    (if c.fail2ban then [Fail2Ban] else []) + (if c.autoUpdates then [AutoUpdates] else [])
  }

  /** All the steps a configuration asks for; the emergency script comes last. */
  function Plan(c: Config): seq<Step> { Core(c) + [Script] }

  function Completed(ss: seq<Step>): (rs: seq<StepResult>)
    ensures |rs| == |ss| && forall i | 0 <= i < |rs| :: rs[i] == StepResult(ss[i], true)
  {
    seq(|ss|, i requires 0 <= i < |ss| => StepResult(ss[i], true))
  }

  /** A script that cannot be written is recorded twice: as failed, and then as completed. */
  function ScriptRecords(works: set<Step>): seq<StepResult> {
    (if Script in works then [] else [StepResult(Script, false)]) + [StepResult(Script, true)]
  }

  /** How many steps come before the first that cannot succeed. */
  function FirstMissing(ss: seq<Step>, works: set<Step>): (n: nat)
    ensures n <= |ss| && (forall i | 0 <= i < n :: ss[i] in works) && (n < |ss| ==> ss[n] !in works)
  {
    if ss == [] || ss[0] !in works then 0 else 1 + FirstMissing(ss[1..], works)
  }

  function RollbackAfter(step: Step, o: Odds): RollbackDetail {
    if step in {SSH, Restart, Firewall} then if o.readable then Ran else Unreadable else NotRun
  }

  /** The run is decided by the first step that cannot succeed: those before it are recorded
      as completed and it as failed, and the rollback follows an SSH or firewall failure.
      Without one, everything is completed, and the script's own records come last. */
  predicate Tells(r: Result, c: Config, works: set<Step>, o: Odds) {
    var n := FirstMissing(Core(c), works);
    if n < |Core(c)| then
      r == Result(false, Some(Core(c)[n]), Completed(Core(c)[..n]) + [StepResult(Core(c)[n], false)],
                  RollbackAfter(Core(c)[n], o))
    else
      r == Result(true, None, Completed(Core(c)) + ScriptRecords(works), NotRun)
  }

  /** Which step ends a run, and which of those ends are rolled back. */
  lemma Outcome(r: Result, c: Config, works: set<Step>, o: Odds)
    requires Tells(r, c, works, o)
    ensures r.success <==> r.failedStep == None
    ensures r.failedStep == FailsAt(c, works)
    ensures r.rollback == NotRun <==> r.failedStep !in {Some(SSH), Some(Restart), Some(Firewall)}
    ensures r.rollback == Unreadable ==> !o.readable
    ensures r.rollback == Ran ==> o.readable
  {
    var core, n := Core(c), FirstMissing(Core(c), works);
    var a, b := if c.firewall then 6 else 5, if c.fail2ban then 1 else 0;
    assert core[0] == Preflight && core[1] == Backups && core[2] == User && core[3] == SSH && core[4] == Restart;
    assert c.firewall ==> core[5] == Firewall;
    assert c.fail2ban ==> core[a] == Fail2Ban;
    assert c.autoUpdates ==> core[a + b] == AutoUpdates;
  }

  /** The steps in the order in which they can end a run. */
  function FailsAt(c: Config, works: set<Step>): Option<Step> {
    if Preflight !in works then Some(Preflight)
    else if Backups !in works then Some(Backups)
    else if User !in works then Some(User)
    else if SSH !in works then Some(SSH)
    else if Restart !in works then Some(Restart)
    else if c.firewall && Firewall !in works then Some(Firewall)
    else if c.fail2ban && Fail2Ban !in works then Some(Fail2Ban)
    else if c.autoUpdates && AutoUpdates !in works then Some(AutoUpdates)
    else None
  }

  /** A successful run has recorded every planned step once and completed exactly when the
      script could be written. */
  lemma RecordedOnce(r: Result, c: Config, works: set<Step>, o: Odds)
    requires Tells(r, c, works, o) && r.success
    ensures r.steps == Completed(Plan(c)) <==> Script in works
  {
    CompletedAppend(Core(c), [Script]);
    assert Completed([Script]) == [StepResult(Script, true)];
    assert |ScriptRecords(works)| == if Script in works then 1 else 2;
  }

  /** Otherwise it has recorded a failed step, although it is a success. */
  lemma ScriptTwice(r: Result, works: set<Step>, o: Odds)
    requires Tells(r, Config(false, false, false), works, o)
    requires works == {Preflight, Backups, User, SSH, Restart}
    ensures r.success && r.failedStep == None
    ensures r.steps == Completed([Preflight, Backups, User, SSH, Restart]) +
                       [StepResult(Script, false), StepResult(Script, true)]
  {
    var core := Core(Config(false, false, false));
    assert core == [Preflight, Backups, User, SSH, Restart];
    FirstMissingIs(core, works, |core|);
  }

  lemma CompletedAppend(a: seq<Step>, b: seq<Step>)
    ensures Completed(a + b) == Completed(a) + Completed(b)
  {}

  lemma {:induction false} FirstMissingIs(ss: seq<Step>, works: set<Step>, n: nat)
    requires n <= |ss| && (forall i | 0 <= i < n :: ss[i] in works) && (n < |ss| ==> ss[n] !in works)
    ensures FirstMissing(ss, works) == n
  {
    if n == 0 {
    } else {
      FirstMissingIs(ss[1..], works, n - 1);
    }
  }

  /** A run that ends at a step, after those before it. */
  function Stop(done: seq<Step>, step: Step, ghost c: Config, ghost works: set<Step>, o: Odds): (r: Result)
    requires done + [step] <= Core(c) && (forall i | 0 <= i < |done| :: done[i] in works) && step !in works
    ensures Tells(r, c, works, o)
    ensures !r.success && r.failedStep == Some(step) && r.rollback == RollbackAfter(step, o)
  {
    assert (done + [step])[|done|] == step && Core(c)[..|done|] == done;
    FirstMissingIs(Core(c), works, |done|);
    Result(false, Some(step), Completed(done) + [StepResult(step, false)], RollbackAfter(step, o))
  }

  /** The steps before one of the three that roll back. */
  function Before(step: Step): seq<Step> {
    if step == SSH then [Preflight, Backups, User]
    else if step == Restart then [Preflight, Backups, User, SSH]
    else [Preflight, Backups, User, SSH, Restart]
  }

  lemma BeforeInCore(step: Step, c: Config, works: set<Step>)
    requires {Preflight, Backups, User} <= works
    requires step == SSH || (SSH in works && (step == Restart || (Restart in works && step == Firewall && c.firewall)))
    ensures Before(step) + [step] <= Core(c) && forall i | 0 <= i < |Before(step)| :: Before(step)[i] in works
  {}

  const FIRST: seq<Step> := [Preflight, Backups, User, SSH, Restart]

  lemma CoreStarts(c: Config, n: nat)
    requires n < 5
    ensures FIRST[..n] + [FIRST[n]] <= Core(c)
  {}

  class Machine {
    const port: nat
    var host: Host
    /** Every state the host has been in, oldest first. */
    ghost var trace: seq<Host>

    ghost predicate Valid()
      reads this
    {
      trace != [] && trace[|trace| - 1] == host && forall i | 0 <= i < |trace| :: Reachable(trace[i], port)
    }

    constructor (port: nat, host: Host)
      requires !host.active
      ensures Valid() && this.port == port && this.host == host
    {
      this.port, this.host, trace := port, host, [host];
    }

    /** Every change of the host goes through here. */
    method Become(h: Host)
      requires Valid() && Reachable(h, port)
      modifies `host, `trace
      ensures Valid() && host == h && trace == old(trace) + [h]
    {
      host := h;
      trace := trace + [h];
    }

    /** ufw allow n/tcp */
    method Allow(n: nat, works: bool)
      requires Valid()
      modifies `host, `trace
      ensures Valid() && old(trace) <= trace
      ensures works ==> host == old(host).(allowed := old(host).allowed + {n})
      ensures host == old(host) || host == old(host).(allowed := old(host).allowed + {n})
    {
      var partly: bool := *;
      if works || partly { Become(host.(allowed := host.allowed + {n})); }
    }

    /** ufw --force enable, given only when the SSH port is allowed. */
    method Enable(works: bool)
      requires Valid() && port in host.allowed
      modifies `host, `trace
      ensures Valid() && old(trace) <= trace
      ensures works ==> host == old(host).(active := true)
      ensures host == old(host) || host == old(host).(active := true)
    {
      var partly: bool := *;
      if works || partly { Become(host.(active := true)); }
    }

    /** ufw --force disable */
    method Disable(works: bool)
      requires Valid()
      modifies `host, `trace
      ensures Valid() && old(trace) <= trace
      ensures works ==> host == old(host).(active := false)
      ensures host == old(host) || host == old(host).(active := false)
    {
      var partly: bool := *;
      if works || partly { Become(host.(active := false)); }
    }

    /** createBackups: a copy of each of the two files that is there, named by the time.
        When it fails, it may be at either. */
    method CreateBackups(now: Stamp, works: bool)
      requires Valid()
      modifies `host, `trace
      ensures Valid() && old(trace) <= trace
      ensures host == old(host).(backups := host.backups)
      ensures works ==> host.backups == Copies(old(host), now)
      ensures works && old(host).config.Some? ==>
                "sshd_config." + Format(now) in host.backups &&
                host.backups["sshd_config." + Format(now)] == old(host).config.value
      ensures works && old(host).keys.Some? ==>
                "authorized_keys." + Format(now) in host.backups &&
                host.backups["authorized_keys." + Format(now)] == old(host).keys.value
      ensures forall n | n !in {"sshd_config." + Format(now), "authorized_keys." + Format(now)} ::
                (n in host.backups <==> n in old(host).backups) &&
                (n in host.backups ==> host.backups[n] == old(host).backups[n])
    {
      PrefixOfNames(now);
      var atFirst: bool, partial: string := *, *;
      if host.config.Some? {
        var copied := if works || !atFirst then host.config.value else partial;
        Become(host.(backups := host.backups[BackupName(now) := copied]));
        if !works && atFirst { return; }
      }
      if host.keys.Some? {
        var copied := if works then host.keys.value else partial;
        Become(host.(backups := host.backups[KeysName(now) := copied]));
      }
    }

    /** configureSSH: writes the drop-in file; one that sshd -t rejects is removed again,
        if it can be. */
    method ConfigureSSH(works: bool)
      requires Valid()
      modifies `host, `trace
      ensures Valid() && old(trace) <= trace
      ensures host == old(host).(custom := host.custom)
      ensures works ==> host.custom
    {
      var written: bool, removed: bool := *, *;
      if works || written { Become(host.(custom := true)); }
      if !works && written && removed { Become(host.(custom := false)); }
    }

    /** configureFirewall: the SSH port is allowed before the firewall is switched on. When
        it fails, it may be at any command but the two that are best effort: those open the
        ports of the web, and may do so even if they fail. */
    method ConfigureFirewall(works: bool, http: bool, https: bool)
      requires Valid()
      modifies `host, `trace
      ensures Valid() && old(trace) <= trace
      ensures host == old(host).(active := host.active, allowed := host.allowed)
      ensures old(host).allowed <= host.allowed <= old(host).allowed + {port, 80, 443}
      ensures works ==> host.active && port in host.allowed
      ensures works && http ==> 80 in host.allowed
      ensures works && https ==> 443 in host.allowed
      ensures old(host).active ==> host.active
    {
      var failing: nat := *;
      // which ufw, apt-get install
      if !works && failing == 0 { return; }
      Allow(port, works || failing != 1);
      if !works && failing == 1 { return; }
      Allow(80, http);
      Allow(443, https);
      // ufw default deny incoming, ufw default allow outgoing
      if !works && failing == 2 { return; }
      Enable(works || failing != 3);
      // ufw status comes last
    }

    /** rollback. Nothing is undone when the backup directory cannot be read; otherwise
        everything is, if its own commands work. */
    method Rollback(o: Odds)
      requires Valid()
      modifies `host, `trace
      ensures Valid() && old(trace) <= trace
      ensures !o.readable ==> host == old(host)
      ensures host.backups == old(host).backups && host.allowed == old(host).allowed
      ensures o.readable && o.undoes ==> RolledBack(old(host), host)
    {
      if !o.readable { return; }
      RestoreConfig(o.undoes);
      var removed: bool := *;
      if host.custom && (o.undoes || removed) { Become(host.(custom := false)); }
      // systemctl enable, stop and start
      Disable(o.undoes);
    }

    /** The first part of rollback: the newest backup is copied over sshd_config. */
    method RestoreConfig(works: bool)
      requires Valid()
      modifies `host, `trace
      ensures Valid() && old(trace) <= trace
      ensures host == old(host).(config := host.config)
      ensures works ==> Restored(old(host), host)
    {
      var names := ReadDir(host.backups.Keys);
      var latest := LatestBackup(names);
      if latest.Some? {
        var content := host.backups[names[latest.value]];
        LatestFile(names, latest.value, host.backups);
        var copied: Option<string> := *;
        if works { copied := Some(content); }
        Become(host.(config := copied));
      }
    }

    /** The three steps whose failure rolls back. */
    method Secure(c: Config, works: set<Step>, o: Odds) returns (failed: Option<Step>)
      requires Valid()
      modifies `host, `trace
      ensures Valid() && old(trace) <= trace
      ensures host.config == old(host).config && host.keys == old(host).keys && host.backups == old(host).backups
      ensures failed == (
        if SSH !in works then Some(SSH) else if Restart !in works then Some(Restart)
        else if c.firewall && Firewall !in works then Some(Firewall) else None)
      ensures failed != Some(SSH) ==> host.custom
      ensures failed == None && c.firewall ==>
                host.active && port in host.allowed && (o.http ==> 80 in host.allowed) && (o.https ==> 443 in host.allowed)
      ensures old(host).allowed <= host.allowed <= old(host).allowed + {port, 80, 443}
    {
      ConfigureSSH(SSH in works);
      if SSH !in works { return Some(SSH); }
      // restartAndTestSSH
      if Restart !in works { return Some(Restart); }
      if c.firewall {
        ConfigureFirewall(Firewall in works, o.http, o.https);
        if Firewall !in works { return Some(Firewall); }
      }
      failed := None;
    }

    /** Harden: the steps in order, the first failing one ends the run, and SSH and
        firewall failures roll back. `works` are the steps whose own commands succeed. */
    method Harden(c: Config, now: Stamp, works: set<Step>, o: Odds) returns (r: Result)
      requires Valid()
      modifies this
      ensures Valid() && old(trace) <= trace
      ensures Tells(r, c, works, o) && r.failedStep == FailsAt(c, works)
      ensures r.rollback == NotRun <==> r.failedStep !in {Some(SSH), Some(Restart), Some(Firewall)}
      ensures r.success ==> host.custom && (c.firewall ==>
                host.active && port in host.allowed && (o.http ==> 80 in host.allowed) && (o.https ==> 443 in host.allowed))
      ensures old(host).allowed <= host.allowed <= old(host).allowed + {port, 80, 443}
      ensures r.rollback == NotRun || r.rollback == Unreadable ==> host.config == old(host).config
      ensures r.rollback == Unreadable && r.failedStep != Some(SSH) ==> host.custom
      ensures r.rollback == Ran && o.undoes ==> !host.active && !host.custom
      ensures r.rollback == Ran && o.undoes && old(host).config.Some? ==>
        (host.config == old(host).config <==>
         NoneAfter(old(host).backups, now) || NewestHas(old(host).backups, old(host).config.value))
    {
      // preflightChecks
      CoreStarts(c, 0);
      if Preflight !in works {
        r := Stop([], Preflight, c, works, o);
        Outcome(r, c, works, o);
        return;
      }
      CreateBackups(now, Backups in works);
      CoreStarts(c, 1);
      if Backups !in works {
        r := Stop([Preflight], Backups, c, works, o);
        Outcome(r, c, works, o);
        return;
      }
      // configureUser
      CoreStarts(c, 2);
      if User !in works {
        r := Stop([Preflight, Backups], User, c, works, o);
        Outcome(r, c, works, o);
        return;
      }
      r := AfterBackups(c, works, o, old(host).backups, now);
      Outcome(r, c, works, o);
    }

    /** The steps from SSH on. */
    method AfterBackups(c: Config, works: set<Step>, o: Odds, ghost backups: map<string, string>, ghost now: Stamp)
      returns (r: Result)
      requires Valid() && {Preflight, Backups, User} <= works
      requires host.backups == Copies(host.(backups := backups), now)
      modifies this
      ensures Valid() && old(trace) <= trace
      ensures Tells(r, c, works, o)
      ensures r.success ==> host.custom && (c.firewall ==>
                host.active && port in host.allowed && (o.http ==> 80 in host.allowed) && (o.https ==> 443 in host.allowed))
      ensures old(host).allowed <= host.allowed <= old(host).allowed + {port, 80, 443}
      ensures r.rollback == NotRun || r.rollback == Unreadable ==> host.config == old(host).config
      ensures r.rollback == Unreadable && r.failedStep != Some(SSH) ==> host.custom
      ensures r.rollback == Ran && o.undoes ==> !host.active && !host.custom
      ensures r.rollback == Ran && o.undoes && old(host).config.Some? ==>
        (host.config == old(host).config <==>
         NoneAfter(backups, now) || NewestHas(backups, old(host).config.value))
    {
      var failed := Secure(c, works, o);
      if failed.Some? {
        Recover(o, backups, now);
        BeforeInCore(failed.value, c, works);
        return Stop(Before(failed.value), failed.value, c, works, o);
      }
      r := Extras(c, works, o);
    }

    /** The rollback, and what it means after a run that began by making its copy. */
    method Recover(o: Odds, ghost backups: map<string, string>, ghost now: Stamp)
      requires Valid()
      requires host.backups == Copies(host.(backups := backups), now)
      modifies `host, `trace
      ensures Valid() && old(trace) <= trace
      ensures !o.readable ==> host == old(host)
      ensures host.allowed == old(host).allowed
      ensures o.readable && o.undoes ==> !host.active && !host.custom
      ensures o.readable && o.undoes && old(host).config.Some? ==>
        (host.config == old(host).config <==>
         NoneAfter(backups, now) || NewestHas(backups, old(host).config.value))
    {
      Rollback(o);
      if o.readable && o.undoes && old(host).config.Some? {
        BackupComesBack(old(host).(backups := backups), now, old(host), host);
      }
    }
  }

  /** The steps after the firewall; none of them rolls back, and the emergency script may
      fail without failing the run. */
  method Extras(c: Config, works: set<Step>, o: Odds) returns (r: Result)
    requires {Preflight, Backups, User, SSH, Restart} <= works && (c.firewall ==> Firewall in works)
    ensures Tells(r, c, works, o) && r.rollback == NotRun
    ensures r.success <==> (c.fail2ban ==> Fail2Ban in works) && (c.autoUpdates ==> AutoUpdates in works)
  {
    var done := [Preflight, Backups, User, SSH, Restart] + (if c.firewall then [Firewall] else []);
    if c.fail2ban {
      if Fail2Ban !in works { return Stop(done, Fail2Ban, c, works, o); }
      done := done + [Fail2Ban];
    }
    if c.autoUpdates {
      if AutoUpdates !in works { return Stop(done, AutoUpdates, c, works, o); }
      done := done + [AutoUpdates];
    }
    var steps := Completed(done);
    FirstMissingIs(Core(c), works, |Core(c)|);
    // createRollbackScript
    if Script !in works { steps := steps + [StepResult(Script, false)]; }
    r := Result(true, None, steps + [StepResult(Script, true)], NotRun);
  }

  /** os.ReadDir returns the names sorted. */
  method ReadDir(files: set<string>) returns (names: seq<string>)
    ensures Listed(names) && forall n :: n in names <==> n in files
  {
    names := [];
    var rest := files;
    while rest != {}
      invariant rest <= files && Listed(names)
      invariant forall n :: n in names <==> n in files && n !in rest
      decreases |rest|
    {
      var n :| n in rest;
      InsertNameListed(names, n);
      names := InsertName(names, n);
      rest := rest - {n};
    }
  }
}
