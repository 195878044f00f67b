/** internal/upgrade/upgrade.go, Upgrade: a pipeline that may fail at any step, with a
    backup of the compose file. Commands and file writes fail as they please. */
module Upgrades {
  import opened Text
  import opened ComposeDoc
  import opened Versions

  datatype Config = Config(
    currentVersion: string, targetVersion: string, backupFirst: bool,
    composeContent: string, envContent: string, rollbackOnFailure: bool)

  datatype Step = Validation | CreateBackup | BackupConfiguration | UpdateConfiguration |
                  RollingRestart | Stabilization | HealthCheck

  datatype Status = InProgress | Completed | StepFailed

  datatype StepResult = StepResult(step: Step, status: Status)

  datatype Result = Result(success: bool, failedStep: Option<Step>, steps: seq<StepResult>, rollbackApplied: bool)

  predicate VersionAllowed(current: string, target: string, registry: Registry) {
    current in registry && target in registry && StringLess(current, target)
  }

  /** The compose file an upgrade is meant to leave. */
  function Goal(c: Config, compose: string, registry: Registry): string {
    if c.composeContent != "" then c.composeContent
    else if c.targetVersion in registry then UpdatedCompose(compose, registry[c.targetVersion])
    else compose
  }

  /** The environment file an upgrade is meant to leave. */
  function GoalEnv(c: Config, env: string): string {
    if c.composeContent != "" && c.envContent != "" then c.envContent else env
  }

  /** Every step before the last is completed; the last one is completed exactly on
      success, and otherwise it is the failed step. */
  predicate StepsTell(r: Result) {
    && r.steps != []
    && (forall i | 0 <= i < |r.steps| - 1 :: r.steps[i].status == Completed)
    && r.steps[|r.steps| - 1].status == (if r.success then Completed else StepFailed)
    && (r.success <==> r.failedStep == None)
    && (!r.success ==> r.failedStep == Some(r.steps[|r.steps| - 1].step))
  }

  /** The steps a configuration asks for, in order. */
  function Plan(c: Config): seq<Step> {
    [Validation] + (if c.backupFirst then [CreateBackup] else []) +
    [BackupConfiguration, UpdateConfiguration, RollingRestart, Stabilization, HealthCheck]
  }

  /** Whether a step can succeed: its commands do, and an upgrade must be allowed. */
  predicate Passes(s: Step, c: Config, registry: Registry, works: set<Step>) {
    s == Stabilization ||
    (s in works && (s == Validation ==> VersionAllowed(c.currentVersion, c.targetVersion, registry)))
  }

  /** The steps taken are the planned ones up to the first that cannot succeed. */
  predicate Follows(r: Result, c: Config, registry: Registry, works: set<Step>) {
    && 0 < |r.steps| <= |Plan(c)|
    && (forall i | 0 <= i < |r.steps| :: r.steps[i].step == Plan(c)[i])
    && (forall i | 0 <= i < |r.steps| - 1 :: Passes(Plan(c)[i], c, registry, works))
    && (r.success <==> |r.steps| == |Plan(c)| && Passes(Plan(c)[|r.steps| - 1], c, registry, works))
    && (!r.success ==> !Passes(Plan(c)[|r.steps| - 1], c, registry, works))
  }

  /** A run so far: the first planned steps, all of them completed. */
  predicate OnTrack(steps: seq<StepResult>, c: Config, registry: Registry, works: set<Step>) {
    |steps| <= |Plan(c)| && forall i | 0 <= i < |steps| ::
      steps[i] == StepResult(Plan(c)[i], Completed) && Passes(Plan(c)[i], c, registry, works)
  }

  predicate IsNext(step: Step, steps: seq<StepResult>, c: Config) {
    |steps| < |Plan(c)| && Plan(c)[|steps|] == step
  }

  function Fail(steps: seq<StepResult>, step: Step, rolledBack: bool,
                ghost c: Config, ghost registry: Registry, ghost works: set<Step>): (r: Result)
    requires OnTrack(steps, c, registry, works) && IsNext(step, steps, c) && !Passes(step, c, registry, works)
    ensures StepsTell(r) && Follows(r, c, registry, works)
    ensures r.failedStep == Some(step) && !r.success && r.rollbackApplied == rolledBack
  {
    Result(false, Some(step), steps + [StepResult(step, StepFailed)], rolledBack)
  }

  function Complete(steps: seq<StepResult>, step: Step,
                    ghost c: Config, ghost registry: Registry, ghost works: set<Step>): (r: seq<StepResult>)
    requires OnTrack(steps, c, registry, works) && IsNext(step, steps, c) && Passes(step, c, registry, works)
    ensures OnTrack(r, c, registry, works) && |r| == |steps| + 1
  {
    steps + [StepResult(step, Completed)]
  }

  function Succeed(steps: seq<StepResult>, ghost c: Config, ghost registry: Registry, ghost works: set<Step>): (r: Result)
    requires OnTrack(steps, c, registry, works) && |steps| == |Plan(c)|
    ensures StepsTell(r) && Follows(r, c, registry, works)
    ensures r.failedStep == None && r.success && !r.rollbackApplied
  {
    Result(true, None, steps, false)
  }

  /** Which runs succeed, and which stop before anything is changed. */
  lemma Outcome(r: Result, c: Config, registry: Registry, works: set<Step>)
    requires StepsTell(r) && Follows(r, c, registry, works)
    ensures r.failedStep == Some(Validation) <==>
            Validation !in works || c.currentVersion !in registry || c.targetVersion !in registry ||
            !StringLess(c.currentVersion, c.targetVersion)
    ensures r.success <==>
            && c.currentVersion in registry && c.targetVersion in registry
            && StringLess(c.currentVersion, c.targetVersion)
            && Validation in works && (c.backupFirst ==> CreateBackup in works) && BackupConfiguration in works
            && UpdateConfiguration in works && RollingRestart in works && HealthCheck in works
  {
    Planned(c);
    PlanSteps(c);
    var n := |r.steps| - 1;
    assert Passes(Plan(c)[0], c, registry, works) || n == 0;
    if r.success {
      AllPass(r, c, registry, works);
      assert Validation in Plan(c) && BackupConfiguration in Plan(c) && UpdateConfiguration in Plan(c);
      assert RollingRestart in Plan(c) && HealthCheck in Plan(c) && (c.backupFirst ==> CreateBackup in Plan(c));
    } else {
      assert Plan(c)[n] in Plan(c);
    }
  }

  lemma Planned(c: Config)
    ensures forall s :: s in Plan(c) <==> s != CreateBackup || c.backupFirst
  {
    PlanSteps(c);
    var front := if c.backupFirst then [Validation, CreateBackup] else [Validation];
    assert Plan(c) == front + [BackupConfiguration, UpdateConfiguration, RollingRestart, Stabilization, HealthCheck];
    forall s: Step ensures s in Plan(c) <==> s != CreateBackup || c.backupFirst {}
  }

  lemma PlanSteps(c: Config)
    ensures Plan(c) == if c.backupFirst
                       then [Validation, CreateBackup, BackupConfiguration, UpdateConfiguration,
                             RollingRestart, Stabilization, HealthCheck]
                       else [Validation, BackupConfiguration, UpdateConfiguration,
                             RollingRestart, Stabilization, HealthCheck]
  {}

  lemma AllPass(r: Result, c: Config, registry: Registry, works: set<Step>)
    requires Follows(r, c, registry, works) && r.success
    ensures forall s | s in Plan(c) :: Passes(s, c, registry, works)
  {}

  class Instance {
    var compose: string
    var backup: Option<string>
    var env: string
    /** Copying the backup over the compose file succeeds. */
    const restores: bool

    constructor (compose: string, env: string, restores: bool)
      ensures this.compose == compose && this.env == env && this.restores == restores
    {
      this.compose, this.env, this.restores, backup := compose, env, restores, None;
    }

    /** cp docker-compose.yml docker-compose.yml.backup */
    method CopyToBackup(works: bool) returns (ok: bool)
      modifies `backup
      ensures ok == works && (works ==> backup == Some(compose))
    {
      ok := works;
      if works { backup := Some(compose); } else { backup := *; }
    }

    /** cp docker-compose.yml.backup docker-compose.yml, which may fail. */
    method CopyFromBackup() returns (ok: bool)
      modifies `compose
      ensures ok == (restores && backup.Some?)
      ensures ok ==> compose == backup.value
    {
      ok := restores && backup.Some?;
      if ok { compose := backup.value; } else { compose := *; }
    }

    /** A failed write may leave anything. */
    method WriteCompose(content: string, works: bool) returns (ok: bool)
      modifies `compose
      ensures ok == works && (works ==> compose == content)
    {
      ok := works;
      if works { compose := content; } else { compose := *; }
    }

    method WriteEnv(content: string, works: bool) returns (ok: bool)
      modifies `env
      ensures ok == works && (works ==> env == content)
    {
      ok := works;
      if works { env := content; } else { env := *; }
    }

    /** rollbackUpgrade; stopping and starting containers does not matter here. */
    method RollbackUpgrade()
      modifies `compose
      ensures restores && backup.Some? ==> compose == backup.value
    {
      var ok := CopyFromBackup();
    }

    /** The update of the configuration files, with its own restore on failure. When it
        fails, it may be at the first or at the second of its commands. */
    method ApplyConfiguration(c: Config, registry: Registry, works: bool) returns (ok: bool)
      requires c.targetVersion in registry && backup == Some(compose)
      modifies `compose, `env
      ensures ok == works
      ensures ok ==> compose == Goal(c, old(compose), registry) && env == GoalEnv(c, old(env))
      ensures !ok && restores && c.rollbackOnFailure ==> compose == old(compose)
    {
      var atFirst: bool := *;
      if c.composeContent != "" {
        ok := WriteCompose(c.composeContent, works || (c.envContent != "" && !atFirst));
        if ok && c.envContent != "" {
          ok := WriteEnv(c.envContent, works);
        }
      } else {
        // one pull for each image
        ok := works || !atFirst;
        if ok {
          var updated := UpdateDockerCompose(compose, registry[c.targetVersion]);
          ok := WriteCompose(updated, works);
        }
      }
      if !ok && c.rollbackOnFailure {
        var copied := CopyFromBackup();
      }
    }

    /** Stop and start, or the health check after it: a failure is rolled back. */
    method Checked(c: Config, works: bool) returns (rolledBack: bool)
      modifies `compose
      ensures rolledBack <==> !works && c.rollbackOnFailure
      ensures rolledBack && restores && backup.Some? ==> compose == backup.value
      ensures !rolledBack ==> compose == old(compose)
    {
      rolledBack := !works && c.rollbackOnFailure;
      if rolledBack { RollbackUpgrade(); }
    }

    /** The second half of Upgrade, from the backup on. */
    method Switch(steps0: seq<StepResult>, c: Config, registry: Registry, works: set<Step>) returns (r: Result)
      requires OnTrack(steps0, c, registry, works) && IsNext(UpdateConfiguration, steps0, c)
      requires c.targetVersion in registry && backup == Some(compose)
      modifies this
      ensures StepsTell(r) && Follows(r, c, registry, works)
      ensures r.success ==> compose == Goal(c, old(compose), registry) && env == GoalEnv(c, old(env))
      ensures !r.success ==> backup == old(backup)
      ensures !r.success && restores && c.rollbackOnFailure ==> compose == old(compose)
      ensures r.failedStep in {None, Some(UpdateConfiguration), Some(RollingRestart), Some(HealthCheck)}
      ensures r.failedStep in {Some(RollingRestart), Some(HealthCheck)} ==>
              && env == GoalEnv(c, old(env))
              && (!c.rollbackOnFailure ==> compose == Goal(c, old(compose), registry))
      ensures r.rollbackApplied <==> c.rollbackOnFailure && r.failedStep in {Some(RollingRestart), Some(HealthCheck)}
    {
      var steps := steps0;
      var ok := ApplyConfiguration(c, registry, UpdateConfiguration in works);
      if !ok {
        return Fail(steps, UpdateConfiguration, false, c, registry, works);
      }
      steps := Complete(steps, UpdateConfiguration, c, registry, works);

      var rolledBack := Checked(c, RollingRestart in works);
      if RollingRestart !in works {
        return Fail(steps, RollingRestart, rolledBack, c, registry, works);
      }
      steps := Complete(Complete(steps, RollingRestart, c, registry, works), Stabilization, c, registry, works);

      rolledBack := Checked(c, HealthCheck in works);
      if HealthCheck !in works {
        return Fail(steps, HealthCheck, rolledBack, c, registry, works);
      }
      steps := Complete(steps, HealthCheck, c, registry, works);

      // os.Remove, its error ignored
      var removed: bool := *;
      if removed { backup := None; }
      r := Succeed(steps, c, registry, works);
    }

    /** `works` are the steps whose own commands succeed. Only an upgrade from a known version
        to a later known one passes the validation. Before the backup nothing changes.
        From the backup on, the backup holds the original compose file until the upgrade has
        succeeded, and with rollback on failure, if copying back works, so does the compose
        file itself whenever the upgrade fails. The environment file is never
        restored. */
    method Upgrade(c: Config, registry: Registry, works: set<Step>) returns (r: Result)
      modifies this
      ensures StepsTell(r) && Follows(r, c, registry, works)
      ensures r.failedStep == Some(Validation) <==>
              Validation !in works || c.currentVersion !in registry || c.targetVersion !in registry ||
              !StringLess(c.currentVersion, c.targetVersion)
      ensures r.success <==>
              && c.currentVersion in registry && c.targetVersion in registry
              && StringLess(c.currentVersion, c.targetVersion)
              && Validation in works && (c.backupFirst ==> CreateBackup in works) && BackupConfiguration in works
              && UpdateConfiguration in works && RollingRestart in works && HealthCheck in works
      ensures r.success && c.composeContent != "" ==>
              compose == c.composeContent && env == if c.envContent != "" then c.envContent else old(env)
      ensures r.success && c.composeContent == "" ==>
              compose == UpdatedCompose(old(compose), registry[c.targetVersion]) && env == old(env)
      ensures r.failedStep in {Some(Validation), Some(CreateBackup)} ==>
              compose == old(compose) && backup == old(backup) && env == old(env)
      ensures r.failedStep == Some(BackupConfiguration) ==> compose == old(compose) && env == old(env)
      ensures r.failedStep in {Some(UpdateConfiguration), Some(RollingRestart), Some(HealthCheck)} ==>
              && backup == Some(old(compose))
              && (restores && c.rollbackOnFailure ==> compose == old(compose))
      ensures r.failedStep in {Some(RollingRestart), Some(HealthCheck)} ==>
              && env == GoalEnv(c, old(env))
              && (!c.rollbackOnFailure ==> compose == Goal(c, old(compose), registry))
      ensures r.rollbackApplied <==> c.rollbackOnFailure && r.failedStep in {Some(RollingRestart), Some(HealthCheck)}
    {
      var steps: seq<StepResult> := [];
      // the instance directory, the disk space and the health of the instance
      if Validation !in works || !VersionAllowed(c.currentVersion, c.targetVersion, registry) {
        r := Fail(steps, Validation, false, c, registry, works);
        Outcome(r, c, registry, works);
        return;
      }
      steps := Complete(steps, Validation, c, registry, works);

      if c.backupFirst {
        if CreateBackup !in works {
          r := Fail(steps, CreateBackup, false, c, registry, works);
          Outcome(r, c, registry, works);
          return;
        }
        steps := Complete(steps, CreateBackup, c, registry, works);
      }

      var ok := CopyToBackup(BackupConfiguration in works);
      if !ok {
        r := Fail(steps, BackupConfiguration, false, c, registry, works);
        Outcome(r, c, registry, works);
        return;
      }
      steps := Complete(steps, BackupConfiguration, c, registry, works);
      r := Switch(steps, c, registry, works);
      Outcome(r, c, registry, works);
    }
  }

  /** What GetCurrentVersion says about the file a successful upgrade from the registry
      leaves: the target version, exactly when an image line is left to postgres. */
  lemma {:induction false} UpgradeIsReadBack(c: Config, d: Doc, version: Option<string>)
    requires HasText(d) && OthersUnmarked(d) && c.composeContent == "" && c.targetVersion in REGISTRY
    requires IsCurrentVersion(Split(Goal(c, Join(DocLines(d)), REGISTRY)), REGISTRY, version)
    ensures version == if PostgresWritten(d) then Some(c.targetVersion) else None
  {
    RegistryIsDistinguishable();
    VersionRoundTrip(d, REGISTRY, c.targetVersion, version);
  }
}
