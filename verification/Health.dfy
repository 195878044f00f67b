/** internal/health/health.go: the retry loop of CheckAll against a clock, and how one
    round of probes is summed up. Times are whole milliseconds. */
module Health {
  import opened Powers

  datatype Config = Config(
    subdomain: string, services: seq<string>,
    timeout: int, retryInterval: int, maxRetries: int, useExponential: bool)

  datatype Probe = Probe(name: string, healthy: bool)

  datatype Report = Report(allHealthy: bool, services: seq<Probe>)

  const SECOND := 1000

  const LEGACY_SUFFIXES := ["postgres", "kong", "studio"]

  // ---------- one round ----------

  function Suffixes(c: Config): seq<string> {
    if c.services == [] then LEGACY_SUFFIXES else c.services
  }

  function ContainerName(subdomain: string, suffix: string): string {
    if suffix == "realtime" then "realtime-dev." + subdomain + "-realtime" else subdomain + "-" + suffix
  }

  /** The answer of the i-th probe of the n-th round. */
  type Answers = (nat, nat) -> bool

  /** One probe of each container, in order, then PostgreSQL, Kong and the Studio page. The
      containers are those of the configured services, or of PostgreSQL, Kong and Studio if
      it names none. The round is healthy exactly when all probes but the last are. */
  predicate IsRound(r: Report, n: nat, c: Config, answers: Answers) {
    var m := if c.services == [] then 3 else |c.services|;
    && |r.services| == m + 3
    && (forall i | 0 <= i < |r.services| :: r.services[i].healthy == answers(n, i))
    && (forall i | 0 <= i < |c.services| ::
          r.services[i].name == if c.services[i] == "realtime" then "realtime-dev." + c.subdomain + "-realtime"
                                else c.subdomain + "-" + c.services[i])
    && (c.services == [] ==>
          && r.services[0].name == c.subdomain + "-postgres"
          && r.services[1].name == c.subdomain + "-kong"
          && r.services[2].name == c.subdomain + "-studio")
    && r.services[m].name == "postgresql" && r.services[m + 1].name == "kong-gateway" && r.services[m + 2].name == "studio"
    && (r.allHealthy <==> forall i | 0 <= i < |r.services| - 1 :: r.services[i].healthy)
  }

  lemma LegacyNames(subdomain: string)
    ensures |LEGACY_SUFFIXES| == 3
    ensures ContainerName(subdomain, LEGACY_SUFFIXES[0]) == subdomain + "-postgres"
    ensures ContainerName(subdomain, LEGACY_SUFFIXES[1]) == subdomain + "-kong"
    ensures ContainerName(subdomain, LEGACY_SUFFIXES[2]) == subdomain + "-studio"
  {
    assert |"postgres"| == 8 && |"kong"| == 4 && |"studio"| == 6 && |"realtime"| == 8;
    assert "postgres"[0] == 'p' && "realtime"[0] == 'r';
    Joined(subdomain, "postgres");
    Joined(subdomain, "kong");
    Joined(subdomain, "studio");
  }

  lemma Joined(a: string, b: string)
    ensures a + "-" + b == a + ("-" + b)
  {}

  predicate AreOf(containers: seq<Probe>, n: nat, c: Config, answers: Answers) {
    |containers| == |Suffixes(c)| && forall i | 0 <= i < |containers| ::
      containers[i] == Probe(ContainerName(c.subdomain, Suffixes(c)[i]), answers(n, i))
  }

  lemma SummedUp(containers: seq<Probe>, allHealthy: bool, n: nat, c: Config, answers: Answers)
    requires AreOf(containers, n, c, answers)
    requires var m := |containers|;
             allHealthy <==> (forall i | 0 <= i < m :: containers[i].healthy) && answers(n, m) && answers(n, m + 1)
    ensures var m := |containers|;
            IsRound(Report(allHealthy, containers + [Probe("postgresql", answers(n, m)),
              Probe("kong-gateway", answers(n, m + 1)), Probe("studio", answers(n, m + 2))]), n, c, answers)
  {
    if c.services == [] { LegacyNames(c.subdomain); }
    assert forall i | 0 <= i < |containers| :: containers[i].healthy == answers(n, i);
  }

  predicate Probed(rounds: seq<Report>, c: Config, answers: Answers) {
    forall n | 0 <= n < |rounds| :: IsRound(rounds[n], n, c, answers)
  }

  lemma ProbedNext(rounds: seq<Report>, r: Report, c: Config, answers: Answers)
    requires Probed(rounds, c, answers) && IsRound(r, |rounds|, c, answers)
    ensures Probed(rounds + [r], c, answers)
  {}

  predicate Unhealthy(rounds: seq<Report>) {
    forall n | 0 <= n < |rounds| :: !rounds[n].allHealthy
  }

  // ---------- the waits ----------

  /** The wait asked for after the n-th unhealthy round, counted from 1. */
  function Wait(c: Config, n: nat): int
    requires n >= 1
  {
    if c.useExponential then Min(Pow2(n - 1), 30) * SECOND else c.retryInterval
  }

  /** The waits double from one second up to 30, or are all the configured one. */
  predicate Scheduled(c: Config, waits: seq<int>) {
    && (|waits| > 0 ==> waits[0] == if c.useExponential then 1000 else c.retryInterval)
    && forall i | 0 < i < |waits| :: waits[i] == if c.useExponential then Min(2 * waits[i - 1], 30000) else c.retryInterval
  }

  /** The waits after the first n rounds together. */
  function Total(c: Config, n: nat): int {
    if n == 0 then 0 else Total(c, n - 1) + Wait(c, n)
  }

  /** The shift by at most six places, capped at 30 seconds, is the capped power of two. */
  lemma ShiftIsPower(n: nat)
    requires n >= 1
    ensures Min(Pow2(Min(n - 1, 6)), 30) == Min(Pow2(n - 1), 30)
  {
    if n > 7 {
      Pow2Grows(6, n - 1);
      assert Pow2(6) == 64 by { assert Pow2(3) == 8; }
    }
  }

  /** Exponential waits are 1, 2, 4, 8 and 16 seconds and from then on 30; otherwise they are
      all the same. */
  lemma WaitsRecur(c: Config, n: nat)
    requires n >= 1
    ensures Wait(c, 1) == if c.useExponential then 1000 else c.retryInterval
    ensures Wait(c, n + 1) == if c.useExponential then Min(2 * Wait(c, n), 30000) else c.retryInterval
  {
    assert Pow2(n) == 2 * Pow2(n - 1);
  }

  lemma WaitsGrow(c: Config, n: nat)
    requires n >= 1
    ensures Wait(c, n) <= Wait(c, n + 1)
  {
    Pow2Grows(n - 1, n);
  }

  /** The waits so far are the first ones of the schedule; `late` tells that one was left
      out because it would have reached the deadline. */
  predicate Paced(c: Config, waits: seq<int>, attempt: nat, elapsed: int, late: bool) {
    && |waits| <= attempt
    && (forall i | 0 <= i < |waits| :: waits[i] == Wait(c, i + 1))
    && (|waits| > 0 ==> |waits| < c.maxRetries && Total(c, |waits|) <= elapsed && Total(c, |waits|) < c.timeout)
    && (!late && attempt > 0 ==> |waits| == if attempt < c.maxRetries then attempt else attempt - 1)
    && (late ==> attempt > 0 && elapsed + Wait(c, attempt) >= c.timeout)
  }

  lemma PacedLater(c: Config, waits: seq<int>, attempt: nat, elapsed: int, later: int, late: bool)
    requires Paced(c, waits, attempt, elapsed, late) && elapsed <= later
    ensures Paced(c, waits, attempt, later, late)
  {}

  /** The default settings: exponential waits and a minute altogether. However many retries
      are configured, at most five waits fit; from the sixth round on the rounds follow each
      other without a pause. */
  lemma {:induction false} AtMostFiveWaits(c: Config, waits: nat)
    requires c.useExponential && c.timeout == 60 * SECOND
    requires waits == 0 || Total(c, waits) < c.timeout
    ensures waits <= 5
  {
    assert Pow2(3) == 8 && Pow2(4) == 16 && Pow2(5) == 32;
    assert Pow2(0) == 1 && Pow2(1) == 2 && Pow2(2) == 4;
    assert Total(c, 0) == 0;
    assert Total(c, 1) == 1000;
    assert Total(c, 2) == 3000;
    assert Total(c, 3) == 7000;
    assert Total(c, 4) == 15000;
    assert Total(c, 5) == 31000;
    assert Total(c, 6) == 61000;
    if waits >= 6 { TotalGrows(c, 6, waits); }
  }

  lemma {:induction false} TotalGrows(c: Config, n: nat, m: nat)
    requires c.useExponential && n <= m
    ensures Total(c, n) <= Total(c, m)
  {
    if n < m {
      TotalGrows(c, n, m - 1);
      Pow2Grows(0, m - 1);
    }
  }

  lemma WaitsScheduled(c: Config, waits: seq<int>)
    requires forall i | 0 <= i < |waits| :: waits[i] == Wait(c, i + 1)
    ensures Scheduled(c, waits)
  {
    if |waits| > 0 { WaitsRecur(c, 1); }
    forall i | 0 < i < |waits|
      ensures waits[i] == if c.useExponential then Min(2 * waits[i - 1], 30000) else c.retryInterval
    {
      WaitsRecur(c, i);
    }
  }

  // ---------- the loop ----------

  method AllRunning(containers: seq<Probe>) returns (all: bool)
    ensures all <==> forall i | 0 <= i < |containers| :: containers[i].healthy
  {
    all := true;
    for i := 0 to |containers|
      invariant all <==> forall j | 0 <= j < i :: containers[j].healthy
    {
      if !containers[i].healthy { all := false; }
    }
  }

  class Monitor {
    const answers: Answers
    var now: int
    /** Every round so far, oldest first. */
    ghost var rounds: seq<Report>
    /** How long the waits asked for were, oldest first. */
    ghost var waits: seq<int>

    constructor (now: int, answers: Answers)
      ensures this.now == now && this.answers == answers && rounds == [] && waits == []
    {
      this.now, this.answers, rounds, waits := now, answers, [], [];
    }

    /** Time passes. */
    method Tick()
      modifies `now
      ensures now >= old(now)
    {
      var d :| d >= 0;
      now := now + d;
    }

    /** time.Sleep: lasts at least as long as asked for; a negative wait is none. */
    method Sleep(d: int)
      modifies this
      ensures now >= old(now) && now >= old(now) + d
      ensures waits == old(waits) + [d] && rounds == old(rounds)
    {
      var late :| late >= 0;
      now := now + late + if d > 0 then d else 0;
      waits := waits + [d];
    }

    /** checkContainerStates */
    method CheckContainerStates(n: nat, subdomain: string, suffixes: seq<string>) returns (services: seq<Probe>)
      modifies `now
      ensures now >= old(now) && |services| == |suffixes|
      ensures forall i | 0 <= i < |suffixes| ::
        services[i] == Probe(ContainerName(subdomain, suffixes[i]), answers(n, i))
      ensures forall i | 0 <= i < |suffixes| ::
        services[i].name == if suffixes[i] == "realtime" then "realtime-dev." + subdomain + "-realtime"
                            else subdomain + "-" + suffixes[i]
    {
      services := [];
      for i := 0 to |suffixes|
        invariant now >= old(now) && |services| == i
        invariant forall j | 0 <= j < i :: services[j] == Probe(ContainerName(subdomain, suffixes[j]), answers(n, j))
      {
        services := services + [Probe(ContainerName(subdomain, suffixes[i]), answers(n, i))];
        Tick();
      }
    }

    /** runHealthChecks */
    method RunHealthChecks(n: nat, c: Config) returns (r: Report)
      requires n == |rounds| && Probed(rounds, c, answers)
      modifies this
      ensures rounds == old(rounds) + [r] && Probed(rounds, c, answers)
      ensures now >= old(now) && waits == old(waits)
    {
      var containers := CheckContainerStates(n, c.subdomain, Suffixes(c));
      var m := |containers|;
      var allHealthy := AllRunning(containers);
      var postgres, kong, studio := answers(n, m), answers(n, m + 1), answers(n, m + 2);
      Tick();
      if !postgres { allHealthy := false; }
      if !kong { allHealthy := false; }
      var services := containers + [Probe("postgresql", postgres), Probe("kong-gateway", kong), Probe("studio", studio)];
      r := Report(allHealthy, services);
      SummedUp(containers, allHealthy, n, c, answers);
      ProbedNext(rounds, r, c, answers);
      rounds := rounds + [r];
    }

    /** The wait after an unhealthy round: not after the last one, and not past the deadline. */
    method Pause(c: Config, attempt: nat, start: int, ghost late: bool) returns (ghost nowLate: bool)
      requires 1 <= attempt <= c.maxRetries && now >= start && Paced(c, waits, attempt - 1, now - start, late)
      modifies this
      ensures rounds == old(rounds) && now >= old(now)
      ensures Paced(c, waits, attempt, now - start, nowLate)
    {
      if attempt >= 2 { WaitsGrow(c, attempt - 1); }
      var wait := c.retryInterval;
      if c.useExponential {
        wait := Min(Pow2(Min(attempt - 1, 6)) * SECOND, 30 * SECOND);
        ShiftIsPower(attempt);
      }
      Tick();
      nowLate := late;
      if attempt < c.maxRetries {
        if now + wait < start + c.timeout { Sleep(wait); } else { nowLate := true; }
      }
    }

    /** CheckAll. It answers without an error exactly when the round it returns is healthy.
        That round is the last one and every round before it was unhealthy, at most
        MaxRetries + 1 rounds are made, and an error means the retries or the time have run
        out. The waits are the first ones of the schedule, none left out, and together they
        are shorter than the timeout; there are fewer than the retries allow only when the
        time that is left is too short for the next one. */
    method CheckAll(c: Config) returns (r: Report, err: bool)
      requires rounds == [] && waits == []
      modifies this
      ensures err <==> !r.allHealthy
      ensures rounds != [] && r == rounds[|rounds| - 1]
      ensures Probed(rounds, c, answers) && Unhealthy(rounds[..|rounds| - 1])
      ensures |rounds| <= 1 || |rounds| <= c.maxRetries + 1
      ensures err ==> |rounds| >= c.maxRetries + 1 || now >= old(now) + c.timeout
      ensures |waits| == 0 || |waits| < c.maxRetries
      ensures forall i | 0 <= i < |waits| :: waits[i] == Wait(c, i + 1)
      ensures Scheduled(c, waits)
      ensures |waits| == 0 || Total(c, |waits|) < c.timeout
      ensures err && |waits| < c.maxRetries - 1 ==> (
        now >= old(now) + c.timeout || (|rounds| >= 2 && now + Wait(c, |rounds| - 1) >= old(now) + c.timeout))
    {
      var start := now;
      var attempt := 0;
      ghost var late := false;
      while now < start + c.timeout && attempt < c.maxRetries
        invariant now >= start && attempt >= 0 && (attempt == 0 || attempt <= c.maxRetries)
        invariant |rounds| == attempt && Probed(rounds, c, answers) && Unhealthy(rounds)
        invariant Paced(c, waits, attempt, now - start, late)
        decreases c.maxRetries - attempt
      {
        attempt := attempt + 1;
        ghost var elapsed := now - start;
        r := RunHealthChecks(attempt - 1, c);
        PacedLater(c, waits, attempt - 1, elapsed, now - start, late);
        if r.allHealthy {
          WaitsScheduled(c, waits);
          return r, false;
        }
        late := Pause(c, attempt, start, late);
      }
      r := RunHealthChecks(attempt, c);
      err := !r.allHealthy;
      WaitsScheduled(c, waits);
    }
  }
}
