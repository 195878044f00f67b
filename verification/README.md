# vmkit-agent: a Dafny model of what the agent decides itself

vmkit-agent runs on a customer's VM and mostly calls other programs: `ufw`, `docker`,
`cp`, `systemctl`. This project models the parts where the agent's own logic decides
whether the result is right, against small state machines for the things it drives, and
proves what those parts promise. A command is a transition that may fail, and a failed
one may have had part of its effect; every property says which failures it survives.

## What is modelled

**The firewall** (`UfwLine`, `Allowlist`, `Renumbering`, `Ufw`, `Firewalls`, `PortRules`,
`Openport`, `Teardown`, `Resets`). A firewall is a list of rules in which every entry has a
number, also those the agent cannot parse, and deleting an entry renumbers the ones after
it. `ufw status numbered` prints the list; the agent reads it with a regular expression,
compares the port's sources with a wanted list, deletes by number in descending order,
adds what is missing, and reads again. The regular expression is modelled as a matcher and,
separately, as the set of lines it describes, and the two are proved to agree. UFW is free in
where it inserts a rule and in how it rewrites the address it is given; opening a port to
everyone adds an IPv4 rule and, unless IPv6 is switched off in UFW, an IPv6 one.

What comes out: one run reaches exactly the wanted sources if and only if UFW lists every
missing entry the way it is written and a missing blanket entry is wanted for every family
UFW handles; two runs do if and only if the first of the two conditions holds, and otherwise
no number of runs does. The doc comments promise more
(`internal/openport/openport.go:118-120`, `internal/openport/allowlist.go:122-135`): asked
for `0.0.0.0/0` alone, the first run leaves IPv4 and IPv6 open and the second deletes the
IPv6 rule. A bare address without a prefix length is added again by every run, and its stored
form deleted by every run after the first, for ever.

**Text that is rewritten** (`ComposeRewrite`, `ComposeDoc`, `Versions`, `EnvFile`, `Kong`).
The docker-compose scanner is compared with an update of a structured document; the `.env`
rewrite with reading the written file back; the awk program of the Kong entrypoint with
cutting the line into text and variables. One scan is the structured update if and only if
no other service has a line like the key of the named service above its own image line; the
long form of `depends_on` is such a line (`ComposeDoc.DependsOnMisleads`). The three scans of
an upgrade are the structured upgrade if and only if the last one to reach each image line is
the one for its service: kong depending on postgres is put right by the kong scan, a service
of another name that depends on postgres loses its image, and when postgres itself depends on
kong the version can no longer be read back (`Versions.DependentPostgresIsUnknown`).

**The daemon** (`DaemonSteps`, `Reconnect`, `Tokens`). Reader, writer, heartbeat and closer
are members of a group that starts and ends with a connection; handlers and the send queue of
64 messages outlive it. A run is any interleaving of their steps with frames, failures, clean
closes and a shutdown. The responses are those of section 5 of the JSON-RPC 2.0
Specification, notifications those of section 4.1. A cancelled connection always ends without
any help from the network, because its fourth member closes it; without that a blocked reader
stays blocked. But the comment at `internal/daemon/daemon.go:159`, that the connection is
closed when any goroutine exits, is not what happens: a reader that ends with nil after a
clean close does not cancel the group, so the connection stays until a write fails or the
daemon is shut down. Every result of the group is an error, so the branch at
`internal/daemon/daemon.go:113-116` is never taken and the wait before a reconnect only ever
grows.

A token rotation has an exact condition for each point at which it can stop. While the file
is empty, the bootstrap file must hold the token in use; after the first rotation it is gone.
While the file is torn, nothing helps: it hides the bootstrap file, and what is read is a part
of the new token. For a token without spaces of three characters or more some torn point is
always unsafe.

**Pipelines** (`Upgrades`, `Harden`, `Health`, `Selfupgrade`). Every step may fail, and its
own commands part way through; `works` is the set of steps whose commands succeed. The
upgrade restores the compose file and never the environment file. Started with the firewall
off, hardening has no state in any run in which an active firewall does not allow the SSH
port; its rollback does nothing when the backup directory cannot be read, and brings back the
original `sshd_config` if and only if no backup has a name that sorts after this run's, or the
one with the last name has the same content. A file kept as `sshd_config.orig` sorts after
every time. A successful run lists the emergency script as failed and again as completed when
it cannot be written. The health check's waits are the first ones of their schedule; with the
default minute at most five of them fit, and the remaining retries follow each other without a
pause.

Strings are sequences of characters (code points). `Text` holds what is used of Go's
`strings`, `bufio` and `strconv`.

## Model

| member | source | states |
|---|---|---|
| UfwLine.MatchLineOf | internal/openport/allowlist.go:32-34 | every line the regular expression describes is matched, whichever way it is cut, with the same number, port, protocol, family and (up to spaces) source |
| UfwLine.MatchLineCut | internal/openport/allowlist.go:32-34 | every matched line can be cut as the expression says, with the captured parts |
| Allowlist.ParseLineMeaning | internal/openport/allowlist.go:43-62 | a line is read as a rule if and only if the expression describes it and its port fits an int; the rule has the described parts and the normalised source |
| Allowlist.ParseAllUFWAllowRules | internal/openport/allowlist.go:39-64 | the rules of all lines that are rules, in order, up to a line the scanner gives up at |
| Allowlist.ParseUFWRulesForPort | internal/openport/allowlist.go:68-96 | for any text, reading one port is reading everything and keeping that port and protocol |
| Allowlist.CollectDesired | internal/openport/allowlist.go:137-146 | a source is wanted if and only if it is not empty and some entry trims to it, or it is 0.0.0.0/0 and every entry is blank |
| Allowlist.WantedIs | internal/openport/allowlist.go:137-146 | the same for the set all the properties of a run are about |
| Allowlist.DiffAllowlist | internal/openport/allowlist.go:135-165 | deletes, in descending order, every rule that is not the first of a wanted source; adds, in alphabetical order and once each, the wanted sources that have no rule, whatever order the map is walked in |
| Allowlist.SortDescendingSorts | internal/openport/allowlist.go:156 | the planned numbers are sorted downwards and none is lost or doubled |
| Allowlist.SortStringsSorts | internal/openport/allowlist.go:163 | the planned additions are sorted and none is lost or doubled |
| Renumbering.DeleteNext | internal/openport/openport.go:128-130 | deleting an entry that comes before all those already gone hits the entry that had the number at the start |
| Renumbering.PlanIsDescending | internal/openport/allowlist.go:132-134 | a sorted plan is strictly descending and within the list, for any set of flagged entries |
| Renumbering.DeletePlanned | internal/openport/openport.go:128-136 | after any first part of a plan, the next number deletes the entry it was planned for |
| Renumbering.WithoutPlan | internal/openport/openport.go:128-136 | the whole plan leaves exactly the entries that were not flagged, in order |
| Renumbering.WithoutKeeps | internal/openport/openport.go:128-136 | however few of the deletes were done, the entries outside the plan are all there, in order |
| Ufw.ReadAllowLine | internal/openport/allowlist.go:24-34 | a rule printed in UFW's padded columns is read back with its number, port, protocol, family and source |
| Ufw.ReadOtherLine | internal/openport/allowlist.go:45-48 | any other entry that holds a number is skipped |
| Ufw.StatusRoundTrip | internal/openport/allowlist.go:39-64 | the agent reads from a whole status text, its lines short enough for the scanner, every parsable rule, in order, with the number `ufw delete` expects; from an inactive firewall nothing |
| Firewalls.SourceRoundTrip | internal/openport/allowlist.go:98-120 | an address in CIDR form that UFW stored and printed in its own way is normalised to the same text |
| Firewalls.FormatAddRuleMeaning | internal/openport/allowlist.go:167-179 | as a UFW command, a blanket source opens the port to everyone and any other source to itself; an unknown protocol is refused |
| Firewalls.Firewall.StatusNumbered | internal/openport/openport.go:110-116 | prints the list, unless the command fails |
| Firewalls.Firewall.Delete | internal/openport/openport.go:128-130 | the entry at the number goes and later ones move up; a failed delete changes nothing or has had just this effect |
| Firewalls.Firewall.Allow | internal/openport/openport.go:137-140 | adds what the command says unless it is there already, for everyone in every family UFW handles; a failed one may have added nothing, the IPv4 half or all of it; an IPv6 address is refused where IPv6 is off |
| Firewalls.Firewall.DeleteAll | internal/openport/openport.go:128-136 | whenever it stops, exactly a first part of the plan is gone, by the numbers of the start |
| PortRules.KeepFirsts | internal/openport/allowlist.go:148-155 | without the planned entries the port has the first rule of each wanted source, and every other entry is untouched |
| PortRules.ListedSources | internal/openport/openport.go:110-116 | what is listed for a port are its sources, in order |
| PortRules.PlannedDeletes | internal/openport/allowlist.go:148-156 | the numbers planned from the printed list are the positions of the obsolete entries in the firewall |
| PortRules.SomeDeleted | internal/openport/openport.go:128-136 | after any part of the deletes, other ports are untouched and every wanted source is still there |
| PortRules.AllDeleted | internal/openport/openport.go:128-136 | after all of them, the port has its wanted sources once each |
| PortRules.AddedSource | internal/openport/openport.go:137-140 | a rule added for a source, wherever UFW puts it, adds that source to the port and nothing else |
| PortRules.AllowStep | internal/openport/openport.go:137-147 | one command line adds the image of its entry to the port's sources, each once, and leaves other ports alone |
| Openport.ListRulesForPort | internal/openport/openport.go:110-116 | the rules of the port as the firewall has them |
| Openport.DeleteObsolete | internal/openport/openport.go:128-136 | completed, the port has its wanted sources once each; stopped, nothing wanted is lost |
| Openport.AddMissing | internal/openport/openport.go:137-147 | completed, the port gains exactly the images of the entries; stopped, nothing is lost |
| Openport.Summarize | internal/openport/openport.go:155-163 | each source once, in the order seen |
| Openport.ReadBack | internal/openport/openport.go:149-163 | reports the sources in place |
| Openport.Reconcile | internal/openport/openport.go:121-164 | in whatever way a run ends, other ports, other protocols and unparsable rules are as before and no wanted source is lost; a successful one leaves the sources of NextSources once each and reports them, and they are the wanted ones if and only if Settled and BlanketWanted; every source it leaves is an entry of the list or what UFW makes of one, and every entry is in place, unless all are blank: then the port is open to everyone; a firewall whose commands do not fail, and that takes the entries, gives success |
| Openport.NextComeFrom | internal/openport/openport.go:121-164 | what a run is meant to leave, entry by entry: nothing comes from anywhere but the list or UFW's image of it, the blanket source only where it is an entry or there is none |
| Openport.OpenPort | internal/openport/openport.go:34-57 | the same outcome, and the same left alone in whatever way the run ends, for a port in range, where an empty protocol is tcp; a port out of range is refused untouched |
| Openport.ExactAfterOneRun | internal/openport/openport.go:118-120 | one successful run gives exactly the wanted sources if and only if UFW lists all missing entries as they are written and a missing blanket entry is wanted for every family UFW handles |
| Openport.ExactAfterTwoRuns | internal/openport/openport.go:118-120 | two runs do if UFW lists all missing entries as they are written; otherwise no number of runs does |
| Openport.ExactStays | internal/openport/openport.go:121-164 | once exact, further runs change nothing |
| Openport.NeverSettles | internal/openport/allowlist.go:137-143 | an entry UFW does not list as it is written is missing after every run |
| Openport.BareAddressNeverSettles | internal/openport/allowlist.go:137-143 | an address without a prefix length is such an entry: every run adds it again, its stored form is there after every run, and the next one deletes that unless it is wanted too |
| Openport.SecondBlanketRunDropsIPv6 | internal/openport/allowlist.go:125-126 | asked for 0.0.0.0/0 on a dual-stack host, the first run leaves two rules and the second removes the IPv6 one |
| Openport.NothingPlanned | internal/openport/allowlist.go:135-165 | a pass plans nothing if and only if the port has the wanted sources once each |
| Openport.ReportChange | internal/openport/openport.go:84-95 | the removed sources are those the planned numbers had |
| Openport.KeptAndRemoved | internal/openport/openport.go:86-94 | the sources before are those kept and those removed, counting repetitions |
| Openport.TrueDelta | internal/openport/openport.go:86-96 | before minus removed plus added is the wanted set, counting repetitions |
| Openport.SameBag | internal/openport/openport.go:150-163 | for sources listed once, equal as sets is equal counting repetitions |
| Openport.UpdateAllowlist | internal/openport/openport.go:61-101 | after success the reported change is the true difference between before and after if and only if one run is exact; the reported sources are those in place, once each; in whatever way it ends, other rules are as before and no wanted source is lost |
| Teardown.PlanIsPicked | internal/resetvm/resetvm.go:240-256 | the numbers picked from the printed list are the positions of the picked rules |
| Teardown.DeletePicked | internal/resetvm/resetvm.go:223-233 | completed, exactly the other entries are left, in order; stopped, they are all still there |
| Teardown.PlanUFWReset | internal/resetvm/resetvm.go:237-256 | the numbers of the rules for ports that are not allowed, in descending order |
| Teardown.ResetUFW | internal/resetvm/resetvm.go:204-235 | success on an active firewall leaves exactly the rules that are unparsable or for one of the ports, in order, and reports the numbers of the others from the highest down; stopped early it has removed none of the former |
| Teardown.ResetAgainPlansNothing | internal/resetvm/resetvm.go:214-217 | a firewall with the baseline only needs no reset |
| Teardown.CloseFirewallPort | internal/destroy/destroy.go:216-262 | success on an active firewall removes every tcp rule of the port and nothing else; stopped early nothing else is touched; port 0 is skipped |
| Teardown.CloseThenReset | internal/destroy/destroy.go:216-219 | closing a port and resetting to ports without it can be done in either order and the reset alone is enough |
| Resets.FirstFailedOfMore | internal/resetvm/resetvm.go:128-137 | a later failure does not replace an earlier one |
| Resets.Record | internal/resetvm/resetvm.go:128-137 | after every step the result names the first failed step, and success means none failed |
| Resets.Reset | internal/resetvm/resetvm.go:39-126 | all four steps are taken whatever fails; the firewall is reset even if purging or pruning failed; rules that are unparsable or for one of the ports (22, 80 and 443 if none are given) all stay, after success they are the only ones, and the reported numbers are those of the rest |
| ComposeRewrite.ScanLine | internal/upgrade/upgrade.go:414-434 | one turn of the loop replaces the line exactly when it is an image line inside the service, and goes on inside or outside as the line's kind says |
| ComposeRewrite.ReplaceImageVersion | internal/upgrade/upgrade.go:408-437 | the text with exactly the touched lines replaced |
| ComposeRewrite.RewriteAppend | internal/upgrade/upgrade.go:412-434 | a file is scanned part by part, each from the state the part before it left |
| ComposeRewrite.KeyLine | internal/upgrade/upgrade.go:422-424 | a replaced line is an image line with the same indentation and no service's header |
| ComposeRewrite.LineCountKept | internal/upgrade/upgrade.go:411-436 | for an image without newline the text keeps its number of lines |
| ComposeRewrite.RewriteIdempotent | internal/upgrade/upgrade.go:408-437 | rewriting again with the same image changes nothing, for a service not called "image" |
| ComposeRewrite.SameTouched | internal/upgrade/upgrade.go:400-402 | rewriting one service does not change which lines another one's rewrite touches, when no header is an image line |
| ComposeRewrite.RewritesCommute | internal/upgrade/upgrade.go:400-402 | two rewrites can be done in either order if and only if they touch different lines or write the same image |
| ComposeDoc.RewriteIsRewriteDoc | internal/upgrade/upgrade.go:408-437 | what the scanner does to any document of the layout, services in any order and with or without an image line |
| ComposeDoc.ScannerIsStructuredUpdate | internal/upgrade/upgrade.go:408-437 | the scanner changes exactly the named service's image if and only if no other service has a line like its key above its own image line (or that image is the new one already) |
| ComposeDoc.TextIsStructuredUpdate | internal/upgrade/upgrade.go:408-437 | both for the text of the file: what the scanner writes, and that it is the structured update if and only if no other service misleads it |
| ComposeDoc.NestedKeyMisleads | internal/upgrade/upgrade.go:416 | a deeper key with the service's name makes the scanner change another service |
| ComposeDoc.DependsOnMisleads | internal/upgrade/upgrade.go:416 | for instance kong depending on postgres gets the postgres image |
| Versions.UpdateDockerCompose | internal/upgrade/upgrade.go:396-405 | the three rewrites one after the other |
| Versions.ThreeScans | internal/upgrade/upgrade.go:396-402 | the text the three scans leave: each image line has the image of the last scan that reaches it |
| Versions.UpgradeIsStructured | internal/upgrade/upgrade.go:396-402 | together they change the images of postgres, kong and studio and nothing else if and only if the last scan to reach each image line is its service's own, or writes what should be there anyway |
| Versions.DependentServiceLosesItsImage | internal/upgrade/upgrade.go:400-402 | a service of another name that depends on postgres does not keep its image |
| Versions.GetCurrentVersion | internal/upgrade/upgrade.go:466-489 | a version of the first marked line that names one, in whatever order the registry is walked; none if there is none |
| Versions.TextReadBack | internal/upgrade/upgrade.go:466-489 | for any text at all, the possible answers after an update are the versions named by the first line that names any: v where only the postgres scan writes, none where another one does, and what was named before elsewhere |
| Versions.TouchedAsBefore | internal/upgrade/upgrade.go:400-402 | which lines the scans write can be told from the text as it was, when no key line of kong or studio is an image line as well |
| Versions.VersionReadBack | internal/upgrade/upgrade.go:466-489 | for any file of the layout, the possible answers after an update are the versions named by the first service that names any |
| Versions.VersionRoundTrip | internal/upgrade/upgrade.go:466-489 | in a file with no postgres image outside the scans' reach, the version read after an update is the one written if and only if the postgres scan is the last to reach some image line, and unknown otherwise, in whatever order the registry is walked |
| Versions.DependentPostgresIsUnknown | internal/upgrade/upgrade.go:400-402 | when postgres depends on kong, the version is unknown after an update |
| Versions.RegistryIsDistinguishable | internal/upgrade/upgrade.go:18-30 | the shipped registry is one where no entry's image is contained in a line of another |
| Upgrades.Instance.CopyToBackup | internal/upgrade/upgrade.go:126-137 | a successful copy leaves the compose file in the backup |
| Upgrades.Instance.RollbackUpgrade | internal/upgrade/upgrade.go:448-463 | with working copies the compose file is the backup again |
| Upgrades.Instance.ApplyConfiguration | internal/upgrade/upgrade.go:139-208 | success leaves the new files; on failure with rollback the compose file is what it was, as long as copying works |
| Upgrades.Instance.Checked | internal/upgrade/upgrade.go:210-272 | a failed restart or health check is rolled back exactly under the flag |
| Upgrades.Instance.Switch | internal/upgrade/upgrade.go:139-288 | the steps from the update on, for every set of steps that can succeed |
| Upgrades.Instance.Upgrade | internal/upgrade/upgrade.go:34-288 | an upgrade succeeds if and only if both versions are known, the target is later than the current one, and all its steps work; it stops at the validation exactly when one of the first three does not hold; the steps taken are the planned ones up to the first that cannot succeed; until success the backup is the original compose file; with rollback on failure so is the compose file after any failure; RollbackApplied is set exactly after a failed restart or health check under the flag; success leaves the content given, or the old file updated to the target's images; the environment file is never restored |
| Upgrades.UpgradeIsReadBack | internal/upgrade/upgrade.go:466-489 | after a successful upgrade from the shipped registry the target version is the one read if and only if the postgres scan is the last to reach some image line; otherwise none is |
| EnvFile.ParseLines | internal/rotatecreds/rotatecreds.go:96-112 | the map of the file's entries, nothing for a file with a line too long for the scanner |
| EnvFile.ParseEntryMeaning | internal/rotatecreds/rotatecreds.go:98-109 | a line sets a key if and only if it is, trimmed, the key, "=" and the value, where the key has no "=" and starts no comment |
| EnvFile.LastWins | internal/rotatecreds/rotatecreds.go:107 | of several lines with one key the last one counts |
| EnvFile.OtherKeysKept | internal/rotatecreds/rotatecreds.go:115-146 | every key of another kind keeps the value it had |
| EnvFile.PrintEnv | internal/rotatecreds/rotatecreds.go:149-172 | every key once, the well-known ones first, the rest in whatever order the map is walked; the text is read back as the same map if and only if its entries are clean |
| EnvFile.WrittenOnce | internal/rotatecreds/rotatecreds.go:159-172 | no two lines of a written file set the same key |
| EnvFile.ReadClean | internal/rotatecreds/rotatecreds.go:97-109 | whatever the file, the entries read from it are such as survive being written |
| EnvFile.RoundTrip | internal/rotatecreds/rotatecreds.go:97-172 | a map is read back as it was written, in any order of its keys, if and only if its entries are clean |
| EnvFile.RotationRoundTrip | internal/rotatecreds/rotatecreds.go:96-177 | for any file, the rotated file says exactly the updated map if and only if the new values have no newline, no space at the end and fit a line |
| EnvFile.File.Write | internal/rotatecreds/rotatecreds.go:175-177 | a successful write leaves the text, a failed one anything |
| EnvFile.UpdateEnvFile | internal/rotatecreds/rotatecreds.go:87-180 | succeeds if and only if the file can be read and written and the kind is one of the four; then each of the four keys has the field given for it if the kind covers it and the field is not empty, and every other key is as before; the text is read back as just that if and only if the entries are clean; an unknown kind or unreadable file changes nothing |
| DaemonSteps.InvStep | internal/daemon/daemon.go:260-398 | every step keeps: at most 64 queued, dequeued plus queued is enqueued in order, each request in one place, responses only to requests with their id, and who can have ended how |
| DaemonSteps.InvRun | internal/daemon/daemon.go:131-171 | so does every run, over any interleaving, failures and reconnects |
| DaemonSteps.Whereabouts | internal/daemon/daemon.go:299-373 | in every reachable state each accepted request is in exactly one place: running, dropped, queued, being written, written or lost in a failed write |
| DaemonSteps.AnsweredOnce | internal/daemon/daemon.go:299-305 | no request is answered twice, and an answered one is neither running nor dropped; nothing answers a notification |
| DaemonSteps.RepliesReport | internal/daemon/daemon.go:310-329 | over every run, each response enqueued reports how the handler of its request ended: a result only from a handler that returned that result, and the error code of the case otherwise |
| DaemonSteps.WaitReturnsError | internal/daemon/daemon.go:154-170 | when Wait returns, all four members have ended, the connection is closed and the result is an error, also after a clean close |
| DaemonSteps.EveryResultIsAnError | internal/daemon/daemon.go:111-116 | so the reset of the wait is never reached |
| DaemonSteps.CancelledWhen | internal/daemon/daemon.go:154-168 | in every reachable state the group is cancelled if and only if the daemon is shut down, the reader ended with an error or the writer ended |
| DaemonSteps.CleanCloseWaitsForAWrite | internal/daemon/daemon.go:159-168 | after a clean close by the peer the group is cancelled if and only if a write has failed or the daemon is shut down |
| DaemonSteps.CanAlwaysEnd | internal/daemon/daemon.go:154-170 | a cancelled connection ends by at most five steps that need nothing from the network: reads and writes fail only once the fourth member has closed it |
| DaemonSteps.EveryCancelledConnectionEnds | internal/daemon/daemon.go:154-170 | so it does from every reachable state of a cancelled connection, whatever its members are blocked in |
| DaemonSteps.OnlyTheClosingUnblocks | internal/daemon/daemon.go:159-168 | without the closing no such steps unblock a reader or reach the return of Wait |
| DaemonSteps.CancelledRunsAreShort | internal/daemon/daemon.go:361-381 | no interleaving can keep a cancelled connection going, apart from ticks of the heartbeat |
| DaemonSteps.Daemon.constructor | internal/daemon/daemon.go:84-99 | starts with an empty queue |
| DaemonSteps.Daemon.Send | internal/daemon/daemon.go:354-358 | enqueues at the end, or drops when 64 are waiting |
| DaemonSteps.Daemon.SendResponse | internal/daemon/daemon.go:342-359 | the same for a response |
| DaemonSteps.Daemon.HandleRequest | internal/daemon/daemon.go:310-329 | with room in the queue, one response with the request's id at its end: a result, and the handler's, if and only if there is a handler and it returned one; otherwise the error -32601 without a handler, -32000 with the handler's message, or -32603; without room the queue is as before |
| DaemonSteps.Daemon.HandleFrame | internal/daemon/daemon.go:286-306 | exactly frames with a name and an id start a handler that answers, frames with a name alone one that does not |
| DaemonSteps.Daemon.HeartbeatTick | internal/daemon/daemon.go:382-398 | a heartbeat is offered to the queue and is no response |
| DaemonSteps.Daemon.WriteOne | internal/daemon/daemon.go:366-370 | takes the oldest message and leaves the others in order; it is written or lost |
| Reconnect.Run | internal/daemon/daemon.go:109-129 | an error after an error is followed by twice the seconds before, at most 60, and any other by one second: min(2^(n-1), 60) after the n-th in a row; only a nil result starts over |
| Reconnect.BackoffNeverResets | internal/daemon/daemon.go:111-126 | in every run of the daemon the wait counts all connections since the start, and from the seventh on it is a minute |
| Tokens.RotationSafe | internal/daemon/daemon.go:173-185 | every point of every rotation with its exact condition: the emptied file is safe if and only if the bootstrap file holds the token in use or the new one, the torn one if and only if only spaces are missing or the part that is there is the token in use |
| Tokens.SomeTornPointUnsafe | internal/daemon/daemon.go:250 | for a token without spaces, every torn point is safe if and only if it has one character, or two of which the first is the token in use |
| Tokens.FirstRotationSafe | internal/daemon/daemon.go:249-258 | the first rotation is safe at every point but the torn ones that break the token, although the bootstrap file is still there |
| Tokens.TokenLost | internal/daemon/daemon.go:173-185 | over any number of rotations, stopped at any point, no token is left if and only if one was completed and the last that began has left nothing in its file |
| Tokens.TokenAfter | internal/daemon/daemon.go:173-185 | over any number of rotations, the token read is what the last one that began has left, or the bootstrap token if it left nothing and none was completed |
| Tokens.Store.WriteSession | internal/daemon/daemon.go:250 | the file is emptied, then filled; a failed write stops part way |
| Tokens.Store.RotateToken | internal/daemon/daemon.go:249-258 | all states on the way are points of the rotation, each safe if and only if its condition holds, and the bootstrap file goes only after the whole new token is written |
| Harden.FormatOrder | internal/harden/harden.go:249 | names in string order are times in order |
| Harden.LatestBackup | internal/harden/harden.go:697-704 | the last name with the prefix |
| Harden.LatestIsLatest | internal/harden/harden.go:697-704 | it is the backup of the latest time |
| Harden.LatestFile | internal/harden/harden.go:697-704 | in a sorted listing the last name is the newest backup, and there is only one |
| Harden.OlderStaysNewest | internal/harden/harden.go:697-704 | otherwise the one picked is the newest that was there before |
| Harden.NameOrder | internal/harden/harden.go:249 | for backups named by a time, not after in name is not later in time |
| Harden.WordIsAfter | internal/harden/harden.go:700 | a file kept under a word, such as sshd_config.orig, sorts after every time |
| Harden.BackupComesBack | internal/harden/harden.go:706-710 | a rollback brings back the file of before if and only if that holds, or the file of the last name is the same |
| Harden.Machine.constructor | internal/harden/harden.go:38-42 | starting with the firewall off, every state so far is reachable by SSH |
| Harden.Machine.Enable | internal/harden/harden.go:512-515 | can be called only when the SSH port is allowed |
| Harden.Machine.Allow | internal/harden/harden.go:495-502 | adds a port; a failed command may have added it |
| Harden.Machine.CreateBackups | internal/harden/harden.go:248-267 | only the backups change, and of them only the two of the present time; success leaves there a copy of each of the two files that is there |
| Harden.Machine.ConfigureSSH | internal/harden/harden.go:363-403 | only the drop-in file changes, and success leaves it |
| Harden.Machine.ConfigureFirewall | internal/harden/harden.go:484-534 | wherever it stops, an active firewall has the SSH port; success leaves it active, with ports 80 and 443 wherever the command for it worked; no other port is opened |
| Harden.Machine.RestoreConfig | internal/harden/harden.go:697-710 | with a working copy sshd_config is the newest backup, or as it was without one |
| Harden.Machine.Rollback | internal/harden/harden.go:686-749 | restores the newest backup, removes the drop-in file and switches the firewall off, or does nothing at all when the directory cannot be read; allowed ports and backups stay |
| Harden.Machine.Secure | internal/harden/harden.go:86-134 | the first of SSH, restart and firewall that cannot succeed; what the firewall step leaves |
| Harden.Machine.Harden | internal/harden/harden.go:38-186 | in every state of every run an active firewall allows the SSH port; the first planned step that cannot succeed is the failed one and decides the run: those before it are recorded as completed and it as failed, and without one everything is completed, a script that cannot be written being recorded as failed and again as completed; the rollback ran exactly after an SSH, restart or firewall failure; after one that worked the original file is back if and only if no backup's name sorts after this run's or the last one has the same content; an unreadable directory undoes nothing; only the SSH port, 80 and 443 are ever added to the allowed ones |
| Harden.Extras | internal/harden/harden.go:136-186 | the later steps never roll back, and the emergency script cannot fail the run, but is recorded twice when it cannot be written |
| Harden.RecordedOnce | internal/harden/harden.go:168-181 | a successful run has recorded each planned step once and completed if and only if the script could be written |
| Harden.ScriptTwice | internal/harden/harden.go:170-181 | a successful run without failed step that lists a failed script |
| Health.ShiftIsPower | internal/health/health.go:94-97 | the shifted and capped wait is min(2^(n-1), 30) seconds |
| Health.AtMostFiveWaits | internal/health/health.go:49-62 | with exponential waits and a minute in all, at most five waits are made however many retries are configured |
| Health.Monitor.Sleep | internal/health/health.go:102 | lasts at least as long as asked for |
| Health.Monitor.Pause | internal/health/health.go:92-103 | no wait after the last attempt and none past the deadline; once one is left out, all later ones are |
| Health.Monitor.CheckContainerStates | internal/health/health.go:166-211 | one probe of each container, in order, by its tenant's name, with the prefix realtime needs |
| Health.Monitor.RunHealthChecks | internal/health/health.go:117-160 | the containers of the configured services are the ones probed, PostgreSQL, Kong and Studio if none are configured; a round is healthy if and only if all its probes but the last, the Studio page, are |
| Health.Monitor.CheckAll | internal/health/health.go:70-114 | no error if and only if the returned round is healthy; it is the last one and all before it were unhealthy; at most MaxRetries + 1 rounds; the waits double from one second up to 30, or are the configured one, none is left out, and together they are shorter than the timeout; an error means the retries or the time ran out |
| Kong.Next | internal/files/files.go:719-727 | one turn prints the text before the next variable and the variable's value, or the variable if it has none, and goes on behind it; it is the last exactly when there is no variable |
| Kong.Substitute | internal/files/files.go:716-729 | a line without variables is printed as it is; in any other the text before the first variable stays, the variable becomes its value, or stays if it is not set, and the rest is printed in the same way |
| Kong.VariableReplaced | internal/files/files.go:719-727 | the same as an equation: the variable by its value, then what the rest is printed as |
| Kong.FindIs | internal/files/files.go:719 | the match is the leftmost variable with the longest name |
| Kong.TokeniseIsPieces | internal/files/files.go:719-727 | every line has pieces and nothing of it is lost in them |
| Kong.TokeniseOfLine | internal/files/files.go:719-727 | there is one way only to cut a line into text and variables |
| Kong.SubstituteMeaning | internal/files/files.go:716-729 | however a line is cut, its first piece is printed as it is if it is text or a variable that is not set, and as its value otherwise, and the others in the same way; inserted values are not looked at again |
| Kong.LineByLine | internal/files/files.go:716-729 | working line by line prints what working on the whole file would |
| Kong.SelfReferences | internal/files/files.go:720-725 | an environment that maps each name to its own reference changes nothing |
| Selfupgrade.Machine.Download | internal/selfupgrade/selfupgrade.go:143-176 | succeeds if and only if the whole body came, is not empty and has the wanted digest, and never touches the binary |
| Selfupgrade.Machine.Run | internal/selfupgrade/selfupgrade.go:73-139 | in every state the binary is the old one or a verified new one, and no restart comes before the swap; success if and only if the URL is http or https, nothing failed, the whole body came with status 200 and is not empty, and the wanted digest, if any, is that of the body up to the case of letters, with one restart; after a failure the old binary runs on |

## Left out

- Firewalls.Firewall.Allow: UFW's position of a new rule and its normal form of an address are parameters, restricted only by what the agent relies on; no address is longer than 64 characters.
- Firewalls.Firewall.Delete: nobody else edits the firewall between reading the list and deleting.
- Ufw.StatusRoundTrip: about status texts whose lines fit the scanner's buffer; at a longer one the reading stops, as in Allowlist.ParseAllUFWAllowRules.
- EnvFile.ParseLines: the length of a line is in characters, not bytes.
- Rules with a comment, an application profile or no protocol are entries that hold a number; the first kind is read by the agent with the comment as part of the source, which the model allows as an arbitrary source text.
- Upgrades.Instance.Upgrade: checks of disk space, of the instance's health and of containers are outcomes; times and messages of steps are not modelled.
- DaemonSteps.InvRun: the table of the agent's own pending requests, which nothing fills, and a response that cannot be marshalled are not modelled; dialling and the handshake are one step that succeeds or fails.
- Tokens.Store.RotateToken: what a file system keeps of a write after a power failure; a write is emptied, torn or complete.
- Harden.Machine.Harden: users, sshd's own restart and socket activation, fail2ban and automatic updates are outcomes only; the rollback does not restore authorized_keys and does not remove allowed ports.
- Health.Monitor.RunHealthChecks: how containers, PostgreSQL, Kong and Studio are probed.
- Selfupgrade.Machine.Run: the arch token in the URL, HTTP, and SHA-256, which is any function from bodies to digests.
- Kong.Substitute: that awk ends the last line with a newline, and the sed command after it.
- Resets.Reset: what purging instances, pruning Docker and removing files do.
- Command line, configuration files, RPC parameters, backup, restore, verify, deploy, TLS, nginx, diagnose, metrics and cleanup: linear scripts and formatting.
- Parsing of memory and network sizes (`internal/health/enhanced_health.go`): floating point with inconsistent units.
