# minedo in Dafny

minedo keeps one DigitalOcean droplet either running or parked as a
snapshot, with a DNS "A" record that follows it.

- `up` creates the droplet from the snapshot and joins it to a project. It
  points the host's "A" record at the droplet, then deletes the snapshot.
- `down` shuts the droplet off and snapshots it, then deletes the droplet
  and its host record.
- A Telegram bot (bot.go) runs the two jobs on command. It runs one job at a
  time, and it calls the error-returning workflows of droplet.go.
- main.go holds the older command-line versions of `up` and `down`, where
  every failure ends the process.

The model has these modules:

- `Provider`: the DigitalOcean account as a class (`Account`).
  - It holds droplets, snapshots, projects and DNS records per domain, plus a
    `trace` of every call made against it, listings included.
  - Each trace entry records the call and how it ended: failed with a cause,
    done, or issued with the ID of the droplet or action it started.
  - Every call may fail. A failed call is a nondeterministic choice inside
    the method.
  - Each call states the whole new state of the account.
- `Lookup`:
  - `FirstNamed` is the reference definition of the three `find*` scans.
  - `Scan` is the scanning loop itself.
  - `FindRecordId` is the loop that `down` runs over the DNS records.
- `Dns`: the record name that `up` derives from the host, and the match
  that `down` uses. They are related by a round-trip lemma.
- `Strconv`: Go's `strconv.Atoi` on decimal text, and its round trip with a
  digit printer.
- `Failures`: each error that droplet.go returns, with its exact text, and
  `Blame`, the error for each failed provider call.
- `Lifecycle`: the configurations, and ghost predicates over the entries a
  run appends to the trace:
  - `UpCalls` gives the calls of `up` in order. Each call is issued exactly
    when the one before it succeeded and the guard checked in between holds.
    `UpVerdict` gives the error `up` returns for a run.
  - `DownCalls` does the same for `down`. `DownResult` gives the error of
    droplet.go's `down`, and `DownExit` gives the exit of main.go's.
  - `StopsAtFirstFailure` says that every call before the last succeeded.
    `StopsAtFirstFailureIgnoringWaits` says the same, except that a failed
    action wait does not stop the run.
- `Workflows` (droplet.go): the lookups, the waits, `Up` and `Down`.
  - A result of `None` is Go's `nil` error.
  - Each workflow is split into its guard listings (`CheckUp`, `CheckDown`),
    which change no holdings, and the steps with effects.
- `OneShot` (main.go):
  - The same workflows, where a `Some(f)` result means the process exits on
    `f`.
  - Its `down` differs from droplet.go's. A failed droplet listing is fatal,
    and so is a failed wait. So an ordinary end of `down` always means a full
    teardown.
- `Dispatcher` (bot.go):
  - `checkCmdValid` and Telegram's `Command()`.
  - The loop as the step function `Step`, folded over an event stream by
    `Run`, and as the imperative loop `Serve` that is proved equal to `Run`.
  - `RunAction`, which runs a job's workflow.
  - The invariant that the `isBusy` flag holds exactly when one job is in
    flight.

In three places the code does something one might not expect. The model
follows the code:

- While a job runs, `/ping` from the target chat gets "I'm busy", not
  "pong" (bot.go:83-86 come before bot.go:100-102).
- droplet.go's `down` ignores the results of its two waits
  (droplet.go:220, droplet.go:233).
- droplet.go's `down` returns `nil`, with no effects, when its first droplet
  listing fails (droplet.go:195-198).

## Model

| member | source | states |
|---|---|---|
| Provider.Account.ListDroplets | droplet.go:51 | the listing and its outcome are traced; a successful listing returns the account's droplets; nothing else changes |
| Provider.Account.ListSnapshots | droplet.go:69 | the listing and its outcome are traced; a successful listing returns the account's snapshots |
| Provider.Account.ListProjects | droplet.go:87 | the listing and its outcome are traced; a successful listing returns the account's projects |
| Provider.Account.ListRecords | droplet.go:265 | the listing and its outcome are traced; a successful listing means the domain exists and returns its records |
| Provider.Account.CreateDroplet | droplet.go:137-145 | Create is traced with the new droplet's ID on success; the new droplet, with the requested name and status "new", is appended to the droplets; nothing else changes |
| Provider.Account.AwaitDroplet | droplet.go:34-47 | WaitDroplet is traced with its outcome, which on success carries the droplet's public IPv4 address or the reason it has none; on success the returned droplet has the ID and the awaited status; the holdings are unchanged |
| Provider.Account.AssignResources | droplet.go:157 | Assign is traced with its outcome; the holdings are unchanged |
| Provider.Account.CreateRecord | droplet.go:170-175 | CreateRecord is traced with its outcome; on success the record with those fields is appended under the domain |
| Provider.Account.DeleteSnapshot | droplet.go:183 | DeleteSnapshot is traced with its outcome; on success the snapshots are `SnapshotsWithout` the ID (by `FilterExact`, exactly the others, in their order); on failure they are unchanged; nothing else changes |
| Provider.Account.Shutdown | droplet.go:215 | Shutdown is traced with the action's ID on success; the holdings are unchanged |
| Provider.Account.SnapshotDroplet | droplet.go:227 | SnapshotAction is traced with the action's ID on success; a failure adds no snapshot |
| Provider.Account.AwaitAction | droplet.go:18-31 | WaitAction is traced with its outcome; the holdings are unchanged |
| Provider.Account.DeleteDroplet | droplet.go:248 | DeleteDroplet is traced with its outcome; on success the droplets are `DropletsWithout` the ID; on failure they are unchanged; nothing else changes |
| Provider.Account.DeleteRecord | droplet.go:278 | DeleteRecord is traced with its outcome; on success the records are `RecordsWithout` that ID under the domain, other domains untouched; on failure they are unchanged; nothing else changes |
| Lookup.FirstNamedNone | droplet.go:57-63 | the scan finds nothing exactly when no element has the name |
| Lookup.FirstNamedIsFirst | droplet.go:57-63 | the scan's result is the element at the first index holding the name |
| Lookup.FirstNamedFound | droplet.go:57-63 | a found element is in the list and carries the queried name |
| Lookup.Scan | droplet.go:57-63 | the `target` loop with `break` returns exactly `FirstNamed` |
| Lookup.FindRecordId | droplet.go:264-275 | `recID` starts at -1 and ends as the ID of the first record whose name plus "." plus the domain is the host, or -1 when none matches |
| Lookup.MatchingRecordName | droplet.go:271 | a record that `down` matches is named `TrimSuffix(host, "."+domain)` |
| Dns.TrimSuffix | droplet.go:172 | with the suffix, the result plus the suffix is the input; without it, the input is returned unchanged |
| Dns.RoundTrip | droplet.go:172 | the name `up` creates is matched by `down` exactly when the host ends with "." plus the domain |
| Dns.MatchedNameIsRecordName | droplet.go:271 | any name that `down` matches is the name that `up` would create |
| Strconv.Atoi | droplet.go:131-134 | parsing succeeds exactly on an optional sign followed by one or more decimal digits |
| Strconv.AtoiOfDigits | droplet.go:131-144 | an all-digit, non-empty ID parses to its decimal value, which becomes the image of the Create call |
| Strconv.ItoaValue | droplet.go:131 | the printed digits of n have decimal value n |
| Strconv.AtoiItoa | droplet.go:131 | every natural number's decimal text parses back to it |
| Failures.Text | droplet.go:18-288 | the error text of each failure; none of them is the success reply "Done!" |
| Lifecycle.TeardownStops | droplet.go:248-287 | the last part of `down` issues each call only after the previous one succeeded |
| Lifecycle.CompletedDown | droplet.go:235-260 | a run of `down`'s steps that made all its calls leaves the snapshot listed and no droplet of the configured name: each part went on only past the listing that showed it |
| Lifecycle.DownResultIsExit | droplet.go:194-288 | on a run where no call but the last failed and the first listing did not fail, droplet.go's result and main.go's exit (main.go:201-281) agree |
| Workflows.FindDroplet | droplet.go:50-66 | one traced droplet listing; the first listed droplet with the name, none if no droplet has it, or the listing error with the listing's cause; main.go:73-89 is the same scan, with the listing error fatal |
| Workflows.FindSnapshot | droplet.go:68-84 | one traced snapshot listing; the first listed snapshot with the name, none if no snapshot has it, or the listing error; main.go:91-107 is the same scan, with the listing error fatal |
| Workflows.FindProject | droplet.go:86-102 | one traced project listing; the first listed project with the name, none if no project has it, or the listing error; main.go:109-125 is the same scan, with the listing error fatal |
| Workflows.WaitFor | droplet.go:18-32 | one WaitAction call on the given droplet and action; a fetch error becomes the "failed to run action" failure with its cause; the holdings are unchanged |
| Workflows.WaitForDroplet | droplet.go:34-48 | one WaitDroplet call, traced with the droplet's address or the reason it has none; on success the droplet has the ID and the status; a fetch error becomes the "failed to get droplet" failure |
| Workflows.CheckUp | droplet.go:107-134 | lists snapshots, projects, droplets, each only after the previous listing succeeded and found its target; success exactly when all three listings succeeded and every guard holds; otherwise the failed listing's error or the error of the guard that failed at that point (snapshot missing, project missing, droplet exists, bad snapshot ID) |
| Workflows.Launch | droplet.go:137-153 | Create from the image, then a wait for that very droplet to be "active" exactly when the create succeeded; on success the wait's entry carries the returned droplet's address; the new droplet is appended with the configured name and the created ID |
| Workflows.Publish | droplet.go:170-187 | the "A" record (TTL 3600, name from `TrimSuffix`, data the given IP) is created, then the snapshot deleted exactly when the record succeeded; the first failure is the error; the records change only by that record appended under the domain, and the snapshots only by losing those with the snapshot's ID |
| Workflows.RunUp | droplet.go:136-191 | the calls of `UpEffects`: Create, wait for that droplet, Assign that droplet to the project, CreateRecord "A" with the awaited droplet's IPv4 address, DeleteSnapshot; the record is created exactly when the Assign succeeded and the droplet has an address; nil exactly when all five succeeded; a failed call's own error; otherwise `NoPublicIPv4` with the reason the awaited droplet has no address; by `UpState`, the new droplet is listed once the create succeeded, the record is appended under the domain by the fourth call and no other record changes, and the snapshots lose exactly the snapshot's ID only after the fifth succeeded |
| Workflows.UpPastGuards | droplet.go:136-191 | once the three guard listings passed, the calls, verdict and `UpState` of the whole run of `up`, guard listings included; the projects are unchanged |
| Workflows.Up | droplet.go:106-192 | the calls of `UpCalls`, stopping at the first failure; the result of `UpVerdict`: nil exactly when all eight calls ran and succeeded, the failed call's error, the error of the guard that failed after the listing that showed it, or, after a successful Assign, `NoPublicIPv4` with the reason the awaited droplet has no address; by `UpState` at the fourth call, nothing changes before the create, the new droplet is listed once created, the record carrying the awaited address is the only record change, and the snapshot is deleted only after the record was added |
| Workflows.CheckDown | droplet.go:195-209 | lists droplets, then snapshots only when the droplet was found; success exactly when both listings succeeded and both guards hold; otherwise the failed listing's error, "droplet missing" after the first or "snapshot exists" after the second |
| Workflows.GuardFailureResult | droplet.go:195-209 | when a guard stops `down`, the guard listings are the whole run; a failed first listing gives nil (droplet.go:196-197) and every other guard failure its error; main.go:202-210 exits on every one of them |
| Workflows.RemoveHostRecord | droplet.go:264-287 | lists the domain's records, then deletes exactly the record `FindRecordId` finds, when the listing succeeded and there is one; nil exactly when the last call succeeded; the records are unchanged unless that delete succeeded, and then they are `RecordsWithout` that ID under the domain |
| Workflows.RetireDroplet | droplet.go:248-260 | DeleteDroplet, then a droplet listing exactly when it succeeded; nil exactly when the listing succeeded and no droplet has the name; "droplet still exists" after a listing that shows one; a failed call's own error; the droplets are unchanged after a failed delete and `DropletsWithout` the droplet's ID after a successful one |
| Workflows.Teardown | droplet.go:246-287 | DeleteDroplet, a droplet listing, then the record cleanup only when the droplet is gone; nil exactly when every call ran and succeeded; "droplet still exists" after a successful listing that still shows it; the droplets lose exactly the droplet's ID when its delete succeeded, and the records exactly the `RecordToDelete` ID when the record delete succeeded, and otherwise stay unchanged |
| Workflows.TeardownAfterSnapshot | droplet.go:246-287 | after snapshot steps that ended with the snapshot listed, the teardown's calls complete `DownSteps` for the whole run, with its result, under either stop rule the snapshot steps kept, and `DownState` for the whole run |
| Workflows.SnapshotDown | droplet.go:211-242 | Shutdown and its wait only when the status is not "off"; the snapshot action and a wait for that action; the snapshot listing; failed waits do not stop the run and the run never ends on one; nil exactly when the listing succeeded and shows the snapshot; by `SnapshotFrame`, the snapshots change only after a successful snapshot action, and then only by one snapshot of the target name appended |
| Workflows.StopDroplet | droplet.go:213-221 | no call when the status is "off"; otherwise Shutdown, then a wait for that action exactly when it succeeded; only a failed Shutdown is an error, the wait's result is ignored; the holdings are unchanged |
| Workflows.TakeSnapshot | droplet.go:225-242 | the snapshot action, a wait for that action and the snapshot listing, the latter two exactly when the action succeeded; nil exactly when the listing succeeded and shows the snapshot; a failed wait does not stop it; by `SnapshotFrame`, the snapshots change only after a successful action, and then only by one snapshot of the target name appended |
| Workflows.RunDown | droplet.go:211-287 | the calls of `DownSteps`: DeleteDroplet only after a successful listing shows the new snapshot, the record cleanup only after a successful listing no longer shows the droplet; nil exactly when every call ran and the last succeeded; otherwise the failed call's error or the error of the check that failed; by `DownState`, the snapshots change only by the snapshot action, the droplets lose exactly the droplet's ID once its delete succeeded, the records exactly the `RecordToDelete` ID once that delete succeeded, and nothing else changes |
| Workflows.Down | droplet.go:194-288 | the calls of `DownCalls`, stopping at the first failure other than a wait; the result of `DownResult`: nil exactly when the first listing failed or every call ran and succeeded; no holding changes before both guards pass; past the guards, `DownState` for the droplet found; success after the guards leaves the snapshot listed and the droplet gone |
| Workflows.DownPastGuards | droplet.go:211-288 | once both guards passed, the calls, stop rule, `DownResult` and `DownState` of the whole run of `down`; success leaves the snapshot listed and the droplet gone |
| OneShot.Up | main.go:127-199 | the same calls, stop rule, verdict and effects as droplet.go's `up`: the record carries the awaited droplet's address and is created only when it has one, the new droplet is listed once created, the record is the only record change and is added before the snapshot is deleted, and a normal end means all eight calls succeeded |
| OneShot.PowerOff | main.go:214-222 | Shutdown, then a wait for that action exactly when it succeeded; either failure exits (main.go:41-55) |
| OneShot.SnapshotDown | main.go:213-242 | as droplet.go's, except that a failed wait ends the process, so every call before the last succeeded; the same `SnapshotFrame` on the snapshots |
| OneShot.TakeSnapshot | main.go:226-240 | the snapshot action, a wait for that action exactly when it succeeded, the snapshot listing exactly when the wait succeeded; a normal end exactly when the listing shows the snapshot; every failure exits; the same `SnapshotFrame` on the snapshots |
| OneShot.RunDown | main.go:213-280 | the calls of `DownSteps`, every call before the last succeeded; a normal end exactly when every call ran and succeeded; the same `DownState` as droplet.go's |
| OneShot.Down | main.go:201-281 | the calls of `DownCalls`, every call before the last succeeded, waits and the first listing included; the exit of `DownExit`; past the guards, `DownState` for the droplet found; a normal end means the snapshot is listed and the droplet is gone |
| OneShot.DownPastGuards | main.go:212-281 | once both guards passed, the calls, the strict stop rule, `DownExit` and `DownState` of the whole run of `down`; a normal end leaves the snapshot listed and the droplet gone |
| Dispatcher.CheckCmdValid | bot.go:18-26 | true exactly when some allowed `c` equals the command or `c + "@" + suffix` |
| Dispatcher.Command | bot.go:88 | the command text up to its first '@' |
| Dispatcher.CommandOfAddressed | bot.go:88 | a name without '@', bare or addressed, has that name as its command |
| Dispatcher.ValidCommandIsAllowed | bot.go:72-102 | a command that passes `checkCmdValid` is "up", "down" or "ping" once the suffix is cut |
| Dispatcher.Step | bot.go:63-111 | ignored messages change nothing; other chats get the refusal and start nothing; busy answers "I'm busy"; when idle, up and down start one job and set busy, and ping answers "pong"; a result reports its error or "Done!" and clears busy |
| Dispatcher.AcceptedCommandAnswered | bot.go:76-102 | an accepted command from the target chat always starts a job or gets a reply |
| Dispatcher.Run | bot.go:58-111 | each event sends at most one message and starts at most one job |
| Dispatcher.SingleJob | bot.go:58-111 | when results arrive only while a job runs, at most one job is in flight, and `isBusy` is true exactly when one is |
| Dispatcher.NoOverlap | bot.go:83-98 | a job starts only when no other job is in flight |
| Dispatcher.SecondUpIsBusy | bot.go:83-97 | two "/up" commands with no result between them start one job, and the second gets "I'm busy" |
| Dispatcher.ForeignChatsStartNothing | bot.go:76-81 | commands from other chats never start a job; all they get is the refusal |
| Dispatcher.Handle | bot.go:63-110 | one turn of the loop reacts to the event exactly as `Step` |
| Dispatcher.Serve | bot.go:58-111 | the imperative loop computes exactly `Run` |
| Dispatcher.RunAction | bot.go:14-16 | the job's workflow runs (`up` or `down` from droplet.go) with its calls, stop rule and verdict (`UpVerdict` or `DownResult`), and its result becomes the completion event |

## Left out

- The godo HTTP services are left out. The provider is an abstract account whose calls may fail.
- Pagination is left out. Every listing returns the whole collection, where the code fetches one page of up to 200 items.
- The provider's own state changes are not modelled. Droplet status changes and actions completing are left out, as is which snapshot a snapshot action produces: the model only allows that a snapshot appears.
- `droplet.PublicIPv4()` is not modelled. The droplet carries either an address or the error the call would give.
- Workflows.WaitFor: the polling loop and its 5-second sleep are one provider step. The model does not capture a wait that never ends.
- Workflows.WaitForDroplet: likewise one step, with no polling.
- Failures.Text: its contract states only that no error text equals "Done!". The exact wording is in its body, and the capitalised log text of main.go is not modelled.
- The progress messages that `up` and `down` send through `logf`/`sendMsg`, and all log output, are left out.
- The Telegram transport is left out (`NewBotAPI`, `GetMe`, the updates channel, `Send`). A message is reduced to its chat, whether it is a command, and `CommandWithAt()`.
- Goroutines and channels are left out. Completions appear as events in the same stream, and `Feasible` states that a completion arrives only while a job is in flight.
- Strconv.Atoi: Go's range check is left out. Values that overflow `int` parse as the integer they denote.
- The environment and flag handling of `main`, and its usage text, are left out.
