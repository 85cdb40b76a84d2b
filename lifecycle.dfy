/**
 * The two workflows' configurations, the order of the provider calls each
 * issues (listings included) with how the outcome of each call and each
 * guard decides what comes next, and the error each reports. Both versions
 * of the workflows (droplet.go and main.go) are held to these.
 */
module Lifecycle {
  import opened Wrappers
  import opened Provider
  import opened Lookup
  import opened Failures
  import Strconv
  import Dns

  datatype UpConfig = UpConfig(
    projectName: string, dropletName: string, domainName: string, hostName: string,
    snapshotName: string, region: string, size: string)

  datatype DownConfig = DownConfig(
    dropletName: string, snapshotName: string, domainName: string, hostName: string)

  /** The TTL, in seconds, of the "A" record `up` creates. */
  const RecordTTL := 3600

  /**
   * What `up` checks before it creates anything: the snapshot and the
   * project exist, no droplet has the target name, and the snapshot's ID
   * parses as an integer.
   */
  ghost predicate UpGuards(cfg: UpConfig, drops: seq<Droplet>, snaps: seq<Snapshot>, projs: seq<Project>) {
    && FirstNamed(snaps, SnapshotName, cfg.snapshotName).Some?
    && FirstNamed(projs, ProjectName, cfg.projectName).Some?
    && FirstNamed(drops, DropletName, cfg.dropletName).None?
    && Strconv.Atoi(FirstNamed(snaps, SnapshotName, cfg.snapshotName).value.id).Some?
  }

  function Last(es: seq<Entry>): Entry
    requires es != []
  {
    es[|es| - 1]
  }

  /** Every call but the last succeeded: the run stopped at its first failure. */
  ghost predicate StopsAtFirstFailure(es: seq<Entry>) {
    forall i :: 0 <= i < |es| - 1 ==> Succeeded(es[i])
  }

  /**
   * The same, except that a failed wait for an action does not stop the
   * run; the run never ends on such a wait.
   */
  ghost predicate StopsAtFirstFailureIgnoringWaits(es: seq<Entry>) {
    && (es != [] ==> !Last(es).call.WaitAction?)
    && forall i :: 0 <= i < |es| - 1 && !es[i].call.WaitAction? ==> Succeeded(es[i])
  }

  /** A run of successes followed by a run that stops at its first failure stops at its first failure. */
  lemma {:induction false} StopsAfterSuccesses(es1: seq<Entry>, es2: seq<Entry>)
    requires forall i :: 0 <= i < |es1| ==> Succeeded(es1[i])
    requires StopsAtFirstFailure(es2)
    ensures StopsAtFirstFailure(es1 + es2)
  {
    forall i | 0 <= i < |es1 + es2| - 1
      ensures Succeeded((es1 + es2)[i])
    {
      if i >= |es1| {
        assert (es1 + es2)[i] == es2[i - |es1|];
      }
    }
  }

  /** The same for runs that ignore failed waits. */
  lemma {:induction false} StopsIgnoringWaitsAfterSuccesses(es1: seq<Entry>, es2: seq<Entry>)
    requires forall i :: 0 <= i < |es1| ==> Succeeded(es1[i])
    requires es2 != [] && StopsAtFirstFailureIgnoringWaits(es2)
    ensures StopsAtFirstFailureIgnoringWaits(es1 + es2)
  {
    assert Last(es1 + es2) == Last(es2);
    forall i | 0 <= i < |es1 + es2| - 1 && !(es1 + es2)[i].call.WaitAction?
      ensures Succeeded((es1 + es2)[i])
    {
      if i >= |es1| {
        assert (es1 + es2)[i] == es2[i - |es1|];
      }
    }
  }

  /**
   * The guard listings of `up`: snapshots, projects, droplets, each issued
   * only after the previous one succeeded and found what it looked for.
   */
  ghost predicate UpChecks(es: seq<Entry>, cfg: UpConfig, snaps: seq<Snapshot>, projs: seq<Project>) {
    var snap := FirstNamed(snaps, SnapshotName, cfg.snapshotName);
    var proj := FirstNamed(projs, ProjectName, cfg.projectName);
    && 0 < |es| <= 3
    && StopsAtFirstFailure(es)
    && es[0].call == List(SnapshotList)
    && (|es| > 1 <==> Succeeded(es[0]) && snap.Some?)
    && (|es| > 1 ==> es[1].call == List(ProjectList))
    && (|es| > 1 ==> (|es| > 2 <==> Succeeded(es[1]) && proj.Some?))
    && (|es| > 2 ==> es[2].call == List(DropletList))
  }

  /**
   * The calls `up` makes once its guards pass: create the droplet from the
   * snapshot's image, wait until that droplet is "active", assign it to the
   * project, create the host's "A" record with TTL 3600 pointing at the
   * public IPv4 address the wait reported, delete the snapshot. Each call
   * but the assignment is followed by the next exactly when it succeeds;
   * the assignment is followed by the record exactly when it succeeded and
   * the droplet has a public IPv4 address.
   */
  ghost predicate UpEffects(es: seq<Entry>, cfg: UpConfig, snap: Snapshot, proj: Project, image: int) {
    && 0 < |es| <= 5
    && StopsAtFirstFailure(es)
    && es[0].call == Create(cfg.dropletName, cfg.region, cfg.size, image)
    && (|es| > 1 <==> Succeeded(es[0]))
    && (|es| > 1 ==> es[0].outcome.Issued? && es[1].call == WaitDroplet(es[0].outcome.id, "active"))
    && (|es| > 1 ==> (|es| > 2 <==> Succeeded(es[1])))
    && (|es| > 2 ==> es[1].outcome.Reached? && es[2].call == Assign(proj.id, es[0].outcome.id))
    && (|es| > 2 ==> (|es| > 3 <==> Succeeded(es[2]) && es[1].outcome.address.Success?))
    && (|es| > 3 ==>
          es[3].call == Call.CreateRecord(cfg.domainName, "A", Dns.RecordName(cfg.hostName, cfg.domainName),
                                          RecordTTL, es[1].outcome.address.value))
    && (|es| > 3 ==> (|es| > 4 <==> Succeeded(es[3])))
    && (|es| > 4 ==> es[4].call == Call.DeleteSnapshot(snap.id))
  }

  /**
   * The calls `up` makes: its guard listings, and the calls of `UpEffects`
   * exactly when those listings succeeded and every guard holds.
   */
  ghost predicate UpCalls(es: seq<Entry>, cfg: UpConfig, drops: seq<Droplet>, snaps: seq<Snapshot>, projs: seq<Project>) {
    || (&& 0 < |es| <= 3 && UpChecks(es, cfg, snaps, projs)
        && !(|es| == 3 && Succeeded(es[2]) && UpGuards(cfg, drops, snaps, projs)))
    || (&& |es| > 3 && UpChecks(es[..3], cfg, snaps, projs)
        && Succeeded(es[2]) && UpGuards(cfg, drops, snaps, projs)
        && var snap := FirstNamed(snaps, SnapshotName, cfg.snapshotName).value;
           UpEffects(es[3..], cfg, snap, FirstNamed(projs, ProjectName, cfg.projectName).value,
                     Strconv.Atoi(snap.id).value))
  }

  /** The error `up` reports when the guard checked by its `n`-th listing fails. */
  ghost predicate UpGuardFailure(n: nat, f: Failure, cfg: UpConfig,
                                 drops: seq<Droplet>, snaps: seq<Snapshot>, projs: seq<Project>) {
    var snap := FirstNamed(snaps, SnapshotName, cfg.snapshotName);
    var drop := FirstNamed(drops, DropletName, cfg.dropletName);
    || (n == 1 && f == SnapshotMissing(cfg.snapshotName) && snap.None?)
    || (n == 2 && f == ProjectMissing(cfg.projectName) && FirstNamed(projs, ProjectName, cfg.projectName).None?)
    || (n == 3 && f == DropletExists(cfg.dropletName) && drop.Some?)
    || (&& n == 3 && snap.Some? && drop.None? && f == BadSnapshotId(snap.value.id)
        && Strconv.Atoi(snap.value.id).None?)
  }

  /**
   * The result of `up` after calls `es`: nil exactly when all eight calls
   * succeeded; the failed call's error when a call failed; otherwise the
   * error of the guard that failed, or, after a successful assignment,
   * the reason the awaited droplet has no public IPv4 address.
   */
  ghost predicate UpVerdict(es: seq<Entry>, err: Option<Failure>, cfg: UpConfig,
                            drops: seq<Droplet>, snaps: seq<Snapshot>, projs: seq<Project>) {
    && es != []
    && (err.None? <==> |es| == 8 && Succeeded(Last(es)))
    && (!Succeeded(Last(es)) ==> err == Some(Blame(Last(es).call, Last(es).outcome.cause, cfg.hostName)))
    && (Succeeded(Last(es)) && err.Some? ==>
          || UpGuardFailure(|es|, err.value, cfg, drops, snaps, projs)
          || (&& |es| == 6 && es[4].outcome.Reached? && es[4].outcome.address.Failure?
              && err.value == NoPublicIPv4(es[4].outcome.address.error)))
  }

  /**
   * What the effects of `up` leave behind when its create is call `o` of
   * `es`: nothing changes before the create; once it succeeded, the new
   * droplet is listed last, with the configured name and the ID the create
   * returned; the host's "A" record, with the address call `o + 3` passed,
   * is added by that call to the configured domain's records and nothing
   * else changes in the records; the snapshots lose exactly those with the
   * ID of `snap` by call `o + 4`, the last, and only when it was found.
   */
  ghost predicate UpState(es: seq<Entry>, o: nat, cfg: UpConfig, snap: Option<Snapshot>,
                          drops0: seq<Droplet>, drops1: seq<Droplet>,
                          recs0: map<string, seq<Record>>, recs1: map<string, seq<Record>>,
                          snaps0: seq<Snapshot>, snaps1: seq<Snapshot>) {
    && (!(|es| > o && Succeeded(es[o])) ==> drops1 == drops0)
    && (|es| > o && Succeeded(es[o]) ==>
          && es[o].outcome.Issued?
          && |drops1| == |drops0| + 1 && drops0 <= drops1
          && drops1[|drops0|].name == cfg.dropletName
          && drops1[|drops0|].id == es[o].outcome.id)
    && (!(|es| > o + 3 && Succeeded(es[o + 3])) ==> recs1 == recs0)
    && (|es| > o + 3 && Succeeded(es[o + 3]) ==>
          var recs := RecordsOf(recs1, cfg.domainName);
          && recs != []
          && recs1 == recs0[cfg.domainName := RecordsOf(recs0, cfg.domainName) + [recs[|recs| - 1]]]
          && recs[|recs| - 1].rtype == "A" && recs[|recs| - 1].ttl == RecordTTL
          && recs[|recs| - 1].name == Dns.RecordName(cfg.hostName, cfg.domainName)
          && es[o + 3].call.CreateRecord? && recs[|recs| - 1].data == es[o + 3].call.data)
    && (!(|es| == o + 5 && Succeeded(es[o + 4])) ==> snaps1 == snaps0)
    && (|es| == o + 5 && Succeeded(es[o + 4]) ==>
          snap.Some? && snaps1 == SnapshotsWithout(snaps0, snap.value.id))
  }

  /** A run that ends before its create changes nothing `UpState` speaks of. */
  lemma UpStateBeforeCreate(es: seq<Entry>, o: nat, cfg: UpConfig, snap: Option<Snapshot>,
                            drops: seq<Droplet>, recs: map<string, seq<Record>>, snaps: seq<Snapshot>)
    requires |es| <= o
    ensures UpState(es, o, cfg, snap, drops, drops, recs, recs, snaps, snaps)
  {
  }

  /** `UpState` of the effects alone is `UpState` of the whole run, after the three guard listings. */
  lemma UpStateJoin(es1: seq<Entry>, es2: seq<Entry>, cfg: UpConfig, snap: Option<Snapshot>,
                    drops0: seq<Droplet>, drops1: seq<Droplet>,
                    recs0: map<string, seq<Record>>, recs1: map<string, seq<Record>>,
                    snaps0: seq<Snapshot>, snaps1: seq<Snapshot>)
    requires |es1| == 3
    requires UpState(es2, 0, cfg, snap, drops0, drops1, recs0, recs1, snaps0, snaps1)
    ensures UpState(es1 + es2, 3, cfg, snap, drops0, drops1, recs0, recs1, snaps0, snaps1)
  {
    var es := es1 + es2;
    assert |es| > 3 ==> es[3] == es2[0];
    assert |es| > 6 ==> es[6] == es2[3];
    assert |es| > 7 ==> es[7] == es2[4];
  }

  /** What `down` checks before it acts: the droplet exists and the target snapshot does not. */
  ghost predicate DownGuards(cfg: DownConfig, drops: seq<Droplet>, snaps: seq<Snapshot>) {
    && FirstNamed(drops, DropletName, cfg.dropletName).Some?
    && FirstNamed(snaps, SnapshotName, cfg.snapshotName).None?
  }

  /** Two calls (shutdown and its wait) for a droplet that is not "off", none otherwise. */
  function ShutdownCalls(d: Droplet): nat {
    if d.status != "off" then 2 else 0
  }

  /** The ID of the record `down` deletes, -1 for none. */
  function RecordToDelete(cfg: DownConfig, records: map<string, seq<Record>>): int {
    MatchingId(RecordsOf(records, cfg.domainName), cfg.domainName, cfg.hostName)
  }

  /**
   * The first calls `down` makes on droplet `d` once its guards pass: shut
   * it down and wait for that action (only when its status is not "off"),
   * snapshot it under the target name and wait for that action, list the
   * snapshots again. Each wait is for the action its call started.
   */
  ghost predicate SnapshotSteps(es: seq<Entry>, cfg: DownConfig, d: Droplet) {
    var k := ShutdownCalls(d);
    && 0 < |es| <= k + 3
    && (k == 2 ==> es[0].call == Call.Shutdown(d.id))
    && (k == 2 ==> (|es| > 1 <==> Succeeded(es[0])))
    && (k == 2 && |es| > 1 ==> es[0].outcome.Issued? && es[1].call == WaitAction(d.id, es[0].outcome.id))
    && (k == 2 && |es| > 1 && Succeeded(es[1]) ==> |es| > 2)
    && (|es| > k ==> es[k].call == SnapshotAction(d.id, cfg.snapshotName))
    && (|es| > k ==> (|es| > k + 1 <==> Succeeded(es[k])))
    && (|es| > k + 1 ==> es[k].outcome.Issued? && es[k + 1].call == WaitAction(d.id, es[k].outcome.id))
    && (|es| > k + 1 && Succeeded(es[k + 1]) ==> |es| > k + 2)
    && (|es| > k + 2 ==> es[k + 2].call == List(SnapshotList))
  }

  /**
   * The shutdown calls of `down` (none for a droplet that is "off"),
   * followed by the snapshot action, its wait and the re-listing, make the
   * calls of `SnapshotSteps`; the second part's result is that of the whole.
   */
  lemma SnapshotJoin(es1: seq<Entry>, es2: seq<Entry>, err: Option<Failure>, cfg: DownConfig, d: Droplet,
                     snapsAfter: seq<Snapshot>)
    requires |es1| == ShutdownCalls(d)
    requires |es1| == 2 ==>
               && es1[0].call == Call.Shutdown(d.id) && Succeeded(es1[0])
               && es1[0].outcome.Issued? && es1[1].call == WaitAction(d.id, es1[0].outcome.id)
    requires && 0 < |es2| <= 3
             && es2[0].call == SnapshotAction(d.id, cfg.snapshotName)
             && (|es2| > 1 <==> Succeeded(es2[0]))
             && (|es2| > 1 ==> es2[0].outcome.Issued? && es2[1].call == WaitAction(d.id, es2[0].outcome.id))
             && (|es2| > 1 && Succeeded(es2[1]) ==> |es2| > 2)
             && (|es2| > 2 ==> es2[2].call == List(SnapshotList))
    requires err.None? <==> |es2| == 3 && Succeeded(es2[2]) && FirstNamed(snapsAfter, SnapshotName, cfg.snapshotName).Some?
    requires !Succeeded(Last(es2)) ==> err == Some(Blame(Last(es2).call, Last(es2).outcome.cause, cfg.hostName))
    requires Succeeded(Last(es2)) && err.Some? ==> |es2| == 3 && err == Some(SnapshotUnverified(cfg.snapshotName))
    ensures var es := es1 + es2;
            var k := ShutdownCalls(d);
              && SnapshotSteps(es, cfg, d)
              && (err.None? <==>
                    |es| == k + 3 && Succeeded(es[k + 2]) && FirstNamed(snapsAfter, SnapshotName, cfg.snapshotName).Some?)
              && (!Succeeded(Last(es)) ==> err == Some(Blame(Last(es).call, Last(es).outcome.cause, cfg.hostName)))
              && (Succeeded(Last(es)) && err.Some? ==> |es| == k + 3 && err == Some(SnapshotUnverified(cfg.snapshotName)))
              && (StopsAtFirstFailureIgnoringWaits(es2) ==> StopsAtFirstFailureIgnoringWaits(es))
              && ((forall i :: 0 <= i < |es1| ==> Succeeded(es1[i])) && StopsAtFirstFailure(es2) ==> StopsAtFirstFailure(es))
  {
    var es := es1 + es2;
    var k := |es1|;
    assert es[..k] == es1 && es[k..] == es2;
    assert Last(es) == Last(es2);
    forall i | 0 <= i < |es2|
      ensures es[k + i] == es2[i]
    {
    }
    if StopsAtFirstFailureIgnoringWaits(es2) {
      forall i | 0 <= i < |es| - 1 && !es[i].call.WaitAction?
        ensures Succeeded(es[i])
      {
        if i >= k {
          assert es[i] == es2[i - k];
        } else {
          assert es[i] == es1[i];
        }
      }
    }
    if (forall i :: 0 <= i < |es1| ==> Succeeded(es1[i])) && StopsAtFirstFailure(es2) {
      StopsAfterSuccesses(es1, es2);
    }
  }

  /**
   * The last calls of `down`, once the new snapshot is listed: delete the
   * droplet, list the droplets again and go on only when it is gone (in
   * `dropsAfter`, the droplets after the delete), list the domain's records
   * and delete the first one matching the host, if there is one.
   */
  ghost predicate TeardownSteps(es: seq<Entry>, cfg: DownConfig, d: Droplet,
                                records: map<string, seq<Record>>, dropsAfter: seq<Droplet>) {
    var rec := RecordToDelete(cfg, records);
    && 0 < |es| <= 4
    && es[0].call == Call.DeleteDroplet(d.id)
    && (|es| > 1 <==> Succeeded(es[0]))
    && (|es| > 1 ==> es[1].call == List(DropletList))
    && (|es| > 1 ==> (|es| > 2 <==> Succeeded(es[1]) && FirstNamed(dropsAfter, DropletName, cfg.dropletName).None?))
    && (|es| > 2 ==> es[2].call == List(RecordList(cfg.domainName)))
    && (|es| > 2 ==> (|es| > 3 <==> Succeeded(es[2]) && rec > -1))
    && (|es| > 3 ==> es[3].call == Call.DeleteRecord(cfg.domainName, rec))
  }

  /** The teardown stops at its first failure. */
  lemma TeardownStops(es: seq<Entry>, cfg: DownConfig, d: Droplet,
                      records: map<string, seq<Record>>, dropsAfter: seq<Droplet>)
    requires TeardownSteps(es, cfg, d, records, dropsAfter)
    ensures StopsAtFirstFailure(es)
  {
  }

  /**
   * A snapshot step run that ended with the snapshot listed, followed by a
   * teardown, makes the calls of `DownSteps`; the teardown's result is the
   * result of the whole, and the whole stops as the snapshot steps did.
   */
  lemma DownJoin(es1: seq<Entry>, es2: seq<Entry>, err: Option<Failure>, cfg: DownConfig, d: Droplet,
                 records: map<string, seq<Record>>, snapsAfter: seq<Snapshot>, dropsAfter: seq<Droplet>)
    requires |es1| == ShutdownCalls(d) + 3 && SnapshotSteps(es1, cfg, d) && Succeeded(Last(es1))
    requires FirstNamed(snapsAfter, SnapshotName, cfg.snapshotName).Some?
    requires TeardownSteps(es2, cfg, d, records, dropsAfter)
    requires err.None? <==> |es2| == 3 + (if RecordToDelete(cfg, records) > -1 then 1 else 0) && Succeeded(Last(es2))
    requires !Succeeded(Last(es2)) ==> err == Some(Blame(Last(es2).call, Last(es2).outcome.cause, cfg.hostName))
    requires Succeeded(Last(es2)) && err.Some? ==> |es2| == 2 && err == Some(DropletStillExists)
    ensures var es := es1 + es2;
              && DownSteps(es, cfg, d, records, snapsAfter, dropsAfter)
              && (err.None? <==> |es| == DownLength(cfg, d, records) && Succeeded(Last(es)))
              && (!Succeeded(Last(es)) ==> err == Some(Blame(Last(es).call, Last(es).outcome.cause, cfg.hostName)))
              && (Succeeded(Last(es)) && err.Some? ==> |es| == ShutdownCalls(d) + 5 && err == Some(DropletStillExists))
              && (StopsAtFirstFailure(es1) ==> StopsAtFirstFailure(es))
              && (StopsAtFirstFailureIgnoringWaits(es1) ==> StopsAtFirstFailureIgnoringWaits(es))
  {
    var es := es1 + es2;
    assert es[..|es1|] == es1 && es[|es1|..] == es2;
    assert Last(es) == Last(es2);
    TeardownStops(es2, cfg, d, records, dropsAfter);
    if StopsAtFirstFailure(es1) {
      StopsAfterSuccesses(es1, es2);
    }
    if StopsAtFirstFailureIgnoringWaits(es1) {
      StopsIgnoringWaitsThenStops(es1, es2);
    }
  }

  /**
   * A run that ignores failed waits and ends on a success, followed by a
   * run that stops at its first failure and does not end on a wait,
   * ignores failed waits as a whole.
   */
  lemma {:induction false} StopsIgnoringWaitsThenStops(es1: seq<Entry>, es2: seq<Entry>)
    requires es1 != [] && StopsAtFirstFailureIgnoringWaits(es1) && Succeeded(Last(es1))
    requires es2 != [] && StopsAtFirstFailure(es2) && !Last(es2).call.WaitAction?
    ensures StopsAtFirstFailureIgnoringWaits(es1 + es2)
  {
    var es := es1 + es2;
    assert Last(es) == Last(es2);
    forall i | 0 <= i < |es| - 1 && !es[i].call.WaitAction?
      ensures Succeeded(es[i])
    {
      if i >= |es1| {
        assert es[i] == es2[i - |es1|];
      } else {
        assert es[i] == es1[i];
      }
    }
  }

  /**
   * The calls `down` makes on droplet `d` after its guards: those of
   * `SnapshotSteps`, then those of `TeardownSteps` exactly when the
   * re-listing succeeded and shows the snapshot (in `snapsAfter`, the
   * snapshots after the snapshot action).
   */
  ghost predicate DownSteps(es: seq<Entry>, cfg: DownConfig, d: Droplet, records: map<string, seq<Record>>,
                            snapsAfter: seq<Snapshot>, dropsAfter: seq<Droplet>) {
    var k := ShutdownCalls(d);
    var confirmed := FirstNamed(snapsAfter, SnapshotName, cfg.snapshotName).Some?;
    || (&& |es| <= k + 3 && SnapshotSteps(es, cfg, d)
        && !(|es| == k + 3 && Succeeded(es[k + 2]) && confirmed))
    || (&& |es| > k + 3 && SnapshotSteps(es[..k + 3], cfg, d) && Succeeded(es[k + 2]) && confirmed
        && TeardownSteps(es[k + 3..], cfg, d, records, dropsAfter))
  }

  /**
   * Steps of `down` that ran to the end leave the snapshot listed after the
   * snapshot action and no droplet of the configured name listed after the
   * delete: each run goes on only past the listing that showed it.
   */
  lemma {:induction false} CompletedDown(es: seq<Entry>, cfg: DownConfig, d: Droplet, records: map<string, seq<Record>>,
                                         snapsAfter: seq<Snapshot>, dropsAfter: seq<Droplet>)
    requires DownSteps(es, cfg, d, records, snapsAfter, dropsAfter)
    requires |es| == DownLength(cfg, d, records)
    ensures FirstNamed(snapsAfter, SnapshotName, cfg.snapshotName).Some?
    ensures FirstNamed(dropsAfter, DropletName, cfg.dropletName).None?
  {
    var k := ShutdownCalls(d);
    var tail := es[k + 3..];
    assert |tail| > 2;
    assert TeardownSteps(tail, cfg, d, records, dropsAfter);
  }

  /**
   * The calls `down` makes: list the droplets, then, when that succeeded
   * and found the droplet, list the snapshots, then, when that succeeded
   * and found no snapshot of the target name, those of `DownSteps`.
   */
  ghost predicate DownCalls(es: seq<Entry>, cfg: DownConfig, drops: seq<Droplet>, snaps: seq<Snapshot>,
                            records: map<string, seq<Record>>, snapsAfter: seq<Snapshot>, dropsAfter: seq<Droplet>) {
    var found := FirstNamed(drops, DropletName, cfg.dropletName);
    && 0 < |es|
    && es[0].call == List(DropletList)
    && (|es| > 1 <==> Succeeded(es[0]) && found.Some?)
    && (|es| > 1 ==> es[1].call == List(SnapshotList))
    && (|es| > 1 ==> (|es| > 2 <==> Succeeded(es[1]) && DownGuards(cfg, drops, snaps)))
    && (|es| > 2 ==> DownSteps(es[2..], cfg, found.value, records, snapsAfter, dropsAfter))
  }

  /** The number of calls of `DownSteps` when `down` runs to the end. */
  function DownLength(cfg: DownConfig, d: Droplet, records: map<string, seq<Record>>): nat {
    ShutdownCalls(d) + 6 + (if RecordToDelete(cfg, records) > -1 then 1 else 0)
  }

  /**
   * The errors `down` reports without a failed call: droplet missing,
   * snapshot already there, snapshot not confirmed, droplet still listed,
   * each after the listing that showed it.
   */
  ghost predicate DownCheckFailure(es: seq<Entry>, f: Failure, cfg: DownConfig, drops: seq<Droplet>) {
    var found := FirstNamed(drops, DropletName, cfg.dropletName);
    || (|es| == 1 && f == DropletMissing(cfg.dropletName))
    || (|es| == 2 && f == SnapshotExists(cfg.snapshotName))
    || (found.Some? && |es| == 2 + ShutdownCalls(found.value) + 3 && f == SnapshotUnverified(cfg.snapshotName))
    || (found.Some? && |es| == 2 + ShutdownCalls(found.value) + 5 && f == DropletStillExists)
  }

  /**
   * The result of droplet.go's `down` after calls `es`: nil exactly when the
   * first listing failed or every call ran and the last succeeded; the
   * failed call's error for any other failed call; otherwise a check's error.
   */
  ghost predicate DownResult(es: seq<Entry>, err: Option<Failure>, cfg: DownConfig,
                             drops: seq<Droplet>, records: map<string, seq<Record>>) {
    var found := FirstNamed(drops, DropletName, cfg.dropletName);
    && es != []
    && (err.None? <==>
          || (|es| == 1 && !Succeeded(es[0]))
          || (found.Some? && |es| == 2 + DownLength(cfg, found.value, records) && Succeeded(Last(es))))
    && (|es| > 1 && !Succeeded(Last(es)) ==> err == Some(Blame(Last(es).call, Last(es).outcome.cause, cfg.hostName)))
    && (Succeeded(Last(es)) && err.Some? ==> DownCheckFailure(es, err.value, cfg, drops))
  }

  /**
   * The end of main.go's `down` after calls `es`: a normal end exactly when
   * every call ran and the last succeeded; otherwise an exit on the failed
   * call's error, or on a check's error.
   */
  ghost predicate DownExit(es: seq<Entry>, abort: Option<Failure>, cfg: DownConfig,
                           drops: seq<Droplet>, records: map<string, seq<Record>>) {
    var found := FirstNamed(drops, DropletName, cfg.dropletName);
    && es != []
    && (abort.None? <==> found.Some? && |es| == 2 + DownLength(cfg, found.value, records) && Succeeded(Last(es)))
    && (!Succeeded(Last(es)) ==> abort == Some(Blame(Last(es).call, Last(es).outcome.cause, cfg.hostName)))
    && (Succeeded(Last(es)) && abort.Some? ==> DownCheckFailure(es, abort.value, cfg, drops))
  }

  /**
   * On a run where no call failed before the last and the first listing
   * did not fail, droplet.go's result and main.go's exit agree.
   */
  lemma DownResultIsExit(es: seq<Entry>, err: Option<Failure>, cfg: DownConfig,
                         drops: seq<Droplet>, records: map<string, seq<Record>>)
    requires StopsAtFirstFailure(es)
    requires es != [] && !(|es| == 1 && !Succeeded(es[0]))
    requires DownResult(es, err, cfg, drops, records)
    ensures DownExit(es, err, cfg, drops, records)
  {
  }

  /**
   * Guards that passed, followed by the effects of `up`, make the calls of
   * `UpCalls`; the effects' result is the result of the whole, and the
   * effects' calls sit at position 3 on.
   */
  lemma UpJoin(es1: seq<Entry>, es2: seq<Entry>, err: Option<Failure>, cfg: UpConfig,
               drops: seq<Droplet>, snaps: seq<Snapshot>, projs: seq<Project>,
               snap: Snapshot, proj: Project, image: int)
    requires UpChecks(es1, cfg, snaps, projs) && |es1| == 3 && Succeeded(es1[2]) && UpGuards(cfg, drops, snaps, projs)
    requires snap == FirstNamed(snaps, SnapshotName, cfg.snapshotName).value
    requires proj == FirstNamed(projs, ProjectName, cfg.projectName).value
    requires Strconv.Atoi(snap.id) == Some(image)
    requires UpEffects(es2, cfg, snap, proj, image)
    requires err.None? <==> |es2| == 5 && Succeeded(Last(es2))
    requires !Succeeded(Last(es2)) ==> err == Some(Blame(Last(es2).call, Last(es2).outcome.cause, cfg.hostName))
    requires Succeeded(Last(es2)) && err.Some? ==>
               && |es2| == 3 && es2[1].outcome.Reached? && es2[1].outcome.address.Failure?
               && err.value == NoPublicIPv4(es2[1].outcome.address.error)
    ensures var es := es1 + es2;
              && UpCalls(es, cfg, drops, snaps, projs)
              && StopsAtFirstFailure(es)
              && UpVerdict(es, err, cfg, drops, snaps, projs)
  {
    var es := es1 + es2;
    assert es[..3] == es1 && es[3..] == es2;
    assert Last(es) == Last(es2);
    assert |es| > 4 ==> es[4] == es2[1];
    StopsAfterSuccesses(es1, es2);
  }

  /**
   * What the steps of `down` on the droplet `d` found by its guards promise:
   * their calls, and a result that is empty exactly when all of them ran and
   * the last succeeded, blames the failed last call, and otherwise is the
   * snapshot or droplet check that did not hold.
   */
  ghost predicate StepsVerdict(es2: seq<Entry>, err: Option<Failure>, cfg: DownConfig, d: Droplet,
                               records: map<string, seq<Record>>,
                               snapsAfter: seq<Snapshot>, dropsAfter: seq<Droplet>)
  {
    && DownSteps(es2, cfg, d, records, snapsAfter, dropsAfter)
    && (err.None? <==> |es2| == DownLength(cfg, d, records) && Succeeded(Last(es2)))
    && (!Succeeded(Last(es2)) ==> err == Some(Blame(Last(es2).call, Last(es2).outcome.cause, cfg.hostName)))
    && (Succeeded(Last(es2)) && err.Some? ==>
          || (|es2| == ShutdownCalls(d) + 3 && err == Some(SnapshotUnverified(cfg.snapshotName)))
          || (|es2| == ShutdownCalls(d) + 5 && err == Some(DropletStillExists)))
  }

  /**
   * Guard listings of droplet.go's `down` that passed, followed by its steps
   * on the droplet found, make the calls of `DownCalls`; the steps' result is
   * the result of the whole, and the whole stops as the steps did. A run
   * without an error leaves the snapshot listed and the droplet gone.
   */
  lemma DownGuardsJoin(es1: seq<Entry>, es2: seq<Entry>, err: Option<Failure>, cfg: DownConfig, d: Droplet,
                       drops: seq<Droplet>, snaps: seq<Snapshot>, records: map<string, seq<Record>>,
                       snapsAfter: seq<Snapshot>, dropsAfter: seq<Droplet>)
    requires |es1| == 2 && Succeeded(es1[0]) && Succeeded(es1[1])
    requires es1[0].call == List(DropletList) && es1[1].call == List(SnapshotList)
    requires DownGuards(cfg, drops, snaps)
    requires d == FirstNamed(drops, DropletName, cfg.dropletName).value
    requires StepsVerdict(es2, err, cfg, d, records, snapsAfter, dropsAfter)
    ensures var es := es1 + es2;
              && DownCalls(es, cfg, drops, snaps, records, snapsAfter, dropsAfter)
              && DownResult(es, err, cfg, drops, records)
              && (StopsAtFirstFailureIgnoringWaits(es2) ==> StopsAtFirstFailureIgnoringWaits(es))
              && (err.None? ==>
                    && FirstNamed(snapsAfter, SnapshotName, cfg.snapshotName).Some?
                    && FirstNamed(dropsAfter, DropletName, cfg.dropletName).None?)
  {
    if err.None? {
      CompletedDown(es2, cfg, d, records, snapsAfter, dropsAfter);
    }
    var es := es1 + es2;
    assert es[0] == es1[0] && es[1] == es1[1] && es[2..] == es2;
    assert Last(es) == Last(es2);
    assert es2 != [];
    if StopsAtFirstFailureIgnoringWaits(es2) {
      StopsIgnoringWaitsAfterSuccesses(es1, es2);
    }
  }

  /**
   * The same join for main.go's `down`: the steps' result is the exit of the
   * whole, and the whole stops at its first failure when the steps do.
   */
  lemma DownGuardsExitJoin(es1: seq<Entry>, es2: seq<Entry>, err: Option<Failure>, cfg: DownConfig, d: Droplet,
                           drops: seq<Droplet>, snaps: seq<Snapshot>, records: map<string, seq<Record>>,
                           snapsAfter: seq<Snapshot>, dropsAfter: seq<Droplet>)
    requires |es1| == 2 && Succeeded(es1[0]) && Succeeded(es1[1])
    requires es1[0].call == List(DropletList) && es1[1].call == List(SnapshotList)
    requires DownGuards(cfg, drops, snaps)
    requires d == FirstNamed(drops, DropletName, cfg.dropletName).value
    requires StepsVerdict(es2, err, cfg, d, records, snapsAfter, dropsAfter)
    ensures var es := es1 + es2;
              && DownCalls(es, cfg, drops, snaps, records, snapsAfter, dropsAfter)
              && DownExit(es, err, cfg, drops, records)
              && (StopsAtFirstFailure(es2) ==> StopsAtFirstFailure(es))
              && (err.None? ==>
                    && FirstNamed(snapsAfter, SnapshotName, cfg.snapshotName).Some?
                    && FirstNamed(dropsAfter, DropletName, cfg.dropletName).None?)
  {
    if err.None? {
      CompletedDown(es2, cfg, d, records, snapsAfter, dropsAfter);
    }
    var es := es1 + es2;
    assert es[0] == es1[0] && es[1] == es1[1] && es[2..] == es2;
    assert Last(es) == Last(es2);
    assert es2 != [];
    if StopsAtFirstFailure(es2) {
      StopsAfterSuccesses(es1, es2);
    }
  }

  /**
   * The snapshots after the snapshot action of `down`: unchanged unless the
   * action succeeded (`taken`); then either still unchanged, as the new
   * snapshot may not be listed yet, or with one snapshot of the target
   * name added last.
   */
  ghost predicate SnapshotFrame(taken: bool, name: string, snaps0: seq<Snapshot>, snaps1: seq<Snapshot>) {
    && (!taken ==> snaps1 == snaps0)
    && (taken ==>
          || snaps1 == snaps0
          || (&& |snaps1| == |snaps0| + 1 && snaps1[..|snaps0|] == snaps0
              && snaps1[|snaps0|].name == name))
  }

  /**
   * What the steps of `down` on droplet `d` leave behind when the first of
   * them is call `o` of `es`: the snapshots change only by the snapshot
   * action; the droplets lose exactly those with the ID of `d` once its
   * delete succeeded, and nothing else; the domain's records lose exactly
   * those with the ID of `RecordToDelete` once that delete succeeded, and
   * nothing else.
   */
  ghost predicate DownState(es: seq<Entry>, o: nat, cfg: DownConfig, d: Droplet,
                            drops0: seq<Droplet>, drops1: seq<Droplet>,
                            recs0: map<string, seq<Record>>, recs1: map<string, seq<Record>>,
                            snaps0: seq<Snapshot>, snaps1: seq<Snapshot>) {
    var k := o + ShutdownCalls(d);
    && SnapshotFrame(|es| > k && Succeeded(es[k]), cfg.snapshotName, snaps0, snaps1)
    && (!(|es| > k + 3 && Succeeded(es[k + 3])) ==> drops1 == drops0)
    && (|es| > k + 3 && Succeeded(es[k + 3]) ==> drops1 == DropletsWithout(drops0, d.id))
    && (!(|es| > k + 6 && Succeeded(es[k + 6])) ==> recs1 == recs0)
    && (|es| > k + 6 && Succeeded(es[k + 6]) ==>
          recs1 == RecordsWithout(recs0, cfg.domainName, RecordToDelete(cfg, recs0)))
  }

  /**
   * Snapshot steps that ended with the snapshot listed, followed by a
   * teardown, leave what `DownState` states: the snapshot action sits at
   * `ShutdownCalls(d)`, the two deletes at three and six calls after it.
   */
  lemma DownStateJoin(es1: seq<Entry>, es2: seq<Entry>, cfg: DownConfig, d: Droplet,
                      drops0: seq<Droplet>, drops1: seq<Droplet>,
                      recs0: map<string, seq<Record>>, recs1: map<string, seq<Record>>,
                      snaps0: seq<Snapshot>, snaps1: seq<Snapshot>)
    requires |es1| == ShutdownCalls(d) + 3 && es2 != []
    requires SnapshotFrame(Succeeded(es1[ShutdownCalls(d)]), cfg.snapshotName, snaps0, snaps1)
    requires !Succeeded(es2[0]) ==> drops1 == drops0
    requires Succeeded(es2[0]) ==> drops1 == DropletsWithout(drops0, d.id)
    requires !(|es2| > 3 && Succeeded(es2[3])) ==> recs1 == recs0
    requires |es2| > 3 && Succeeded(es2[3]) ==> recs1 == RecordsWithout(recs0, cfg.domainName, RecordToDelete(cfg, recs0))
    ensures DownState(es1 + es2, 0, cfg, d, drops0, drops1, recs0, recs1, snaps0, snaps1)
  {
    var es := es1 + es2;
    var k := ShutdownCalls(d);
    assert es[k] == es1[k] && es[k + 3] == es2[0];
    assert |es| > k + 6 ==> es[k + 6] == es2[3];
  }

  /**
   * Snapshot steps that stopped before the teardown leave what `DownState`
   * states when nothing but the snapshot action changed the account.
   */
  lemma DownStateBeforeTeardown(es: seq<Entry>, cfg: DownConfig, d: Droplet,
                                drops: seq<Droplet>, recs: map<string, seq<Record>>,
                                snaps0: seq<Snapshot>, snaps1: seq<Snapshot>)
    requires |es| <= ShutdownCalls(d) + 3
    requires SnapshotFrame(|es| > ShutdownCalls(d) && Succeeded(es[ShutdownCalls(d)]), cfg.snapshotName, snaps0, snaps1)
    ensures DownState(es, 0, cfg, d, drops, drops, recs, recs, snaps0, snaps1)
  {
  }

  /** `DownState` of the steps alone is `DownState` of the whole run, after the two guard listings. */
  lemma DownStateShift(es1: seq<Entry>, es2: seq<Entry>, cfg: DownConfig, d: Droplet,
                       drops0: seq<Droplet>, drops1: seq<Droplet>,
                       recs0: map<string, seq<Record>>, recs1: map<string, seq<Record>>,
                       snaps0: seq<Snapshot>, snaps1: seq<Snapshot>)
    requires |es1| == 2
    requires DownState(es2, 0, cfg, d, drops0, drops1, recs0, recs1, snaps0, snaps1)
    ensures DownState(es1 + es2, 2, cfg, d, drops0, drops1, recs0, recs1, snaps0, snaps1)
  {
    var es := es1 + es2;
    var k := ShutdownCalls(d);
    assert |es| > k + 2 ==> es[k + 2] == es2[k];
    assert |es| > k + 5 ==> es[k + 5] == es2[k + 3];
    assert |es| > k + 8 ==> es[k + 8] == es2[k + 6];
  }

  /** Appending two runs to a trace appends their concatenation. */
  lemma AppendRuns(t0: seq<Entry>, es1: seq<Entry>, es2: seq<Entry>)
    ensures (t0 + es1) + es2 == t0 + (es1 + es2)
  {
  }
}
