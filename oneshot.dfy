/**
 * main.go: the command-line `up` and `down`. They issue the same calls as
 * the workflows of droplet.go, but every failure is fatal (`log.Fatal`):
 * the result is `Some(f)` when the process exits on `f` and `None` when the
 * function returns. The lookups and waits are those of `Workflows`, whose
 * error result stands for the exit.
 */
module OneShot {
  import opened Wrappers
  import opened Provider
  import opened Lookup
  import opened Failures
  import opened Lifecycle
  import Workflows

  /**
   * `up`: the same calls, in the same order, as `Workflows.Up`, with each
   * error an exit; the process ends normally only after every call ran.
   */
  method Up(p: Account, cfg: UpConfig) returns (abort: Option<Failure>, ghost es: seq<Entry>)
    modifies p
    ensures p.trace == old(p.trace) + es
    ensures
              && UpCalls(es, cfg, old(p.droplets), old(p.snapshots), old(p.projects))
              && StopsAtFirstFailure(es)
              && UpVerdict(es, abort, cfg, old(p.droplets), old(p.snapshots), old(p.projects))
    // Nothing changes before the create, the fourth call; once it succeeded, the new droplet
    // is listed last; the record is added by the seventh call; the snapshot is deleted only
    // by the eighth, after it.
    ensures UpState(es, 3, cfg, FirstNamed(old(p.snapshots), SnapshotName, cfg.snapshotName),
                    old(p.droplets), p.droplets, old(p.records), p.records, old(p.snapshots), p.snapshots)
    ensures p.projects == old(p.projects)
  {
    abort, es := Workflows.Up(p, cfg);
  }

  /** Shut droplet `d` down and wait for that action; a failure of either is an exit. */
  method PowerOff(p: Account, d: Droplet) returns (abort: Option<Failure>, ghost es: seq<Entry>)
    modifies p
    ensures p.trace == old(p.trace) + es
    ensures && 0 < |es| <= 2
            && es[0].call == Call.Shutdown(d.id)
            && (|es| > 1 <==> Succeeded(es[0]))
            && (|es| > 1 ==> es[0].outcome.Issued? && es[1].call == WaitAction(d.id, es[0].outcome.id))
            && (abort.None? <==> |es| == 2 && Succeeded(es[1]))
            && (abort.Some? ==>
                  && !Succeeded(Last(es))
                  && abort.value == (if |es| == 1 then ShutdownFailed(es[0].outcome.cause)
                                     else ActionWaitFailed(es[1].outcome.cause)))
    ensures p.droplets == old(p.droplets) && p.snapshots == old(p.snapshots)
    ensures p.projects == old(p.projects) && p.records == old(p.records)
  {
    ghost var t0 := p.trace;
    var shutdown := p.Shutdown(d.id);
    es := [Last(p.trace)];
    assert p.trace == t0 + es;
    if shutdown.Failure? {
      abort := Some(ShutdownFailed(shutdown.error));
      return;
    }
    abort := Workflows.WaitFor(p, d.id, shutdown.value);
    AppendRuns(t0, es, [Last(p.trace)]);
    es := es + [Last(p.trace)];
  }

  /**
   * Take the snapshot, wait for the action and check that the snapshot is
   * listed; a failure of any of them, the wait included, is an exit.
   */
  method TakeSnapshot(p: Account, cfg: DownConfig, d: Droplet) returns (abort: Option<Failure>, ghost es: seq<Entry>)
    modifies p
    ensures p.trace == old(p.trace) + es
    ensures && 0 < |es| <= 3
            && es[0].call == SnapshotAction(d.id, cfg.snapshotName)
            && (|es| > 1 <==> Succeeded(es[0]))
            && (|es| > 1 ==> es[0].outcome.Issued? && es[1].call == WaitAction(d.id, es[0].outcome.id))
            && (|es| > 1 ==> (|es| > 2 <==> Succeeded(es[1])))
            && (|es| > 2 ==> es[2].call == List(SnapshotList))
            && StopsAtFirstFailure(es)
            && (abort.None? <==> |es| == 3 && Succeeded(es[2]) && FirstNamed(p.snapshots, SnapshotName, cfg.snapshotName).Some?)
            && (!Succeeded(Last(es)) ==> abort == Some(Blame(Last(es).call, Last(es).outcome.cause, cfg.hostName)))
            && (Succeeded(Last(es)) && abort.Some? ==> |es| == 3 && abort == Some(SnapshotUnverified(cfg.snapshotName)))
    ensures SnapshotFrame(Succeeded(es[0]), cfg.snapshotName, old(p.snapshots), p.snapshots)
    ensures p.droplets == old(p.droplets) && p.records == old(p.records) && p.projects == old(p.projects)
  {
    ghost var t0 := p.trace;
    var snapshotAction := p.SnapshotDroplet(d.id, cfg.snapshotName);
    es := [Last(p.trace)];
    assert p.trace == t0 + es;
    if snapshotAction.Failure? {
      abort := Some(SnapshotActionFailed(snapshotAction.error));
      assert Last(es).call == SnapshotAction(d.id, cfg.snapshotName);
      return;
    }
    abort := Workflows.WaitFor(p, d.id, snapshotAction.value);
    AppendRuns(t0, es, [Last(p.trace)]);
    es := es + [Last(p.trace)];
    assert p.trace == t0 + es;
    if abort.Some? {
      assert Last(es).call == WaitAction(d.id, snapshotAction.value);
      return;
    }

    var recheck := Workflows.FindSnapshot(p, cfg.snapshotName);
    AppendRuns(t0, es, [Last(p.trace)]);
    es := es + [Last(p.trace)];
    assert p.trace == t0 + es;
    if recheck.Failure? {
      abort := Some(recheck.error);
      assert Last(es).call == List(SnapshotList);
      return;
    }
    if recheck.value.None? {
      abort := Some(SnapshotUnverified(cfg.snapshotName));
      return;
    }
    abort := None;
  }

  /**
   * `down` up to the snapshot check: shut down unless "off", snapshot, and
   * re-find the snapshot. Unlike droplet.go, a failed wait is an exit.
   */
  method SnapshotDown(p: Account, cfg: DownConfig, d: Droplet) returns (abort: Option<Failure>, ghost es: seq<Entry>)
    modifies p
    ensures p.trace == old(p.trace) + es
    ensures var k := ShutdownCalls(d);
              && SnapshotSteps(es, cfg, d)
              && StopsAtFirstFailure(es)
              && (abort.None? <==>
                    |es| == k + 3 && Succeeded(es[k + 2]) && FirstNamed(p.snapshots, SnapshotName, cfg.snapshotName).Some?)
              && (!Succeeded(Last(es)) ==> abort == Some(Blame(Last(es).call, Last(es).outcome.cause, cfg.hostName)))
              && (Succeeded(Last(es)) && abort.Some? ==> |es| == k + 3 && abort == Some(SnapshotUnverified(cfg.snapshotName)))
    ensures SnapshotFrame(|es| > ShutdownCalls(d) && Succeeded(es[ShutdownCalls(d)]), cfg.snapshotName,
                          old(p.snapshots), p.snapshots)
    ensures p.droplets == old(p.droplets) && p.records == old(p.records) && p.projects == old(p.projects)
  {
    ghost var es1 := [];
    if d.status != "off" {
      abort, es1 := PowerOff(p, d);
      if abort.Some? {
        es := es1;
        return;
      }
    }
    assert forall i :: 0 <= i < |es1| ==> Succeeded(es1[i]);
    ghost var es2;
    abort, es2 := TakeSnapshot(p, cfg, d);
    SnapshotJoin(es1, es2, abort, cfg, d, p.snapshots);
    AppendRuns(old(p.trace), es1, es2);
    es := es1 + es2;
    assert es[ShutdownCalls(d)] == es2[0];
  }

  /**
   * `down` on droplet `d` once its guards pass: the snapshot of
   * `SnapshotDown`, then, once it is listed, the teardown, which main.go
   * does exactly as droplet.go does (`Workflows.Teardown`).
   */
  method RunDown(p: Account, cfg: DownConfig, d: Droplet) returns (abort: Option<Failure>, ghost es: seq<Entry>)
    modifies p
    ensures p.trace == old(p.trace) + es
    // The calls of `DownSteps`, the result of `StepsVerdict` as an exit, stopping at the first failure.
    ensures StepsVerdict(es, abort, cfg, d, old(p.records), p.snapshots, p.droplets)
    ensures StopsAtFirstFailure(es)
    // The snapshot taken, the droplet deleted and the host's record removed, each once its call succeeded.
    ensures DownState(es, 0, cfg, d, old(p.droplets), p.droplets, old(p.records), p.records, old(p.snapshots), p.snapshots)
    ensures p.projects == old(p.projects)
  {
    ghost var es1;
    abort, es1 := SnapshotDown(p, cfg, d);
    if abort.Some? {
      es := es1;
      DownStateBeforeTeardown(es, cfg, d, p.droplets, p.records, old(p.snapshots), p.snapshots);
      return;
    }
    abort, es := Workflows.TeardownAfterSnapshot(p, cfg, d, es1, old(p.droplets), old(p.snapshots), old(p.records),
                                                 old(p.trace));
  }

  /**
   * `down` once its guard listings `es1` passed and found droplet `d`: the
   * steps of `RunDown`, stated for the whole run `es1` followed by the calls
   * made here.
   */
  method DownPastGuards(p: Account, cfg: DownConfig, d: Droplet, ghost es1: seq<Entry>,
                        ghost drops0: seq<Droplet>, ghost snaps0: seq<Snapshot>, ghost recs0: map<string, seq<Record>>,
                        ghost t0: seq<Entry>)
      returns (abort: Option<Failure>, ghost es: seq<Entry>)
    modifies p
    requires drops0 == p.droplets && snaps0 == p.snapshots && recs0 == p.records && p.trace == t0 + es1
    requires |es1| == 2 && Succeeded(es1[0]) && Succeeded(es1[1])
    requires es1[0].call == List(DropletList) && es1[1].call == List(SnapshotList)
    requires DownGuards(cfg, drops0, snaps0)
    requires d == FirstNamed(drops0, DropletName, cfg.dropletName).value
    ensures p.trace == t0 + es
    ensures
              && DownCalls(es, cfg, drops0, snaps0, recs0, p.snapshots, p.droplets)
              && StopsAtFirstFailure(es)
              && DownExit(es, abort, cfg, drops0, recs0)
    ensures abort.None? ==>
              && FirstNamed(p.snapshots, SnapshotName, cfg.snapshotName).Some?
              && FirstNamed(p.droplets, DropletName, cfg.dropletName).None?
    ensures DownState(es, 2, cfg, FirstNamed(drops0, DropletName, cfg.dropletName).value,
                      drops0, p.droplets, recs0, p.records, snaps0, p.snapshots)
    ensures p.projects == old(p.projects)
  {
    ghost var es2;
    abort, es2 := RunDown(p, cfg, d);
    DownGuardsExitJoin(es1, es2, abort, cfg, d, drops0, snaps0, recs0, p.snapshots, p.droplets);
    DownStateShift(es1, es2, cfg, d, drops0, p.droplets, recs0, p.records, snaps0, p.snapshots);
    AppendRuns(t0, es1, es2);
    es := es1 + es2;
    assert p.trace == t0 + es;
  }

  /**
   * `down`: the same calls, in the same order, as `Workflows.Down`, but
   * every failure exits, a failed wait and a failed first listing
   * included: the process ends normally only after the full teardown.
   */
  method Down(p: Account, cfg: DownConfig) returns (abort: Option<Failure>, ghost es: seq<Entry>)
    modifies p
    ensures p.trace == old(p.trace) + es
    ensures
              && DownCalls(es, cfg, old(p.droplets), old(p.snapshots), old(p.records), p.snapshots, p.droplets)
              && StopsAtFirstFailure(es)
              && DownExit(es, abort, cfg, old(p.droplets), old(p.records))
    ensures |es| <= 2 ==> p.droplets == old(p.droplets) && p.snapshots == old(p.snapshots) && p.records == old(p.records)
    ensures abort.None? ==>
              && FirstNamed(p.snapshots, SnapshotName, cfg.snapshotName).Some?
              && FirstNamed(p.droplets, DropletName, cfg.dropletName).None?
    // Past the guards: the snapshot taken, the droplet deleted and the host's record removed,
    // each once its call succeeded, and nothing else changed.
    ensures |es| > 2 ==>
              DownState(es, 2, cfg, FirstNamed(old(p.droplets), DropletName, cfg.dropletName).value,
                        old(p.droplets), p.droplets, old(p.records), p.records, old(p.snapshots), p.snapshots)
    ensures p.projects == old(p.projects)
  {
    var checked;
    ghost var es1;
    checked, es1 := Workflows.CheckDown(p, cfg);
    if checked.Failure? {
      Workflows.GuardFailureResult(es1, checked.error, if Workflows.ListFailure(checked.error, Droplets) then None else Some(checked.error),
                                   cfg, old(p.droplets), old(p.snapshots), old(p.records), p.snapshots, p.droplets);
      abort, es := Some(checked.error), es1;
      return;
    }
    abort, es := DownPastGuards(p, cfg, checked.value, es1, old(p.droplets), old(p.snapshots), old(p.records), old(p.trace));
  }
}
