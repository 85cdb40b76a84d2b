/**
 * droplet.go: the error-returning lookups, waits and the `up` / `down`
 * workflows the bot runs. A workflow's result is `None` for Go's `nil`
 * error and `Some(f)` for the error it returns.
 */
module Workflows {
  import opened Wrappers
  import opened Provider
  import opened Lookup
  import opened Failures
  import opened Lifecycle
  import Strconv
  import Dns

  predicate ListFailure(f: Failure, c: Collection) {
    f.ListFailed? && f.collection == c
  }

  /** `findDroplet`: the first listed droplet with the name, or a listing error. */
  method FindDroplet(p: Account, name: string) returns (r: Result<Option<Droplet>, Failure>)
    modifies p
    ensures r.Failure? ==> ListFailure(r.error, Droplets)
    ensures p.trace == old(p.trace) + [Entry(List(DropletList), if r.Success? then Done else Failed(r.error.cause))]
    ensures r.Success? ==> r.value == FirstNamed(p.droplets, DropletName, name)
    ensures p.droplets == old(p.droplets) && p.snapshots == old(p.snapshots)
    ensures p.projects == old(p.projects) && p.records == old(p.records)
  {
    var listed := p.ListDroplets();
    if listed.Failure? {
      return Failure(ListFailed(Droplets, listed.error));
    }
    var target := Scan(listed.value, DropletName, name);
    return Success(target);
  }

  /** `findSnapshot`: the first listed snapshot with the name, or a listing error. */
  method FindSnapshot(p: Account, name: string) returns (r: Result<Option<Snapshot>, Failure>)
    modifies p
    ensures r.Failure? ==> ListFailure(r.error, Snapshots)
    ensures p.trace == old(p.trace) + [Entry(List(SnapshotList), if r.Success? then Done else Failed(r.error.cause))]
    ensures r.Success? ==> r.value == FirstNamed(p.snapshots, SnapshotName, name)
    ensures p.droplets == old(p.droplets) && p.snapshots == old(p.snapshots)
    ensures p.projects == old(p.projects) && p.records == old(p.records)
  {
    var listed := p.ListSnapshots();
    if listed.Failure? {
      return Failure(ListFailed(Snapshots, listed.error));
    }
    var target := Scan(listed.value, SnapshotName, name);
    return Success(target);
  }

  /** `findProject`: the first listed project with the name, or a listing error. */
  method FindProject(p: Account, name: string) returns (r: Result<Option<Project>, Failure>)
    modifies p
    ensures r.Failure? ==> ListFailure(r.error, Projects)
    ensures p.trace == old(p.trace) + [Entry(List(ProjectList), if r.Success? then Done else Failed(r.error.cause))]
    ensures r.Success? ==> r.value == FirstNamed(p.projects, ProjectName, name)
    ensures p.droplets == old(p.droplets) && p.snapshots == old(p.snapshots)
    ensures p.projects == old(p.projects) && p.records == old(p.records)
  {
    var listed := p.ListProjects();
    if listed.Failure? {
      return Failure(ListFailed(Projects, listed.error));
    }
    var target := Scan(listed.value, ProjectName, name);
    return Success(target);
  }

  /** `waitFor`: block until the droplet action has completed; a fetch error is returned. */
  method WaitFor(p: Account, dropletId: int, actionId: int) returns (err: Option<Failure>)
    modifies p
    ensures err.Some? ==> err.value.ActionWaitFailed?
    ensures p.trace == old(p.trace) + [Entry(WaitAction(dropletId, actionId), if err.None? then Done else Failed(err.value.cause))]
    ensures p.droplets == old(p.droplets) && p.snapshots == old(p.snapshots)
    ensures p.projects == old(p.projects) && p.records == old(p.records)
  {
    var r := p.AwaitAction(dropletId, actionId);
    if r.Failure? {
      return Some(ActionWaitFailed(r.error));
    }
    return None;
  }

  /** `waitForDroplet`: block until the droplet has `status` and return it; a fetch error is returned. */
  method WaitForDroplet(p: Account, id: int, status: string) returns (r: Result<Droplet, Failure>)
    modifies p
    ensures r.Failure? ==> r.error.DropletWaitFailed?
    ensures p.trace == old(p.trace) + [Entry(WaitDroplet(id, status), if r.Success? then Reached(r.value.publicIPv4) else Failed(r.error.cause))]
    ensures p.droplets == old(p.droplets) && p.snapshots == old(p.snapshots)
    ensures p.projects == old(p.projects) && p.records == old(p.records)
    ensures r.Success? ==> r.value.id == id && r.value.status == status
  {
    var got := p.AwaitDroplet(id, status);
    if got.Failure? {
      return Failure(DropletWaitFailed(got.error));
    }
    return Success(got.value);
  }

  /** What `up` has found once its guards pass: the snapshot, the project and the image ID. */
  datatype UpSource = UpSource(snapshot: Snapshot, project: Project, image: int)

  /**
   * The guards of `up`: find the snapshot, the project and no droplet of the
   * target name, and parse the snapshot's ID; the first that fails is the
   * error. It succeeds exactly when every listing succeeded and every guard holds.
   */
  method CheckUp(p: Account, cfg: UpConfig) returns (r: Result<UpSource, Failure>, ghost es: seq<Entry>)
    modifies p
    ensures p.trace == old(p.trace) + es
    ensures
              && UpChecks(es, cfg, old(p.snapshots), old(p.projects))
              && (r.Success? <==> |es| == 3 && Succeeded(es[2]) && UpGuards(cfg, old(p.droplets), old(p.snapshots), old(p.projects)))
              && (r.Failure? ==> UpVerdict(es, Some(r.error), cfg, old(p.droplets), old(p.snapshots), old(p.projects)))
    ensures r.Success? ==>
              && r.value.snapshot == FirstNamed(old(p.snapshots), SnapshotName, cfg.snapshotName).value
              && r.value.project == FirstNamed(old(p.projects), ProjectName, cfg.projectName).value
              && Strconv.Atoi(r.value.snapshot.id) == Some(r.value.image)
    ensures p.droplets == old(p.droplets) && p.snapshots == old(p.snapshots)
    ensures p.projects == old(p.projects) && p.records == old(p.records)
  {
    ghost var t0 := p.trace;
    var foundSnapshot := FindSnapshot(p, cfg.snapshotName);
    es := [Last(p.trace)];
    assert p.trace == t0 + es;
    if foundSnapshot.Failure? {
      r := Failure(foundSnapshot.error);
      return;
    }
    if foundSnapshot.value.None? {
      r := Failure(SnapshotMissing(cfg.snapshotName));
      return;
    }
    var snapshot := foundSnapshot.value.value;

    var foundProject := FindProject(p, cfg.projectName);
    AppendRuns(t0, es, [Last(p.trace)]);
    es := es + [Last(p.trace)];
    assert p.trace == t0 + es;
    if foundProject.Failure? {
      r := Failure(foundProject.error);
      return;
    }
    if foundProject.value.None? {
      r := Failure(ProjectMissing(cfg.projectName));
      return;
    }
    var project := foundProject.value.value;

    var foundDroplet := FindDroplet(p, cfg.dropletName);
    AppendRuns(t0, es, [Last(p.trace)]);
    es := es + [Last(p.trace)];
    assert p.trace == t0 + es;
    if foundDroplet.Failure? {
      r := Failure(foundDroplet.error);
      return;
    }
    if foundDroplet.value.Some? {
      r := Failure(DropletExists(cfg.dropletName));
      return;
    }

    var snapshotId := Strconv.Atoi(snapshot.id);
    if snapshotId.None? {
      r := Failure(BadSnapshotId(snapshot.id));
      return;
    }
    r := Success(UpSource(snapshot, project, snapshotId.value));
  }

  /**
   * The start of `up`'s effects: create the droplet from the image and
   * wait until it is "active"; the first failure is the error.
   */
  method Launch(p: Account, cfg: UpConfig, image: int) returns (r: Result<Droplet, Failure>, ghost es: seq<Entry>)
    modifies p
    ensures p.trace == old(p.trace) + es
    ensures
      && 0 < |es| <= 2
      && es[0].call == Create(cfg.dropletName, cfg.region, cfg.size, image)
      && (|es| > 1 <==> Succeeded(es[0]))
      && (|es| > 1 ==> es[0].outcome.Issued? && es[1].call == WaitDroplet(es[0].outcome.id, "active"))
      && (r.Success? <==> Succeeded(Last(es)) && |es| == 2)
      && (r.Success? ==> r.value.id == es[0].outcome.id && es[1].outcome == Reached(r.value.publicIPv4))
      && (r.Failure? ==> r.error == Blame(Last(es).call, Last(es).outcome.cause, cfg.hostName))
    ensures !Succeeded(es[0]) ==> p.droplets == old(p.droplets)
    ensures Succeeded(es[0]) ==>
              && es[0].outcome.Issued?
              && |p.droplets| == |old(p.droplets)| + 1 && old(p.droplets) <= p.droplets
              && p.droplets[|old(p.droplets)|].name == cfg.dropletName
              && p.droplets[|old(p.droplets)|].id == es[0].outcome.id
    ensures p.snapshots == old(p.snapshots) && p.projects == old(p.projects) && p.records == old(p.records)
  {
    ghost var t0 := p.trace;
    var created := p.CreateDroplet(cfg.dropletName, cfg.region, cfg.size, image);
    es := [Last(p.trace)];
    assert p.trace == t0 + es;
    if created.Failure? {
      r := Failure(CreateFailed(created.error));
      assert Last(es).call == Create(cfg.dropletName, cfg.region, cfg.size, image);
      return;
    }
    r := WaitForDroplet(p, created.value.id, "active");
    AppendRuns(t0, es, [Last(p.trace)]);
    es := es + [Last(p.trace)];
  }

  /**
   * The end of `up`'s effects: create the host's "A" record pointing at
   * `ip`, then delete the snapshot; the first failure is the error.
   */
  method Publish(p: Account, cfg: UpConfig, snap: Snapshot, ip: string) returns (err: Option<Failure>, ghost es: seq<Entry>)
    modifies p
    ensures p.trace == old(p.trace) + es
    ensures
      && 0 < |es| <= 2
      && es[0].call == Call.CreateRecord(cfg.domainName, "A", Dns.RecordName(cfg.hostName, cfg.domainName), RecordTTL, ip)
      && (|es| > 1 <==> Succeeded(es[0]))
      && (|es| > 1 ==> es[1].call == Call.DeleteSnapshot(snap.id))
      && (err.None? <==> Succeeded(Last(es)))
      && (err.Some? ==> err == Some(Blame(Last(es).call, Last(es).outcome.cause, cfg.hostName)))
    ensures !Succeeded(es[0]) ==> p.records == old(p.records)
    ensures Succeeded(es[0]) ==>
              var recs := RecordsOf(p.records, cfg.domainName);
              && recs != []
              && p.records == old(p.records)[cfg.domainName := RecordsOf(old(p.records), cfg.domainName) + [recs[|recs| - 1]]]
              && recs[|recs| - 1].rtype == "A" && recs[|recs| - 1].ttl == RecordTTL
              && recs[|recs| - 1].name == Dns.RecordName(cfg.hostName, cfg.domainName)
              && recs[|recs| - 1].data == ip
    ensures !(|es| == 2 && Succeeded(es[1])) ==> p.snapshots == old(p.snapshots)
    ensures |es| == 2 && Succeeded(es[1]) ==> p.snapshots == SnapshotsWithout(old(p.snapshots), snap.id)
    ensures p.droplets == old(p.droplets) && p.projects == old(p.projects)
  {
    ghost var t0 := p.trace;
    ghost var records0 := p.records;
    var recordName := Dns.RecordName(cfg.hostName, cfg.domainName);
    var record := p.CreateRecord(cfg.domainName, "A", recordName, RecordTTL, ip);
    es := [Last(p.trace)];
    assert p.trace == t0 + es;
    if record.Failure? {
      err := Some(RecordCreateFailed(record.error));
      assert Last(es).call == Call.CreateRecord(cfg.domainName, "A", recordName, RecordTTL, ip);
      return;
    }
    assert RecordsOf(p.records, cfg.domainName) == RecordsOf(records0, cfg.domainName) + [record.value];

    var deleted := p.DeleteSnapshot(snap.id);
    AppendRuns(t0, es, [Last(p.trace)]);
    es := es + [Last(p.trace)];
    assert p.trace == t0 + es;
    err := if deleted.Failure? then Some(SnapshotDeleteFailed(deleted.error)) else None;
  }

  /**
   * The effects of `up` once its guards pass: create, wait until "active",
   * assign, create the "A" record with the active droplet's public IPv4
   * address, delete the snapshot; stop at the first failure, or after the
   * assignment when the droplet has no public IPv4 address, reporting why.
   */
  method RunUp(p: Account, cfg: UpConfig, src: UpSource) returns (err: Option<Failure>, ghost es: seq<Entry>)
    modifies p
    ensures p.trace == old(p.trace) + es
    ensures
      && UpEffects(es, cfg, src.snapshot, src.project, src.image)
      && (err.None? <==> |es| == 5 && Succeeded(Last(es)))
      && (!Succeeded(Last(es)) ==> err == Some(Blame(Last(es).call, Last(es).outcome.cause, cfg.hostName)))
      && (Succeeded(Last(es)) && err.Some? ==>
            && |es| == 3 && es[1].outcome.Reached? && es[1].outcome.address.Failure?
            && err.value == NoPublicIPv4(es[1].outcome.address.error))
    // The new droplet, the host's record and the deleted snapshot, each once its call succeeded.
    ensures UpState(es, 0, cfg, Some(src.snapshot), old(p.droplets), p.droplets,
                    old(p.records), p.records, old(p.snapshots), p.snapshots)
    ensures p.projects == old(p.projects)
  {
    ghost var t0 := p.trace;
    var active;
    active, es := Launch(p, cfg, src.image);
    if active.Failure? {
      err := Some(active.error);
      return;
    }
    var droplet := active.value;

    var assignment := p.AssignResources(src.project.id, droplet.id);
    AppendRuns(t0, es, [Last(p.trace)]);
    es := es + [Last(p.trace)];
    assert p.trace == t0 + es;
    if assignment.Failure? {
      err := Some(AssignFailed(assignment.error));
      assert Last(es).call == Assign(src.project.id, droplet.id);
      return;
    }

    if droplet.publicIPv4.Failure? {
      err := Some(NoPublicIPv4(droplet.publicIPv4.error));
      return;
    }
    ghost var es2;
    err, es2 := Publish(p, cfg, src.snapshot, droplet.publicIPv4.value);
    AppendRuns(t0, es, es2);
    assert p.trace == t0 + (es + es2);
    es := es + es2;
    assert es[3..] == es2;
    assert Last(es) == Last(es2);
  }


  /**
   * When a guard of `up` stops it, its guard listings are the whole of
   * `UpCalls`, and they stop at the first failure.
   */
  lemma CheckUpFailure(es: seq<Entry>, cfg: UpConfig, drops: seq<Droplet>, snaps: seq<Snapshot>, projs: seq<Project>)
    requires UpChecks(es, cfg, snaps, projs)
    requires !(|es| == 3 && Succeeded(es[2]) && UpGuards(cfg, drops, snaps, projs))
    ensures UpCalls(es, cfg, drops, snaps, projs) && StopsAtFirstFailure(es)
    ensures |es| <= 3
  {
  }

  /**
   * `up` once its guard listings `es1` passed: the effects of `RunUp`, stated
   * for the whole run `es1` followed by the calls made here.
   */
  method UpPastGuards(p: Account, cfg: UpConfig, src: UpSource, ghost es1: seq<Entry>,
                      ghost drops0: seq<Droplet>, ghost snaps0: seq<Snapshot>, ghost projs0: seq<Project>,
                      ghost recs0: map<string, seq<Record>>, ghost t0: seq<Entry>)
      returns (err: Option<Failure>, ghost es: seq<Entry>)
    modifies p
    requires drops0 == p.droplets && snaps0 == p.snapshots && projs0 == p.projects && recs0 == p.records
    requires p.trace == t0 + es1
    requires UpChecks(es1, cfg, snaps0, projs0) && |es1| == 3 && Succeeded(es1[2])
    requires UpGuards(cfg, drops0, snaps0, projs0)
    requires src.snapshot == FirstNamed(snaps0, SnapshotName, cfg.snapshotName).value
    requires src.project == FirstNamed(projs0, ProjectName, cfg.projectName).value
    requires Strconv.Atoi(src.snapshot.id) == Some(src.image)
    ensures p.trace == t0 + es
    ensures
              && UpCalls(es, cfg, drops0, snaps0, projs0)
              && StopsAtFirstFailure(es)
              && UpVerdict(es, err, cfg, drops0, snaps0, projs0)
    ensures UpState(es, 3, cfg, FirstNamed(snaps0, SnapshotName, cfg.snapshotName),
                    drops0, p.droplets, recs0, p.records, snaps0, p.snapshots)
    ensures p.projects == projs0
  {
    ghost var es2;
    err, es2 := RunUp(p, cfg, src);
    UpJoin(es1, es2, err, cfg, drops0, snaps0, projs0, src.snapshot, src.project, src.image);
    UpStateJoin(es1, es2, cfg, Some(src.snapshot), drops0, p.droplets, recs0, p.records, snaps0, p.snapshots);
    AppendRuns(t0, es1, es2);
    es := es1 + es2;
    assert p.trace == t0 + es;
  }

  /**
   * `up`: bring the droplet up from the snapshot with the calls `UpCalls`
   * states, stopping at the first failure, with the result `UpVerdict` states.
   */
  method Up(p: Account, cfg: UpConfig) returns (err: Option<Failure>, ghost es: seq<Entry>)
    modifies p
    ensures p.trace == old(p.trace) + es
    ensures
              && UpCalls(es, cfg, old(p.droplets), old(p.snapshots), old(p.projects))
              && StopsAtFirstFailure(es)
              && UpVerdict(es, err, cfg, old(p.droplets), old(p.snapshots), old(p.projects))
    // Nothing changes before the create, the fourth call; once it succeeded, the new droplet
    // is listed last; the record is added by the seventh call; the snapshot is deleted only
    // by the eighth, after it.
    ensures UpState(es, 3, cfg, FirstNamed(old(p.snapshots), SnapshotName, cfg.snapshotName),
                    old(p.droplets), p.droplets, old(p.records), p.records, old(p.snapshots), p.snapshots)
    ensures p.projects == old(p.projects)
  {
    var checked;
    ghost var es1;
    checked, es1 := CheckUp(p, cfg);
    if checked.Failure? {
      CheckUpFailure(es1, cfg, old(p.droplets), old(p.snapshots), old(p.projects));
      UpStateBeforeCreate(es1, 3, cfg, FirstNamed(old(p.snapshots), SnapshotName, cfg.snapshotName),
                          p.droplets, p.records, p.snapshots);
      err, es := Some(checked.error), es1;
      return;
    }
    err, es := UpPastGuards(p, cfg, checked.value, es1, old(p.droplets), old(p.snapshots), old(p.projects),
                            old(p.records), old(p.trace));
  }

  /**
   * The guards of `down`: find the droplet and no snapshot of the target
   * name; the first that fails is the error.
   */
  method CheckDown(p: Account, cfg: DownConfig) returns (r: Result<Droplet, Failure>, ghost es: seq<Entry>)
    modifies p
    ensures p.trace == old(p.trace) + es
    ensures var found := FirstNamed(old(p.droplets), DropletName, cfg.dropletName);
              && 0 < |es| <= 2
              && es[0].call == List(DropletList)
              && (|es| > 1 <==> Succeeded(es[0]) && found.Some?)
              && (|es| > 1 ==> es[1].call == List(SnapshotList))
              && (r.Success? <==> |es| == 2 && Succeeded(es[1]) && DownGuards(cfg, old(p.droplets), old(p.snapshots)))
              && (r.Success? ==> r.value == found.value)
              && (r.Failure? && !Succeeded(Last(es)) ==> r.error == Blame(Last(es).call, Last(es).outcome.cause, cfg.hostName))
              && (r.Failure? && Succeeded(Last(es)) ==> DownCheckFailure(es, r.error, cfg, old(p.droplets)))
    ensures p.droplets == old(p.droplets) && p.snapshots == old(p.snapshots)
    ensures p.projects == old(p.projects) && p.records == old(p.records)
  {
    ghost var t0 := p.trace;
    var foundDroplet := FindDroplet(p, cfg.dropletName);
    es := [Last(p.trace)];
    assert p.trace == t0 + es;
    if foundDroplet.Failure? {
      r := Failure(foundDroplet.error);
      return;
    }
    if foundDroplet.value.None? {
      r := Failure(DropletMissing(cfg.dropletName));
      return;
    }
    var droplet := foundDroplet.value.value;

    var foundSnapshot := FindSnapshot(p, cfg.snapshotName);
    AppendRuns(t0, es, [Last(p.trace)]);
    es := es + [Last(p.trace)];
    assert p.trace == t0 + es;
    if foundSnapshot.Failure? {
      r := Failure(foundSnapshot.error);
      return;
    }
    if foundSnapshot.value.Some? {
      r := Failure(SnapshotExists(cfg.snapshotName));
      return;
    }
    r := Success(droplet);
  }

  /**
   * The DNS cleanup at the end of `down`: list the domain's records and
   * delete the first whose name plus the domain is the host, if there is one.
   */
  method RemoveHostRecord(p: Account, domain: string, host: string) returns (err: Option<Failure>, ghost es: seq<Entry>)
    modifies p
    ensures p.trace == old(p.trace) + es
    ensures var id := MatchingId(RecordsOf(old(p.records), domain), domain, host);
              && 0 < |es| <= 2
              && es[0].call == List(RecordList(domain))
              && (|es| > 1 <==> Succeeded(es[0]) && id > -1)
              && (|es| > 1 ==> es[1].call == Call.DeleteRecord(domain, id))
              && (err.None? <==> Succeeded(Last(es)))
              && (err.Some? ==> err == Some(Blame(Last(es).call, Last(es).outcome.cause, host)))
    ensures var id := MatchingId(RecordsOf(old(p.records), domain), domain, host);
              |es| > 1 && Succeeded(es[1]) ==>
                forall i :: 0 <= i < |RecordsOf(p.records, domain)| ==> RecordsOf(p.records, domain)[i].id != id
    ensures var id := MatchingId(RecordsOf(old(p.records), domain), domain, host);
              |es| > 1 && Succeeded(es[1]) ==> p.records == RecordsWithout(old(p.records), domain, id)
    ensures !(|es| > 1 && Succeeded(es[1])) ==> p.records == old(p.records)
    ensures p.droplets == old(p.droplets) && p.snapshots == old(p.snapshots) && p.projects == old(p.projects)
  {
    ghost var t0 := p.trace;
    var recs := p.ListRecords(domain);
    es := [Last(p.trace)];
    assert p.trace == t0 + es;
    if recs.Failure? {
      err := Some(RecordsUnavailable);
      assert Last(es).call == List(RecordList(domain));
      return;
    }
    var recId := FindRecordId(recs.value, domain, host);
    if recId > -1 {
      var deleted := p.DeleteRecord(domain, recId);
      AppendRuns(t0, es, [Last(p.trace)]);
      es := es + [Last(p.trace)];
      assert p.trace == t0 + es;
      if deleted.Failure? {
        err := Some(DeleteRecordFailed(host));
        assert Last(es).call == Call.DeleteRecord(domain, recId);
        return;
      }
    }
    err := None;
  }

  /**
   * Delete droplet `d` and check, by listing the droplets again, that no
   * droplet with the configured name is left.
   */
  method RetireDroplet(p: Account, cfg: DownConfig, d: Droplet) returns (err: Option<Failure>, ghost es: seq<Entry>)
    modifies p
    ensures p.trace == old(p.trace) + es
    ensures && 0 < |es| <= 2
            && es[0].call == Call.DeleteDroplet(d.id)
            && (|es| > 1 <==> Succeeded(es[0]))
            && (|es| > 1 ==> es[1].call == List(DropletList))
            && (err.None? <==> |es| == 2 && Succeeded(es[1]) && FirstNamed(p.droplets, DropletName, cfg.dropletName).None?)
            && (!Succeeded(Last(es)) ==> err == Some(Blame(Last(es).call, Last(es).outcome.cause, cfg.hostName)))
            && (Succeeded(Last(es)) && err.Some? ==> |es| == 2 && err == Some(DropletStillExists))
    ensures !Succeeded(es[0]) ==> p.droplets == old(p.droplets)
    ensures Succeeded(es[0]) ==> p.droplets == DropletsWithout(old(p.droplets), d.id)
    ensures p.records == old(p.records) && p.snapshots == old(p.snapshots) && p.projects == old(p.projects)
  {
    ghost var t0 := p.trace;
    var deleted := p.DeleteDroplet(d.id);
    es := [Last(p.trace)];
    assert p.trace == t0 + es;
    if deleted.Failure? {
      err := Some(DeleteDropletFailed(deleted.error));
      assert Last(es).call == Call.DeleteDroplet(d.id);
      return;
    }

    var gone := FindDroplet(p, cfg.dropletName);
    AppendRuns(t0, es, [Last(p.trace)]);
    es := es + [Last(p.trace)];
    assert p.trace == t0 + es;
    if gone.Failure? {
      err := Some(gone.error);
      assert Last(es).call == List(DropletList);
      return;
    }
    if gone.value.Some? {
      err := Some(DropletStillExists);
      return;
    }
    err := None;
  }

  /**
   * The last part of `down` on droplet `d`, once the snapshot is listed:
   * delete the droplet, check it is gone, remove the host's record.
   */
  method Teardown(p: Account, cfg: DownConfig, d: Droplet) returns (err: Option<Failure>, ghost es: seq<Entry>)
    modifies p
    ensures p.trace == old(p.trace) + es
    ensures var rec := RecordToDelete(cfg, old(p.records));
              && TeardownSteps(es, cfg, d, old(p.records), p.droplets)
              && (err.None? <==> |es| == 3 + (if rec > -1 then 1 else 0) && Succeeded(Last(es)))
              && (!Succeeded(Last(es)) ==> err == Some(Blame(Last(es).call, Last(es).outcome.cause, cfg.hostName)))
              && (Succeeded(Last(es)) && err.Some? ==> |es| == 2 && err == Some(DropletStillExists))
    ensures !Succeeded(es[0]) ==> p.droplets == old(p.droplets)
    ensures Succeeded(es[0]) ==> p.droplets == DropletsWithout(old(p.droplets), d.id)
    ensures var rec := RecordToDelete(cfg, old(p.records));
              |es| > 3 && Succeeded(es[3]) ==>
                forall i :: 0 <= i < |RecordsOf(p.records, cfg.domainName)| ==>
                  RecordsOf(p.records, cfg.domainName)[i].id != rec
    ensures !(|es| > 3 && Succeeded(es[3])) ==> p.records == old(p.records)
    ensures |es| > 3 && Succeeded(es[3]) ==>
              p.records == RecordsWithout(old(p.records), cfg.domainName, RecordToDelete(cfg, old(p.records)))
    ensures p.snapshots == old(p.snapshots) && p.projects == old(p.projects)
  {
    ghost var t0 := p.trace;
    ghost var records0 := p.records;
    err, es := RetireDroplet(p, cfg, d);
    if err.Some? {
      return;
    }
    ghost var es2;
    err, es2 := RemoveHostRecord(p, cfg.domainName, cfg.hostName);
    AppendRuns(t0, es, es2);
    assert p.trace == t0 + (es + es2);
    TeardownJoin(es, es2, err, cfg, d, records0, p.droplets);
    es := es + es2;
  }

  /**
   * The last part of `Teardown`: after a deleted droplet that is no longer
   * listed, the calls of `RemoveHostRecord` complete `TeardownSteps`.
   */
  lemma TeardownJoin(head: seq<Entry>, es2: seq<Entry>, err: Option<Failure>, cfg: DownConfig, d: Droplet,
                     records: map<string, seq<Record>>, dropsAfter: seq<Droplet>)
    requires |head| == 2 && Succeeded(head[0]) && Succeeded(head[1])
    requires head[0].call == Call.DeleteDroplet(d.id) && head[1].call == List(DropletList)
    requires FirstNamed(dropsAfter, DropletName, cfg.dropletName).None?
    requires var id := MatchingId(RecordsOf(records, cfg.domainName), cfg.domainName, cfg.hostName);
              && 0 < |es2| <= 2
              && es2[0].call == List(RecordList(cfg.domainName))
              && (|es2| > 1 <==> Succeeded(es2[0]) && id > -1)
              && (|es2| > 1 ==> es2[1].call == Call.DeleteRecord(cfg.domainName, id))
              && (err.None? <==> Succeeded(Last(es2)))
              && (err.Some? ==> err == Some(Blame(Last(es2).call, Last(es2).outcome.cause, cfg.hostName)))
    ensures var es := head + es2;
            var rec := RecordToDelete(cfg, records);
              && TeardownSteps(es, cfg, d, records, dropsAfter)
              && (err.None? <==> |es| == 3 + (if rec > -1 then 1 else 0) && Succeeded(Last(es)))
              && (!Succeeded(Last(es)) ==> err == Some(Blame(Last(es).call, Last(es).outcome.cause, cfg.hostName)))
              && (Succeeded(Last(es)) ==> err.None?)
              && (|es| > 3 && Succeeded(es[3]) <==> |es2| > 1 && Succeeded(es2[1]))
  {
    var es := head + es2;
    assert es[0] == head[0] && es[1] == head[1] && es[2..] == es2;
    assert Last(es) == Last(es2);
  }

  /**
   * The shutdown in `down`: a droplet that is not "off" is shut down and
   * the shutdown action waited for; the wait's result is ignored.
   */
  method StopDroplet(p: Account, d: Droplet) returns (err: Option<Failure>, ghost es: seq<Entry>)
    modifies p
    ensures p.trace == old(p.trace) + es
    ensures && |es| <= 2
            && (es == [] <==> d.status == "off")
            && (es != [] ==> es[0].call == Call.Shutdown(d.id) && (|es| > 1 <==> Succeeded(es[0])))
            && (|es| > 1 ==> es[0].outcome.Issued? && es[1].call == WaitAction(d.id, es[0].outcome.id))
            && (err.None? <==> |es| == ShutdownCalls(d))
            && (err.Some? ==> |es| == 1 && err == Some(ShutdownFailed(es[0].outcome.cause)))
    ensures p.droplets == old(p.droplets) && p.snapshots == old(p.snapshots)
    ensures p.projects == old(p.projects) && p.records == old(p.records)
  {
    es := [];
    err := None;
    if d.status != "off" {
      ghost var t0 := p.trace;
      var shutdown := p.Shutdown(d.id);
      es := [Last(p.trace)];
      assert p.trace == t0 + es;
      if shutdown.Failure? {
        err := Some(ShutdownFailed(shutdown.error));
        return;
      }
      var _ := WaitFor(p, d.id, shutdown.value);
      AppendRuns(t0, es, [Last(p.trace)]);
      es := es + [Last(p.trace)];
    }
  }

  /**
   * The snapshot in `down`: take it, wait for the action (ignoring the
   * wait's result), and check that it is listed.
   */
  method TakeSnapshot(p: Account, cfg: DownConfig, d: Droplet) returns (err: Option<Failure>, ghost es: seq<Entry>)
    modifies p
    ensures p.trace == old(p.trace) + es
    ensures && 0 < |es| <= 3
            && es[0].call == SnapshotAction(d.id, cfg.snapshotName)
            && (|es| > 1 <==> Succeeded(es[0]))
            && (|es| > 1 ==> es[0].outcome.Issued? && es[1].call == WaitAction(d.id, es[0].outcome.id))
            && (|es| > 1 ==> |es| == 3 && es[2].call == List(SnapshotList))
            && StopsAtFirstFailureIgnoringWaits(es)
            && (err.None? <==> |es| == 3 && Succeeded(es[2]) && FirstNamed(p.snapshots, SnapshotName, cfg.snapshotName).Some?)
            && (!Succeeded(Last(es)) ==> err == Some(Blame(Last(es).call, Last(es).outcome.cause, cfg.hostName)))
            && (Succeeded(Last(es)) && err.Some? ==> |es| == 3 && err == Some(SnapshotUnverified(cfg.snapshotName)))
    ensures SnapshotFrame(Succeeded(es[0]), cfg.snapshotName, old(p.snapshots), p.snapshots)
    ensures p.droplets == old(p.droplets) && p.records == old(p.records) && p.projects == old(p.projects)
  {
    ghost var t0 := p.trace;
    var snapshotAction := p.SnapshotDroplet(d.id, cfg.snapshotName);
    es := [Last(p.trace)];
    assert p.trace == t0 + es;
    if snapshotAction.Failure? {
      err := Some(SnapshotActionFailed(snapshotAction.error));
      assert Last(es).call == SnapshotAction(d.id, cfg.snapshotName);
      return;
    }
    var _ := WaitFor(p, d.id, snapshotAction.value);
    AppendRuns(t0, es, [Last(p.trace)]);
    es := es + [Last(p.trace)];
    assert p.trace == t0 + es;

    var recheck := FindSnapshot(p, cfg.snapshotName);
    AppendRuns(t0, es, [Last(p.trace)]);
    es := es + [Last(p.trace)];
    assert p.trace == t0 + es;
    if recheck.Failure? {
      err := Some(recheck.error);
      assert Last(es).call == List(SnapshotList);
      return;
    }
    if recheck.value.None? {
      err := Some(SnapshotUnverified(cfg.snapshotName));
      return;
    }
    err := None;
  }

  /**
   * The first part of `down` on droplet `d`: shut it down unless it is
   * "off", take the snapshot, and check that the snapshot is listed. The
   * two waits' results are ignored.
   */
  method SnapshotDown(p: Account, cfg: DownConfig, d: Droplet) returns (err: Option<Failure>, ghost es: seq<Entry>)
    modifies p
    ensures p.trace == old(p.trace) + es
    ensures var k := ShutdownCalls(d);
              && SnapshotSteps(es, cfg, d)
              && StopsAtFirstFailureIgnoringWaits(es)
              && (err.None? <==>
                    |es| == k + 3 && Succeeded(es[k + 2]) && FirstNamed(p.snapshots, SnapshotName, cfg.snapshotName).Some?)
              && (!Succeeded(Last(es)) ==> err == Some(Blame(Last(es).call, Last(es).outcome.cause, cfg.hostName)))
              && (Succeeded(Last(es)) && err.Some? ==> |es| == k + 3 && err == Some(SnapshotUnverified(cfg.snapshotName)))
    ensures SnapshotFrame(|es| > ShutdownCalls(d) && Succeeded(es[ShutdownCalls(d)]), cfg.snapshotName,
                          old(p.snapshots), p.snapshots)
    ensures p.droplets == old(p.droplets) && p.records == old(p.records) && p.projects == old(p.projects)
  {
    ghost var es1;
    err, es1 := StopDroplet(p, d);
    if err.Some? {
      es := es1;
      return;
    }
    ghost var es2;
    err, es2 := TakeSnapshot(p, cfg, d);
    SnapshotJoin(es1, es2, err, cfg, d, p.snapshots);
    AppendRuns(old(p.trace), es1, es2);
    es := es1 + es2;
    assert es[ShutdownCalls(d)] == es2[0];
  }

  /**
   * The teardown of `down` once the snapshot steps `es1` ended with the
   * snapshot listed: the calls of `Teardown`, stated for the whole run `es1`
   * followed by the calls made here, under either stop rule `es1` keeps.
   */
  method TeardownAfterSnapshot(p: Account, cfg: DownConfig, d: Droplet, ghost es1: seq<Entry>,
                               ghost drops0: seq<Droplet>, ghost snaps0: seq<Snapshot>,
                               ghost recs0: map<string, seq<Record>>, ghost t0: seq<Entry>)
      returns (err: Option<Failure>, ghost es: seq<Entry>)
    modifies p
    requires drops0 == p.droplets && recs0 == p.records
    requires |es1| == ShutdownCalls(d) + 3 && SnapshotSteps(es1, cfg, d) && Succeeded(Last(es1))
    requires FirstNamed(p.snapshots, SnapshotName, cfg.snapshotName).Some?
    requires SnapshotFrame(|es1| > ShutdownCalls(d) && Succeeded(es1[ShutdownCalls(d)]), cfg.snapshotName,
                           snaps0, p.snapshots)
    requires p.trace == t0 + es1
    ensures p.trace == t0 + es
    ensures
              && DownSteps(es, cfg, d, recs0, p.snapshots, p.droplets)
              && (err.None? <==> |es| == DownLength(cfg, d, recs0) && Succeeded(Last(es)))
              && (!Succeeded(Last(es)) ==> err == Some(Blame(Last(es).call, Last(es).outcome.cause, cfg.hostName)))
              && (Succeeded(Last(es)) && err.Some? ==> |es| == ShutdownCalls(d) + 5 && err == Some(DropletStillExists))
              && (StopsAtFirstFailure(es1) ==> StopsAtFirstFailure(es))
              && (StopsAtFirstFailureIgnoringWaits(es1) ==> StopsAtFirstFailureIgnoringWaits(es))
    ensures DownState(es, 0, cfg, d, drops0, p.droplets, recs0, p.records, snaps0, p.snapshots)
    ensures p.projects == old(p.projects)
  {
    ghost var es2;
    err, es2 := Teardown(p, cfg, d);
    DownJoin(es1, es2, err, cfg, d, recs0, p.snapshots, p.droplets);
    DownStateJoin(es1, es2, cfg, d, drops0, p.droplets, recs0, p.records, snaps0, p.snapshots);
    AppendRuns(t0, es1, es2);
    es := es1 + es2;
    assert p.trace == t0 + es;
  }

  /**
   * The effects of `down` on droplet `d` once its guards pass: the
   * snapshot of `SnapshotDown`, then, once it is listed, `Teardown`.
   */
  method RunDown(p: Account, cfg: DownConfig, d: Droplet) returns (err: Option<Failure>, ghost es: seq<Entry>)
    modifies p
    ensures p.trace == old(p.trace) + es
    // The calls of `DownSteps`, the result of `StepsVerdict`, and failed waits do not stop it.
    ensures StepsVerdict(es, err, cfg, d, old(p.records), p.snapshots, p.droplets)
    ensures StopsAtFirstFailureIgnoringWaits(es)
    // The snapshot taken, the droplet deleted and the host's record removed, each once its call succeeded.
    ensures DownState(es, 0, cfg, d, old(p.droplets), p.droplets, old(p.records), p.records, old(p.snapshots), p.snapshots)
    ensures p.projects == old(p.projects)
  {
    ghost var es1;
    err, es1 := SnapshotDown(p, cfg, d);
    if err.Some? {
      es := es1;
      DownStateBeforeTeardown(es, cfg, d, p.droplets, p.records, old(p.snapshots), p.snapshots);
      return;
    }
    err, es := TeardownAfterSnapshot(p, cfg, d, es1, old(p.droplets), old(p.snapshots), old(p.records), old(p.trace));
  }

  /**
   * `down` once its guard listings `es1` passed and found droplet `d`: the
   * steps of `RunDown`, stated for the whole run `es1` followed by the calls
   * made here.
   */
  method DownPastGuards(p: Account, cfg: DownConfig, d: Droplet, ghost es1: seq<Entry>,
                        ghost drops0: seq<Droplet>, ghost snaps0: seq<Snapshot>, ghost recs0: map<string, seq<Record>>,
                        ghost t0: seq<Entry>)
      returns (err: Option<Failure>, ghost es: seq<Entry>)
    modifies p
    requires drops0 == p.droplets && snaps0 == p.snapshots && recs0 == p.records && p.trace == t0 + es1
    requires |es1| == 2 && Succeeded(es1[0]) && Succeeded(es1[1])
    requires es1[0].call == List(DropletList) && es1[1].call == List(SnapshotList)
    requires DownGuards(cfg, drops0, snaps0)
    requires d == FirstNamed(drops0, DropletName, cfg.dropletName).value
    ensures p.trace == t0 + es
    ensures
              && DownCalls(es, cfg, drops0, snaps0, recs0, p.snapshots, p.droplets)
              && StopsAtFirstFailureIgnoringWaits(es)
              && DownResult(es, err, cfg, drops0, recs0)
    ensures err.None? ==>
              && FirstNamed(p.snapshots, SnapshotName, cfg.snapshotName).Some?
              && FirstNamed(p.droplets, DropletName, cfg.dropletName).None?
    ensures DownState(es, 2, cfg, FirstNamed(drops0, DropletName, cfg.dropletName).value,
                      drops0, p.droplets, recs0, p.records, snaps0, p.snapshots)
    ensures p.projects == old(p.projects)
  {
    ghost var es2;
    err, es2 := RunDown(p, cfg, d);
    DownGuardsJoin(es1, es2, err, cfg, d, drops0, snaps0, recs0, p.snapshots, p.droplets);
    DownStateShift(es1, es2, cfg, d, drops0, p.droplets, recs0, p.records, snaps0, p.snapshots);
    AppendRuns(t0, es1, es2);
    es := es1 + es2;
    assert p.trace == t0 + es;
  }

  /**
   * When a guard of `down` stops it, the guard listings are the whole of
   * `DownCalls` and they stop at the first failure; swallowing a failed
   * first listing gives the result `DownResult` states, and exiting on
   * every failure the end `DownExit` states.
   */
  lemma GuardFailureResult(es: seq<Entry>, f: Failure, err: Option<Failure>, cfg: DownConfig,
                           drops: seq<Droplet>, snaps: seq<Snapshot>, records: map<string, seq<Record>>,
                           snapsAfter: seq<Snapshot>, dropsAfter: seq<Droplet>)
    requires var found := FirstNamed(drops, DropletName, cfg.dropletName);
              && 0 < |es| <= 2
              && es[0].call == List(DropletList)
              && (|es| > 1 <==> Succeeded(es[0]) && found.Some?)
              && (|es| > 1 ==> es[1].call == List(SnapshotList))
              && !(|es| == 2 && Succeeded(es[1]) && DownGuards(cfg, drops, snaps))
              && (!Succeeded(Last(es)) ==> f == Blame(Last(es).call, Last(es).outcome.cause, cfg.hostName))
              && (Succeeded(Last(es)) ==> DownCheckFailure(es, f, cfg, drops))
    requires err == if ListFailure(f, Droplets) then None else Some(f)
    ensures DownCalls(es, cfg, drops, snaps, records, snapsAfter, dropsAfter)
    ensures StopsAtFirstFailureIgnoringWaits(es) && StopsAtFirstFailure(es)
    ensures DownResult(es, err, cfg, drops, records)
    ensures DownExit(es, Some(f), cfg, drops, records)
  {
    assert ListFailure(f, Droplets) <==> |es| == 1 && !Succeeded(es[0]);
  }

  /**
   * `down`: take the droplet down into a snapshot with the calls
   * `DownCalls` states, with the result `DownResult` states: failed waits
   * do not stop it, and a failed first listing ends it without an error.
   */
  method Down(p: Account, cfg: DownConfig) returns (err: Option<Failure>, ghost es: seq<Entry>)
    modifies p
    ensures p.trace == old(p.trace) + es
    ensures
              && DownCalls(es, cfg, old(p.droplets), old(p.snapshots), old(p.records), p.snapshots, p.droplets)
              && StopsAtFirstFailureIgnoringWaits(es)
              && DownResult(es, err, cfg, old(p.droplets), old(p.records))
    // Nothing changes unless both guard listings succeeded and both guards hold.
    ensures |es| <= 2 ==> p.droplets == old(p.droplets) && p.snapshots == old(p.snapshots) && p.records == old(p.records)
    // A success that got past the guards leaves the snapshot listed and the droplet gone.
    ensures err.None? && |es| > 1 ==>
                && FirstNamed(p.snapshots, SnapshotName, cfg.snapshotName).Some?
                && FirstNamed(p.droplets, DropletName, cfg.dropletName).None?
    // Past the guards: the snapshot taken, the droplet deleted and the host's record removed,
    // each once its call succeeded, and nothing else changed.
    ensures |es| > 2 ==>
              DownState(es, 2, cfg, FirstNamed(old(p.droplets), DropletName, cfg.dropletName).value,
                        old(p.droplets), p.droplets, old(p.records), p.records, old(p.snapshots), p.snapshots)
    ensures p.projects == old(p.projects)
  {
    var checked;
    ghost var es1;
    checked, es1 := CheckDown(p, cfg);
    if checked.Failure? {
      // A listing error of the first `findDroplet` is swallowed.
      err := if ListFailure(checked.error, Droplets) then None else Some(checked.error);
      GuardFailureResult(es1, checked.error, err, cfg, old(p.droplets), old(p.snapshots), old(p.records), p.snapshots, p.droplets);
      es := es1;
      return;
    }
    err, es := DownPastGuards(p, cfg, checked.value, es1, old(p.droplets), old(p.snapshots), old(p.records), old(p.trace));
  }
}
