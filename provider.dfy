/**
 * The DigitalOcean account the workflows drive, reduced to what they read
 * and change. Every call may fail (the provider is outside the model, so
 * success is chosen nondeterministically); every call is appended to
 * `trace` together with how it ended.
 */
module Provider {
  import opened Wrappers

  datatype Droplet = Droplet(id: int, name: string, status: string, publicIPv4: Result<string, string>)

  datatype Snapshot = Snapshot(id: string, name: string)

  datatype Project = Project(id: string, name: string)

  datatype Record = Record(id: int, rtype: string, name: string, ttl: int, data: string)

  /** The collections the workflows list (one page each). */
  datatype Listed = DropletList | SnapshotList | ProjectList | RecordList(domain: string)

  /** A call issued to the provider, with the arguments the workflow passed. */
  datatype Call =
    | List(of: Listed)
    | Create(name: string, region: string, size: string, image: int)
    | WaitDroplet(dropletId: int, status: string)
    | Assign(projectId: string, dropletId: int)
    | CreateRecord(domain: string, rtype: string, recordName: string, ttl: int, data: string)
    | DeleteSnapshot(snapshotId: string)
    | Shutdown(dropletId: int)
    | SnapshotAction(dropletId: int, snapshotName: string)
    | WaitAction(dropletId: int, actionId: int)
    | DeleteDroplet(dropletId: int)
    | DeleteRecord(domain: string, recordId: int)

  /**
   * How a call ended: with the provider's error, successfully, successfully
   * returning the ID of the droplet or action it started, or, for a wait on
   * a droplet, successfully with the droplet's public IPv4 address or the
   * reason it has none.
   */
  datatype Outcome = Failed(cause: string) | Done | Issued(id: int) | Reached(address: Result<string, string>)

  /** One call in the trace, with its outcome. */
  datatype Entry = Entry(call: Call, outcome: Outcome)

  predicate Succeeded(e: Entry) {
    !e.outcome.Failed?
  }

  /** The outcome of a call whose result is `r`. */
  function OutcomeOf<T>(r: Result<T, string>): Outcome {
    if r.Success? then Done else Failed(r.error)
  }

  /** The outcome of a call that returns the ID of what it started. */
  function IssuedOf(r: Result<int, string>): Outcome {
    if r.Success? then Issued(r.value) else Failed(r.error)
  }

  /** The outcome of a wait whose result is the droplet `r`. */
  function ReachedOf(r: Result<Droplet, string>): Outcome {
    if r.Success? then Reached(r.value.publicIPv4) else Failed(r.error)
  }

  /** The elements of `xs` that `keep` accepts, in their order. */
  function Filter<T>(xs: seq<T>, keep: T -> bool): (r: seq<T>)
    ensures |r| <= |xs|
    ensures forall i :: 0 <= i < |r| ==> keep(r[i])
  {
    if xs == [] then []
    else (if keep(xs[0]) then [xs[0]] else []) + Filter(xs[1..], keep)
  }

  /** `Filter` keeps exactly the elements `keep` accepts: nothing else is lost and nothing is added. */
  lemma {:induction false} FilterExact<T>(xs: seq<T>, keep: T -> bool)
    ensures forall x :: x in Filter(xs, keep) <==> x in xs && keep(x)
  {
    if xs != [] {
      FilterExact(xs[1..], keep);
      assert xs == [xs[0]] + xs[1..];
    }
  }

  /** `snaps` without the snapshots whose ID is `id`. */
  function SnapshotsWithout(snaps: seq<Snapshot>, id: string): seq<Snapshot> {
    Filter(snaps, (s: Snapshot) => s.id != id)
  }

  /** `drops` without the droplets whose ID is `id`. */
  function DropletsWithout(drops: seq<Droplet>, id: int): seq<Droplet> {
    Filter(drops, (d: Droplet) => d.id != id)
  }

  /** `records` with the records whose ID is `id` removed from under `domain`. */
  function RecordsWithout(records: map<string, seq<Record>>, domain: string, id: int): map<string, seq<Record>> {
    records[domain := Filter(RecordsOf(records, domain), (x: Record) => x.id != id)]
  }

  class Account {
    var droplets: seq<Droplet>
    var snapshots: seq<Snapshot>
    var projects: seq<Project>
    /** DNS records per domain name; a domain the account does not hold is absent. */
    var records: map<string, seq<Record>>
    var trace: seq<Entry>

    constructor (droplets: seq<Droplet>, snapshots: seq<Snapshot>, projects: seq<Project>,
                 records: map<string, seq<Record>>)
      ensures this.droplets == droplets && this.snapshots == snapshots
      ensures this.projects == projects && this.records == records
      ensures trace == []
    {
      this.droplets := droplets;
      this.snapshots := snapshots;
      this.projects := projects;
      this.records := records;
      trace := [];
    }

    /** `Droplets.List` (one page). */
    method ListDroplets() returns (r: Result<seq<Droplet>, string>)
      modifies this
      ensures trace == old(trace) + [Entry(List(DropletList), OutcomeOf(r))]
      ensures r.Success? ==> r.value == droplets
      ensures droplets == old(droplets) && snapshots == old(snapshots)
      ensures projects == old(projects) && records == old(records)
    {
      var ok: bool := *;
      var cause: string := *;
      r := if ok then Success(droplets) else Failure(cause);
      trace := trace + [Entry(List(DropletList), OutcomeOf(r))];
    }

    /** `Snapshots.List` (one page). */
    method ListSnapshots() returns (r: Result<seq<Snapshot>, string>)
      modifies this
      ensures trace == old(trace) + [Entry(List(SnapshotList), OutcomeOf(r))]
      ensures r.Success? ==> r.value == snapshots
      ensures droplets == old(droplets) && snapshots == old(snapshots)
      ensures projects == old(projects) && records == old(records)
    {
      var ok: bool := *;
      var cause: string := *;
      r := if ok then Success(snapshots) else Failure(cause);
      trace := trace + [Entry(List(SnapshotList), OutcomeOf(r))];
    }

    /** `Projects.List` (one page). */
    method ListProjects() returns (r: Result<seq<Project>, string>)
      modifies this
      ensures trace == old(trace) + [Entry(List(ProjectList), OutcomeOf(r))]
      ensures r.Success? ==> r.value == projects
      ensures droplets == old(droplets) && snapshots == old(snapshots)
      ensures projects == old(projects) && records == old(records)
    {
      var ok: bool := *;
      var cause: string := *;
      r := if ok then Success(projects) else Failure(cause);
      trace := trace + [Entry(List(ProjectList), OutcomeOf(r))];
    }

    /** `Domains.Records` (one page); fails for a domain the account does not hold. */
    method ListRecords(domain: string) returns (r: Result<seq<Record>, string>)
      modifies this
      ensures trace == old(trace) + [Entry(List(RecordList(domain)), OutcomeOf(r))]
      ensures r.Success? ==> domain in records && r.value == records[domain]
      ensures droplets == old(droplets) && snapshots == old(snapshots)
      ensures projects == old(projects) && records == old(records)
    {
      var ok: bool := *;
      var cause: string := *;
      r := if ok && domain in records then Success(records[domain]) else Failure(cause);
      trace := trace + [Entry(List(RecordList(domain)), OutcomeOf(r))];
    }

    /** `Droplets.Create` from an image: on success the new droplet is listed last. */
    method CreateDroplet(name: string, region: string, size: string, image: int)
      returns (r: Result<Droplet, string>)
      modifies this
      ensures trace == old(trace) + [Entry(Create(name, region, size, image), IssuedOf(IdOf(r)))]
      ensures r.Success? ==> r.value.name == name && r.value.status == "new" && droplets == old(droplets) + [r.value]
      ensures r.Failure? ==> droplets == old(droplets)
      ensures snapshots == old(snapshots) && projects == old(projects) && records == old(records)
    {
      var ok: bool := *;
      var cause: string := *;
      var id: int := *;
      var ip: Result<string, string> := *;
      if ok {
        var d := Droplet(id, name, "new", ip);
        droplets := droplets + [d];
        r := Success(d);
      } else {
        r := Failure(cause);
      }
      trace := trace + [Entry(Create(name, region, size, image), IssuedOf(IdOf(r)))];
    }

    /**
     * Polling `Droplets.Get` until the droplet has `status`, as one step:
     * either it reports the droplet in that status, or a fetch fails.
     */
    method AwaitDroplet(id: int, status: string) returns (r: Result<Droplet, string>)
      modifies this
      ensures trace == old(trace) + [Entry(WaitDroplet(id, status), ReachedOf(r))]
      ensures r.Success? ==> r.value.id == id && r.value.status == status
      ensures droplets == old(droplets) && snapshots == old(snapshots)
      ensures projects == old(projects) && records == old(records)
    {
      var ok: bool := *;
      var cause: string := *;
      var d: Droplet := *;
      r := if ok then Success(d.(id := id, status := status)) else Failure(cause);
      trace := trace + [Entry(WaitDroplet(id, status), ReachedOf(r))];
    }

    /** `Projects.AssignResources` of one droplet. */
    method AssignResources(projectId: string, dropletId: int) returns (r: Result<(), string>)
      modifies this
      ensures trace == old(trace) + [Entry(Assign(projectId, dropletId), OutcomeOf(r))]
      ensures droplets == old(droplets) && snapshots == old(snapshots)
      ensures projects == old(projects) && records == old(records)
    {
      var ok: bool := *;
      var cause: string := *;
      r := if ok then Success(()) else Failure(cause);
      trace := trace + [Entry(Assign(projectId, dropletId), OutcomeOf(r))];
    }

    /** `Domains.CreateRecord`: on success the record is listed last under its domain. */
    method CreateRecord(domain: string, rtype: string, name: string, ttl: int, data: string)
      returns (r: Result<Record, string>)
      modifies this
      ensures trace == old(trace) + [Entry(Call.CreateRecord(domain, rtype, name, ttl, data), OutcomeOf(r))]
      ensures r.Success? ==>
        && r.value.rtype == rtype && r.value.name == name && r.value.ttl == ttl && r.value.data == data
        && records == old(records)[domain := RecordsOf(old(records), domain) + [r.value]]
      ensures r.Failure? ==> records == old(records)
      ensures droplets == old(droplets) && snapshots == old(snapshots) && projects == old(projects)
    {
      var ok: bool := *;
      var cause: string := *;
      var id: int := *;
      if ok {
        var rec := Record(id, rtype, name, ttl, data);
        records := records[domain := RecordsOf(records, domain) + [rec]];
        r := Success(rec);
      } else {
        r := Failure(cause);
      }
      trace := trace + [Entry(Call.CreateRecord(domain, rtype, name, ttl, data), OutcomeOf(r))];
    }

    /** `Snapshots.Delete`: on success no snapshot with that ID is listed any more. */
    method DeleteSnapshot(id: string) returns (r: Result<(), string>)
      modifies this
      ensures trace == old(trace) + [Entry(Call.DeleteSnapshot(id), OutcomeOf(r))]
      ensures r.Success? ==> snapshots == SnapshotsWithout(old(snapshots), id)
      ensures r.Failure? ==> snapshots == old(snapshots)
      ensures droplets == old(droplets) && projects == old(projects) && records == old(records)
    {
      var ok: bool := *;
      var cause: string := *;
      if ok {
        snapshots := SnapshotsWithout(snapshots, id);
        r := Success(());
      } else {
        r := Failure(cause);
      }
      trace := trace + [Entry(Call.DeleteSnapshot(id), OutcomeOf(r))];
    }

    /** `DropletActions.Shutdown`: returns the ID of the started action. */
    method Shutdown(dropletId: int) returns (r: Result<int, string>)
      modifies this
      ensures trace == old(trace) + [Entry(Call.Shutdown(dropletId), IssuedOf(r))]
      ensures droplets == old(droplets) && snapshots == old(snapshots)
      ensures projects == old(projects) && records == old(records)
    {
      var ok: bool := *;
      var cause: string := *;
      var action: int := *;
      r := if ok then Success(action) else Failure(cause);
      trace := trace + [Entry(Call.Shutdown(dropletId), IssuedOf(r))];
    }

    /**
     * `DropletActions.Snapshot`: returns the ID of the started action. The
     * snapshot may or may not be listed yet when the call returns.
     */
    method SnapshotDroplet(dropletId: int, name: string) returns (r: Result<int, string>)
      modifies this
      ensures trace == old(trace) + [Entry(SnapshotAction(dropletId, name), IssuedOf(r))]
      ensures r.Failure? ==> snapshots == old(snapshots)
      ensures r.Success? ==>
        || snapshots == old(snapshots)
        || (&& |snapshots| == |old(snapshots)| + 1
            && snapshots[..|old(snapshots)|] == old(snapshots)
            && snapshots[|old(snapshots)|].name == name)
      ensures droplets == old(droplets) && projects == old(projects) && records == old(records)
    {
      var ok: bool := *;
      var cause: string := *;
      var action: int := *;
      var listed: bool := *;
      var id: string := *;
      if ok {
        if listed {
          snapshots := snapshots + [Snapshot(id, name)];
        }
        r := Success(action);
      } else {
        r := Failure(cause);
      }
      trace := trace + [Entry(SnapshotAction(dropletId, name), IssuedOf(r))];
    }

    /**
     * Polling `DropletActions.Get` until the action is "completed", as one
     * step: either it completes, or a fetch fails.
     */
    method AwaitAction(dropletId: int, actionId: int) returns (r: Result<(), string>)
      modifies this
      ensures trace == old(trace) + [Entry(WaitAction(dropletId, actionId), OutcomeOf(r))]
      ensures droplets == old(droplets) && snapshots == old(snapshots)
      ensures projects == old(projects) && records == old(records)
    {
      var ok: bool := *;
      var cause: string := *;
      r := if ok then Success(()) else Failure(cause);
      trace := trace + [Entry(WaitAction(dropletId, actionId), OutcomeOf(r))];
    }

    /** `Droplets.Delete`: on success no droplet with that ID is listed any more. */
    method DeleteDroplet(id: int) returns (r: Result<(), string>)
      modifies this
      ensures trace == old(trace) + [Entry(Call.DeleteDroplet(id), OutcomeOf(r))]
      ensures r.Success? ==> droplets == DropletsWithout(old(droplets), id)
      ensures r.Failure? ==> droplets == old(droplets)
      ensures snapshots == old(snapshots) && projects == old(projects) && records == old(records)
    {
      var ok: bool := *;
      var cause: string := *;
      if ok {
        droplets := DropletsWithout(droplets, id);
        r := Success(());
      } else {
        r := Failure(cause);
      }
      trace := trace + [Entry(Call.DeleteDroplet(id), OutcomeOf(r))];
    }

    /** `Domains.DeleteRecord`: on success no record with that ID is listed under the domain. */
    method DeleteRecord(domain: string, id: int) returns (r: Result<(), string>)
      modifies this
      ensures trace == old(trace) + [Entry(Call.DeleteRecord(domain, id), OutcomeOf(r))]
      ensures r.Success? ==> records == RecordsWithout(old(records), domain, id)
      ensures r.Failure? ==> records == old(records)
      ensures droplets == old(droplets) && snapshots == old(snapshots) && projects == old(projects)
    {
      var ok: bool := *;
      var cause: string := *;
      if ok {
        records := RecordsWithout(records, domain, id);
        r := Success(());
      } else {
        r := Failure(cause);
      }
      trace := trace + [Entry(Call.DeleteRecord(domain, id), OutcomeOf(r))];
    }
  }

  /** The ID of a created droplet, or the error of the failed create. */
  function IdOf(r: Result<Droplet, string>): Result<int, string> {
    if r.Success? then Success(r.value.id) else Failure(r.error)
  }

  /** The records listed under `domain`, none if the account does not hold it. */
  function RecordsOf(records: map<string, seq<Record>>, domain: string): seq<Record> {
    if domain in records then records[domain] else []
  }
}
