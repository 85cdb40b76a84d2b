/**
 * Why a workflow stops. In droplet.go each kind is the error value returned
 * (and, in bot mode, the text sent to the chat); in main.go the same points
 * are `log.Fatal` calls that end the process.
 */
module Failures {
  import opened Provider

  datatype Collection = Droplets | Snapshots | Projects

  datatype Failure =
    | ListFailed(collection: Collection, cause: string)
    | SnapshotMissing(name: string)
    | ProjectMissing(name: string)
    | DropletExists(name: string)
    | BadSnapshotId(id: string)
    | CreateFailed(cause: string)
    | DropletWaitFailed(cause: string)
    | AssignFailed(cause: string)
    | NoPublicIPv4(cause: string)
    | RecordCreateFailed(cause: string)
    | SnapshotDeleteFailed(cause: string)
    | DropletMissing(name: string)
    | SnapshotExists(name: string)
    | ShutdownFailed(cause: string)
    | ActionWaitFailed(cause: string)
    | SnapshotActionFailed(cause: string)
    | SnapshotUnverified(name: string)
    | DeleteDropletFailed(cause: string)
    | DropletStillExists
    | RecordsUnavailable
    | DeleteRecordFailed(host: string)

  function Plural(c: Collection): string {
    match c
    case Droplets => "droplets"
    case Snapshots => "snapshots"
    case Projects => "projects"
  }

  /**
   * The error text droplet.go builds for each failure (`err.Error()`), which
   * the bot forwards to the chat. No text is "Done!", the reply for success.
   */
  function Text(f: Failure): (r: string)
    ensures |r| > |"Done!"|
  {
    match f
    case ListFailed(c, cause) => "failed to get " + Plural(c) + ": " + cause
    case SnapshotMissing(name) => "failed to find snapshot: " + name
    case ProjectMissing(name) => "failed to find project: " + name
    case DropletExists(name) => "droplet already exists: " + name
    case BadSnapshotId(id) => "failed to convert snapshot ID: " + id
    case CreateFailed(cause) => "failed to create droplet: " + cause
    case DropletWaitFailed(cause) => "failed to get droplet: " + cause
    case AssignFailed(cause) => "failed to assign droplet to project " + cause
    case NoPublicIPv4(cause) => "failed to get public IPv4 of the droplet: " + cause
    case RecordCreateFailed(cause) => "failed to create 'A' record: " + cause
    case SnapshotDeleteFailed(cause) => "failed to delete snapshot: " + cause
    case DropletMissing(name) => "unable to find droplet: " + name
    case SnapshotExists(name) => "snapshot already exists: " + name
    case ShutdownFailed(cause) => "failed to shutdown droplet: " + cause
    case ActionWaitFailed(cause) => "failed to run action: " + cause
    case SnapshotActionFailed(cause) => "failed to create snapshot: " + cause
    case SnapshotUnverified(name) => "unable to find snapshot: " + name
    case DeleteDropletFailed(cause) => "unable to exterminate droplet: " + cause
    case DropletStillExists => "droplet still exists"
    case RecordsUnavailable => "failed to get domain records"
    case DeleteRecordFailed(host) => "failed to delete record: " + host
  }

  /**
   * The failure droplet.go reports when provider call `c` fails with
   * `cause`; `host` is the configured host name, which the record deletion
   * reports instead of the cause.
   */
  function Blame(c: Call, cause: string, host: string): Failure {
    match c
    case List(of) =>
      (match of
       case DropletList => ListFailed(Droplets, cause)
       case SnapshotList => ListFailed(Snapshots, cause)
       case ProjectList => ListFailed(Projects, cause)
       case RecordList(_) => RecordsUnavailable)
    case Create(_, _, _, _) => CreateFailed(cause)
    case WaitDroplet(_, _) => DropletWaitFailed(cause)
    case Assign(_, _) => AssignFailed(cause)
    case CreateRecord(_, _, _, _, _) => RecordCreateFailed(cause)
    case DeleteSnapshot(_) => SnapshotDeleteFailed(cause)
    case Shutdown(_) => ShutdownFailed(cause)
    case SnapshotAction(_, _) => SnapshotActionFailed(cause)
    case WaitAction(_, _) => ActionWaitFailed(cause)
    case DeleteDroplet(_) => DeleteDropletFailed(cause)
    case DeleteRecord(_, _) => DeleteRecordFailed(host)
  }
}
