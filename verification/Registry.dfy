/** Server records and their lifecycle statuses. */
module Registry {
  import opened Common

  datatype Status = Pending | Approved | Active | Stale | Expired

  datatype SyncState = Unacked | Acked

  datatype Record = Record(
    id: string,
    name: string,
    spiffe: string,
    tools: seq<string>,
    resources: seq<string>,
    status: Status,
    lastHeartbeat: Option<int>,
    epoch: int,
    hash: string,
    sync: SyncState)

  predicate Routable(status: Status) {
    status.Active?
  }
}
