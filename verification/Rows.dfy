/** The rows of the metadata table and the table operations of
    `stardustlib/metadata_store.py`, as functions on values. */
module Rows {
  datatype Option<+T> = None | Some(value: T)

  datatype SyncStatus = Synced | Pending | Conflict

  /** One row of the `files` table, without its key, the virtual path. */
  datatype Row = Row(
    sourceId: string,
    physicalPath: string,
    fileSize: nat,
    createdAt: real,
    modifiedAt: real,
    version: int,
    deviceId: Option<string>,
    status: SyncStatus,
    deleted: bool)

  /** The table, keyed by the unique virtual path. */
  type Table = map<string, Row>

  /** Where a file lives on a device: source id and physical path. */
  type Key = (string, string)

  function KeyOf(r: Row): Key {
    (r.sourceId, r.physicalPath)
  }

  /** The columns a merge copies from one device to another. `createdAt` is not
      one of them: an update from the server leaves it alone. */
  datatype Content = Content(
    sourceId: string, physicalPath: string, fileSize: nat, modifiedAt: real,
    version: int, deviceId: Option<string>, deleted: bool)

  function ContentOf(r: Row): Content {
    Content(r.sourceId, r.physicalPath, r.fileSize, r.modifiedAt, r.version, r.deviceId, r.deleted)
  }

  predicate Live(t: Table, p: string) {
    p in t && !t[p].deleted
  }

  /** Owned by this device, or by nobody in particular. */
  predicate OwnedBy(r: Row, device: Option<string>) {
    r.deviceId == None || r.deviceId == device
  }

  function RowAt(t: Table, p: string): Option<Row> {
    if p in t then Some(t[p]) else None
  }

  predicate IsPending(t: Table, p: string) {
    p in t && t[p].status == Pending
  }

  function PendingPaths(t: Table): set<string> {
    set p | p in t && t[p].status == Pending
  }

  function Lookup(t: Table, p: string): Option<Row> {
    if Live(t, p) then Some(t[p]) else None
  }

  /** `insert`: a row that is already there is brought back to life. */
  function Insert(t: Table, p: string, key: Key, size: nat, created: real, modified: real, device: Option<string>): Table {
    if p in t then
      t[p := t[p].(sourceId := key.0, physicalPath := key.1, fileSize := size, createdAt := created,
                   modifiedAt := modified, version := t[p].version + 1, status := Pending,
                   deleted := false, deviceId := device)]
    else
      t[p := Row(key.0, key.1, size, created, modified, 1, device, Pending, false)]
  }

  /** `update`: absent arguments leave their column alone. */
  function Update(t: Table, p: string, size: nat, modified: real, device: Option<string>, key: Option<Key>): Table {
    if p in t then
      var r := t[p].(fileSize := size, modifiedAt := modified, version := t[p].version + 1, status := Pending);
      var r := if device.Some? then r.(deviceId := device) else r;
      t[p := if key.Some? then r.(sourceId := key.value.0, physicalPath := key.value.1) else r]
    else
      t
  }

  /** `delete`: the row stays as a tombstone. */
  function Delete(t: Table, p: string, now: real): Table {
    if p in t then
      t[p := t[p].(deleted := true, version := t[p].version + 1, status := Pending, modifiedAt := now)]
    else
      t
  }

  predicate Expired(r: Row, cutoff: real) {
    r.deleted && r.modifiedAt < cutoff
  }

  /** `purge_expired_tombstones`. */
  function Purge(t: Table, cutoff: real): Table {
    map p | p in t && !Expired(t[p], cutoff) :: t[p]
  }

  function SetStatus(t: Table, p: string, status: SyncStatus): Table {
    if p in t then t[p := t[p].(status := status)] else t
  }

  /** `rename_path`: fails when the new path is taken, tombstones included,
      because the column is unique. */
  function RenamePath(t: Table, src: string, dst: string): Option<Table> {
    if src !in t then Some(t)
    else if dst in t && dst != src then None
    else Some((t - {src})[dst := t[src]])
  }

  /** Flipping uploaded rows to synced. */
  function MarkSynced(t: Table, paths: set<string>): Table {
    map p | p in t :: if p in paths then t[p].(status := Synced) else t[p]
  }

  /** `live_physical_paths_for_device`: what orphan collection must keep. */
  function LivePhysical(t: Table, device: string): set<Key> {
    set p | p in t && !t[p].deleted && (t[p].deviceId == None || t[p].deviceId == Some(device)) :: KeyOf(t[p])
  }
}
