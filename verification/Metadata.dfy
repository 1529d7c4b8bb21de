/** `stardustlib/metadata_store.py`: the row table and the directory table. */
module Metadata {
  import opened Rows

  class MetadataStore {
    var rows: Table
    /** Explicit directories and their creation times. */
    var directories: map<string, real>

    constructor ()
      ensures rows == map[] && directories == map[]
    {
      rows, directories := map[], map[];
    }

    method Insert(p: string, key: Key, size: nat, created: real, modified: real, device: Option<string>)
      modifies this`rows
      ensures rows == Rows.Insert(old(rows), p, key, size, created, modified, device)
    {
      if p in rows {
        rows := rows[p := rows[p].(sourceId := key.0, physicalPath := key.1, fileSize := size, createdAt := created,
                                   modifiedAt := modified, version := rows[p].version + 1, status := Pending,
                                   deleted := false, deviceId := device)];
        return;
      }
      rows := rows[p := Row(key.0, key.1, size, created, modified, 1, device, Pending, false)];
    }

    method Update(p: string, size: nat, modified: real, device: Option<string>, key: Option<Key>)
      modifies this`rows
      ensures rows == Rows.Update(old(rows), p, size, modified, device, key)
    {
      if p !in rows {
        return;
      }
      var row := rows[p].(fileSize := size, modifiedAt := modified, version := rows[p].version + 1, status := Pending);
      if device.Some? {
        row := row.(deviceId := device);
      }
      if key.Some? {
        row := row.(sourceId := key.value.0, physicalPath := key.value.1);
      }
      rows := rows[p := row];
    }

    method Delete(p: string, now: real)
      modifies this`rows
      ensures rows == Rows.Delete(old(rows), p, now)
    {
      if p in rows {
        rows := rows[p := rows[p].(deleted := true, version := rows[p].version + 1, status := Pending, modifiedAt := now)];
      }
    }

    /** `purge_expired_tombstones`: the number of rows removed. */
    method PurgeExpiredTombstones(now: real, retention: real) returns (removed: nat)
      modifies this`rows
      ensures rows == Rows.Purge(old(rows), now - retention)
      ensures removed == |old(rows)| - |rows|
      ensures forall p :: p in rows <==> p in old(rows) && !(old(rows)[p].deleted && old(rows)[p].modifiedAt < now - retention)
      ensures forall p | p in rows :: rows[p] == old(rows)[p]
    {
      var kept := Rows.Purge(rows, now - retention);
      SubsetCardinality(kept.Keys, rows.Keys);
      removed := |rows.Keys| - |kept.Keys|;
      rows := kept;
    }

    method Lookup(p: string) returns (row: Option<Row>)
      ensures row == Rows.Lookup(rows, p)
    {
      row := if p in rows && !rows[p].deleted then Some(rows[p]) else None;
    }

    method LookupAny(p: string) returns (row: Option<Row>)
      ensures row.Some? <==> p in rows
      ensures row.Some? ==> row.value == rows[p]
    {
      row := if p in rows then Some(rows[p]) else None;
    }

    method SetSyncStatus(p: string, status: SyncStatus)
      modifies this`rows
      ensures rows == Rows.SetStatus(old(rows), p, status)
    {
      if p in rows {
        rows := rows[p := rows[p].(status := status)];
      }
    }

    method GetPendingFiles() returns (paths: set<string>)
      ensures paths == PendingPaths(rows)
    {
      paths := set p | p in rows && rows[p].status.Pending?;
    }

    method LivePhysicalPathsForDevice(device: string) returns (keys: set<Key>)
      ensures keys == LivePhysical(rows, device)
    {
      keys := set p | p in rows && !rows[p].deleted && (rows[p].deviceId == None || rows[p].deviceId == Some(device)) ::
        (rows[p].sourceId, rows[p].physicalPath);
    }

    /** `rename_path`: `ok` is false when the path column's uniqueness is violated. */
    method RenamePath(src: string, dst: string) returns (ok: bool)
      modifies this`rows
      ensures ok <==> Rows.RenamePath(old(rows), src, dst).Some?
      ensures rows == if ok then Rows.RenamePath(old(rows), src, dst).value else old(rows)
    {
      if src !in rows {
        return true;
      }
      if dst in rows && dst != src {
        return false;
      }
      var row := rows[src];
      rows := (rows - {src})[dst := row];
      ok := true;
    }

    method InsertDirectory(p: string, created: real)
      modifies this`directories
      ensures directories == if p in old(directories) then old(directories) else old(directories)[p := created]
    {
      if p !in directories {
        directories := directories[p := created];
      }
    }

    method DeleteDirectoryEntry(p: string)
      modifies this`directories
      ensures directories == old(directories) - {p}
    {
      directories := directories - {p};
    }
  }

  lemma SubsetCardinality(a: set<string>, b: set<string>)
    requires a <= b
    ensures |a| <= |b|
  {
    assert b == a + (b - a);
  }
}
