/** What the table operations of `stardustlib/metadata_store.py` are for: an edit
    reaches every device that has not edited the same path itself. */
module Edits {
  import opened Rows
  import opened Merge

  /** `t'` differs from `t` at one path only. */
  predicate OnlyAt(t: Table, t': Table, p: string) {
    t' - {p} == t - {p}
  }

  /** The new row outlives a merge with the row it was edited from, replaces that
      row on every device that has it or an older one and has nothing of its own to
      upload, and is a conflict for devices that edited from no further. */
  ghost predicate Supersedes(was: Row, now: Row) {
    && now.status == Pending && Classify(Some(now), was) == KeepLocal
    && (forall l: Row | l.version <= was.version && l.status != Pending :: Classify(Some(l), now) == TakeServer)
    && (forall l: Row | l.version <= was.version + 1 && l.status == Pending :: Classify(Some(l), now) == ConflictCopy)
  }

  /** A path written again after its deletion beats the tombstone everywhere. */
  lemma RevivalBeatsDeletion(t: Table, p: string, key: Key, size: nat, created: real, modified: real, device: Option<string>)
    requires p in t
    ensures var t' := Insert(t, p, key, size, created, modified, device);
      OnlyAt(t, t', p) && Live(t', p) && KeyOf(t'[p]) == key && t'[p].deviceId == device && Supersedes(t[p], t'[p])
      && t'[p].fileSize == size && t'[p].createdAt == created && t'[p].modifiedAt == modified && t'[p].version == t[p].version + 1
  {
  }

  /** A new file reaches every device that does not know the path. */
  lemma NewFileReachesOthers(t: Table, p: string, key: Key, size: nat, created: real, modified: real, device: Option<string>, l: Local, name: string)
    requires p !in t && p !in l.rows
    ensures var t' := Insert(t, p, key, size, created, modified, device);
      OnlyAt(t, t', p) && Live(t', p) && IsPending(t', p)
      && t'[p].fileSize == size && t'[p].createdAt == created && t'[p].modifiedAt == modified
      && t'[p].version == 1 && KeyOf(t'[p]) == key && t'[p].deviceId == device
      && MergeOne(l, p, t'[p], name) == l.(rows := l.rows[p := t'[p].(status := Synced)])
  {
  }

  /** A new version of a file reaches the others, with the owner and the place it
      was given or had before. */
  lemma UpdateReachesOthers(t: Table, p: string, size: nat, modified: real, device: Option<string>, key: Option<Key>)
    requires p in t
    ensures var t' := Update(t, p, size, modified, device, key);
      && OnlyAt(t, t', p) && Supersedes(t[p], t'[p]) && (Live(t', p) <==> Live(t, p))
      && t'[p].deviceId == (if device.Some? then device else t[p].deviceId)
      && KeyOf(t'[p]) == (if key.Some? then key.value else KeyOf(t[p]))
      && t'[p].fileSize == size && t'[p].createdAt == t[p].createdAt && t'[p].modifiedAt == modified && t'[p].version == t[p].version + 1
  {
  }

  /** A deletion reaches the others, and takes the physical file with it on a device
      that has the row unchanged. */
  lemma DeletionReachesOthers(t: Table, p: string, now: real, l: Local, name: string)
    requires Live(t, p) && Live(l.rows, p) && l.rows[p].status != Pending && l.rows[p].version <= t[p].version
    ensures var t' := Delete(t, p, now);
      && OnlyAt(t, t', p) && Supersedes(t[p], t'[p])
      && t'[p].modifiedAt == now && t'[p].fileSize == t[p].fileSize && KeyOf(t'[p]) == KeyOf(t[p]) && t'[p].deviceId == t[p].deviceId
      && MergeOne(l, p, t'[p], name).files == l.files - {KeyOf(l.rows[p])} && !Live(MergeOne(l, p, t'[p], name).rows, p)
  {
  }

  /** After an accepted upload exactly the pending rows are synced, and nothing else
      about any row is different. */
  lemma UploadSettles(t: Table, p: string)
    ensures RowAt(MarkSynced(t, PendingPaths(t)), p) ==
      if p in t && t[p].status == Pending then Some(t[p].(status := Synced)) else RowAt(t, p)
  {
  }

  /** A rename fails iff another row has the new path. Otherwise it can be undone,
      and the same physical files are referenced. */
  lemma RenameThereAndBack(t: Table, src: string, dst: string, device: string)
    requires src in t
    ensures RenamePath(t, src, dst).None? <==> dst in t && dst != src
    ensures RenamePath(t, src, dst).Some? ==>
      && RenamePath(RenamePath(t, src, dst).value, dst, src) == Some(t)
      && LivePhysical(RenamePath(t, src, dst).value, device) == LivePhysical(t, device)
  {
    if dst !in t {
      var t' := RenamePath(t, src, dst).value;
      assert (t' - {dst})[src := t'[dst]] == t;
      forall k | k in LivePhysical(t, device) ensures k in LivePhysical(t', device) {
        var p :| p in t && !t[p].deleted && (t[p].deviceId == None || t[p].deviceId == Some(device)) && KeyOf(t[p]) == k;
        var q := if p == src then dst else p;
        assert q in t' && t'[q] == t[p];
      }
      forall k | k in LivePhysical(t', device) ensures k in LivePhysical(t, device) {
        var q :| q in t' && !t'[q].deleted && (t'[q].deviceId == None || t'[q].deviceId == Some(device)) && KeyOf(t'[q]) == k;
        var p := if q == dst then src else q;
        assert p in t && t[p] == t'[q];
      }
    } else if dst == src {
      assert (t - {src})[src := t[src]] == t;
    }
  }
}
