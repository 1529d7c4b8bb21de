/** The metadata sync protocol of `stardustlib/sync_client.py`: any number of
    devices, each with a table, physical files, a few download tasks and one
    upload slot, and a server that keeps one table with a version and
    compare-and-swap. Every network exchange is split at its awaits. */
module Protocol {
  import opened Rows
  import opened Numbers
  import opened Merge

  /** A download in flight: the version the status call reported, and when, then
      the blob, which may be newer (`_download_and_merge`, lines 863-907). */
  datatype Task = Idle | StatusRead(v: nat, at: real) | BlobRead(v: nat, w: nat, at: real)

  /** What a download knows is within what the server has, and in order. */
  predicate TaskSound(k: Task, size: nat) {
    match k
    case Idle => true
    case StatusRead(v, _) => v < size
    case BlobRead(v, w, _) => v <= w < size
  }

  /** An upload in flight (`upload_metadata` and `_force_upload`). `paths` is the
      snapshot of pending files that a positive reply flips to synced. */
  datatype Slot =
    | Free
    | Snapped(paths: set<string>)
    | Sent(paths: set<string>, force: bool, base: nat, table: Table, bases: map<string, int>, seen: nat)
    | Accepted(paths: set<string>, force: bool, version: nat)

  /** `bases`, `seen` and `syncedAt` are history: the server version each row was
      last adopted from (0 for none), the newest server table merged or
      uploaded, and the time the last completed download asked for the status. */
  datatype Device = Device(
    local: Local, last: nat, slot: Slot, tasks: map<int, Task>,
    bases: map<string, int>, seen: nat, syncedAt: real)

  /** `hist[v]` is the server table at version `v`. `log` records the content
      the server first accepted for each path and row version, `names` the paths
      conflict copies were given, `keys` which device made which physical file. */
  datatype State = State(
    hist: seq<Table>, log: map<(string, int), Content>, devs: map<string, Device>,
    names: set<string>, keys: map<Key, string>, now: real)

  datatype Action =
    | Write(d: string, p: string, key: Key, size: nat)
    | Remove(d: string, p: string)
    | Move(d: string, p: string, dst: string)
    | ReadStatus(d: string, i: int)
    | UpToDate(d: string, i: int)
    | Abandon(d: string, i: int)
    | ReadBlob(d: string, i: int)
    | ReadInitial(d: string, i: int)
    | MergeBlob(d: string, i: int, order: seq<string>, nm: Naming)
    | Snapshot(d: string)
    | Send(d: string)
    | ForceSend(d: string)
    | Accept(d: string)
    | Refuse(d: string)
    | Fail(d: string)
    | Ack(d: string)
    | LoseReply(d: string)
    | Collect(d: string, victims: set<Key>)
    | PurgeTombstones(d: string, retention: real)
    | Tick(t: real)

  function Current(hist: seq<Table>): Table
    requires hist != []
  {
    hist[|hist| - 1]
  }

  function TaskOf(v: Device, i: int): Task {
    if i in v.tasks then v.tasks[i] else Idle
  }

  function BaseOf(bases: map<string, int>, p: string): int {
    if p in bases then bases[p] else 0
  }

  /* The local operations, stardustlib/jbod_manager.py lines 210-421. */

  /** `write_file`: overwrite in place, take over a file another device owns, or
      create. `key` is the fresh physical path of the last two. */
  function WriteLocal(l: Local, d: string, p: string, key: Key, size: nat, now: real): Local {
    if Live(l.rows, p) then
      if OwnedBy(l.rows[p], Some(d)) then
        Local(Update(l.rows, p, size, now, Some(d), None), l.files + {KeyOf(l.rows[p])})
      else
        Local(Update(l.rows, p, size, now, Some(d), Some(key)), l.files + {key})
    else
      Local(Insert(l.rows, p, key, size, now, now, Some(d)), l.files + {key})
  }

  /** `delete_file`: files of other devices are only marked. */
  function RemoveLocal(l: Local, d: string, p: string, now: real): Local {
    Local(Delete(l.rows, p, now),
          if p in l.rows && OwnedBy(l.rows[p], Some(d)) then l.files - {KeyOf(l.rows[p])} else l.files)
  }

  /** A row that changed at a path the server has was adopted from the server. */
  ghost function BasesAfterMerge(t: Table, t': Table, s: Table, bases: map<string, int>): map<string, int> {
    map p | p in t' :: if p in s && RowAt(t, p) != RowAt(t', p) then s[p].version else BaseOf(bases, p)
  }

  function LogTable(log: map<(string, int), Content>, t: Table): map<(string, int), Content> {
    (map p | p in t :: (p, t[p].version) := ContentOf(t[p])) + log
  }

  /** Whether device `v` can take step `a` while the server holds `hist`. */
  ghost predicate Can(hist: seq<Table>, v: Device, a: Action) {
    match a
    case Remove(d, p) => Live(v.local.rows, p)
    case Move(d, p, dst) => Live(v.local.rows, p) && RenamePath(v.local.rows, p, dst).Some?
    case ReadStatus(d, i) => TaskOf(v, i).Idle?
    case UpToDate(d, i) => TaskOf(v, i).StatusRead? && 0 < TaskOf(v, i).v <= v.last
    case ReadBlob(d, i) => TaskOf(v, i).StatusRead?
    case ReadInitial(d, i) => TaskOf(v, i).Idle?
    case MergeBlob(d, i, order, nm) =>
      TaskOf(v, i).BlobRead? && 0 < TaskOf(v, i).w < |hist| && Enumerates(order, hist[TaskOf(v, i).w])
    case Snapshot(d) => v.slot.Free? && PendingPaths(v.local.rows) != {}
    case Send(d) => v.slot.Snapped?
    case ForceSend(d) => v.slot.Free?
    case Accept(d) => v.slot.Sent? && (v.slot.force || v.slot.base == |hist| - 1)
    case Refuse(d) => v.slot.Sent? && !v.slot.force && v.slot.base != |hist| - 1
    case Fail(d) => v.slot.Sent? || v.slot.Snapped?
    case Ack(d) => v.slot.Accepted?
    case LoseReply(d) => v.slot.Accepted?
    case _ => true
  }

  ghost predicate Enabled(s: State, a: Action) {
    s.hist != [] && if a.Tick? then s.now <= a.t else a.d in s.devs && Can(s.hist, s.devs[a.d], a)
  }

  function Later(a: real, b: real): real {
    if a < b then b else a
  }

  /** Merging the blob a download task brought. */
  ghost function MergeDevice(hist: seq<Table>, v: Device, i: int, order: seq<string>, nm: Naming): Device {
    match TaskOf(v, i)
    case BlobRead(last, w, at) =>
      var h := if w < |hist| then hist[w] else map[];
      var local := MergeRows(v.local, h, order, nm);
      v.(local := local, last := last, tasks := v.tasks[i := Idle],
         bases := BasesAfterMerge(v.local.rows, local.rows, h, v.bases),
         seen := Max(v.seen, w), syncedAt := Later(v.syncedAt, at))
    case _ => v
  }

  /** One step of device `v`, whose id is `a.d`. The server is read, never
      written; what is not enabled is never asked for. */
  ghost function StepDevice(s: State, v: Device, a: Action): Device
    requires s.hist != []
  {
    var cur := |s.hist| - 1;
    match a
    case Write(d, p, key, size) =>
      v.(local := WriteLocal(v.local, d, p, key, size, s.now), bases := v.bases[p := BaseOf(v.bases, p)])
    case Remove(d, p) =>
      v.(local := RemoveLocal(v.local, d, p, s.now), bases := v.bases[p := BaseOf(v.bases, p)])
    case Move(d, p, dst) =>
      var t := RenamePath(v.local.rows, p, dst);
      if t.Some? then v.(local := v.local.(rows := t.value), bases := (v.bases - {p})[dst := 0]) else v
    case ReadStatus(d, i) => v.(tasks := v.tasks[i := StatusRead(cur, s.now)])
    case UpToDate(d, i) =>
      if TaskOf(v, i).StatusRead? then v.(tasks := v.tasks[i := Idle], syncedAt := Later(v.syncedAt, TaskOf(v, i).at)) else v
    case Abandon(d, i) => v.(tasks := v.tasks[i := Idle])
    case ReadBlob(d, i) =>
      if TaskOf(v, i).StatusRead? then v.(tasks := v.tasks[i := BlobRead(TaskOf(v, i).v, cur, TaskOf(v, i).at)]) else v
    case ReadInitial(d, i) => v.(tasks := v.tasks[i := BlobRead(0, cur, s.now)])
    case MergeBlob(d, i, order, nm) => MergeDevice(s.hist, v, i, order, nm)
    case Snapshot(d) => v.(slot := Snapped(PendingPaths(v.local.rows)))
    case Send(d) =>
      if v.slot.Snapped? then v.(slot := Sent(v.slot.paths, false, v.last, v.local.rows, v.bases, v.seen)) else v
    case ForceSend(d) => v.(slot := Sent({}, true, 0, v.local.rows, v.bases, v.seen))
    case Accept(d) =>
      if v.slot.Sent? then v.(slot := Accepted(v.slot.paths, v.slot.force, cur + 1)) else v
    case Ack(d) => AckDevice(s.hist, v)
    case Refuse(d) => v.(slot := Free)
    case Fail(d) => v.(slot := Free)
    case LoseReply(d) => v.(slot := Free)
    case Collect(d, victims) =>
      v.(local := v.local.(files := v.local.files - (victims - LivePhysical(v.local.rows, d))))
    case PurgeTombstones(d, retention) =>
      var rows := Purge(v.local.rows, s.now - retention);
      v.(local := v.local.(rows := rows), bases := map p | p in rows :: BaseOf(v.bases, p))
    case Tick(t) => v
  }

  /** A positive reply: the new version is remembered and the snapshot, or for a
      forced upload whatever is pending now, becomes synced. */
  function AckDevice(hist: seq<Table>, v: Device): Device {
    match v.slot
    case Accepted(paths, force, n) =>
      var flipped := if force then PendingPaths(v.local.rows) else paths;
      var sent := if n < |hist| then hist[n] else map[];
      v.(local := v.local.(rows := MarkSynced(v.local.rows, flipped)), slot := Free, last := n,
         bases := v.bases + map p | p in sent :: sent[p].version,
         seen := Max(v.seen, n))
    case _ => v
  }

  ghost function Next(s: State, a: Action): State {
    if !Enabled(s, a) then s
    else if a.Tick? then s.(now := a.t)
    else
      var v := s.devs[a.d];
      var s' := s.(devs := s.devs[a.d := StepDevice(s, v, a)]);
      if a.Accept? && v.slot.Sent? then
        s'.(hist := s.hist + [v.slot.table], log := LogTable(s.log, v.slot.table))
      else if a.MergeBlob? then
        s'.(names := s.names + a.nm.originOf.Keys)
      else if a.Write? && a.key !in s.keys then
        s'.(keys := s.keys[a.key := a.d])
      else
        s'
  }

  ghost function After(s: State, run: seq<Action>): State {
    if run == [] then s else Next(After(s, run[..|run| - 1]), run[|run| - 1])
  }

  const NEW_DEVICE := Device(Local(map[], {}), 0, Free, map[], map[], 0, 0.0)

  /** Empty devices and a server without metadata, which counts as version 0. */
  ghost predicate Init(s: State) {
    && s.hist == [map[]] && s.log == map[] && s.names == {} && s.keys == map[] && s.now == 0.0
    && forall d | d in s.devs :: s.devs[d] == NEW_DEVICE
  }

  /** The shape of a step, without the details of the action. */
  lemma NextShape(s: State, a: Action)
    requires Enabled(s, a) && !a.Tick?
    ensures var s', v := Next(s, a), s.devs[a.d];
      && s'.devs == s.devs[a.d := StepDevice(s, v, a)]
      && (a.Accept? ==> v.slot.Sent? && s'.hist == s.hist + [v.slot.table] && s'.log == LogTable(s.log, v.slot.table))
      && (!a.Accept? ==> s'.hist == s.hist && s'.log == s.log)
      && s'.names == (if a.MergeBlob? then s.names + a.nm.originOf.Keys else s.names)
      && s'.keys == (if a.Write? && a.key !in s.keys then s.keys[a.key := a.d] else s.keys)
  {
    hide StepDevice, LogTable;
  }
}
