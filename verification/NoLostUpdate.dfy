/** Every step of a clean run keeps the invariant, and what follows from it. */
module NoLostUpdate {
  import opened Rows
  import opened Numbers
  import opened Merge
  import opened Protocol
  import opened CleanRuns

  /* One device, one step. */

  /** Task bookkeeping alone. */
  lemma TasksChange(hist: seq<Table>, log: map<(string, int), Content>, names: set<string>, v: Device, v': Device)
    requires hist != [] && DeviceOk(hist, log, names, v)
    requires v' == v.(last := v'.last, tasks := v'.tasks, syncedAt := v'.syncedAt)
    requires v'.last <= v.seen && (forall i | i in v'.tasks :: TaskSound(v'.tasks[i], |hist|))
    ensures DeviceOk(hist, log, names, v')
  {
    hide TableOk, Behind, StillSent;
  }

  lemma TasksWereOk(hist: seq<Table>, log: map<(string, int), Content>, names: set<string>, v: Device)
    requires hist != [] && DeviceOk(hist, log, names, v)
    ensures forall i | i in v.tasks :: TaskSound(v.tasks[i], |hist|)
  {
    hide TableOk, Behind, SlotOk;
  }

  /** New rows while no upload that can still succeed is under way. */
  lemma NewsChange(hist: seq<Table>, log: map<(string, int), Content>, names: set<string>, v: Device, v': Device)
    requires hist != []
    requires v.slot.Free? || v.slot.Snapped? || (v.slot.Sent? && v.slot.base < |hist| - 1)
    requires v.slot.Snapped? ==> PendingPaths(v.local.rows) <= v.slot.paths <= v.local.rows.Keys
    requires v.slot.Sent? ==> v.slot.base <= v.seen && (v.slot.force ==> v.slot.base == 0)
    requires v'.slot == v.slot && v'.last <= v'.seen < |hist| && v.seen <= v'.seen && (forall i | i in v'.tasks :: TaskSound(v'.tasks[i], |hist|))
    requires TableOk(log, names, v'.local.rows, v'.bases) && Behind(hist[v'.seen], v'.local.rows)
    requires PendingPaths(v'.local.rows) <= PendingPaths(v.local.rows) && v.local.rows.Keys <= v'.local.rows.Keys
    ensures DeviceOk(hist, log, names, v')
  {
    hide TableOk, Behind, Flight;
  }

  lemma PatchedDevice(hist: seq<Table>, v: Device, i: int, order: seq<string>, nm: Naming)
    requires TaskOf(v, i).BlobRead? && TaskOf(v, i).w < |hist|
    requires FreshNames(v.local.rows, hist[TaskOf(v, i).w], nm) && Enumerates(order, hist[TaskOf(v, i).w])
    ensures var h := hist[TaskOf(v, i).w]; var local := MergeLocal(v.local, h, h.Keys, nm);
      MergeDevice(hist, v, i, order, nm) == v.(
        local := local, last := TaskOf(v, i).v, tasks := v.tasks[i := Idle],
        bases := BasesAfterMerge(v.local.rows, local.rows, h, v.bases),
        seen := Max(v.seen, TaskOf(v, i).w), syncedAt := Later(v.syncedAt, TaskOf(v, i).at))
  {
    hide MergeRows, FreshNames, Enumerates, MergeLocal, BasesAfterMerge;
    MergeOrderIrrelevant(v.local, hist[TaskOf(v, i).w], order, nm);
  }

  lemma MergeStaleOk(hist: seq<Table>, log: map<(string, int), Content>, names: set<string>, v: Device,
                     i: int, order: seq<string>, nm: Naming)
    requires ServerOk(hist, log) && DeviceOk(hist, log, names, v)
    requires TaskOf(v, i).BlobRead? && TaskOf(v, i).w <= v.seen
    requires FreshNames(v.local.rows, hist[TaskOf(v, i).w], nm) && Enumerates(order, hist[TaskOf(v, i).w])
    ensures DeviceOk(hist, log, names + nm.originOf.Keys, MergeDevice(hist, v, i, order, nm))
  {
    var h := hist[TaskOf(v, i).w];
    assert Grows(h, hist[v.seen]);
    assert Behind(hist[v.seen], v.local.rows) && TableOk(log, names, v.local.rows, v.bases);
    hide ServerOk, FreshNames, Enumerates, MergeLocal, MergeDevice, Behind, TableOk, Grows, SlotOk, BasesAfterMerge;
    PatchedDevice(hist, v, i, order, nm);
    StaleMerge(hist[v.seen], h, v.local, nm);
    BasesUnmoved(log, names, v.local.rows, h, v.bases);
    var names' := names + nm.originOf.Keys;
    assert DeviceOk(hist, log, names', v) by {
      LogReflexive(log);
      DeviceGrows(hist, hist, log, log, names, names', v);
    }
    TasksWereOk(hist, log, names', v);
    TasksChange(hist, log, names', v, MergeDevice(hist, v, i, order, nm));
  }

  lemma LogReflexive(log: map<(string, int), Content>)
    ensures LogGrows(log, log)
  {
  }

  lemma BasesUnmoved(log: map<(string, int), Content>, names: set<string>, t: Table, h: Table, bases: map<string, int>)
    requires TableOk(log, names, t, bases)
    ensures BasesAfterMerge(t, t, h, bases) == bases
  {
  }

  lemma MergeNewsOk(hist: seq<Table>, log: map<(string, int), Content>, names: set<string>, v: Device,
                    i: int, order: seq<string>, nm: Naming)
    requires ServerOk(hist, log) && DeviceOk(hist, log, names, v)
    requires TaskOf(v, i).BlobRead? && v.seen < TaskOf(v, i).w && NotOwnUpload(v.slot, TaskOf(v, i).w)
    requires TaskOf(v, i).w < |hist|
    requires FreshNames(v.local.rows, hist[TaskOf(v, i).w], nm) && Enumerates(order, hist[TaskOf(v, i).w])
    requires KnownTombstones(v.local.rows, hist[TaskOf(v, i).w])
    ensures DeviceOk(hist, log, names + nm.originOf.Keys, MergeDevice(hist, v, i, order, nm))
  {
    var h := hist[TaskOf(v, i).w];
    assert Logged(h, log);
    VersionsPositive(hist, log);
    assert v.slot.Free? || v.slot.Snapped? || (v.slot.Sent? && v.slot.base < |hist| - 1);
    TasksWereOk(hist, log, names, v);
    assert TableOk(log, names, v.local.rows, v.bases) && v.last <= v.seen;
    assert v.slot.Snapped? ==> PendingPaths(v.local.rows) <= v.slot.paths <= v.local.rows.Keys;
    assert v.slot.Sent? ==> v.slot.base <= v.seen && (v.slot.force ==> v.slot.base == 0);
    hide DeviceOk, SlotOk, NotOwnUpload, InferredBase;
    hide ServerOk, FreshNames, Enumerates, MergeTable, MergeDevice, Behind, TableOk, Flight, KnownTombstones, Logged,
      BasesAfterMerge, PendingPaths;
    PatchedDevice(hist, v, i, order, nm);
    TableMerged(log, names, h, v.local.rows, v.bases, nm);
    MergeKeepsPaths(v.local.rows, h, nm);
    NewsChange(hist, log, names + nm.originOf.Keys, v, MergeDevice(hist, v, i, order, nm));
  }

  lemma MergeKeepsPaths(t: Table, h: Table, nm: Naming)
    ensures t.Keys <= MergeTable(t, h, h.Keys, nm).Keys
  {
  }

  lemma AckOk(hist: seq<Table>, log: map<(string, int), Content>, names: set<string>, v: Device)
    requires ServerOk(hist, log) && DeviceOk(hist, log, names, v) && v.slot.Accepted?
    ensures DeviceOk(hist, log, names, AckDevice(hist, v))
  {
    assert Logged(hist[v.slot.version], log);
    hide ServerOk, TableOk, Behind, Flight, Logged;
    assert forall k | k in log :: 1 <= k.1 by { VersionsPositive(hist, log); }
    TableAcked(hist, log, names, v);
  }

  lemma VersionsPositive(hist: seq<Table>, log: map<(string, int), Content>)
    requires ServerOk(hist, log)
    ensures forall k | k in log :: 1 <= k.1
  {
  }

  lemma SlotChange(hist: seq<Table>, log: map<(string, int), Content>, names: set<string>, v: Device, slot: Slot)
    requires hist != [] && DeviceOk(hist, log, names, v)
    requires slot.Sent? ==> slot.base <= v.seen && (slot.force ==> slot.base == 0)
    requires SlotOk(hist, log, names, v.(slot := slot))
    ensures DeviceOk(hist, log, names, v.(slot := slot))
  {
    hide TableOk, Behind, SlotOk;
  }

  lemma SendOk(hist: seq<Table>, log: map<(string, int), Content>, names: set<string>, v: Device)
    requires hist != [] && DeviceOk(hist, log, names, v)
    ensures v.slot.Snapped? ==>
      DeviceOk(hist, log, names, v.(slot := Sent(v.slot.paths, false, v.last, v.local.rows, v.bases, v.seen)))
    ensures DeviceOk(hist, log, names, v.(slot := Sent({}, true, 0, v.local.rows, v.bases, v.seen)))
  {
    var t := v.local.rows;
    assert TableOk(log, names, t, v.bases) && Behind(hist[v.seen], t);
    if v.slot.Snapped? {
      assert Flight(v.(slot := Sent(v.slot.paths, false, v.last, t, v.bases, v.seen)), v.slot.paths, false, t);
    }
    assert Flight(v.(slot := Sent({}, true, 0, t, v.bases, v.seen)), {}, true, t);
    assert forall p | p in t :: p in v.bases;
    hide TableOk, Behind, Flight, DeviceOk;
    if v.slot.Snapped? {
      SlotChange(hist, log, names, v, Sent(v.slot.paths, false, v.last, t, v.bases, v.seen));
    }
    SlotChange(hist, log, names, v, Sent({}, true, 0, t, v.bases, v.seen));
  }

  lemma SentFacts(hist: seq<Table>, log: map<(string, int), Content>, names: set<string>, v: Device)
    requires hist != [] && DeviceOk(hist, log, names, v) && v.slot.Sent? && v.slot.base == |hist| - 1
    ensures TableOk(log, names, v.slot.table, v.slot.bases) && Behind(Current(hist), v.slot.table)
    ensures Flight(v.(slot := Free), v.slot.paths, v.slot.force, v.slot.table) && v.seen == |hist| - 1
    ensures forall p | p in v.slot.table :: 1 <= v.slot.table[p].version
  {
    RowVersionsPositive(log, names, v.slot.table, v.slot.bases);
  }

  lemma ServerFacts(hist: seq<Table>, log: map<(string, int), Content>)
    requires ServerOk(hist, log)
    ensures Logged(Current(hist), log)
    ensures forall k | k in log :: k.0 in Current(hist) && 1 <= k.1 <= Current(hist)[k.0].version
  {
  }

  lemma AcceptOk(hist: seq<Table>, log: map<(string, int), Content>, names: set<string>, v: Device)
    requires ServerOk(hist, log) && DeviceOk(hist, log, names, v)
    requires v.slot.Sent? && v.slot.base == |hist| - 1
    requires forall p | p in v.slot.table && p in names && BaseOf(v.slot.bases, p) == 0 :: p !in Current(hist)
    ensures FastForward(Current(hist), v.slot.table, v.slot.bases)
    ensures var hist', log' := hist + [v.slot.table], LogTable(log, v.slot.table);
      && ServerOk(hist', log') && LogGrows(log, log')
      && DeviceOk(hist', log', names, v.(slot := Accepted(v.slot.paths, v.slot.force, |hist|)))
  {
    hide Logged, Behind, LogTable, FastForward, ServerOk, DeviceOk, RowOk, LogGrows, StillSent;
    var t := v.slot.table;
    var hist', log' := hist + [t], LogTable(log, t);
    SentFacts(hist, log, names, v);
    ServerFacts(hist, log);
    UploadIsFastForward(log, names, Current(hist), t, v.slot.bases);
    ServerExtended(hist, log, t, v.slot.bases);
    DeviceGrows(hist, hist', log, log', names, names, v);
    hide TableOk;
    SlotChange(hist', log', names, v, Accepted(v.slot.paths, v.slot.force, |hist|));
  }

  lemma RowVersionsPositive(log: map<(string, int), Content>, names: set<string>, t: Table, bases: map<string, int>)
    requires TableOk(log, names, t, bases)
    ensures forall p | p in t :: 1 <= t[p].version
  {
    forall p | p in t ensures 1 <= t[p].version {
      assert RowOk(log, names, p, t[p], bases[p]);
    }
  }

  /* The step relation, action by action. */

  ghost predicate Stepped(s: State, a: Action)
    requires s.hist != [] && (a.Tick? || a.d in s.devs)
  {
    !a.Tick? ==>
      DeviceOk(s.hist, s.log, if a.MergeBlob? then s.names + a.nm.originOf.Keys else s.names, StepDevice(s, s.devs[a.d], a))
  }

  lemma EditShape(s: State, a: Action)
    requires Enabled(s, a) && Clean(s, a) && (a.Write? || a.Remove?)
    ensures var v, v' := s.devs[a.d], StepDevice(s, s.devs[a.d], a);
      && v' == v.(local := v'.local, bases := v.bases[a.p := BaseOf(v.bases, a.p)])
      && EditedAt(v.local.rows, v'.local.rows, a.p)
      && EditAllowed(v, a.p) && (a.p !in v.local.rows ==> a.p !in s.names)
  {
    var v := s.devs[a.d];
    hide EditedAt, WriteLocal, RemoveLocal;
    if a.Write? { WriteEdits(v.local, a.d, a.p, a.key, a.size, s.now); }
    else { RemoveEdits(v.local, a.d, a.p, s.now); }
  }

  lemma EditSteps(s: State, a: Action)
    requires Inv(s) && Enabled(s, a) && Clean(s, a) && (a.Write? || a.Remove?)
    ensures Stepped(s, a)
  {
    hide DeviceOk, ServerOk, PrivateOk, EditedAt, EditAllowed, Can, Careful, StepDevice;
    EditShape(s, a);
    EditOk(s.hist, s.log, s.names, s.devs[a.d], StepDevice(s, s.devs[a.d], a), a.p);
  }

  lemma MergeSteps(s: State, a: Action)
    requires Inv(s) && Enabled(s, a) && Clean(s, a) && a.MergeBlob?
    ensures Stepped(s, a)
  {
    var v := s.devs[a.d];
    assert DeviceOk(s.hist, s.log, s.names, v);
    hide DeviceOk, ServerOk, PrivateOk, FreshNames, KnownTombstones, Enumerates, FreshEverywhere, MergeDevice;
    if TaskOf(v, a.i).w <= v.seen {
      MergeStaleOk(s.hist, s.log, s.names, v, a.i, a.order, a.nm);
    } else {
      MergeNewsOk(s.hist, s.log, s.names, v, a.i, a.order, a.nm);
    }
  }

  lemma TaskSteps(s: State, a: Action)
    requires Inv(s) && Enabled(s, a) && (a.ReadStatus? || a.UpToDate? || a.Abandon? || a.ReadBlob? || a.ReadInitial?)
    ensures Stepped(s, a)
  {
    var v := s.devs[a.d];
    assert DeviceOk(s.hist, s.log, s.names, v) && v.last <= v.seen;
    hide DeviceOk, ServerOk, PrivateOk;
    TasksWereOk(s.hist, s.log, s.names, v);
    TasksChange(s.hist, s.log, s.names, v, StepDevice(s, v, a));
  }

  lemma SlotSteps(s: State, a: Action)
    requires Inv(s) && Enabled(s, a) && (a.Snapshot? || a.Refuse? || a.Fail?)
    ensures Stepped(s, a)
  {
    var v := s.devs[a.d];
    assert DeviceOk(s.hist, s.log, s.names, v);
    hide DeviceOk, ServerOk, PrivateOk, Enabled;
    var v' := StepDevice(s, v, a);
    assert v' == v.(slot := if a.Snapshot? then Snapped(PendingPaths(v.local.rows)) else Free);
    SlotChange(s.hist, s.log, s.names, v, v'.slot);
  }

  lemma SendSteps(s: State, a: Action)
    requires Inv(s) && Enabled(s, a) && (a.Send? || a.ForceSend? || a.Ack?)
    ensures Stepped(s, a)
  {
    var v := s.devs[a.d];
    assert DeviceOk(s.hist, s.log, s.names, v);
    assert a.Send? ==> v.slot.Snapped?;
    assert a.Ack? ==> v.slot.Accepted?;
    hide DeviceOk, ServerOk, PrivateOk, Enabled, AckDevice;
    if a.Ack? {
      AckOk(s.hist, s.log, s.names, v);
    } else {
      SendOk(s.hist, s.log, s.names, v);
    }
  }

  lemma StepOk(s: State, a: Action)
    requires Inv(s) && Enabled(s, a) && Clean(s, a) && !a.Accept?
    ensures Stepped(s, a)
  {
    if a.Write? || a.Remove? { EditSteps(s, a); }
    else if a.MergeBlob? { MergeSteps(s, a); }
    else if a.ReadStatus? || a.UpToDate? || a.Abandon? || a.ReadBlob? || a.ReadInitial? { TaskSteps(s, a); }
    else if a.Snapshot? || a.Refuse? || a.Fail? { SlotSteps(s, a); }
    else if a.Send? || a.ForceSend? || a.Ack? { SendSteps(s, a); }
    else if a.Collect? {
      assert DeviceOk(s.hist, s.log, s.names, s.devs[a.d]);
      hide DeviceOk, Enabled, ServerOk, PrivateOk;
      FilesChange(s.hist, s.log, s.names, s.devs[a.d], StepDevice(s, s.devs[a.d], a));
    }
  }

  lemma FilesChange(hist: seq<Table>, log: map<(string, int), Content>, names: set<string>, v: Device, v': Device)
    requires hist != [] && DeviceOk(hist, log, names, v)
    requires v' == v.(local := v.local.(files := v'.local.files))
    ensures DeviceOk(hist, log, names, v')
  {
    hide TableOk, Behind, StillSent;
  }

  /* Conflict copies stay private until they are uploaded. */

  /** What of the device invariant privacy rests on. */
  ghost predicate Tidy(s: State) {
    && s.hist != []
    && forall d | d in s.devs ::
      && s.devs[d].bases.Keys == s.devs[d].local.rows.Keys
      && (s.devs[d].slot.Accepted? ==> s.devs[d].slot.version < |s.hist|)
  }

  lemma InvIsTidy(s: State)
    requires Inv(s)
    ensures Tidy(s)
  {
    forall d | d in s.devs
      ensures s.devs[d].slot.Accepted? ==> s.devs[d].slot.version < |s.hist|
      ensures s.devs[d].bases.Keys == s.devs[d].local.rows.Keys
    {
      assert DeviceOk(s.hist, s.log, s.names, s.devs[d]);
      hide ServerOk, PrivateOk, Behind;
    }
  }

  /** `d` took a step after which its private paths were private before, or are
      in `added`; paths it gained come from the server, `added` or `made`. */
  lemma PrivacyKept(s: State, s': State, d: string, added: set<string>, made: set<string>)
    requires Tidy(s) && s'.hist != [] && PrivateOk(s) && d in s.devs && d in s'.devs
    requires s'.devs == s.devs[d := s'.devs[d]]
    requires s.hist <= s'.hist && s'.names == s.names + added && made !! s'.names
    requires forall c | c in added :: c !in s.names && c !in Current(s'.hist) && forall e | e in s.devs :: c !in s.devs[e].local.rows
    requires Current(s'.hist).Keys <= Current(s.hist).Keys + s.devs[d].local.rows.Keys
    requires s'.devs[d].local.rows.Keys <= s.devs[d].local.rows.Keys + Current(s.hist).Keys + added + made
    requires forall p | Private(s', d, p) :: (Private(s, d, p) && p !in Current(s'.hist)) || p in added
    ensures PrivateOk(s')
  {
    forall e, p | e in s'.devs && Private(s', e, p)
      ensures p !in Current(s'.hist) && forall f | f in s'.devs && f != e :: p !in s'.devs[f].local.rows
    {
      if e != d { assert Private(s, e, p); }
    }
  }

  lemma PrivacySame(s: State, s': State, d: string)
    requires Tidy(s) && PrivateOk(s) && d in s.devs && d in s'.devs && s'.hist == s.hist && s'.names == s.names
    requires s'.devs == s.devs[d := s'.devs[d]]
    requires s'.devs[d].local.rows == s.devs[d].local.rows && s'.devs[d].bases == s.devs[d].bases
    requires s.devs[d].slot.Accepted? ==> s'.devs[d].slot == s.devs[d].slot
    ensures PrivateOk(s')
  {
    forall e, p | e in s'.devs && Private(s', e, p)
      ensures p !in Current(s'.hist) && forall f | f in s'.devs && f != e :: p !in s'.devs[f].local.rows
    {
      assert Private(s, e, p);
    }
  }

  lemma EditPrivate(s: State, s': State, d: string, p: string)
    requires Tidy(s) && PrivateOk(s) && d in s.devs && d in s'.devs && s'.devs == s.devs[d := s'.devs[d]]
    requires s'.hist == s.hist && s'.names == s.names
    requires var v, v' := s.devs[d], s'.devs[d];
      && v' == v.(local := v'.local, bases := v.bases[p := BaseOf(v.bases, p)])
      && v'.local.rows.Keys == v.local.rows.Keys + {p} && (p !in v.local.rows ==> p !in s.names)
    ensures PrivateOk(s')
  {
    var v, v' := s.devs[d], s'.devs[d];
    forall q | Private(s', d, q) ensures Private(s, d, q) && q !in Current(s'.hist) {
      assert Private(s, d, q);
    }
    PrivacyKept(s, s', d, {}, if p in v.local.rows then {} else {p});
  }

  lemma MergePrivate(s: State, s': State, d: string, h: Table, nm: Naming)
    requires Tidy(s) && PrivateOk(s) && d in s.devs && d in s'.devs && s'.devs == s.devs[d := s'.devs[d]] && s'.hist == s.hist
    requires s'.names == s.names + nm.originOf.Keys && FreshEverywhere(s, nm)
    requires h.Keys <= Current(s.hist).Keys && forall p | p in h :: 1 <= h[p].version
    requires var v, v' := s.devs[d], s'.devs[d];
      && v'.local.rows.Keys <= v.local.rows.Keys + h.Keys + nm.originOf.Keys && v'.slot == v.slot
      && v'.bases == BasesAfterMerge(v.local.rows, v'.local.rows, h, v.bases)
    ensures PrivateOk(s')
  {
    var v, v' := s.devs[d], s'.devs[d];
    forall p | Private(s', d, p) && p !in nm.originOf ensures Private(s, d, p) && p !in Current(s'.hist) {
      assert p in h ==> RowAt(v.local.rows, p) == RowAt(v'.local.rows, p);
      assert Private(s, d, p);
    }
    PrivacyKept(s, s', d, nm.originOf.Keys, {});
  }

  lemma OlderPaths(hist: seq<Table>, log: map<(string, int), Content>, w: nat)
    requires ServerOk(hist, log) && w < |hist|
    ensures hist[w].Keys <= Current(hist).Keys && forall p | p in hist[w] :: 1 <= hist[w][p].version
  {
    assert Grows(hist[w], hist[|hist| - 1]) && Logged(hist[w], log);
    forall p | p in hist[w] ensures 1 <= hist[w][p].version {
      assert (p, hist[w][p].version) in log;
    }
  }

  lemma MergedKeys(t: Table, h: Table, nm: Naming)
    ensures MergeTable(t, h, h.Keys, nm).Keys <= t.Keys + h.Keys + nm.originOf.Keys
  {
  }

  /** Conflict copies among the rows sent are still unknown to the server. */
  lemma SentPrivate(s: State, d: string)
    requires s.hist != [] && PrivateOk(s) && d in s.devs && s.devs[d].slot.Sent?
    requires DeviceOk(s.hist, s.log, s.names, s.devs[d]) && s.devs[d].slot.base == |s.hist| - 1
    ensures var v := s.devs[d]; v.slot.table.Keys <= v.local.rows.Keys
    ensures var slot := s.devs[d].slot;
      forall p | p in slot.table && p in s.names && BaseOf(slot.bases, p) == 0 :: p !in Current(s.hist)
  {
    var v := s.devs[d];
    hide StillSent, RowOk, Behind;
    assert forall p | p in v.slot.table :: p in v.slot.bases && p in v.bases && v.bases[p] == v.slot.bases[p] && p in v.local.rows;
    forall p | p in v.slot.table && p in s.names && BaseOf(v.slot.bases, p) == 0 ensures p !in Current(s.hist) {
      assert Private(s, d, p);
    }
  }

  lemma AcceptPrivate(s: State, s': State, d: string, t: Table)
    requires Tidy(s) && PrivateOk(s) && d in s.devs && d in s'.devs && s'.devs == s.devs[d := s'.devs[d]]
    requires s'.hist == s.hist + [t] && s'.names == s.names
    requires var v, v' := s.devs[d], s'.devs[d];
      && v.slot.Sent? && v' == v.(slot := v'.slot) && v'.slot.Accepted? && v'.slot.version == |s.hist| && t.Keys <= v.local.rows.Keys
    ensures PrivateOk(s')
  {
    assert Current(s'.hist) == t;
    forall p | Private(s', d, p) ensures Private(s, d, p) && p !in Current(s'.hist) {
      assert s'.hist[|s.hist|] == t;
    }
    PrivacyKept(s, s', d, {}, {});
  }

  lemma AckPrivate(s: State, s': State, d: string)
    requires Tidy(s) && PrivateOk(s) && d in s.devs && d in s'.devs && s'.devs == s.devs[d := s'.devs[d]]
    requires s'.hist == s.hist && s'.names == s.names
    requires s.devs[d].slot.Accepted? && forall p | p in s.hist[s.devs[d].slot.version] :: 1 <= s.hist[s.devs[d].slot.version][p].version
    requires s'.devs[d] == AckDevice(s.hist, s.devs[d])
    ensures PrivateOk(s')
  {
    var v, v' := s.devs[d], s'.devs[d];
    AckRows(s.hist, v);
    assert v'.slot.Free?;
    hide AckDevice;
    forall p | Private(s', d, p) ensures Private(s, d, p) && p !in Current(s'.hist) {
      assert Private(s, d, p);
    }
    PrivacyKept(s, s', d, {}, {});
  }

  /* The invariant over whole runs. */

  lemma OthersOk(s: State, s': State, d: string)
    requires Inv(s) && d in s.devs && d in s'.devs && s'.devs == s.devs[d := s'.devs[d]]
    requires s.hist <= s'.hist && s.names <= s'.names && LogGrows(s.log, s'.log) && ServerOk(s'.hist, s'.log)
    requires DeviceOk(s'.hist, s'.log, s'.names, s'.devs[d]) && PrivateOk(s')
    ensures Inv(s')
  {
    assert s.hist != [] && s'.hist != [];
    hide DeviceOk, ServerOk, PrivateOk, LogGrows;
    forall e | e in s'.devs ensures DeviceOk(s'.hist, s'.log, s'.names, s'.devs[e]) {
      if e != d { DeviceGrows(s.hist, s'.hist, s.log, s'.log, s.names, s'.names, s.devs[e]); }
    }
  }

  lemma ReplyIsSound(s: State, d: string)
    requires Inv(s) && Enabled(s, Accept(d)) && Clean(s, Accept(d))
    ensures d in s.devs && s.devs[d].slot.Sent? && s.devs[d].slot.base == |s.hist| - 1
    ensures DeviceOk(s.hist, s.log, s.names, s.devs[d])
    ensures StepDevice(s, s.devs[d], Accept(d)) == s.devs[d].(slot := Accepted(s.devs[d].slot.paths, s.devs[d].slot.force, |s.hist|))
  {
    hide ServerOk, PrivateOk, TableOk, Behind, SlotOk;
    assert DeviceOk(s.hist, s.log, s.names, s.devs[d]);
  }

  lemma AcceptInv(s: State, d: string)
    requires Inv(s) && Enabled(s, Accept(d)) && Clean(s, Accept(d))
    requires d in s.devs && s.devs[d].slot.Sent?
    ensures Inv(Next(s, Accept(d)))
    ensures FastForward(Current(s.hist), s.devs[d].slot.table, s.devs[d].slot.bases)
  {
    var s' := Next(s, Accept(d));
    var v := s.devs[d];
    hide DeviceOk, ServerOk, PrivateOk, LogGrows, FastForward, LogTable, Next, Can, Careful, StepDevice;
    ReplyIsSound(s, d);
    NextShape(s, Accept(d));
    InvIsTidy(s);
    SentPrivate(s, d);
    AcceptOk(s.hist, s.log, s.names, v);
    AcceptPrivate(s, s', d, v.slot.table);
    hide Tidy;
    OthersOk(s, s', d);
  }

  lemma TickInv(s: State, s': State)
    requires Inv(s) && s' == s.(now := s'.now)
    ensures Inv(s')
  {
    assert s'.hist != [];
    hide DeviceOk, ServerOk;
    forall d, p | d in s'.devs && Private(s', d, p)
      ensures p !in Current(s'.hist) && forall e | e in s'.devs && e != d :: p !in s'.devs[e].local.rows
    {
      assert Private(s, d, p);
    }
  }

  /** Steps that touch neither rows nor bases. */
  lemma QuietShape(s: State, v: Device, a: Action)
    requires s.hist != [] && Can(s.hist, v, a)
    requires !a.Write? && !a.Remove? && !a.Move? && !a.MergeBlob? && !a.Ack? && !a.Accept? && !a.LoseReply? && !a.PurgeTombstones?
    ensures StepDevice(s, v, a).local.rows == v.local.rows && StepDevice(s, v, a).bases == v.bases
    ensures v.slot.Accepted? ==> StepDevice(s, v, a).slot == v.slot
  {
  }

  lemma AckPrivateStep(s: State, a: Action)
    requires Inv(s) && Enabled(s, a) && a.Ack?
    ensures PrivateOk(Next(s, a))
  {
    var v := s.devs[a.d];
    assert v.slot.Accepted? && StepDevice(s, v, a) == AckDevice(s.hist, v);
    hide Next, DeviceOk, PrivateOk, StepDevice, AckDevice, Can, Private;
    NextShape(s, a);
    InvIsTidy(s);
    OlderPaths(s.hist, s.log, v.slot.version);
    hide ServerOk;
    AckPrivate(s, Next(s, a), a.d);
  }

  lemma PrivateStep(s: State, a: Action)
    requires Inv(s) && Enabled(s, a) && Clean(s, a) && !a.Tick? && !a.Accept?
    ensures PrivateOk(Next(s, a))
  {
    hide Next, DeviceOk, PrivateOk, ServerOk, StepDevice, Can;
    if a.Write? || a.Remove? {
      EditPrivateStep(s, a);
    } else if a.MergeBlob? {
      MergePrivateStep(s, a);
    } else if a.Ack? {
      AckPrivateStep(s, a);
    } else {
      NextShape(s, a);
      InvIsTidy(s);
      QuietShape(s, s.devs[a.d], a);
      PrivacySame(s, Next(s, a), a.d);
    }
  }

  lemma EditPrivateStep(s: State, a: Action)
    requires Inv(s) && Enabled(s, a) && Clean(s, a) && (a.Write? || a.Remove?)
    ensures PrivateOk(Next(s, a))
  {
    hide Next, DeviceOk, PrivateOk, ServerOk, Can, Careful, StepDevice;
    NextShape(s, a);
    InvIsTidy(s);
    EditShape(s, a);
    EditPrivate(s, Next(s, a), a.d, a.p);
  }

  lemma MergePrivateStep(s: State, a: Action)
    requires Inv(s) && Enabled(s, a) && Clean(s, a) && a.MergeBlob?
    ensures PrivateOk(Next(s, a))
  {
    var s' := Next(s, a);
    var v := s.devs[a.d];
    NextShape(s, a);
    InvIsTidy(s);
    var w := TaskOf(v, a.i).w;
    assert w < |s.hist| && s'.devs[a.d] == MergeDevice(s.hist, v, a.i, a.order, a.nm);
    hide Next, DeviceOk, PrivateOk, Enumerates, FreshNames, FreshEverywhere, MergeDevice, StepDevice;
    PatchedDevice(s.hist, v, a.i, a.order, a.nm);
    OlderPaths(s.hist, s.log, w);
    MergedKeys(v.local.rows, s.hist[w], a.nm);
    hide ServerOk, Enabled, Clean, BasesAfterMerge, MergeTable;
    MergePrivate(s, s', a.d, s.hist[w], a.nm);
  }

  lemma NextInv(s: State, a: Action)
    requires Inv(s) && Clean(s, a)
    ensures Inv(Next(s, a))
  {
    hide DeviceOk, ServerOk, PrivateOk, StepDevice, Can, Careful, LogGrows;
    if Enabled(s, a) {
      if a.Tick? {
        TickInv(s, Next(s, a));
      } else if a.Accept? {
        ReplyIsSound(s, a.d);
        hide Inv, Next, Enabled, Clean;
        AcceptInv(s, a.d);
      } else {
        NextShape(s, a);
        hide Next;
        StepOk(s, a);
        PrivateStep(s, a);
        LogReflexive(s.log);
        OthersOk(s, Next(s, a), a.d);
      }
    }
  }

  lemma {:induction false} CleanRunInv(s: State, run: seq<Action>)
    requires Init(s) && CleanRun(s, run)
    ensures Inv(After(s, run))
  {
    if run == [] {
      InitInv(s);
    } else {
      hide Inv, Init, Next, Clean;
      CleanRunInv(s, run[..|run| - 1]);
      NextInv(After(s, run[..|run| - 1]), run[|run| - 1]);
    }
  }

  /** No lost update: whatever a clean run has done so far, the next upload the
      server accepts replaces each of its rows by itself or by a row edited
      directly from it, and drops none. */
  lemma NoUpdateIsLost(s: State, run: seq<Action>, d: string)
    requires Init(s) && CleanRun(s, run + [Accept(d)])
    requires Enabled(After(s, run), Accept(d))
    ensures var t := After(s, run);
      t.hist != [] && d in t.devs && t.devs[d].slot.Sent?
      && FastForward(Current(t.hist), t.devs[d].slot.table, t.devs[d].slot.bases)
      && After(s, run + [Accept(d)]).hist == t.hist + [t.devs[d].slot.table]
  {
    hide Inv, Init, FastForward, StepDevice, Clean;
    var t := After(s, run);
    var all := run + [Accept(d)];
    assert all[..|all| - 1] == run && all[|all| - 1] == Accept(d);
    CleanRunInv(s, run);
    AcceptInv(t, d);
    NextShape(t, Accept(d));
  }

  /** On the server a path never goes away, its version never goes down, and it
      rises whenever the content changes. */
  lemma ServerRowsOnlyAdvance(s: State, run: seq<Action>, i: nat, j: nat, p: string)
    requires Init(s) && CleanRun(s, run) && i <= j < |After(s, run).hist| && p in After(s, run).hist[i]
    ensures var h := After(s, run).hist;
      p in h[j] && h[i][p].version <= h[j][p].version
      && (h[i][p].version == h[j][p].version ==> ContentOf(h[i][p]) == ContentOf(h[j][p]))
  {
    CleanRunInv(s, run);
    var t := After(s, run);
    hide After, CleanRun, Init;
    assert Grows(t.hist[i], t.hist[j]);
    assert Logged(t.hist[i], t.log) && Logged(t.hist[j], t.log);
  }

  lemma SettledRowLogged(s: State, d: string, p: string)
    requires Inv(s) && d in s.devs && p in s.devs[d].local.rows && !IsPending(s.devs[d].local.rows, p)
    ensures Private(s, d, p) ||
      var r := s.devs[d].local.rows[p]; (p, r.version) in s.log && s.log[(p, r.version)] == ContentOf(r)
  {
    var v := s.devs[d];
    var r := v.local.rows[p];
    assert DeviceOk(s.hist, s.log, s.names, v);
    assert RowOk(s.log, s.names, p, r, v.bases[p]);
    hide ServerOk, PrivateOk;
    if v.bases[p] == 0 && !Private(s, d, p) {
      var sent := s.hist[v.slot.version];
      assert p in sent && StillSent(r, sent[p], !v.slot.force && p !in v.slot.paths);
      assert Logged(sent, s.log) by { LoggedAt(s.hist, s.log, v.slot.version); }
    }
  }

  lemma LoggedAt(hist: seq<Table>, log: map<(string, int), Content>, i: nat)
    requires ServerOk(hist, log) && i < |hist|
    ensures Logged(hist[i], log)
  {
  }

  /** Rows that are not waiting for upload agree wherever path and version do,
      so the merge may skip equal versions. */
  lemma SameVersionSameRow(s: State, run: seq<Action>, d: string, e: string, p: string)
    requires Init(s) && CleanRun(s, run)
    requires var t := After(s, run);
      && d in t.devs && e in t.devs && p in t.devs[d].local.rows && p in t.devs[e].local.rows
      && !IsPending(t.devs[d].local.rows, p) && !IsPending(t.devs[e].local.rows, p)
    ensures var t := After(s, run); var r, q := t.devs[d].local.rows[p], t.devs[e].local.rows[p];
      r.version == q.version ==> ContentOf(r) == ContentOf(q)
  {
    CleanRunInv(s, run);
    var t := After(s, run);
    hide After, CleanRun, Init, DeviceOk, ServerOk, Private;
    SettledRowLogged(t, d, p);
    SettledRowLogged(t, e, p);
  }
}
