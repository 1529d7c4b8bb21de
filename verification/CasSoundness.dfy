/** What the version numbers mean, over every run, however the periodic loop,
    the long-poll loop, lost messages and the other devices interleave. */
module CasSoundness {
  import opened Rows
  import opened Merge
  import opened Protocol

  ghost predicate SlotSound(slot: Slot, size: nat) {
    match slot
    case Sent(_, force, base, _, _, seen) => base <= seen < size
    case Accepted(_, _, n) => n < size
    case _ => true
  }

  /** The table has absorbed a server table at least as new as the version the
      device will present as its base. */
  ghost predicate Sound(v: Device, size: nat) {
    && v.last <= v.seen < size
    && (forall i | i in v.tasks :: TaskSound(v.tasks[i], size))
    && SlotSound(v.slot, size)
    && (v.slot.Sent? ==> v.slot.seen <= v.seen)
  }

  ghost predicate AllSound(s: State) {
    && s.hist != []
    && forall d | d in s.devs :: Sound(s.devs[d], |s.hist|)
  }

  lemma SoundMonotone(v: Device, size: nat)
    requires Sound(v, size)
    ensures Sound(v, size + 1)
  {
  }

  lemma MergeSound(hist: seq<Table>, v: Device, i: int, order: seq<string>, nm: Naming)
    requires Sound(v, |hist|)
    ensures var v' := MergeDevice(hist, v, i, order, nm);
      v'.last <= v'.seen < |hist| && v.seen <= v'.seen && v'.slot == v.slot
  {
    hide MergeRows, BasesAfterMerge, SlotSound;
    assert i in v.tasks ==> TaskSound(v.tasks[i], |hist|);
  }

  lemma StepSound(s: State, a: Action)
    requires AllSound(s) && Enabled(s, a) && !a.Tick?
    ensures Sound(StepDevice(s, s.devs[a.d], a), if a.Accept? then |s.hist| + 1 else |s.hist|)
  {
    hide MergeDevice, WriteLocal, RemoveLocal, RenamePath, Purge, TaskSound, Enumerates, BasesAfterMerge, LivePhysical, MarkSynced, PendingPaths;
    var v := s.devs[a.d];
    assert Sound(v, |s.hist|);
    var v' := StepDevice(s, v, a);
    StepTasks(s, v, a);
    if a.MergeBlob? { MergeSound(s.hist, v, a.i, a.order, a.nm); }
    if a.UpToDate? || a.ReadBlob? { assert a.i in v.tasks && TaskSound(v.tasks[a.i], |s.hist|); }
    if a.Accept? { TasksLater(v', |s.hist|); }
  }

  lemma StepTasks(s: State, v: Device, a: Action)
    requires s.hist != [] && forall i | i in v.tasks :: TaskSound(v.tasks[i], |s.hist|)
    ensures forall i | i in StepDevice(s, v, a).tasks :: TaskSound(StepDevice(s, v, a).tasks[i], |s.hist|)
  {
    hide StepDevice, TaskSound;
    forall i | i in StepDevice(s, v, a).tasks ensures TaskSound(StepDevice(s, v, a).tasks[i], |s.hist|) {
      assert i in v.tasks ==> TaskSound(v.tasks[i], |s.hist|);
      NewTasksSound(s, v, a, i);
    }
  }

  lemma TasksLater(v: Device, size: nat)
    requires forall i | i in v.tasks :: TaskSound(v.tasks[i], size)
    ensures forall i | i in v.tasks :: TaskSound(v.tasks[i], size + 1)
  {
    forall i | i in v.tasks ensures TaskSound(v.tasks[i], size + 1) {
      assert TaskSound(v.tasks[i], size);
    }
  }

  lemma NewTasksSound(s: State, v: Device, a: Action, i: int)
    requires s.hist != [] && i in StepDevice(s, v, a).tasks
    requires i in v.tasks ==> TaskSound(v.tasks[i], |s.hist|)
    ensures TaskSound(StepDevice(s, v, a).tasks[i], |s.hist|)
  {
    hide MergeRows, WriteLocal, RemoveLocal, BasesAfterMerge, RenamePath, Purge;
  }

  lemma NextSound(s: State, a: Action)
    requires AllSound(s)
    ensures AllSound(Next(s, a))
  {
    hide StepDevice, Sound, LogTable, Can;
    if Enabled(s, a) && !a.Tick? {
      StepSound(s, a);
      NextShape(s, a);
      hide Next;
      forall d | d in s.devs { SoundMonotone(s.devs[d], |s.hist|); }
    }
  }

  /** In every reachable state, whatever happened before. */
  lemma {:induction false} AlwaysSound(s: State, run: seq<Action>)
    requires Init(s)
    ensures AllSound(After(s, run))
  {
    if run != [] {
      AlwaysSound(s, run[..|run| - 1]);
      NextSound(After(s, run[..|run| - 1]), run[|run| - 1]);
    }
  }

  /** An upload the server accepts under compare-and-swap was read from a local
      table whose newest merged server table is exactly the one it replaces. */
  lemma AcceptedUploadMergedWhatItReplaces(s: State, run: seq<Action>, d: string)
    requires Init(s)
    ensures var t := After(s, run);
      t.hist != [] && (d in t.devs && t.devs[d].slot.Sent? && !t.devs[d].slot.force && t.devs[d].slot.base == |t.hist| - 1
        ==> t.devs[d].slot.seen == |t.hist| - 1)
  {
    AlwaysSound(s, run);
    hide After;
    var t := After(s, run);
    if d in t.devs {
      assert Sound(t.devs[d], |t.hist|);
    }
  }
}
