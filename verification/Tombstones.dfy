/** Retention of tombstones: a deletion is never undone by a device that was
    away, as long as every device synchronises more often than tombstones are
    purged. */
module Tombstones {
  import opened Rows
  import opened Merge
  import opened Protocol
  import opened CasSoundness

  /** The deletion of `path`: its tombstone has row version `k` and was written
      at `deletedAt`; server version `u`, accepted at `acceptedAt`, was the first
      to carry it. Tombstones live for `retention`; a deletion may take `slack`
      to reach the server, and a download `delay` from its first request to its
      merge. */
  datatype Grave = Grave(
    path: string, k: int, deletedAt: real, u: nat, acceptedAt: real, retention: real, slack: real, delay: real)

  predicate IsTomb(g: Grave, r: Row) {
    r.deleted && r.version == g.k && r.modifiedAt == g.deletedAt
  }

  predicate NobodyPurges(g: Grave, now: real) {
    now <= g.deletedAt + g.retention
  }

  /** The row at the path, in a table that knows of the deletion. */
  predicate Buried(g: Grave, t: Table, now: real) {
    if g.path in t then IsTomb(g, t[g.path]) else !NobodyPurges(g, now)
  }

  /** The row at the path, in any device's table. */
  predicate StaleOrTomb(g: Grave, t: Table) {
    g.path in t ==> IsTomb(g, t[g.path]) || (t[g.path].status != Pending && t[g.path].version < g.k)
  }

  /** The device's table contains the server table that brought the deletion. */
  predicate Knows(g: Grave, v: Device) {
    v.seen >= g.u || (v.slot.Accepted? && v.slot.version >= g.u)
  }

  ghost predicate DeviceBuried(g: Grave, v: Device, now: real) {
    && StaleOrTomb(g, v.local.rows)
    && (Knows(g, v) ==> Buried(g, v.local.rows, now))
    && (v.syncedAt > g.acceptedAt ==> v.seen >= g.u)
    && now <= v.syncedAt + (g.retention - g.slack)
    && (v.slot.Sent? && v.slot.base >= g.u ==> Buried(g, v.slot.table, now))
    && forall i | i in v.tasks :: TaskTimely(g, v.tasks[i], now)
  }

  /** An answer from before the deletion belongs to a request from before it, and
      no download takes too long. */
  predicate TaskTimely(g: Grave, k: Task, now: real) {
    match k
    case Idle => true
    case StatusRead(v, at) => (v < g.u ==> at <= g.acceptedAt) && now <= at + g.delay
    case BlobRead(v, w, at) => (w < g.u ==> at <= g.acceptedAt) && now <= at + g.delay
  }

  ghost predicate HistBuried(g: Grave, hist: seq<Table>, now: real) {
    && 0 < g.u < |hist|
    && (forall j | g.u <= j < |hist| :: Buried(g, hist[j], now))
    && (forall j | 0 <= j < g.u && g.path in hist[j] :: hist[j][g.path].version < g.k)
  }

  predicate WellTimed(g: Grave) {
    0.0 <= g.slack && 0.0 <= g.delay && g.slack + g.delay <= g.retention
  }

  ghost predicate AllBuried(g: Grave, s: State) {
    && g.deletedAt <= g.acceptedAt <= g.deletedAt + g.slack
    && WellTimed(g) && g.acceptedAt <= s.now
    && HistBuried(g, s.hist, s.now)
    && forall d | d in s.devs :: DeviceBuried(g, s.devs[d], s.now)
  }

  /** What the runs in question ask of a step: nobody writes or deletes the path
      again, purges wait for the retention time, nobody drops the tombstone
      before, uploads use compare-and-swap, no download takes longer than `delay`,
      and at any time each device has completed a download that it began at most
      `retention - slack` ago. */
  ghost predicate Punctual(g: Grave, s: State, a: Action) {
    match a
    case Write(d, p, key, size) => p != g.path
    case Remove(d, p) => p != g.path
    case Move(d, p, dst) => p != g.path && dst != g.path
    case MergeBlob(d, i, order, nm) =>
      && (forall q | q != g.path :: NameFor(nm, q) != g.path)
      && (d in s.devs && NobodyPurges(g, s.now) && TaskOf(s.devs[d], i).BlobRead? && TaskOf(s.devs[d], i).w >= g.u
          ==> g.path in s.devs[d].local.rows)
    case Accept(d) => d in s.devs && s.devs[d].slot.Sent? ==> !s.devs[d].slot.force
    case PurgeTombstones(d, retention) => retention >= g.retention
    case Tick(t) =>
      forall d | d in s.devs ::
        && t <= s.devs[d].syncedAt + (g.retention - g.slack)
        && forall i | i in s.devs[d].tasks && !s.devs[d].tasks[i].Idle? :: t <= s.devs[d].tasks[i].at + g.delay
    case _ => true
  }

  ghost predicate PunctualRun(g: Grave, s: State, run: seq<Action>) {
    run == [] ||
    (PunctualRun(g, s, run[..|run| - 1]) && Punctual(g, After(s, run[..|run| - 1]), run[|run| - 1]))
  }

  /* A device that is not up to date is not late. */

  lemma LateDeviceKnows(g: Grave, v: Device, now: real)
    requires DeviceBuried(g, v, now) && g.acceptedAt <= g.deletedAt + g.slack && !NobodyPurges(g, now)
    ensures Knows(g, v)
  {
  }

  /** Merging keeps the path dead. */
  lemma MergePoint(g: Grave, v: Device, t': Table, h: Table, w: nat, now: real)
    requires DeviceBuried(g, v, now) && g.acceptedAt <= g.deletedAt + g.slack
    requires if g.path in h then PointResult(RowAt(v.local.rows, g.path), h[g.path], RowAt(t', g.path))
             else RowAt(t', g.path) == RowAt(v.local.rows, g.path)
    requires w >= g.u ==> Buried(g, h, now)
    requires w < g.u ==> NobodyPurges(g, now) && (g.path in h ==> h[g.path].version < g.k)
    requires w >= g.u && NobodyPurges(g, now) ==> g.path in v.local.rows
    ensures StaleOrTomb(g, t')
    ensures Knows(g, v) || w >= g.u ==> Buried(g, t', now)
  {
  }

  lemma MergeBuried(g: Grave, hist: seq<Table>, v: Device, i: int, order: seq<string>, nm: Naming, now: real)
    requires DeviceBuried(g, v, now) && HistBuried(g, hist, now) && Sound(v, |hist|)
    requires g.acceptedAt <= g.deletedAt + g.slack && WellTimed(g)
    requires TaskOf(v, i).BlobRead? && TaskOf(v, i).w < |hist| && Enumerates(order, hist[TaskOf(v, i).w])
    requires forall q | q != g.path :: NameFor(nm, q) != g.path
    requires NobodyPurges(g, now) && TaskOf(v, i).w >= g.u ==> g.path in v.local.rows
    ensures DeviceBuried(g, MergeDevice(hist, v, i, order, nm), now)
  {
    var w := TaskOf(v, i).w;
    var v' := MergeDevice(hist, v, i, order, nm);
    assert TaskTimely(g, v.tasks[i], now);
    assert v'.local.rows == MergeRows(v.local, hist[w], order, nm).rows;
    hide MergeRows, NameFor, PointResult, BasesAfterMerge;
    MergeRowsAt(v.local, hist[w], order, nm, g.path);
    MergePoint(g, v, v'.local.rows, hist[w], w, now);
    hide Buried, StaleOrTomb;
    assert forall j | j in v'.tasks :: j == i || (j in v.tasks && v'.tasks[j] == v.tasks[j]);
    assert Knows(g, v') ==> Knows(g, v) || w >= g.u;
  }

  /** A local operation elsewhere leaves the row at the path alone, or purges it
      once that is allowed. */
  lemma LocalBuried(g: Grave, v: Device, v': Device, now: real)
    requires DeviceBuried(g, v, now)
    requires v' == v.(local := v'.local, bases := v'.bases)
    requires RowAt(v'.local.rows, g.path) == RowAt(v.local.rows, g.path)
      || (RowAt(v'.local.rows, g.path) == None && (IsTomb(g, v.local.rows[g.path]) ==> !NobodyPurges(g, now)))
    ensures DeviceBuried(g, v', now)
  {
    hide TaskTimely;
  }

  lemma TasksBuried(g: Grave, v: Device, v': Device, now: real)
    requires DeviceBuried(g, v, now)
    requires v' == v.(tasks := v'.tasks, syncedAt := v'.syncedAt)
    requires v'.syncedAt >= v.syncedAt && (v'.syncedAt > g.acceptedAt ==> v.seen >= g.u)
    requires forall i | i in v'.tasks :: (i in v.tasks && v'.tasks[i] == v.tasks[i]) || TaskTimely(g, v'.tasks[i], now)
    ensures DeviceBuried(g, v', now)
  {
    hide Buried, StaleOrTomb, TaskTimely;
  }

  lemma SlotBuried(g: Grave, v: Device, v': Device, now: real)
    requires DeviceBuried(g, v, now)
    requires v' == v.(slot := v'.slot)
    requires Knows(g, v') ==> Buried(g, v.local.rows, now)
    requires v'.slot.Sent? && v'.slot.base >= g.u ==> Buried(g, v'.slot.table, now)
    ensures DeviceBuried(g, v', now)
  {
    hide Buried, StaleOrTomb, TaskTimely;
  }

  lemma AckBuried(g: Grave, hist: seq<Table>, v: Device, now: real)
    requires DeviceBuried(g, v, now) && v.slot.Accepted?
    ensures DeviceBuried(g, AckDevice(hist, v), now)
  {
    var v' := AckDevice(hist, v);
    assert g.path in v'.local.rows <==> g.path in v.local.rows;
    assert g.path in v.local.rows ==>
      (v'.local.rows[g.path] == v.local.rows[g.path] || v'.local.rows[g.path] == v.local.rows[g.path].(status := Synced));
    hide TaskTimely;
  }

  lemma TimeBuried(g: Grave, v: Device, now: real, t: real)
    requires DeviceBuried(g, v, now) && now <= t <= v.syncedAt + (g.retention - g.slack)
    requires forall i | i in v.tasks && !v.tasks[i].Idle? :: t <= v.tasks[i].at + g.delay
    ensures DeviceBuried(g, v, t)
  {
  }

  /** The server table an upload installs. */
  lemma AcceptBuried(g: Grave, hist: seq<Table>, t: Table, now: real)
    requires HistBuried(g, hist, now) && Buried(g, t, now)
    ensures HistBuried(g, hist + [t], now)
  {
    var hist' := hist + [t];
    forall j | g.u <= j < |hist'| ensures Buried(g, hist'[j], now) {
      if j < |hist| { assert hist'[j] == hist[j]; }
    }
    forall j | 0 <= j < g.u && g.path in hist'[j] ensures hist'[j][g.path].version < g.k {
      assert hist'[j] == hist[j];
    }
  }

  lemma HistLater(g: Grave, hist: seq<Table>, now: real, t: real)
    requires HistBuried(g, hist, now) && now <= t
    ensures HistBuried(g, hist, t)
  {
    forall j | g.u <= j < |hist| ensures Buried(g, hist[j], t) {
      assert Buried(g, hist[j], now);
    }
  }

  /* Steps. */

  lemma LocalSteps(g: Grave, s: State, a: Action)
    requires s.hist != [] && Enabled(s, a) && Punctual(g, s, a) && (a.Write? || a.Remove? || a.Move? || a.Collect? || a.PurgeTombstones?)
    requires DeviceBuried(g, s.devs[a.d], s.now)
    ensures DeviceBuried(g, StepDevice(s, s.devs[a.d], a), s.now)
  {
    var v := s.devs[a.d];
    var v' := StepDevice(s, v, a);
    hide DeviceBuried;
    LocalRow(g, s, a);
    LocalBuried(g, v, v', s.now);
  }

  lemma LocalRow(g: Grave, s: State, a: Action)
    requires s.hist != [] && Enabled(s, a) && Punctual(g, s, a) && (a.Write? || a.Remove? || a.Move? || a.Collect? || a.PurgeTombstones?)
    ensures var v := s.devs[a.d]; var v' := StepDevice(s, v, a);
      && v' == v.(local := v'.local, bases := v'.bases)
      && (RowAt(v'.local.rows, g.path) == RowAt(v.local.rows, g.path)
          || (RowAt(v'.local.rows, g.path) == None && g.path in v.local.rows
              && (IsTomb(g, v.local.rows[g.path]) ==> !NobodyPurges(g, s.now))))
  {
    hide LivePhysical;
    var v := s.devs[a.d];
    if a.Write? {
      WriteElsewhere(v.local, a.d, a.p, a.key, a.size, s.now, g.path);
    }
  }

  lemma WriteElsewhere(l: Local, d: string, p: string, key: Key, size: nat, now: real, q: string)
    requires p != q
    ensures RowAt(WriteLocal(l, d, p, key, size, now).rows, q) == RowAt(l.rows, q)
  {
  }

  lemma TaskSteps(g: Grave, s: State, a: Action)
    requires AllBuried(g, s) && Enabled(s, a) && (a.ReadStatus? || a.UpToDate? || a.Abandon? || a.ReadBlob? || a.ReadInitial?)
    requires Sound(s.devs[a.d], |s.hist|)
    ensures DeviceBuried(g, StepDevice(s, s.devs[a.d], a), s.now)
  {
    var v := s.devs[a.d];
    var v' := StepDevice(s, v, a);
    assert DeviceBuried(g, v, s.now);
    assert a.UpToDate? || a.ReadBlob? ==> TaskTimely(g, v.tasks[a.i], s.now);
    hide DeviceBuried, HistBuried;
    assert DeviceBuriedTimes(g, v, s.now) by { SyncTimes(g, v, s.now); }
    TasksBuried(g, v, v', s.now);
  }

  predicate DeviceBuriedTimes(g: Grave, v: Device, now: real) {
    v.syncedAt > g.acceptedAt ==> v.seen >= g.u
  }

  lemma SyncTimes(g: Grave, v: Device, now: real)
    requires DeviceBuried(g, v, now)
    ensures DeviceBuriedTimes(g, v, now)
  {
  }

  lemma SlotSteps(g: Grave, s: State, a: Action)
    requires AllBuried(g, s) && Enabled(s, a) && Punctual(g, s, a)
    requires a.Snapshot? || a.Send? || a.ForceSend? || a.Refuse? || a.Fail? || a.LoseReply? || a.Accept?
    requires Sound(s.devs[a.d], |s.hist|)
    ensures DeviceBuried(g, StepDevice(s, s.devs[a.d], a), s.now)
    ensures a.Accept? && s.devs[a.d].slot.Sent? ==> Buried(g, s.devs[a.d].slot.table, s.now)
  {
    var v := s.devs[a.d];
    var v' := StepDevice(s, v, a);
    assert DeviceBuried(g, v, s.now) && 0 < g.u < |s.hist|;
    SlotFacts(g, v, s.now);
    hide DeviceBuried, HistBuried, Buried;
    SlotBuried(g, v, v', s.now);
  }

  lemma SlotFacts(g: Grave, v: Device, now: real)
    requires DeviceBuried(g, v, now)
    ensures Knows(g, v) ==> Buried(g, v.local.rows, now)
    ensures v.slot.Sent? && v.slot.base >= g.u ==> Buried(g, v.slot.table, now)
  {
  }

  lemma NextBuried(g: Grave, s: State, a: Action)
    requires AllBuried(g, s) && AllSound(s) && Punctual(g, s, a)
    ensures AllBuried(g, Next(s, a))
  {
    hide DeviceBuried, Buried, Sound, StepDevice, Can;
    if Enabled(s, a) {
      if a.Tick? {
        hide Punctual;
        TickBuried(g, s, a.t);
      } else {
        NextShape(s, a);
        hide Next;
        StepBuried(g, s, a);
        if a.Accept? { AcceptBuried(g, s.hist, s.devs[a.d].slot.table, s.now); }
        hide HistBuried;
        NowSame(s, a);
      }
    }
  }

  lemma NowSame(s: State, a: Action)
    requires !a.Tick?
    ensures Next(s, a).now == s.now
  {
    hide StepDevice, Can, LogTable;
  }

  lemma TickBuried(g: Grave, s: State, t: real)
    requires AllBuried(g, s) && Enabled(s, Tick(t)) && Punctual(g, s, Tick(t))
    ensures AllBuried(g, Next(s, Tick(t)))
  {
    hide DeviceBuried, HistBuried;
    HistLater(g, s.hist, s.now, t);
    forall d | d in s.devs ensures DeviceBuried(g, s.devs[d], t) {
      TimeBuried(g, s.devs[d], s.now, t);
    }
  }

  lemma StepBuried(g: Grave, s: State, a: Action)
    requires AllBuried(g, s) && AllSound(s) && Enabled(s, a) && Punctual(g, s, a) && !a.Tick?
    ensures DeviceBuried(g, StepDevice(s, s.devs[a.d], a), s.now)
    ensures a.Accept? && s.devs[a.d].slot.Sent? ==> Buried(g, s.devs[a.d].slot.table, s.now)
  {
    hide DeviceBuried, Buried, HistBuried, Sound, MergeDevice, AckDevice;
    if a.Write? || a.Remove? || a.Move? || a.Collect? || a.PurgeTombstones? {
      hide StepDevice;
      LocalSteps(g, s, a);
    } else if a.MergeBlob? {
      MergeBuried(g, s.hist, s.devs[a.d], a.i, a.order, a.nm, s.now);
    } else if a.Ack? {
      AckBuried(g, s.hist, s.devs[a.d], s.now);
    } else if a.Snapshot? || a.Send? || a.ForceSend? || a.Refuse? || a.Fail? || a.LoseReply? || a.Accept? {
      hide StepDevice;
      SlotSteps(g, s, a);
    } else {
      hide StepDevice;
      TaskSteps(g, s, a);
    }
  }

  lemma {:induction false} RunBuried(g: Grave, s: State, run: seq<Action>)
    requires AllBuried(g, s) && AllSound(s) && PunctualRun(g, s, run)
    ensures AllBuried(g, After(s, run)) && AllSound(After(s, run))
  {
    if run != [] {
      hide Next, AllBuried, AllSound, Punctual;
      RunBuried(g, s, run[..|run| - 1]);
      NextBuried(g, After(s, run[..|run| - 1]), run[|run| - 1]);
      NextSound(After(s, run[..|run| - 1]), run[|run| - 1]);
    }
  }

  /** Requests were made in the past. */
  ghost predicate Stamped(s: State) {
    forall d | d in s.devs ::
      && s.devs[d].syncedAt <= s.now
      && forall i | i in s.devs[d].tasks && !s.devs[d].tasks[i].Idle? :: s.devs[d].tasks[i].at <= s.now
  }

  lemma StampedDevice(s: State, v: Device, a: Action)
    requires s.hist != [] && v.syncedAt <= s.now && forall i | i in v.tasks && !v.tasks[i].Idle? :: v.tasks[i].at <= s.now
    ensures var v' := StepDevice(s, v, a);
      v'.syncedAt <= s.now && forall i | i in v'.tasks && !v'.tasks[i].Idle? :: v'.tasks[i].at <= s.now
  {
    hide WriteLocal, RemoveLocal, RenamePath, MergeRows, BasesAfterMerge, Purge, MarkSynced, LivePhysical;
  }

  lemma {:induction false} RunStamped(s: State, run: seq<Action>)
    requires Init(s)
    ensures Stamped(After(s, run))
  {
    if run != [] {
      var n := |run| - 1;
      RunStamped(s, run[..n]);
      var t, a := After(s, run[..n]), run[n];
      if Enabled(t, a) && !a.Tick? {
        StampedDevice(t, t.devs[a.d], a);
        NextShape(t, a);
        NowSame(t, a);
        hide Next, StepDevice;
      }
    }
  }

  /** The moment the server accepts a deletion: the tombstone is in the newest
      table and nowhere else in the server's history, no other device has news
      about the path, and nobody is late. */
  ghost predicate JustDeleted(g: Grave, s: State) {
    && 0 < g.u == |s.hist| - 1 && s.now == g.acceptedAt
    && g.deletedAt <= g.acceptedAt <= g.deletedAt + g.slack && WellTimed(g)
    && g.path in s.hist[g.u] && IsTomb(g, s.hist[g.u][g.path])
    && (forall j | 0 <= j < g.u && g.path in s.hist[j] :: s.hist[j][g.path].version < g.k)
    && (forall d | d in s.devs :: JustDeletedAt(g, s.devs[d], s.now))
  }

  ghost predicate JustDeletedAt(g: Grave, v: Device, now: real) {
    && StaleOrTomb(g, v.local.rows)
    && now <= v.syncedAt + (g.retention - g.slack)
    && (forall i | i in v.tasks && !v.tasks[i].Idle? :: now <= v.tasks[i].at + g.delay)
    && (Knows(g, v) ==> g.path in v.local.rows && IsTomb(g, v.local.rows[g.path]))
    && (v.slot.Sent? ==> v.slot.base < g.u)
  }

  lemma JustDeletedBuried(g: Grave, s: State)
    requires JustDeleted(g, s) && Stamped(s)
    ensures AllBuried(g, s)
  {
  }

  /** From then on the path is dead in every server table, whichever devices
      were away, and once tombstones may be purged no device has it any more. */
  lemma DeletedStaysDeleted(g: Grave, s: State, before: seq<Action>, run: seq<Action>)
    requires Init(s) && JustDeleted(g, After(s, before)) && PunctualRun(g, After(s, before), run)
    ensures var t := After(After(s, before), run);
      && (forall j | g.u <= j < |t.hist| :: !Live(t.hist[j], g.path))
      && (forall d | d in t.devs && t.devs[d].seen >= g.u :: !Live(t.devs[d].local.rows, g.path))
      && (t.now > g.deletedAt + g.retention ==> forall d | d in t.devs :: !Live(t.devs[d].local.rows, g.path))
  {
    AlwaysSound(s, before);
    RunStamped(s, before);
    hide Init, PunctualRun, After, JustDeleted;
    var s1 := After(s, before);
    JustDeletedBuried(g, s1);
    RunBuried(g, s1, run);
    BuriedIsDead(g, After(s1, run));
  }

  lemma BuriedIsDead(g: Grave, t: State)
    requires AllBuried(g, t)
    ensures forall j | g.u <= j < |t.hist| :: !Live(t.hist[j], g.path)
    ensures forall d | d in t.devs && t.devs[d].seen >= g.u :: !Live(t.devs[d].local.rows, g.path)
    ensures t.now > g.deletedAt + g.retention ==> forall d | d in t.devs :: !Live(t.devs[d].local.rows, g.path)
  {
    forall d | d in t.devs
      ensures t.devs[d].seen >= g.u ==> !Live(t.devs[d].local.rows, g.path)
      ensures t.now > g.deletedAt + g.retention ==> !Live(t.devs[d].local.rows, g.path)
    {
      assert DeviceBuried(g, t.devs[d], t.now);
      if t.now > g.deletedAt + g.retention { LateDeviceKnows(g, t.devs[d], t.now); }
      hide HistBuried, TaskTimely;
    }
  }
}
