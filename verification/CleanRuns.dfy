/** The runs in which the merge rule's guess of the common ancestor can be
    trusted, and the invariant those runs keep. */
module CleanRuns {
  import opened Rows
  import opened Merge
  import opened Protocol

  /** No edit of the path can fall between the pending snapshot and the reply. */
  predicate SlotLets(slot: Slot, p: string) {
    match slot
    case Free => true
    case Snapped(_) => false
    case Sent(paths, force, _, _, _, _) => !force && p !in paths
    case Accepted(paths, force, _) => !force && p !in paths
  }

  /** A path may be edited when its row is not already waiting for upload and the
      edit cannot fall between the pending snapshot and the reply. */
  predicate EditAllowed(v: Device, p: string) {
    !IsPending(v.local.rows, p) && SlotLets(v.slot, p)
  }

  /** Conflict copies get paths nobody has used. */
  ghost predicate FreshEverywhere(s: State, nm: Naming)
    requires s.hist != []
  {
    forall c | c in nm.originOf :: c !in s.names && c !in Current(s.hist) && forall d | d in s.devs :: c !in s.devs[d].local.rows
  }

  /** No tombstone is met for a path the device has no row for. */
  ghost predicate KnownTombstones(t: Table, s: Table) {
    forall p | p in s && s[p].deleted :: p in t
  }

  /** The device's own upload is not merged back before its reply arrives. */
  predicate NotOwnUpload(slot: Slot, w: nat) {
    slot.Accepted? ==> w < slot.version
  }

  /** What a clean run asks of step `a` of device `v`. */
  ghost predicate Careful(s: State, v: Device, a: Action)
    requires s.hist != []
  {
    match a
    case Write(d, p, key, size) => EditAllowed(v, p) && key !in s.keys && (p !in v.local.rows ==> p !in s.names)
    case Remove(d, p) => EditAllowed(v, p)
    case Move(d, p, dst) => false
    case LoseReply(d) => false
    case PurgeTombstones(d, retention) => false
    case MergeBlob(d, i, order, nm) =>
      TaskOf(v, i).BlobRead? && TaskOf(v, i).w < |s.hist| ==>
        && NotOwnUpload(v.slot, TaskOf(v, i).w)
        && KnownTombstones(v.local.rows, s.hist[TaskOf(v, i).w])
        && FreshNames(v.local.rows, s.hist[TaskOf(v, i).w], nm)
        && FreshEverywhere(s, nm)
    case Accept(d) => v.slot.Sent? && v.slot.force ==> |s.hist| == 1
    case _ => true
  }

  ghost predicate Clean(s: State, a: Action) {
    Enabled(s, a) && !a.Tick? ==> Careful(s, s.devs[a.d], a)
  }

  ghost predicate CleanRun(s: State, run: seq<Action>) {
    run == [] ||
    (CleanRun(s, run[..|run| - 1]) && Clean(After(s, run[..|run| - 1]), run[|run| - 1]))
  }

  /* The invariant of the server. */

  ghost predicate Grows(h: Table, h': Table) {
    forall p | p in h :: p in h' && h[p].version <= h'[p].version
  }

  ghost predicate Logged(h: Table, log: map<(string, int), Content>) {
    forall p | p in h :: (p, h[p].version) in log && log[(p, h[p].version)] == ContentOf(h[p])
  }

  ghost predicate ServerOk(hist: seq<Table>, log: map<(string, int), Content>) {
    && hist != []
    && (forall i, j | 0 <= i <= j < |hist| :: Grows(hist[i], hist[j]))
    && (forall i | 0 <= i < |hist| :: Logged(hist[i], log))
    && (forall k | k in log :: k.0 in Current(hist) && 1 <= k.1 <= Current(hist)[k.0].version)
  }

  /* The invariant of a device. */

  /** `b` is the server version row `r` at `p` was edited from: it is the
      ancestor the merge rule infers, unless `r` is a conflict copy the server
      has not seen. */
  ghost predicate RowOk(log: map<(string, int), Content>, names: set<string>, p: string, r: Row, b: int) {
    && 1 <= r.version && 0 <= b
    && (b > 0 ==> (p, b) in log)
    && ((p in names && b == 0) || b == InferredBase(r))
    && (b > 0 && r.status != Pending ==> (p, r.version) in log && log[(p, r.version)] == ContentOf(r))
  }

  ghost predicate TableOk(log: map<(string, int), Content>, names: set<string>, t: Table, bases: map<string, int>) {
    && bases.Keys == t.Keys
    && forall p | p in t :: RowOk(log, names, p, t[p], bases[p])
  }

  /** Everything in server table `h` has been absorbed. */
  ghost predicate Behind(h: Table, t: Table) {
    forall p | p in h :: p in t && h[p].version <= InferredBase(t[p])
  }

  /** The local table still is what was sent, save for later edits of rows that
      were not part of the snapshot. */
  ghost predicate Flight(v: Device, paths: set<string>, force: bool, t: Table) {
    && (forall p | p in t :: p in v.local.rows && StillSent(v.local.rows[p], t[p], !force && p !in paths))
    && (force ==> t.Keys == v.local.rows.Keys)
    && (!force ==> PendingPaths(t) <= paths <= t.Keys)
  }

  predicate StillSent(now: Row, sent: Row, editable: bool) {
    now == sent || (editable && sent.status != Pending && now.status == Pending && now.version == sent.version + 1)
  }

  ghost predicate SlotOk(hist: seq<Table>, log: map<(string, int), Content>, names: set<string>, v: Device)
    requires hist != []
  {
    match v.slot
    case Free => true
    case Snapped(paths) => PendingPaths(v.local.rows) <= paths <= v.local.rows.Keys
    case Sent(paths, force, base, t, bases, _) =>
      base == |hist| - 1 ==>
        && v.seen == base
        && Flight(v, paths, force, t)
        && TableOk(log, names, t, bases)
        && Behind(Current(hist), t)
        && (forall p | p in t :: p in v.bases && v.bases[p] == bases[p])
    case Accepted(paths, force, n) =>
      && 0 < n < |hist| && v.seen == n - 1
      && Flight(v, paths, force, hist[n])
  }

  ghost predicate DeviceOk(hist: seq<Table>, log: map<(string, int), Content>, names: set<string>, v: Device)
    requires hist != []
  {
    && v.last <= v.seen < |hist|
    && (forall i | i in v.tasks :: TaskSound(v.tasks[i], |hist|))
    && TableOk(log, names, v.local.rows, v.bases)
    && Behind(hist[v.seen], v.local.rows)
    && (v.slot.Sent? ==> v.slot.base <= v.seen && (v.slot.force ==> v.slot.base == 0))
    && SlotOk(hist, log, names, v)
  }

  /** A conflict copy the server has not seen belongs to one device alone. */
  predicate Private(s: State, d: string, p: string)
    requires d in s.devs
  {
    var v := s.devs[d];
    && p in v.local.rows && p in s.names && BaseOf(v.bases, p) == 0
    && !(v.slot.Accepted? && v.slot.version < |s.hist| && p in s.hist[v.slot.version])
  }

  ghost predicate PrivateOk(s: State)
    requires s.hist != []
  {
    forall d, p | d in s.devs && Private(s, d, p) ::
      p !in Current(s.hist) && forall e | e in s.devs && e != d :: p !in s.devs[e].local.rows
  }

  ghost predicate Inv(s: State) {
    && ServerOk(s.hist, s.log)
    && (forall d | d in s.devs :: DeviceOk(s.hist, s.log, s.names, s.devs[d]))
    && PrivateOk(s)
  }

  lemma InitInv(s: State)
    requires Init(s)
    ensures Inv(s)
  {
  }

  /* Edits. */

  /** What a local edit does to the table, whatever the edit. */
  ghost predicate EditedAt(t: Table, t': Table, p: string) {
    && p in t' && t' == t[p := t'[p]]
    && t'[p].status == Pending
    && t'[p].version == if p in t then t[p].version + 1 else 1
  }

  lemma WriteEdits(l: Local, d: string, p: string, key: Key, size: nat, now: real)
    ensures EditedAt(l.rows, WriteLocal(l, d, p, key, size, now).rows, p)
  {
  }

  lemma RemoveEdits(l: Local, d: string, p: string, now: real)
    requires p in l.rows
    ensures EditedAt(l.rows, RemoveLocal(l, d, p, now).rows, p)
  {
  }

  lemma TableEdited(log: map<(string, int), Content>, names: set<string>, h: Table, t: Table, t': Table,
                    bases: map<string, int>, p: string)
    requires TableOk(log, names, t, bases) && Behind(h, t)
    requires !IsPending(t, p) && EditedAt(t, t', p)
    ensures TableOk(log, names, t', bases[p := BaseOf(bases, p)]) && Behind(h, t')
  {
    var bases' := bases[p := BaseOf(bases, p)];
    forall q | q in t' ensures RowOk(log, names, q, t'[q], bases'[q]) {
      if q in t { assert RowOk(log, names, q, t[q], bases[q]); }
    }
    forall q | q in h ensures q in t' && h[q].version <= InferredBase(t'[q]) {
      assert q in t;
    }
  }

  lemma SlotEdited(hist: seq<Table>, log: map<(string, int), Content>, names: set<string>, v: Device, v': Device, p: string)
    requires hist != [] && SlotOk(hist, log, names, v)
    requires v.bases.Keys == v.local.rows.Keys
    requires EditAllowed(v, p) && EditedAt(v.local.rows, v'.local.rows, p)
    requires v' == v.(local := v'.local, bases := v.bases[p := BaseOf(v.bases, p)])
    ensures SlotOk(hist, log, names, v')
  {
    hide TableOk, Behind, Flight, StillSent, EditedAt;
    match v.slot
    case Free =>
    case Snapped(_) =>
    case Sent(paths, force, base, sent, bases, _) =>
      if base == |hist| - 1 { FlightEdited(v, v', p, paths, force, sent); }
    case Accepted(paths, force, n) =>
      FlightEdited(v, v', p, paths, force, hist[n]);
  }

  lemma EditOk(hist: seq<Table>, log: map<(string, int), Content>, names: set<string>, v: Device, v': Device, p: string)
    requires hist != [] && DeviceOk(hist, log, names, v)
    requires EditAllowed(v, p) && EditedAt(v.local.rows, v'.local.rows, p)
    requires v' == v.(local := v'.local, bases := v.bases[p := BaseOf(v.bases, p)])
    ensures DeviceOk(hist, log, names, v')
  {
    assert v.bases.Keys == v.local.rows.Keys;
    hide TableOk, Behind, EditedAt, SlotOk, RowOk;
    TableEdited(log, names, hist[v.seen], v.local.rows, v'.local.rows, v.bases, p);
    SlotEdited(hist, log, names, v, v', p);
  }

  lemma FlightEdited(v: Device, v': Device, p: string, paths: set<string>, force: bool, t: Table)
    requires Flight(v, paths, force, t) && !IsPending(v.local.rows, p) && EditedAt(v.local.rows, v'.local.rows, p)
    requires !force && p !in paths
    ensures Flight(v', paths, force, t)
  {
    forall q | q in t ensures q in v'.local.rows && StillSent(v'.local.rows[q], t[q], !force && q !in paths) {
      assert q in v.local.rows && StillSent(v.local.rows[q], t[q], !force && q !in paths);
    }
  }

  /* Merges. */

  /** A server table that is no news leaves the device as it is. */
  lemma StaleMerge(g: Table, h: Table, l: Local, nm: Naming)
    requires Behind(g, l.rows) && Grows(h, g)
    ensures MergeLocal(l, h, h.Keys, nm) == l
  {
    forall p | p in h ensures !Adopts(l.rows, h, p) {
      assert p in g;
    }
    hide Adopts, MergeLocal, Behind, Grows;
    NothingAdopted(l, h, nm);
  }

  lemma RowMerged(log: map<(string, int), Content>, names: set<string>, h: Table, t: Table, bases: map<string, int>,
                  nm: Naming, p: string)
    requires TableOk(log, names, t, bases) && Logged(h, log) && FreshNames(t, h, nm)
    requires forall k | k in log :: 1 <= k.1
    requires p in MergeTable(t, h, h.Keys, nm)
    ensures var t' := MergeTable(t, h, h.Keys, nm);
      var b := if p in h && RowAt(t, p) != RowAt(t', p) then h[p].version else BaseOf(bases, p);
      && RowOk(log, names + nm.originOf.Keys, p, t'[p], b)
      && (p !in t && p !in h ==> p in nm.originOf)
      && (t'[p].status == Pending ==> p in t && t[p] == t'[p])
  {
    hide MergeTable, FreshNames;
    var t' := MergeTable(t, h, h.Keys, nm);
    MergeTableAt(t, h, nm, p);
    assert p in t ==> RowOk(log, names, p, t[p], bases[p]);
    assert p in h ==> (p, h[p].version) in log && log[(p, h[p].version)] == ContentOf(h[p]);
    if p !in h && p !in t {
      var q := nm.originOf[p];
      assert q in t && RowOk(log, names, q, t[q], bases[q]);
    }
    hide TableOk, Logged;
  }

  lemma BehindMerged(h: Table, t: Table, nm: Naming)
    requires FreshNames(t, h, nm) && KnownTombstones(t, h)
    ensures Behind(h, MergeTable(t, h, h.Keys, nm))
  {
    forall p | p in h
      ensures p in MergeTable(t, h, h.Keys, nm) && h[p].version <= InferredBase(MergeTable(t, h, h.Keys, nm)[p])
    {
      MergeTableAt(t, h, nm, p);
      hide MergeTable, FreshNames;
    }
  }

  lemma TableMerged(log: map<(string, int), Content>, names: set<string>, h: Table, t: Table, bases: map<string, int>, nm: Naming)
    requires TableOk(log, names, t, bases) && Logged(h, log) && FreshNames(t, h, nm) && KnownTombstones(t, h)
    requires forall k | k in log :: 1 <= k.1
    ensures var t' := MergeTable(t, h, h.Keys, nm);
      && TableOk(log, names + nm.originOf.Keys, t', BasesAfterMerge(t, t', h, bases))
      && Behind(h, t')
      && PendingPaths(t') <= PendingPaths(t)
      && t'.Keys <= t.Keys + h.Keys + nm.originOf.Keys
  {
    hide MergeTable, FreshNames, RowOk, Logged, KnownTombstones, Behind, RowAt;
    var t' := MergeTable(t, h, h.Keys, nm);
    BehindMerged(h, t, nm);
    forall p | p in t'
      ensures RowOk(log, names + nm.originOf.Keys, p, t'[p], BasesAfterMerge(t, t', h, bases)[p])
      ensures p in t.Keys + h.Keys + nm.originOf.Keys
      ensures t'[p].status == Pending ==> p in t && t[p] == t'[p]
    {
      RowMerged(log, names, h, t, bases, nm, p);
    }
  }

  /* Acknowledgements. */

  lemma RowAcked(log: map<(string, int), Content>, names: set<string>, p: string, sent: Row, r: Row, b: int, editable: bool, flip: bool)
    requires RowOk(log, names, p, r, b) && StillSent(r, sent, editable)
    requires (p, sent.version) in log && log[(p, sent.version)] == ContentOf(sent) && 1 <= sent.version
    requires editable ==> !flip
    requires sent.status == Pending ==> flip
    ensures RowOk(log, names, p, if flip then r.(status := Synced) else r, sent.version)
    ensures sent.version <= InferredBase(if flip then r.(status := Synced) else r)
  {
  }

  predicate Flips(v: Device, p: string) {
    v.slot.Accepted? && if v.slot.force then IsPending(v.local.rows, p) else p in v.slot.paths
  }

  lemma AckRows(hist: seq<Table>, v: Device)
    requires v.slot.Accepted? && v.slot.version < |hist|
    ensures var v' := AckDevice(hist, v); var sent := hist[v.slot.version];
      && v'.local.rows.Keys == v.local.rows.Keys
      && (forall p | p in v.local.rows :: v'.local.rows[p] == if Flips(v, p) then v.local.rows[p].(status := Synced) else v.local.rows[p])
      && v'.bases.Keys == v.bases.Keys + sent.Keys
      && forall p | p in v'.bases :: v'.bases[p] == if p in sent then sent[p].version else v.bases[p]
  {
  }

  lemma TableAcked(hist: seq<Table>, log: map<(string, int), Content>, names: set<string>, v: Device)
    requires v.slot.Accepted? && v.slot.version < |hist|
    requires TableOk(log, names, v.local.rows, v.bases) && Flight(v, v.slot.paths, v.slot.force, hist[v.slot.version])
    requires Logged(hist[v.slot.version], log)
    requires forall k | k in log :: 1 <= k.1
    ensures var v' := AckDevice(hist, v);
      TableOk(log, names, v'.local.rows, v'.bases) && Behind(hist[v.slot.version], v'.local.rows)
  {
    hide AckDevice, RowOk, InferredBase, Logged, StillSent, Flips;
    var v' := AckDevice(hist, v);
    AckRows(hist, v);
    forall p | p in v.local.rows
      ensures p in v'.bases && RowOk(log, names, p, v'.local.rows[p], v'.bases[p])
      ensures p in hist[v.slot.version] ==> hist[v.slot.version][p].version <= InferredBase(v'.local.rows[p])
    {
      RowAckedIn(log, names, v, hist[v.slot.version], p);
    }
  }

  lemma RowAckedIn(log: map<(string, int), Content>, names: set<string>, v: Device, sent: Table, p: string)
    requires v.slot.Accepted? && TableOk(log, names, v.local.rows, v.bases) && Flight(v, v.slot.paths, v.slot.force, sent)
    requires Logged(sent, log) && forall k | k in log :: 1 <= k.1
    requires p in v.local.rows
    ensures var r := if Flips(v, p) then v.local.rows[p].(status := Synced) else v.local.rows[p];
      && RowOk(log, names, p, r, if p in sent then sent[p].version else v.bases[p])
      && (p in sent ==> sent[p].version <= InferredBase(r))
  {
    assert RowOk(log, names, p, v.local.rows[p], v.bases[p]);
    if p in sent {
      var editable := !v.slot.force && p !in v.slot.paths;
      assert StillSent(v.local.rows[p], sent[p], editable);
      assert (p, sent[p].version) in log && log[(p, sent[p].version)] == ContentOf(sent[p]);
      assert 1 <= (p, sent[p].version).1;
      PendingFlips(v, sent, p);
      hide TableOk, Flight, Logged, Flips;
      RowAcked(log, names, p, sent[p], v.local.rows[p], v.bases[p], editable, Flips(v, p));
    }
  }

  lemma PendingFlips(v: Device, sent: Table, p: string)
    requires v.slot.Accepted? && Flight(v, v.slot.paths, v.slot.force, sent) && p in sent
    ensures sent[p].status == Pending ==> Flips(v, p)
    ensures !v.slot.force && p !in v.slot.paths ==> !Flips(v, p)
  {
    assert StillSent(v.local.rows[p], sent[p], !v.slot.force && p !in v.slot.paths);
    if !v.slot.force && sent[p].status == Pending { assert p in PendingPaths(sent); }
  }

  /* Accepted uploads. */

  /** Table `t` replaces server table `h` without losing anything: every row is
      the server's own, or was edited from exactly the server's version. */
  ghost predicate FastForward(h: Table, t: Table, bases: map<string, int>) {
    && (forall p | p in h :: p in t && (ContentOf(t[p]) == ContentOf(h[p]) || (BaseOf(bases, p) == h[p].version < t[p].version)))
    && (forall p | p in t && p !in h :: BaseOf(bases, p) == 0)
  }

  lemma UploadIsFastForward(log: map<(string, int), Content>, names: set<string>, h: Table, t: Table, bases: map<string, int>)
    requires TableOk(log, names, t, bases) && Behind(h, t) && Logged(h, log)
    requires forall k | k in log :: k.0 in h && 1 <= k.1 <= h[k.0].version
    requires forall p | p in t && p in names && bases[p] == 0 :: p !in h
    ensures FastForward(h, t, bases)
  {
    forall p | p in h
      ensures p in t && (ContentOf(t[p]) == ContentOf(h[p]) || (BaseOf(bases, p) == h[p].version < t[p].version))
    {
      assert (p, h[p].version) in log;
      assert RowOk(log, names, p, t[p], bases[p]);
      assert (p, bases[p]) in log;
    }
    forall p | p in t && p !in h ensures BaseOf(bases, p) == 0 {
      assert RowOk(log, names, p, t[p], bases[p]);
      assert BaseOf(bases, p) > 0 ==> (p, BaseOf(bases, p)) in log;
    }
  }

  predicate LogGrows(log: map<(string, int), Content>, log': map<(string, int), Content>) {
    forall k | k in log :: k in log' && log'[k] == log[k]
  }

  lemma LogTableIs(log: map<(string, int), Content>, t: Table)
    ensures var log' := LogTable(log, t);
      && LogGrows(log, log')
      && (forall p | p in t :: (p, t[p].version) in log')
      && (forall p | p in t && (p, t[p].version) !in log :: log'[(p, t[p].version)] == ContentOf(t[p]))
      && (forall k | k in log' && k !in log :: k.0 in t && k.1 == t[k.0].version)
  {
  }

  lemma UploadLogged(log: map<(string, int), Content>, h: Table, t: Table, bases: map<string, int>)
    requires FastForward(h, t, bases) && Logged(h, log)
    requires forall k | k in log :: k.0 in h && 1 <= k.1 <= h[k.0].version
    requires forall p | p in t :: 1 <= t[p].version
    ensures Grows(h, t) && Logged(t, LogTable(log, t))
    ensures forall k | k in LogTable(log, t) :: k.0 in t && 1 <= k.1 <= t[k.0].version
  {
    LogTableIs(log, t);
    var log' := LogTable(log, t);
    hide LogTable;
    forall p | p in h ensures p in t && h[p].version <= t[p].version {
      assert ContentOf(t[p]) == ContentOf(h[p]) || h[p].version < t[p].version;
    }
    forall p | p in t ensures log'[(p, t[p].version)] == ContentOf(t[p]) {
      if (p, t[p].version) in log {
        assert p in h && t[p].version <= h[p].version;
        assert ContentOf(t[p]) == ContentOf(h[p]);
      }
    }
    forall k | k in log' ensures k.0 in t && 1 <= k.1 <= t[k.0].version {
      if k in log { assert h[k.0].version <= t[k.0].version; }
    }
  }

  lemma ServerExtended(hist: seq<Table>, log: map<(string, int), Content>, t: Table, bases: map<string, int>)
    requires ServerOk(hist, log) && FastForward(Current(hist), t, bases)
    requires forall p | p in t :: 1 <= t[p].version
    ensures ServerOk(hist + [t], LogTable(log, t)) && LogGrows(log, LogTable(log, t))
  {
    hide LogTable, FastForward, Grows, Logged, LogGrows;
    var h, hist', log' := Current(hist), hist + [t], LogTable(log, t);
    GrowsReflexive(t);
    UploadLogged(log, h, t, bases);
    LogTableIs(log, t);
    assert Current(hist') == t;
    forall i | 0 <= i < |hist'| ensures Logged(hist'[i], log') && Grows(hist'[i], t) {
      if i < |hist| {
        assert hist'[i] == hist[i] && Logged(hist[i], log);
        assert Grows(hist[i], hist[|hist| - 1]);
        GrowsTransitive(hist[i], h, t);
        LoggedGrows(hist[i], log, log');
      }
    }
    forall i, j | 0 <= i <= j < |hist'| ensures Grows(hist'[i], hist'[j]) {
      if j < |hist| { assert Grows(hist[i], hist[j]); }
    }
  }

  lemma GrowsReflexive(t: Table)
    ensures Grows(t, t)
  {
  }

  lemma GrowsTransitive(a: Table, b: Table, c: Table)
    requires Grows(a, b) && Grows(b, c)
    ensures Grows(a, c)
  {
    forall p | p in a ensures p in c && a[p].version <= c[p].version {
      assert p in b;
    }
  }

  lemma LoggedGrows(h: Table, log: map<(string, int), Content>, log': map<(string, int), Content>)
    requires Logged(h, log) && LogGrows(log, log')
    ensures Logged(h, log')
  {
  }

  /* A device nobody touched is as good as before. */

  lemma TableGrows(log: map<(string, int), Content>, log': map<(string, int), Content>, names: set<string>, names': set<string>,
                   t: Table, bases: map<string, int>)
    requires TableOk(log, names, t, bases) && LogGrows(log, log') && names <= names'
    ensures TableOk(log', names', t, bases)
  {
    forall p | p in t ensures RowOk(log', names', p, t[p], bases[p]) {
      assert RowOk(log, names, p, t[p], bases[p]);
    }
  }

  lemma DeviceGrows(hist: seq<Table>, hist': seq<Table>, log: map<(string, int), Content>, log': map<(string, int), Content>,
                    names: set<string>, names': set<string>, v: Device)
    requires hist != [] && DeviceOk(hist, log, names, v)
    requires hist <= hist' && LogGrows(log, log') && names <= names'
    ensures DeviceOk(hist', log', names', v)
  {
    hide Behind, Flight, LogGrows, TableOk;
    TableGrows(log, log', names, names', v.local.rows, v.bases);
    if v.slot.Sent? && v.slot.base == |hist'| - 1 {
      assert |hist| == |hist'| && hist == hist';
      TableGrows(log, log', names, names', v.slot.table, v.slot.bases);
    }
  }
}
