/** Who holds the bytes: takeovers, deletions, merges and orphan collection on
    many devices never leave a live server row pointing at nothing. */
module Ownership {
  import opened Rows
  import opened Merge
  import opened Protocol
  import opened CleanRuns
  import opened NoLostUpdate

  predicate Mine(t: Table, p: string, d: string) {
    p in t && !t[p].deleted && t[p].deviceId == Some(d)
  }

  /** Every row names a device, and that device made its physical file. */
  ghost predicate Keyed(keys: map<Key, string>, t: Table) {
    forall p | p in t :: KeyOf(t[p]) in keys && t[p].deviceId == Some(keys[KeyOf(t[p])])
  }

  /** Live rows with local news are the device's own. */
  ghost predicate NewsIsMine(names: set<string>, t: Table, bases: map<string, int>, d: string) {
    forall p | p in t && !t[p].deleted && (t[p].status == Pending || (p in names && BaseOf(bases, p) == 0)) ::
      t[p].deviceId == Some(d)
  }

  /** The device holds the file of each of its live rows, one file per row. */
  ghost predicate Held(keys: map<Key, string>, l: Local, d: string) {
    && (forall p | Mine(l.rows, p, d) :: KeyOf(l.rows[p]) in l.files)
    && (forall p, q | Mine(l.rows, p, d) && Mine(l.rows, q, d) && p != q :: KeyOf(l.rows[p]) != KeyOf(l.rows[q]))
    && (forall k | k in l.files :: k in keys && keys[k] == d)
  }

  /** Since server version `from`, nobody changed the rows of `d`. */
  ghost predicate Untouched(hist: seq<Table>, from: nat, to: nat, d: string)
    requires to <= |hist|
  {
    forall i, p | from <= i < to && Mine(hist[i], p, d) :: p in hist[from] && hist[from][p].version == hist[i][p].version
  }

  ghost predicate DeviceHolds(hist: seq<Table>, names: set<string>, keys: map<Key, string>, d: string, v: Device)
    requires v.seen < |hist|
  {
    && Keyed(keys, v.local.rows) && NewsIsMine(names, v.local.rows, v.bases, d) && Held(keys, v.local, d)
    && (v.slot.Sent? && v.slot.base == |hist| - 1 ==> Keyed(keys, v.slot.table) && NewsIsMine(names, v.slot.table, v.slot.bases, d))
    && if v.slot.Accepted? && v.slot.version <= |hist| then
         Untouched(hist, v.seen, v.slot.version, d) && Untouched(hist, v.slot.version, |hist|, d)
       else
         Untouched(hist, v.seen, |hist|, d)
  }

  ghost predicate OwnInv(s: State) {
    && (forall i | 0 <= i < |s.hist| :: Keyed(s.keys, s.hist[i]))
    && (forall k | k in s.keys :: s.keys[k] in s.devs)
    && (forall d | d in s.devs :: s.devs[d].seen < |s.hist| && DeviceHolds(s.hist, s.names, s.keys, d, s.devs[d]))
  }

  lemma InitOwn(s: State)
    requires Init(s)
    ensures OwnInv(s)
  {
  }

  /* Local edits. */

  lemma WriteHolds(keys: map<Key, string>, names: set<string>, l: Local, bases: map<string, int>,
                   d: string, p: string, key: Key, size: nat, now: real)
    requires Keyed(keys, l.rows) && NewsIsMine(names, l.rows, bases, d) && Held(keys, l, d) && key !in keys
    ensures var keys', l' := keys[key := d], WriteLocal(l, d, p, key, size, now);
      Keyed(keys', l'.rows) && NewsIsMine(names, l'.rows, bases[p := BaseOf(bases, p)], d) && Held(keys', l', d)
  {
    var keys', l' := keys[key := d], WriteLocal(l, d, p, key, size, now);
    var mine := Live(l.rows, p) && OwnedBy(l.rows[p], Some(d));
    assert l'.rows == l.rows[p := l'.rows[p]] && Mine(l'.rows, p, d);
    assert KeyOf(l'.rows[p]) == if mine then KeyOf(l.rows[p]) else key;
    assert l'.files == l.files + {KeyOf(l'.rows[p])};
    assert mine ==> Mine(l.rows, p, d);
    hide WriteLocal;
    forall q, q' | Mine(l'.rows, q, d) && Mine(l'.rows, q', d) && q != q'
      ensures KeyOf(l'.rows[q]) != KeyOf(l'.rows[q'])
    {
      assert q != p ==> Mine(l.rows, q, d);
      assert q' != p ==> Mine(l.rows, q', d);
    }
    forall q | Mine(l'.rows, q, d) ensures KeyOf(l'.rows[q]) in l'.files {
      assert q != p ==> Mine(l.rows, q, d);
    }
  }

  lemma RemoveHolds(keys: map<Key, string>, names: set<string>, l: Local, bases: map<string, int>, d: string, p: string, now: real)
    requires Keyed(keys, l.rows) && NewsIsMine(names, l.rows, bases, d) && Held(keys, l, d) && Live(l.rows, p)
    ensures var l' := RemoveLocal(l, d, p, now);
      Keyed(keys, l'.rows) && NewsIsMine(names, l'.rows, bases[p := BaseOf(bases, p)], d) && Held(keys, l', d)
  {
    var l' := RemoveLocal(l, d, p, now);
    assert forall q | Mine(l'.rows, q, d) :: q != p && Mine(l.rows, q, d) && l'.rows[q] == l.rows[q];
    assert OwnedBy(l.rows[p], Some(d)) ==> Mine(l.rows, p, d);
    hide RemoveLocal;
  }

  lemma KeysGrow(keys: map<Key, string>, key: Key, d: string, t: Table)
    requires Keyed(keys, t) && key !in keys
    ensures Keyed(keys[key := d], t)
  {
  }

  lemma HeldGrows(keys: map<Key, string>, key: Key, e: string, l: Local, d: string)
    requires Held(keys, l, d) && key !in keys
    ensures Held(keys[key := e], l, d)
  {
  }

  /* Merges. */

  /** Nothing of the device's own comes back from the server as news. */
  lemma NotAdopted(hist: seq<Table>, v: Device, d: string, w: nat, p: string)
    requires v.seen <= w < |hist| && Untouched(hist, v.seen, |hist|, d) && Behind(hist[v.seen], v.local.rows)
    requires Mine(hist[w], p, d)
    ensures !Adopts(v.local.rows, hist[w], p)
  {
  }

  /** Where a live row of the device's own in the merged table comes from. */
  lemma MergedMine(t: Table, h: Table, nm: Naming, d: string, q: string)
    requires FreshNames(t, h, nm)
    requires forall p | Mine(h, p, d) :: !Adopts(t, h, p)
    requires Mine(MergeTable(t, h, h.Keys, nm), q, d)
    ensures var m := MergeTable(t, h, h.Keys, nm);
      if q in t && !Adopts(t, h, q) then m[q] == t[q]
      else q in nm.originOf && q !in t && Mine(t, nm.originOf[q], d) && Conflicts(t, h, nm.originOf[q])
           && KeyOf(m[q]) == KeyOf(t[nm.originOf[q]])
  {
    MergeTableAt(t, h, nm, q);
  }

  lemma MergedKeyed(keys: map<Key, string>, t: Table, h: Table, nm: Naming)
    requires Keyed(keys, t) && Keyed(keys, h) && FreshNames(t, h, nm)
    ensures Keyed(keys, MergeTable(t, h, h.Keys, nm))
  {
    var m := MergeTable(t, h, h.Keys, nm);
    forall p | p in m ensures KeyOf(m[p]) in keys && m[p].deviceId == Some(keys[KeyOf(m[p])]) {
      MergeTableAt(t, h, nm, p);
      hide MergeTable, Classify, FreshNames, Adopts;
    }
  }

  lemma MergedNews(names: set<string>, t: Table, h: Table, bases: map<string, int>, nm: Naming, d: string)
    requires NewsIsMine(names, t, bases, d) && FreshNames(t, h, nm) && bases.Keys == t.Keys
    requires forall p | p in h :: 1 <= h[p].version
    requires forall c | c in nm.originOf :: c !in names
    ensures var m := MergeTable(t, h, h.Keys, nm);
      NewsIsMine(names + nm.originOf.Keys, m, BasesAfterMerge(t, m, h, bases), d)
  {
    var m := MergeTable(t, h, h.Keys, nm);
    var names' := names + nm.originOf.Keys;
    var bases' := BasesAfterMerge(t, m, h, bases);
    forall p | p in m && !m[p].deleted && (m[p].status == Pending || (p in names' && BaseOf(bases', p) == 0))
      ensures m[p].deviceId == Some(d)
    {
      MergeTableAt(t, h, nm, p);
      hide MergeTable, FreshNames;
      if p !in t && p !in h {
        assert t[nm.originOf[p]].status == Pending;
      }
    }
  }

  /** Where a merged row of this device comes from. */
  function OriginOf(t: Table, h: Table, nm: Naming, q: string): string {
    if (q in t && !Adopts(t, h, q)) || q !in nm.originOf then q else nm.originOf[q]
  }

  lemma OriginFacts(t: Table, h: Table, nm: Naming, d: string, q: string)
    requires FreshNames(t, h, nm) && (forall p | Mine(h, p, d) :: !Adopts(t, h, p)) && Mine(MergeTable(t, h, h.Keys, nm), q, d)
    ensures var o := OriginOf(t, h, nm, q);
      && Mine(t, o, d) && KeyOf(t[o]) == KeyOf(MergeTable(t, h, h.Keys, nm)[q]) && !Dooms(t, h, o)
      && ((q in t && !Adopts(t, h, q)) || (q in nm.originOf && Conflicts(t, h, nm.originOf[q])))
  {
    MergedMine(t, h, nm, d, q);
    hide MergeTable;
  }

  lemma HeldFile(keys: map<Key, string>, l: Local, h: Table, nm: Naming, d: string, q: string)
    requires Held(keys, l, d) && Keyed(keys, l.rows) && FreshNames(l.rows, h, nm) && forall p | Mine(h, p, d) :: !Adopts(l.rows, h, p)
    requires Mine(MergeTable(l.rows, h, h.Keys, nm), q, d)
    ensures KeyOf(MergeTable(l.rows, h, h.Keys, nm)[q]) in l.files - Doomed(l.rows, h, h.Keys)
  {
    OriginFacts(l.rows, h, nm, d, q);
    hide MergeTable, FreshNames, OriginOf, Conflicts, Adopts, Dooms, Doomed;
    KeyNotDoomed(keys, l, h, d, OriginOf(l.rows, h, nm, q));
  }

  lemma HeldApart(keys: map<Key, string>, l: Local, h: Table, nm: Naming, d: string, q: string, q': string)
    requires Held(keys, l, d) && FreshNames(l.rows, h, nm) && forall p | Mine(h, p, d) :: !Adopts(l.rows, h, p)
    requires var m := MergeTable(l.rows, h, h.Keys, nm); Mine(m, q, d) && Mine(m, q', d) && q != q'
    ensures var m := MergeTable(l.rows, h, h.Keys, nm); KeyOf(m[q]) != KeyOf(m[q'])
  {
    OriginFacts(l.rows, h, nm, d, q);
    OriginFacts(l.rows, h, nm, d, q');
    hide MergeTable, FreshNames, Conflicts, Adopts, Dooms;
    OriginsDiffer(l.rows, h, nm, q, q');
  }

  lemma MergedHeld(keys: map<Key, string>, l: Local, h: Table, nm: Naming, d: string)
    requires Held(keys, l, d) && Keyed(keys, l.rows) && FreshNames(l.rows, h, nm)
    requires forall p | Mine(h, p, d) :: !Adopts(l.rows, h, p)
    ensures Held(keys, MergeLocal(l, h, h.Keys, nm), d)
  {
    var m := MergeTable(l.rows, h, h.Keys, nm);
    hide MergeTable, FreshNames, Adopts, Doomed;
    forall q | Mine(m, q, d) ensures KeyOf(m[q]) in l.files - Doomed(l.rows, h, h.Keys) {
      HeldFile(keys, l, h, nm, d, q);
    }
    forall q, q' | Mine(m, q, d) && Mine(m, q', d) && q != q' ensures KeyOf(m[q]) != KeyOf(m[q']) {
      HeldApart(keys, l, h, nm, d, q, q');
    }
  }

  lemma OriginsDiffer(t: Table, h: Table, nm: Naming, q: string, q': string)
    requires FreshNames(t, h, nm) && q != q'
    requires (q in t && !Adopts(t, h, q)) || (q in nm.originOf && Conflicts(t, h, nm.originOf[q]))
    requires (q' in t && !Adopts(t, h, q')) || (q' in nm.originOf && Conflicts(t, h, nm.originOf[q']))
    ensures OriginOf(t, h, nm, q) != OriginOf(t, h, nm, q')
  {
  }

  /** A doomed file belongs to the one row that lost it. */
  lemma KeyNotDoomed(keys: map<Key, string>, l: Local, h: Table, d: string, o: string)
    requires Held(keys, l, d) && Keyed(keys, l.rows) && Mine(l.rows, o, d) && !Dooms(l.rows, h, o)
    ensures KeyOf(l.rows[o]) !in Doomed(l.rows, h, h.Keys)
  {
    var k := KeyOf(l.rows[o]);
    if k in Doomed(l.rows, h, h.Keys) {
      var p :| p in h.Keys && p in l.rows && Dooms(l.rows, h, p) && KeyOf(l.rows[p]) == k;
      assert l.rows[p].deviceId == Some(keys[k]) && l.rows[o].deviceId == Some(keys[k]);
      assert Mine(l.rows, p, d);
      assert false;
    }
  }

  /* Other steps. */

  lemma AckHolds(keys: map<Key, string>, names: set<string>, hist: seq<Table>, v: Device, d: string)
    requires v.slot.Accepted? && v.slot.version < |hist|
    requires Keyed(keys, v.local.rows) && NewsIsMine(names, v.local.rows, v.bases, d) && Held(keys, v.local, d)
    requires forall p | p in hist[v.slot.version] :: 1 <= hist[v.slot.version][p].version
    requires v.bases.Keys == v.local.rows.Keys
    ensures var v' := AckDevice(hist, v);
      Keyed(keys, v'.local.rows) && NewsIsMine(names, v'.local.rows, v'.bases, d) && Held(keys, v'.local, d)
  {
    hide AckDevice, Flips, Keyed, NewsIsMine, Held;
    var v' := AckDevice(hist, v);
    AckRows(hist, v);
    AckFiles(hist, v);
    SettledKeeps(keys, names, v.local, v.bases, v'.local, v'.bases, d);
  }

  lemma AckFiles(hist: seq<Table>, v: Device)
    ensures AckDevice(hist, v).local.files == v.local.files
  {
  }

  /** Rows that at most lost their pending mark, bases that at most got known. */
  lemma SettledKeeps(keys: map<Key, string>, names: set<string>, l: Local, bases: map<string, int>,
                     l': Local, bases': map<string, int>, d: string)
    requires Keyed(keys, l.rows) && NewsIsMine(names, l.rows, bases, d) && Held(keys, l, d)
    requires l'.files == l.files && l'.rows.Keys == l.rows.Keys
    requires forall p | p in l.rows :: l'.rows[p] == l.rows[p] || l'.rows[p] == l.rows[p].(status := Synced)
    requires forall p :: BaseOf(bases', p) == 0 ==> BaseOf(bases, p) == 0
    ensures Keyed(keys, l'.rows) && NewsIsMine(names, l'.rows, bases', d) && Held(keys, l', d)
  {
    forall p ensures Mine(l'.rows, p, d) <==> Mine(l.rows, p, d) {
    }
  }

  lemma CollectHolds(keys: map<Key, string>, l: Local, d: string, victims: set<Key>)
    requires Held(keys, l, d)
    ensures Held(keys, l.(files := l.files - (victims - LivePhysical(l.rows, d))), d)
  {
    forall p | Mine(l.rows, p, d) ensures KeyOf(l.rows[p]) in LivePhysical(l.rows, d) {
    }
  }

  /* What the server holds. */

  /** An upload of another device leaves the rows of `e` as they were. */
  lemma UploadLeavesOthers(log: map<(string, int), Content>, names: set<string>, h: Table, t: Table, bases: map<string, int>,
                           d: string, e: string, p: string)
    requires TableOk(log, names, t, bases) && FastForward(h, t, bases) && Logged(h, log) && NewsIsMine(names, t, bases, d)
    requires forall k | k in log :: k.0 in h && 1 <= k.1 <= h[k.0].version
    requires e != d && Mine(t, p, e)
    ensures Mine(h, p, e) && h[p].version == t[p].version
  {
    assert RowOk(log, names, p, t[p], bases[p]);
    assert (p, t[p].version) in log;
    assert ContentOf(t[p]) == ContentOf(h[p]);
  }

  lemma UntouchedExtend(hist: seq<Table>, from: nat, t: Table, e: string)
    requires from < |hist| && Untouched(hist, from, |hist|, e)
    requires forall p | Mine(t, p, e) :: Mine(Current(hist), p, e) && Current(hist)[p].version == t[p].version
    ensures Untouched(hist + [t], from, |hist| + 1, e)
  {
    var hist' := hist + [t];
    forall i, p | from <= i < |hist'| && Mine(hist'[i], p, e)
      ensures p in hist'[from] && hist'[from][p].version == hist'[i][p].version
    {
      if i == |hist| {
        assert Mine(hist[|hist| - 1], p, e);
      } else {
        assert hist'[i] == hist[i];
      }
    }
  }

  lemma UntouchedPrefix(hist: seq<Table>, hist': seq<Table>, from: nat, to: nat, e: string)
    requires to <= |hist| && hist <= hist' && Untouched(hist, from, to, e)
    ensures Untouched(hist', from, to, e)
  {
    forall i, p | from <= i < to && Mine(hist'[i], p, e)
      ensures p in hist'[from] && hist'[from][p].version == hist'[i][p].version
    {
      assert hist'[i] == hist[i] && hist'[from] == hist[from];
    }
  }

  lemma UntouchedLater(hist: seq<Table>, log: map<(string, int), Content>, from: nat, w: nat, d: string)
    requires ServerOk(hist, log) && from <= w < |hist| && Untouched(hist, from, |hist|, d)
    ensures Untouched(hist, w, |hist|, d)
  {
    forall i, p | w <= i < |hist| && Mine(hist[i], p, d)
      ensures p in hist[w] && hist[w][p].version == hist[i][p].version
    {
      assert Grows(hist[from], hist[w]) && Grows(hist[w], hist[i]);
    }
  }

  /* Whole steps. */

  /** The step leaves the device that took it in order. */
  ghost predicate Holds(s: State, s': State, d: string)
    requires d in s'.devs
  {
    s'.devs[d].seen < |s'.hist| && DeviceHolds(s'.hist, s'.names, s'.keys, d, s'.devs[d])
  }

  /** The device after a step that is neither a merge nor a reply. */
  lemma LocalStepHolds(hist: seq<Table>, names: set<string>, keys: map<Key, string>, keys': map<Key, string>, d: string,
                       v: Device, v': Device)
    requires v.seen < |hist| && DeviceHolds(hist, names, keys, d, v)
    requires v' == v.(local := v'.local, bases := v'.bases)
    requires Keyed(keys', v'.local.rows) && NewsIsMine(names, v'.local.rows, v'.bases, d) && Held(keys', v'.local, d)
    requires v.slot.Sent? && v.slot.base == |hist| - 1 ==> Keyed(keys', v.slot.table)
    ensures DeviceHolds(hist, names, keys', d, v')
  {
    hide Keyed, NewsIsMine, Held, Untouched;
  }

  lemma WriteStepHolds(s: State, d: string, p: string, key: Key, size: nat)
    requires OwnInv(s) && Enabled(s, Write(d, p, key, size)) && Clean(s, Write(d, p, key, size))
    ensures d in s.devs && Holds(s, Next(s, Write(d, p, key, size)), d)
  {
    var a := Write(d, p, key, size);
    NextShape(s, a);
    var s', v := Next(s, a), s.devs[d];
    assert key !in s.keys;
    hide Next, Can, Careful, WriteLocal, Keyed, NewsIsMine, Held, Untouched;
    WriteHolds(s.keys, s.names, v.local, v.bases, d, p, key, size, s.now);
    if v.slot.Sent? && v.slot.base == |s.hist| - 1 { KeysGrow(s.keys, key, d, v.slot.table); }
    LocalStepHolds(s.hist, s.names, s.keys, s'.keys, d, v, s'.devs[d]);
  }

  lemma RemoveStepHolds(s: State, d: string, p: string)
    requires OwnInv(s) && Enabled(s, Remove(d, p))
    ensures d in s.devs && Holds(s, Next(s, Remove(d, p)), d)
  {
    var a := Remove(d, p);
    NextShape(s, a);
    var s', v := Next(s, a), s.devs[d];
    assert Live(v.local.rows, p);
    hide Next, Can, RemoveLocal, Keyed, NewsIsMine, Held, Untouched;
    RemoveHolds(s.keys, s.names, v.local, v.bases, d, p, s.now);
    LocalStepHolds(s.hist, s.names, s.keys, s'.keys, d, v, s'.devs[d]);
  }

  lemma MergeHolds(s: State, a: Action)
    requires Inv(s) && OwnInv(s) && Enabled(s, a) && Clean(s, a) && a.MergeBlob?
    ensures Holds(s, Next(s, a), a.d)
  {
    var s' := Next(s, a);
    var v, v' := s.devs[a.d], s'.devs[a.d];
    var w := TaskOf(v, a.i).w;
    var h := s.hist[w];
    NextShape(s, a);
    assert s'.keys == s.keys && v' == MergeDevice(s.hist, v, a.i, a.order, a.nm);
    assert DeviceOk(s.hist, s.log, s.names, v) && DeviceHolds(s.hist, s.names, s.keys, a.d, v) && Keyed(s.keys, h);
    hide Next, Enabled, Clean, Can, StepDevice, OwnInv, Inv, PrivateOk, Enumerates, FreshNames, MergeDevice, KnownTombstones;
    hide Keyed, NewsIsMine, Held, Untouched, ServerOk, FreshEverywhere;
    PatchedDevice(s.hist, v, a.i, a.order, a.nm);
    if w <= v.seen {
      assert Grows(h, s.hist[v.seen]) by { GrowsAt(s.hist, s.log, w, v.seen); }
      assert Behind(s.hist[v.seen], v.local.rows) && v.bases.Keys == v.local.rows.Keys;
      BasesUnmoved(s.log, s.names, v.local.rows, h, v.bases);
      hide DeviceOk, BasesAfterMerge, MergeLocal, Behind, Grows;
      StaleMerge(s.hist[v.seen], h, v.local, a.nm);
      assert v'.local == v.local && v'.bases == v.bases && v'.seen == v.seen && v'.slot == v.slot;
      NamesGrow(s, a.d, a.nm);
    } else {
      NewsHolds(s, a.d, w, a.nm);
      assert v.slot.Free? || v.slot.Snapped? || (v.slot.Sent? && v.slot.base < |s.hist| - 1);
    }
  }

  lemma GrowsAt(hist: seq<Table>, log: map<(string, int), Content>, i: nat, j: nat)
    requires ServerOk(hist, log) && i <= j < |hist|
    ensures Grows(hist[i], hist[j])
  {
  }

  /** New names mean nothing to devices that do not have the paths. */
  lemma NamesGrow(s: State, d: string, nm: Naming)
    requires Inv(s) && d in s.devs && FreshEverywhere(s, nm) && s.devs[d].seen < |s.hist|
    requires DeviceHolds(s.hist, s.names, s.keys, d, s.devs[d])
    ensures DeviceHolds(s.hist, s.names + nm.originOf.Keys, s.keys, d, s.devs[d])
  {
    var v := s.devs[d];
    assert DeviceOk(s.hist, s.log, s.names, v);
    assert forall c | c in nm.originOf :: c !in v.local.rows;
    assert v.slot.Sent? && v.slot.base == |s.hist| - 1 ==> v.slot.table.Keys <= v.local.rows.Keys;
    hide DeviceOk, Inv, Keyed, Held, Untouched;
  }

  lemma NewsHolds(s: State, d: string, w: nat, nm: Naming)
    requires Inv(s) && d in s.devs && FreshEverywhere(s, nm) && s.devs[d].seen < w < |s.hist|
    requires DeviceHolds(s.hist, s.names, s.keys, d, s.devs[d]) && Keyed(s.keys, s.hist[w])
    requires FreshNames(s.devs[d].local.rows, s.hist[w], nm) && NotOwnUpload(s.devs[d].slot, w)
    ensures var v, h := s.devs[d], s.hist[w]; var l := MergeLocal(v.local, h, h.Keys, nm);
      && Keyed(s.keys, l.rows) && Held(s.keys, l, d)
      && NewsIsMine(s.names + nm.originOf.Keys, l.rows, BasesAfterMerge(v.local.rows, l.rows, h, v.bases), d)
      && Untouched(s.hist, w, |s.hist|, d)
  {
    var v, h := s.devs[d], s.hist[w];
    assert DeviceOk(s.hist, s.log, s.names, v);
    assert !v.slot.Accepted? && Behind(s.hist[v.seen], v.local.rows) && v.bases.Keys == v.local.rows.Keys;
    assert forall c | c in nm.originOf :: c !in s.names;
    hide DeviceOk, FreshNames, PrivateOk, Keyed, Held, NewsIsMine, FreshEverywhere, MergeTable, BasesAfterMerge, Doomed;
    OlderPaths(s.hist, s.log, w);
    UntouchedLater(s.hist, s.log, v.seen, w, d);
    hide ServerOk;
    forall p | Mine(h, p, d) ensures !Adopts(v.local.rows, h, p) {
      NotAdopted(s.hist, v, d, w, p);
    }
    hide Untouched, Adopts, Behind;
    MergedKeyed(s.keys, v.local.rows, h, nm);
    MergedNews(s.names, v.local.rows, h, v.bases, nm, d);
    MergedHeld(s.keys, v.local, h, nm, d);
  }

  lemma AckDeviceHolds(hist: seq<Table>, names: set<string>, keys: map<Key, string>, d: string, v: Device)
    requires v.seen < |hist| && DeviceHolds(hist, names, keys, d, v)
    requires v.slot.Accepted? && v.seen <= v.slot.version < |hist| && v.bases.Keys == v.local.rows.Keys
    requires forall p | p in hist[v.slot.version] :: 1 <= hist[v.slot.version][p].version
    ensures var v' := AckDevice(hist, v); v'.seen < |hist| && DeviceHolds(hist, names, keys, d, v')
  {
    hide AckDevice, Keyed, NewsIsMine, Held, Untouched;
    AckHolds(keys, names, hist, v, d);
    AckSeen(hist, v);
  }

  lemma AckSeen(hist: seq<Table>, v: Device)
    requires v.slot.Accepted? && v.seen <= v.slot.version
    ensures AckDevice(hist, v).seen == v.slot.version && AckDevice(hist, v).slot == Free
  {
  }

  lemma DeviceFacts(s: State, d: string)
    requires Inv(s) && d in s.devs
    ensures s.devs[d].bases.Keys == s.devs[d].local.rows.Keys && ServerOk(s.hist, s.log)
    ensures DeviceOk(s.hist, s.log, s.names, s.devs[d])
    ensures s.devs[d].slot.Accepted? ==> s.devs[d].seen <= s.devs[d].slot.version < |s.hist|
    ensures s.devs[d].slot.Sent? ==> s.devs[d].slot.base < |s.hist|
  {
    hide ServerOk, PrivateOk, Behind, Flight, RowOk;
    assert DeviceOk(s.hist, s.log, s.names, s.devs[d]);
  }

  lemma AckStepHolds(s: State, d: string)
    requires Inv(s) && OwnInv(s) && Enabled(s, Ack(d))
    ensures d in s.devs && Holds(s, Next(s, Ack(d)), d)
  {
    hide Next, DeviceOk, ServerOk, Inv, DeviceHolds, AckDevice, Keyed;
    NextShape(s, Ack(d));
    DeviceFacts(s, d);
    OlderPaths(s.hist, s.log, s.devs[d].slot.version);
    AckDeviceHolds(s.hist, s.names, s.keys, d, s.devs[d]);
  }

  lemma AcceptStepHolds(s: State, d: string)
    requires Inv(s) && OwnInv(s) && Enabled(s, Accept(d)) && Clean(s, Accept(d))
    ensures OwnInv(Next(s, Accept(d)))
  {
    hide Next, Can, Careful, StepDevice, DeviceOk, Inv, DeviceHolds, Keyed, LogTable, FastForward;
    ReplyIsSound(s, d);
    NextShape(s, Accept(d));
    var s', v := Next(s, Accept(d)), s.devs[d];
    var t := v.slot.table;
    AcceptInv(s, d);
    forall e | e in s.devs && e != d ensures Holds(s, s', e) {
      OtherSeesUpload(s, s', d, e);
    }
    SentFacts(s.hist, s.log, s.names, v);
    AcceptedHolds(s.hist, s.names, s.keys, d, v);
    forall i | 0 <= i < |s'.hist| ensures Keyed(s'.keys, s'.hist[i]) {
      if i < |s.hist| { assert s'.hist[i] == s.hist[i]; }
    }
  }

  lemma AcceptedHolds(hist: seq<Table>, names: set<string>, keys: map<Key, string>, d: string, v: Device)
    requires v.seen < |hist| && DeviceHolds(hist, names, keys, d, v)
    requires v.slot.Sent? && v.slot.base == |hist| - 1 && v.seen == |hist| - 1
    ensures Keyed(keys, v.slot.table)
    ensures DeviceHolds(hist + [v.slot.table], names, keys, d, v.(slot := Accepted(v.slot.paths, v.slot.force, |hist|)))
  {
    hide Keyed, NewsIsMine, Held, Untouched;
    UntouchedPrefix(hist, hist + [v.slot.table], v.seen, |hist|, d);
    UntouchedNow(hist + [v.slot.table], d);
  }

  lemma UntouchedNow(hist: seq<Table>, d: string)
    requires hist != []
    ensures Untouched(hist, |hist| - 1, |hist|, d)
  {
  }

  lemma UploadLeaves(hist: seq<Table>, log: map<(string, int), Content>, names: set<string>, keys: map<Key, string>,
                     v: Device, d: string, e: string)
    requires ServerOk(hist, log) && DeviceOk(hist, log, names, v) && v.seen < |hist| && DeviceHolds(hist, names, keys, d, v)
    requires v.slot.Sent? && v.slot.base == |hist| - 1 && e != d
    requires FastForward(Current(hist), v.slot.table, v.slot.bases)
    ensures forall p | Mine(v.slot.table, p, e) :: Mine(Current(hist), p, e) && Current(hist)[p].version == v.slot.table[p].version
  {
    hide TableOk, Behind, Flight, ServerOk, FastForward, NewsIsMine, Keyed, Untouched, Held, Mine, Logged;
    SentFacts(hist, log, names, v);
    ServerFacts(hist, log);
    assert NewsIsMine(names, v.slot.table, v.slot.bases, d);
    hide DeviceOk, DeviceHolds;
    forall p | Mine(v.slot.table, p, e)
      ensures Mine(Current(hist), p, e) && p in Current(hist) && p in v.slot.table && Current(hist)[p].version == v.slot.table[p].version
    {
      UploadLeavesOthers(log, names, Current(hist), v.slot.table, v.slot.bases, d, e, p);
      MineHere(Current(hist), v.slot.table, p, e);
    }
  }

  lemma MineHere(h: Table, t: Table, p: string, e: string)
    requires Mine(h, p, e) && Mine(t, p, e)
    ensures p in h && p in t
  {
  }

  lemma UploadSeen(hist: seq<Table>, names: set<string>, keys: map<Key, string>, t: Table, e: string, v: Device)
    requires v.seen < |hist| && DeviceHolds(hist, names, keys, e, v)
    requires v.slot.Accepted? ==> v.slot.version < |hist|
    requires v.slot.Sent? ==> v.slot.base < |hist|
    requires forall p | Mine(t, p, e) :: Mine(Current(hist), p, e) && Current(hist)[p].version == t[p].version
    ensures DeviceHolds(hist + [t], names, keys, e, v)
  {
    hide Keyed, NewsIsMine, Held, Untouched;
    if v.slot.Accepted? {
      UntouchedPrefix(hist, hist + [t], v.seen, v.slot.version, e);
      UntouchedExtend(hist, v.slot.version, t, e);
    } else {
      UntouchedExtend(hist, v.seen, t, e);
    }
  }

  lemma OtherSeesUpload(s: State, s': State, d: string, e: string)
    requires Inv(s) && OwnInv(s) && d in s.devs && e in s.devs && e in s'.devs && e != d && s'.devs[e] == s.devs[e]
    requires s.devs[d].slot.Sent? && s.devs[d].slot.base == |s.hist| - 1
    requires FastForward(Current(s.hist), s.devs[d].slot.table, s.devs[d].slot.bases)
    requires s'.hist == s.hist + [s.devs[d].slot.table] && s'.names == s.names && s'.keys == s.keys
    ensures Holds(s, s', e)
  {
    hide Inv, DeviceOk, DeviceHolds, Keyed, FastForward, Mine;
    DeviceFacts(s, d);
    DeviceFacts(s, e);
    hide ServerOk;
    UploadLeaves(s.hist, s.log, s.names, s.keys, s.devs[d], d, e);
    UploadSeen(s.hist, s.names, s.keys, s.devs[d].slot.table, e, s.devs[e]);
  }

  lemma QuietHolds(s: State, a: Action)
    requires OwnInv(s) && Enabled(s, a) && Clean(s, a)
    requires !(a.Write? || a.Remove? || a.MergeBlob? || a.Accept? || a.Ack? || a.Tick?)
    ensures Holds(s, Next(s, a), a.d)
  {
    hide Next, Keyed, NewsIsMine, Held, Untouched, LivePhysical;
    NextShape(s, a);
    var v := s.devs[a.d];
    if a.Collect? { CollectHolds(s.keys, v.local, a.d, a.victims); }
  }

  lemma NextOwn(s: State, a: Action)
    requires Inv(s) && OwnInv(s) && Clean(s, a)
    ensures OwnInv(Next(s, a))
  {
    hide Inv, DeviceHolds, Keyed, Can, Careful, StepDevice;
    if Enabled(s, a) && !a.Tick? {
      if a.Accept? {
        hide Next, Enabled, Clean, OwnInv;
        AcceptStepHolds(s, a.d);
      } else {
        NextShape(s, a);
        hide Next;
        OthersHold(s, a);
        if a.Write? { WriteStepHolds(s, a.d, a.p, a.key, a.size); }
        else if a.Remove? { RemoveStepHolds(s, a.d, a.p); }
        else if a.MergeBlob? { MergeHolds(s, a); }
        else if a.Ack? { AckStepHolds(s, a.d); }
        else { QuietHolds(s, a); }
        forall i | 0 <= i < |s.hist| ensures Keyed(Next(s, a).keys, s.hist[i]) {
          if a.Write? && a.key !in s.keys { KeysGrow(s.keys, a.key, a.d, s.hist[i]); }
        }
      }
    }
  }

  lemma WriteElsewhere(hist: seq<Table>, names: set<string>, keys: map<Key, string>, key: Key, d: string, e: string, v: Device)
    requires v.seen < |hist| && DeviceHolds(hist, names, keys, e, v) && key !in keys
    ensures DeviceHolds(hist, names, keys[key := d], e, v)
  {
    hide Keyed, NewsIsMine, Held, Untouched;
    KeysGrow(keys, key, d, v.local.rows);
    HeldGrows(keys, key, d, v.local, e);
    if v.slot.Sent? && v.slot.base == |hist| - 1 { KeysGrow(keys, key, d, v.slot.table); }
  }

  lemma OthersHold(s: State, a: Action)
    requires Inv(s) && OwnInv(s) && Enabled(s, a) && Clean(s, a) && !a.Accept? && !a.Tick?
    ensures forall e | e in s.devs && e != a.d :: e in Next(s, a).devs && Holds(s, Next(s, a), e)
  {
    hide Next, Inv, Keyed, DeviceHolds, Can, StepDevice, FreshEverywhere, FreshNames, KnownTombstones, EditAllowed;
    NextShape(s, a);
    var s' := Next(s, a);
    MergeIsFresh(s, a);
    hide Careful;
    forall e | e in s.devs && e != a.d ensures Holds(s, s', e) {
      if a.MergeBlob? { NamesGrow(s, e, a.nm); }
      else if a.Write? && a.key !in s.keys { WriteElsewhere(s.hist, s.names, s.keys, a.key, a.d, e, s.devs[e]); }
    }
  }

  lemma MergeIsFresh(s: State, a: Action)
    requires Enabled(s, a) && Clean(s, a)
    ensures a.MergeBlob? ==> FreshEverywhere(s, a.nm)
  {
  }

  lemma {:induction false} CleanRunOwn(s: State, run: seq<Action>)
    requires Init(s) && CleanRun(s, run)
    ensures OwnInv(After(s, run))
  {
    if run == [] {
      InitOwn(s);
    } else {
      hide Inv, Init, Next, Clean, OwnInv;
      CleanRunOwn(s, run[..|run| - 1]);
      CleanRunInv(s, run[..|run| - 1]);
      NextOwn(After(s, run[..|run| - 1]), run[|run| - 1]);
    }
  }

  /** In every reachable state of a clean run, a live row of the server table
      names a device that holds its file, or that has its own news about the
      path still to upload. */
  lemma LiveServerRowsAreBacked(s: State, run: seq<Action>, p: string)
    requires Init(s) && CleanRun(s, run)
    ensures var t := After(s, run);
      t.hist != [] && (Live(Current(t.hist), p) ==>
        var r := Current(t.hist)[p];
        && r.deviceId.Some? && r.deviceId.value in t.devs
        && var l := t.devs[r.deviceId.value].local;
           p in l.rows && (l.rows[p].status == Pending || (KeyOf(r) in l.files && !l.rows[p].deleted && KeyOf(l.rows[p]) == KeyOf(r))))
  {
    CleanRunInv(s, run);
    CleanRunOwn(s, run);
    var t := After(s, run);
    hide After, Init, CleanRun;
    if Live(Current(t.hist), p) { BackedRow(t, p); }
  }

  lemma BackedRow(t: State, p: string)
    requires Inv(t) && OwnInv(t) && Live(Current(t.hist), p)
    ensures var r := Current(t.hist)[p];
      && r.deviceId.Some? && r.deviceId.value in t.devs
      && var l := t.devs[r.deviceId.value].local;
         p in l.rows && (l.rows[p].status == Pending || (KeyOf(r) in l.files && !l.rows[p].deleted && KeyOf(l.rows[p]) == KeyOf(r)))
  {
    hide Inv, DeviceHolds;
    ServerIsOk(t);
    hide ServerOk;
    var r := Current(t.hist)[p];
    assert Keyed(t.keys, t.hist[|t.hist| - 1]);
    var d := t.keys[KeyOf(r)];
    BackedBy(t, p, d);
    hide OwnInv;
    assert Mine(Current(t.hist), p, d);
    if !IsPending(t.devs[d].local.rows, p) { HeldAt(t.keys, t.hist, t.names, d, t.devs[d], p); }
  }

  lemma HeldAt(keys: map<Key, string>, hist: seq<Table>, names: set<string>, d: string, v: Device, p: string)
    requires v.seen < |hist| && DeviceHolds(hist, names, keys, d, v) && Mine(v.local.rows, p, d)
    ensures KeyOf(v.local.rows[p]) in v.local.files
  {
  }

  lemma ServerIsOk(s: State)
    requires Inv(s)
    ensures ServerOk(s.hist, s.log)
  {
  }

  /** The device's row, when it has no news, is the server's. */
  lemma BackedBy(t: State, p: string, d: string)
    requires Inv(t) && OwnInv(t) && d in t.devs && Mine(Current(t.hist), p, d)
    ensures var rows := t.devs[d].local.rows;
      p in rows && (rows[p].status == Pending || ContentOf(rows[p]) == ContentOf(Current(t.hist)[p]))
  {
    hide Inv, DeviceOk, ServerOk, DeviceHolds, Untouched, Keyed, Mine;
    var v := t.devs[d];
    DeviceFacts(t, d);
    ServerFacts(t.hist, t.log);
    UntouchedFacts(t.hist, t.names, t.keys, d, v);
    hide DeviceHolds, OwnInv;
    var from := if v.slot.Accepted? then v.slot.version else v.seen;
    LoggedAt(t.hist, t.log, from);
    VersionAt(t.hist, from, d, p);
    assert p in v.local.rows by { PathKept(t.hist, t.log, t.names, v, p, from); }
    if !IsPending(v.local.rows, p) {
      SettledVersion(t, d, p, from);
      SettledRowLogged(t, d, p);
    }
  }

  lemma UntouchedFacts(hist: seq<Table>, names: set<string>, keys: map<Key, string>, d: string, v: Device)
    requires v.seen < |hist| && DeviceHolds(hist, names, keys, d, v) && (v.slot.Accepted? ==> v.slot.version < |hist|)
    ensures Untouched(hist, if v.slot.Accepted? then v.slot.version else v.seen, |hist|, d)
  {
    hide Keyed, NewsIsMine, Held, Untouched;
  }

  lemma VersionAt(hist: seq<Table>, from: nat, d: string, p: string)
    requires from < |hist| && Untouched(hist, from, |hist|, d) && Mine(Current(hist), p, d)
    ensures p in Current(hist) && p in hist[from] && hist[from][p].version == Current(hist)[p].version
  {
    assert Mine(hist[|hist| - 1], p, d);
  }

  lemma PathKept(hist: seq<Table>, log: map<(string, int), Content>, names: set<string>, v: Device, p: string, from: nat)
    requires hist != [] && DeviceOk(hist, log, names, v) && from < |hist| && p in hist[from]
    requires from == if v.slot.Accepted? then v.slot.version else v.seen
    ensures p in v.local.rows
    ensures v.slot.Accepted? ==> StillSent(v.local.rows[p], hist[from][p], !v.slot.force && p !in v.slot.paths)
    ensures !v.slot.Accepted? ==> hist[from][p].version <= InferredBase(v.local.rows[p])
  {
    hide TableOk;
  }

  /** A settled row the server knows has the server's version. */
  lemma SettledVersion(t: State, d: string, p: string, from: nat)
    requires Inv(t) && d in t.devs && from < |t.hist| && p in t.hist[from] && p in Current(t.hist)
    requires from == if t.devs[d].slot.Accepted? then t.devs[d].slot.version else t.devs[d].seen
    requires t.hist[from][p].version == Current(t.hist)[p].version
    requires p in t.devs[d].local.rows && !IsPending(t.devs[d].local.rows, p)
    ensures !Private(t, d, p) && t.devs[d].local.rows[p].version == Current(t.hist)[p].version
  {
    hide DeviceOk, ServerOk;
    var v := t.devs[d];
    DeviceFacts(t, d);
    assert !Private(t, d, p);
    hide PrivateOk;
    PathKept(t.hist, t.log, t.names, v, p, from);
    SettledRowLogged(t, d, p);
    ServerFacts(t.hist, t.log);
    assert (p, v.local.rows[p].version) in t.log;
  }
}
