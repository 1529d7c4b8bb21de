/** Why a clean run has the guards it has: each lemma says exactly when the code
    does the right thing without the guard, or what it does instead. */
module Guards {
  import opened Rows
  import opened Merge
  import opened Protocol
  import opened CleanRuns

  /** The ancestor inferred from the status flag finds every concurrent change if
      and only if the row was edited once since that ancestor. */
  lemma InferredBaseRightIff(l: Row, base: int)
    requires l.status == Pending && base < l.version
    ensures (forall r: Row | base <= r.version :: Classify(Some(l), r).ConflictCopy? <==> base < r.version)
       <==> l.version == base + 1
  {
    if l.version != base + 1 {
      assert !Classify(Some(l), l.(version := base + 1)).ConflictCopy?;
    }
  }

  /** After a merge, uploading a row edited from `base` replaces the server row
      by itself or by a row edited from it, unless the server's version lies
      strictly between: then the server's update is silently overwritten. */
  lemma MergedRowForwardsIff(t: Table, h: Table, nm: Naming, p: string, base: int)
    requires FreshNames(t, h, nm) && IsPending(t, p) && p in h && base <= h[p].version && base < t[p].version
    ensures var m := MergeTable(t, h, h.Keys, nm);
      var base' := if RowAt(m, p) == RowAt(t, p) then base else h[p].version;
      p in m && ((ContentOf(m[p]) == ContentOf(h[p]) || base' == h[p].version < m[p].version)
                 <==> !(base < h[p].version < t[p].version))
  {
    MergeTableAt(t, h, nm, p);
  }

  /** A device that merges its own upload back takes a row for a conflict exactly
      when the reply has not marked it synced yet. Then two live rows share one
      physical file. */
  lemma OwnUploadConflictsIff(t: Table, h: Table, nm: Naming, p: string)
    requires FreshNames(t, h, nm) && p in t && p in h && h[p] == t[p]
    ensures Conflicts(t, h, p) <==> t[p].status == Pending
    ensures t[p].status == Pending ==>
      var m, c := MergeTable(t, h, h.Keys, nm), nm.copyOf[p];
      && c != p && p in m && c in m
      && m[p].deleted == m[c].deleted == t[p].deleted && KeyOf(m[p]) == KeyOf(m[c]) == KeyOf(t[p])
  {
    MergeTableAt(t, h, nm, p);
    if t[p].status == Pending { CopyAt(t, h, nm, p); }
  }

  /** A merge absorbs the whole server table if and only if every tombstone in it
      meets a row. */
  lemma MergeAbsorbsIff(t: Table, h: Table, nm: Naming)
    requires FreshNames(t, h, nm)
    ensures Behind(h, MergeTable(t, h, h.Keys, nm)) <==> KnownTombstones(t, h)
  {
    if KnownTombstones(t, h) {
      BehindMerged(h, t, nm);
    }
    forall p | p in h && h[p].deleted && p !in t ensures p !in MergeTable(t, h, h.Keys, nm) {
      MergeTableAt(t, h, nm, p);
    }
  }

  /** A renamed file comes back under its old path with the next merge iff the
      server has it live there. The moved row stays, so when the server's row is the
      one that was moved, two live rows share one physical file. */
  lemma MoveComesBackIff(t: Table, h: Table, nm: Naming, p: string, dst: string)
    requires Live(t, p) && dst !in t && dst !in h && p !in nm.originOf
    requires FreshNames(RenamePath(t, p, dst).value, h, nm)
    ensures var m := MergeTable(RenamePath(t, p, dst).value, h, h.Keys, nm);
      && (Live(m, p) <==> Live(h, p))
      && Live(m, dst) && KeyOf(m[dst]) == KeyOf(t[p])
      && (Live(h, p) ==> (KeyOf(m[p]) == KeyOf(m[dst]) <==> KeyOf(h[p]) == KeyOf(t[p])))
  {
    var t' := RenamePath(t, p, dst).value;
    MergeTableAt(t', h, nm, p);
    MergeTableAt(t', h, nm, dst);
  }

  /** A path created anew after one device purged its tombstone starts at version 1.
      A device that still has the tombstone ends up without the file iff the new row
      has not overtaken the tombstone's version. */
  lemma RecreatedFileIsDroppedIff(t: Table, h: Table, nm: Naming, p: string, cutoff: real)
    requires FreshNames(t, h, nm) && p in t && t[p].status != Pending && Expired(t[p], cutoff) && Live(h, p)
    ensures p !in Purge(MergeTable(t, h, h.Keys, nm), cutoff) <==> h[p].version <= t[p].version
  {
    MergeTableAt(t, h, nm, p);
  }

  /** Creation times are not part of what devices agree on: a device that had the
      row keeps its own, a device that did not takes the server's. */
  lemma CreationTimesAgreeIff(l: Row, r: Row)
    requires l.status != Pending && l.version < r.version
    ensures ContentOf(AdoptedRow(Some(l), r)) == ContentOf(AdoptedRow(None, r))
    ensures AdoptedRow(Some(l), r) == AdoptedRow(None, r) <==> l.createdAt == r.createdAt
  {
  }

  /** Same paths, and at each of them the content the server has. */
  predicate SameContent(t: Table, s: Table) {
    t.Keys == s.Keys && forall p | p in s :: ContentOf(t[p]) == ContentOf(s[p])
  }

  /** The server row is there afterwards, whether it was taken over or known. */
  predicate Settles(l: Row, r: Row) {
    l.status != Pending && (l.version < r.version || ContentOf(l) == ContentOf(r))
  }

  lemma AdoptedAt(t: Table, s: Table, nm: Naming, p: string)
    requires FreshNames(t, s, nm)
    ensures var m := MergeTable(t, s, s.Keys, nm);
      && (p in t ==> p in m)
      && (Conflicts(t, s, p) ==> p in s && p in t && t[p].status == Pending && nm.copyOf[p] in m && nm.copyOf[p] !in s)
      && (p in s && p in t && !Conflicts(t, s, p) ==> (ContentOf(m[p]) == ContentOf(s[p]) <==> Settles(t[p], s[p])))
      && (p in s && p !in t ==> if s[p].deleted then p !in m else p in m && ContentOf(m[p]) == ContentOf(s[p]))
      && (p in m && p !in s && p !in t ==> p in nm.originOf && Conflicts(t, s, nm.originOf[p]))
  {
    MergeTableAt(t, s, nm, p);
    if Conflicts(t, s, p) { CopyAt(t, s, nm, p); }
    hide MergeTable;
  }

  /** Merging adopts a server table entirely iff no local path is missing there, no
      row is pending or newer, rows of equal version agree, and no tombstone meets a
      path without a row. This is what reconciliation after a long absence promises
      and does not check. */
  lemma AdoptedEntirelyIff(t: Table, s: Table, nm: Naming)
    requires FreshNames(t, s, nm)
    ensures SameContent(MergeTable(t, s, s.Keys, nm), s) <==>
      (forall p | p in t :: p in s && Settles(t[p], s[p])) && (forall p | p in s && p !in t :: !s[p].deleted)
  {
    var m := MergeTable(t, s, s.Keys, nm);
    hide MergeTable, FreshNames, ContentOf, Conflicts, Settles;
    var settled := (forall p | p in t :: p in s && Settles(t[p], s[p])) && (forall p | p in s && p !in t :: !s[p].deleted);
    if SameContent(m, s) {
      forall p | p in t ensures p in s && Settles(t[p], s[p]) { AdoptedAt(t, s, nm, p); }
      forall p | p in s && p !in t ensures !s[p].deleted { AdoptedAt(t, s, nm, p); }
    }
    if settled {
      forall p ensures !Conflicts(t, s, p) {
        AdoptedAt(t, s, nm, p);
        if p in t && p in s { SettledIsNotPending(t[p], s[p]); }
      }
      forall p ensures p in m <==> p in s { AdoptedAt(t, s, nm, p); }
      forall p | p in s ensures ContentOf(m[p]) == ContentOf(s[p]) { AdoptedAt(t, s, nm, p); }
      assert m.Keys == s.Keys;
    }
  }

  lemma SettledIsNotPending(l: Row, r: Row)
    ensures Settles(l, r) ==> l.status != Pending
  {
  }
}
