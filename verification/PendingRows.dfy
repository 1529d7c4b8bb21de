/** What a merge does to local changes that were not uploaded yet, with the
    conflict names the resolver comes up with and nothing assumed about the
    rest of the tables. */
module PendingRows {
  import opened Rows
  import opened Merge

  /** The row is still there under its own path, or it is a conflict copy. */
  predicate Survives(row: Row, p: string, copy: string, t: Table) {
    RowAt(t, p) == Some(row) || RowAt(t, copy) == Some(row.(status := Conflict))
  }

  /** `a` comes before `b`. */
  predicate Before(order: seq<string>, a: string, b: string) {
    exists i, j :: 0 <= i < j < |order| && order[i] == a && order[j] == b
  }

  lemma OtherStep(l: Local, q: string, r: Row, name: string, p: string)
    requires p in l.rows && q != p
    ensures RowAt(MergeOne(l, q, r, name).rows, p) == Some(l.rows[p])
  {
  }

  lemma PendingStep(l: Local, p: string, r: Row, name: string)
    requires IsPending(l.rows, p) && name != p
    ensures var t := MergeOne(l, p, r, name).rows;
      if Classify(Some(l.rows[p]), r).ConflictCopy? && name !in l.rows then
        RowAt(t, p) == Some(r.(status := Synced)) && RowAt(t, name) == Some(l.rows[p].(status := Conflict))
      else
        t == l.rows
  {
  }

  /** Merging any server table, in any order, loses no pending row as long as the
      names given to conflict copies are not in the server table. Tombstones and
      copies that already have the name do no harm: the rename then fails. */
  lemma {:induction false} NoPendingRowLost(l: Local, s: Table, order: seq<string>, nm: Naming, p: string)
    requires forall q | q in order :: q in s
    requires forall i, j | 0 <= i < j < |order| :: order[i] != order[j]
    requires forall q | q in nm.copyOf :: nm.copyOf[q] !in s && nm.copyOf[q] != q
    requires IsPending(l.rows, p)
    ensures var t := MergeRows(l, s, order, nm).rows;
      RowAt(t, p) == Some(l.rows[p]) ||
      (&& p in order && Classify(Some(l.rows[p]), s[p]).ConflictCopy?
       && RowAt(t, p) == Some(s[p].(status := Synced))
       && p in nm.copyOf && RowAt(t, nm.copyOf[p]) == Some(l.rows[p].(status := Conflict)))
  {
    hide MergeOne, Classify;
    if order != [] {
      var n := |order| - 1;
      var q := order[n];
      assert order == order[..n] + [q];
      NoPendingRowLost(l, s, order[..n], nm, p);
      var l' := MergeRows(l, s, order[..n], nm);
      MergeRowsLast(l, s, order, nm);
      if q != p {
        OtherStep(l', q, s[q], NameFor(nm, q), p);
        if RowAt(l'.rows, p) != Some(l.rows[p]) {
          OtherStep(l', q, s[q], NameFor(nm, q), nm.copyOf[p]);
        }
      } else if p in nm.copyOf {
        PendingStep(l', p, s[p], nm.copyOf[p]);
      } else {
        UnnamedStep(l', p, s[p]);
      }
    }
  }

  lemma FileStep(l: Local, q: string, r: Row, name: string, k: Key)
    requires q in l.rows && !l.rows[q].deleted && l.rows[q].status != Pending ==> KeyOf(l.rows[q]) != k
    ensures k in l.files ==> k in MergeOne(l, q, r, name).files
  {
  }

  /** Nor is the physical file of such a row removed, unless another live row
      points at it. */
  lemma {:induction false} PendingFileKept(l: Local, s: Table, order: seq<string>, nm: Naming, p: string)
    requires forall q | q in order :: q in s
    requires forall i, j | 0 <= i < j < |order| :: order[i] != order[j]
    requires forall q | q in nm.copyOf :: nm.copyOf[q] !in s && nm.copyOf[q] != q
    requires IsPending(l.rows, p) && KeyOf(l.rows[p]) in l.files
    requires forall q | q in l.rows && q != p && !l.rows[q].deleted :: KeyOf(l.rows[q]) != KeyOf(l.rows[p])
    ensures KeyOf(l.rows[p]) in MergeRows(l, s, order, nm).files
  {
    hide MergeOne, Classify, PointResult;
    if order != [] {
      var n := |order| - 1;
      var q := order[n];
      assert order == order[..n] + [q];
      PendingFileKept(l, s, order[..n], nm, p);
      var l' := MergeRows(l, s, order[..n], nm);
      MergeRowsLast(l, s, order, nm);
      MergeRowsAt(l, s, order[..n], nm, q);
      hide MergeRows;
      FileStep(l', q, s[q], NameFor(nm, q), KeyOf(l.rows[p]));
    }
  }

  lemma UnnamedStep(l: Local, p: string, r: Row)
    requires IsPending(l.rows, p)
    ensures MergeOne(l, p, r, p).rows == l.rows
  {
  }

  lemma ElsewhereStep(l: Local, q: string, r: Row, name: string, c: string)
    requires q != c && name != c
    ensures RowAt(MergeOne(l, q, r, name).rows, c) == RowAt(l.rows, c)
  {
  }

  /** Where the row stands after part of the server table. */
  ghost predicate Stage(l: Local, s: Table, order: seq<string>, p: string, c: string, t: Table)
    requires p in l.rows && (forall q | q in order :: q in s)
  {
    if p !in order then
      RowAt(t, p) == Some(l.rows[p]) && RowAt(t, c) == if c in order && !s[c].deleted then Some(s[c].(status := Synced)) else None
    else if Before(order, p, c) then
      && RowAt(t, p) == Some(s[p].(status := Synced))
      && RowAt(t, c) == if s[c].version > l.rows[p].version then Some(AdoptedRow(Some(l.rows[p].(status := Conflict)), s[c]))
                        else Some(l.rows[p].(status := Conflict))
    else if c in order && !s[c].deleted then
      RowAt(t, p) == Some(l.rows[p])
    else
      RowAt(t, p) == Some(s[p].(status := Synced)) && RowAt(t, c) == Some(l.rows[p].(status := Conflict))
  }

  lemma BeforeSnoc(order: seq<string>, q: string, a: string, b: string)
    ensures Before(order + [q], a, b) <==> Before(order, a, b) || (q == b && a in order)
  {
    var o := order + [q];
    if Before(order, a, b) {
      var i, j :| 0 <= i < j < |order| && order[i] == a && order[j] == b;
      assert o[i] == a && o[j] == b;
    }
    if q == b && a in order {
      var i :| 0 <= i < |order| && order[i] == a;
      assert o[i] == a && o[|order|] == b;
    }
  }

  lemma {:induction false} StageAfter(l: Local, s: Table, order: seq<string>, nm: Naming, p: string, c: string)
    requires forall q | q in order :: q in s
    requires forall i, j | 0 <= i < j < |order| :: order[i] != order[j]
    requires IsPending(l.rows, p) && p in s && Classify(Some(l.rows[p]), s[p]).ConflictCopy?
    requires p in nm.copyOf && nm.copyOf[p] == c && c !in l.rows
    requires forall q | q != p :: NameFor(nm, q) != c || q == c
    ensures Stage(l, s, order, p, c, MergeRows(l, s, order, nm).rows)
  {
    hide MergeOne, Classify, AdoptedRow, Before;
    if order == [] {
      assert !Before(order, p, c) by { BeforeEmpty(p, c); }
    } else {
      var n := |order| - 1;
      var q := order[n];
      assert order == order[..n] + [q];
      StageAfter(l, s, order[..n], nm, p, c);
      var l' := MergeRows(l, s, order[..n], nm);
      MergeRowsLast(l, s, order, nm);
      hide MergeRows;
      BeforeSnoc(order[..n], q, p, c);
      BeforeIn(order[..n], p, c);
      if q == p {
        PendingStep(l', p, s[p], c);
      } else {
        OtherStep(l', q, s[q], NameFor(nm, q), p);
        if q == c { CopyTurn(l', c, s[c], NameFor(nm, c)); } else { ElsewhereStep(l', q, s[q], NameFor(nm, q), c); }
      }
    }
  }

  lemma CopyTurn(l: Local, c: string, r: Row, name: string)
    ensures var t := MergeOne(l, c, r, name).rows;
      && (c !in l.rows ==> RowAt(t, c) == if r.deleted then None else Some(r.(status := Synced)))
      && (c in l.rows && l.rows[c].status == Conflict ==>
            RowAt(t, c) == if r.version > l.rows[c].version then Some(AdoptedRow(Some(l.rows[c]), r)) else Some(l.rows[c]))
  {
  }

  lemma BeforeEmpty(a: string, b: string)
    ensures !Before([], a, b)
  {
  }

  lemma BeforeIn(order: seq<string>, a: string, b: string)
    ensures Before(order, a, b) ==> a in order && b in order
  {
  }

  /** Exactly when a conflicting pending row is lost: its copy got a name that the
      server has a newer row for, and that record comes after it. */
  lemma ConflictingRowSurvivesIff(l: Local, s: Table, order: seq<string>, nm: Naming, p: string, c: string)
    requires Enumerates(order, s)
    requires IsPending(l.rows, p) && p in s && Classify(Some(l.rows[p]), s[p]).ConflictCopy?
    requires p in nm.copyOf && nm.copyOf[p] == c && c !in l.rows
    requires forall q | q != p :: NameFor(nm, q) != c || q == c
    ensures Survives(l.rows[p], p, c, MergeRows(l, s, order, nm).rows)
       <==> !(c in s && s[c].version > l.rows[p].version && Before(order, p, c))
  {
    StageAfter(l, s, order, nm, p, c);
    BeforeIn(order, p, c);
    hide MergeRows, Before;
  }
}
