/** The record-by-record merge of `stardustlib/sync_client.py` (lines 581-821)
    and what it means for a whole table. */
module Merge {
  import opened Rows

  /** What a device holds locally: its table and the physical files present. */
  datatype Local = Local(rows: Table, files: set<Key>)

  datatype Outcome = DropTombstone | InsertNew | ConflictCopy | TakeServer | KeepLocal

  /** The common ancestor the code infers from the status flag alone. */
  function InferredBase(l: Row): int {
    if l.status == Pending then l.version - 1 else l.version
  }

  /** `ConflictResolver.detect_conflict`. */
  predicate DetectConflict(serverVersion: int, localVersion: int, baseVersion: int) {
    serverVersion > baseVersion && localVersion > baseVersion
  }

  function Classify(l: Option<Row>, r: Row): Outcome {
    match l
    case None => if r.deleted then DropTombstone else InsertNew
    case Some(l) =>
      if DetectConflict(r.version, l.version, InferredBase(l)) then ConflictCopy
      else if r.version > l.version then TakeServer
      else KeepLocal
  }

  /** `_merge_record`. `name` is the path the conflict resolver came up with;
      when it is taken the rename fails and the local row stays pending. */
  function MergeOne(l: Local, p: string, r: Row, name: string): Local {
    match Classify(RowAt(l.rows, p), r)
    case DropTombstone => l
    case InsertNew => l.(rows := l.rows[p := r.(status := Synced)])
    case ConflictCopy =>
      if name in l.rows then l
      else l.(rows := l.rows[name := l.rows[p].(status := Conflict)][p := r.(status := Synced)])
    case TakeServer =>
      Local(
        l.rows[p := r.(status := Synced, createdAt := l.rows[p].createdAt)],
        if r.deleted && !l.rows[p].deleted then l.files - {KeyOf(l.rows[p])} else l.files)
    case KeepLocal => l
  }

  /** The paths given to conflict copies, both ways round. */
  datatype Naming = Naming(copyOf: map<string, string>, originOf: map<string, string>)

  const NO_NAMES := Naming(map[], map[])

  function NameFor(nm: Naming, p: string): string {
    if p in nm.copyOf then nm.copyOf[p] else p
  }

  /** `_merge_server_metadata`: the server rows one after the other. */
  function MergeRows(l: Local, s: Table, order: seq<string>, nm: Naming): Local {
    if order == [] then l
    else
      var n := |order| - 1;
      var l' := MergeRows(l, s, order[..n], nm);
      if order[n] in s then MergeOne(l', order[n], s[order[n]], NameFor(nm, order[n])) else l'
  }

  /** `order` lists every row of `s` once. */
  ghost predicate Enumerates(order: seq<string>, s: Table) {
    && (forall i, j | 0 <= i < j < |order| :: order[i] != order[j])
    && (forall p :: p in order <==> p in s)
  }

  /* The same merge as one patch to the table, with no order. */

  predicate Conflicts(t: Table, s: Table, p: string) {
    p in s && Classify(RowAt(t, p), s[p]).ConflictCopy?
  }

  predicate Adopts(t: Table, s: Table, p: string) {
    p in s && !Classify(RowAt(t, p), s[p]).DropTombstone? && !Classify(RowAt(t, p), s[p]).KeepLocal?
  }

  function AdoptedRow(l: Option<Row>, r: Row): Row {
    if l.Some? && Classify(l, r).TakeServer? then r.(status := Synced, createdAt := l.value.createdAt)
    else r.(status := Synced)
  }

  /** Every conflict copy gets a path of its own, unknown to both tables. */
  ghost predicate FreshNames(t: Table, s: Table, nm: Naming) {
    && (forall p {:trigger Conflicts(t, s, p)} | Conflicts(t, s, p) :: p in nm.copyOf && nm.copyOf[p] in nm.originOf && nm.originOf[nm.copyOf[p]] == p)
    && (forall c {:trigger c in nm.originOf} | c in nm.originOf :: c !in t && c !in s && nm.originOf[c] in nm.copyOf && nm.copyOf[nm.originOf[c]] == c)
  }

  /** The conflict copies of the rows at the paths `ps`. */
  ghost function Copies(t: Table, s: Table, ps: set<string>, nm: Naming): Table {
    map c | c in nm.originOf && nm.originOf[c] in ps && nm.originOf[c] in t && Conflicts(t, s, nm.originOf[c]) ::
      t[nm.originOf[c]].(status := Conflict)
  }

  /** The server rows taken over at the paths `ps`. */
  ghost function Adopted(t: Table, s: Table, ps: set<string>): Table {
    map p | p in ps && Adopts(t, s, p) :: AdoptedRow(RowAt(t, p), s[p])
  }

  ghost function MergeTable(t: Table, s: Table, ps: set<string>, nm: Naming): Table {
    t + Copies(t, s, ps, nm) + Adopted(t, s, ps)
  }

  /** A tombstone from the server that replaces a live local row also removes
      that row's physical file. */
  predicate Dooms(t: Table, s: Table, p: string) {
    p in s && p in t && Classify(RowAt(t, p), s[p]).TakeServer? && s[p].deleted && !t[p].deleted
  }

  ghost function Doomed(t: Table, s: Table, ps: set<string>): set<Key> {
    set p | p in ps && p in t && Dooms(t, s, p) :: KeyOf(t[p])
  }

  ghost function MergeLocal(l: Local, s: Table, ps: set<string>, nm: Naming): Local {
    Local(MergeTable(l.rows, s, ps, nm), l.files - Doomed(l.rows, s, ps))
  }

  lemma CopiesStep(t: Table, s: Table, ps: set<string>, p: string, nm: Naming)
    requires FreshNames(t, s, nm)
    ensures Copies(t, s, ps + {p}, nm)
         == if p in t && Conflicts(t, s, p) then Copies(t, s, ps, nm)[nm.copyOf[p] := t[p].(status := Conflict)]
            else Copies(t, s, ps, nm)
  {
  }

  lemma AdoptedStep(t: Table, s: Table, ps: set<string>, p: string)
    ensures Adopted(t, s, ps + {p})
         == if Adopts(t, s, p) then Adopted(t, s, ps)[p := AdoptedRow(RowAt(t, p), s[p])] else Adopted(t, s, ps)
  {
  }

  lemma DoomedStep(t: Table, s: Table, ps: set<string>, p: string)
    ensures Doomed(t, s, ps + {p}) == Doomed(t, s, ps) + if p in t && Dooms(t, s, p) then {KeyOf(t[p])} else {}
  {
    forall k | k in Doomed(t, s, ps)
      ensures k in Doomed(t, s, ps + {p})
    {
      var q :| q in ps && q in t && Dooms(t, s, q) && KeyOf(t[q]) == k;
      assert q in ps + {p};
    }
    if Dooms(t, s, p) { assert p in ps + {p}; }
  }

  lemma AdoptedKeys(t: Table, s: Table, ps: set<string>)
    ensures Adopted(t, s, ps).Keys <= s.Keys * ps
  {
  }

  lemma PatchCommutes(t: Table, copies: Table, adopted: Table, c: string, copy: Row, p: string, r: Row)
    requires c !in adopted && c != p
    ensures t + copies[c := copy] + adopted[p := r] == (t + copies + adopted)[c := copy][p := r]
  {
  }

  lemma ConflictStep(t: Table, s: Table, ps: set<string>, p: string, nm: Naming)
    requires FreshNames(t, s, nm) && p in t && Conflicts(t, s, p)
    ensures MergeTable(t, s, ps + {p}, nm)
         == MergeTable(t, s, ps, nm)[nm.copyOf[p] := t[p].(status := Conflict)][p := s[p].(status := Synced)]
  {
    hide Classify, Copies, Adopted;
    var c := nm.copyOf[p];
    CopiesStep(t, s, ps, p, nm);
    AdoptedStep(t, s, ps, p);
    assert c !in s && c != p;
    hide FreshNames, Conflicts;
    AdoptedKeys(t, s, ps);
    PatchCommutes(t, Copies(t, s, ps, nm), Adopted(t, s, ps), c, t[p].(status := Conflict), p, s[p].(status := Synced));
  }

  lemma QuietStep(t: Table, s: Table, ps: set<string>, p: string, nm: Naming)
    requires FreshNames(t, s, nm) && !Conflicts(t, s, p)
    ensures MergeTable(t, s, ps + {p}, nm)
         == if Adopts(t, s, p) then MergeTable(t, s, ps, nm)[p := AdoptedRow(RowAt(t, p), s[p])]
            else MergeTable(t, s, ps, nm)
  {
    hide Classify, FreshNames, Adopts, Conflicts, Copies, Adopted;
    CopiesStep(t, s, ps, p, nm);
    AdoptedStep(t, s, ps, p);
  }

  lemma NotYetMerged(t: Table, s: Table, ps: set<string>, p: string, nm: Naming)
    requires FreshNames(t, s, nm) && p in s && p !in ps
    ensures RowAt(MergeTable(t, s, ps, nm), p) == RowAt(t, p)
    ensures Conflicts(t, s, p) ==> nm.copyOf[p] !in MergeTable(t, s, ps, nm)
  {
  }

  /** `MergeOne` in the vocabulary of the patch. */
  lemma MergeOneCases(l: Local, t: Table, s: Table, p: string, name: string)
    requires p in s && RowAt(l.rows, p) == RowAt(t, p)
    ensures MergeOne(l, p, s[p], name).rows ==
      if p in t && Conflicts(t, s, p) then
        if name in l.rows then l.rows
        else l.rows[name := t[p].(status := Conflict)][p := s[p].(status := Synced)]
      else if Adopts(t, s, p) then l.rows[p := AdoptedRow(RowAt(t, p), s[p])]
      else l.rows
    ensures MergeOne(l, p, s[p], name).files == if p in t && Dooms(t, s, p) then l.files - {KeyOf(t[p])} else l.files
    ensures Conflicts(t, s, p) ==> p in t
  {
  }

  /** One more record processed is one more record merged. */
  lemma MergeStep(l: Local, s: Table, ps: set<string>, p: string, nm: Naming)
    requires FreshNames(l.rows, s, nm) && p in s && p !in ps
    ensures MergeOne(MergeLocal(l, s, ps, nm), p, s[p], NameFor(nm, p)) == MergeLocal(l, s, ps + {p}, nm)
  {
    assert Conflicts(l.rows, s, p) ==> p in nm.copyOf;
    hide MergeTable, Doomed, FreshNames, MergeOne, Classify, Conflicts, Adopts, AdoptedRow, Dooms;
    NotYetMerged(l.rows, s, ps, p, nm);
    DoomedStep(l.rows, s, ps, p);
    MergeOneCases(MergeLocal(l, s, ps, nm), l.rows, s, p, NameFor(nm, p));
    if Conflicts(l.rows, s, p) {
      ConflictStep(l.rows, s, ps, p, nm);
    } else {
      QuietStep(l.rows, s, ps, p, nm);
    }
  }

  lemma NothingMerged(l: Local, s: Table, nm: Naming)
    ensures MergeLocal(l, s, {}, nm) == l
  {
    assert Copies(l.rows, s, {}, nm) == map[];
    assert Adopted(l.rows, s, {}) == map[];
    assert Doomed(l.rows, s, {}) == {};
  }

  /** The merge of a whole table is the patch, whatever the order the rows
      come out of the database in. */
  lemma {:induction false} MergePrefix(l: Local, s: Table, order: seq<string>, nm: Naming)
    requires FreshNames(l.rows, s, nm)
    requires forall p | p in order :: p in s
    requires forall i, j | 0 <= i < j < |order| :: order[i] != order[j]
    ensures MergeRows(l, s, order, nm) == MergeLocal(l, s, (set p | p in order), nm)
  {
    hide MergeOne, MergeTable, FreshNames, NameFor, Classify;
    var ps := set p | p in order;
    if order == [] {
      NothingMerged(l, s, nm);
      assert ps == {};
    } else {
      var n := |order| - 1;
      var qs := set p | p in order[..n];
      assert order == order[..n] + [order[n]];
      assert ps == qs + {order[n]};
      MergePrefix(l, s, order[..n], nm);
      MergeStep(l, s, qs, order[n], nm);
    }
  }

  lemma MergeOrderIrrelevant(l: Local, s: Table, order: seq<string>, nm: Naming)
    requires FreshNames(l.rows, s, nm) && Enumerates(order, s)
    ensures MergeRows(l, s, order, nm) == MergeLocal(l, s, s.Keys, nm)
  {
    MergePrefix(l, s, order, nm);
    assert (set p | p in order) == s.Keys;
  }

  /** The outcomes of the merge rule, each with its exact condition. */
  lemma OutcomesAreExclusive(l: Row, r: Row)
    ensures Classify(Some(l), r) == ConflictCopy <==> l.status == Pending && r.version >= l.version
    ensures Classify(Some(l), r) == TakeServer <==> l.status != Pending && r.version > l.version
    ensures Classify(Some(l), r) == KeepLocal <==> r.version < l.version || (l.status != Pending && r.version == l.version)
  {
  }

  lemma CopiesKeys(t: Table, s: Table, nm: Naming)
    requires FreshNames(t, s, nm)
    ensures Copies(t, s, s.Keys, nm).Keys !! t.Keys + s.Keys
  {
  }

  lemma CopyAt(t: Table, s: Table, nm: Naming, p: string)
    requires FreshNames(t, s, nm) && Conflicts(t, s, p)
    ensures p in t && RowAt(MergeTable(t, s, s.Keys, nm), nm.copyOf[p]) == Some(t[p].(status := Conflict))
  {
    AdoptedKeys(t, s, s.Keys);
    assert nm.copyOf[p] in Copies(t, s, s.Keys, nm);
  }

  /** The merged table, row by row. */
  lemma MergeTableAt(t: Table, s: Table, nm: Naming, p: string)
    requires FreshNames(t, s, nm)
    ensures var m := MergeTable(t, s, s.Keys, nm);
      && (p in s ==> RowAt(m, p) == if Adopts(t, s, p) then Some(AdoptedRow(RowAt(t, p), s[p])) else RowAt(t, p))
      && (p !in s && p in t ==> RowAt(m, p) == Some(t[p]))
      && (p in m && p !in s && p !in t ==>
            p in nm.originOf && Conflicts(t, s, nm.originOf[p]) && m[p] == t[nm.originOf[p]].(status := Conflict))
  {
    CopiesKeys(t, s, nm);
    AdoptedKeys(t, s, s.Keys);
    hide Classify, Adopts, AdoptedRow, FreshNames;
  }

  /** Merging the same server table again changes nothing. */
  lemma MergeIdempotent(l: Local, s: Table, nm: Naming, nm': Naming)
    requires FreshNames(l.rows, s, nm)
    ensures MergeLocal(MergeLocal(l, s, s.Keys, nm), s, s.Keys, nm') == MergeLocal(l, s, s.Keys, nm)
  {
    var m := MergeTable(l.rows, s, s.Keys, nm);
    forall p | p in s ensures !Adopts(m, s, p) {
      MergeTableAt(l.rows, s, nm, p);
    }
    NothingAdopted(MergeLocal(l, s, s.Keys, nm), s, nm');
  }

  lemma NothingAdopted(l: Local, s: Table, nm: Naming)
    requires forall p | p in s :: !Adopts(l.rows, s, p)
    ensures MergeLocal(l, s, s.Keys, nm) == l
  {
    forall p ensures !Conflicts(l.rows, s, p) && !Dooms(l.rows, s, p) {
      if p in s { assert !Adopts(l.rows, s, p); }
    }
    NoEffect(l, s, nm);
  }

  lemma NoEffect(l: Local, s: Table, nm: Naming)
    requires forall p :: !Conflicts(l.rows, s, p) && !Dooms(l.rows, s, p)
    requires forall p | p in s :: !Adopts(l.rows, s, p)
    ensures MergeLocal(l, s, s.Keys, nm) == l
  {
    hide Classify, Conflicts, Dooms, Adopts;
    assert Copies(l.rows, s, s.Keys, nm) == map[];
    assert Adopted(l.rows, s, s.Keys) == map[];
    assert Doomed(l.rows, s, s.Keys) == {};
  }

  /** No live pending row is lost: it stays, or it moves to a conflict copy
      while its path takes the server row. */
  lemma PendingRowSurvives(t: Table, s: Table, nm: Naming, p: string)
    requires FreshNames(t, s, nm) && IsPending(t, p)
    ensures var m := MergeTable(t, s, s.Keys, nm);
      if Conflicts(t, s, p) then
        && nm.copyOf[p] !in t && nm.copyOf[p] !in s
        && RowAt(m, nm.copyOf[p]) == Some(t[p].(status := Conflict))
        && RowAt(m, p) == Some(s[p].(status := Synced))
      else
        RowAt(m, p) == Some(t[p])
  {
    MergeTableAt(t, s, nm, p);
    if Conflicts(t, s, p) { CopyAt(t, s, nm, p); }
  }

  /** What a merge can make of the row at one path: what the rule says, or no
      change when the rename of a conflict copy fails. */
  predicate PointResult(l: Option<Row>, r: Row, l': Option<Row>) {
    match Classify(l, r)
    case DropTombstone => l' == l
    case KeepLocal => l' == l
    case InsertNew => l' == Some(AdoptedRow(l, r))
    case TakeServer => l' == Some(AdoptedRow(l, r))
    case ConflictCopy => l' == Some(AdoptedRow(l, r)) || l' == l
  }

  lemma MergeOneAt(l: Local, q: string, r: Row, name: string, p: string)
    requires q != p ==> name != p
    ensures RowAt(MergeOne(l, q, r, name).rows, p) == RowAt(l.rows, p) || q == p
    ensures q == p ==> PointResult(RowAt(l.rows, p), r, RowAt(MergeOne(l, q, r, name).rows, p))
  {
  }

  /** However the other rows fare, and whatever names their copies get. */
  lemma {:induction false} MergeRowsAt(l: Local, s: Table, order: seq<string>, nm: Naming, p: string)
    requires forall q | q in order :: q in s
    requires forall i, j | 0 <= i < j < |order| :: order[i] != order[j]
    requires forall q | q != p :: NameFor(nm, q) != p
    ensures var l' := MergeRows(l, s, order, nm);
      if p in order then PointResult(RowAt(l.rows, p), s[p], RowAt(l'.rows, p))
      else RowAt(l'.rows, p) == RowAt(l.rows, p)
  {
    hide Classify, NameFor, PointResult, MergeOne;
    if order != [] {
      var n := |order| - 1;
      assert order == order[..n] + [order[n]];
      MergeRowsAt(l, s, order[..n], nm, p);
      MergeRowsLast(l, s, order, nm);
      hide MergeRows;
      MergeOneAt(MergeRows(l, s, order[..n], nm), order[n], s[order[n]], NameFor(nm, order[n]), p);
    }
  }

  lemma MergeRowsLast(l: Local, s: Table, order: seq<string>, nm: Naming)
    requires order != [] && order[|order| - 1] in s
    ensures var n := |order| - 1;
      MergeRows(l, s, order, nm) == MergeOne(MergeRows(l, s, order[..n], nm), order[n], s[order[n]], NameFor(nm, order[n]))
  {
  }
}
