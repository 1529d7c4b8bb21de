/** `stardustlib/sync_client.py` seen from one device: the merge record by record,
    and the upload with its retries. Other devices act on the server between any
    two requests; other coroutines of the same device are the subject of the
    `Protocol` module. */
module Sync {
  import opened Rows
  import opened Merge
  import opened Metadata
  import opened Resolver
  import opened PendingRows
  import Jbod
  import Volumes

  const MAX_CAS_RETRIES := 5

  datatype PutReply = Accepted(version: nat) | Mismatch | Unreachable

  /** A request and its answer: the version and the retention period in days; the
      version of the table fetched, 0 when there is none; the table sent, and the
      version of the server when it had dealt with it. */
  datatype Exchange =
    | Asked(version: Option<nat>, days: Option<int>)
    | Fetched(blob: Option<nat>)
    | Sent(base: Option<nat>, table: Table, reply: PutReply, at: nat)

  /** The server keeps one table; `hist[v]` is the one with version `v`. */
  class Server {
    var hist: seq<Table>
    /** What this device asked, and what it was told. */
    ghost var log: seq<Exchange>

    constructor ()
      ensures hist == [map[]] && log == []
    {
      hist, log := [map[]], [];
    }

    /** What other devices upload in the meantime. */
    method Others()
      modifies this`hist
      ensures old(hist) <= hist
    {
      var more: seq<Table> := *;
      hist := hist + more;
    }

    /** The version and the retention period in days, or nothing when the server
        cannot be reached. */
    method Status() returns (v: Option<nat>, days: Option<int>)
      requires hist != []
      modifies this
      ensures old(hist) <= hist && log == old(log) + [Asked(v, days)]
      ensures (v.Some? <==> days.Some?) && (v.Some? ==> v.value == |hist| - 1)
    {
      Others();
      var reachable: bool, period: int := *, *;
      v, days := None, None;
      if reachable {
        v, days := Some(|hist| - 1), Some(period);
      }
      log := log + [Asked(v, days)];
    }

    method Get() returns (t: Option<Table>)
      requires hist != []
      modifies this
      ensures old(hist) <= hist && log == old(log) + [Fetched(if t.Some? then Some(|hist| - 1) else None)]
      ensures t.Some? ==> t.value == hist[|hist| - 1]
    {
      Others();
      var reachable: bool := *;
      t := if reachable then Some(hist[|hist| - 1]) else None;
      log := log + [Fetched(if reachable then Some(|hist| - 1) else None)];
    }

    /** Compare-and-swap on the version; without a base, an overwrite. A request
        may get lost, and so may the reply to one that was accepted. */
    method Put(base: Option<nat>, t: Table) returns (r: PutReply)
      requires hist != []
      modifies this
      ensures old(hist) <= hist && log == old(log) + [Sent(base, t, r, |hist| - 1)]
      ensures r.Accepted? ==> |old(hist)| < |hist| && r.version == |hist| - 1 && hist[r.version] == t && (base.Some? ==> base.value == r.version - 1)
      ensures r.Mismatch? ==> base.Some? && base.value != |hist| - 1
    {
      Others();
      var arrives: bool, answered: bool := *, *;
      if !arrives {
        r := Unreachable;
      } else if base.Some? && base.value != |hist| - 1 {
        r := Mismatch;
      } else {
        hist := hist + [t];
        r := if answered then Accepted(|hist| - 1) else Unreachable;
      }
      log := log + [Sent(base, t, r, |hist| - 1)];
    }
  }

  /** What a download did: nothing, an upload of everything, or a merge of the
      server table `blob`. */
  datatype Download = Nothing | Forced | Merged(blob: nat, order: seq<string>, nm: Naming)

  /** The retention period after a status reply: only a positive number of days
      counts. */
  function Learned(retention: real, days: Option<int>): real {
    if days.Some? && days.value > 0 then days.value as real * 86400.0 else retention
  }

  /** After a forced upload: a positive reply settles everything pending. */
  predicate ForcedBy(t: Table, said: Exchange, t': Table) {
    said.Sent? && said.base == None && said.table == t && t' == if said.reply.Accepted? then MarkSynced(t, PendingPaths(t)) else t
  }

  /** A conversation of `_download_and_merge` of a device that remembers version
      `last` and has the table `t`. It does nothing only without an answer to the
      status or to the request for the table, or when there is nothing new. */
  predicate DownloadTalk(last: nat, t: Table, said: seq<Exchange>, d: Download, last': nat, t': Table) {
    && said != [] && said[0].Asked?
    && match said[0].version
       case None => |said| == 1 && d == Nothing && t' == t && last' == last
       case Some(v) =>
         if v == 0 then
           |said| == 2 && d == Forced && ForcedBy(t, said[1], t')
         else if v <= last then
           |said| == 1 && d == Nothing && t' == t && last' == last
         else
           && |said| == 2 && said[1].Fetched?
           && match said[1].blob
              case None => d == Nothing && t' == t && last' == last
              case Some(w) => v <= w && d.Merged? && d.blob == w && last' == v
  }

  /** The same for `initial_sync`. */
  predicate InitialTalk(t: Table, said: seq<Exchange>, d: Download, t': Table) {
    && said != [] && said[0].Fetched?
    && match said[0].blob
       case None => |said| == 1 && d == Nothing && t' == t
       case Some(w) =>
         if w == 0 then |said| == 2 && d == Forced && ForcedBy(t, said[1], t')
         else |said| == 1 && d.Merged? && d.blob == w
  }

  datatype UploadResult = NothingPending | Uploaded | NoAnswer | TooManyConflicts

  /** Naming more copies changes nothing for records already merged. */
  lemma {:induction false} NamesAgree(l: Local, s: Table, order: seq<string>, nm: Naming, nm': Naming)
    requires forall q | q in order :: NameFor(nm, q) == NameFor(nm', q)
    ensures MergeRows(l, s, order, nm) == MergeRows(l, s, order, nm')
  {
    hide MergeOne, NameFor;
    if order != [] {
      var n := |order| - 1;
      assert order == order[..n] + [order[n]];
      NamesAgree(l, s, order[..n], nm, nm');
    }
  }

  lemma MergeSnoc(l: Local, s: Table, order: seq<string>, nm: Naming, p: string, name: string)
    requires p in s && p !in order
    ensures var nm' := nm.(copyOf := nm.copyOf[p := name]);
      MergeRows(l, s, order + [p], nm') == MergeOne(MergeRows(l, s, order, nm), p, s[p], name)
  {
    var nm' := nm.(copyOf := nm.copyOf[p := name]);
    NamesAgree(l, s, order, nm, nm');
    assert (order + [p])[..|order|] == order;
    MergeRowsLast(l, s, order + [p], nm');
  }

  lemma MergeNothing(l: Local, s: Table)
    ensures MergeRows(l, s, [], NO_NAMES) == l
  {
  }

  lemma MergeUnnamed(l: Local, s: Table, order: seq<string>, nm: Naming, p: string)
    requires p in s && p !in order
    ensures var nm' := nm.(copyOf := nm.copyOf - {p});
      MergeRows(l, s, order + [p], nm') == MergeOne(MergeRows(l, s, order, nm), p, s[p], p)
  {
    var nm' := nm.(copyOf := nm.copyOf - {p});
    NamesAgree(l, s, order, nm, nm');
    assert (order + [p])[..|order|] == order;
    MergeRowsLast(l, s, order + [p], nm');
  }

  lemma AllSurvive(l: Local, s: Table, order: seq<string>, nm: Naming)
    requires Enumerates(order, s) && forall q | q in nm.copyOf :: nm.copyOf[q] !in s && nm.copyOf[q] != q
    ensures forall p | IsPending(l.rows, p) :: Survives(l.rows[p], p, NameFor(nm, p), MergeRows(l, s, order, nm).rows)
  {
    forall p | IsPending(l.rows, p)
      ensures Survives(l.rows[p], p, NameFor(nm, p), MergeRows(l, s, order, nm).rows)
    {
      NoPendingRowLost(l, s, order, nm, p);
      hide MergeRows;
    }
  }

  function Moved(moved: map<string, string>, p: string): string {
    if p in moved then moved[p] else p
  }

  /** A conflict name for `p` that this device can come up with. */
  ghost predicate NamedFor(device: string, p: string, name: string) {
    exists stamp: string, k: nat :: k >= 1 && name == Candidate(p, device, stamp, k)
  }

  /** The rename failed: the name found belongs to a tombstone. */
  ghost predicate Blocked(device: string, t: Table, p: string) {
    exists name :: NamedFor(device, p, name) && name in t && t[name].deleted
  }

  /** Every live pending row has moved to a conflict name, unless a tombstone has that
      name; everything else is where it was, and no row has changed. */
  ghost predicate Isolated(device: string, was: Table, t: Table, moved: map<string, string>) {
    && (forall p | p in moved :: IsPending(was, p) && !was[p].deleted && NamedFor(device, p, moved[p]))
    && (forall p | IsPending(was, p) && !was[p].deleted && p !in moved :: Blocked(device, was, p))
    && (forall p | IsPending(was, p) :: RowAt(t, Moved(moved, p)) == Some(was[p]))
    && (forall p | p in was && !IsPending(was, p) :: RowAt(t, p) == Some(was[p]))
  }

  /** Which rows have moved while `rest` is still to come. */
  ghost predicate MovesSoFar(device: string, was: Table, rest: set<string>, moved: map<string, string>) {
    && rest <= PendingPaths(was) && moved.Keys <= PendingPaths(was) - rest
    && (forall p | p in moved :: !was[p].deleted && moved[p] !in rest && NamedFor(device, p, moved[p]))
    && (forall p | p in PendingPaths(was) - rest && !was[p].deleted && p !in moved :: Blocked(device, was, p))
  }

  /** Where the rows are when those have moved. */
  ghost predicate RowsKept(was: Table, t: Table, moved: map<string, string>) {
    && (forall p | p in PendingPaths(was) :: RowAt(t, Moved(moved, p)) == Some(was[p]))
    && (forall p | p in was && was[p].status != Pending :: RowAt(t, p) == Some(was[p]))
    && (forall q | q in t && t[q].deleted :: q in was && was[q] == t[q])
  }

  ghost predicate IsolatedSoFar(device: string, was: Table, t: Table, rest: set<string>, moved: map<string, string>) {
    MovesSoFar(device, was, rest, moved) && RowsKept(was, t, moved)
  }

  lemma NobodyIsolated(device: string, t: Table)
    ensures IsolatedSoFar(device, t, t, PendingPaths(t), map[])
  {
  }

  /** A row whose turn has not come is where it was. */
  lemma Waiting(device: string, was: Table, t: Table, rest: set<string>, moved: map<string, string>, p: string)
    requires IsolatedSoFar(device, was, t, rest, moved) && p in rest
    ensures p in was && RowAt(t, p) == Some(was[p]) && was[p].status == Pending && p !in moved
    ensures was[p].deleted ==> IsolatedSoFar(device, was, t, rest - {p}, moved)
  {
    hide RowAt, NamedFor, Blocked;
  }

  lemma IsolateOne(device: string, was: Table, t: Table, rest: set<string>, moved: map<string, string>, p: string, name: string)
    requires IsolatedSoFar(device, was, t, rest, moved) && p in rest && p in t && !t[p].deleted && name != p
    requires NamedFor(device, p, name) && !Live(t, name)
    ensures p in was
    ensures if RenamePath(t, p, name).Some? then
        IsolatedSoFar(device, was, SetStatus(RenamePath(t, p, name).value, name, Pending), rest - {p}, moved[p := name])
      else
        IsolatedSoFar(device, was, t, rest - {p}, moved)
  {
    Waiting(device, was, t, rest, moved, p);
    forall q | q in rest ensures q in t { Waiting(device, was, t, rest, moved, q); }
    if name !in t {
      assert SetStatus(RenamePath(t, p, name).value, name, Pending) == (t - {p})[name := was[p]];
      hide NamedFor, MovesSoFar, RowsKept, RenamePath, SetStatus;
      OneMoved(device, was, rest, moved, p, name);
      KeptMoved(was, t, moved, p, name);
    } else {
      assert RowsKept(was, t, moved) && name in was && was[name].deleted;
      hide RowsKept;
      OneBlocked(device, was, rest, moved, p, name);
    }
  }

  lemma OneMoved(device: string, was: Table, rest: set<string>, moved: map<string, string>, p: string, name: string)
    requires MovesSoFar(device, was, rest, moved) && p in rest && !was[p].deleted && name !in rest && NamedFor(device, p, name)
    ensures MovesSoFar(device, was, rest - {p}, moved[p := name])
    ensures forall q | q in moved :: moved[q] != p
  {
    hide NamedFor, Blocked;
  }

  /** The name belongs to a tombstone, which was there from the start. */
  lemma OneBlocked(device: string, was: Table, rest: set<string>, moved: map<string, string>, p: string, name: string)
    requires MovesSoFar(device, was, rest, moved) && p in rest && NamedFor(device, p, name) && name in was && was[name].deleted
    ensures MovesSoFar(device, was, rest - {p}, moved)
  {
    assert Blocked(device, was, p);
    hide NamedFor, Blocked;
  }

  lemma KeptMoved(was: Table, t: Table, moved: map<string, string>, p: string, name: string)
    requires RowsKept(was, t, moved) && p in was && was[p].status == Pending && !was[p].deleted && p !in moved && RowAt(t, p) == Some(was[p])
    requires name !in t && name != p && forall q | q in moved :: moved[q] != p
    ensures RowsKept(was, (t - {p})[name := was[p]], moved[p := name])
  {
    var t', moved' := (t - {p})[name := was[p]], moved[p := name];
    forall q | q in PendingPaths(was) ensures RowAt(t', Moved(moved', q)) == Some(was[q]) {
      assert RowAt(t, Moved(moved, q)) == Some(was[q]);
    }
    forall q | q in was && was[q].status != Pending ensures RowAt(t', q) == Some(was[q]) {
      assert RowAt(t, q) == Some(was[q]);
    }
  }

  lemma AllIsolated(device: string, was: Table, t: Table, moved: map<string, string>)
    requires IsolatedSoFar(device, was, t, {}, moved)
    ensures Isolated(device, was, t, moved)
  {
    hide RowAt, NamedFor, Blocked;
  }

  lemma FlipNone(t: Table)
    ensures MarkSynced(t, {}) == t
  {
  }

  lemma FlipStep(t: Table, done: set<string>, p: string)
    ensures MarkSynced(t, done + {p}) == SetStatus(MarkSynced(t, done), p, Synced)
  {
  }

  lemma NothingLeft(t: Table)
    ensures PendingPaths(MarkSynced(t, PendingPaths(t))) == {}
  {
  }

  /** The table after a merge does not depend on the physical files. */
  lemma RowsIgnoreFiles(l: Local, l': Local, p: string, r: Row, name: string)
    requires l.rows == l'.rows
    ensures MergeOne(l, p, r, name).rows == MergeOne(l', p, r, name).rows
  {
  }

  /** The merge rule with its conditions written out. */
  lemma MergeOneIs(l: Local, p: string, r: Row, name: string)
    ensures p !in l.rows ==>
      MergeOne(l, p, r, name) == (if r.deleted then l else l.(rows := l.rows[p := r.(status := Synced)]))
    ensures p in l.rows ==>
      var row := l.rows[p];
      var base := if row.status == Pending then row.version - 1 else row.version;
      if r.version > base && row.version > base then
        && Classify(Some(row), r).ConflictCopy?
        && MergeOne(l, p, r, name) == (if name in l.rows then l
             else l.(rows := l.rows[name := row.(status := Conflict)][p := r.(status := Synced)]))
      else if r.version > row.version then
        && Classify(Some(row), r).TakeServer?
        && MergeOne(l, p, r, name) == Local(
             l.rows[p := r.(status := Synced, createdAt := row.createdAt)],
             if r.deleted && !row.deleted then l.files - {KeyOf(row)} else l.files)
      else
        Classify(Some(row), r).KeepLocal? && MergeOne(l, p, r, name) == l
    ensures p !in l.rows ==> !Classify(RowAt(l.rows, p), r).ConflictCopy?
  {
  }

  /** One attempt to upload: the base and the table presented, the newest server table
      merged into it, the reply, and the version of the server then; after a refusal
      also what was said next, the physical files at the time, and what came of it; and
      the retention period afterwards. */
  datatype Round = Round(base: nat, sent: Table, merged: nat, reply: PutReply, version: nat,
                         talk: seq<Exchange>, files: set<Key>, d: Download, retention: real)

  /** A refusal means that somebody has uploaded since the base, and is followed by
      a download. */
  predicate RoundOk(r: Round) {
    if r.reply.Mismatch? then
      && r.version > r.base && r.talk != [] && r.talk[0].Asked?
      && (r.talk[0].version.Some? ==> r.talk[0].version.value > r.base && |r.talk| == 2 && r.talk[1].Fetched?)
      && (r.talk[0].version.None? ==> |r.talk| == 1)
    else
      r.talk == []
  }

  /** After a refused attempt: when status and table were answered, the base is that
      status version, and the table is the old one merged with that table and
      purged; otherwise both are as before. */
  ghost predicate Follows(r: Round, now: real, hist: seq<Table>, base: nat, t: Table) {
    if |r.talk| == 2 && r.talk[1].Fetched? && r.talk[1].blob.Some? then
      var w := r.talk[1].blob.value;
      && r.talk[0].Asked? && r.talk[0].version == Some(base) && base <= w < |hist|
      && r.d.Merged? && Enumerates(r.d.order, hist[w])
      && t == Purge(MergeRows(Local(r.sent, r.files), hist[w], r.d.order, r.d.nm).rows, now - r.retention)
    else
      base == r.base && t == r.sent
  }

  /** The attempts so far of an upload of the table `t`, all refused, and what the
      next one will present. */
  ghost predicate Attempts(t: Table, last: nat, retention: real, now: real, rounds: seq<Round>, hist: seq<Table>,
                           base: nat, t': Table, retention': real)
  {
    && (forall i | 0 <= i < |rounds| :: RoundOk(rounds[i]) && rounds[i].reply.Mismatch? && PendingPaths(rounds[i].sent) != {})
    && (if rounds == [] then t' == Purge(t, now - retention) && base == last && retention' == retention
        else
          && rounds[0].sent == Purge(t, now - retention) && rounds[0].base == last
          && rounds[0].retention == Learned(retention, DaysSaid(rounds[0].talk))
          && Follows(rounds[|rounds| - 1], now, hist, base, t') && retention' == rounds[|rounds| - 1].retention)
    && (forall i | 0 <= i < |rounds| - 1 ::
          && Follows(rounds[i], now, hist, rounds[i + 1].base, rounds[i + 1].sent)
          && rounds[i + 1].retention == Learned(rounds[i].retention, DaysSaid(rounds[i + 1].talk)))
  }

  function DaysSaid(talk: seq<Exchange>): Option<int> {
    if talk != [] && talk[0].Asked? then talk[0].days else None
  }

  /** What was said in the attempts. */
  function TalkOf(rounds: seq<Round>): seq<Exchange> {
    if rounds == [] then []
    else
      var r := rounds[|rounds| - 1];
      TalkOf(rounds[..|rounds| - 1]) + [Sent(Some(r.base), r.sent, r.reply, r.version)] + r.talk
  }

  /** What an upload of the table `t` came to, with its attempts. */
  ghost predicate UploadOf(t: Table, last: nat, retention: real, now: real, r: UploadResult, rounds: seq<Round>,
                           hist: seq<Table>, last': nat, t': Table, retention': real)
  {
    && |rounds| <= 5
    && if PendingPaths(t) == {} then
         r == NothingPending && rounds == [] && t' == t
       else
         match r
         case NothingPending =>
           |rounds| < 5 && PendingPaths(t') == {} && Attempts(t, last, retention, now, rounds, hist, last', t', retention')
         case TooManyConflicts =>
           |rounds| == 5 && Attempts(t, last, retention, now, rounds, hist, last', t', retention')
         case Uploaded =>
           && rounds != [] && LastRound(t, last, retention, now, rounds, hist) && rounds[|rounds| - 1].reply == Accepted(last')
           && last' == |hist| - 1 && hist[last'] == rounds[|rounds| - 1].sent && rounds[|rounds| - 1].base == rounds[|rounds| - 1].merged == last' - 1
           && t' == MarkSynced(hist[last'], PendingPaths(hist[last'])) && PendingPaths(t') == {}
         case NoAnswer =>
           && rounds != [] && LastRound(t, last, retention, now, rounds, hist) && rounds[|rounds| - 1].reply == Unreachable
           && t' == rounds[|rounds| - 1].sent && last' == rounds[|rounds| - 1].base
  }

  /** The last attempt presents what the refused ones before it lead to. */
  ghost predicate LastRound(t: Table, last: nat, retention: real, now: real, rounds: seq<Round>, hist: seq<Table>)
    requires rounds != []
  {
    var z := rounds[|rounds| - 1];
    Attempts(t, last, retention, now, rounds[..|rounds| - 1], hist, z.base, z.sent, z.retention) && PendingPaths(z.sent) != {} && z.talk == []
  }

  lemma FollowsLater(r: Round, now: real, hist: seq<Table>, hist': seq<Table>, base: nat, t: Table)
    requires Follows(r, now, hist, base, t) && hist <= hist'
    ensures Follows(r, now, hist', base, t)
  {
    hide MergeRows, Purge, Enumerates;
  }

  lemma AttemptsLater(t: Table, last: nat, retention: real, now: real, rounds: seq<Round>, hist: seq<Table>, hist': seq<Table>,
                      base: nat, t': Table, retention': real)
    requires Attempts(t, last, retention, now, rounds, hist, base, t', retention') && hist <= hist'
    ensures Attempts(t, last, retention, now, rounds, hist', base, t', retention')
  {
    hide Follows, Purge, PendingPaths, RoundOk, Learned, DaysSaid;
    forall i | 0 <= i < |rounds| - 1 ensures Follows(rounds[i], now, hist', rounds[i + 1].base, rounds[i + 1].sent) {
      FollowsLater(rounds[i], now, hist, hist', rounds[i + 1].base, rounds[i + 1].sent);
    }
    if rounds != [] { FollowsLater(rounds[|rounds| - 1], now, hist, hist', base, t'); }
  }

  lemma AttemptsSnoc(t: Table, last: nat, retention: real, now: real, rounds: seq<Round>, hist: seq<Table>, r: Round, base: nat, t': Table)
    requires Attempts(t, last, retention, now, rounds, hist, r.base, r.sent, if rounds == [] then retention else rounds[|rounds| - 1].retention)
    requires RoundOk(r) && r.reply.Mismatch? && PendingPaths(r.sent) != {} && Follows(r, now, hist, base, t')
    requires r.retention == Learned(if rounds == [] then retention else rounds[|rounds| - 1].retention, DaysSaid(r.talk))
    ensures Attempts(t, last, retention, now, rounds + [r], hist, base, t', r.retention)
  {
    hide Follows, Purge, PendingPaths, RoundOk, Learned, DaysSaid;
    var all := rounds + [r];
    forall i | 0 <= i < |all| - 1
      ensures Follows(all[i], now, hist, all[i + 1].base, all[i + 1].sent)
      ensures all[i + 1].retention == Learned(all[i].retention, DaysSaid(all[i + 1].talk))
    {
      if i < |rounds| - 1 { assert all[i] == rounds[i] && all[i + 1] == rounds[i + 1]; }
    }
  }

  lemma NoAttempts(t: Table, last: nat, retention: real, now: real, hist: seq<Table>)
    ensures Attempts(t, last, retention, now, [], hist, last, Purge(t, now - retention), retention)
  {
  }

  /** The upload ends with an attempt that is not refused. */
  lemma EndsWith(t: Table, last: nat, retention: real, now: real, rounds: seq<Round>, hist: seq<Table>, z: Round, last': nat, t': Table)
    requires Attempts(t, last, retention, now, rounds, hist, z.base, z.sent, z.retention)
    requires |rounds| < MAX_CAS_RETRIES && PendingPaths(t) != {} && PendingPaths(z.sent) != {} && z.talk == [] && !z.reply.Mismatch?
    requires z.reply.Accepted? ==>
      && z.reply == Accepted(last') && last' == |hist| - 1 && hist[last'] == z.sent && z.base == z.merged == last' - 1
      && t' == MarkSynced(z.sent, PendingPaths(z.sent)) && PendingPaths(t') == {}
    requires z.reply.Unreachable? ==> t' == z.sent && last' == z.base
    ensures UploadOf(t, last, retention, now, if z.reply.Accepted? then Uploaded else NoAnswer, rounds + [z], hist, last', t', z.retention)
  {
    hide Attempts, PendingPaths, MarkSynced;
    assert (rounds + [z])[..|rounds|] == rounds;
  }

  /** It ends between two attempts. */
  lemma EndsAfter(t: Table, last: nat, retention: real, now: real, rounds: seq<Round>, hist: seq<Table>, last': nat, t': Table, retention': real)
    requires Attempts(t, last, retention, now, rounds, hist, last', t', retention')
    requires |rounds| <= MAX_CAS_RETRIES && PendingPaths(t) != {}
    ensures |rounds| < MAX_CAS_RETRIES && PendingPaths(t') == {} ==>
      UploadOf(t, last, retention, now, NothingPending, rounds, hist, last', t', retention')
    ensures |rounds| == MAX_CAS_RETRIES ==> UploadOf(t, last, retention, now, TooManyConflicts, rounds, hist, last', t', retention')
  {
    hide Attempts, PendingPaths, MarkSynced;
  }

  lemma NothingToUpload(t: Table, last: nat, retention: real, now: real, hist: seq<Table>)
    requires PendingPaths(t) == {}
    ensures UploadOf(t, last, retention, now, NothingPending, [], hist, last, t, retention)
  {
    hide PendingPaths;
  }

  lemma TalkSnoc(rounds: seq<Round>, r: Round)
    ensures TalkOf(rounds + [r]) == TalkOf(rounds) + [Sent(Some(r.base), r.sent, r.reply, r.version)] + r.talk
  {
    assert (rounds + [r])[..|rounds|] == rounds;
  }

  lemma NoTalk()
    ensures TalkOf([]) == []
  {
  }

  /** When a refused attempt was followed by a download of the version that the
      status had named, and nobody has uploaded by the next attempt, then that
      attempt is not refused: if it is answered, it is accepted. */
  lemma AnsweredIsAccepted(t: Table, last: nat, retention: real, now: real, r: UploadResult, rounds: seq<Round>,
                           hist: seq<Table>, last': nat, t': Table, retention': real, i: nat, v: nat)
    requires UploadOf(t, last, retention, now, r, rounds, hist, last', t', retention') && i + 1 < |rounds|
    requires |rounds[i].talk| == 2 && rounds[i].talk[0].Asked? && rounds[i].talk[0].version == Some(v) && rounds[i].talk[1] == Fetched(Some(v))
    ensures rounds[i + 1].base == v
    ensures rounds[i + 1].version <= v ==> !rounds[i + 1].reply.Mismatch?
  {
    hide Purge, MergeRows, Enumerates, PendingPaths, MarkSynced, Learned, DaysSaid;
    if r.Uploaded? || r.NoAnswer? {
      var front := rounds[..|rounds| - 1];
      assert Follows(front[i], now, hist, rounds[i + 1].base, rounds[i + 1].sent);
      if i + 1 < |front| { assert RoundOk(front[i + 1]); }
    } else {
      assert Follows(rounds[i], now, hist, rounds[i + 1].base, rounds[i + 1].sent);
      assert RoundOk(rounds[i + 1]);
    }
  }

  class SyncClient {
    const store: MetadataStore
    const resolver: ConflictResolver
    const jbod: Jbod.JbodManager
    const server: Server
    var lastSyncedVersion: nat
    var consecutiveFailures: nat
    var retention: real
    /** The newest server table merged or uploaded. */
    ghost var seen: nat

    ghost predicate Wired()
      reads jbod`order, jbod`sourceMap, jbod`disk, jbod.sourceMap.Values
    {
      resolver.store == store && jbod.store == store && jbod.Sound()
    }

    /** What the base version promises. */
    ghost predicate BaseOk()
      reads this`lastSyncedVersion, this`seen, server
    {
      lastSyncedVersion <= seen < |server.hist|
    }

    constructor (store: MetadataStore, resolver: ConflictResolver, jbod: Jbod.JbodManager, server: Server)
      requires resolver.store == store && jbod.store == store && jbod.Sound() && server.hist != []
      ensures Wired() && BaseOk() && lastSyncedVersion == 0 && consecutiveFailures == 0 && retention == 2592000.0
      ensures this.store == store && this.resolver == resolver && this.jbod == jbod && this.server == server
    {
      this.store, this.resolver, this.jbod, this.server := store, resolver, jbod, server;
      lastSyncedVersion, consecutiveFailures, retention, seen := 0, 0, 2592000.0, 0;
    }

    /** The table and the physical files, as the merge rule sees them. */
    ghost function Here(): Local
      reads store`rows, jbod`disk
    {
      Local(store.rows, jbod.disk.Keys)
    }

    ghost predicate AllUsable()
      reads jbod`sourceMap, jbod.sourceMap.Values`active
    {
      forall id | id in jbod.sourceMap :: jbod.Usable(id)
    }

    /** `_detect_ownership_loss`. */
    predicate OwnershipLost(t: Table, p: string, r: Row) {
      && p in t && Classify(Some(t[p]), r).TakeServer? && !r.deleted && jbod.deviceId.Some?
      && t[p].deviceId == jbod.deviceId && r.deviceId != jbod.deviceId
    }

    /** Written out: a row of this device is replaced by a newer live one of another
        device, and has no changes of its own. */
    lemma OwnershipLostIs(t: Table, p: string, r: Row)
      ensures OwnershipLost(t, p, r) <==>
        && p in t && t[p].status != Pending && r.version > t[p].version && !r.deleted
        && jbod.deviceId != None && t[p].deviceId == jbod.deviceId != r.deviceId
    {
    }

    method DetectOwnershipLoss(l: Row, r: Row)
      modifies jbod`gcNeeded
      ensures jbod.gcNeeded == (old(jbod.gcNeeded) ||
        (jbod.deviceId.Some? && !r.deleted && l.deviceId == jbod.deviceId && r.deviceId != jbod.deviceId))
    {
      if jbod.deviceId.None? || r.deleted {
        return;
      }
      if l.deviceId == jbod.deviceId && r.deviceId != jbod.deviceId {
        jbod.gcNeeded := true;
      }
    }

    method InsertFromServer(p: string, r: Row)
      modifies store`rows
      ensures store.rows == old(store.rows)[p := r.(status := Synced)]
    {
      store.rows := store.rows[p := r.(status := Synced)];
    }

    /** `_update_from_server`: a tombstone takes the local physical file with it. */
    method UpdateFromServer(p: string, r: Row)
      requires Wired() && p in store.rows
      modifies store`rows, jbod`disk, jbod.sourceMap.Values`files, jbod.sourceMap.Values`used
      ensures Wired()
      ensures store.rows == old(store.rows)[p := r.(status := Synced, createdAt := old(store.rows)[p].createdAt)]
      ensures jbod.disk ==
        if r.deleted && !old(store.rows)[p].deleted && jbod.Usable(old(store.rows)[p].sourceId)
        then old(jbod.disk) - {KeyOf(old(store.rows)[p])} else old(jbod.disk)
    {
      hide jbod.Sound;
      var local := store.rows[p];
      if r.deleted && !local.deleted {
        jbod.DeletePhysical(local.sourceId, local.physicalPath);
      }
      store.rows := store.rows[p := r.(status := Synced, createdAt := local.createdAt)];
    }

    lemma UnknownSource(l: Row)
      requires Wired()
      ensures AllUsable() && !jbod.Usable(l.sourceId) ==> KeyOf(l) !in jbod.disk
    {
    }

    /** `_merge_record` with the conflict name it looked for, if any. */
    method MergeRecord(p: string, r: Row, stamp: string) returns (ghost name: string)
      requires Wired()
      modifies store`rows, jbod`gcNeeded, jbod`disk, jbod.sourceMap.Values`files, jbod.sourceMap.Values`used
      ensures Wired()
      ensures store.rows == MergeOne(old(Here()), p, r, name).rows
      ensures AllUsable() ==> Here() == MergeOne(old(Here()), p, r, name)
      ensures Classify(RowAt(old(store.rows), p), r).ConflictCopy? ==>
        FirstFree(old(store.rows), p, resolver.deviceName, stamp, name) && name != p
      ensures !Classify(RowAt(old(store.rows), p), r).ConflictCopy? ==> name == p
      ensures jbod.gcNeeded == (old(jbod.gcNeeded) || OwnershipLost(old(store.rows), p, r))
    {
      hide FirstFree, MergeOne, Classify, jbod.Sound, jbod.Usable;
      name := p;
      MergeOneIs(Here(), p, r, p);
      var local := store.LookupAny(p);
      if local.None? {
        if r.deleted {
          return;
        }
        InsertFromServer(p, r);
        return;
      }
      var l := local.value;
      var base := if l.status == Pending then l.version - 1 else l.version;
      if r.version > base && l.version > base {
        var copy;
        copy, name := resolver.ResolveConflict(p, stamp);
        MergeOneIs(old(Here()), p, r, name);
        if copy.Some? {
          InsertFromServer(p, r);
        }
      } else if r.version > l.version {
        DetectOwnershipLoss(l, r);
        UnknownSource(l);
        UpdateFromServer(p, r);
      }
    }

    /** `_merge_server_metadata`: the rows come in whatever order the database
        yields; no pending row is lost unless a conflict name is known to the
        server. */
    method MergeServerMetadata(s: Table) returns (ghost order: seq<string>, ghost nm: Naming)
      requires Wired()
      modifies store`rows, jbod`gcNeeded, jbod`disk, jbod.sourceMap.Values`files, jbod.sourceMap.Values`used
      ensures Wired() && Enumerates(order, s)
      ensures store.rows == MergeRows(old(Here()), s, order, nm).rows
      ensures AllUsable() ==> Here() == MergeRows(old(Here()), s, order, nm)
      ensures (forall q | q in nm.copyOf :: nm.copyOf[q] !in s) ==>
        forall p | IsPending(old(store.rows), p) :: Survives(old(store.rows)[p], p, NameFor(nm, p), store.rows)
    {
      hide MergeOne, Classify, FirstFree, NameFor, IsPending, jbod.Sound, jbod.Usable, MergeRows;
      order, nm := [], NO_NAMES;
      MergeNothing(old(Here()), s);
      var rest := s.Keys;
      while rest != {}
        invariant Wired()
        invariant rest <= s.Keys && (forall p :: p in order <==> p in s && p !in rest)
        invariant forall i, j | 0 <= i < j < |order| :: order[i] != order[j]
        invariant forall q | q in nm.copyOf :: nm.copyOf[q] != q
        invariant store.rows == MergeRows(old(Here()), s, order, nm).rows
        invariant AllUsable() ==> Here() == MergeRows(old(Here()), s, order, nm)
        decreases |rest|
      {
        var p :| p in rest;
        var stamp: string := *;
        ghost var before := Here();
        var name := MergeRecord(p, s[p], stamp);
        RowsIgnoreFiles(before, MergeRows(old(Here()), s, order, nm), p, s[p], name);
        if name != p {
          MergeSnoc(old(Here()), s, order, nm, p, name);
          nm := nm.(copyOf := nm.copyOf[p := name]);
        } else {
          MergeUnnamed(old(Here()), s, order, nm, p);
          nm := nm.(copyOf := nm.copyOf - {p});
        }
        order, rest := order + [p], rest - {p};
      }
      if forall q | q in nm.copyOf :: nm.copyOf[q] !in s {
        AllSurvive(old(Here()), s, order, nm);
      }
    }

    /** `_gc_tombstones`. */
    method GcTombstones(now: real)
      modifies store`rows
      ensures store.rows == Purge(old(store.rows), now - retention)
    {
      var _ := store.PurgeExpiredTombstones(now, retention);
    }

    /** Flipping rows to synced, one at a time. */
    method Flip(paths: set<string>)
      modifies store`rows
      ensures store.rows == MarkSynced(old(store.rows), paths)
    {
      hide MarkSynced, SetStatus;
      var rest := paths;
      ghost var done: set<string> := {};
      FlipNone(store.rows);
      while rest != {}
        invariant done + rest == paths && done !! rest && store.rows == MarkSynced(old(store.rows), done)
        decreases |rest|
      {
        var p :| p in rest;
        FlipStep(old(store.rows), done, p);
        store.SetSyncStatus(p, Synced);
        rest, done := rest - {p}, done + {p};
      }
    }

    /** `upload_metadata`. The attempts are those the server has seen; each presents
        what the refused one before it led to. */
    method UploadMetadata(now: real) returns (r: UploadResult, ghost rounds: seq<Round>)
      requires Wired() && BaseOk()
      modifies this`lastSyncedVersion, this`consecutiveFailures, this`seen, this`retention, server
      modifies store`rows, jbod`gcNeeded, jbod`disk, jbod.sourceMap.Values`files, jbod.sourceMap.Values`used
      ensures Wired() && BaseOk() && old(server.hist) <= server.hist && server.log == old(server.log) + TalkOf(rounds)
      ensures UploadOf(old(store.rows), old(lastSyncedVersion), old(retention), now, r, rounds, server.hist, lastSyncedVersion, store.rows, retention)
      ensures r.Uploaded? ==> |old(server.hist)| <= lastSyncedVersion
      ensures consecutiveFailures == if r.Uploaded? then 0 else if r.NoAnswer? then old(consecutiveFailures) + 1 else old(consecutiveFailures)
    {
      hide jbod.Sound, Purge, MarkSynced, PendingPaths, HasMerged, Here, MergeRows, Attempts, RoundOk, Follows, Learned, DaysSaid, UploadOf, TalkOf;
      rounds := [];
      NoTalk();
      var pending := store.GetPendingFiles();
      if pending == {} {
        NothingToUpload(store.rows, lastSyncedVersion, retention, now, server.hist);
        return NothingPending, rounds;
      }
      GcTombstones(now);
      NoAttempts(old(store.rows), lastSyncedVersion, retention, now, server.hist);
      for attempt := 0 to MAX_CAS_RETRIES
        invariant Wired() && BaseOk() && old(server.hist) <= server.hist && |rounds| == attempt
        invariant server.log == old(server.log) + TalkOf(rounds)
        invariant Attempts(old(store.rows), old(lastSyncedVersion), old(retention), now, rounds, server.hist, lastSyncedVersion, store.rows, retention)
        invariant retention == if rounds == [] then old(retention) else rounds[|rounds| - 1].retention
        invariant consecutiveFailures == old(consecutiveFailures)
      {
        EndsAfter(old(store.rows), old(lastSyncedVersion), old(retention), now, rounds, server.hist, lastSyncedVersion, store.rows, retention);
        pending := store.GetPendingFiles();
        if pending == {} {
          return NothingPending, rounds;
        }
        ghost var before := server.hist;
        ghost var round;
        var reply;
        reply, round := Attempt(now, pending);
        AttemptsLater(old(store.rows), old(lastSyncedVersion), old(retention), now, rounds, before, server.hist, round.base, round.sent,
          if rounds == [] then old(retention) else rounds[|rounds| - 1].retention);
        TalkSnoc(rounds, round);
        if reply.Mismatch? {
          AttemptsSnoc(old(store.rows), old(lastSyncedVersion), old(retention), now, rounds, server.hist, round, lastSyncedVersion, store.rows);
          rounds := rounds + [round];
        } else {
          EndsWith(old(store.rows), old(lastSyncedVersion), old(retention), now, rounds, server.hist, round, lastSyncedVersion, store.rows);
          rounds := rounds + [round];
          if reply.Accepted? {
            consecutiveFailures := 0;
            return Uploaded, rounds;
          }
          consecutiveFailures := consecutiveFailures + 1;
          return NoAnswer, rounds;
        }
      }
      EndsAfter(old(store.rows), old(lastSyncedVersion), old(retention), now, rounds, server.hist, lastSyncedVersion, store.rows, retention);
      r := TooManyConflicts;
    }

    /** One attempt, and after a refusal the download. */
    method Attempt(now: real, pending: set<string>) returns (reply: PutReply, ghost round: Round)
      requires Wired() && BaseOk() && pending == PendingPaths(store.rows) && pending != {}
      modifies this`lastSyncedVersion, this`seen, this`retention, server
      modifies store`rows, jbod`gcNeeded, jbod`disk, jbod.sourceMap.Values`files, jbod.sourceMap.Values`used
      ensures Wired() && BaseOk() && old(server.hist) <= server.hist
      ensures server.log == old(server.log) + [Sent(Some(round.base), round.sent, reply, round.version)] + round.talk
      ensures RoundOk(round) && round.reply == reply && round.base == old(lastSyncedVersion) && round.sent == old(store.rows)
      ensures round.merged == old(seen) && round.retention == retention
      ensures reply.Accepted? ==>
        && |old(server.hist)| <= lastSyncedVersion == |server.hist| - 1 == reply.version && server.hist[lastSyncedVersion] == round.sent
        && round.base == round.merged == lastSyncedVersion - 1
        && store.rows == MarkSynced(round.sent, PendingPaths(round.sent)) && PendingPaths(store.rows) == {}
      ensures reply.Unreachable? ==> store.rows == round.sent && lastSyncedVersion == round.base
      ensures !reply.Mismatch? ==> retention == old(retention) && round.talk == []
      ensures reply.Mismatch? ==> retention == Learned(old(retention), DaysSaid(round.talk)) && Follows(round, now, server.hist, lastSyncedVersion, store.rows)
    {
      hide jbod.Sound, Purge, MarkSynced, PendingPaths, MergeRows, Enumerates, Learned;
      ghost var files := jbod.disk.Keys;
      reply := SendOnce(pending);
      round := Round(old(lastSyncedVersion), old(store.rows), old(seen), reply, |server.hist| - 1, [], files, Nothing, retention);
      if reply.Mismatch? {
        ghost var d, said;
        d, said := DownloadAndMerge(now);
        round := round.(talk := said, d := d, retention := retention);
      }
    }

    /** One PUT: the whole table goes out; a positive reply settles the rows that
        were pending. */
    method SendOnce(pending: set<string>) returns (reply: PutReply)
      requires Wired() && BaseOk() && pending == PendingPaths(store.rows)
      modifies this`lastSyncedVersion, this`seen, server, store`rows
      ensures Wired() && BaseOk() && old(server.hist) <= server.hist
      ensures server.log == old(server.log) + [Sent(Some(old(lastSyncedVersion)), old(store.rows), reply, |server.hist| - 1)]
      ensures reply.Accepted? ==>
        && |old(server.hist)| <= lastSyncedVersion == |server.hist| - 1 == reply.version && server.hist[lastSyncedVersion] == old(store.rows)
        && old(lastSyncedVersion) == old(seen) == lastSyncedVersion - 1
        && store.rows == MarkSynced(old(store.rows), pending) && PendingPaths(store.rows) == {}
      ensures !reply.Accepted? ==> store.rows == old(store.rows) && seen == old(seen) && lastSyncedVersion == old(lastSyncedVersion)
      ensures reply.Mismatch? ==> |server.hist| - 1 > lastSyncedVersion
    {
      hide jbod.Sound, MarkSynced, PendingPaths;
      reply := server.Put(Some(lastSyncedVersion), store.rows);
      if reply.Accepted? {
        lastSyncedVersion, seen := reply.version, reply.version;
        NothingLeft(store.rows);
        Flip(pending);
      }
    }

    /** `_force_upload`: no base version, so whatever the server has is replaced. */
    method ForceUpload() returns (ghost said: Exchange)
      requires Wired() && BaseOk()
      modifies this`lastSyncedVersion, this`seen, server, store`rows
      ensures Wired() && BaseOk() && old(server.hist) <= server.hist && server.log == old(server.log) + [said]
      ensures ForcedBy(old(store.rows), said, store.rows)
      ensures said.reply.Accepted? ==> lastSyncedVersion == |server.hist| - 1 && server.hist[lastSyncedVersion] == old(store.rows)
      ensures !said.reply.Accepted? ==> lastSyncedVersion == old(lastSyncedVersion)
    {
      hide jbod.Sound, MarkSynced, PendingPaths;
      var reply := server.Put(None, store.rows);
      said := Sent(None, store.rows, reply, |server.hist| - 1);
      if reply.Accepted? {
        lastSyncedVersion, seen := reply.version, reply.version;
        var pending := store.GetPendingFiles();
        Flip(pending);
      }
    }

    /** A status request, and what it says about the retention period. */
    method FetchStatus() returns (status: (Option<nat>, Option<int>))
      requires BaseOk()
      modifies this`retention, server
      ensures BaseOk() && old(server.hist) <= server.hist && (status.0.Some? ==> status.0.value == |server.hist| - 1)
      ensures server.log == old(server.log) + [Asked(status.0, status.1)] && (status.0.Some? <==> status.1.Some?)
      ensures retention == if status.1.Some? && status.1.value >= 1 then 86400.0 * status.1.value as real else old(retention)
      ensures retention == Learned(old(retention), status.1)
    {
      var version, days := server.Status();
      status := (version, days);
      if days.Some? && days.value > 0 {
        retention := days.value as real * 86400.0;
      }
    }

    /** What a merge leaves here: the table of the merge rule, and its files as far
        as sources are active. */
    twostate predicate HasMerged(d: Download)
      reads store`rows, jbod`disk, jbod`sourceMap, jbod.sourceMap.Values`active, server, this`seen
    {
      d.Merged? ==>
        && 0 < d.blob < |server.hist| && Enumerates(d.order, server.hist[d.blob]) && seen >= d.blob
        && (AllUsable() ==> jbod.disk.Keys == MergeRows(old(Here()), server.hist[d.blob], d.order, d.nm).files)
    }

    /** `_download_and_merge`: the blob may be newer than the version reported
        before it, and the version remembered is the older one. */
    method DownloadAndMerge(now: real) returns (ghost d: Download, ghost said: seq<Exchange>)
      requires Wired() && BaseOk()
      modifies this`lastSyncedVersion, this`seen, this`retention, server
      modifies store`rows, jbod`gcNeeded, jbod`disk, jbod.sourceMap.Values`files, jbod.sourceMap.Values`used
      ensures Wired() && BaseOk() && old(server.hist) <= server.hist && HasMerged(d) && server.log == old(server.log) + said
      ensures DownloadTalk(old(lastSyncedVersion), old(store.rows), said, d, lastSyncedVersion, store.rows)
      ensures said[0].version.Some? ==> said[0].version.value >= |old(server.hist)| - 1
      ensures retention == Learned(old(retention), said[0].days)
      ensures !d.Merged? ==> jbod.disk == old(jbod.disk)
      ensures d.Nothing? ==> seen == old(seen)
      ensures d.Merged? ==>
        && old(lastSyncedVersion) < lastSyncedVersion <= d.blob && seen >= old(seen)
        && store.rows == Purge(MergeRows(old(Here()), server.hist[d.blob], d.order, d.nm).rows, now - retention)
    {
      hide jbod.Sound, MergeRows, Purge, MarkSynced, PendingPaths, Survives, Enumerates, IsPending, NameFor, Learned;
      d := Nothing;
      var status := FetchStatus();
      said := [Asked(status.0, status.1)];
      if status.0.None? {
        return;
      }
      if status.0.value == 0 {
        ghost var forced := ForceUpload();
        d, said := Forced, said + [forced];
        return;
      }
      if status.0.value <= lastSyncedVersion {
        return;
      }
      ghost var fetched: Exchange;
      d, fetched := FetchAndMerge(status.0.value, now);
      said := said + [fetched];
    }

    /** The rest of it, when the status named the version `v`. */
    method FetchAndMerge(v: nat, now: real) returns (ghost d: Download, ghost said: Exchange)
      requires Wired() && BaseOk() && 0 < v == |server.hist| - 1 && lastSyncedVersion < v
      modifies this`lastSyncedVersion, this`seen, server
      modifies store`rows, jbod`gcNeeded, jbod`disk, jbod.sourceMap.Values`files, jbod.sourceMap.Values`used
      ensures Wired() && BaseOk() && old(server.hist) <= server.hist && HasMerged(d)
      ensures server.log == old(server.log) + [said] && said.Fetched? && (said.blob.Some? <==> d.Merged?) && !d.Forced?
      ensures d.Nothing? ==> store.rows == old(store.rows) && jbod.disk == old(jbod.disk) && seen == old(seen) && lastSyncedVersion == old(lastSyncedVersion)
      ensures d.Merged? ==>
        && said.blob == Some(d.blob) && lastSyncedVersion == v <= d.blob && seen >= old(seen)
        && store.rows == Purge(MergeRows(old(Here()), server.hist[d.blob], d.order, d.nm).rows, now - retention)
    {
      hide jbod.Sound, MergeRows, Purge, MarkSynced, PendingPaths, Survives, Enumerates, IsPending, NameFor;
      d := Nothing;
      var blob := server.Get();
      said := Fetched(if blob.Some? then Some(|server.hist| - 1) else None);
      if blob.None? {
        return;
      }
      d := MergeNewest(blob.value);
      lastSyncedVersion := v;
      GcTombstones(now);
    }

    /** Merging the server's newest table. */
    method MergeNewest(blob: Table) returns (ghost d: Download)
      requires Wired() && BaseOk() && |server.hist| > 1 && blob == server.hist[|server.hist| - 1]
      modifies this`seen, store`rows, jbod`gcNeeded, jbod`disk, jbod.sourceMap.Values`files, jbod.sourceMap.Values`used
      ensures Wired() && BaseOk() && HasMerged(d) && d.Merged? && d.blob == |server.hist| - 1 && seen >= old(seen)
      ensures store.rows == MergeRows(old(Here()), blob, d.order, d.nm).rows
    {
      hide jbod.Sound, MergeRows, Survives, Enumerates, IsPending, NameFor;
      ghost var order, nm;
      order, nm := MergeServerMetadata(blob);
      d := Merged(|server.hist| - 1, order, nm);
      seen := |server.hist| - 1;
    }

    /** What orphan collection keeps of these files. */
    ghost function Kept(files: set<Key>): set<Key>
      reads store`rows, jbod`order, jbod`sourceMap, jbod.sourceMap.Values`active
    {
      if jbod.deviceId.None? then files
      else set k | k in files && !Jbod.Orphan(store.rows, jbod.deviceId.value, jbod.UsableIds(jbod.order), k)
    }

    /** `initial_sync`: a merge that leaves the remembered version alone, followed by
        one orphan collection. */
    method InitialSync() returns (ghost d: Download, ghost said: seq<Exchange>)
      requires Wired() && BaseOk()
      modifies this`lastSyncedVersion, this`seen, server
      modifies store`rows, jbod`gcNeeded, jbod`disk, jbod.sourceMap.Values`files, jbod.sourceMap.Values`used
      ensures Wired() && BaseOk() && old(server.hist) <= server.hist && server.log == old(server.log) + said
      ensures InitialTalk(old(store.rows), said, d, store.rows)
      ensures !d.Merged? ==> jbod.disk == old(jbod.disk)
      ensures !d.Forced? ==> lastSyncedVersion == old(lastSyncedVersion)
      ensures d.Merged? ==>
        && 0 < d.blob < |server.hist| && d.blob >= |old(server.hist)| - 1 && Enumerates(d.order, server.hist[d.blob]) && seen >= d.blob
        && store.rows == MergeRows(old(Here()), server.hist[d.blob], d.order, d.nm).rows
        && (AllUsable() ==> jbod.disk.Keys == Kept(MergeRows(old(Here()), server.hist[d.blob], d.order, d.nm).files))
    {
      hide jbod.Sound, MergeRows, MarkSynced, PendingPaths, Survives, Enumerates, Kept, Jbod.Collected;
      d := Nothing;
      var blob := server.Get();
      said := [Fetched(if blob.Some? then Some(|server.hist| - 1) else None)];
      if blob.None? {
        return;
      }
      if |server.hist| == 1 {
        ghost var forced := ForceUpload();
        d, said := Forced, said + [forced];
        return;
      }
      d := MergeNewest(blob.value);
      CollectOrphans();
    }

    /** `_run_orphan_gc` at the start. */
    method CollectOrphans()
      requires Wired()
      modifies jbod`disk, jbod.sourceMap.Values`files, jbod.sourceMap.Values`used
      ensures Wired() && jbod.disk.Keys == Kept(old(jbod.disk).Keys)
    {
      hide jbod.Sound, jbod.Valid, Jbod.Collected, Kept;
      CollectionKeeps(jbod.disk);
      var _ := jbod.GcOrphanFiles();
    }

    lemma CollectionKeeps(disk: Volumes.Disk)
      ensures jbod.deviceId.Some? ==>
        Jbod.Collected(store.rows, jbod.deviceId.value, jbod.UsableIds(jbod.order), disk).Keys == Kept(disk.Keys)
      ensures jbod.deviceId.None? ==> disk.Keys == Kept(disk.Keys)
    {
      hide Jbod.Orphan;
    }

    /** The isolation step of `reconcile_if_stale`: every live pending row moves to
        a conflict name of its own, still pending, or stays if that fails. */
    method IsolatePending() returns (isolated: nat, ghost moved: map<string, string>)
      requires Wired()
      modifies store`rows
      ensures Wired() && isolated == |moved|
      ensures Isolated(resolver.deviceName, old(store.rows), store.rows, moved)
    {
      hide jbod.Sound, IsolatedSoFar, RenamePath, SetStatus, PendingPaths, IsPending, NamedFor, FirstFree;
      isolated, moved := 0, map[];
      var rest := store.GetPendingFiles();
      ghost var was := store.rows;
      NobodyIsolated(resolver.deviceName, was);
      while rest != {}
        invariant Wired() && isolated == |moved|
        invariant IsolatedSoFar(resolver.deviceName, was, store.rows, rest, moved)
        decreases |rest|
      {
        var p :| p in rest;
        Waiting(resolver.deviceName, was, store.rows, rest, moved, p);
        if !store.rows[p].deleted {
          var stamp: string := *;
          var name := resolver.GenerateConflictName(p, stamp);
          FreeIsNamed(store.rows, p, resolver.deviceName, stamp, name);
          IsolateOne(resolver.deviceName, was, store.rows, rest, moved, p, name);
          var ok := store.RenamePath(p, name);
          if ok {
            store.SetSyncStatus(name, Pending);
            isolated, moved := isolated + 1, moved[p := name];
          }
        }
        rest := rest - {p};
      }
      AllIsolated(resolver.deviceName, was, store.rows, moved);
    }

    lemma FreeIsNamed(t: Table, p: string, device: string, stamp: string, name: string)
      requires FirstFree(t, p, device, stamp, name)
      ensures NamedFor(device, p, name) && !Live(t, name)
    {
    }

    /** `reconcile_if_stale`: a device is stale when its last synchronisation is
        older than the retention period; without one it is new. A stale device
        isolates its pending rows, merges the server's table like any other, and
        uploads if it isolated something. */
    method ReconcileIfStale(lastSyncAt: Option<real>, now: real)
        returns (stale: bool, ghost status: Exchange, ghost moved: map<string, string>, ghost isolated: Table, ghost d: Download,
                 ghost said: seq<Exchange>, ghost merged: Table, ghost last: nat, ghost upload: Option<UploadResult>, ghost rounds: seq<Round>)
      requires Wired() && BaseOk()
      modifies this`lastSyncedVersion, this`consecutiveFailures, this`seen, this`retention, server
      modifies store`rows, jbod`gcNeeded, jbod`disk, jbod.sourceMap.Values`files, jbod.sourceMap.Values`used
      ensures Wired() && BaseOk() && old(server.hist) <= server.hist && status.Asked?
      ensures server.log == old(server.log) + [status] + said + TalkOf(rounds)
      ensures var period := Learned(old(retention), status.days);
        && (stale <==> lastSyncAt.Some? && now - lastSyncAt.value > period)
        && (upload.Some? ==>
              UploadOf(merged, last, period, now, upload.value, rounds, server.hist, lastSyncedVersion, store.rows, retention))
      ensures !stale ==> store.rows == old(store.rows) && jbod.disk == old(jbod.disk) && lastSyncedVersion == old(lastSyncedVersion) && said == []
      ensures stale ==>
        && Isolated(resolver.deviceName, old(store.rows), isolated, moved) && InitialTalk(isolated, said, d, merged)
        && Resynced(isolated, old(jbod.disk).Keys, server.hist, d, merged) && (!d.Forced? ==> last == 0)
      ensures upload.Some? <==> stale && moved != map[]
      ensures upload.None? ==> store.rows == merged && rounds == []
    {
      hide jbod.Sound, PendingPaths, MergeRows, Isolated, UploadOf, InitialTalk, Learned, Enumerates;
      moved, isolated, d, said, merged, last := map[], store.rows, Nothing, [], store.rows, lastSyncedVersion;
      upload, rounds := None, [];
      var reply := FetchStatus();
      status := Asked(reply.0, reply.1);
      if lastSyncAt.None? || now - lastSyncAt.value <= retention {
        stale := false;
        return;
      }
      var count;
      count, moved := IsolatePending();
      isolated := store.rows;
      lastSyncedVersion := 0;
      d, said := InitialSync();
      merged, last := store.rows, lastSyncedVersion;
      if count > 0 {
        ghost var result;
        result, rounds := UploadMetadata(now);
        upload := Some(result);
      }
      stale := true;
    }
  }

  /** A merged table is that of the merge rule. */
  ghost predicate Resynced(t: Table, files: set<Key>, hist: seq<Table>, d: Download, t': Table) {
    d.Merged? ==>
      && 0 < d.blob < |hist| && Enumerates(d.order, hist[d.blob])
      && t' == MergeRows(Local(t, files), hist[d.blob], d.order, d.nm).rows
  }
}
