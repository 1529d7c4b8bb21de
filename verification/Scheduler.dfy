/** The heal cycle of `stardustlib/replication_scheduler.py` and its grace
    period, over everything a scheduler ever did. */
module Scheduler {
  import opened Rows
  import opened Numbers

  /** What happened, in order: a successful health check, or a successful repair. */
  datatype Event = Checked(path: string, at: real, degraded: bool) | Repaired(path: string, at: real)

  /** What comes back for one path: whether a check calls it degraded, if the check
      succeeds, and whether a repair would succeed. */
  datatype Answer = Answer(degraded: Option<bool>, repairable: bool)

  /** What looking at one path does to the observation record, and what is noted:
      a first degraded check starts the clock, a healthy one or a repair stops it. */
  function Visit(since: map<string, real>, grace: real, p: string, now: real, a: Answer): (map<string, real>, seq<Event>) {
    match a.degraded
    case None => (since, [])
    case Some(false) => (since - {p}, [Checked(p, now, false)])
    case Some(true) =>
      var first := if p in since then since[p] else now;
      if now - first >= grace && a.repairable then (since - {p}, [Checked(p, now, true), Repaired(p, now)])
      else (since[p := first], [Checked(p, now, true)])
  }

  /** The first `n` paths one after the other. */
  function Visits(since: map<string, real>, grace: real, paths: seq<string>, now: real, answers: seq<Answer>, n: nat): (map<string, real>, seq<Event>)
    requires n <= |paths| && n <= |answers|
  {
    if n == 0 then (since, [])
    else
      var before := Visits(since, grace, paths, now, answers, n - 1);
      var last := Visit(before.0, grace, paths[n - 1], now, answers[n - 1]);
      (last.0, before.1 + last.1)
  }

  function Repairs(log: seq<Event>): nat {
    if log == [] then 0 else Repairs(log[..|log| - 1]) + if log[|log| - 1].Repaired? then 1 else 0
  }

  lemma {:induction false} RepairsAppend(a: seq<Event>, b: seq<Event>)
    ensures Repairs(a + b) == Repairs(a) + Repairs(b)
    decreases |b|
  {
    if b == [] {
      assert a + b == a;
    } else {
      assert (a + b)[..|a + b| - 1] == a + b[..|b| - 1];
      RepairsAppend(a, b[..|b| - 1]);
    }
  }

  /** The positions of the repairs from position `k` on. */
  function RepairsFrom(log: seq<Event>, k: nat): set<int> {
    set i | k <= i < |log| && log[i].Repaired?
  }

  lemma {:induction false} RepairsIs(log: seq<Event>, k: nat)
    requires k <= |log|
    ensures Repairs(log[k..]) == |RepairsFrom(log, k)|
    decreases |log|
  {
    if k == |log| {
      assert RepairsFrom(log, k) == {};
    } else {
      var n := |log| - 1;
      RepairsIs(log[..n], k);
      assert log[k..][..|log[k..]| - 1] == log[..n][k..];
      assert RepairsFrom(log, k) == RepairsFrom(log[..n], k) + if log[n].Repaired? then {n} else {};
    }
  }

  predicate InOrder(log: seq<Event>, now: real) {
    && (forall i, j | 0 <= i <= j < |log| :: log[i].at <= log[j].at)
    && (forall i | 0 <= i < |log| :: log[i].at <= now)
  }

  /** From `i` up to `k` everything about `p` said degraded, and nothing was
      repaired. */
  predicate Streak(log: seq<Event>, i: nat, k: nat, p: string)
    requires k <= |log|
  {
    && i < k && log[i] == Checked(p, log[i].at, true)
    && forall j | i <= j < k && log[j].path == p :: log[j].Checked? && log[j].degraded
  }

  /** A streak for `p` that began at time `first` and lasts. */
  ghost predicate Since(log: seq<Event>, p: string, first: real) {
    exists i: nat :: i < |log| && log[i].at == first && Streak(log, i, |log|, p)
  }

  /** The repair at position `k` had a streak at least `grace` long before it. */
  ghost predicate Justified(log: seq<Event>, k: nat, grace: real)
    requires k < |log|
  {
    log[k].Repaired? ==> exists i: nat :: i < k && Streak(log, i, k, log[k].path) && log[i].at + grace <= log[k].at
  }

  ghost predicate AllJustified(log: seq<Event>, grace: real) {
    forall k: nat | k < |log| :: Justified(log, k, grace)
  }

  lemma SinceExtends(log: seq<Event>, p: string, first: real, e: Event)
    requires Since(log, p, first) && (e.path == p ==> e.Checked? && e.degraded)
    ensures Since(log + [e], p, first)
  {
    var i: nat :| i < |log| && log[i].at == first && Streak(log, i, |log|, p);
    assert Streak(log + [e], i, |log| + 1, p);
  }

  lemma SinceStarts(log: seq<Event>, p: string, now: real)
    ensures Since(log + [Checked(p, now, true)], p, now)
  {
    var log' := log + [Checked(p, now, true)];
    assert Streak(log', |log|, |log'|, p);
  }

  lemma JustifiedExtends(log: seq<Event>, e: Event, grace: real)
    requires AllJustified(log, grace)
    requires e.Repaired? ==> exists first :: Since(log, e.path, first) && first + grace <= e.at
    ensures AllJustified(log + [e], grace)
  {
    var log' := log + [e];
    forall k: nat | k < |log'| ensures Justified(log', k, grace) {
      if k < |log| {
        assert Justified(log, k, grace);
        if log[k].Repaired? {
          var i: nat :| i < k && Streak(log, i, k, log[k].path) && log[i].at + grace <= log[k].at;
          assert Streak(log', i, k, log'[k].path);
        }
      } else if e.Repaired? {
        var first :| Since(log, e.path, first) && first + grace <= e.at;
        var i: nat :| i < |log| && log[i].at == first && Streak(log, i, |log|, e.path);
        assert Streak(log', i, |log|, log'[k].path);
      }
    }
  }

  /* Whole runs. */

  /** What the observation record and the log always satisfy. */
  ghost predicate Good(since: map<string, real>, log: seq<Event>, grace: real, now: real) {
    InOrder(log, now) && AllJustified(log, grace) && forall p | p in since :: Since(log, p, since[p])
  }

  /** Noting an event. The record of its path survives only a degraded check. */
  lemma NoteKeeps(since: map<string, real>, log: seq<Event>, grace: real, now: real, e: Event)
    requires Good(since, log, grace, now) && e.at == now
    requires e.Repaired? ==> e.path in since && now - since[e.path] >= grace
    ensures Good(if e.Checked? && e.degraded then since else since - {e.path}, log + [e], grace, now)
  {
    hide Since, AllJustified;
    JustifiedExtends(log, e, grace);
    forall q | q in since && (q == e.path ==> e.Checked? && e.degraded) ensures Since(log + [e], q, since[q]) {
      SinceExtends(log, q, since[q], e);
    }
  }

  lemma VisitKeeps(since: map<string, real>, log: seq<Event>, grace: real, p: string, now: real, a: Answer)
    requires Good(since, log, grace, now)
    ensures Good(Visit(since, grace, p, now, a).0, log + Visit(since, grace, p, now, a).1, grace, now)
  {
    hide Since, AllJustified;
    match a.degraded
    case None =>
      assert log + [] == log;
    case Some(degraded) =>
      var checked := Checked(p, now, degraded);
      NoteKeeps(since, log, grace, now, checked);
      if degraded {
        var first := if p in since then since[p] else now;
        var since' := since[p := first];
        if p !in since { SinceStarts(log, p, now); }
        assert Good(since', log + [checked], grace, now);
        if now - first >= grace && a.repairable {
          NoteKeeps(since', log + [checked], grace, now, Repaired(p, now));
          assert since' - {p} == since - {p};
          assert log + [checked] + [Repaired(p, now)] == log + [checked, Repaired(p, now)];
        }
      }
  }

  lemma {:induction false} VisitsKeep(since: map<string, real>, log: seq<Event>, grace: real, paths: seq<string>, now: real,
                                      answers: seq<Answer>, n: nat)
    requires n <= |paths| && n <= |answers| && Good(since, log, grace, now)
    ensures var visited := Visits(since, grace, paths, now, answers, n); Good(visited.0, log + visited.1, grace, now)
  {
    hide Good, Visit;
    if n == 0 {
      assert log + [] == log;
    } else {
      VisitsKeep(since, log, grace, paths, now, answers, n - 1);
      var before := Visits(since, grace, paths, now, answers, n - 1);
      VisitKeeps(before.0, log + before.1, grace, paths[n - 1], now, answers[n - 1]);
      assert log + (before.1 + Visit(before.0, grace, paths[n - 1], now, answers[n - 1]).1)
          == log + before.1 + Visit(before.0, grace, paths[n - 1], now, answers[n - 1]).1;
    }
  }

  /** One heal cycle: the paths offered, the time, and the answers until the
      scheduler is stopped. */
  datatype Cycle = Cycle(paths: seq<string>, now: real, answers: seq<Answer>)

  function Looked(c: Cycle, maxPerCycle: nat): nat {
    Min(maxPerCycle, Min(|c.paths|, |c.answers|))
  }

  /** The observation record and the log after any number of cycles. */
  function RunOf(cycles: seq<Cycle>, grace: real, maxPerCycle: nat): (map<string, real>, seq<Event>) {
    if cycles == [] then (map[], [])
    else
      var c := cycles[|cycles| - 1];
      var before := RunOf(cycles[..|cycles| - 1], grace, maxPerCycle);
      var visited := Visits(before.0, grace, c.paths, c.now, c.answers, Looked(c, maxPerCycle));
      (visited.0, before.1 + visited.1)
  }

  lemma RunGrows(cycles: seq<Cycle>, c: Cycle, grace: real, maxPerCycle: nat)
    ensures var before := RunOf(cycles, grace, maxPerCycle);
      var visited := Visits(before.0, grace, c.paths, c.now, c.answers, Looked(c, maxPerCycle));
      RunOf(cycles + [c], grace, maxPerCycle) == (visited.0, before.1 + visited.1)
  {
    assert (cycles + [c])[..|cycles|] == cycles;
  }

  predicate InTime(cycles: seq<Cycle>) {
    forall i, j | 0 <= i <= j < |cycles| :: cycles[i].now <= cycles[j].now
  }

  lemma GoodLater(since: map<string, real>, log: seq<Event>, grace: real, now: real, later: real)
    requires Good(since, log, grace, now) && now <= later
    ensures Good(since, log, grace, later)
  {
    hide AllJustified, Since;
  }

  lemma {:induction false} RunIsGood(cycles: seq<Cycle>, grace: real, maxPerCycle: nat, now: real)
    requires InTime(cycles) && (cycles != [] ==> cycles[|cycles| - 1].now <= now)
    ensures Good(RunOf(cycles, grace, maxPerCycle).0, RunOf(cycles, grace, maxPerCycle).1, grace, now)
  {
    if cycles != [] {
      hide Good, Visits;
      var c := cycles[|cycles| - 1];
      var before := RunOf(cycles[..|cycles| - 1], grace, maxPerCycle);
      RunIsGood(cycles[..|cycles| - 1], grace, maxPerCycle, c.now);
      VisitsKeep(before.0, before.1, grace, c.paths, c.now, c.answers, Looked(c, maxPerCycle));
      var after := RunOf(cycles, grace, maxPerCycle);
      GoodLater(after.0, after.1, grace, c.now, now);
    }
  }

  /* Repairs that are due do take place. */

  /** Every unbroken streak is on record, with a time no later than its start. */
  ghost predicate Earliest(since: map<string, real>, log: seq<Event>) {
    forall p, i: nat | i < |log| && Streak(log, i, |log|, p) :: p in since && since[p] <= log[i].at
  }

  lemma NoteEarliest(since: map<string, real>, log: seq<Event>, e: Event)
    requires Earliest(since, log) && (e.path in since ==> since[e.path] <= e.at)
    ensures Earliest(if e.Checked? && e.degraded then since[e.path := if e.path in since then since[e.path] else e.at] else since - {e.path}, log + [e])
  {
    var since' := if e.Checked? && e.degraded then since[e.path := if e.path in since then since[e.path] else e.at] else since - {e.path};
    var log' := log + [e];
    forall p, i: nat | i < |log'| && Streak(log', i, |log'|, p) ensures p in since' && since'[p] <= log'[i].at {
      assert log'[|log|] == e;
      if i < |log| {
        assert forall j | i <= j < |log| :: log'[j] == log[j];
        assert Streak(log, i, |log|, p);
      }
    }
  }

  lemma VisitEarliest(since: map<string, real>, log: seq<Event>, grace: real, p: string, now: real, a: Answer)
    requires Good(since, log, grace, now) && Earliest(since, log)
    ensures Earliest(Visit(since, grace, p, now, a).0, log + Visit(since, grace, p, now, a).1)
  {
    SinceBefore(since, log, grace, now);
    hide Earliest, Good;
    match a.degraded
    case None =>
      assert log + [] == log;
    case Some(degraded) =>
      var checked := Checked(p, now, degraded);
      NoteEarliest(since, log, checked);
      if degraded {
        var first := if p in since then since[p] else now;
        if now - first >= grace && a.repairable {
          NoteEarliest(since[p := first], log + [checked], Repaired(p, now));
          assert since[p := first] - {p} == since - {p};
          assert log + [checked] + [Repaired(p, now)] == log + [checked, Repaired(p, now)];
        }
      }
  }

  lemma SinceBefore(since: map<string, real>, log: seq<Event>, grace: real, now: real)
    requires Good(since, log, grace, now)
    ensures forall p | p in since :: since[p] <= now
  {
    hide Streak, AllJustified;
    forall p | p in since ensures since[p] <= now {
      assert Since(log, p, since[p]);
    }
  }

  lemma {:induction false} VisitsEarliest(since: map<string, real>, log: seq<Event>, grace: real, paths: seq<string>, now: real,
                                          answers: seq<Answer>, n: nat)
    requires n <= |paths| && n <= |answers| && Good(since, log, grace, now) && Earliest(since, log)
    ensures var visited := Visits(since, grace, paths, now, answers, n);
      Good(visited.0, log + visited.1, grace, now) && Earliest(visited.0, log + visited.1)
  {
    VisitsKeep(since, log, grace, paths, now, answers, n);
    hide Good, Visit, Earliest;
    if n == 0 {
      assert log + [] == log;
    } else {
      VisitsEarliest(since, log, grace, paths, now, answers, n - 1);
      var before := Visits(since, grace, paths, now, answers, n - 1);
      VisitEarliest(before.0, log + before.1, grace, paths[n - 1], now, answers[n - 1]);
      assert log + (before.1 + Visit(before.0, grace, paths[n - 1], now, answers[n - 1]).1)
          == log + before.1 + Visit(before.0, grace, paths[n - 1], now, answers[n - 1]).1;
    }
  }

  lemma {:induction false} RunIsEarliest(cycles: seq<Cycle>, grace: real, maxPerCycle: nat)
    requires InTime(cycles)
    ensures Earliest(RunOf(cycles, grace, maxPerCycle).0, RunOf(cycles, grace, maxPerCycle).1)
  {
    if cycles != [] {
      hide Good, Visits, Earliest;
      var c := cycles[|cycles| - 1];
      var before := RunOf(cycles[..|cycles| - 1], grace, maxPerCycle);
      RunIsGood(cycles[..|cycles| - 1], grace, maxPerCycle, c.now);
      RunIsEarliest(cycles[..|cycles| - 1], grace, maxPerCycle);
      VisitsEarliest(before.0, before.1, grace, c.paths, c.now, c.answers, Looked(c, maxPerCycle));
    }
  }

  /** Whether a repair is due after the last event of the log: for the path's current
      streak, unbroken by a healthy check or a repair, began long enough ago. */
  ghost predicate Due(log: seq<Event>, p: string, grace: real, now: real) {
    exists i: nat ::
      && i < |log| && log[i].path == p && log[i].at <= now - grace
      && forall j | i <= j < |log| && log[j].path == p :: log[j].Checked? && log[j].degraded
  }

  lemma DueIff(since: map<string, real>, log: seq<Event>, grace: real, p: string, now: real)
    requires Good(since, log, grace, now) && Earliest(since, log)
    ensures var first := if p in since then since[p] else now;
      now - first >= grace <==> Due(log + [Checked(p, now, true)], p, grace, now)
  {
    var log' := log + [Checked(p, now, true)];
    var first := if p in since then since[p] else now;
    SinceBefore(since, log, grace, now);
    assert forall j | 0 <= j < |log| :: log'[j] == log[j];
    assert log'[|log|] == Checked(p, now, true);
    if now - first >= grace {
      if p in since {
        hide AllJustified;
        assert Since(log, p, first);
        var i: nat :| i < |log| && log[i].at == first && Streak(log, i, |log|, p);
        assert log'[i].path == p && log'[i].at <= now - grace;
      }
    }
    if Due(log', p, grace, now) {
      hide Good;
      var i: nat :| i < |log'| && log'[i].path == p && log'[i].at <= now - grace
        && forall j | i <= j < |log'| && log'[j].path == p :: log'[j].Checked? && log'[j].degraded;
      if i < |log| {
        assert log[i] == log'[i] && Streak(log, i, |log|, p);
      }
    }
  }

  /** What is on the log when cycle `m` has looked at `n` paths. */
  function LogAt(cycles: seq<Cycle>, grace: real, maxPerCycle: nat, m: nat, n: nat): seq<Event>
    requires m <= |cycles| && n <= if m < |cycles| then Looked(cycles[m], maxPerCycle) else 0
  {
    var before := RunOf(cycles[..m], grace, maxPerCycle);
    if n == 0 then before.1
    else before.1 + Visits(before.0, grace, cycles[m].paths, cycles[m].now, cycles[m].answers, n).1
  }

  /** The log begins empty and ends as the run's log; a cycle ends where the next one
      begins, after the permitted number of paths or where paths or answers run out. */
  lemma LogAtEnds(cycles: seq<Cycle>, grace: real, maxPerCycle: nat, m: nat)
    requires m <= |cycles|
    ensures LogAt(cycles, grace, maxPerCycle, 0, 0) == []
    ensures LogAt(cycles, grace, maxPerCycle, |cycles|, 0) == RunOf(cycles, grace, maxPerCycle).1
    ensures m < |cycles| ==>
      && LogAt(cycles, grace, maxPerCycle, m, Looked(cycles[m], maxPerCycle)) == LogAt(cycles, grace, maxPerCycle, m + 1, 0)
      && var looked := Looked(cycles[m], maxPerCycle);
      && looked <= maxPerCycle && looked <= |cycles[m].paths| && looked <= |cycles[m].answers|
      && (looked == maxPerCycle || looked == |cycles[m].paths| || looked == |cycles[m].answers|)
  {
    assert cycles[..|cycles|] == cycles && cycles[..0] == [];
    if m < |cycles| {
      assert cycles[..m + 1] == cycles[..m] + [cycles[m]];
      RunGrows(cycles[..m], cycles[m], grace, maxPerCycle);
    }
  }

  /** What looking at one path adds to the log, said on the log alone: nothing if the
      check fails, else its verdict, and then a repair exactly if the file is degraded,
      repairable, and its current streak is at least the grace period old. */
  lemma EveryCheckIsNoted(cycles: seq<Cycle>, grace: real, maxPerCycle: nat, m: nat, n: nat)
    requires InTime(cycles) && m < |cycles| && n < Looked(cycles[m], maxPerCycle)
    ensures var c := cycles[m];
      var p, a := c.paths[n], c.answers[n];
      var log := LogAt(cycles, grace, maxPerCycle, m, n);
      LogAt(cycles, grace, maxPerCycle, m, n + 1) ==
        match a.degraded {
          case None => log
          case Some(degraded) =>
            var log' := log + [Checked(p, c.now, degraded)];
            if degraded && a.repairable && Due(log', p, grace, c.now) then log' + [Repaired(p, c.now)] else log'
        }
  {
    var c := cycles[m];
    var p, a := c.paths[n], c.answers[n];
    var before := RunOf(cycles[..m], grace, maxPerCycle);
    var now := Visits(before.0, grace, c.paths, c.now, c.answers, n);
    var log := LogAt(cycles, grace, maxPerCycle, m, n);
    RunIsGood(cycles[..m], grace, maxPerCycle, c.now);
    RunIsEarliest(cycles[..m], grace, maxPerCycle);
    VisitsEarliest(before.0, before.1, grace, c.paths, c.now, c.answers, n);
    assert log == before.1 + now.1;
    hide RunOf, Good, Earliest, Due;
    DueIff(now.0, log, grace, p, c.now);
    var more := Visit(now.0, grace, p, c.now, a).1;
    assert Visits(before.0, grace, c.paths, c.now, c.answers, n + 1).1 == now.1 + more;
    assert before.1 + (now.1 + more) == log + more;
    if a.degraded.Some? {
      assert log + [Checked(p, c.now, a.degraded.value), Repaired(p, c.now)]
          == log + [Checked(p, c.now, a.degraded.value)] + [Repaired(p, c.now)];
    }
  }

  /** Over any run of cycles, a file is repaired only after every successful check
      of it said degraded for at least the grace period. */
  lemma RepairWaitsForGrace(cycles: seq<Cycle>, grace: real, maxPerCycle: nat, k: nat)
    requires InTime(cycles)
    requires k < |RunOf(cycles, grace, maxPerCycle).1| && RunOf(cycles, grace, maxPerCycle).1[k].Repaired?
    ensures var log := RunOf(cycles, grace, maxPerCycle).1;
      exists i: nat ::
        && i < k && log[i].path == log[k].path && log[i].at <= log[k].at - grace
        && forall j | i <= j < k && log[j].path == log[k].path :: log[j].Checked? && log[j].degraded
  {
    var log := RunOf(cycles, grace, maxPerCycle).1;
    RunIsGood(cycles, grace, maxPerCycle, if cycles == [] then 0.0 else cycles[|cycles| - 1].now);
    hide RunOf;
    assert Justified(log, k, grace);
    var i: nat :| i < k && Streak(log, i, k, log[k].path) && log[i].at + grace <= log[k].at;
    assert log[i].path == log[k].path;
  }

  /** Over any run of cycles, two successful repairs of one file are at least the
      grace period apart. */
  lemma RepairsAreApart(cycles: seq<Cycle>, grace: real, maxPerCycle: nat, j: nat, k: nat)
    requires InTime(cycles)
    requires var log := RunOf(cycles, grace, maxPerCycle).1;
      j < k < |log| && log[j].Repaired? && log[k].Repaired? && log[j].path == log[k].path
    ensures var log := RunOf(cycles, grace, maxPerCycle).1; log[j].at + grace <= log[k].at
  {
    var log := RunOf(cycles, grace, maxPerCycle).1;
    RunIsGood(cycles, grace, maxPerCycle, if cycles == [] then 0.0 else cycles[|cycles| - 1].now);
    hide RunOf;
    assert Justified(log, k, grace);
    var i: nat :| i < k && Streak(log, i, k, log[k].path) && log[i].at + grace <= log[k].at;
    assert j < i;
  }

  class ReplicationScheduler {
    const grace: real
    const maxPerCycle: nat
    /** When each path was first seen degraded. */
    var degradedSince: map<string, real>
    /** The cycles so far, and what they noted. */
    ghost var cycles: seq<Cycle>
    ghost var log: seq<Event>

    ghost predicate Valid()
      reads this
    {
      (degradedSince, log) == RunOf(cycles, grace, maxPerCycle)
    }

    constructor (grace: real, maxPerCycle: nat)
      ensures Valid() && cycles == []
      ensures this.grace == grace && this.maxPerCycle == maxPerCycle
    {
      this.grace, this.maxPerCycle := grace, maxPerCycle;
      degradedSince, cycles, log := map[], [], [];
    }

    /** `run_heal_cycle` with the answers it gets; when they run out, the scheduler
        was stopped. Never more than the permitted number of paths is looked at. */
    method RunHealCycle(paths: seq<string>, now: real, answers: seq<Answer>) returns (repaired: nat)
      requires Valid()
      modifies this
      ensures Valid() && cycles == old(cycles) + [Cycle(paths, now, answers)]
      ensures old(log) <= log && repaired == |set i | |old(log)| <= i < |log| && log[i].Repaired?|
    {
      hide Visit, RunOf;
      RunGrows(cycles, Cycle(paths, now, answers), grace, maxPerCycle);
      repaired := 0;
      var n := 0;
      ghost var noted: seq<Event> := [];
      while n < |paths| && n < maxPerCycle && n < |answers|
        invariant n <= Looked(Cycle(paths, now, answers), maxPerCycle) && cycles == old(cycles) && log == old(log)
        invariant (degradedSince, noted) == Visits(old(degradedSince), grace, paths, now, answers, n)
        invariant repaired == Repairs(noted)
      {
        ghost var more := Visit(degradedSince, grace, paths[n], now, answers[n]).1;
        var fixed := CheckOne(paths[n], now, answers[n]);
        RepairsAppend(noted, more);
        if fixed {
          repaired := repaired + 1;
        }
        noted := noted + more;
        n := n + 1;
      }
      RepairsIs(log + noted, |log|);
      assert (log + noted)[|log|..] == noted;
      cycles, log := cycles + [Cycle(paths, now, answers)], log + noted;
    }

    /** One path of the cycle: check, wait for the grace period, repair. */
    method CheckOne(p: string, now: real, answer: Answer) returns (fixed: bool)
      modifies this`degradedSince
      ensures fixed <==>
        answer.degraded == Some(true) && answer.repairable && now - (if p in old(degradedSince) then old(degradedSince)[p] else now) >= grace
      ensures degradedSince ==
        if answer.degraded.None? then old(degradedSince)
        else if fixed || answer.degraded == Some(false) then old(degradedSince) - {p}
        else if p in old(degradedSince) then old(degradedSince) else old(degradedSince)[p := now]
      ensures degradedSince == Visit(old(degradedSince), grace, p, now, answer).0
      ensures Repairs(Visit(old(degradedSince), grace, p, now, answer).1) == if fixed then 1 else 0
    {
      fixed := false;
      if answer.degraded.None? {
        return;
      }
      assert [Checked(p, now, answer.degraded.value)][..0] == [];
      if !answer.degraded.value {
        degradedSince := degradedSince - {p};
        return;
      }
      if p !in degradedSince {
        degradedSince := degradedSince[p := now];
      }
      assert degradedSince == old(degradedSince)[p := degradedSince[p]];
      if now - degradedSince[p] < grace || !answer.repairable {
        return;
      }
      assert [Checked(p, now, true), Repaired(p, now)][..1] == [Checked(p, now, true)];
      degradedSince := degradedSince - {p};
      assert degradedSince == old(degradedSince) - {p};
      fixed := true;
    }
  }
}
