/** A run to which the retention bound applies: a file that two devices have is
    deleted on one of them, and both synchronise in time until tombstones may be
    purged. */
module DeletionWitness {
  import opened Rows
  import opened Merge
  import opened Protocol
  import opened Tombstones
  import opened Witnesses

  const LIVE: Table := map["p" := RowOf(KEY_A, "A", 1)]
  const TOMB: Table := map["p" := RowOf(KEY_A, "A", 2).(deleted := true)]
  const LIVE_SYNCED: Table := map["p" := RowOf(KEY_A, "A", 1).(status := Synced)]
  const TOMB_SYNCED: Table := map["p" := RowOf(KEY_A, "A", 2).(deleted := true, status := Synced)]
  const BASE1: map<string, int> := map["p" := 1]
  const BASE2: map<string, int> := map["p" := 2]

  /* The device that writes and deletes. */
  const E1 := A1.(slot := Sent({}, true, 0, LIVE, BASES, 0))
  const E2 := A1.(slot := Accepted({}, true, 1))
  const E3 := NEW_DEVICE.(local := Local(LIVE_SYNCED, {KEY_A}), last := 1, bases := BASE1, seen := 1)
  const E4 := E3.(local := Local(TOMB, {}))
  const E5 := E4.(slot := Snapped({"p"}))
  const E6 := E4.(slot := Sent({"p"}, false, 1, TOMB, BASE1, 1))
  const E7 := E4.(slot := Accepted({"p"}, false, 2))
  const E8 := NEW_DEVICE.(local := Local(TOMB_SYNCED, {}), last := 2, bases := BASE2, seen := 2)
  const E9 := E8.(tasks := map[1 := StatusRead(2, 2.0)])
  const E10 := E8.(tasks := map[1 := Idle], syncedAt := 2.0)

  /* The device that only merges. */
  const F1 := NEW_DEVICE.(tasks := map[0 := BlobRead(0, 1, 0.0)])
  const F2 := NEW_DEVICE.(local := Local(LIVE_SYNCED, {}), tasks := map[0 := Idle], bases := BASE1, seen := 1)
  const F3 := F2.(tasks := map[0 := StatusRead(2, 2.0)])
  const F4 := F2.(tasks := map[0 := BlobRead(2, 2, 2.0)])
  const F5 := NEW_DEVICE.(local := Local(TOMB_SYNCED, {}), last := 2, tasks := map[0 := Idle], bases := BASE2, seen := 2, syncedAt := 2.0)

  /** `n` uploads accepted so far. */
  function St(n: nat, a: Device, b: Device, now: real): State {
    var log1 := LogTable(map[], LIVE);
    State(Hist(n),
          if n == 0 then map[] else if n == 1 then log1 else LogTable(log1, TOMB),
          map["A" := a, "B" := b], {}, KEYS1, now)
  }

  const GRAVE := Grave("p", 2, 0.0, 2, 0.0, 3.0, 1.0, 1.0)

  function Hist(n: nat): seq<Table> {
    if n == 0 then [map[]] else if n == 1 then [map[], LIVE] else [map[], LIVE, TOMB]
  }

  /** A step that only changes the device that takes it. */
  predicate Quiet(a: Action) {
    !a.Tick? && !a.Accept? && !a.Write? && (a.MergeBlob? ==> a.nm == NO_NAMES)
  }

  lemma MoveA(n: nat, a: Device, a': Device, b: Device, now: real, act: Action)
    requires Quiet(act) && act.d == "A" && Can(Hist(n), a, act) && StepDevice(St(n, a, b, now), a, act) == a'
    ensures Next(St(n, a, b, now), act) == St(n, a', b, now)
  {
    hide LogTable, StepDevice, Can;
    assert St(n, a, b, now).devs["A" := a'] == map["A" := a', "B" := b];
    QuietNext(St(n, a, b, now), act, a', St(n, a', b, now));
  }

  lemma MoveB(n: nat, a: Device, b: Device, b': Device, now: real, act: Action)
    requires Quiet(act) && act.d == "B" && Can(Hist(n), b, act) && StepDevice(St(n, a, b, now), b, act) == b'
    ensures Next(St(n, a, b, now), act) == St(n, a, b', now)
  {
    hide LogTable, StepDevice, Can;
    assert St(n, a, b, now).devs["B" := b'] == map["A" := a, "B" := b'];
    QuietNext(St(n, a, b, now), act, b', St(n, a, b', now));
  }

  lemma PutTask(m: map<int, Task>, i: int, k: Task)
    requires m.Keys <= {i}
    ensures m[i := k] == map[i := k]
  {
  }

  lemma StatusIs(n: nat, a: Device, b: Device, now: real, v: Device, d: string, i: int, version: nat)
    requires |Hist(n)| == version + 1 && v.tasks.Keys <= {i}
    ensures StepDevice(St(n, a, b, now), v, ReadStatus(d, i)) == v.(tasks := map[i := StatusRead(version, now)])
  {
    StatusStep(St(n, a, b, now), v, d, i);
    PutTask(v.tasks, i, StatusRead(version, now));
    hide LogTable, StepDevice;
  }

  lemma StatusStep(s: State, v: Device, d: string, i: int)
    requires s.hist != []
    ensures StepDevice(s, v, ReadStatus(d, i)) == v.(tasks := v.tasks[i := StatusRead(|s.hist| - 1, s.now)])
  {
  }

  lemma HistLength()
    ensures |Hist(2)| == 3
  {
  }

  lemma BlobStep(s: State, v: Device, d: string, i: int)
    requires s.hist != [] && TaskOf(v, i).StatusRead?
    ensures StepDevice(s, v, ReadBlob(d, i)) == v.(tasks := v.tasks[i := BlobRead(TaskOf(v, i).v, |s.hist| - 1, TaskOf(v, i).at)])
  {
  }

  lemma BlobIs(n: nat, a: Device, b: Device, now: real, v: Device, d: string, i: int, version: nat)
    requires |Hist(n)| == version + 1 && v.tasks.Keys <= {i} && TaskOf(v, i).StatusRead?
    ensures StepDevice(St(n, a, b, now), v, ReadBlob(d, i)) == v.(tasks := map[i := BlobRead(TaskOf(v, i).v, version, TaskOf(v, i).at)])
  {
    BlobStep(St(n, a, b, now), v, d, i);
    PutTask(v.tasks, i, BlobRead(TaskOf(v, i).v, version, TaskOf(v, i).at));
    hide LogTable, StepDevice;
  }

  lemma UpToDateIs(n: nat, a: Device, b: Device, now: real, v: Device, d: string, i: int)
    requires TaskOf(v, i).StatusRead?
    ensures StepDevice(St(n, a, b, now), v, UpToDate(d, i)) == v.(tasks := v.tasks[i := Idle], syncedAt := Later(v.syncedAt, TaskOf(v, i).at))
  {
    hide LogTable;
  }

  lemma Untimed(s: State, a: Action)
    requires a.Ack? || a.ReadStatus? || a.ReadBlob? || a.UpToDate?
    ensures Punctual(GRAVE, s, a)
  {
  }

  /* The steps before the deletion is accepted. */

  lemma E0Step()
    ensures Next(Start(NEW_DEVICE, NEW_DEVICE), Write("A", "p", KEY_A, 1)) == St(0, A1, NEW_DEVICE, 0.0)
  {
    NextShape(Start(NEW_DEVICE, NEW_DEVICE), Write("A", "p", KEY_A, 1));
    assert StepDevice(Start(NEW_DEVICE, NEW_DEVICE), NEW_DEVICE, Write("A", "p", KEY_A, 1)) == A1;
  }

  lemma E1Step()
    ensures Next(St(0, A1, NEW_DEVICE, 0.0), ForceSend("A")) == St(0, E1, NEW_DEVICE, 0.0)
  {
    MoveA(0, A1, E1, NEW_DEVICE, 0.0, ForceSend("A"));
  }

  lemma E2Step()
    ensures Next(St(0, E1, NEW_DEVICE, 0.0), Accept("A")) == St(1, E2, NEW_DEVICE, 0.0)
  {
    hide LogTable, ContentOf;
    var s := St(0, E1, NEW_DEVICE, 0.0);
    assert s.hist + [LIVE] == [map[], LIVE];
    assert s.devs["A" := E2] == map["A" := E2, "B" := NEW_DEVICE];
    AcceptNext(s, "A", E2, St(1, E2, NEW_DEVICE, 0.0));
  }

  lemma E3Step()
    ensures Next(St(1, E2, NEW_DEVICE, 0.0), Ack("A")) == St(1, E3, NEW_DEVICE, 0.0)
  {
    PendingIs(LIVE);
    AckIs([map[], LIVE], E2, 1, LIVE_SYNCED, BASE1);
    hide AckDevice, PendingPaths, LogTable;
    MoveA(1, E2, E3, NEW_DEVICE, 0.0, Ack("A"));
  }

  /** A reply about the only path. */
  lemma AckIs(hist: seq<Table>, v: Device, n: nat, rows: Table, bases: map<string, int>)
    requires v.slot.Accepted? && v.slot.version == n < |hist| && v.seen <= n && v.local.rows.Keys == {"p"} && v.bases.Keys == {"p"}
    requires hist[n].Keys == {"p"} && bases == map["p" := hist[n]["p"].version]
    requires rows == map["p" := v.local.rows["p"].(status := Synced)]
    requires "p" in (if v.slot.force then PendingPaths(v.local.rows) else v.slot.paths)
    ensures AckDevice(hist, v) == v.(local := v.local.(rows := rows), slot := Free, last := n, bases := bases, seen := n)
  {
    hide PendingPaths;
    var sent := hist[n];
    assert v.bases + (map p | p in sent :: sent[p].version) == bases;
    assert MarkSynced(v.local.rows, if v.slot.force then PendingPaths(v.local.rows) else v.slot.paths) == rows;
  }

  lemma F1Step()
    ensures Next(St(1, E3, NEW_DEVICE, 0.0), ReadInitial("B", 0)) == St(1, E3, F1, 0.0)
  {
    hide LogTable;
    MoveB(1, E3, NEW_DEVICE, F1, 0.0, ReadInitial("B", 0));
  }

  /** The only record of a table merged. */
  lemma MergeOnly(l: Local, h: Table)
    requires h.Keys == {"p"}
    ensures MergeRows(l, h, ["p"], NO_NAMES) == MergeOne(l, "p", h["p"], "p") && Enumerates(["p"], h)
  {
    assert ["p"][..0] == [] && ["p"][0] == "p";
    MergeRowsLast(l, h, ["p"], NO_NAMES);
  }

  lemma FirstMerge()
    ensures MergeDevice([map[], LIVE], F1, 0, ["p"], NO_NAMES) == F2
  {
    MergeOnly(F1.local, LIVE);
    assert MergeOne(F1.local, "p", LIVE["p"], "p") == F2.local;
    assert F1.tasks[0 := Idle] == F2.tasks;
    assert BasesAfterMerge(map[], LIVE_SYNCED, LIVE, map[]) == BASE1;
    hide MergeRows, MergeOne, BasesAfterMerge;
  }

  lemma F2Step()
    ensures Next(St(1, E3, F1, 0.0), MergeBlob("B", 0, ["p"], NO_NAMES)) == St(1, E3, F2, 0.0)
  {
    MergeOnly(F1.local, LIVE);
    FirstMerge();
    hide MergeDevice, Enumerates, MergeRows, LogTable;
    MoveB(1, E3, F1, F2, 0.0, MergeBlob("B", 0, ["p"], NO_NAMES));
  }

  lemma E4Step()
    ensures Next(St(1, E3, F2, 0.0), Remove("A", "p")) == St(1, E4, F2, 0.0)
  {
    assert RemoveLocal(E3.local, "A", "p", 0.0) == E4.local;
    assert E3.bases["p" := BaseOf(E3.bases, "p")] == E4.bases;
    hide RemoveLocal, LogTable;
    MoveA(1, E3, E4, F2, 0.0, Remove("A", "p"));
  }

  lemma E5Step()
    ensures Next(St(1, E4, F2, 0.0), Snapshot("A")) == St(1, E5, F2, 0.0)
  {
    PendingIs(TOMB);
    hide PendingPaths, LogTable;
    MoveA(1, E4, E5, F2, 0.0, Snapshot("A"));
  }

  lemma E6Step()
    ensures Next(St(1, E5, F2, 0.0), Send("A")) == St(1, E6, F2, 0.0)
  {
    hide LogTable;
    MoveA(1, E5, E6, F2, 0.0, Send("A"));
  }

  lemma E7Step()
    ensures Next(St(1, E6, F2, 0.0), Accept("A")) == St(2, E7, F2, 0.0)
  {
    hide LogTable, ContentOf;
    var s := St(1, E6, F2, 0.0);
    assert s.hist + [TOMB] == [map[], LIVE, TOMB];
    assert s.devs["A" := E7] == map["A" := E7, "B" := F2];
    AcceptNext(s, "A", E7, St(2, E7, F2, 0.0));
  }

  /** The state that the retention bound starts from is reached. */
  lemma Deletion() returns (run: seq<Action>)
    ensures After(Start(NEW_DEVICE, NEW_DEVICE), run) == St(2, E7, F2, 0.0)
  {
    var s := Start(NEW_DEVICE, NEW_DEVICE);
    run := [];
    assert After(s, run) == s;
    hide After, Next, St;
    E0Step();
    AfterSnoc(s, run, Write("A", "p", KEY_A, 1));
    run := run + [Write("A", "p", KEY_A, 1)];
    E1Step();
    AfterSnoc(s, run, ForceSend("A"));
    run := run + [ForceSend("A")];
    E2Step();
    AfterSnoc(s, run, Accept("A"));
    run := run + [Accept("A")];
    E3Step();
    AfterSnoc(s, run, Ack("A"));
    run := run + [Ack("A")];
    F1Step();
    AfterSnoc(s, run, ReadInitial("B", 0));
    run := run + [ReadInitial("B", 0)];
    F2Step();
    AfterSnoc(s, run, MergeBlob("B", 0, ["p"], NO_NAMES));
    run := run + [MergeBlob("B", 0, ["p"], NO_NAMES)];
    E4Step();
    AfterSnoc(s, run, Remove("A", "p"));
    run := run + [Remove("A", "p")];
    E5Step();
    AfterSnoc(s, run, Snapshot("A"));
    run := run + [Snapshot("A")];
    E6Step();
    AfterSnoc(s, run, Send("A"));
    run := run + [Send("A")];
    E7Step();
    AfterSnoc(s, run, Accept("A"));
    run := run + [Accept("A")];
  }

  lemma DeletedNow()
    ensures JustDeleted(GRAVE, St(2, E7, F2, 0.0))
  {
    hide LogTable;
  }

  /* The steps after it. */

  lemma E8Step()
    ensures Next(St(2, E7, F2, 0.0), Ack("A")) == St(2, E8, F2, 0.0) && Punctual(GRAVE, St(2, E7, F2, 0.0), Ack("A"))
  {
    Untimed(St(2, E7, F2, 0.0), Ack("A"));
    hide Punctual;
    AckIs([map[], LIVE, TOMB], E7, 2, TOMB_SYNCED, BASE2);
    hide AckDevice, LogTable;
    MoveA(2, E7, E8, F2, 0.0, Ack("A"));
  }

  lemma TickStep()
    ensures Next(St(2, E8, F2, 0.0), Tick(2.0)) == St(2, E8, F2, 2.0) && Punctual(GRAVE, St(2, E8, F2, 0.0), Tick(2.0))
  {
    hide LogTable;
  }

  lemma F3Is()
    ensures StepDevice(St(2, E8, F2, 2.0), F2, ReadStatus("B", 0)) == F3
  {
    HistLength();
    hide St, StepDevice, Hist;
    StatusIs(2, E8, F2, 2.0, F2, "B", 0, 2);
  }

  lemma F3Step()
    ensures Next(St(2, E8, F2, 2.0), ReadStatus("B", 0)) == St(2, E8, F3, 2.0) && Punctual(GRAVE, St(2, E8, F2, 2.0), ReadStatus("B", 0))
  {
    Untimed(St(2, E8, F2, 2.0), ReadStatus("B", 0));
    F3Is();
    hide Punctual, St, StepDevice, Hist;
    MoveB(2, E8, F2, F3, 2.0, ReadStatus("B", 0));
  }

  lemma F4Is()
    ensures StepDevice(St(2, E8, F3, 2.0), F3, ReadBlob("B", 0)) == F4
  {
    HistLength();
    hide St, StepDevice, Hist;
    BlobIs(2, E8, F3, 2.0, F3, "B", 0, 2);
  }

  lemma F4Step()
    ensures Next(St(2, E8, F3, 2.0), ReadBlob("B", 0)) == St(2, E8, F4, 2.0) && Punctual(GRAVE, St(2, E8, F3, 2.0), ReadBlob("B", 0))
  {
    Untimed(St(2, E8, F3, 2.0), ReadBlob("B", 0));
    F4Is();
    hide Punctual, St, StepDevice, Hist;
    MoveB(2, E8, F3, F4, 2.0, ReadBlob("B", 0));
  }

  lemma SecondMerge()
    ensures MergeDevice([map[], LIVE, TOMB], F4, 0, ["p"], NO_NAMES) == F5
  {
    MergeOnly(F4.local, TOMB);
    assert MergeOne(F4.local, "p", TOMB["p"], "p") == F5.local;
    assert F4.tasks[0 := Idle] == F5.tasks;
    assert BasesAfterMerge(LIVE_SYNCED, TOMB_SYNCED, TOMB, BASE1) == BASE2;
    hide MergeRows, MergeOne, BasesAfterMerge;
  }

  lemma F5Step()
    ensures Next(St(2, E8, F4, 2.0), MergeBlob("B", 0, ["p"], NO_NAMES)) == St(2, E8, F5, 2.0)
    ensures Punctual(GRAVE, St(2, E8, F4, 2.0), MergeBlob("B", 0, ["p"], NO_NAMES))
  {
    MergeOnly(F4.local, TOMB);
    SecondMerge();
    hide MergeDevice, Enumerates, MergeRows, LogTable;
    MoveB(2, E8, F4, F5, 2.0, MergeBlob("B", 0, ["p"], NO_NAMES));
  }

  lemma E9Is()
    ensures StepDevice(St(2, E8, F5, 2.0), E8, ReadStatus("A", 1)) == E9
  {
    HistLength();
    hide St, StepDevice, Hist;
    StatusIs(2, E8, F5, 2.0, E8, "A", 1, 2);
  }

  lemma E9Step()
    ensures Next(St(2, E8, F5, 2.0), ReadStatus("A", 1)) == St(2, E9, F5, 2.0) && Punctual(GRAVE, St(2, E8, F5, 2.0), ReadStatus("A", 1))
  {
    Untimed(St(2, E8, F5, 2.0), ReadStatus("A", 1));
    E9Is();
    hide Punctual, St, StepDevice, Hist;
    MoveA(2, E8, E9, F5, 2.0, ReadStatus("A", 1));
  }

  lemma E10Step()
    ensures Next(St(2, E9, F5, 2.0), UpToDate("A", 1)) == St(2, E10, F5, 2.0) && Punctual(GRAVE, St(2, E9, F5, 2.0), UpToDate("A", 1))
  {
    Untimed(St(2, E9, F5, 2.0), UpToDate("A", 1));
    UpToDateIs(2, E9, F5, 2.0, E9, "A", 1);
    PutTask(E9.tasks, 1, Idle);
    hide Punctual, St, StepDevice;
    MoveA(2, E9, E10, F5, 2.0, UpToDate("A", 1));
  }

  lemma LastTick()
    ensures Next(St(2, E10, F5, 2.0), Tick(4.0)) == St(2, E10, F5, 4.0) && Punctual(GRAVE, St(2, E10, F5, 2.0), Tick(4.0))
  {
    hide LogTable;
  }

  ghost predicate Reached(s: State, run: seq<Action>, t: State) {
    After(s, run) == t && PunctualRun(GRAVE, s, run)
  }

  lemma PunctualStep(s: State, run: seq<Action>, t: State, a: Action, t': State)
    requires Reached(s, run, t) && Punctual(GRAVE, t, a) && Next(t, a) == t'
    ensures Reached(s, run + [a], t')
  {
    hide Next, Punctual;
    assert (run + [a])[..|run|] == run;
  }

  lemma Afterwards() returns (run: seq<Action>)
    ensures Reached(St(2, E7, F2, 0.0), run, St(2, E10, F5, 4.0))
  {
    var s := St(2, E7, F2, 0.0);
    run := [];
    assert Reached(s, run, s);
    hide Reached, Next, St, Punctual;
    E8Step();
    PunctualStep(s, run, s, Ack("A"), St(2, E8, F2, 0.0));
    run := run + [Ack("A")];
    TickStep();
    PunctualStep(s, run, St(2, E8, F2, 0.0), Tick(2.0), St(2, E8, F2, 2.0));
    run := run + [Tick(2.0)];
    F3Step();
    PunctualStep(s, run, St(2, E8, F2, 2.0), ReadStatus("B", 0), St(2, E8, F3, 2.0));
    run := run + [ReadStatus("B", 0)];
    F4Step();
    PunctualStep(s, run, St(2, E8, F3, 2.0), ReadBlob("B", 0), St(2, E8, F4, 2.0));
    run := run + [ReadBlob("B", 0)];
    F5Step();
    PunctualStep(s, run, St(2, E8, F4, 2.0), MergeBlob("B", 0, ["p"], NO_NAMES), St(2, E8, F5, 2.0));
    run := run + [MergeBlob("B", 0, ["p"], NO_NAMES)];
    E9Step();
    PunctualStep(s, run, St(2, E8, F5, 2.0), ReadStatus("A", 1), St(2, E9, F5, 2.0));
    run := run + [ReadStatus("A", 1)];
    E10Step();
    PunctualStep(s, run, St(2, E9, F5, 2.0), UpToDate("A", 1), St(2, E10, F5, 2.0));
    run := run + [UpToDate("A", 1)];
    LastTick();
    PunctualStep(s, run, St(2, E10, F5, 2.0), Tick(4.0), St(2, E10, F5, 4.0));
    run := run + [Tick(4.0)];
  }

  /** A run like those of the retention bound, with a live copy of the deleted file
      on another device at the start, and past the retention time at the end. */
  ghost predicate Outlives(g: Grave, s: State, before: seq<Action>, run: seq<Action>, d: string) {
    && Init(s) && JustDeleted(g, After(s, before)) && PunctualRun(g, After(s, before), run)
    && d in After(s, before).devs && Live(After(s, before).devs[d].local.rows, g.path)
    && After(After(s, before), run).now > g.deletedAt + g.retention
  }

  lemma DeletionsAreOutlived()
    ensures exists g: Grave, s: State, before: seq<Action>, run: seq<Action>, d: string :: Outlives(g, s, before, run, d)
  {
    var before := Deletion();
    var run := Afterwards();
    DeletedNow();
    var s := Start(NEW_DEVICE, NEW_DEVICE);
    hide After, LogTable, PunctualRun, JustDeleted;
    assert Outlives(GRAVE, s, before, run, "B");
  }
}
