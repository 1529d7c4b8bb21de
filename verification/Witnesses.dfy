/** A run in which every device edits a path once between merges, keeps every
    other guard, and an update is lost all the same. */
module Witnesses {
  import opened Rows
  import opened Merge
  import opened Protocol
  import opened CleanRuns

  predicate EditsPath(a: Action, d: string, p: string) {
    (a.Write? || a.Remove?) && a.d == d && a.p == p
  }

  /** The device edited the path, and has not merged since. */
  ghost predicate EditedSinceMerge(before: seq<Action>, d: string, p: string) {
    exists k :: 0 <= k < |before| && EditsPath(before[k], d, p)
      && forall j | k < j < |before| :: !(before[j].MergeBlob? && before[j].d == d)
  }

  /** What a clean run asks of a step, except that a path may be edited once
      between two merges, whether its row was uploaded or not. */
  ghost predicate OnceCareful(s: State, v: Device, a: Action, before: seq<Action>)
    requires s.hist != []
  {
    match a
    case Write(d, p, key, size) =>
      !EditedSinceMerge(before, d, p) && SlotLets(v.slot, p) && key !in s.keys && (p !in v.local.rows ==> p !in s.names)
    case Remove(d, p) => !EditedSinceMerge(before, d, p) && SlotLets(v.slot, p)
    case _ => Careful(s, v, a)
  }

  ghost predicate Once(s: State, a: Action, before: seq<Action>) {
    Enabled(s, a) && !a.Tick? ==> OnceCareful(s, s.devs[a.d], a, before)
  }

  ghost predicate OnceRun(s: State, run: seq<Action>) {
    run == [] ||
    (OnceRun(s, run[..|run| - 1]) && Once(After(s, run[..|run| - 1]), run[|run| - 1], run[..|run| - 1]))
  }

  lemma EditedSnoc(before: seq<Action>, a: Action, d: string, p: string)
    ensures EditedSinceMerge(before + [a], d, p) <==>
      EditsPath(a, d, p) || (!(a.MergeBlob? && a.d == d) && EditedSinceMerge(before, d, p))
  {
    var all := before + [a];
    if EditsPath(a, d, p) {
      assert EditsPath(all[|before|], d, p);
    } else if EditedSinceMerge(before, d, p) && !(a.MergeBlob? && a.d == d) {
      var k :| 0 <= k < |before| && EditsPath(before[k], d, p)
        && forall j | k < j < |before| :: !(before[j].MergeBlob? && before[j].d == d);
      assert EditsPath(all[k], d, p);
      assert forall j | k < j < |all| :: !(all[j].MergeBlob? && all[j].d == d);
    }
    if k :| 0 <= k < |all| && EditsPath(all[k], d, p) && forall j | k < j < |all| :: !(all[j].MergeBlob? && all[j].d == d) {
      assert all[|before|] == a;
      if k < |before| {
        assert EditsPath(before[k], d, p);
        forall j | k < j < |before| ensures !(before[j].MergeBlob? && before[j].d == d) { assert all[j] == before[j]; }
      }
    }
  }

  /** Where a run got to, and whether A and B may edit the path. */
  ghost predicate At(s: State, run: seq<Action>, t: State, editedA: bool, editedB: bool) {
    && After(s, run) == t && OnceRun(s, run)
    && (EditedSinceMerge(run, "A", "p") <==> editedA) && (EditedSinceMerge(run, "B", "p") <==> editedB)
  }

  predicate Edited(a: Action, d: string, before: bool) {
    EditsPath(a, d, "p") || (!(a.MergeBlob? && a.d == d) && before)
  }

  lemma Step(s: State, run: seq<Action>, t: State, editedA: bool, editedB: bool, a: Action, t': State)
    requires At(s, run, t, editedA, editedB) && Once(t, a, run) && Next(t, a) == t'
    ensures At(s, run + [a], t', Edited(a, "A", editedA), Edited(a, "B", editedB))
  {
    hide Next, Once, EditedSinceMerge;
    assert (run + [a])[..|run|] == run;
    EditedSnoc(run, a, "A", "p");
    EditedSnoc(run, a, "B", "p");
  }

  const KEY_A: Key := ("a", "x")
  const KEY_A2: Key := ("a", "z")
  const KEY_B: Key := ("b", "y")

  function RowOf(key: Key, owner: string, version: int): Row {
    Row(key.0, key.1, 1, 0.0, 0.0, version, Some(owner), Pending, false)
  }

  const TABLE_B: Table := map["p" := RowOf(KEY_B, "B", 1)]
  const TABLE_A: Table := map["p" := RowOf(KEY_A, "A", 2)]
  const BASES: map<string, int> := map["p" := 0]

  const A1 := NEW_DEVICE.(local := Local(map["p" := RowOf(KEY_A, "A", 1)], {KEY_A}), bases := BASES)
  const A2 := A1.(tasks := map[0 := BlobRead(0, 1, 0.0)])
  const A3 := A1.(tasks := map[0 := Idle], seen := 1)
  const A4 := A3.(local := Local(TABLE_A, {KEY_A}))
  const A5 := A4.(tasks := map[0 := StatusRead(2, 0.0)])
  const A6 := A4.(tasks := map[0 := BlobRead(2, 2, 0.0)])
  const A7 := A4.(last := 2, seen := 2)
  const A8 := A7.(slot := Snapped({"p"}))
  const A9 := A7.(slot := Sent({"p"}, false, 2, TABLE_A, BASES, 2))
  const B1 := NEW_DEVICE.(slot := Sent({}, true, 0, map[], map[], 0))
  const B2 := NEW_DEVICE.(slot := Accepted({}, true, 1))
  const B3 := NEW_DEVICE.(last := 1, seen := 1)
  const B4 := B3.(local := Local(TABLE_B, {KEY_B}), bases := BASES)
  const B5 := B4.(slot := Snapped({"p"}))
  const B6 := B4.(slot := Sent({"p"}, false, 1, TABLE_B, BASES, 1))
  const B7 := B4.(slot := Accepted({"p"}, false, 2))

  const KEYS1: map<Key, string> := map[KEY_A := "A"]
  const KEYS2: map<Key, string> := map[KEY_A := "A", KEY_A2 := "A"]
  const KEYS3: map<Key, string> := map[KEY_A := "A", KEY_A2 := "A", KEY_B := "B"]
  const LOG1: map<(string, int), Content> := map[("p", 1) := ContentOf(RowOf(KEY_B, "B", 1))]
  const HIST0: seq<Table> := [map[]]
  const HIST1: seq<Table> := [map[], map[]]
  const HIST2: seq<Table> := [map[], map[], TABLE_B]

  /** Devices A and B: at the start, with the server's first table, with B's row. */
  function Start(a: Device, b: Device): State {
    State(HIST0, map[], map["A" := a, "B" := b], {}, map[], 0.0)
  }

  function Early(a: Device, b: Device, keys: map<Key, string>): State {
    State(HIST1, map[], map["A" := a, "B" := b], {}, keys, 0.0)
  }

  function Late(a: Device, b: Device): State {
    State(HIST2, LOG1, map["A" := a, "B" := b], {}, KEYS3, 0.0)
  }

  /** One step in terms of the device that takes it. */
  lemma QuietNext(s: State, a: Action, v': Device, t: State)
    requires Enabled(s, a) && !a.Tick? && !a.Accept? && !a.Write?
    requires StepDevice(s, s.devs[a.d], a) == v'
    requires t == s.(devs := s.devs[a.d := v'], names := if a.MergeBlob? then s.names + a.nm.originOf.Keys else s.names)
    ensures Next(s, a) == t
  {
    hide StepDevice, Can;
  }

  lemma AcceptNext(s: State, d: string, v': Device, t: State)
    requires Enabled(s, Accept(d)) && d in s.devs && s.devs[d].slot.Sent?
    requires StepDevice(s, s.devs[d], Accept(d)) == v'
    requires t == s.(devs := s.devs[d := v'], hist := s.hist + [s.devs[d].slot.table], log := LogTable(s.log, s.devs[d].slot.table))
    ensures Next(s, Accept(d)) == t
  {
    hide StepDevice, Can, LogTable;
  }

  lemma LogIs()
    ensures LogTable(map[], TABLE_B) == LOG1 && LogTable(map[], map[]) == map[]
  {
    var l := map p | p in TABLE_B :: (p, TABLE_B[p].version) := ContentOf(TABLE_B[p]);
    assert "p" in TABLE_B && ("p", 1) in l;
    assert l.Keys == {("p", 1)};
    assert l == LOG1;
    assert l + map[] == l;
  }

  /* The steps. */

  lemma B1Step(run: seq<Action>)
    ensures Next(Start(NEW_DEVICE, NEW_DEVICE), ForceSend("B")) == Start(NEW_DEVICE, B1)
    ensures Once(Start(NEW_DEVICE, NEW_DEVICE), ForceSend("B"), run)
  {
    QuietNext(Start(NEW_DEVICE, NEW_DEVICE), ForceSend("B"), B1, Start(NEW_DEVICE, B1));
  }

  lemma B2Step(run: seq<Action>)
    ensures Next(Start(NEW_DEVICE, B1), Accept("B")) == Early(NEW_DEVICE, B2, map[])
    ensures Once(Start(NEW_DEVICE, B1), Accept("B"), run)
  {
    hide LogTable, ContentOf;
    LogIs();
    var s := Start(NEW_DEVICE, B1);
    assert s.hist + [map[]] == HIST1;
    assert s.devs["B" := B2] == map["A" := NEW_DEVICE, "B" := B2];
    AcceptNext(s, "B", B2, Early(NEW_DEVICE, B2, map[]));
  }

  lemma B3Step(run: seq<Action>)
    ensures Next(Early(NEW_DEVICE, B2, map[]), Ack("B")) == Early(NEW_DEVICE, B3, map[])
    ensures Once(Early(NEW_DEVICE, B2, map[]), Ack("B"), run)
  {
    assert AckDevice(HIST1, B2) == B3 by { AckNothing(); }
    hide AckDevice;
    QuietNext(Early(NEW_DEVICE, B2, map[]), Ack("B"), B3, Early(NEW_DEVICE, B3, map[]));
  }

  lemma AckNothing()
    ensures AckDevice(HIST1, B2) == B3
  {
    assert MarkSynced(map[], PendingPaths(map[])) == map[];
    assert AckDevice(HIST1, B2).bases.Keys == {};
  }

  lemma A1Step(run: seq<Action>)
    requires !EditedSinceMerge(run, "A", "p")
    ensures Next(Early(NEW_DEVICE, B3, map[]), Write("A", "p", KEY_A, 1)) == Early(A1, B3, KEYS1)
    ensures Once(Early(NEW_DEVICE, B3, map[]), Write("A", "p", KEY_A, 1), run)
  {
    NextShape(Early(NEW_DEVICE, B3, map[]), Write("A", "p", KEY_A, 1));
    assert StepDevice(Early(NEW_DEVICE, B3, map[]), NEW_DEVICE, Write("A", "p", KEY_A, 1)) == A1;
  }

  lemma A2Step(run: seq<Action>)
    ensures Next(Early(A1, B3, KEYS1), ReadInitial("A", 0)) == Early(A2, B3, KEYS1)
    ensures Once(Early(A1, B3, KEYS1), ReadInitial("A", 0), run)
  {
    QuietNext(Early(A1, B3, KEYS1), ReadInitial("A", 0), A2, Early(A2, B3, KEYS1));
  }

  lemma MergeNothing()
    ensures MergeDevice(HIST1, A2, 0, [], NO_NAMES) == A3
  {
    assert A2.tasks[0 := Idle] == A3.tasks;
    assert BasesAfterMerge(A2.local.rows, A2.local.rows, map[], A2.bases) == A3.bases;
    hide BasesAfterMerge;
  }

  lemma NothingNew(t: Table)
    ensures FreshNames(t, map[], NO_NAMES) && KnownTombstones(t, map[]) && Enumerates([], map[])
  {
    assert forall p :: !Conflicts(t, map[], p);
  }

  lemma A3Step(run: seq<Action>)
    ensures Next(Early(A2, B3, KEYS1), MergeBlob("A", 0, [], NO_NAMES)) == Early(A3, B3, KEYS1)
    ensures Once(Early(A2, B3, KEYS1), MergeBlob("A", 0, [], NO_NAMES), run)
  {
    var s := Early(A2, B3, KEYS1);
    MergeNothing();
    NothingNew(A2.local.rows);
    assert s.hist[1] == map[];
    hide MergeDevice, Enumerates, MergeRows, FreshNames, KnownTombstones;
    QuietNext(s, MergeBlob("A", 0, [], NO_NAMES), A3, Early(A3, B3, KEYS1));
  }

  lemma A4Step(run: seq<Action>)
    requires !EditedSinceMerge(run, "A", "p")
    ensures Next(Early(A3, B3, KEYS1), Write("A", "p", KEY_A2, 1)) == Early(A4, B3, KEYS2)
    ensures Once(Early(A3, B3, KEYS1), Write("A", "p", KEY_A2, 1), run)
  {
    NextShape(Early(A3, B3, KEYS1), Write("A", "p", KEY_A2, 1));
    assert StepDevice(Early(A3, B3, KEYS1), A3, Write("A", "p", KEY_A2, 1)) == A4;
  }

  lemma B4Step(run: seq<Action>)
    requires !EditedSinceMerge(run, "B", "p")
    ensures Next(Early(A4, B3, KEYS2), Write("B", "p", KEY_B, 1)) == Early(A4, B4, KEYS3)
    ensures Once(Early(A4, B3, KEYS2), Write("B", "p", KEY_B, 1), run)
  {
    NextShape(Early(A4, B3, KEYS2), Write("B", "p", KEY_B, 1));
    assert StepDevice(Early(A4, B3, KEYS2), B3, Write("B", "p", KEY_B, 1)) == B4;
  }

  lemma PendingIs(t: Table)
    requires t.Keys == {"p"} && t["p"].status == Pending
    ensures PendingPaths(t) == {"p"}
  {
    assert "p" in t;
  }

  lemma B5Step(run: seq<Action>)
    ensures Next(Early(A4, B4, KEYS3), Snapshot("B")) == Early(A4, B5, KEYS3)
    ensures Once(Early(A4, B4, KEYS3), Snapshot("B"), run)
  {
    PendingIs(TABLE_B);
    hide PendingPaths;
    QuietNext(Early(A4, B4, KEYS3), Snapshot("B"), B5, Early(A4, B5, KEYS3));
  }

  lemma B6Step(run: seq<Action>)
    ensures Next(Early(A4, B5, KEYS3), Send("B")) == Early(A4, B6, KEYS3)
    ensures Once(Early(A4, B5, KEYS3), Send("B"), run)
  {
    QuietNext(Early(A4, B5, KEYS3), Send("B"), B6, Early(A4, B6, KEYS3));
  }

  lemma B7Step(run: seq<Action>)
    ensures Next(Early(A4, B6, KEYS3), Accept("B")) == Late(A4, B7)
    ensures Once(Early(A4, B6, KEYS3), Accept("B"), run)
  {
    hide LogTable, ContentOf;
    LogIs();
    var s := Early(A4, B6, KEYS3);
    assert s.hist + [TABLE_B] == HIST2;
    assert s.devs["B" := B7] == map["A" := A4, "B" := B7];
    AcceptNext(s, "B", B7, Late(A4, B7));
  }

  lemma A5Step(run: seq<Action>)
    ensures Next(Late(A4, B7), ReadStatus("A", 0)) == Late(A5, B7)
    ensures Once(Late(A4, B7), ReadStatus("A", 0), run)
  {
    assert A4.tasks[0 := StatusRead(2, 0.0)] == A5.tasks;
    QuietNext(Late(A4, B7), ReadStatus("A", 0), A5, Late(A5, B7));
  }

  lemma A6Step(run: seq<Action>)
    ensures Next(Late(A5, B7), ReadBlob("A", 0)) == Late(A6, B7)
    ensures Once(Late(A5, B7), ReadBlob("A", 0), run)
  {
    assert A5.tasks[0 := BlobRead(2, 2, 0.0)] == A6.tasks;
    QuietNext(Late(A5, B7), ReadBlob("A", 0), A6, Late(A6, B7));
  }

  /** A's second edit hides the fact that it never saw B's row. */
  lemma MergeKeeps()
    ensures MergeRows(A6.local, TABLE_B, ["p"], NO_NAMES) == A6.local
  {
    assert ["p"][..0] == [];
    assert MergeRows(A6.local, TABLE_B, [], NO_NAMES) == A6.local;
    MergeRowsLast(A6.local, TABLE_B, ["p"], NO_NAMES);
  }

  lemma MergedA()
    ensures MergeDevice(HIST2, A6, 0, ["p"], NO_NAMES) == A7
  {
    assert A6.tasks[0 := Idle] == A7.tasks;
    assert MergeRows(A6.local, TABLE_B, ["p"], NO_NAMES) == A6.local by { MergeKeeps(); }
    assert BasesAfterMerge(TABLE_A, TABLE_A, TABLE_B, BASES) == BASES;
    hide MergeRows;
  }

  lemma NoConflict()
    ensures FreshNames(TABLE_A, TABLE_B, NO_NAMES) && KnownTombstones(TABLE_A, TABLE_B)
    ensures Enumerates(["p"], TABLE_B)
  {
    assert ["p"][0] == "p";
    assert !Conflicts(TABLE_A, TABLE_B, "p");
  }

  lemma A7Step(run: seq<Action>)
    ensures Next(Late(A6, B7), MergeBlob("A", 0, ["p"], NO_NAMES)) == Late(A7, B7)
    ensures Once(Late(A6, B7), MergeBlob("A", 0, ["p"], NO_NAMES), run)
  {
    var s := Late(A6, B7);
    MergedA();
    NoConflict();
    assert s.hist[2] == TABLE_B;
    hide MergeDevice, Enumerates, MergeRows, FreshNames, KnownTombstones;
    QuietNext(s, MergeBlob("A", 0, ["p"], NO_NAMES), A7, Late(A7, B7));
  }

  lemma A8Step(run: seq<Action>)
    ensures Next(Late(A7, B7), Snapshot("A")) == Late(A8, B7)
    ensures Once(Late(A7, B7), Snapshot("A"), run)
  {
    PendingIs(TABLE_A);
    hide PendingPaths;
    QuietNext(Late(A7, B7), Snapshot("A"), A8, Late(A8, B7));
  }

  lemma A9Step(run: seq<Action>)
    ensures Next(Late(A8, B7), Send("A")) == Late(A9, B7)
    ensures Once(Late(A8, B7), Send("A"), run)
  {
    QuietNext(Late(A8, B7), Send("A"), A9, Late(A9, B7));
  }

  /* The run. */

  lemma FirstTable() returns (run: seq<Action>)
    ensures At(Start(NEW_DEVICE, NEW_DEVICE), run, Early(NEW_DEVICE, B3, map[]), false, false)
  {
    hide Next, Once, OnceRun, EditedSinceMerge;
    var s := Start(NEW_DEVICE, NEW_DEVICE);
    run := [];
    assert At(s, run, s, false, false) by { AtStart(); }
    B1Step(run);
    Step(s, run, s, false, false, ForceSend("B"), Start(NEW_DEVICE, B1));
    run := run + [ForceSend("B")];
    B2Step(run);
    Step(s, run, Start(NEW_DEVICE, B1), false, false, Accept("B"), Early(NEW_DEVICE, B2, map[]));
    run := run + [Accept("B")];
    B3Step(run);
    Step(s, run, Early(NEW_DEVICE, B2, map[]), false, false, Ack("B"), Early(NEW_DEVICE, B3, map[]));
    run := run + [Ack("B")];
  }

  lemma AtStart()
    ensures At(Start(NEW_DEVICE, NEW_DEVICE), [], Start(NEW_DEVICE, NEW_DEVICE), false, false)
  {
  }

  lemma TwoEdits() returns (run: seq<Action>)
    ensures At(Start(NEW_DEVICE, NEW_DEVICE), run, Early(A4, B3, KEYS2), true, false)
  {
    hide Next, Once, OnceRun, EditedSinceMerge;
    var s := Start(NEW_DEVICE, NEW_DEVICE);
    run := FirstTable();
    A1Step(run);
    Step(s, run, Early(NEW_DEVICE, B3, map[]), false, false, Write("A", "p", KEY_A, 1), Early(A1, B3, KEYS1));
    run := run + [Write("A", "p", KEY_A, 1)];
    A2Step(run);
    Step(s, run, Early(A1, B3, KEYS1), true, false, ReadInitial("A", 0), Early(A2, B3, KEYS1));
    run := run + [ReadInitial("A", 0)];
    A3Step(run);
    Step(s, run, Early(A2, B3, KEYS1), true, false, MergeBlob("A", 0, [], NO_NAMES), Early(A3, B3, KEYS1));
    run := run + [MergeBlob("A", 0, [], NO_NAMES)];
    A4Step(run);
    Step(s, run, Early(A3, B3, KEYS1), false, false, Write("A", "p", KEY_A2, 1), Early(A4, B3, KEYS2));
    run := run + [Write("A", "p", KEY_A2, 1)];
  }

  lemma OthersRow() returns (run: seq<Action>)
    ensures At(Start(NEW_DEVICE, NEW_DEVICE), run, Late(A4, B7), true, true)
  {
    hide Next, Once, OnceRun, EditedSinceMerge;
    var s := Start(NEW_DEVICE, NEW_DEVICE);
    run := TwoEdits();
    B4Step(run);
    Step(s, run, Early(A4, B3, KEYS2), true, false, Write("B", "p", KEY_B, 1), Early(A4, B4, KEYS3));
    run := run + [Write("B", "p", KEY_B, 1)];
    B5Step(run);
    Step(s, run, Early(A4, B4, KEYS3), true, true, Snapshot("B"), Early(A4, B5, KEYS3));
    run := run + [Snapshot("B")];
    B6Step(run);
    Step(s, run, Early(A4, B5, KEYS3), true, true, Send("B"), Early(A4, B6, KEYS3));
    run := run + [Send("B")];
    B7Step(run);
    Step(s, run, Early(A4, B6, KEYS3), true, true, Accept("B"), Late(A4, B7));
    run := run + [Accept("B")];
  }

  lemma LostUpdate() returns (run: seq<Action>)
    ensures At(Start(NEW_DEVICE, NEW_DEVICE), run, Late(A9, B7), false, true)
  {
    hide Next, Once, OnceRun, EditedSinceMerge;
    var s := Start(NEW_DEVICE, NEW_DEVICE);
    run := OthersRow();
    A5Step(run);
    Step(s, run, Late(A4, B7), true, true, ReadStatus("A", 0), Late(A5, B7));
    run := run + [ReadStatus("A", 0)];
    A6Step(run);
    Step(s, run, Late(A5, B7), true, true, ReadBlob("A", 0), Late(A6, B7));
    run := run + [ReadBlob("A", 0)];
    A7Step(run);
    Step(s, run, Late(A6, B7), true, true, MergeBlob("A", 0, ["p"], NO_NAMES), Late(A7, B7));
    run := run + [MergeBlob("A", 0, ["p"], NO_NAMES)];
    A8Step(run);
    Step(s, run, Late(A7, B7), false, true, Snapshot("A"), Late(A8, B7));
    run := run + [Snapshot("A")];
    A9Step(run);
    Step(s, run, Late(A8, B7), false, true, Send("A"), Late(A9, B7));
    run := run + [Send("A")];
  }

  /** A run with one edit of the path between any two merges of a device, all
      other guards kept, whose next step, a careful one, replaces a row by one
      that was not edited from it. */
  ghost predicate LosesUpdate(s: State, run: seq<Action>, d: string) {
    && Init(s) && OnceRun(s, run + [Accept(d)])
    && var t := After(s, run);
       && t.hist != [] && Enabled(t, Accept(d)) && d in t.devs && t.devs[d].slot.Sent?
       && !FastForward(Current(t.hist), t.devs[d].slot.table, t.devs[d].slot.bases)
  }

  lemma OnceBetweenMergesIsNotEnough()
    ensures exists s: State, run: seq<Action>, d: string :: LosesUpdate(s, run, d)
  {
    var s := Start(NEW_DEVICE, NEW_DEVICE);
    var run := LostUpdate();
    var t := Late(A9, B7);
    LastStep(run);
    assert (run + [Accept("A")])[..|run|] == run;
    hide After, Next, Once;
    assert OnceRun(s, run + [Accept("A")]);
    hide OnceRun;
    assert LosesUpdate(s, run, "A");
  }

  lemma LastStep(run: seq<Action>)
    ensures var t := Late(A9, B7);
      && Once(t, Accept("A"), run) && Enabled(t, Accept("A"))
      && !FastForward(Current(t.hist), t.devs["A"].slot.table, t.devs["A"].slot.bases)
  {
    assert ContentOf(TABLE_A["p"]) != ContentOf(TABLE_B["p"]);
    assert BaseOf(BASES, "p") != TABLE_B["p"].version;
  }

  lemma AfterSnoc(s: State, run: seq<Action>, a: Action)
    ensures After(s, run + [a]) == Next(After(s, run), a)
  {
    assert (run + [a])[..|run|] == run;
  }
}
