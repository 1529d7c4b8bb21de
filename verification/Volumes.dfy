/** What the files of a device add up to: a map from virtual path to plaintext,
    and how each operation of the storage manager changes it. */
module Volumes {
  import opened Rows
  import opened Crypto
  import opened Paths
  import Sources

  type Disk = map<Key, Bytes>

  predicate MineAt(t: Table, p: string, device: Option<string>) {
    Live(t, p) && OwnedBy(t[p], device)
  }

  /** What a physical file holds; without an encryption engine, the data itself. */
  function Unseal(log: SealLog, encrypts: bool, blob: Bytes): Option<Bytes> {
    if !encrypts then Some(blob)
    else
      match Decrypt(log, blob)
      case Plain(data) => Some(data)
      case Failed(_) => None
  }

  /** Where the live files of this device are. */
  function Places(t: Table, device: Option<string>): map<string, Key> {
    map p | p in t && MineAt(t, p, device) :: KeyOf(t[p])
  }

  /** The physical files that can be read, with what they hold. */
  function Cells(disk: Disk, log: SealLog, encrypts: bool): map<Key, Bytes> {
    map k | k in disk && Unseal(log, encrypts, disk[k]).Some? :: Unseal(log, encrypts, disk[k]).value
  }

  function Compose(places: map<string, Key>, cells: map<Key, Bytes>): map<string, Bytes> {
    map p | p in places && places[p] in cells :: cells[places[p]]
  }

  /** The files of this device as a map from path to content. */
  function Volume(t: Table, disk: Disk, log: SealLog, encrypts: bool, device: Option<string>): map<string, Bytes> {
    Compose(Places(t, device), Cells(disk, log, encrypts))
  }

  /** Every place holds a readable file, and no two paths share one. */
  ghost predicate Placed(places: map<string, Key>, cells: map<Key, Bytes>) {
    && (forall p | p in places :: places[p] in cells)
    && (forall p, q | p in places && q in places && places[p] == places[q] :: p == q)
  }

  /** Every live row of this device has its own readable physical file. */
  ghost predicate WellPlaced(t: Table, disk: Disk, log: SealLog, encrypts: bool, device: Option<string>) {
    WellSealed(log) && Placed(Places(t, device), Cells(disk, log, encrypts))
  }

  /** No row and no physical file uses the path on any source. */
  ghost predicate Unused(t: Table, disk: Disk, f: string) {
    && (forall p | p in t :: t[p].physicalPath != f)
    && (forall k | k in disk :: k.1 != f)
  }

  /** `blob` is what the engine makes of `data`, and `log'` what it has made so far. */
  ghost predicate SealedAs(log: SealLog, log': SealLog, encrypts: bool, blob: Bytes, data: Bytes) {
    if encrypts then
      exists s :: FreshSeal(log, s, data) && blob == Layout(s) && log' == log[s := data]
    else
      blob == data && log' == log
  }

  lemma SealedOpens(log: SealLog, log': SealLog, encrypts: bool, blob: Bytes, data: Bytes)
    requires WellSealed(log) && SealedAs(log, log', encrypts, blob, data)
    ensures WellSealed(log') && Unseal(log', encrypts, blob) == Some(data)
    ensures forall b | Unseal(log, encrypts, b).Some? :: Unseal(log', encrypts, b) == Unseal(log, encrypts, b)
  {
    if encrypts {
      var s :| FreshSeal(log, s, data) && blob == Layout(s) && log' == log[s := data];
      EncryptDecrypt(log, s, data, log');
    }
  }

  lemma CellsPut(disk: Disk, log: SealLog, encrypts: bool, k: Key, blob: Bytes, data: Bytes)
    requires Unseal(log, encrypts, blob) == Some(data)
    ensures Cells(disk[k := blob], log, encrypts) == Cells(disk, log, encrypts)[k := data]
  {
    hide Unseal;
  }

  /** Sealing more changes nothing about what is there. */
  lemma Reseal(t: Table, disk: Disk, log: SealLog, log': SealLog, encrypts: bool, device: Option<string>, blob: Bytes, data: Bytes)
    requires WellPlaced(t, disk, log, encrypts, device) && SealedAs(log, log', encrypts, blob, data)
    ensures WellPlaced(t, disk, log', encrypts, device)
    ensures Volume(t, disk, log', encrypts, device) == Volume(t, disk, log, encrypts, device)
  {
    SealedOpens(log, log', encrypts, blob, data);
    var places, cells, cells' := Places(t, device), Cells(disk, log, encrypts), Cells(disk, log', encrypts);
    PlacedCells(places, cells);
    assert forall k | k in cells :: k in cells' && cells'[k] == cells[k] by { hide Unseal, SealedAs; }
    hide Cells, Places, WellSealed, Compose, Placed, SealedAs, Unseal;
    ComposeSame(places, cells, cells');
  }

  lemma PlacedPut(places: map<string, Key>, cells: map<Key, Bytes>, cells': map<Key, Bytes>, p: string, k: Key)
    requires Placed(places, cells) && k in cells'
    requires forall j | j != k && j in cells :: j in cells' && cells'[j] == cells[j]
    requires forall q | q in places && q != p :: places[q] != k
    ensures Placed(places[p := k], cells')
  {
  }

  lemma ComposePut(places: map<string, Key>, cells: map<Key, Bytes>, cells': map<Key, Bytes>, p: string, k: Key)
    requires (forall q | q in places :: places[q] in cells) && k in cells'
    requires forall j | j != k && j in cells :: j in cells' && cells'[j] == cells[j]
    requires forall q | q in places && q != p :: places[q] != k
    ensures Compose(places[p := k], cells') == Compose(places, cells)[p := cells'[k]]
  {
    var a, b := Compose(places[p := k], cells'), Compose(places, cells)[p := cells'[k]];
    assert a.Keys == b.Keys == places.Keys + {p};
  }

  lemma ComposeSame(places: map<string, Key>, cells: map<Key, Bytes>, cells': map<Key, Bytes>)
    requires Placed(places, cells)
    requires forall q | q in places :: places[q] in cells' && cells'[places[q]] == cells[places[q]]
    ensures Placed(places, cells') && Compose(places, cells') == Compose(places, cells)
  {
  }

  lemma ComposeKeep(places: map<string, Key>, places': map<string, Key>, cells: map<Key, Bytes>, cells': map<Key, Bytes>, p: string)
    requires Placed(places, cells) && places' == places - {p}
    requires forall q | q in places' :: places[q] in cells' && cells'[places[q]] == cells[places[q]]
    ensures Placed(places', cells') && Compose(places', cells') == Compose(places, cells) - {p}
  {
  }

  lemma PlacesStep(t: Table, t': Table, device: Option<string>, p: string)
    requires forall q | q != p :: RowAt(t', q) == RowAt(t, q)
    ensures Places(t', device) == if MineAt(t', p, device) then Places(t, device)[p := KeyOf(t'[p])] else Places(t, device) - {p}
  {
    forall q | q != p
      ensures MineAt(t', q, device) <==> MineAt(t, q, device)
      ensures MineAt(t, q, device) ==> t'[q] == t[q]
    {
      assert RowAt(t', q) == RowAt(t, q);
    }
  }

  /** The row at `p` gets the content `data` at key `k`, which no other live row
      of the device uses. This covers overwriting, creating and taking over. */
  lemma Put(t: Table, t': Table, disk: Disk, log: SealLog, encrypts: bool, device: Option<string>,
            p: string, k: Key, blob: Bytes, data: Bytes)
    requires WellPlaced(t, disk, log, encrypts, device) && Unseal(log, encrypts, blob) == Some(data)
    requires forall q | q != p :: RowAt(t', q) == RowAt(t, q)
    requires Live(t', p) && KeyOf(t'[p]) == k
    requires forall q | q != p && MineAt(t, q, device) :: KeyOf(t[q]) != k
    ensures WellPlaced(t', disk[k := blob], log, encrypts, device)
    ensures Volume(t', disk[k := blob], log, encrypts, device)
         == if MineAt(t', p, device) then Volume(t, disk, log, encrypts, device)[p := data]
            else Volume(t, disk, log, encrypts, device) - {p}
  {
    var places, places' := Places(t, device), Places(t', device);
    var cells, cells' := Cells(disk, log, encrypts), Cells(disk[k := blob], log, encrypts);
    CellsPut(disk, log, encrypts, k, blob, data);
    PlacesStep(t, t', device, p);
    assert forall q | q in places && q != p :: places[q] != k;
    PlacedCells(places, cells);
    hide Cells, Places, WellSealed, MineAt, Compose, Placed;
    if MineAt(t', p, device) {
      PlacedPut(places, cells, cells', p, k);
      ComposePut(places, cells, cells', p, k);
    } else {
      ComposeKeep(places, places', cells, cells', p);
    }
  }

  lemma PlacedCells(places: map<string, Key>, cells: map<Key, Bytes>)
    requires Placed(places, cells)
    ensures forall p | p in places :: places[p] in cells
  {
  }

  lemma CellsAgree(disk: Disk, disk': Disk, log: SealLog, encrypts: bool, k: Key)
    requires k in disk && k in disk' && disk[k] == disk'[k] && k in Cells(disk, log, encrypts)
    ensures k in Cells(disk', log, encrypts) && Cells(disk', log, encrypts)[k] == Cells(disk, log, encrypts)[k]
  {
  }

  /** The physical files this device's live rows point at are all kept. */
  predicate Keeps(t: Table, device: Option<string>, disk: Disk, disk': Disk) {
    forall p | p in Places(t, device) :: Places(t, device)[p] in disk && Places(t, device)[p] in disk' && disk'[Places(t, device)[p]] == disk[Places(t, device)[p]]
  }

  /** The row at `p` dies or leaves the device; files no other row uses may go. */
  lemma Drop(t: Table, t': Table, disk: Disk, disk': Disk, log: SealLog, encrypts: bool, device: Option<string>, p: string)
    requires WellPlaced(t, disk, log, encrypts, device)
    requires forall q | q != p :: RowAt(t', q) == RowAt(t, q)
    requires !MineAt(t', p, device) && Keeps(t', device, disk, disk')
    ensures WellPlaced(t', disk', log, encrypts, device)
    ensures Volume(t', disk', log, encrypts, device) == Volume(t, disk, log, encrypts, device) - {p}
  {
    var places, places' := Places(t, device), Places(t', device);
    var cells, cells' := Cells(disk, log, encrypts), Cells(disk', log, encrypts);
    PlacesStep(t, t', device, p);
    PlacedCells(places, cells);
    hide Cells, Places, WellSealed, MineAt, Compose, Placed;
    forall q | q in places'
      ensures places[q] in cells' && cells'[places[q]] == cells[places[q]]
    {
      CellsAgree(disk, disk', log, encrypts, places[q]);
    }
    ComposeKeep(places, places', cells, cells', p);
  }

  /** Fewer files, but all that are referenced: nothing changes for the reader. */
  lemma Shrink(t: Table, disk: Disk, disk': Disk, log: SealLog, encrypts: bool, device: Option<string>)
    requires WellPlaced(t, disk, log, encrypts, device) && Keeps(t, device, disk, disk')
    ensures WellPlaced(t, disk', log, encrypts, device)
    ensures Volume(t, disk', log, encrypts, device) == Volume(t, disk, log, encrypts, device)
  {
    var places := Places(t, device);
    var cells, cells' := Cells(disk, log, encrypts), Cells(disk', log, encrypts);
    PlacedCells(places, cells);
    hide Cells, Places, WellSealed, Compose, Placed;
    forall q | q in places
      ensures places[q] in cells' && cells'[places[q]] == cells[places[q]]
    {
      CellsAgree(disk, disk', log, encrypts, places[q]);
    }
    ComposeSame(places, cells, cells');
  }

  /** The volume written out: a path has a content exactly if a live row of this device
      or of nobody points at a file that can be opened. */
  lemma VolumeIs(t: Table, disk: Disk, log: SealLog, encrypts: bool, device: Option<string>, p: string, data: Bytes)
    ensures var v := Volume(t, disk, log, encrypts, device);
      p in v && v[p] == data <==>
        && p in t && !t[p].deleted && (t[p].deviceId == None || t[p].deviceId == device)
        && (t[p].sourceId, t[p].physicalPath) in disk
        && var blob := disk[(t[p].sourceId, t[p].physicalPath)];
           if encrypts then Decrypt(log, blob) == Plain(data) else blob == data
  {
    hide Decrypt;
  }

  function MoveKey<T>(m: map<string, T>, src: string, dst: string): map<string, T> {
    if src in m then (m - {src})[dst := m[src]] else m
  }

  /** After a move the new name has what the old one had, the old name has nothing,
      and every other name what it had. */
  lemma MoveKeyIs<T>(m: map<string, T>, src: string, dst: string, q: string)
    requires src in m
    ensures var m' := MoveKey(m, src, dst);
      && (q in m' <==> q == dst || (q in m && q != src))
      && (q in m' ==> m'[q] == if q == dst then m[src] else m[q])
  {
  }

  lemma PlacesMove(t: Table, src: string, dst: string, device: Option<string>)
    requires Live(t, src) && RenamePath(t, src, dst).Some?
    ensures Places(RenamePath(t, src, dst).value, device) == MoveKey(Places(t, device), src, dst)
    ensures dst in Places(t, device) ==> dst == src
  {
    var t' := RenamePath(t, src, dst).value;
    forall q ensures MineAt(t', q, device) <==> if q == dst then MineAt(t, src, device) else q != src && MineAt(t, q, device)
    {
    }
    hide MineAt;
  }

  lemma ComposeMove(places: map<string, Key>, cells: map<Key, Bytes>, src: string, dst: string)
    requires Placed(places, cells) && (dst in places ==> dst == src)
    ensures Placed(MoveKey(places, src, dst), cells)
    ensures Compose(MoveKey(places, src, dst), cells) == MoveKey(Compose(places, cells), src, dst)
  {
  }

  /** Moving a file moves its content, whatever device it is on. */
  lemma Rename(t: Table, src: string, dst: string, disk: Disk, log: SealLog, encrypts: bool, device: Option<string>)
    requires WellPlaced(t, disk, log, encrypts, device) && Live(t, src) && RenamePath(t, src, dst).Some?
    ensures WellPlaced(RenamePath(t, src, dst).value, disk, log, encrypts, device)
    ensures Volume(RenamePath(t, src, dst).value, disk, log, encrypts, device)
         == MoveKey(Volume(t, disk, log, encrypts, device), src, dst)
  {
    PlacesMove(t, src, dst, device);
    ComposeMove(Places(t, device), Cells(disk, log, encrypts), src, dst);
  }
}
