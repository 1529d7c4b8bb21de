/** `stardustlib/jbod_manager.py`: several quota-limited sources as one volume.
    Failing disks are not part of the model; sources fill up and go inactive. */
module Jbod {
  import opened Rows
  import opened Numbers
  import opened Crypto
  import opened Paths
  import opened Sources
  import opened Metadata
  import opened Volumes
  import opened Merge
  import opened Protocol

  /** `_MANAGED_FILE_RE`: 32 lower-case hexadecimal digits and an underscore. */
  predicate Managed(name: string) {
    |name| > 32 && IsHex(name[..32]) && name[32] == '_'
  }

  predicate IsHex(s: string) {
    forall i | 0 <= i < |s| :: '0' <= s[i] <= '9' || 'a' <= s[i] <= 'f'
  }

  function Strip(p: string): string {
    RStrip(LStrip(p))
  }

  /** `_generate_physical_path`: the directories of the virtual path are kept. */
  function PhysicalPath(p: string, hex: string): string {
    var s := Strip(p);
    var i := LastIndex(s, '/');
    if i < 0 then hex + "_" + s else s[..i] + "/" + hex + "_" + s[i + 1..]
  }

  lemma StripIs(p: string)
    ensures exists a, b: nat :: Trimmed(p, a, b, Strip(p))
  {
    hide LStrip, RStrip;
    var l := LStrip(p);
    var s := RStrip(l);
    var a, b := |p| - |l|, |l| - |s|;
    assert s == l[..|s|] == p[a..a + |s|];
    forall i | a + |s| <= i < |p| ensures p[i] == '/' { assert p[i] == l[i - a]; }
    assert Trimmed(p, a, b, Strip(p));
  }

  /** `s` is what `a` leading and `b` trailing slashes leave, and has none itself. */
  ghost predicate Trimmed(p: string, a: nat, b: nat, s: string) {
    && a + |s| + b == |p| && s == p[a..a + |s|]
    && (forall i | 0 <= i < a || a + |s| <= i < |p| :: p[i] == '/')
    && (s == "" || (s[0] != '/' && s[|s| - 1] != '/'))
  }

  /** The physical path written out: 32 digits and an underscore before the last
      component, the directories as they are. */
  lemma PhysicalPathIs(p: string, hex: string, dir: string, name: string)
    requires Strip(p) == dir + name && (dir == "" || dir[|dir| - 1] == '/') && '/' !in name
    ensures PhysicalPath(p, hex) == dir + hex + "_" + name
  {
    hide Strip, LastIndex;
    LastComponent(dir, name);
  }

  lemma LastComponent(dir: string, name: string)
    requires (dir == "" || dir[|dir| - 1] == '/') && '/' !in name
    ensures LastIndex(dir + name, '/') == |dir| - 1 && (dir + name)[|dir|..] == name && "" + name == name
    ensures dir != "" ==> (dir + name)[..|dir| - 1] + "/" == dir
  {
    assert (dir + name)[|dir|..] == name;
    LastIndexIs(dir + name, '/', |dir| - 1);
  }

  lemma FlatIsManaged(s: string, hex: string)
    requires |hex| == 32 && IsHex(hex)
    ensures Managed(hex + "_" + s)
  {
    var f := hex + "_" + s;
    assert f[..32] == hex;
    assert f[32] == '_';
  }

  /** Orphan collection can see a file iff its virtual path has no directory. */
  lemma CollectableIff(p: string, hex: string)
    requires |hex| == 32 && IsHex(hex)
    ensures TopLevel(PhysicalPath(p, hex)) && Managed(PhysicalPath(p, hex)) <==> '/' !in Strip(p)
  {
    var s := Strip(p);
    var i := LastIndex(s, '/');
    hide Strip;
    if i < 0 {
      assert '/' !in hex && '/' !in s;
      FlatIsManaged(s, hex);
    } else {
      assert PhysicalPath(p, hex)[i] == '/';
    }
  }

  /** What orphan collection may remove: managed files directly in an active
      source that no live row of this device points at. */
  predicate Orphan(t: Table, device: string, usable: set<string>, k: Key) {
    k.0 in usable && TopLevel(k.1) && Managed(k.1) && k !in LivePhysical(t, device)
  }

  function Collected(t: Table, device: string, usable: set<string>, disk: Disk): Disk {
    map k | k in disk && !Orphan(t, device, usable, k) :: disk[k]
  }

  /** Collection written out: a file goes exactly if it lies directly in an active
      source under a name of 32 hexadecimal digits, an underscore and more, and no live
      row of the device or of nobody points at it. The others keep their bytes. */
  lemma CollectedIs(t: Table, device: string, usable: set<string>, disk: Disk)
    ensures var disk' := Collected(t, device, usable, disk);
      && (forall k | k in disk' :: k in disk && disk'[k] == disk[k])
      && forall k: Key | k in disk :: k !in disk' <==>
        && k.0 in usable && '/' !in k.1 && |k.1| > 32 && k.1[32] == '_'
        && (forall i | 0 <= i < 32 :: '0' <= k.1[i] <= '9' || 'a' <= k.1[i] <= 'f')
        && forall p | p in t && !t[p].deleted && (t[p].deviceId == None || t[p].deviceId == Some(device)) :: (t[p].sourceId, t[p].physicalPath) != k
  {
    forall k: Key ensures k in LivePhysical(t, device) <==>
      exists p :: p in t && !t[p].deleted && (t[p].deviceId == None || t[p].deviceId == Some(device)) && (t[p].sourceId, t[p].physicalPath) == k
    {
    }
    hide LivePhysical;
  }

  predicate Goes(live: set<Key>, id: string, f: string) {
    Managed(f) && (id, f) !in live
  }

  /** Part of the way through one source. */
  function Swept(live: set<Key>, id: string, done: set<string>, disk: Disk): Disk {
    map k | k in disk && !(k.0 == id && k.1 in done && Goes(live, id, k.1)) :: disk[k]
  }

  lemma SweptStep(live: set<Key>, id: string, done: set<string>, f: string, disk: Disk)
    requires f !in done && (id, f) in disk
    ensures var d, d' := Swept(live, id, done, disk), Swept(live, id, done + {f}, disk);
      && d' == (if Goes(live, id, f) then d - {(id, f)} else d)
      && |d'| == |d| - (if Goes(live, id, f) then 1 else 0)
  {
    hide Goes;
    var d := Swept(live, id, done, disk);
    assert (d - {(id, f)}).Keys == d.Keys - {(id, f)};
    assert |d.Keys| == |d| && |(d - {(id, f)}).Keys| == |d - {(id, f)}|;
  }

  lemma SweptAll(t: Table, device: string, id: string, names: set<string>, disk: Disk)
    requires forall f :: f in names <==> (id, f) in disk && TopLevel(f)
    ensures Swept(LivePhysical(t, device), id, names, disk) == Collected(t, device, {id}, disk)
  {
    hide Managed, LivePhysical, TopLevel;
  }

  lemma SweptNone(live: set<Key>, id: string, disk: Disk)
    ensures Swept(live, id, {}, disk) == disk
  {
    hide Goes;
  }

  lemma CollectedStep(t: Table, device: string, ids: set<string>, id: string, disk: Disk)
    ensures Collected(t, device, {id}, Collected(t, device, ids, disk)) == Collected(t, device, ids + {id}, disk)
    ensures Collected(t, device, {}, disk) == disk
  {
    hide Managed, LivePhysical, TopLevel;
  }

  lemma LiveIsPlaces(t: Table, device: string)
    ensures LivePhysical(t, device) == Places(t, Some(device)).Values
  {
    forall k | k in LivePhysical(t, device)
      ensures k in Places(t, Some(device)).Values
    {
      var p :| p in t && !t[p].deleted && (t[p].deviceId == None || t[p].deviceId == Some(device)) && KeyOf(t[p]) == k;
      assert Places(t, Some(device))[p] == k;
    }
    forall k | k in Places(t, Some(device)).Values
      ensures k in LivePhysical(t, device)
    {
      var p :| p in Places(t, Some(device)) && Places(t, Some(device))[p] == k;
      assert p in t;
    }
  }

  /** Collection is invisible to readers, and afterwards the managed top-level
      files of the active sources are exactly the referenced ones. */
  lemma CollectionIsSafeAndExact(t: Table, device: string, usable: set<string>, disk: Disk, log: SealLog, encrypts: bool)
    requires WellPlaced(t, disk, log, encrypts, Some(device))
    ensures var disk' := Collected(t, device, usable, disk);
      && WellPlaced(t, disk', log, encrypts, Some(device))
      && Volume(t, disk', log, encrypts, Some(device)) == Volume(t, disk, log, encrypts, Some(device))
      && (forall k: Key | k.0 in usable && TopLevel(k.1) && Managed(k.1) :: k in disk' <==> k in LivePhysical(t, device) && k in disk)
      && (forall k | k in disk && !(k.0 in usable && TopLevel(k.1) && Managed(k.1)) :: k in disk' && disk'[k] == disk[k])
  {
    LiveIsPlaces(t, device);
    PlacesOnDisk(t, disk, log, encrypts, Some(device));
    var disk' := Collected(t, device, usable, disk);
    hide WellPlaced, LivePhysical, Managed, TopLevel, Volume;
    assert Keeps(t, Some(device), disk, disk') by { hide Places; }
    Shrink(t, disk, disk', log, encrypts, Some(device));
  }

  lemma PlacesOnDisk(t: Table, disk: Disk, log: SealLog, encrypts: bool, device: Option<string>)
    requires WellPlaced(t, disk, log, encrypts, device)
    ensures forall p | p in Places(t, device) :: Places(t, device)[p] in disk
  {
    hide Unseal, Places;
  }

  /** The files of all sources in one map. */
  ghost predicate Tied(disk: Disk, perSource: map<string, map<string, Bytes>>) {
    && (forall k: Key | k in disk :: k.0 in perSource && k.1 in perSource[k.0] && disk[k] == perSource[k.0][k.1])
    && (forall id, f | id in perSource && f in perSource[id] :: (id, f) in disk)
  }

  lemma TiedPut(disk: Disk, m: map<string, map<string, Bytes>>, id: string, f: string, data: Bytes)
    requires Tied(disk, m) && id in m
    ensures Tied(disk[(id, f) := data], m[id := m[id][f := data]])
  {
  }

  lemma TiedRemove(disk: Disk, m: map<string, map<string, Bytes>>, id: string, f: string)
    requires Tied(disk, m) && id in m
    ensures Tied(disk - {(id, f)}, m[id := m[id] - {f}])
  {
  }

  /** The physical files when a source is replaced. */
  ghost function Replaced(disk: Disk, id: string, files: map<string, Bytes>): Disk {
    (map k | k in disk && k.0 != id :: disk[k]) + map f | f in files :: (id, f) := files[f]
  }

  /** Replacing a source changes nothing on the others. */
  lemma ReplacedIs(disk: Disk, id: string, files: map<string, Bytes>, i: string, f: string)
    ensures var disk' := Replaced(disk, id, files);
      && ((i, f) in disk' <==> if i == id then f in files else (i, f) in disk)
      && ((i, f) in disk' ==> disk'[(i, f)] == if i == id then files[f] else disk[(i, f)])
  {
  }

  lemma TiedReplace(disk: Disk, m: map<string, map<string, Bytes>>, id: string, files: map<string, Bytes>)
    requires Tied(disk, m)
    ensures Tied(Replaced(disk, id, files), m[id := files])
  {
  }

  /** The ids in the list are those of the sources in the map. */
  predicate IsList(order: seq<string>, m: map<string, LoopbackSource>) {
    && (forall id | id in order :: id in m)
    && (forall id | id in m :: id in order && m[id].id == id)
  }

  lemma ListReplace(order: seq<string>, m: map<string, LoopbackSource>, s: LoopbackSource)
    requires IsList(order, m)
    ensures IsList(Others(order, s.id) + [s.id], m[s.id := s])
  {
    OthersFacts(order, s.id);
    var order' := Others(order, s.id) + [s.id];
    assert order'[|order'| - 1] == s.id;
  }

  /** The list without one id. */
  function Others(order: seq<string>, id: string): seq<string> {
    if order == [] then []
    else if order[0] == id then Others(order[1..], id)
    else [order[0]] + Others(order[1..], id)
  }

  lemma {:induction false} OthersFacts(order: seq<string>, id: string)
    ensures forall i :: i in Others(order, id) <==> i in order && i != id
  {
    if order != [] { OthersFacts(order[1..], id); }
  }

  /** Taking an id out of the list keeps the others in their order. */
  lemma {:induction false} OthersInOrder(a: seq<string>, b: seq<string>, id: string)
    ensures Others(a + b, id) == Others(a, id) + Others(b, id)
    ensures Others([id], id) == [] && forall i | i != id :: Others([i], id) == [i]
  {
    if a == [] {
      assert a + b == b;
    } else {
      assert (a + b)[1..] == a[1..] + b;
      OthersInOrder(a[1..], b, id);
    }
  }

  /** How many bytes a physical file grows by when it is overwritten. */
  ghost function Growth(disk: Disk, k: Key, blob: Bytes): nat {
    if k in disk then AtLeastZero(|blob| - |disk[k]|) else |blob|
  }

  /** The three writes are those of the protocol. */
  lemma WritesLocally(t: Table, disk: Disk, t': Table, disk': Disk, device: Option<string>, p: string, key: Key, size: nat, now: real, blob: Bytes)
    requires device.Some?
    requires t' == if !Live(t, p) then Insert(t, p, key, size, now, now, device) else Update(t, p, size, now, device, if MineAt(t, p, device) then None else Some(key))
    requires disk' == disk[(if MineAt(t, p, device) then KeyOf(t[p]) else key) := blob]
    ensures Local(t', disk'.Keys) == WriteLocal(Local(t, disk.Keys), device.value, p, key, size, now)
  {
    hide Insert, Update;
  }

  datatype ReadResult = Found(data: Bytes) | NotFound | Offline | FileMissing | Corrupt

  /** What reading another device's answer comes to: its bytes are decrypted as if they
      were stored here. */
  ghost predicate Answered(log: SealLog, encrypts: bool, remote: Option<Bytes>, r: ReadResult) {
    match remote
    case None => r == Offline
    case Some(b) =>
      if !encrypts then r == Found(b)
      else
        && (forall data :: r == Found(data) <==> exists s :: s in log && log[s] == data && SameButVersion(b, Layout(s)))
        && (r == Corrupt <==> forall s | s in log :: !SameButVersion(b, Layout(s)))
  }

  lemma OpensIff(log: SealLog, b: Bytes)
    requires WellSealed(log)
    ensures forall data :: Decrypt(log, b) == Plain(data) <==> exists s :: s in log && log[s] == data && SameButVersion(b, Layout(s))
    ensures Decrypt(log, b).Plain? <==> exists s :: s in log && SameButVersion(b, Layout(s))
  {
    forall data ensures Decrypt(log, b) == Plain(data) <==> exists s :: s in log && log[s] == data && SameButVersion(b, Layout(s)) {
      DecryptAcceptsIff(log, b, data);
    }
    hide Decrypt, SameButVersion, Layout, WellSealed;
    if s :| s in log && SameButVersion(b, Layout(s)) {
      assert Decrypt(log, b) == Plain(log[s]);
    }
  }

  datatype WriteResult = Written | OutOfSpace | SourceOffline

  class JbodManager {
    /** The list of sources, by id, and the sources themselves. */
    var order: seq<string>
    var sourceMap: map<string, LoopbackSource>
    const store: MetadataStore
    const deviceId: Option<string>
    const encrypts: bool
    var gcNeeded: bool
    /** All physical files of all sources. */
    ghost var disk: Disk
    /** Everything the encryption engines of the account have sealed. */
    var log: SealLog

    predicate Wired()
      reads this`order, this`sourceMap
    {
      IsList(order, sourceMap)
    }

    ghost predicate Booked()
      reads this`sourceMap, sourceMap.Values
    {
      forall id | id in sourceMap :: sourceMap[id].Valid()
    }

    /** The files source by source. */
    ghost function PerSource(): map<string, map<string, Bytes>>
      reads this`sourceMap, sourceMap.Values`files
    {
      map id | id in sourceMap :: sourceMap[id].files
    }

    /** The sources are in order; says nothing about the metadata. */
    ghost predicate Sound()
      reads this`order, this`sourceMap, this`disk, sourceMap.Values
    {
      Wired() && Booked() && Tied(disk, PerSource())
    }

    ghost predicate Valid()
      reads this`order, this`sourceMap, this`disk, this`log, sourceMap.Values, store`rows
    {
      Sound() && WellPlaced(store.rows, disk, log, encrypts, deviceId)
    }

    /** The files of this device, as its user sees them. */
    ghost function Files(): map<string, Bytes>
      reads this`disk, this`log, store`rows
    {
      Volume(store.rows, disk, log, encrypts, deviceId)
    }

    predicate Usable(id: string)
      reads this`sourceMap, sourceMap.Values`active
    {
      id in sourceMap && sourceMap[id].active
    }

    /** A negative number of bytes when the source is inactive. */
    function Room(id: string): int
      reads this`sourceMap, sourceMap.Values
    {
      if Usable(id) then sourceMap[id].capacity - sourceMap[id].used else -1
    }

    constructor (store: MetadataStore, deviceId: Option<string>, encrypts: bool)
      requires store.rows == map[]
      ensures Valid() && order == [] && !gcNeeded && this.store == store && this.deviceId == deviceId && this.encrypts == encrypts
    {
      this.store, this.deviceId, this.encrypts := store, deviceId, encrypts;
      order, sourceMap, gcNeeded, disk, log := [], map[], false, map[], map[];
    }

    /** `add_source`: a source with the same id is replaced, and its files are no
        longer part of the volume. */
    method AddSource(s: LoopbackSource)
      requires Valid() && s.Valid()
      modifies this`order, this`sourceMap, this`disk
      ensures Sound() && order == Others(old(order), s.id) + [s.id] && sourceMap == old(sourceMap)[s.id := s]
      ensures disk == Replaced(old(disk), s.id, s.files)
      ensures !UsesSource(s.id) ==> Valid() && Files() == old(Files())
    {
      hide Tied, Volume, WellPlaced, Stored, Replaced, Others, UsesSource, IsList;
      TiedReplace(disk, PerSource(), s.id, s.files);
      OthersStay(s.id, s.files);
      order := Others(order, s.id) + [s.id];
      sourceMap := sourceMap[s.id := s];
      ListReplace(old(order), old(sourceMap), s);
      disk := Replaced(disk, s.id, s.files);
      assert PerSource() == old(PerSource())[s.id := s.files];
    }

    /** Some live file of this device is on the source. */
    ghost predicate UsesSource(id: string)
      reads store`rows
    {
      exists p :: MineAt(store.rows, p, deviceId) && store.rows[p].sourceId == id
    }

    lemma OthersStay(id: string, files: map<string, Bytes>)
      requires Valid()
      ensures !UsesSource(id) ==>
        && WellPlaced(store.rows, Replaced(disk, id, files), log, encrypts, deviceId)
        && Volume(store.rows, Replaced(disk, id, files), log, encrypts, deviceId) == Files()
    {
      if UsesSource(id) {
        return;
      }
      PlacesOnDisk(store.rows, disk, log, encrypts, deviceId);
      hide WellPlaced, Volume;
      assert Keeps(store.rows, deviceId, disk, Replaced(disk, id, files));
      Shrink(store.rows, disk, Replaced(disk, id, files), log, encrypts, deviceId);
    }

    method DeactivateSource(id: string) returns (found: bool)
      requires Valid()
      modifies sourceMap.Values`active
      ensures Valid() && Files() == old(Files())
      ensures found <==> id in sourceMap
      ensures forall i | i in sourceMap :: sourceMap[i].active == (old(sourceMap[i].active) && i != id)
    {
      hide Tied, WellPlaced, Volume;
      if id !in sourceMap {
        return false;
      }
      sourceMap[id].Deactivate();
      assert PerSource() == old(PerSource());
      found := true;
    }

    /** The first of the sources with the most space left. */
    predicate Roomiest(id: string)
      reads this`order, this`sourceMap, sourceMap.Values
    {
      && id in sourceMap && (forall i | i in sourceMap :: Room(i) <= Room(id))
      && exists j :: 0 <= j < |order| && order[j] == id && forall i | 0 <= i < j :: Room(order[i]) < Room(id)
    }

    /** `select_source`: the first of the sources with the most space left, if any
        has enough. */
    method SelectSource(size: nat) returns (best: Option<LoopbackSource>)
      requires Sound()
      ensures best.Some? <==> exists id :: id in sourceMap && Room(id) >= size
      ensures best.Some? ==> best.value.id in sourceMap && sourceMap[best.value.id] == best.value && Room(best.value.id) >= size
      ensures best.Some? ==> forall id | id in sourceMap :: Room(id) <= Room(best.value.id)
      ensures best.Some? ==> exists j :: 0 <= j < |order| && order[j] == best.value.id && forall i | 0 <= i < j :: Room(order[i]) < Room(order[j])
    {
      hide Tied, PerSource, Stored;
      best := None;
      var space: int := -1;
      ghost var at := 0;
      for i := 0 to |order|
        invariant best.Some? ==> at < i && order[at] == best.value.id && forall j | 0 <= j < at :: Room(order[j]) < space
        invariant best.Some? ==> best.value.id in sourceMap && sourceMap[best.value.id] == best.value && Room(best.value.id) == space >= size
        invariant best.None? ==> space == -1
        invariant forall j | 0 <= j < i :: Room(order[j]) <= space || (best.None? && Room(order[j]) < size)
      {
        var source := sourceMap[order[i]];
        if !source.active {
          continue;
        }
        var available := source.GetAvailableSpace();
        if available.value >= size && available.value > space {
          best, space, at := Some(source), available.value, i;
        }
      }
    }

    method PutPhysical(s: LoopbackSource, f: string, data: Bytes) returns (r: Io<()>)
      requires Sound() && s.id in sourceMap && sourceMap[s.id] == s
      modifies this`disk, s`files, s`used
      ensures Sound()
      ensures r.Good? <==> s.active && (|data| <= SizeAt(old(s.files), f) || |data| - SizeAt(old(s.files), f) <= s.capacity - old(s.used))
      ensures r.Bad? ==> s.used == old(s.used) && r.error == if s.active then NoSpace else Inactive
      ensures disk == if r.Good? then old(disk)[(s.id, f) := data] else old(disk)
    {
      hide Tied, Stored;
      r := s.Write(f, data);
      assert PerSource() == old(PerSource())[s.id := s.files];
      if r.Good? {
        TiedPut(disk, old(PerSource()), s.id, f, data);
        disk := disk[(s.id, f) := data];
      }
    }

    /** Deleting a file that is not there is not an error. */
    method DeletePhysical(id: string, f: string)
      requires Sound()
      modifies this`disk, sourceMap.Values`files, sourceMap.Values`used
      ensures Sound() && disk == if Usable(id) then old(disk) - {(id, f)} else old(disk)
    {
      hide Tied, Stored;
      if id !in sourceMap || !sourceMap[id].active {
        return;
      }
      var s := sourceMap[id];
      TiedRemove(disk, PerSource(), id, f);
      var r := s.Delete(f);
      assert PerSource() == old(PerSource())[id := s.files];
      disk := disk - {(id, f)};
    }

    function Blob(data: Bytes, seal: Sealed): Bytes {
      if encrypts then Layout(seal) else data
    }

    function LogAfter(data: Bytes, seal: Sealed): SealLog
      reads this`log
    {
      if encrypts then log[seal := data] else log
    }

    /** Storing a blob under a fresh path in the chosen source: there is always
        room for it. */
    method PutFresh(f: string, blob: Bytes) returns (id: Option<string>)
      requires Sound() && forall k | k in disk :: k.1 != f
      modifies this`disk, sourceMap.Values`files, sourceMap.Values`used
      ensures Sound()
      ensures id.None? <==> forall i | i in sourceMap :: old(Room(i)) < |blob|
      ensures id.None? ==> disk == old(disk)
      ensures id.Some? ==> id.value in sourceMap && disk == old(disk)[(id.value, f) := blob]
      ensures id.Some? ==> old(Roomiest(id.value))
    {
      hide Wired, Booked, Tied;
      var source := SelectSource(|blob|);
      if source.None? {
        return None;
      }
      var s := source.value;
      NotThere(s.id, f);
      var r := PutPhysical(s, f, blob);
      id := Some(s.id);
    }

    lemma NotThere(id: string, f: string)
      requires Sound() && id in sourceMap && (forall k | k in disk :: k.1 != f)
      ensures f !in sourceMap[id].files && sourceMap[id].id == id
    {
      assert PerSource()[id] == sourceMap[id].files;
    }

    lemma SizeOnDisk(id: string, f: string)
      requires Sound() && id in sourceMap
      ensures SizeAt(sourceMap[id].files, f) == if (id, f) in disk then |disk[(id, f)]| else 0
      ensures sourceMap[id].id == id && sourceMap[id].used <= sourceMap[id].capacity
    {
      assert PerSource()[id] == sourceMap[id].files;
      assert sourceMap[id].Valid();
    }

    /** `write_file`. A file of this device is overwritten in place, one that
        another device owns is taken over, any other path becomes a new file.
        `id` is the source chosen for a fresh physical file. */
    method WriteFile(p: string, data: Bytes, hex: string, seal: Sealed, now: real) returns (r: WriteResult, ghost id: string)
      requires Valid() && Unused(store.rows, disk, PhysicalPath(p, hex))
      requires encrypts ==> FreshSeal(log, seal, data)
      modifies this`disk, this`log, this`gcNeeded, store`rows, sourceMap.Values`files, sourceMap.Values`used
      ensures Valid()
      ensures log == if encrypts then old(log)[seal := data] else old(log)
      ensures r.Written? ==> Files() == if deviceId.Some? || !Foreign(old(store.rows), p) then old(Files())[p := data] else old(Files())
      ensures r.Written? && deviceId.Some? ==>
        Local(store.rows, disk.Keys) ==
        WriteLocal(Local(old(store.rows), old(disk).Keys), deviceId.value, p, (id, PhysicalPath(p, hex)), |data|, now)
      ensures r.Written? ==>
        && store.rows == (if !Live(old(store.rows), p) then Insert(old(store.rows), p, (id, PhysicalPath(p, hex)), |data|, now, now, deviceId)
             else Update(old(store.rows), p, |data|, now, deviceId, if MineAt(old(store.rows), p, deviceId) then None else Some((id, PhysicalPath(p, hex)))))
        && disk == old(disk)[(if MineAt(old(store.rows), p, deviceId) then KeyOf(old(store.rows)[p]) else (id, PhysicalPath(p, hex))) := Blob(data, seal)]
      ensures r.Written? && !MineAt(old(store.rows), p, deviceId) ==> old(Roomiest(id))
      ensures !r.Written? ==> Files() == old(Files()) && store.rows == old(store.rows) && disk == old(disk)
      ensures gcNeeded == (old(gcNeeded) || (r.Written? && Foreign(old(store.rows), p)))
      ensures r == old(Outcome(p, data, seal))
    {
      hide Wired, Booked, Tied, WellPlaced, Volume, Unused, WriteLocal, Blob, Unseal, FreshSeal, Insert, Update;
      hide Verdict, Roomiest, MineAt, Live, OwnedBy, KeyOf, PhysicalPath, Foreign, Sound, Usable, Room, Growth;
      var blob := Blob(data, seal);
      var f := PhysicalPath(p, hex);
      Sealing(data, seal);
      log := LogAfter(data, seal);
      r, id := WriteBlob(p, blob, |data|, f, now, data);
      if r.Written? && deviceId.Some? {
        WritesLocally(old(store.rows), old(disk), store.rows, disk, deviceId, p, (id, f), |data|, now, blob);
      }
    }

    /** The three kinds of write. */
    method WriteBlob(p: string, blob: Bytes, size: nat, f: string, now: real, ghost data: Bytes) returns (r: WriteResult, ghost id: string)
      requires Valid() && Unused(store.rows, disk, f) && Unseal(log, encrypts, blob) == Some(data)
      modifies this`disk, this`gcNeeded, store`rows, sourceMap.Values`files, sourceMap.Values`used
      ensures Valid()
      ensures Files() == if r.Written? && (deviceId.Some? || !Foreign(old(store.rows), p)) then old(Files())[p := data] else old(Files())
      ensures r.Written? ==>
        && store.rows == (if !Live(old(store.rows), p) then Insert(old(store.rows), p, (id, f), size, now, now, deviceId)
             else Update(old(store.rows), p, size, now, deviceId, if MineAt(old(store.rows), p, deviceId) then None else Some((id, f))))
        && disk == old(disk)[(if MineAt(old(store.rows), p, deviceId) then KeyOf(old(store.rows)[p]) else (id, f)) := blob]
      ensures r.Written? && !MineAt(old(store.rows), p, deviceId) ==> old(Roomiest(id))
      ensures !r.Written? ==> store.rows == old(store.rows) && disk == old(disk)
      ensures gcNeeded == (old(gcNeeded) || (r.Written? && Foreign(old(store.rows), p)))
      ensures r == old(Verdict(p, blob))
    {
      hide Wired, Booked, Tied, WellPlaced, Volume, Unused, Unseal, Insert, Update, Verdict, Roomiest;
      id := "";
      var existing := store.Lookup(p);
      if existing.Some? {
        if existing.value.deviceId != None && existing.value.deviceId != deviceId {
          r, id := TakeoverWrite(p, blob, size, f, now, data);
        } else {
          r := Overwrite(p, blob, size, now, data);
        }
      } else {
        r, id := Create(p, blob, size, f, now, data);
      }
    }

    /** When a write goes through: a file of this device must fit where it is, any
        other needs a source with room for all of it. */
    ghost function Verdict(p: string, blob: Bytes): WriteResult
      reads this`sourceMap, this`disk, sourceMap.Values, store`rows
    {
      if MineAt(store.rows, p, deviceId) then
        var k := KeyOf(store.rows[p]);
        if !Usable(k.0) then SourceOffline else if Growth(disk, k, blob) > Room(k.0) then OutOfSpace else Written
      else if exists id :: id in sourceMap && Room(id) >= |blob| then Written
      else OutOfSpace
    }

    ghost function Outcome(p: string, data: Bytes, seal: Sealed): WriteResult
      reads this`sourceMap, this`disk, sourceMap.Values, store`rows
    {
      Verdict(p, Blob(data, seal))
    }

    /** When a write goes through, written out: sealing adds 38 bytes; a file of this
        device must find its source active and the bytes it grows by free there, any
        other an active source with room for all of it. */
    lemma OutcomeIs(p: string, data: Bytes, seal: Sealed)
      requires Valid() && (encrypts ==> FreshSeal(log, seal, data))
      ensures var size := |data| + if encrypts then 38 else 0;
        Outcome(p, data, seal) ==
          if p in store.rows && !store.rows[p].deleted && (store.rows[p].deviceId == None || store.rows[p].deviceId == deviceId) then
            var r := store.rows[p];
            if r.sourceId !in sourceMap || !sourceMap[r.sourceId].active then SourceOffline
            else
              var free := sourceMap[r.sourceId].capacity - sourceMap[r.sourceId].used;
              var held := if (r.sourceId, r.physicalPath) in disk then |disk[(r.sourceId, r.physicalPath)]| else 0;
              if size <= held || size - held <= free then Written else OutOfSpace
          else if exists id :: id in sourceMap && sourceMap[id].active && sourceMap[id].capacity - sourceMap[id].used >= size then Written
          else OutOfSpace
    {
      BlobSize(data, seal);
      hide Blob;
      if MineAt(store.rows, p, deviceId) && Usable(store.rows[p].sourceId) {
        assert sourceMap[store.rows[p].sourceId].Valid();
      }
      hide Wired, Tied, WellPlaced, FreshSeal;
      var blob := Blob(data, seal);
      assert (exists id :: id in sourceMap && sourceMap[id].active && sourceMap[id].capacity - sourceMap[id].used >= |blob|)
        <==> (exists id :: id in sourceMap && Room(id) >= |blob|);
    }

    lemma BlobSize(data: Bytes, seal: Sealed)
      requires encrypts ==> FreshSeal(log, seal, data)
      ensures |Blob(data, seal)| == |data| + if encrypts then 38 else 0
    {
      if encrypts { LayoutIs(seal, log, data); }
    }

    predicate Foreign(t: Table, p: string) {
      Live(t, p) && !OwnedBy(t[p], deviceId)
    }

    lemma Sealing(data: Bytes, seal: Sealed)
      requires Valid() && (encrypts ==> FreshSeal(log, seal, data))
      ensures WellPlaced(store.rows, disk, LogAfter(data, seal), encrypts, deviceId)
      ensures Volume(store.rows, disk, LogAfter(data, seal), encrypts, deviceId) == Files()
      ensures Unseal(LogAfter(data, seal), encrypts, Blob(data, seal)) == Some(data)
    {
      hide Placed, Cells, Places, Volume, Unseal, Layout, FreshSeal;
      assert SealedAs(log, LogAfter(data, seal), encrypts, Blob(data, seal), data);
      Reseal(store.rows, disk, log, LogAfter(data, seal), encrypts, deviceId, Blob(data, seal), data);
      SealedOpens(log, LogAfter(data, seal), encrypts, Blob(data, seal), data);
    }

    method Create(p: string, blob: Bytes, size: nat, f: string, now: real, ghost data: Bytes) returns (r: WriteResult, ghost id: string)
      requires Valid() && !Live(store.rows, p) && Unused(store.rows, disk, f) && Unseal(log, encrypts, blob) == Some(data)
      modifies this`disk, store`rows, sourceMap.Values`files, sourceMap.Values`used
      ensures Valid()
      ensures r.Written? ==> old(Roomiest(id))
      ensures r == old(Verdict(p, blob))
      ensures r.Written? ==> store.rows == Insert(old(store.rows), p, (id, f), size, now, now, deviceId) && disk == old(disk)[(id, f) := blob]
      ensures Files() == if r.Written? then old(Files())[p := data] else old(Files())
      ensures !r.Written? ==> store.rows == old(store.rows) && disk == old(disk)
    {
      hide Wired, Booked, Tied, WellPlaced, Volume, Unseal, Roomiest;
      id := "";
      var chosen := PutFresh(f, blob);
      if chosen.None? {
        return OutOfSpace, id;
      }
      id := chosen.value;
      store.Insert(p, (chosen.value, f), size, now, now, deviceId);
      Put(old(store.rows), store.rows, old(disk), log, encrypts, deviceId, p, (id, f), blob, data);
      r := Written;
    }

    method Overwrite(p: string, blob: Bytes, size: nat, now: real, ghost data: Bytes) returns (r: WriteResult)
      requires Valid() && MineAt(store.rows, p, deviceId) && Unseal(log, encrypts, blob) == Some(data)
      modifies this`disk, store`rows, sourceMap.Values`files, sourceMap.Values`used
      ensures Valid()
      ensures r == old(Verdict(p, blob))
      ensures r.Written? ==> store.rows == Update(old(store.rows), p, size, now, deviceId, None) && disk == old(disk)[KeyOf(old(store.rows)[p]) := blob]
      ensures Files() == if r.Written? then old(Files())[p := data] else old(Files())
      ensures !r.Written? ==> store.rows == old(store.rows) && disk == old(disk)
    {
      hide Booked, Tied, WellPlaced, Volume, Unseal;
      var row := store.rows[p];
      if row.sourceId !in sourceMap || !sourceMap[row.sourceId].active {
        return SourceOffline;
      }
      SizeOnDisk(row.sourceId, row.physicalPath);
      var io := PutPhysical(sourceMap[row.sourceId], row.physicalPath, blob);
      if io.Bad? {
        return OutOfSpace;
      }
      store.Update(p, size, now, deviceId, None);
      OwnPlace(old(store.rows), old(disk), p);
      Put(old(store.rows), store.rows, old(disk), log, encrypts, deviceId, p, KeyOf(row), blob, data);
      r := Written;
    }

    lemma OwnPlace(t: Table, disk: Disk, p: string)
      requires WellPlaced(t, disk, log, encrypts, deviceId) && MineAt(t, p, deviceId)
      ensures KeyOf(t[p]) in disk
      ensures forall q | q != p && MineAt(t, q, deviceId) :: KeyOf(t[q]) != KeyOf(t[p])
    {
      hide Unseal;
      var places := Places(t, deviceId);
      assert forall q | MineAt(t, q, deviceId) :: q in places && places[q] == KeyOf(t[q]);
    }

    /** `_takeover_write`: without a device id of its own, the row keeps naming the
        old owner. */
    method TakeoverWrite(p: string, blob: Bytes, size: nat, f: string, now: real, ghost data: Bytes) returns (r: WriteResult, ghost id: string)
      requires Valid() && Foreign(store.rows, p) && Unused(store.rows, disk, f) && Unseal(log, encrypts, blob) == Some(data)
      modifies this`disk, this`gcNeeded, store`rows, sourceMap.Values`files, sourceMap.Values`used
      ensures Valid()
      ensures r.Written? ==> old(Roomiest(id))
      ensures r == old(Verdict(p, blob))
      ensures r.Written? ==> store.rows == Update(old(store.rows), p, size, now, deviceId, Some((id, f))) && disk == old(disk)[(id, f) := blob]
      ensures Files() == if r.Written? && deviceId.Some? then old(Files())[p := data] else old(Files())
      ensures !r.Written? ==> store.rows == old(store.rows) && disk == old(disk)
      ensures gcNeeded == (old(gcNeeded) || r.Written?)
    {
      hide Wired, Booked, Tied, WellPlaced, Volume, Unseal, Roomiest;
      id := "";
      var chosen := PutFresh(f, blob);
      if chosen.None? {
        return OutOfSpace, id;
      }
      id := chosen.value;
      store.Update(p, size, now, deviceId, Some((chosen.value, f)));
      Put(old(store.rows), store.rows, old(disk), log, encrypts, deviceId, p, (id, f), blob, data);
      NotInVolume(old(store.rows), old(disk), p);
      gcNeeded := true;
      r := Written;
    }

    lemma NotInVolume(t: Table, disk: Disk, p: string)
      requires !MineAt(t, p, deviceId)
      ensures Volume(t, disk, log, encrypts, deviceId) - {p} == Volume(t, disk, log, encrypts, deviceId)
    {
      hide Unseal;
    }

    /** `read_file`. `remote` is what the owner's device answers, if it can be
        reached. */
    method ReadFile(p: string, remote: Option<Bytes>) returns (r: ReadResult)
      requires Valid()
      ensures !Live(store.rows, p) ==> r == NotFound
      ensures MineAt(store.rows, p, deviceId) ==>
        p in Files() && r == if Usable(store.rows[p].sourceId) then Found(Files()[p]) else Offline
      ensures Foreign(store.rows, p) ==>
        && (remote.None? ==> r == Offline)
        && (remote.Some? && !encrypts ==> r == Found(remote.value))
        && (remote.Some? && encrypts ==>
              && (forall data :: r == Found(data) <==> exists s :: s in log && log[s] == data && SameButVersion(remote.value, Layout(s)))
              && (r == Corrupt <==> forall s | s in log :: !SameButVersion(remote.value, Layout(s))))
      ensures Foreign(store.rows, p) ==> Answered(log, encrypts, remote, r)
    {
      hide Booked, Volume, Unseal, FromRemote, SameButVersion, Layout, Placed, Cells, Places, WellSealed;
      FromRemoteIs(remote);
      hide WellPlaced;
      var row := store.Lookup(p);
      if row.None? {
        return NotFound;
      }
      if row.value.deviceId == None || row.value.deviceId == deviceId {
        r := ReadLocal(p);
      } else {
        r := FromRemote(remote);
      }
    }

    function FromRemote(remote: Option<Bytes>): ReadResult
      reads this`log
    {
      if remote.None? then Offline
      else if Unseal(log, encrypts, remote.value).None? then Corrupt
      else Found(Unseal(log, encrypts, remote.value).value)
    }

    lemma FromRemoteIs(remote: Option<Bytes>)
      requires WellSealed(log)
      ensures Answered(log, encrypts, remote, FromRemote(remote))
    {
      if remote.Some? && encrypts {
        OpensIff(log, remote.value);
        hide Decrypt, SameButVersion, Layout, WellSealed;
      }
    }

    method ReadLocal(p: string) returns (r: ReadResult)
      requires Valid() && MineAt(store.rows, p, deviceId)
      ensures p in Files() && r == if Usable(store.rows[p].sourceId) then Found(Files()[p]) else Offline
    {
      hide Unseal, Booked;
      var row := store.rows[p];
      InVolume(store.rows, disk, p);
      if row.sourceId !in sourceMap || !sourceMap[row.sourceId].active {
        return Offline;
      }
      hide WellPlaced, Volume;
      assert PerSource()[row.sourceId] == sourceMap[row.sourceId].files;
      var data := sourceMap[row.sourceId].Read(row.physicalPath);
      if data.Bad? {
        return FileMissing;
      }
      var plain := Unseal(log, encrypts, data.value);
      r := if plain.None? then Corrupt else Found(plain.value);
    }

    lemma InVolume(t: Table, disk: Disk, p: string)
      requires WellPlaced(t, disk, log, encrypts, deviceId) && MineAt(t, p, deviceId)
      ensures p in Volume(t, disk, log, encrypts, deviceId) && KeyOf(t[p]) in disk
      ensures Unseal(log, encrypts, disk[KeyOf(t[p])]) == Some(Volume(t, disk, log, encrypts, deviceId)[p])
    {
      hide Unseal;
      assert Places(t, deviceId)[p] == KeyOf(t[p]);
    }

    /** `delete_file`: a file of another device is only marked. */
    method DeleteFile(p: string, now: real) returns (found: bool)
      requires Valid()
      modifies this`disk, store`rows, sourceMap.Values`files, sourceMap.Values`used
      ensures Valid()
      ensures found <==> Live(old(store.rows), p)
      ensures found ==> Files() == old(Files()) - {p} && store.rows == Rows.Delete(old(store.rows), p, now)
      ensures !found ==> store.rows == old(store.rows) && disk == old(disk)
      ensures disk == if MineAt(old(store.rows), p, deviceId) && Usable(old(store.rows)[p].sourceId)
                      then old(disk) - {KeyOf(old(store.rows)[p])} else old(disk)
      ensures found && deviceId.Some? && (MineAt(old(store.rows), p, deviceId) ==> Usable(old(store.rows)[p].sourceId)) ==>
        Local(store.rows, disk.Keys) == RemoveLocal(Local(old(store.rows), old(disk).Keys), deviceId.value, p, now)
    {
      hide Wired, Booked, Tied, WellPlaced, Volume, Usable;
      var existing := store.Lookup(p);
      if existing.None? {
        return false;
      }
      var row := existing.value;
      if row.deviceId == None || row.deviceId == deviceId {
        DeletePhysical(row.sourceId, row.physicalPath);
      }
      store.Delete(p, now);
      Removed(old(store.rows), old(disk), disk, p, now);
      found := true;
    }

    lemma Removed(t: Table, disk: Disk, disk': Disk, p: string, now: real)
      requires WellPlaced(t, disk, log, encrypts, deviceId) && Live(t, p)
      requires disk' == disk || (MineAt(t, p, deviceId) && disk' == disk - {KeyOf(t[p])})
      ensures WellPlaced(Rows.Delete(t, p, now), disk', log, encrypts, deviceId)
      ensures Volume(Rows.Delete(t, p, now), disk', log, encrypts, deviceId) == Volume(t, disk, log, encrypts, deviceId) - {p}
    {
      var t' := Rows.Delete(t, p, now);
      PlacesOnDisk(t, disk, log, encrypts, deviceId);
      if MineAt(t, p, deviceId) { OwnPlace(t, disk, p); }
      hide WellPlaced, Volume, Unseal;
      assert Keeps(t', deviceId, disk, disk') by { KeptAfterDelete(t, disk, disk', p, now); }
      Drop(t, t', disk, disk', log, encrypts, deviceId, p);
    }

    lemma KeptAfterDelete(t: Table, disk: Disk, disk': Disk, p: string, now: real)
      requires Live(t, p) && (forall q | q in Places(t, deviceId) :: Places(t, deviceId)[q] in disk)
      requires disk' == disk || disk' == disk - {KeyOf(t[p])}
      requires MineAt(t, p, deviceId) || disk' == disk
      requires MineAt(t, p, deviceId) ==> forall q | q != p && MineAt(t, q, deviceId) :: KeyOf(t[q]) != KeyOf(t[p])
      ensures Keeps(Rows.Delete(t, p, now), deviceId, disk, disk')
    {
      PlacesStep(t, Rows.Delete(t, p, now), deviceId, p);
    }

    /** `move_file`: only the row moves. The destination must not have a row, not
        even that of a deleted file. */
    method MoveFile(src: string, dst: string) returns (ok: bool)
      requires Valid()
      modifies store`rows
      ensures Valid()
      ensures ok <==> Live(old(store.rows), src) && (dst == src || dst !in old(store.rows))
      ensures Files() == if ok then MoveKey(old(Files()), src, dst) else old(Files())
      ensures store.rows == if ok then MoveKey(old(store.rows), src, dst) else old(store.rows)
    {
      hide Wired, Booked, Tied, WellPlaced, Volume;
      var existing := store.Lookup(src);
      if existing.None? {
        return false;
      }
      ok := store.RenamePath(src, dst);
      if ok {
        Rename(old(store.rows), src, dst, disk, log, encrypts, deviceId);
      }
    }

    /** `copy_file`: a read and a write. */
    method CopyFile(src: string, dst: string, remote: Option<Bytes>, hex: string, seals: Bytes -> Sealed, now: real)
        returns (read: ReadResult, r: Option<WriteResult>)
      requires Valid() && Unused(store.rows, disk, PhysicalPath(dst, hex))
      requires encrypts ==> forall data :: FreshSeal(log, seals(data), data)
      modifies this`disk, this`log, this`gcNeeded, store`rows, sourceMap.Values`files, sourceMap.Values`used
      ensures Valid()
      ensures r.Some? <==> read.Found?
      ensures !Live(old(store.rows), src) ==> read == NotFound
      ensures MineAt(old(store.rows), src, deviceId) ==>
        src in old(Files()) && read == if Usable(old(store.rows)[src].sourceId) then Found(old(Files())[src]) else Offline
      ensures Foreign(old(store.rows), src) ==> Answered(old(log), encrypts, remote, read)
      ensures r == Some(Written) && deviceId.Some? ==> read.Found? && Files() == old(Files())[dst := read.data]
      ensures r != Some(Written) ==> Files() == old(Files()) && store.rows == old(store.rows) && disk == old(disk)
      ensures read.Found? ==> var seal := seals(read.data); r == Some(old(Outcome(dst, read.data, seal)))
    {
      hide Wired, Booked, Tied, WellPlaced, Volume, Unused, WriteLocal, FreshSeal, SameButVersion, Layout, Outcome;
      read := ReadFile(src, remote);
      if !read.Found? {
        return read, None;
      }
      var written, _ := WriteFile(dst, read.data, hex, seals(read.data), now);
      r := Some(written);
    }

    method CollectFile(id: string, f: string, live: set<Key>) returns (n: nat)
      requires Sound() && Usable(id)
      modifies this`disk, sourceMap.Values`files, sourceMap.Values`used
      ensures Sound() && disk == if Goes(live, id, f) then old(disk) - {(id, f)} else old(disk)
      ensures n == if Goes(live, id, f) then 1 else 0
    {
      hide Wired, Booked, Tied, PerSource, Managed;
      n := 0;
      if Managed(f) && (id, f) !in live {
        DeletePhysical(id, f);
        n := 1;
      }
    }

    /** One source of `gc_orphan_files`. */
    method CollectSource(id: string, device: string, live: set<Key>) returns (removed: nat)
      requires Sound() && id in sourceMap && live == LivePhysical(store.rows, device)
      modifies this`disk, sourceMap.Values`files, sourceMap.Values`used
      ensures Sound() && removed == |old(disk)| - |disk|
      ensures disk == if Usable(id) then Collected(store.rows, device, {id}, old(disk)) else old(disk)
    {
      hide Wired, Booked, Tied, PerSource, Collected, Swept, LivePhysical, Managed, TopLevel, Goes;
      if !sourceMap[id].active {
        return 0;
      }
      Listed(id);
      var names := sourceMap[id].ListPhysicalFiles();
      SweptAll(store.rows, device, id, names.value, disk);
      removed := CollectFiles(id, names.value, live);
    }

    method CollectFiles(id: string, names: set<string>, live: set<Key>) returns (removed: nat)
      requires Sound() && Usable(id) && forall f | f in names :: (id, f) in disk
      modifies this`disk, sourceMap.Values`files, sourceMap.Values`used
      ensures Sound() && removed == |old(disk)| - |disk| && disk == Swept(live, id, names, old(disk))
    {
      hide Wired, Booked, Tied, PerSource, Swept, Goes, Usable;
      removed := 0;
      SweptNone(live, id, disk);
      var rest := names;
      ghost var done: set<string> := {};
      while rest != {}
        invariant Sound() && Usable(id) && done + rest == names && done !! rest
        invariant disk == Swept(live, id, done, old(disk))
        invariant removed == |old(disk)| - |disk|
        decreases |rest|
      {
        var f :| f in rest;
        SweptStep(live, id, done, f, old(disk));
        var n := CollectFile(id, f, live);
        removed := removed + n;
        rest, done := rest - {f}, done + {f};
      }
    }

    lemma Listed(id: string)
      requires Sound() && id in sourceMap
      ensures forall f :: f in sourceMap[id].files <==> (id, f) in disk
    {
      assert PerSource()[id] == sourceMap[id].files;
    }

    ghost function UsableIds(ids: seq<string>): set<string>
      reads this`sourceMap, sourceMap.Values`active
    {
      set id | id in ids && Usable(id)
    }

    lemma UsableMeans()
      requires Wired()
      ensures forall id :: id in UsableIds(order) <==> id in sourceMap && sourceMap[id].active
    {
    }

    lemma UsableNone()
      ensures UsableIds(order[..0]) == {} && UsableIds([]) == {}
    {
    }

    lemma UsableStep(i: nat)
      requires i < |order|
      ensures UsableIds(order[..i + 1]) == UsableIds(order[..i]) + if Usable(order[i]) then {order[i]} else {}
      ensures UsableIds(order[..i]) + {} == UsableIds(order[..i])
    {
      assert order[..i + 1] == order[..i] + [order[i]];
    }

    method CollectSources(device: string) returns (removed: nat)
      requires Sound()
      modifies this`disk, sourceMap.Values`files, sourceMap.Values`used
      ensures Sound() && removed == |old(disk)| - |disk|
      ensures disk == Collected(store.rows, device, UsableIds(order), old(disk))
    {
      hide Booked, Tied, PerSource, Collected, LivePhysical, Usable, UsableIds;
      removed := 0;
      UsableNone();
      var live := store.LivePhysicalPathsForDevice(device);
      CollectedStep(store.rows, device, {}, "", disk);
      for i := 0 to |order|
        invariant Sound()
        invariant disk == Collected(store.rows, device, UsableIds(order[..i]), old(disk))
        invariant removed == |old(disk)| - |disk|
      {
        var n := CollectSource(order[i], device, live);
        CollectedStep(store.rows, device, UsableIds(order[..i]), order[i], old(disk));
        UsableStep(i);
        removed := removed + n;
      }
      assert order[..|order|] == order;
    }

    lemma CollectionIsSafe(device: string, usable: set<string>)
      requires Valid() && deviceId == Some(device)
      ensures WellPlaced(store.rows, Collected(store.rows, device, usable, disk), log, encrypts, deviceId)
      ensures Volume(store.rows, Collected(store.rows, device, usable, disk), log, encrypts, deviceId) == Files()
    {
      CollectionIsSafeAndExact(store.rows, device, usable, disk, log, encrypts);
    }

    /** `gc_orphan_files`: without a device id nothing is collected. */
    method GcOrphanFiles() returns (removed: nat)
      requires Sound()
      modifies this`disk, sourceMap.Values`files, sourceMap.Values`used
      ensures Sound() && removed == |old(disk)| - |disk|
      ensures old(Valid()) ==> Valid() && Files() == old(Files())
      ensures disk == if deviceId.None? then old(disk) else Collected(store.rows, deviceId.value, UsableIds(order), old(disk))
      ensures forall k | k in disk :: k in old(disk) && disk[k] == old(disk)[k]
      ensures forall k: Key | k in old(disk) :: k !in disk <==>
        && deviceId.Some? && k.0 in sourceMap && sourceMap[k.0].active
        && '/' !in k.1 && |k.1| > 32 && k.1[32] == '_' && (forall i | 0 <= i < 32 :: '0' <= k.1[i] <= '9' || 'a' <= k.1[i] <= 'f')
        && forall p | p in store.rows && !store.rows[p].deleted && (store.rows[p].deviceId == None || store.rows[p].deviceId == deviceId)
             :: (store.rows[p].sourceId, store.rows[p].physicalPath) != k
    {
      hide Wired, Booked, Tied, PerSource, WellPlaced, Volume, Collected, Usable, UsableIds;
      if deviceId.Some? { CollectedIs(store.rows, deviceId.value, UsableIds(order), disk); }
      UsableMeans();
      hide Sound, Valid, Files;
      removed := CollectOrphans();
    }

    method CollectOrphans() returns (removed: nat)
      requires Sound()
      modifies this`disk, sourceMap.Values`files, sourceMap.Values`used
      ensures Sound() && removed == |old(disk)| - |disk|
      ensures old(Valid()) ==> Valid() && Files() == old(Files())
      ensures disk == if deviceId.None? then old(disk) else Collected(store.rows, deviceId.value, UsableIds(order), old(disk))
    {
      hide Sound, WellPlaced, Volume, Collected, Usable, UsableIds;
      if deviceId.None? {
        return 0;
      }
      if Valid() {
        CollectionIsSafe(deviceId.value, UsableIds(order));
      }
      removed := CollectSources(deviceId.value);
    }

    /** `gc_orphan_files_if_needed`: one scan per flag. */
    method GcOrphanFilesIfNeeded() returns (removed: nat)
      requires Sound()
      modifies this`disk, this`gcNeeded, sourceMap.Values`files, sourceMap.Values`used
      ensures Sound() && !gcNeeded && removed == |old(disk)| - |disk|
      ensures old(Valid()) ==> Valid() && Files() == old(Files())
      ensures disk == if deviceId.None? || !old(gcNeeded) then old(disk) else Collected(store.rows, deviceId.value, UsableIds(order), old(disk))
    {
      if !gcNeeded {
        return 0;
      }
      gcNeeded := false;
      removed := GcOrphanFiles();
    }
  }
}
