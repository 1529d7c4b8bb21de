/** `stardustlib/replication_manager.py`: replicate, recover and heal. The server
    and the holders are the object's environment; who answers and who accepts is
    left open. Identifiers are collision-free: a chunk is its file and index. */
module Replication {
  import opened Rows
  import opened Numbers
  import opened Crypto
  import opened Chunker
  import opened Generations

  datatype ChunkId = ChunkId(file: string, idx: int)

  /** One entry of a replica or placement listing. */
  datatype Holder = Holder(device: string, hasAddress: bool, online: Option<bool>)

  predicate Online(h: Holder) {
    h.online != Some(false) && h.hasAddress
  }

  function Devices(hs: seq<Holder>): set<string> {
    set i | 0 <= i < |hs| :: hs[i].device
  }

  function OnlineHolders(hs: seq<Holder>): seq<Holder> {
    if hs == [] then []
    else if Online(hs[0]) then [hs[0]] + OnlineHolders(hs[1..])
    else OnlineHolders(hs[1..])
  }

  /** The holders not known to be offline, with or without an address. */
  function NotOffline(hs: seq<Holder>): seq<Holder> {
    if hs == [] then []
    else if hs[0].online != Some(false) then [hs[0]] + NotOffline(hs[1..])
    else NotOffline(hs[1..])
  }

  /** Positions of the holders healing counts as online, and of those a health check
      counts. */
  function OnlineAt(hs: seq<Holder>): set<int> {
    set i | 0 <= i < |hs| && hs[i].online != Some(false) && hs[i].hasAddress
  }

  function NotOfflineAt(hs: seq<Holder>): set<int> {
    set i | 0 <= i < |hs| && hs[i].online != Some(false)
  }

  lemma {:induction false} OnlineSnoc(hs: seq<Holder>, h: Holder)
    ensures OnlineHolders(hs + [h]) == OnlineHolders(hs) + (if h.online != Some(false) && h.hasAddress then [h] else [])
    ensures NotOffline(hs + [h]) == NotOffline(hs) + (if h.online != Some(false) then [h] else [])
  {
    if hs == [] {
      assert [] + [h] == [h];
    } else {
      assert (hs + [h])[1..] == hs[1..] + [h];
      OnlineSnoc(hs[1..], h);
    }
  }

  lemma OnlineAtSnoc(hs: seq<Holder>, h: Holder)
    ensures OnlineAt(hs + [h]) == OnlineAt(hs) + (if h.online != Some(false) && h.hasAddress then {|hs|} else {})
    ensures NotOfflineAt(hs + [h]) == NotOfflineAt(hs) + (if h.online != Some(false) then {|hs|} else {})
    ensures |hs| !in OnlineAt(hs) && |hs| !in NotOfflineAt(hs)
  {
  }

  lemma NobodyOnline()
    ensures OnlineHolders([]) == [] && NotOffline([]) == [] && OnlineAt([]) == {} && NotOfflineAt([]) == {}
  {
  }

  lemma {:induction false} OnlineCount(hs: seq<Holder>)
    ensures |OnlineHolders(hs)| == |OnlineAt(hs)| && |NotOffline(hs)| == |NotOfflineAt(hs)|
  {
    hide OnlineHolders, NotOffline, OnlineAt, NotOfflineAt;
    if hs == [] {
      NobodyOnline();
    } else {
      var n := |hs| - 1;
      var before, h := hs[..n], hs[n];
      assert hs == before + [h];
      OnlineCount(before);
      OnlineSnoc(before, h);
      OnlineAtSnoc(before, h);
    }
  }

  lemma {:induction false} OnlineElements(hs: seq<Holder>)
    ensures forall h :: h in OnlineHolders(hs) <==> h in hs && h.online != Some(false) && h.hasAddress
  {
    if hs != [] {
      OnlineElements(hs[1..]);
      assert forall h :: h in hs <==> h == hs[0] || h in hs[1..];
    }
  }

  /** Holders that a health check counts and healing does not. */
  function Addressless(hs: seq<Holder>): nat {
    if hs == [] then 0
    else Addressless(hs[1..]) + if hs[0].online != Some(false) && !hs[0].hasAddress then 1 else 0
  }

  lemma {:induction false} AddresslessIs(hs: seq<Holder>)
    ensures |NotOffline(hs)| == |OnlineHolders(hs)| + Addressless(hs)
    ensures Addressless(hs) == 0 <==> forall h | h in hs && h.online != Some(false) :: h.hasAddress
  {
    if hs != [] {
      AddresslessIs(hs[1..]);
      assert forall h :: h in hs <==> h == hs[0] || h in hs[1..];
    }
  }

  /** The listing without some devices, in order. */
  function Without(hs: seq<Holder>, exclude: set<string>): seq<Holder> {
    if hs == [] then []
    else if hs[0].device in exclude then Without(hs[1..], exclude)
    else [hs[0]] + Without(hs[1..], exclude)
  }

  lemma {:induction false} WithoutFacts(hs: seq<Holder>, exclude: set<string>)
    ensures Devices(Without(hs, exclude)) == Devices(hs) - exclude
    ensures Distinct(hs) ==> Distinct(Without(hs, exclude))
  {
    if hs != [] {
      WithoutFacts(hs[1..], exclude);
      ConsDevices(hs[0], hs[1..]);
      assert hs == [hs[0]] + hs[1..];
      ConsDevices(hs[0], Without(hs[1..], exclude));
      if Distinct(hs) {
        assert hs[0].device !in Devices(hs[1..]);
        assert forall h | h in Without(hs[1..], exclude) :: h.device in Devices(Without(hs[1..], exclude));
      }
    }
  }

  /** The order is kept: who is left and stands before one of the first `n` is one of
      them too. */
  lemma {:induction false} WithoutInOrder(hs: seq<Holder>, exclude: set<string>, n: nat, j: nat, k: nat)
    requires Distinct(hs) && n <= |Without(hs, exclude)| && j < k < |hs|
    requires hs[j].device !in exclude && hs[k].device in Devices(Without(hs, exclude)[..n])
    ensures hs[j].device in Devices(Without(hs, exclude)[..n])
  {
    var rest := Without(hs[1..], exclude);
    if hs[0].device in exclude {
      WithoutInOrder(hs[1..], exclude, n, j - 1, k - 1);
    } else {
      assert n > 0;
      assert ([hs[0]] + rest)[..n] == [hs[0]] + rest[..n - 1];
      ConsDevices(hs[0], rest[..n - 1]);
      if j > 0 { WithoutInOrder(hs[1..], exclude, n - 1, j - 1, k - 1); }
    }
  }

  lemma ConsDevices(h: Holder, hs: seq<Holder>)
    ensures Devices([h] + hs) == {h.device} + Devices(hs)
  {
    forall d | d in Devices(hs) ensures d in Devices([h] + hs) {
      var i :| 0 <= i < |hs| && hs[i].device == d;
      assert ([h] + hs)[i + 1] == hs[i];
    }
    assert ([h] + hs)[0] == h;
  }

  predicate Distinct(hs: seq<Holder>) {
    forall i, j | 0 <= i < j < |hs| :: hs[i].device != hs[j].device
  }

  predicate NoRepeats(xs: seq<int>) {
    forall i, j | 0 <= i < j < |xs| :: xs[i] != xs[j]
  }

  datatype RecoverError = NothingRegistered | Missing(chunks: seq<ChunkId>) | Undecryptable(error: DecryptError)

  datatype Recovered = Recovered(data: Bytes) | Failure(error: RecoverError)

  datatype HealthSummary = HealthSummary(degraded: bool, chunkCount: nat, minOnline: nat)

  datatype HealReport = HealReport(replicated: bool, chunkCount: nat, repaired: nat, unrecoverable: seq<ChunkId>)

  function ListedIn(replicas: map<ChunkId, seq<Holder>>, id: ChunkId): seq<Holder> {
    if id in replicas then replicas[id] else []
  }

  function RunsIn(runs: map<string, set<Sealed>>, file: string): set<Sealed> {
    if file in runs then runs[file] else {}
  }

  ghost predicate ListingsOk(chunks: map<string, seq<int>>, replicas: map<ChunkId, seq<Holder>>) {
    && (forall id | id in replicas :: Distinct(replicas[id]))
    && (forall f | f in chunks :: NoRepeats(chunks[f]) && (chunks[f] != [] ==> 0 in chunks[f]))
  }

  /** Holders keep, under a chunk's identifier, that chunk of some run of its
      file; a listed holder keeps something. */
  ghost predicate HoldersOk(size: nat, log: SealLog, runs: map<string, set<Sealed>>, replicas: map<ChunkId, seq<Holder>>,
                            blobs: map<(string, ChunkId), Bytes>)
    requires size > 0
  {
    && WellSealed(log)
    && (forall f | f in runs :: runs[f] <= log.Keys)
    && (forall k | k in blobs :: ChunkOfSome(RunsIn(runs, k.1.file), size, k.1.idx, blobs[k]))
    && (forall id, d | id in replicas && d in Devices(replicas[id]) :: (d, id) in blobs)
  }

  lemma StoreOk(size: nat, log: SealLog, runs: map<string, set<Sealed>>, replicas: map<ChunkId, seq<Holder>>,
                blobs: map<(string, ChunkId), Bytes>, d: string, id: ChunkId, data: Bytes)
    requires size > 0 && HoldersOk(size, log, runs, replicas, blobs) && ChunkOfSome(RunsIn(runs, id.file), size, id.idx, data)
    ensures HoldersOk(size, log, runs, replicas, blobs[(d, id) := data])
  {
    hide ChunkOfSome;
  }

  lemma RecordOk(size: nat, log: SealLog, runs: map<string, set<Sealed>>, chunks: map<string, seq<int>>,
                 replicas: map<ChunkId, seq<Holder>>, blobs: map<(string, ChunkId), Bytes>, id: ChunkId, h: Holder)
    requires size > 0 && HoldersOk(size, log, runs, replicas, blobs) && ListingsOk(chunks, replicas)
    requires (h.device, id) in blobs && h.device !in Devices(ListedIn(replicas, id))
    ensures var replicas' := replicas[id := ListedIn(replicas, id) + [h]];
      HoldersOk(size, log, runs, replicas', blobs) && ListingsOk(chunks, replicas')
    ensures Devices(ListedIn(replicas, id) + [h]) == Devices(ListedIn(replicas, id)) + {h.device}
  {
    hide ChunkOfSome;
    var hs := ListedIn(replicas, id);
    AppendDevices(hs, h);
    forall i | 0 <= i < |hs| ensures hs[i].device in Devices(hs) {
    }
    assert Distinct(hs + [h]);
  }

  /** Exactly the devices `gained` were added to the holders of the chunk, and
      they keep `data`; other chunks and earlier holders are as before. */
  ghost predicate Spreads(r0: map<ChunkId, seq<Holder>>, b0: map<(string, ChunkId), Bytes>,
                          r1: map<ChunkId, seq<Holder>>, b1: map<(string, ChunkId), Bytes>,
                          id: ChunkId, data: Bytes, gained: set<string>)
  {
    && (forall id' | id' != id :: ListedIn(r1, id') == ListedIn(r0, id'))
    && Devices(ListedIn(r1, id)) == Devices(ListedIn(r0, id)) + gained
    && gained !! Devices(ListedIn(r0, id))
    && (forall k | k in b0 && (k.1 != id || k.0 in Devices(ListedIn(r0, id))) :: k in b1 && b1[k] == b0[k])
    && (forall d | d in gained :: (d, id) in b1 && b1[(d, id)] == data)
  }

  /** One push: a positive answer means the device is on record and keeps `data`. */
  ghost predicate Pushed(r0: map<ChunkId, seq<Holder>>, b0: map<(string, ChunkId), Bytes>,
                         r1: map<ChunkId, seq<Holder>>, b1: map<(string, ChunkId), Bytes>,
                         id: ChunkId, data: Bytes, d: string, ok: bool)
  {
    && (forall id' | id' != id :: ListedIn(r1, id') == ListedIn(r0, id'))
    && (b1 == b0[(d, id) := data] || (!ok && b1 == b0))
    && Devices(ListedIn(r1, id)) == Devices(ListedIn(r0, id)) + if ok then {d} else {}
  }

  lemma PushSpreads(r0: map<ChunkId, seq<Holder>>, b0: map<(string, ChunkId), Bytes>,
                    r1: map<ChunkId, seq<Holder>>, b1: map<(string, ChunkId), Bytes>,
                    id: ChunkId, data: Bytes, d: string, ok: bool)
    requires Pushed(r0, b0, r1, b1, id, data, d, ok) && d !in Devices(ListedIn(r0, id))
    ensures Spreads(r0, b0, r1, b1, id, data, if ok then {d} else {})
  {
    hide Devices;
  }

  /** The devices on record for the chunk that keep exactly `data`. */
  function HoldersWith(r: map<ChunkId, seq<Holder>>, b: map<(string, ChunkId), Bytes>, id: ChunkId, data: Bytes): set<string> {
    set d | d in Devices(ListedIn(r, id)) && (d, id) in b && b[(d, id)] == data
  }

  lemma PushHolders(r0: map<ChunkId, seq<Holder>>, b0: map<(string, ChunkId), Bytes>,
                    r1: map<ChunkId, seq<Holder>>, b1: map<(string, ChunkId), Bytes>,
                    id: ChunkId, data: Bytes, d: string, ok: bool)
    requires Pushed(r0, b0, r1, b1, id, data, d, ok)
    ensures HoldersWith(r0, b0, id, data) <= HoldersWith(r1, b1, id, data)
    ensures ok ==> d in HoldersWith(r1, b1, id, data)
    ensures forall id', x | id' != id :: HoldersWith(r1, b1, id', x) == HoldersWith(r0, b0, id', x)
  {
    hide Devices;
  }

  lemma SpreadsNothing(r: map<ChunkId, seq<Holder>>, b: map<(string, ChunkId), Bytes>, id: ChunkId, data: Bytes)
    ensures Spreads(r, b, r, b, id, data, {})
  {
  }

  lemma SpreadListing(r0: map<ChunkId, seq<Holder>>, b0: map<(string, ChunkId), Bytes>,
                      r1: map<ChunkId, seq<Holder>>, b1: map<(string, ChunkId), Bytes>,
                      id: ChunkId, data: Bytes, gained: set<string>)
    requires Spreads(r0, b0, r1, b1, id, data, gained)
    ensures Devices(ListedIn(r1, id)) == Devices(ListedIn(r0, id)) + gained
  {
  }

  lemma SpreadsTwice(r0: map<ChunkId, seq<Holder>>, b0: map<(string, ChunkId), Bytes>,
                     r1: map<ChunkId, seq<Holder>>, b1: map<(string, ChunkId), Bytes>,
                     r2: map<ChunkId, seq<Holder>>, b2: map<(string, ChunkId), Bytes>,
                     id: ChunkId, data: Bytes, g1: set<string>, g2: set<string>)
    requires Spreads(r0, b0, r1, b1, id, data, g1) && Spreads(r1, b1, r2, b2, id, data, g2)
    ensures Spreads(r0, b0, r2, b2, id, data, g1 + g2)
  {
    hide Devices;
  }

  /** Holders on record stay on record and keep what they had. */
  ghost predicate HoldersKeep(r0: map<ChunkId, seq<Holder>>, b0: map<(string, ChunkId), Bytes>,
                              r1: map<ChunkId, seq<Holder>>, b1: map<(string, ChunkId), Bytes>)
  {
    && (forall id :: Devices(ListedIn(r0, id)) <= Devices(ListedIn(r1, id)))
    && (forall k | k in b0 && k.0 in Devices(ListedIn(r0, k.1)) :: k in b1 && b1[k] == b0[k])
  }

  lemma KeepReflexive(r: map<ChunkId, seq<Holder>>, b: map<(string, ChunkId), Bytes>)
    ensures HoldersKeep(r, b, r, b)
  {
  }

  lemma KeepSpread(r0: map<ChunkId, seq<Holder>>, b0: map<(string, ChunkId), Bytes>,
                   r1: map<ChunkId, seq<Holder>>, b1: map<(string, ChunkId), Bytes>,
                   r2: map<ChunkId, seq<Holder>>, b2: map<(string, ChunkId), Bytes>, id: ChunkId, gained: set<string>)
    requires HoldersKeep(r0, b0, r1, b1) && exists data :: Spreads(r1, b1, r2, b2, id, data, gained)
    ensures HoldersKeep(r0, b0, r2, b2)
  {
    hide Devices;
  }

  /** The chunk gained only devices that held no replica, never more than were
      missing, and is healthy exactly when its online holders now suffice. */
  ghost predicate Healed(r0: map<ChunkId, seq<Holder>>, r1: map<ChunkId, seq<Holder>>, id: ChunkId, self: string,
                         minReplicas: nat, healthy: bool)
  {
    var gained, online := Devices(ListedIn(r1, id)) - Devices(ListedIn(r0, id)), |OnlineHolders(ListedIn(r0, id))|;
    && self !in gained && Devices(ListedIn(r0, id)) <= Devices(ListedIn(r1, id))
    && (healthy <==> online + |gained| >= minReplicas)
    && (gained != {} ==> online + |gained| <= minReplicas)
  }

  lemma HealedNow(r0: map<ChunkId, seq<Holder>>, r1: map<ChunkId, seq<Holder>>, b1: map<(string, ChunkId), Bytes>,
                  r2: map<ChunkId, seq<Holder>>, b2: map<(string, ChunkId), Bytes>, id: ChunkId, self: string,
                  minReplicas: nat, healthy: bool, added: nat, gained: set<string>)
    requires ListedIn(r1, id) == ListedIn(r0, id) && exists data :: Spreads(r1, b1, r2, b2, id, data, gained)
    requires |gained| == added && self !in gained
    requires var online := |OnlineHolders(ListedIn(r1, id))|;
      (healthy <==> online + added >= minReplicas) && (added > 0 ==> online + added <= minReplicas)
    ensures Healed(r0, r2, id, self, minReplicas, healthy)
  {
    hide Devices;
    assert Devices(ListedIn(r2, id)) - Devices(ListedIn(r0, id)) == gained;
  }

  lemma HealedElsewhere(r0: map<ChunkId, seq<Holder>>, r1: map<ChunkId, seq<Holder>>, r2: map<ChunkId, seq<Holder>>,
                        other: ChunkId, self: string, minReplicas: nat, healthy: bool)
    requires ListedIn(r2, other) == ListedIn(r1, other)
    requires Healed(r0, r1, other, self, minReplicas, healthy)
    ensures Healed(r0, r2, other, self, minReplicas, healthy)
  {
    hide Devices;
  }

  lemma SpreadElsewhere(r1: map<ChunkId, seq<Holder>>, b1: map<(string, ChunkId), Bytes>,
                        r2: map<ChunkId, seq<Holder>>, b2: map<(string, ChunkId), Bytes>, id: ChunkId, gained: set<string>)
    requires exists data :: Spreads(r1, b1, r2, b2, id, data, gained)
    ensures forall other | other != id :: ListedIn(r2, other) == ListedIn(r1, other)
  {
  }

  /** The first `n` listed chunks are healed as `bad` says. */
  ghost predicate HealedUpTo(r0: map<ChunkId, seq<Holder>>, r1: map<ChunkId, seq<Holder>>, file: string, infos: seq<int>, n: nat,
                             self: string, minReplicas: nat, bad: seq<ChunkId>)
    requires n <= |infos|
  {
    && (forall i | 0 <= i < n :: Healed(r0, r1, ChunkId(file, infos[i]), self, minReplicas, ChunkId(file, infos[i]) !in bad))
    && (forall id :: id in bad ==> exists i :: 0 <= i < n && id == ChunkId(file, infos[i]))
  }

  lemma HealedMeans(r0: map<ChunkId, seq<Holder>>, r1: map<ChunkId, seq<Holder>>, file: string, infos: seq<int>,
                    self: string, minReplicas: nat, bad: seq<ChunkId>)
    requires HealedUpTo(r0, r1, file, infos, |infos|, self, minReplicas, bad)
    ensures bad == [] <==> forall i | 0 <= i < |infos| :: Healed(r0, r1, ChunkId(file, infos[i]), self, minReplicas, true)
  {
    if bad != [] {
      assert bad[0] in bad;
      var i :| 0 <= i < |infos| && bad[0] == ChunkId(file, infos[i]);
      assert !Healed(r0, r1, ChunkId(file, infos[i]), self, minReplicas, true);
    }
  }

  lemma HealedNext(r0: map<ChunkId, seq<Holder>>, r1: map<ChunkId, seq<Holder>>, r2: map<ChunkId, seq<Holder>>, file: string,
                   infos: seq<int>, n: nat, self: string, minReplicas: nat, bad: seq<ChunkId>, healthy: bool)
    requires n < |infos| && NoRepeats(infos) && HealedUpTo(r0, r1, file, infos, n, self, minReplicas, bad)
    requires forall other | other != ChunkId(file, infos[n]) :: ListedIn(r2, other) == ListedIn(r1, other)
    requires Healed(r0, r2, ChunkId(file, infos[n]), self, minReplicas, healthy)
    ensures HealedUpTo(r0, r2, file, infos, n + 1, self, minReplicas, if healthy then bad else bad + [ChunkId(file, infos[n])])
  {
    hide Healed, ListedIn;
    var id := ChunkId(file, infos[n]);
    var bad' := if healthy then bad else bad + [id];
    assert forall i | 0 <= i < n :: id != ChunkId(file, infos[i]);
    forall x ensures x in bad' <==> x in bad || (!healthy && x == id) {
      assert !healthy ==> bad'[|bad|] == id;
    }
    forall x | x in bad' ensures exists i :: 0 <= i < n + 1 && x == ChunkId(file, infos[i]) {
      if x in bad { var i :| 0 <= i < n && x == ChunkId(file, infos[i]); }
    }
    forall i | 0 <= i < n + 1
      ensures Healed(r0, r2, ChunkId(file, infos[i]), self, minReplicas, ChunkId(file, infos[i]) !in bad')
    {
      if i < n {
        HealedElsewhere(r0, r1, r2, ChunkId(file, infos[i]), self, minReplicas, ChunkId(file, infos[i]) !in bad);
      }
    }
  }

  /** Each count is backed by devices on record that keep that chunk's bytes. */
  ghost predicate CountsBacked(r: map<ChunkId, seq<Holder>>, b: map<(string, ChunkId), Bytes>, file: string, parts: seq<Part>, counts: seq<nat>) {
    |counts| <= |parts| && forall i | 0 <= i < |counts| :: counts[i] <= |HoldersWith(r, b, ChunkId(file, i), parts[i].data)|
  }

  lemma NothingCounted(r: map<ChunkId, seq<Holder>>, b: map<(string, ChunkId), Bytes>, file: string, parts: seq<Part>)
    ensures CountsBacked(r, b, file, parts, [])
  {
  }

  lemma OneMoreCounted(r0: map<ChunkId, seq<Holder>>, b0: map<(string, ChunkId), Bytes>,
                       r1: map<ChunkId, seq<Holder>>, b1: map<(string, ChunkId), Bytes>,
                       file: string, parts: seq<Part>, counts: seq<nat>, placed: nat)
    requires CountsBacked(r0, b0, file, parts, counts) && |counts| < |parts|
    requires var id := ChunkId(file, |counts|);
      && placed <= |HoldersWith(r1, b1, id, parts[|counts|].data)|
      && forall id', x | id' != id :: HoldersWith(r1, b1, id', x) == HoldersWith(r0, b0, id', x)
    ensures CountsBacked(r1, b1, file, parts, counts + [placed])
  {
    hide HoldersWith;
  }

  lemma SubsetSize(a: set<string>, b: set<string>)
    requires a <= b
    ensures |a| <= |b|
  {
    assert b == a + (b - a);
  }

  lemma SubsetEqual(a: set<string>, b: set<string>)
    requires a <= b && |a| == |b|
    ensures a == b
  {
    assert b == a + (b - a);
  }

  function Upto(n: nat): seq<int> {
    seq(n, i => i)
  }

  lemma UptoIsListing(n: nat)
    ensures IsListingOf(Upto(n), n)
    ensures forall m: nat :: m !in Upto(m) && Upto(m) + [m] == Upto(m + 1)
  {
    forall k | 0 <= k < n ensures k in Upto(n) {
      assert Upto(n)[k] == k;
    }
  }

  lemma NewRunOk(size: nat, log: SealLog, runs: map<string, set<Sealed>>, replicas: map<ChunkId, seq<Holder>>,
                 blobs: map<(string, ChunkId), Bytes>, file: string, seal: Sealed, plaintext: Bytes)
    requires size > 0 && HoldersOk(size, log, runs, replicas, blobs) && FreshSeal(log, seal, plaintext)
    ensures HoldersOk(size, log[seal := plaintext], runs[file := RunsIn(runs, file) + {seal}], replicas, blobs)
  {
    var runs' := runs[file := RunsIn(runs, file) + {seal}];
    assert WellSealed(log[seal := plaintext]);
    hide ChunkOfSome, WellSealed, FreshSeal, Devices;
    forall k | k in blobs ensures ChunkOfSome(RunsIn(runs', k.1.file), size, k.1.idx, blobs[k]) {
      MoreRuns(RunsIn(runs, k.1.file), RunsIn(runs', k.1.file), size, k.1.idx, blobs[k]);
    }
  }

  lemma MoreRuns(runs: set<Sealed>, runs': set<Sealed>, size: nat, idx: int, data: Bytes)
    requires size > 0 && ChunkOfSome(runs, size, idx, data) && runs <= runs'
    ensures ChunkOfSome(runs', size, idx, data)
  {
    hide ChunkOf;
    var g :| g in runs && ChunkOf(g, size, idx, data);
    assert g in runs';
  }

  lemma ChunkIsOfRun(runs: set<Sealed>, seal: Sealed, size: nat, parts: seq<Part>, n: nat)
    requires size > 0 && seal in runs && parts == SplitFrom(Layout(seal), size, 0) && n < |parts|
    ensures ChunkOfSome(runs, size, n, parts[n].data)
  {
    assert ChunkOf(seal, size, n, parts[n].data);
  }

  /** At least 22 bytes, so that the IV lies in the first chunk. */
  type ChunkSize = n: nat | n >= 22 witness 22

  class ReplicationManager {
    const chunkSize: ChunkSize
    const self: string
    var minReplicas: nat
    /** What the server lists: chunk indices per file, holders per chunk. */
    var chunks: map<string, seq<int>>
    var replicas: map<ChunkId, seq<Holder>>
    /** What the holders keep, and which of them answer for which chunk. */
    var blobs: map<(string, ChunkId), Bytes>
    var up: set<(string, ChunkId)>
    /** Which holders take which chunk when asked, whom the server then registers,
        and whom it proposes. All of this may change between calls; a call asks each
        holder once about a chunk, so every course of events is covered. */
    var takes: set<(string, ChunkId)>
    var registers: set<(string, ChunkId)>
    var proposals: map<ChunkId, seq<Holder>>
    var log: SealLog
    /** Files written back by recovery. */
    var restored: map<string, Bytes>
    /** The seals each file was replicated under so far. */
    ghost var runs: map<string, set<Sealed>>

    ghost function RunsOf(file: string): set<Sealed>
      reads this`runs
    {
      RunsIn(runs, file)
    }

    function Listed(id: ChunkId): seq<Holder>
      reads this`replicas
    {
      ListedIn(replicas, id)
    }

    /** The server's listings are orderly and the holders are honest. */
    ghost predicate Honest()
      reads this`replicas, this`chunks, this`log, this`runs, this`blobs
    {
      ListingsOk(chunks, replicas) && HoldersOk(chunkSize, log, runs, replicas, blobs)
    }

    constructor (chunkSize: ChunkSize, self: string, minReplicas: nat)
      ensures Honest() && chunks == map[] && replicas == map[] && blobs == map[] && runs == map[]
      ensures this.chunkSize == chunkSize && this.self == self && this.minReplicas == minReplicas
    {
      this.chunkSize, this.self, this.minReplicas := chunkSize, self, minReplicas;
      chunks, replicas, blobs, up, log, runs := map[], map[], map[], {}, map[], map[];
      restored, takes, registers, proposals := map[], {}, {}, map[];
    }

    /** The distinct devices the server proposes outside the exclude list. */
    function Proposed(id: ChunkId, exclude: set<string>): seq<Holder>
      reads this`proposals
    {
      if id in proposals && Distinct(proposals[id]) then Without(proposals[id], exclude) else []
    }

    predicate Willing(id: ChunkId, d: string)
      reads this`takes, this`registers
    {
      (d, id) in takes && (d, id) in registers
    }

    function Takers(id: ChunkId, hs: seq<Holder>): set<string>
      reads this`takes, this`registers
    {
      set d | d in Devices(hs) && Willing(id, d)
    }

    /** How many devices healing adds to a chunk with these holders. */
    ghost function Gain(id: ChunkId, hs: seq<Holder>): nat
      reads this`takes, this`registers, this`proposals, this`up, this`minReplicas
    {
      var online := OnlineHolders(hs);
      if |online| >= minReplicas || forall i | 0 <= i < |online| :: (online[i].device, id) !in up then 0
      else Min(minReplicas - |online|, |Takers(id, Proposed(id, Devices(hs) + {self}))|)
    }

    /** For how many of the first `n` chunks healing adds something. */
    ghost function Gaining(r: map<ChunkId, seq<Holder>>, file: string, infos: seq<int>, n: nat): nat
      requires n <= |infos|
      reads this`takes, this`registers, this`proposals, this`up, this`minReplicas
    {
      if n == 0 then 0
      else
        var id := ChunkId(file, infos[n - 1]);
        Gaining(r, file, infos, n - 1) + if Gain(id, ListedIn(r, id)) > 0 then 1 else 0
    }

    /** The devices proposed for a chunk, outside the exclude list, that take it and
        that the server registers. */
    ghost function Ready(id: ChunkId, exclude: set<string>): set<string>
      reads this`takes, this`registers, this`proposals
    {
      Takers(id, Proposed(id, exclude))
    }

    lemma ReadyIs(id: ChunkId, exclude: set<string>, d: string)
      ensures d in Ready(id, exclude) <==>
        && id in proposals && (forall i, j | 0 <= i < j < |proposals[id]| :: proposals[id][i].device != proposals[id][j].device)
        && (exists j :: 0 <= j < |proposals[id]| && proposals[id][j].device == d)
        && d !in exclude && (d, id) in takes && (d, id) in registers
    {
      if id in proposals { WithoutFacts(proposals[id], exclude); }
    }

    /** What healing adds, written out: the missing number of ready devices that do not
        hold the chunk, or all there are, if an online holder with an address still
        serves it. */
    lemma GainIs(id: ChunkId, hs: seq<Holder>)
      ensures var ready := Ready(id, Devices(hs) + {self});
        Gain(id, hs) ==
          if |OnlineAt(hs)| >= minReplicas || (forall i | i in OnlineAt(hs) :: (hs[i].device, id) !in up) then 0
          else if |OnlineAt(hs)| + |ready| < minReplicas then |ready| else minReplicas - |OnlineAt(hs)|
    {
      OnlineCount(hs);
      OnlineElements(hs);
      NobodyUp(id, hs, OnlineHolders(hs));
      hide OnlineHolders, Takers, Proposed, OnlineAt, Devices;
    }

    lemma NobodyUp(id: ChunkId, hs: seq<Holder>, online: seq<Holder>)
      requires forall h :: h in online <==> h in hs && h.online != Some(false) && h.hasAddress
      ensures (forall i | 0 <= i < |online| :: (online[i].device, id) !in up) <==> (forall i | i in OnlineAt(hs) :: (hs[i].device, id) !in up)
    {
      forall j | 0 <= j < |online| ensures exists i :: i in OnlineAt(hs) && hs[i] == online[j] {
        assert online[j] in online && online[j] in hs;
        var i :| 0 <= i < |hs| && hs[i] == online[j];
        assert i in OnlineAt(hs);
      }
      forall i | i in OnlineAt(hs) ensures exists j :: 0 <= j < |online| && online[j] == hs[i] {
        assert hs[i] in hs && hs[i] in online;
      }
    }

    /** The chunks that healing adds something to. */
    ghost function GainingAt(r: map<ChunkId, seq<Holder>>, file: string, infos: seq<int>, n: nat): set<int>
      requires n <= |infos|
      reads this`takes, this`registers, this`proposals, this`up, this`minReplicas
    {
      set i | 0 <= i < n && Gains(r, ChunkId(file, infos[i]))
    }

    ghost predicate Gains(r: map<ChunkId, seq<Holder>>, id: ChunkId)
      reads this`takes, this`registers, this`proposals, this`up, this`minReplicas
    {
      Gain(id, ListedIn(r, id)) > 0
    }

    lemma {:induction false} GainingIs(r: map<ChunkId, seq<Holder>>, file: string, infos: seq<int>, n: nat)
      requires n <= |infos|
      ensures Gaining(r, file, infos, n) == |GainingAt(r, file, infos, n)|
    {
      hide Gain;
      if n == 0 {
        assert GainingAt(r, file, infos, n) == {};
      } else {
        GainingIs(r, file, infos, n - 1);
        GainingStep(r, file, infos, n);
        hide GainingAt;
      }
    }

    lemma GainingStep(r: map<ChunkId, seq<Holder>>, file: string, infos: seq<int>, n: nat)
      requires 0 < n <= |infos|
      ensures var before := GainingAt(r, file, infos, n - 1);
        && n - 1 !in before
        && GainingAt(r, file, infos, n) == before + if Gains(r, ChunkId(file, infos[n - 1])) then {n - 1} else {}
    {
      hide Gains;
    }

    /** The devices gained are ready ones, as many as missing or all there are. */
    lemma HealOutcome(id: ChunkId, hs: seq<Holder>, now: set<string>, gained: set<string>)
      requires |gained| == Gain(id, hs) && gained <= Ready(id, Devices(hs) + {self})
      requires now == Devices(hs) + gained
      ensures gained == now - Devices(hs)
      ensures |OnlineAt(hs)| >= minReplicas || (forall i | i in OnlineAt(hs) :: (hs[i].device, id) !in up) ==> gained == {}
      ensures |OnlineAt(hs)| < minReplicas && (exists i | i in OnlineAt(hs) :: (hs[i].device, id) in up) ==>
        |OnlineAt(hs)| + |gained| == minReplicas || Ready(id, Devices(hs) + {self}) <= now
    {
      var ready := Ready(id, Devices(hs) + {self});
      GainIs(id, hs);
      forall d | d in ready ensures d !in Devices(hs) { ReadyIs(id, Devices(hs) + {self}, d); }
      hide Ready, Gain, OnlineAt, Devices;
      if |gained| == |ready| { SubsetEqual(gained, ready); }
    }

    /** Devices that healing adds are taken in the order of the proposal. */
    ghost predicate FirstInLine(id: ChunkId, exclude: set<string>, gained: set<string>)
      reads this`takes, this`registers, this`proposals
    {
      exists n :: 0 <= n <= |Proposed(id, exclude)| && gained == Takers(id, Proposed(id, exclude)[..n])
    }

    lemma InLine(id: ChunkId, exclude: set<string>, gained: set<string>)
      requires FirstInLine(id, exclude, gained)
      ensures id in proposals ==> forall j, k |
        0 <= j < k < |proposals[id]| && proposals[id][k].device in gained && proposals[id][j].device in Ready(id, exclude) ::
        proposals[id][j].device in gained
    {
      var n :| 0 <= n <= |Proposed(id, exclude)| && gained == Takers(id, Proposed(id, exclude)[..n]);
      if id in proposals {
        forall j, k |
          0 <= j < k < |proposals[id]| && proposals[id][k].device in gained && proposals[id][j].device in Ready(id, exclude)
          ensures proposals[id][j].device in gained
        {
          ReadyIs(id, exclude, proposals[id][j].device);
          hide Devices, Ready;
          WithoutInOrder(proposals[id], exclude, n, j, k);
        }
      }
    }

    /** The first `n` chunks have exactly the holders that healing can add. */
    ghost predicate Grown(r0: map<ChunkId, seq<Holder>>, r1: map<ChunkId, seq<Holder>>, file: string, infos: seq<int>, n: nat)
      requires n <= |infos|
      reads this`takes, this`registers, this`proposals, this`up, this`minReplicas
    {
      forall i | 0 <= i < n ::
        var id := ChunkId(file, infos[i]);
        |Devices(ListedIn(r1, id))| == |Devices(ListedIn(r0, id))| + Gain(id, ListedIn(r0, id))
    }

    lemma NothingGrown(r: map<ChunkId, seq<Holder>>, file: string)
      ensures forall infos :: Grown(r, r, file, infos, 0)
    {
    }

    lemma GrownNext(r0: map<ChunkId, seq<Holder>>, r1: map<ChunkId, seq<Holder>>, b1: map<(string, ChunkId), Bytes>,
                    r2: map<ChunkId, seq<Holder>>, b2: map<(string, ChunkId), Bytes>, file: string, infos: seq<int>, n: nat, gained: set<string>)
      requires n < |infos| && NoRepeats(infos) && Grown(r0, r1, file, infos, n)
      requires var id := ChunkId(file, infos[n]);
        && ListedIn(r1, id) == ListedIn(r0, id) && |gained| == Gain(id, ListedIn(r0, id))
        && exists data :: Spreads(r1, b1, r2, b2, id, data, gained)
      ensures Grown(r0, r2, file, infos, n + 1)
    {
      hide Devices, Gain;
      var id := ChunkId(file, infos[n]);
      assert forall i | 0 <= i < n :: ChunkId(file, infos[i]) != id;
      assert Devices(ListedIn(r2, id)) == Devices(ListedIn(r0, id)) + gained && gained !! Devices(ListedIn(r0, id));
      assert |Devices(ListedIn(r2, id))| == |Devices(ListedIn(r0, id))| + |gained|;
    }

    lemma TakersEnds(id: ChunkId, hs: seq<Holder>)
      ensures Takers(id, hs[..0]) == {} && hs[..|hs|] == hs
    {
    }

    lemma NobodyInLine(id: ChunkId, exclude: set<string>)
      ensures FirstInLine(id, exclude, {})
    {
      TakersEnds(id, Proposed(id, exclude));
      hide Takers;
      assert {} == Takers(id, Proposed(id, exclude)[..0]);
    }

    lemma NextInLine(id: ChunkId, hs: seq<Holder>, n: nat, listed: set<string>)
      requires n < |hs| && Distinct(hs) && Devices(hs) !! listed
      ensures hs[n].device !in Takers(id, hs[..n]) && hs[n].device !in listed
    {
      assert hs[n].device in Devices(hs);
    }

    lemma TakersPrefix(id: ChunkId, hs: seq<Holder>, n: nat)
      requires n <= |hs|
      ensures Takers(id, hs[..n]) <= Takers(id, hs)
    {
      forall d | d in Devices(hs[..n]) ensures d in Devices(hs) {
        var i :| 0 <= i < n && hs[..n][i].device == d;
        assert hs[i].device == d;
      }
    }

    lemma TakersStep(id: ChunkId, hs: seq<Holder>, n: nat)
      requires n < |hs|
      ensures Takers(id, hs[..n + 1]) == Takers(id, hs[..n]) + if Willing(id, hs[n].device) then {hs[n].device} else {}
    {
      AppendDevices(hs[..n], hs[n]);
      assert hs[..n + 1] == hs[..n] + [hs[n]];
    }

    /* Recovery. */

    /** Some holder keeps `data` under the identifier. */
    ghost predicate Served(id: ChunkId, data: Bytes)
      reads this`blobs
    {
      exists d :: (d, id) in blobs && blobs[(d, id)] == data
    }

    /** A listed holder not known to be offline answers for the chunk. */
    ghost predicate Fetchable(id: ChunkId)
      reads this`replicas, this`up, this`blobs
    {
      exists i :: 0 <= i < |Listed(id)| && Answers(id, Listed(id)[i])
    }

    predicate Answers(id: ChunkId, h: Holder)
      reads this`up, this`blobs
    {
      h.online != Some(false) && (h.device, id) in up && (h.device, id) in blobs
    }

    /** `_fetch_from_any_holder`: the first listed holder that answers. */
    method FetchFromAnyHolder(id: ChunkId) returns (data: Option<Bytes>)
      ensures data.Some? ==> Served(id, data.value)
      ensures data.Some? <==> Fetchable(id)
      ensures data.Some? ==> exists i ::
        && 0 <= i < |Listed(id)| && Answers(id, Listed(id)[i]) && data.value == blobs[(Listed(id)[i].device, id)]
        && forall j | 0 <= j < i :: !Answers(id, Listed(id)[j])
    {
      var holders := Listed(id);
      var n := 0;
      while n < |holders|
        invariant 0 <= n <= |holders|
        invariant forall i | 0 <= i < n :: !Answers(id, holders[i])
      {
        if holders[n].online != Some(false) {
          var d := holders[n].device;
          if (d, id) in up && (d, id) in blobs {
            assert Served(id, blobs[(d, id)]) && Answers(id, holders[n]);
            return Some(blobs[(d, id)]);
          }
        }
        n := n + 1;
      }
      return None;
    }

    /** `_recover_chunks`: every listed chunk, or the chunks nobody serves. */
    method RecoverChunks(file: string) returns (parts: seq<Part>, missing: seq<ChunkId>)
      requires file in chunks
      ensures forall id :: id in missing <==> exists i :: 0 <= i < |chunks[file]| && id == ChunkId(file, chunks[file][i]) && !Fetchable(id)
      ensures missing == [] <==> forall i | 0 <= i < |chunks[file]| :: Fetchable(ChunkId(file, chunks[file][i]))
      ensures missing == [] ==> |parts| == |chunks[file]|
      ensures missing == [] ==> forall i | 0 <= i < |parts| ::
        parts[i].idx == chunks[file][i] && Served(ChunkId(file, parts[i].idx), parts[i].data)
    {
      var infos := chunks[file];
      parts, missing := [], [];
      var n := 0;
      while n < |infos|
        invariant 0 <= n <= |infos|
        invariant forall id :: id in missing <==> exists i :: 0 <= i < n && id == ChunkId(file, infos[i]) && !Fetchable(id)
        invariant missing == [] <==> forall i | 0 <= i < n :: Fetchable(ChunkId(file, infos[i]))
        invariant missing == [] ==> |parts| == n
        invariant missing == [] ==> forall i | 0 <= i < |parts| ::
          parts[i].idx == infos[i] && Served(ChunkId(file, parts[i].idx), parts[i].data)
      {
        var id := ChunkId(file, infos[n]);
        var data := FetchFromAnyHolder(id);
        if data.None? {
          missing := missing + [id];
        } else {
          parts := parts + [Part(infos[n], data.value)];
        }
        n := n + 1;
      }
    }

    /** Every listed chunk of the file has a holder that answers. */
    ghost predicate AllFetchable(file: string)
      reads this`replicas, this`up, this`blobs, this`chunks
    {
      file in chunks && forall i | 0 <= i < |chunks[file]| :: Fetchable(ChunkId(file, chunks[file][i]))
    }

    /** What recovery comes to: which chunks nobody serves, or what decrypting the join
        of the fetched ones gives. */
    ghost predicate Reassembled(file: string, r: Recovered, parts: seq<Part>)
      reads this`replicas, this`up, this`blobs, this`chunks, this`log
    {
      if file !in chunks || chunks[file] == [] then r == Failure(NothingRegistered)
      else if !AllFetchable(file) then
        && r.Failure? && r.error.Missing?
        && forall id :: id in r.error.chunks <==> exists i :: 0 <= i < |chunks[file]| && id == ChunkId(file, chunks[file][i]) && !Fetchable(id)
      else
        && |parts| == |chunks[file]|
        && (forall i | 0 <= i < |parts| :: parts[i].idx == chunks[file][i] && Served(ChunkId(file, parts[i].idx), parts[i].data))
        && match Decrypt(log, Join(parts))
           case Plain(data) => r == Recovered(data)
           case Failed(e) => r == Failure(Undecryptable(e))
    }

    /** The network half of `recover`: the plaintext found is that of one earlier
        run of this file, and after a single run it is that run's plaintext as
        long as every chunk has one holder that answers. */
    method Reassemble(file: string) returns (r: Recovered, ghost parts: seq<Part>)
      requires Honest()
      ensures r.Recovered? ==> exists g :: g in RunsOf(file) && g in log && log[g] == r.data
      ensures forall g | SingleRun(file, g) && AllFetchable(file) :: r == Recovered(log[g])
      ensures Reassembled(file, r, parts)
    {
      SingleRunListed(file);
      if file !in chunks || chunks[file] == [] {
        return Failure(NothingRegistered), [];
      }
      var found, missing := RecoverChunks(file);
      parts := found;
      if missing != [] {
        return Failure(Missing(missing)), [];
      }
      JoinedFacts(file, found);
      var plain := Decrypt(log, Join(found));
      r := if plain.Plain? then Recovered(plain.data) else Failure(Undecryptable(plain.error));
    }

    lemma SingleRunListed(file: string)
      ensures forall g | SingleRun(file, g) :: chunks[file] != []
    {
      forall g | SingleRun(file, g) ensures chunks[file] != [] {
        SplitNotEmpty(g, chunkSize);
        assert 0 in chunks[file];
      }
    }

    /** `recover`: a file is written back whole from one run, or not at all. */
    method Recover(file: string) returns (r: Recovered, ghost parts: seq<Part>)
      requires Honest()
      modifies this`restored
      ensures restored == if r.Recovered? then old(restored)[file := r.data] else old(restored)
      ensures r.Recovered? ==> old(exists g :: g in RunsOf(file) && g in log && log[g] == r.data)
      ensures old(forall g | SingleRun(file, g) && AllFetchable(file) :: r == Recovered(log[g]))
      ensures old(Reassembled(file, r, parts))
    {
      r, parts := Reassemble(file);
      if r.Recovered? {
        restored := restored[file := r.data];
      }
    }

    /** What decrypting the fetched chunks can give. */
    lemma JoinedFacts(file: string, parts: seq<Part>)
      requires Honest() && file in chunks && chunks[file] != [] && |parts| == |chunks[file]|
      requires forall i | 0 <= i < |parts| :: parts[i].idx == chunks[file][i] && Served(ChunkId(file, parts[i].idx), parts[i].data)
      ensures var plain := Decrypt(log, Join(parts));
        && (plain.Plain? ==> exists g :: g in RunsOf(file) && g in log && log[g] == plain.data)
        && forall g | SingleRun(file, g) :: plain == Plain(log[g])
    {
      PartsAreChunks(file, parts);
      var plain := Decrypt(log, Join(parts));
      assert 0 in chunks[file];
      var k :| 0 <= k < |chunks[file]| && chunks[file][k] == 0;
      assert parts[k].idx == 0;
      if plain.Plain? {
        MixedGenerations(log, RunsOf(file), chunkSize, parts, plain.data);
      }
      forall g | SingleRun(file, g) ensures plain == Plain(log[g]) {
        SingleRunDecrypts(file, g, parts);
      }
    }

    /** The file was replicated once, and the server lists the chunks of that run
        in some order. */
    ghost predicate SingleRun(file: string, g: Sealed)
      reads this`runs, this`log, this`chunks
    {
      RunsOf(file) == {g} && g in log && file in chunks && IsListingOf(chunks[file], |SplitFrom(Layout(g), chunkSize, 0)|)
    }

    lemma PartsAreChunks(file: string, parts: seq<Part>)
      requires Honest() && forall i | 0 <= i < |parts| :: Served(ChunkId(file, parts[i].idx), parts[i].data)
      ensures forall i | 0 <= i < |parts| :: ChunkOfSome(RunsOf(file), chunkSize, parts[i].idx, parts[i].data)
      ensures RunsOf(file) <= log.Keys
    {
      forall i | 0 <= i < |parts| ensures ChunkOfSome(RunsOf(file), chunkSize, parts[i].idx, parts[i].data) {
        var id := ChunkId(file, parts[i].idx);
        var d :| (d, id) in blobs && blobs[(d, id)] == parts[i].data;
      }
    }

    lemma SingleRunDecrypts(file: string, g: Sealed, parts: seq<Part>)
      requires Honest() && SingleRun(file, g) && |parts| == |chunks[file]|
      requires forall i | 0 <= i < |parts| :: parts[i].idx == chunks[file][i] && Served(ChunkId(file, parts[i].idx), parts[i].data)
      ensures Decrypt(log, Join(parts)) == Plain(log[g])
    {
      PartsAreChunks(file, parts);
      forall i | 0 <= i < |parts| ensures ChunkOf(g, chunkSize, parts[i].idx, parts[i].data) {
        assert ChunkOfSome({g}, chunkSize, parts[i].idx, parts[i].data);
      }
      ListingIsPermutation(g, chunkSize, chunks[file], parts);
      OneGeneration(log, g, chunkSize, parts);
    }

    /** After a single run, and whatever healing copied since, every listed holder
        of a chunk keeps that run's bytes. */
    lemma ListedHoldersKeepTheRun(file: string, g: Sealed, idx: int, d: string)
      requires Honest() && SingleRun(file, g) && d in Devices(Listed(ChunkId(file, idx)))
      ensures var parts := SplitFrom(Layout(g), chunkSize, 0);
        0 <= idx < |parts| && (d, ChunkId(file, idx)) in blobs && blobs[(d, ChunkId(file, idx))] == parts[idx].data
    {
      var id := ChunkId(file, idx);
      assert (d, id) in blobs;
      assert ChunkOfSome({g}, chunkSize, idx, blobs[(d, id)]);
    }

    /* The environment. */

    /** A push to a holder; when the answer is lost the holder may have stored. */
    method HolderStore(d: string, id: ChunkId, data: Bytes) returns (ok: bool)
      requires Honest() && ChunkOfSome(RunsOf(id.file), chunkSize, id.idx, data)
      modifies this`blobs
      ensures Honest() && (ok <==> (d, id) in takes)
      ensures blobs == old(blobs)[(d, id) := data] || (!ok && blobs == old(blobs))
    {
      hide HoldersOk, ListingsOk, ChunkOfSome;
      ok := (d, id) in takes;
      var stored: bool := *;
      StoreOk(chunkSize, log, runs, replicas, blobs, d, id, data);
      if ok || stored {
        blobs := blobs[(d, id) := data];
      }
    }

    /** The server registers a holder once, or refuses. */
    method RecordReplica(id: ChunkId, h: Holder) returns (ok: bool)
      requires Honest() && (h.device, id) in blobs
      modifies this`replicas
      ensures Honest() && (ok <==> (h.device, id) in registers)
      ensures forall id' | id' != id :: ListedIn(replicas, id') == ListedIn(old(replicas), id')
      ensures Devices(ListedIn(replicas, id)) == Devices(ListedIn(old(replicas), id)) + if ok then {h.device} else {}
    {
      hide HoldersOk, ListingsOk, ChunkOfSome;
      ok := (h.device, id) in registers;
      var hs := Listed(id);
      if ok && h.device !in Devices(hs) {
        RecordOk(chunkSize, log, runs, chunks, replicas, blobs, id, h);
        replicas := replicas[id := hs + [h]];
      }
    }

    lemma ProposalFacts(id: ChunkId, exclude: set<string>)
      ensures Distinct(Proposed(id, exclude)) && Devices(Proposed(id, exclude)) !! exclude
    {
      if id in proposals { WithoutFacts(proposals[id], exclude); }
    }

    /* Copying a chunk to candidates, shared by replication and healing. */

    /** Push to one candidate and, when it took the chunk, record it. */
    method TryCandidate(id: ChunkId, data: Bytes, c: Holder) returns (ok: bool)
      requires Honest() && ChunkOfSome(RunsOf(id.file), chunkSize, id.idx, data)
      modifies this`replicas, this`blobs
      ensures Honest() && (ok <==> Willing(id, c.device))
      ensures Pushed(old(replicas), old(blobs), replicas, blobs, id, data, c.device, ok)
    {
      hide HoldersOk, ListingsOk, ChunkOfSome, Devices;
      ok := HolderStore(c.device, id, data);
      if ok {
        ok := RecordReplica(id, c);
      }
    }

    /** The next candidate in line. */
    method SpreadOne(id: ChunkId, data: Bytes, candidates: seq<Holder>, n: nat,
                     ghost r0: map<ChunkId, seq<Holder>>, ghost b0: map<(string, ChunkId), Bytes>) returns (ok: bool)
      requires Honest() && ChunkOfSome(RunsOf(id.file), chunkSize, id.idx, data) && n < |candidates|
      requires Spreads(r0, b0, replicas, blobs, id, data, Takers(id, candidates[..n]))
      requires candidates[n].device !in Devices(ListedIn(r0, id)) && candidates[n].device !in Takers(id, candidates[..n])
      modifies this`replicas, this`blobs
      ensures Honest() && Spreads(r0, b0, replicas, blobs, id, data, Takers(id, candidates[..n + 1]))
      ensures |Takers(id, candidates[..n + 1])| == |Takers(id, candidates[..n])| + if ok then 1 else 0
    {
      hide HoldersOk, ListingsOk, ChunkOfSome, Spreads, Pushed, Honest, RunsIn, ListedIn, Devices, Willing, Takers;
      ghost var r, b := replicas, blobs;
      SpreadListing(r0, b0, r, b, id, data, Takers(id, candidates[..n]));
      TakersStep(id, candidates, n);
      ok := TryCandidate(id, data, candidates[n]);
      PushSpreads(r, b, replicas, blobs, id, data, candidates[n].device, ok);
      SpreadsTwice(r0, b0, r, b, replicas, blobs, id, data, Takers(id, candidates[..n]), if ok then {candidates[n].device} else {});
    }

    /** One candidate after the other until `need` took the chunk. */
    method Spread(id: ChunkId, data: Bytes, candidates: seq<Holder>, need: nat) returns (added: nat, ghost gained: set<string>)
      requires Honest() && ChunkOfSome(RunsOf(id.file), chunkSize, id.idx, data)
      requires Distinct(candidates) && Devices(candidates) !! Devices(Listed(id))
      modifies this`replicas, this`blobs
      ensures Honest() && Spreads(old(replicas), old(blobs), replicas, blobs, id, data, gained)
      ensures |gained| == added <= need && gained <= Takers(id, candidates)
      ensures added < need ==> gained == Takers(id, candidates)
      ensures exists n :: 0 <= n <= |candidates| && gained == Takers(id, candidates[..n])
    {
      hide HoldersOk, ListingsOk, ChunkOfSome, Spreads, Honest, RunsIn, ListedIn;
      added := 0;
      var n := 0;
      ghost var listed := Devices(Listed(id));
      TakersEnds(id, candidates);
      hide Devices, Willing, Takers, Distinct;
      SpreadsNothing(replicas, blobs, id, data);
      while n < |candidates| && added < need
        invariant 0 <= n <= |candidates| && added <= need && Honest()
        invariant added == |Takers(id, candidates[..n])|
        invariant Spreads(old(replicas), old(blobs), replicas, blobs, id, data, Takers(id, candidates[..n]))
      {
        NextInLine(id, candidates, n, listed);
        var ok := SpreadOne(id, data, candidates, n, old(replicas), old(blobs));
        if ok {
          added := added + 1;
        }
        n := n + 1;
      }
      TakersPrefix(id, candidates, n);
      gained := Takers(id, candidates[..n]);
    }

    /** One chunk of `_replicate_chunks`: pushed to every proposed device; the
        count is backed by devices that are on record with these bytes. */
    method PlaceChunk(id: ChunkId, data: Bytes) returns (placed: nat)
      requires Honest() && ChunkOfSome(RunsOf(id.file), chunkSize, id.idx, data)
      modifies this`replicas, this`blobs
      ensures Honest() && placed == |Ready(id, {self})|
      ensures placed <= |HoldersWith(replicas, blobs, id, data)|
      ensures forall id', x | id' != id :: HoldersWith(replicas, blobs, id', x) == HoldersWith(old(replicas), old(blobs), id', x)
    {
      hide HoldersOk, ListingsOk, ChunkOfSome, Pushed, Honest, RunsIn, HoldersWith, Willing, Takers, Proposed;
      var candidates := Proposed(id, {self});
      ProposalFacts(id, {self});
      TakersEnds(id, candidates);
      ghost var taken: set<string> := {};
      placed := 0;
      var n := 0;
      while n < |candidates|
        invariant 0 <= n <= |candidates| && placed == |taken| && Honest() && taken == Takers(id, candidates[..n])
        invariant forall i | n <= i < |candidates| :: candidates[i].device !in taken
        invariant taken <= HoldersWith(replicas, blobs, id, data)
        invariant forall id', x | id' != id :: HoldersWith(replicas, blobs, id', x) == HoldersWith(old(replicas), old(blobs), id', x)
      {
        ghost var r, b := replicas, blobs;
        TakersStep(id, candidates, n);
        var ok := TryCandidate(id, data, candidates[n]);
        PushHolders(r, b, replicas, blobs, id, data, candidates[n].device, ok);
        if ok {
          placed := placed + 1;
          taken := taken + {candidates[n].device};
        }
        n := n + 1;
      }
      SubsetSize(taken, HoldersWith(replicas, blobs, id, data));
    }

    /** The server lists each registered index once. */
    method RegisterChunk(file: string, idx: nat)
      requires Honest() && (idx == 0 || (file in chunks && 0 in chunks[file]))
      modifies this`chunks
      ensures Honest()
      ensures chunks - {file} == old(chunks) - {file}
      ensures file in chunks && chunks[file] == if file !in old(chunks) then [idx] else if idx in old(chunks)[file] then old(chunks)[file] else old(chunks)[file] + [idx]
    {
      hide HoldersOk;
      var listed := if file in chunks then chunks[file] else [];
      if idx !in listed {
        listed := listed + [idx];
        assert listed[|listed| - 1] == idx;
      }
      chunks := chunks[file := listed];
    }

    /** `_replicate_chunks`: register and place chunk after chunk. */
    method ReplicateChunks(file: string, seal: Sealed, parts: seq<Part>) returns (counts: seq<nat>)
      requires Honest() && seal in RunsOf(file) && parts == SplitFrom(Layout(seal), chunkSize, 0)
      modifies this`replicas, this`blobs, this`chunks
      ensures Honest() && |counts| == |parts| && CountsBacked(replicas, blobs, file, parts, counts)
      ensures forall i | 0 <= i < |counts| :: counts[i] == |Ready(ChunkId(file, i), {self})|
      ensures chunks - {file} == old(chunks) - {file}
      ensures old(file !in chunks) && parts != [] ==> file in chunks && chunks[file] == Upto(|parts|)
    {
      hide Honest, ChunkOfSome, HoldersWith, SplitFrom, Layout, CountsBacked, ListingsOk, HoldersOk, NoRepeats, Ready;
      counts := [];
      var n := 0;
      NothingCounted(replicas, blobs, file, parts);
      UptoIsListing(0);
      while n < |parts|
        invariant 0 <= n <= |parts| && |counts| == n && Honest() && CountsBacked(replicas, blobs, file, parts, counts)
        invariant chunks - {file} == old(chunks) - {file}
        invariant n > 0 ==> file in chunks && 0 in chunks[file]
        invariant forall i | 0 <= i < n :: counts[i] == |Ready(ChunkId(file, i), {self})|
        invariant old(file !in chunks) ==> if n == 0 then file !in chunks else file in chunks && chunks[file] == Upto(n)
      {
        RegisterChunk(file, n);
        ChunkIsOfRun(RunsOf(file), seal, chunkSize, parts, n);
        ghost var r, b := replicas, blobs;
        var placed := PlaceChunk(ChunkId(file, n), parts[n].data);
        OneMoreCounted(r, b, replicas, blobs, file, parts, counts, placed);
        counts := counts + [placed];
        n := n + 1;
      }
    }

    /** `replicate`: encrypt under a fresh seal, split, register and place. The
        file counts as replicated only if every chunk of this very blob is on
        record with enough devices that keep it. */
    method Replicate(file: string, plaintext: Bytes, seal: Sealed) returns (counts: seq<nat>, replicated: bool)
      requires Honest() && FreshSeal(log, seal, plaintext)
      modifies this`replicas, this`blobs, this`chunks, this`log, this`runs
      ensures Honest()
      ensures chunks - {file} == old(chunks) - {file}
      ensures log == old(log)[seal := plaintext] && runs == old(runs)[file := old(RunsOf(file)) + {seal}]
      ensures var parts := SplitFrom(Layout(seal), chunkSize, 0);
        |counts| == |parts| && CountsBacked(replicas, blobs, file, parts, counts)
      ensures forall i | 0 <= i < |counts| :: counts[i] == |Ready(ChunkId(file, i), {self})|
      ensures replicated <==> counts != [] && forall i | 0 <= i < |counts| :: counts[i] >= minReplicas
      ensures old(file !in chunks && RunsOf(file) == {}) ==> SingleRun(file, seal)
    {
      hide ListingsOk, HoldersOk, CountsBacked, WellSealed, Ready;
      SplitNotEmpty(seal, chunkSize);
      hide SplitFrom, Layout;
      NewRunOk(chunkSize, log, runs, replicas, blobs, file, seal, plaintext);
      hide FreshSeal;
      log := log[seal := plaintext];
      runs := runs[file := RunsOf(file) + {seal}];
      var parts := SplitFrom(Layout(seal), chunkSize, 0);
      counts := ReplicateChunks(file, seal, parts);
      replicated := counts != [] && forall i | 0 <= i < |counts| :: counts[i] >= minReplicas;
      UptoIsListing(|parts|);
      hide IsListingOf, Upto;
    }

    /** `_heal_chunk`. Nothing is added if enough holders are online or none of them
        serves the chunk; otherwise the target is reached, or every ready device that
        held no replica is listed. Each device added gets the bytes an old holder had,
        and the chunk is healthy exactly when enough online holders result. */
    method HealChunk(id: ChunkId) returns (added: nat, healthy: bool, ghost gained: set<string>)
      requires Honest()
      modifies this`replicas, this`blobs
      ensures Honest()
      ensures Devices(old(Listed(id))) <= Devices(Listed(id)) && gained == Devices(Listed(id)) - Devices(old(Listed(id)))
      ensures forall d | d in gained ::
        d != self && (d, id) in takes && (d, id) in registers && exists j :: id in proposals && 0 <= j < |proposals[id]| && proposals[id][j].device == d
      ensures var on := OnlineAt(old(Listed(id)));
        && (healthy <==> |on| + added >= minReplicas)
        && (|on| >= minReplicas || (forall i | i in on :: (old(Listed(id))[i].device, id) !in up) ==> added == 0)
        && (|on| < minReplicas && (exists i | i in on :: (old(Listed(id))[i].device, id) in up) ==>
              |on| + added == minReplicas || Ready(id, Devices(old(Listed(id))) + {self}) <= Devices(Listed(id)))
      ensures forall d | d in gained :: (d, id) in blobs && exists e :: (e, id) in old(blobs) && old(blobs)[(e, id)] == blobs[(d, id)]
      ensures id in proposals ==> forall j, k |
        0 <= j < k < |proposals[id]| && proposals[id][k].device in gained && proposals[id][j].device in Ready(id, Devices(old(Listed(id))) + {self}) ::
        proposals[id][j].device in gained
      ensures |gained| == added == old(Gain(id, Listed(id)))
      ensures added > 0 ==> |OnlineHolders(old(Listed(id)))| + added <= minReplicas
      ensures healthy <==> |OnlineHolders(old(Listed(id)))| + added >= minReplicas
      ensures exists data :: Spreads(old(replicas), old(blobs), replicas, blobs, id, data, gained) && (added > 0 ==> old(Served(id, data)))
    {
      hide HoldersOk, ListingsOk, ChunkOfSome, Devices, Ready, Gain, OnlineAt, OnlineHolders;
      ghost var was := Listed(id);
      OnlineCount(was);
      added, healthy, gained := FillChunk(id);
      InLine(id, Devices(was) + {self}, gained);
      HealOutcome(id, was, Devices(Listed(id)), gained);
      forall d | d in gained
        ensures d != self && (d, id) in takes && (d, id) in registers && exists j :: id in proposals && 0 <= j < |proposals[id]| && proposals[id][j].device == d
      {
        ReadyIs(id, Devices(was) + {self}, d);
      }
      ghost var data :| Spreads(old(replicas), old(blobs), replicas, blobs, id, data, gained) && (added > 0 ==> old(Served(id, data)));
      if gained != {} {
        ghost var e :| (e, id) in old(blobs) && old(blobs)[(e, id)] == data;
        assert forall d | d in gained :: (d, id) in blobs && blobs[(d, id)] == data;
      }
    }

    /** The bytes of the first online holder that serves the chunk. */
    method FetchFromOnline(id: ChunkId, online: seq<Holder>) returns (data: Option<Bytes>)
      requires forall h | h in online :: (h.device, id) in blobs
      ensures data.Some? <==> exists i :: 0 <= i < |online| && (online[i].device, id) in up
      ensures data.Some? ==> Served(id, data.value)
    {
      for n := 0 to |online|
        invariant forall i | 0 <= i < n :: (online[i].device, id) !in up
      {
        var d := online[n].device;
        if (d, id) in up && (d, id) in blobs {
          assert Served(id, blobs[(d, id)]);
          return Some(blobs[(d, id)]);
        }
      }
      data := None;
    }

    /** Fetching the chunk from an online holder and spreading it. */
    method FillChunk(id: ChunkId) returns (added: nat, healthy: bool, ghost gained: set<string>)
      requires Honest()
      modifies this`replicas, this`blobs
      ensures Honest()
      ensures |gained| == added == old(Gain(id, Listed(id))) && self !in gained
      ensures var online := |OnlineHolders(old(Listed(id)))|;
        && (healthy <==> online + added >= minReplicas)
        && (added > 0 ==> online + added <= minReplicas)
      ensures exists data :: Spreads(old(replicas), old(blobs), replicas, blobs, id, data, gained) && (added > 0 ==> old(Served(id, data)))
      ensures gained <= Ready(id, Devices(old(Listed(id))) + {self})
      ensures FirstInLine(id, Devices(old(Listed(id))) + {self}, gained)
    {
      hide HoldersOk, ListingsOk, ChunkOfSome, Spreads, Devices;
      var holders := Listed(id);
      var online := OnlineHolders(holders);
      gained := {};
      SpreadsNothing(replicas, blobs, id, []);
      NobodyInLine(id, Devices(holders) + {self});
      if minReplicas <= |online| {
        return 0, true, {};
      }
      var need := minReplicas - |online|;
      OnlineHaveChunk(id);
      var data := FetchFromOnline(id, online);
      if data.None? {
        return 0, false, {};
      }
      ServedIsChunk(id, data.value);
      var candidates := Proposed(id, Devices(holders) + {self});
      ProposalFacts(id, Devices(holders) + {self});
      added, gained := Spread(id, data.value, candidates, need);
      SubsetSize(gained, Takers(id, candidates));
      healthy := |online| + added >= minReplicas;
    }

    /** `_health`: the smallest number of holders of a chunk that are not known to be
        offline, and whether it falls short. A file without chunks is healthy. */
    method Health(file: string) returns (h: HealthSummary)
      ensures file !in chunks || chunks[file] == [] ==> h == HealthSummary(false, 0, 0)
      ensures file in chunks && chunks[file] != [] ==>
        && h.chunkCount == |chunks[file]| && (h.degraded <==> h.minOnline < minReplicas)
        && (forall i | 0 <= i < |chunks[file]| :: h.minOnline <= |NotOffline(Listed(ChunkId(file, chunks[file][i])))|)
        && (exists i :: 0 <= i < |chunks[file]| && h.minOnline == |NotOffline(Listed(ChunkId(file, chunks[file][i])))|)
      ensures h.degraded <==>
        file in chunks && exists i :: 0 <= i < |chunks[file]| && |NotOffline(Listed(ChunkId(file, chunks[file][i])))| < minReplicas
    {
      if file !in chunks || chunks[file] == [] {
        return HealthSummary(false, 0, 0);
      }
      var infos := chunks[file];
      var least := |NotOffline(Listed(ChunkId(file, infos[0])))|;
      var n := 1;
      while n < |infos|
        invariant 1 <= n <= |infos|
        invariant forall i | 0 <= i < n :: least <= |NotOffline(Listed(ChunkId(file, infos[i])))|
        invariant exists i :: 0 <= i < n && least == |NotOffline(Listed(ChunkId(file, infos[i])))|
      {
        least := Min(least, |NotOffline(Listed(ChunkId(file, infos[n])))|);
        n := n + 1;
      }
      h := HealthSummary(least < minReplicas, |infos|, least);
    }

    /** Healing finds the chunk healthy: enough online holders, old and new. */
    ghost predicate Enough(id: ChunkId, hs: seq<Holder>)
      reads this`takes, this`registers, this`proposals, this`up, this`minReplicas
    {
      |OnlineHolders(hs)| + Gain(id, hs) >= minReplicas
    }

    /** When a health check does not call a chunk degraded, healing finds it healthy
        iff the holders without an address are no more than the surplus and what
        healing adds; so in any case when all have one. */
    lemma NotDegradedIsHealthyIff(id: ChunkId, hs: seq<Holder>)
      requires |NotOffline(hs)| >= minReplicas
      ensures Enough(id, hs) <==> Addressless(hs) <= |NotOffline(hs)| - minReplicas + Gain(id, hs)
      ensures (forall h | h in hs && h.online != Some(false) :: h.hasAddress) ==> Enough(id, hs)
    {
      AddresslessIs(hs);
    }

    lemma HealedIsEnough(r0: map<ChunkId, seq<Holder>>, r1: map<ChunkId, seq<Holder>>, file: string, infos: seq<int>, bad: seq<ChunkId>)
      requires Grown(r0, r1, file, infos, |infos|) && HealedUpTo(r0, r1, file, infos, |infos|, self, minReplicas, bad)
      ensures bad == [] <==> forall i | 0 <= i < |infos| :: Enough(ChunkId(file, infos[i]), ListedIn(r0, ChunkId(file, infos[i])))
    {
      hide Gain, OnlineHolders, Devices;
      forall i | 0 <= i < |infos|
        ensures Enough(ChunkId(file, infos[i]), ListedIn(r0, ChunkId(file, infos[i]))) <==> ChunkId(file, infos[i]) !in bad
      {
        var id := ChunkId(file, infos[i]);
        assert Healed(r0, r1, id, self, minReplicas, id !in bad);
        GainedSize(r0, r1, id);
      }
      if bad != [] { assert bad[0] in bad; }
    }

    lemma GainedSize(r0: map<ChunkId, seq<Holder>>, r1: map<ChunkId, seq<Holder>>, id: ChunkId)
      requires Devices(ListedIn(r0, id)) <= Devices(ListedIn(r1, id))
      ensures |Devices(ListedIn(r1, id)) - Devices(ListedIn(r0, id))| == |Devices(ListedIn(r1, id))| - |Devices(ListedIn(r0, id))|
    {
      hide Devices, ListedIn;
      var a, b := Devices(ListedIn(r0, id)), Devices(ListedIn(r1, id));
      assert b == a + (b - a);
    }

    lemma OnlineHaveChunk(id: ChunkId)
      requires Honest()
      ensures forall h | h in OnlineHolders(Listed(id)) :: (h.device, id) in blobs
    {
      OnlineElements(Listed(id));
      forall h | h in Listed(id) ensures h.device in Devices(Listed(id)) { }
    }

    /** One chunk of `_ensure_chunks`. */
    method HealNext(file: string, infos: seq<int>, n: nat, fixed: nat, failed: seq<ChunkId>,
                    ghost r0: map<ChunkId, seq<Holder>>, ghost b0: map<(string, ChunkId), Bytes>) returns (repaired: nat, bad: seq<ChunkId>)
      requires Honest() && HoldersKeep(r0, b0, replicas, blobs) && n < |infos| && NoRepeats(infos)
      requires HealedUpTo(r0, replicas, file, infos, n, self, minReplicas, failed)
      requires Grown(r0, replicas, file, infos, n) && fixed == Gaining(r0, file, infos, n)
      requires ListedIn(replicas, ChunkId(file, infos[n])) == ListedIn(r0, ChunkId(file, infos[n]))
      modifies this`replicas, this`blobs
      ensures Honest() && HoldersKeep(r0, b0, replicas, blobs)
      ensures HealedUpTo(r0, replicas, file, infos, n + 1, self, minReplicas, bad)
      ensures Grown(r0, replicas, file, infos, n + 1) && repaired == Gaining(r0, file, infos, n + 1)
      ensures forall other | other != ChunkId(file, infos[n]) :: ListedIn(replicas, other) == ListedIn(old(replicas), other)
    {
      hide HoldersOk, ChunkOfSome, Spreads, Devices, HoldersKeep, Healed, Grown, Gain, Ready, OnlineAt, OnlineHolders, Served, ListingsOk, Honest, ListedIn, HealedUpTo;
      var id := ChunkId(file, infos[n]);
      ghost var r, b := replicas, blobs;
      var added, healthy, gained := HealChunk(id);
      HealedNow(r0, r, b, replicas, blobs, id, self, minReplicas, healthy, added, gained);
      KeepSpread(r0, b0, r, b, replicas, blobs, id, gained);
      SpreadElsewhere(r, b, replicas, blobs, id, gained);
      HealedNext(r0, r, replicas, file, infos, n, self, minReplicas, failed, healthy);
      GrownNext(r0, r, b, replicas, blobs, file, infos, n, gained);
      repaired := if added > 0 then fixed + 1 else fixed;
      bad := if healthy then failed else failed + [id];
    }

    lemma NextOnly(r: map<ChunkId, seq<Holder>>, r': map<ChunkId, seq<Holder>>, file: string, infos: seq<int>, n: nat)
      requires n < |infos| && NoRepeats(infos)
      requires forall other | other != ChunkId(file, infos[n]) :: ListedIn(r', other) == ListedIn(r, other)
      ensures forall i | n < i < |infos| :: ListedIn(r', ChunkId(file, infos[i])) == ListedIn(r, ChunkId(file, infos[i]))
      ensures forall id: ChunkId | id.file != file :: ListedIn(r', id) == ListedIn(r, id)
    {
      hide ListedIn;
    }

    /** `_ensure_chunks`: heal every listed chunk. The file counts as replicated
        exactly when each chunk ends up with enough online holders. */
    method EnsureReplicas(file: string) returns (report: Option<HealReport>)
      requires Honest()
      modifies this`replicas, this`blobs
      ensures Honest() && HoldersKeep(old(replicas), old(blobs), replicas, blobs)
      ensures report.None? <==> file !in chunks || chunks[file] == []
      ensures report.Some? ==> report.value.chunkCount == |chunks[file]|
      ensures report.Some? ==> report.value.repaired == |GainingAt(old(replicas), file, chunks[file], |chunks[file]|)|
      ensures report.Some? ==> Grown(old(replicas), replicas, file, chunks[file], |chunks[file]|)
      ensures report.Some? ==> (report.value.replicated <==>
        forall i | 0 <= i < |chunks[file]| :: Enough(ChunkId(file, chunks[file][i]), ListedIn(old(replicas), ChunkId(file, chunks[file][i]))))
      ensures report.Some? ==>
        (report.value.replicated <==> forall i | 0 <= i < |chunks[file]| :: Healed(old(replicas), replicas, ChunkId(file, chunks[file][i]), self, minReplicas, true))
      ensures report.Some? ==>
        HealedUpTo(old(replicas), replicas, file, chunks[file], |chunks[file]|, self, minReplicas, report.value.unrecoverable)
      ensures forall id: ChunkId | id.file != file :: ListedIn(replicas, id) == ListedIn(old(replicas), id)
    {
      hide HoldersOk, ChunkOfSome, Spreads, Devices, HoldersKeep, Healed, Grown, Gain, GainingAt, Ready, OnlineAt, OnlineHolders, Served, Distinct;
      NothingGrown(replicas, file);
      KeepReflexive(replicas, blobs);
      if file !in chunks || chunks[file] == [] {
        return None;
      }
      var infos := chunks[file];
      assert NoRepeats(infos);
      hide ListingsOk, Honest, ListedIn;
      var repaired, bad := 0, [];
      var n := 0;
      assert HealedUpTo(old(replicas), replicas, file, infos, 0, self, minReplicas, []);
      while n < |infos|
        invariant 0 <= n <= |infos| && Honest() && HoldersKeep(old(replicas), old(blobs), replicas, blobs)
        invariant HealedUpTo(old(replicas), replicas, file, infos, n, self, minReplicas, bad)
        invariant Grown(old(replicas), replicas, file, infos, n) && repaired == Gaining(old(replicas), file, infos, n)
        invariant forall i | n <= i < |infos| :: ListedIn(replicas, ChunkId(file, infos[i])) == ListedIn(old(replicas), ChunkId(file, infos[i]))
        invariant forall id: ChunkId | id.file != file :: ListedIn(replicas, id) == ListedIn(old(replicas), id)
      {
        ghost var r := replicas;
        repaired, bad := HealNext(file, infos, n, repaired, bad, old(replicas), old(blobs));
        NextOnly(r, replicas, file, infos, n);
        n := n + 1;
      }
      HealedMeans(old(replicas), replicas, file, infos, self, minReplicas, bad);
      hide HealedUpTo, Enough;
      HealedIsEnough(old(replicas), replicas, file, infos, bad);
      GainingIs(old(replicas), file, infos, |infos|);
      report := Some(HealReport(bad == [], |infos|, repaired, bad));
    }

    lemma ServedIsChunk(id: ChunkId, data: Bytes)
      requires Honest() && Served(id, data)
      ensures ChunkOfSome(RunsOf(id.file), chunkSize, id.idx, data)
    {
      var d :| (d, id) in blobs && blobs[(d, id)] == data;
    }
  }

  /** What can happen while a file waits to be recovered: other files are
      replicated, any file is healed or recovered, holders and server change their
      minds about who is reachable, willing and proposed, and the server lists the
      holders it has, or fewer, in another order and with other flags. */
  datatype Event =
    | ReplicateOther(file: string, plaintext: Bytes, seal: Sealed)
    | Heal(file: string)
    | RecoverFile(file: string)
    | World(up: set<(string, ChunkId)>, takes: set<(string, ChunkId)>, registers: set<(string, ChunkId)>,
            proposals: map<ChunkId, seq<Holder>>, minReplicas: nat)
    | Relist(listings: map<ChunkId, seq<Holder>>)

  /** The server lists no holder that was not registered, and none twice. */
  predicate Relisting(replicas: map<ChunkId, seq<Holder>>, listings: map<ChunkId, seq<Holder>>) {
    forall id | id in listings :: Distinct(listings[id]) && Devices(listings[id]) <= Devices(ListedIn(replicas, id))
  }

  lemma RelistOk(size: nat, log: SealLog, runs: map<string, set<Sealed>>, chunks: map<string, seq<int>>,
                 replicas: map<ChunkId, seq<Holder>>, listings: map<ChunkId, seq<Holder>>, blobs: map<(string, ChunkId), Bytes>)
    requires size > 0 && HoldersOk(size, log, runs, replicas, blobs) && ListingsOk(chunks, replicas) && Relisting(replicas, listings)
    ensures HoldersOk(size, log, runs, listings, blobs) && ListingsOk(chunks, listings)
  {
    hide ChunkOfSome, WellSealed, Distinct;
    forall id, d | id in listings && d in Devices(listings[id]) ensures (d, id) in blobs {
      assert d in Devices(ListedIn(replicas, id));
    }
  }

  method Happen(m: ReplicationManager, file: string, g: Sealed, event: Event)
    requires m.Honest() && m.SingleRun(file, g)
    modifies m
    ensures m.Honest() && m.SingleRun(file, g) && m.log[g] == old(m.log[g])
  {
    hide ListingsOk, HoldersOk, IsListingOf, Layout, SplitFrom;
    match event
    case ReplicateOther(f, plaintext, seal) =>
      if f != file && FreshSeal(m.log, seal, plaintext) {
        SealIsNew(m.log, g, seal, plaintext);
        ghost var before := m.chunks;
        var _, _ := m.Replicate(f, plaintext, seal);
        OthersKept(before, m.chunks, f, file);
      }
    case Heal(f) =>
      var _ := m.EnsureReplicas(f);
    case RecoverFile(f) =>
      var _, _ := m.Recover(f);
    case World(up, takes, registers, proposals, minReplicas) =>
      m.up, m.takes, m.registers, m.proposals, m.minReplicas := up, takes, registers, proposals, minReplicas;
    case Relist(listings) =>
      if Relisting(m.replicas, listings) {
        RelistOk(m.chunkSize, m.log, m.runs, m.chunks, m.replicas, listings, m.blobs);
        m.replicas := listings;
      }
  }

  /** After one run of a file and any course of events, recovery gives that run's
      plaintext as long as each chunk has one reachable holder. */
  method SurvivesAnything(m: ReplicationManager, file: string, g: Sealed, events: seq<Event>) returns (r: Recovered)
    requires m.Honest() && m.SingleRun(file, g)
    modifies m
    ensures m.Honest() && m.SingleRun(file, g) && m.log[g] == old(m.log[g])
    ensures m.AllFetchable(file) ==> r == Recovered(old(m.log[g]))
  {
    hide ListingsOk, HoldersOk, IsListingOf, Layout, SplitFrom;
    for n := 0 to |events|
      invariant m.Honest() && m.SingleRun(file, g) && m.log[g] == old(m.log[g])
    {
      Happen(m, file, g, events[n]);
    }
    var found, _ := m.Reassemble(file);
    r := found;
  }

  lemma SealIsNew(log: SealLog, g: Sealed, seal: Sealed, plaintext: Bytes)
    requires g in log && FreshSeal(log, seal, plaintext)
    ensures g != seal
  {
  }

  lemma OthersKept(c0: map<string, seq<int>>, c1: map<string, seq<int>>, f: string, file: string)
    requires c1 - {f} == c0 - {f} && f != file && file in c0
    ensures file in c1 && c1[file] == c0[file]
  {
    assert file in c0 - {f};
    assert (c1 - {f})[file] == (c0 - {f})[file];
  }

  lemma AppendDevices(hs: seq<Holder>, h: Holder)
    ensures Devices(hs + [h]) == Devices(hs) + {h.device}
  {
    forall d | d in Devices(hs) + {h.device} ensures d in Devices(hs + [h]) {
      if d == h.device { assert (hs + [h])[|hs|] == h; }
      else {
        var i :| 0 <= i < |hs| && hs[i].device == d;
        assert (hs + [h])[i] == hs[i];
      }
    }
  }

  /** Every index below `n` once, in any order. */
  ghost predicate IsListingOf(order: seq<int>, n: nat) {
    && (forall i, j | 0 <= i < j < |order| :: order[i] != order[j])
    && (forall k :: k in order <==> 0 <= k < n)
  }

  lemma SplitNotEmpty(g: Sealed, size: nat)
    requires size > 0
    ensures |SplitFrom(Layout(g), size, 0)| > 0
  {
  }

  lemma ListingIsPermutation(g: Sealed, size: nat, order: seq<int>, parts: seq<Part>)
    requires size > 0 && IsListingOf(order, |SplitFrom(Layout(g), size, 0)|)
    requires |parts| == |order|
    requires forall i | 0 <= i < |parts| :: parts[i].idx == order[i] && ChunkOf(g, size, parts[i].idx, parts[i].data)
    ensures multiset(parts) == multiset(SplitFrom(Layout(g), size, 0))
  {
    var split := SplitFrom(Layout(g), size, 0);
    SplitFromShape(Layout(g), size, 0);
    forall i | 0 <= i < |parts| ensures 0 <= order[i] < |split| && parts[i] == split[order[i]] {
      assert order[i] in order;
    }
    PermutationMultiset(parts, split, order);
  }

  /** Picking every position once keeps the elements. */
  lemma {:induction false} PermutationMultiset(a: seq<Part>, b: seq<Part>, order: seq<int>)
    requires |a| == |order| && IsListingOf(order, |b|)
    requires forall i | 0 <= i < |a| :: 0 <= order[i] < |b| && a[i] == b[order[i]]
    ensures multiset(a) == multiset(b)
    decreases |b|
  {
    if b == [] {
      EmptyListing(order);
    } else {
      var n := |b| - 1;
      assert n in order;
      var k :| 0 <= k < |order| && order[k] == n;
      RemoveListing(order, k, |b|);
      var a', order' := a[..k] + a[k + 1..], order[..k] + order[k + 1..];
      RemovedAgrees(a, b, order, k);
      hide IsListingOf;
      PermutationMultiset(a', b[..n], order');
      SplitMultiset(a, k);
      assert b == b[..n] + [b[n]];
      assert multiset(b) == multiset(b[..n]) + multiset{b[n]};
    }
  }

  lemma EmptyListing(order: seq<int>)
    requires IsListingOf(order, 0)
    ensures order == []
  {
    if |order| > 0 {
      SomeElement(order);
    }
  }

  lemma SomeElement(order: seq<int>)
    requires |order| > 0
    ensures order[0] in order
  {
  }

  lemma RemovedAgrees(a: seq<Part>, b: seq<Part>, order: seq<int>, k: nat)
    requires |a| == |order| && IsListingOf(order, |b|) && b != [] && k < |order| && order[k] == |b| - 1
    requires forall i | 0 <= i < |a| :: 0 <= order[i] < |b| && a[i] == b[order[i]]
    ensures var a', order' := a[..k] + a[k + 1..], order[..k] + order[k + 1..];
      forall i | 0 <= i < |a'| :: 0 <= order'[i] < |b| - 1 && a'[i] == b[..|b| - 1][order'[i]]
  {
    RemoveListing(order, k, |b|);
    var a', order' := a[..k] + a[k + 1..], order[..k] + order[k + 1..];
    forall i | 0 <= i < |a'| ensures 0 <= order'[i] < |b| - 1 && a'[i] == b[..|b| - 1][order'[i]] {
      assert order'[i] in order';
      assert a'[i] == a[if i < k then i else i + 1];
    }
  }

  lemma SplitMultiset(a: seq<Part>, k: nat)
    requires k < |a|
    ensures multiset(a) == multiset(a[..k] + a[k + 1..]) + multiset{a[k]}
  {
    assert a == a[..k] + [a[k]] + a[k + 1..];
  }

  lemma RemoveListing(order: seq<int>, k: nat, n: nat)
    requires n > 0 && IsListingOf(order, n) && k < |order| && order[k] == n - 1
    ensures IsListingOf(order[..k] + order[k + 1..], n - 1)
  {
    var order' := order[..k] + order[k + 1..];
    forall x ensures x in order' <==> 0 <= x < n - 1 {
      if x in order && x != n - 1 {
        var i :| 0 <= i < |order| && order[i] == x;
        assert order'[if i < k then i else i - 1] == x;
      }
      if x in order' {
        var i :| 0 <= i < |order'| && order'[i] == x;
        assert order[if i < k then i else i + 1] == x;
      }
    }
  }
}
