/** `stardustlib/parity_store.py`: chunks of other users, kept within a quota. */
module ParityStores {
  import opened Rows
  import opened Crypto
  import opened Sums

  datatype Entry = Entry(owner: string, size: nat)

  datatype StoreError = InvalidChunkId | OwnerMismatch | QuotaExceeded | NotFound

  datatype Reply<T> = Done(value: T) | Refused(error: StoreError)

  /** `_validate_chunk_id`. */
  predicate ValidId(id: string) {
    id != "" && '/' !in id && '\\' !in id && !HasDots(id)
  }

  /** Identifiers that cannot leave the directory: not empty, and without slash,
      backslash or two dots in a row. */
  lemma ValidIdIff(id: string)
    ensures ValidId(id) <==> |id| > 0 && !exists a: string, b: string, c: string :: id == a + b + c && b in {"/", "\\", ".."}
  {
    forall a: string, b: string, c: string | id == a + b + c && b in {"/", "\\", ".."} ensures !ValidId(id) {
      Inside(id, a, b, c);
    }
    if !ValidId(id) && id != "" { BadPart(id); }
  }

  lemma Inside(id: string, a: string, b: string, c: string)
    requires id == a + b + c && b in {"/", "\\", ".."}
    ensures !ValidId(id)
  {
    assert id[|a|] == b[0];
    if b == ".." { assert id[|a| + 1] == b[1]; }
  }

  lemma BadPart(id: string)
    requires id != "" && !ValidId(id)
    ensures exists a: string, b: string, c: string :: id == a + b + c && b in {"/", "\\", ".."}
  {
    if HasDots(id) {
      var i :| 0 <= i < |id| - 1 && id[i] == '.' && id[i + 1] == '.';
      assert id == id[..i] + ".." + id[i + 2..];
    } else {
      var i :| 0 <= i < |id| && (id[i] == '/' || id[i] == '\\');
      assert id == id[..i] + [id[i]] + id[i + 1..] && [id[i]] in {"/", "\\", ".."};
    }
  }

  predicate HasDots(id: string) {
    exists i :: 0 <= i < |id| - 1 && id[i] == '.' && id[i + 1] == '.'
  }

  function Sizes(index: map<string, Entry>): map<string, nat> {
    map id | id in index :: index[id].size
  }

  ghost function Used(index: map<string, Entry>): nat {
    Sum(Sizes(index))
  }

  function OwnerOf(index: map<string, Entry>, id: string): Option<string> {
    if id in index then Some(index[id].owner) else None
  }

  /** A chunk as its owner left it. */
  datatype Chunk = Chunk(owner: string, data: Bytes)

  function Held(index: map<string, Entry>, files: map<string, Bytes>): map<string, Chunk> {
    map id | id in index && id in files :: Chunk(index[id].owner, files[id])
  }

  /** A call made, and whether it was accepted. */
  datatype Call =
    | StoreCall(id: string, owner: string, data: Bytes, ok: bool)
    | DeleteCall(id: string, requester: string, ok: bool)

  /** What a call does to the chunks held. */
  ghost predicate Effect(c: Call, before: map<string, Chunk>, after: map<string, Chunk>) {
    if !c.ok then after == before
    else
      match c
      case StoreCall(id, owner, data, _) => (id in before ==> before[id].owner == owner) && after == before[id := Chunk(owner, data)]
      case DeleteCall(id, requester, _) => (id in before ==> before[id].owner == requester) && after == before - {id}
  }

  ghost predicate IsRun(calls: seq<Call>, states: seq<map<string, Chunk>>) {
    && |states| == |calls| + 1 && states[0] == map[]
    && forall i | 0 <= i < |calls| :: Effect(calls[i], states[i], states[i + 1])
  }

  lemma RunExtends(calls: seq<Call>, states: seq<map<string, Chunk>>, c: Call, after: map<string, Chunk>)
    requires IsRun(calls, states) && Effect(c, states[|calls|], after)
    ensures IsRun(calls + [c], states + [after]) && |states| == |calls| + 1
  {
    hide Effect;
  }

  lemma StoreEffect(index: map<string, Entry>, files: map<string, Bytes>, id: string, owner: string, data: Bytes)
    requires (id in index ==> index[id].owner == owner) && index.Keys == files.Keys
    ensures Effect(StoreCall(id, owner, data, true), Held(index, files), Held(index[id := Entry(owner, |data|)], files[id := data]))
  {
    assert Held(index[id := Entry(owner, |data|)], files[id := data]) == Held(index, files)[id := Chunk(owner, data)];
  }

  lemma DeleteEffect(index: map<string, Entry>, files: map<string, Bytes>, id: string, requester: string)
    requires (id in index ==> index[id].owner == requester) && index.Keys == files.Keys
    ensures Effect(DeleteCall(id, requester, true), Held(index, files), Held(index - {id}, files - {id}))
  {
    assert Held(index - {id}, files - {id}) == Held(index, files) - {id};
  }

  lemma UsedPut(index: map<string, Entry>, id: string, e: Entry)
    ensures Used(index[id := e]) == Used(index) - (if id in index then index[id].size else 0) + e.size
  {
    SumPut(Sizes(index), id, e.size);
    assert Sizes(index[id := e]) == Sizes(index)[id := e.size];
  }

  lemma UsedRemove(index: map<string, Entry>, id: string)
    requires id in index
    ensures Used(index - {id}) == Used(index) - index[id].size
  {
    SumRemove(Sizes(index), id);
    assert Sizes(index - {id}) == Sizes(index) - {id};
  }

  /** A chunk changes hands only after the owner deleted it. */
  lemma {:induction false} OwnerChangesOnlyByDeletion(calls: seq<Call>, states: seq<map<string, Chunk>>, id: string, i: nat, j: nat)
    requires IsRun(calls, states) && i <= j <= |calls| && id in states[i] && id in states[j] && states[i][id].owner != states[j][id].owner
    ensures exists k :: i <= k < j && calls[k] == DeleteCall(id, states[i][id].owner, true)
    decreases j - i
  {
    assert Effect(calls[i], states[i], states[i + 1]);
    if id in states[i + 1] {
      assert states[i + 1][id].owner == states[i][id].owner;
      OwnerChangesOnlyByDeletion(calls, states, id, i + 1, j);
    }
  }

  /** Call `i` stored the chunk, and no later one replaced or deleted it. */
  ghost predicate LastStore(calls: seq<Call>, i: nat, id: string, c: Chunk) {
    && i < |calls| && calls[i] == StoreCall(id, c.owner, c.data, true)
    && forall k | i < k < |calls| :: !(calls[k].ok && calls[k].id == id)
  }

  ghost predicate StoredLast(calls: seq<Call>, id: string, c: Chunk) {
    exists i: nat :: LastStore(calls, i, id, c)
  }

  lemma LastStoreSnoc(calls: seq<Call>, last: Call, id: string, c: Chunk)
    ensures StoredLast(calls + [last], id, c) <==>
      if last.ok && last.id == id then last == StoreCall(id, c.owner, c.data, true) else StoredLast(calls, id, c)
  {
    var all := calls + [last];
    assert all[|calls|] == last;
    if i: nat :| LastStore(all, i, id, c) {
      if i < |calls| {
        assert calls[i] == all[i] && !(last.ok && last.id == id);
        forall k | i < k < |calls| ensures !(calls[k].ok && calls[k].id == id) { assert all[k] == calls[k]; }
        assert LastStore(calls, i, id, c);
      }
    }
    if last == StoreCall(id, c.owner, c.data, true) { assert LastStore(all, |calls|, id, c); }
    if !(last.ok && last.id == id) {
      if i: nat :| LastStore(calls, i, id, c) { assert LastStore(all, i, id, c); }
    }
  }

  /** What is held is what was stored last. */
  lemma {:induction false} HeldIsLastStore(calls: seq<Call>, states: seq<map<string, Chunk>>, id: string, c: Chunk)
    requires IsRun(calls, states)
    ensures id in states[|calls|] && states[|calls|][id] == c <==> StoredLast(calls, id, c)
  {
    if calls != [] {
      var n := |calls| - 1;
      assert Effect(calls[n], states[n], states[n + 1]);
      assert IsRun(calls[..n], states[..n + 1]) by {
        forall i | 0 <= i < n ensures Effect(calls[..n][i], states[..n + 1][i], states[..n + 1][i + 1]) {
          assert Effect(calls[i], states[i], states[i + 1]);
        }
      }
      HeldIsLastStore(calls[..n], states[..n + 1], id, c);
      LastStoreSnoc(calls[..n], calls[n], id, c);
      assert calls == calls[..n] + [calls[n]];
    }
  }

  class ParityStore {
    var maxBytes: Option<nat>
    var index: map<string, Entry>
    var files: map<string, Bytes>
    /** Every call so far and the chunks before, between and after them. */
    ghost var calls: seq<Call>
    ghost var states: seq<map<string, Chunk>>

    /** The index describes exactly the chunk files present, and the history is
        one the rules allow. */
    ghost predicate Valid()
      reads this
    {
      && index.Keys == files.Keys && (forall id | id in index :: index[id].size == |files[id]|)
      && IsRun(calls, states) && states[|calls|] == Held(index, files)
    }

    constructor (maxBytes: Option<nat>)
      ensures Valid() && index == map[] && calls == [] && this.maxBytes == maxBytes
    {
      this.maxBytes, index, files := maxBytes, map[], map[];
      calls, states := [], [map[]];
    }

    method SetMaxBytes(max: Option<nat>)
      modifies this`maxBytes
      ensures maxBytes == max
    {
      maxBytes := max;
    }

    /** `used_bytes`. */
    method UsedBytes() returns (used: nat)
      ensures used == Used(index)
    {
      hide IsRun;
      used := 0;
      var rest := Sizes(index);
      while rest != map[]
        invariant used + Sum(rest) == Used(index)
        decreases |rest|
      {
        var id :| id in rest;
        SumRemove(rest, id);
        used := used + rest[id];
        rest := rest - {id};
      }
    }

    /** A call that changed nothing. */
    ghost method Remember(c: Call)
      requires Valid() && (c.ok ==> Effect(c, Held(index, files), Held(index, files)))
      modifies this`calls, this`states
      ensures Valid() && calls == old(calls) + [c] && old(states) <= states
    {
      hide IsRun, Held;
      RunExtends(calls, states, c, Held(index, files));
      calls, states := calls + [c], states + [Held(index, files)];
    }

    /** `store`: accepted only from the chunk's owner and only within the quota;
        a refusal changes nothing. */
    method Store(id: string, owner: string, data: Bytes) returns (r: Reply<()>)
      requires Valid()
      modifies this`index, this`files, this`calls, this`states
      ensures Valid() && calls == old(calls) + [StoreCall(id, owner, data, r.Done?)] && old(states) <= states
      ensures r.Done? <==>
        && ValidId(id) && OwnerOf(old(index), id) in {None, Some(owner)}
        && (maxBytes.Some? ==> Used(old(index)[id := Entry(owner, |data|)]) <= maxBytes.value)
      ensures r.Done? ==> files == old(files)[id := data] && OwnerOf(index, id) == Some(owner)
      ensures r.Done? && maxBytes.Some? ==> Used(index) <= maxBytes.value
      ensures r.Done? ==> forall i | i != id :: OwnerOf(index, i) == OwnerOf(old(index), i)
      ensures r.Refused? ==> index == old(index) && files == old(files)
      ensures r.Refused? ==> r.error == if !ValidId(id) then InvalidChunkId else if OwnerOf(index, id) !in {None, Some(owner)} then OwnerMismatch else QuotaExceeded
    {
      hide IsRun, Effect, Held, Used, Sizes, ValidId;
      if !ValidId(id) {
        Remember(StoreCall(id, owner, data, false));
        return Refused(InvalidChunkId);
      }
      if id in index && index[id].owner != owner {
        Remember(StoreCall(id, owner, data, false));
        return Refused(OwnerMismatch);
      }
      var previous := if id in index then index[id].size else 0;
      var used := UsedBytes();
      var projected := used - previous + |data|;
      UsedPut(index, id, Entry(owner, |data|));
      if maxBytes.Some? && projected > maxBytes.value {
        Remember(StoreCall(id, owner, data, false));
        return Refused(QuotaExceeded);
      }
      StoreEffect(index, files, id, owner, data);
      RunExtends(calls, states, StoreCall(id, owner, data, true), Held(index[id := Entry(owner, |data|)], files[id := data]));
      files := files[id := data];
      index := index[id := Entry(owner, |data|)];
      calls, states := calls + [StoreCall(id, owner, data, true)], states + [Held(index, files)];
      r := Done(());
    }

    /** `fetch`: exactly the owner of the last accepted store gets what was stored
        then; others learn that there is something. */
    method Fetch(id: string, requester: string) returns (r: Reply<Bytes>)
      requires Valid()
      ensures forall data :: r == Done(data) <==> ValidId(id) && StoredLast(calls, id, Chunk(requester, data))
      ensures r == Refused(InvalidChunkId) <==> !ValidId(id)
      ensures r == Refused(NotFound) <==> ValidId(id) && forall c :: !StoredLast(calls, id, c)
    {
      hide IsRun, StoredLast, ValidId, HasDots;
      forall c
        ensures id in Held(index, files) && Held(index, files)[id] == c <==> StoredLast(calls, id, c)
      {
        HeldIsLastStore(calls, states, id, c);
      }
      if !ValidId(id) {
        return Refused(InvalidChunkId);
      }
      if id !in index {
        return Refused(NotFound);
      }
      assert Held(index, files)[id] == Chunk(index[id].owner, files[id]);
      assert StoredLast(calls, id, Chunk(index[id].owner, files[id]));
      if index[id].owner != requester {
        return Refused(OwnerMismatch);
      }
      r := Done(files[id]);
    }

    /** `delete`: idempotent, and for the owner alone. */
    method Delete(id: string, requester: string) returns (r: Reply<()>)
      requires Valid()
      modifies this`index, this`files, this`calls, this`states
      ensures Valid() && calls == old(calls) + [DeleteCall(id, requester, r.Done?)] && old(states) <= states
      ensures Used(index) <= Used(old(index))
      ensures r.Done? <==> ValidId(id) && OwnerOf(old(index), id) in {None, Some(requester)}
      ensures r.Done? ==> files == old(files) - {id} && index == old(index) - {id}
      ensures r.Refused? ==> index == old(index) && files == old(files)
    {
      hide IsRun, Effect, Held, Used, Sizes, ValidId;
      if !ValidId(id) {
        Remember(DeleteCall(id, requester, false));
        return Refused(InvalidChunkId);
      }
      if id !in index {
        assert files - {id} == files && index - {id} == index;
        DeleteEffect(index, files, id, requester);
        Remember(DeleteCall(id, requester, true));
        return Done(());
      }
      if index[id].owner != requester {
        Remember(DeleteCall(id, requester, false));
        return Refused(OwnerMismatch);
      }
      UsedRemove(index, id);
      DeleteEffect(index, files, id, requester);
      RunExtends(calls, states, DeleteCall(id, requester, true), Held(index - {id}, files - {id}));
      files := files - {id};
      index := index - {id};
      calls, states := calls + [DeleteCall(id, requester, true)], states + [Held(index, files)];
      r := Done(());
    }
  }
}
