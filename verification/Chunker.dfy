/** `stardustlib/chunker.py`: fixed-size chunks and their reassembly. */
module Chunker {
  import opened Rows
  import opened Numbers
  import opened Crypto

  datatype Part = Part(idx: int, data: Bytes)

  /** `chunk_count`, for a size that is valid. */
  function ChunkCount(total: nat, size: nat): nat
    requires size > 0
  {
    (total + size - 1) / size
  }

  /** Chunks `idx`, `idx + 1`, … of the blob. */
  function SplitFrom(blob: Bytes, size: nat, idx: nat): seq<Part>
    requires size > 0
    decreases |blob| - idx * size
  {
    if idx * size >= |blob| then []
    else [Part(idx, blob[idx * size..Min(idx * size + size, |blob|)])] + SplitFrom(blob, size, idx + 1)
  }

  /** `split`: a size below 1 is refused. */
  function Split(blob: Bytes, size: int): Option<seq<Part>> {
    if size <= 0 then None else Some(SplitFrom(blob, size, 0))
  }

  /** `sorted(parts, key=idx)`: a stable insertion sort has the same result as
      any stable sort. */
  function InsertPart(p: Part, sorted: seq<Part>): seq<Part> {
    if sorted == [] || p.idx <= sorted[0].idx then [p] + sorted
    else [sorted[0]] + InsertPart(p, sorted[1..])
  }

  function Sort(parts: seq<Part>): seq<Part> {
    if parts == [] then [] else InsertPart(parts[0], Sort(parts[1..]))
  }

  function Concat(parts: seq<Part>): Bytes {
    if parts == [] then [] else parts[0].data + Concat(parts[1..])
  }

  function Join(parts: seq<Part>): Bytes {
    Concat(Sort(parts))
  }

  predicate Ascending(parts: seq<Part>) {
    forall i, j | 0 <= i < j < |parts| :: parts[i].idx < parts[j].idx
  }

  lemma {:induction false} SplitFromShape(blob: Bytes, size: nat, idx: nat)
    requires size > 0
    ensures forall i | 0 <= i < |SplitFrom(blob, size, idx)| ::
      SplitFrom(blob, size, idx)[i].idx == idx + i && 0 < |SplitFrom(blob, size, idx)[i].data| <= size
    ensures Concat(SplitFrom(blob, size, idx)) == if idx * size >= |blob| then [] else blob[idx * size..]
    decreases |blob| - idx * size
  {
    if idx * size < |blob| {
      SplitFromShape(blob, size, idx + 1);
      var lo, m := idx * size, Min(idx * size + size, |blob|);
      assert (idx + 1) * size == lo + size;
      var rest := SplitFrom(blob, size, idx + 1);
      assert Concat(rest) == blob[m..];
      ConcatCons(Part(idx, blob[lo..m]), rest);
      assert blob[lo..m] + blob[m..] == blob[lo..];
    }
  }

  lemma ConcatCons(p: Part, parts: seq<Part>)
    ensures Concat([p] + parts) == p.data + Concat(parts)
  {
    assert ([p] + parts)[1..] == parts;
  }

  lemma {:induction false} SplitFromLength(blob: Bytes, size: nat, idx: nat)
    requires size > 0
    ensures idx * size >= |blob| ==> |SplitFrom(blob, size, idx)| == 0
    ensures idx * size < |blob| ==> |SplitFrom(blob, size, idx)| == ChunkCount(|blob|, size) - idx
    decreases |blob| - idx * size
  {
    if idx * size < |blob| {
      SplitFromLength(blob, size, idx + 1);
      assert (idx + 1) * size == idx * size + size;
      CountStep(|blob|, size, idx);
    }
  }

  /** `idx` is the last chunk exactly when the next one would start past the end. */
  lemma CountStep(total: nat, size: nat, idx: nat)
    requires size > 0 && idx * size < total
    ensures idx * size + size >= total ==> ChunkCount(total, size) == idx + 1
  {
    var n := total + size - 1;
    var q := n / size;
    assert q * size <= n < q * size + size;
    if idx * size + size >= total {
      assert (idx + 1) * size == idx * size + size && (idx + 2) * size == idx * size + 2 * size && (q + 1) * size == q * size + size;
      MulLess(q, idx + 2, size);
      MulLess(idx + 1, q + 1, size);
    }
  }

  lemma MulLess(a: int, b: int, c: nat)
    requires a * c < b * c
    ensures a < b
  {
    if b <= a {
      MulMonotone(b, a, c);
    }
  }

  lemma MulMonotone(a: int, b: int, c: nat)
    requires a <= b
    ensures a * c <= b * c
  {
    assert (b - a) * c >= 0;
  }

  /* Reassembly does not depend on the order the parts arrive in. */

  lemma MultisetCons(p: Part, parts: seq<Part>)
    ensures multiset([p] + parts) == multiset{p} + multiset(parts)
  {
  }

  lemma MultisetHead(parts: seq<Part>)
    requires parts != []
    ensures multiset(parts) == multiset{parts[0]} + multiset(parts[1..])
  {
    MultisetCons(parts[0], parts[1..]);
    assert [parts[0]] + parts[1..] == parts;
  }

  lemma {:induction false} InsertKeeps(p: Part, sorted: seq<Part>)
    ensures multiset(InsertPart(p, sorted)) == multiset{p} + multiset(sorted)
  {
    MultisetCons(p, sorted);
    if sorted != [] && sorted[0].idx < p.idx {
      InsertKeeps(p, sorted[1..]);
      MultisetHead(sorted);
      MultisetCons(sorted[0], InsertPart(p, sorted[1..]));
    }
  }

  lemma {:induction false} SortKeeps(parts: seq<Part>)
    ensures multiset(Sort(parts)) == multiset(parts)
  {
    if parts != [] {
      SortKeeps(parts[1..]);
      InsertKeeps(parts[0], Sort(parts[1..]));
      MultisetHead(parts);
    }
  }

  predicate Sorted(parts: seq<Part>) {
    forall i, j | 0 <= i < j < |parts| :: parts[i].idx <= parts[j].idx
  }

  lemma {:induction false} InsertSorted(p: Part, sorted: seq<Part>)
    requires Sorted(sorted)
    ensures Sorted(InsertPart(p, sorted))
  {
    if sorted != [] && sorted[0].idx < p.idx {
      var rest := InsertPart(p, sorted[1..]);
      InsertSorted(p, sorted[1..]);
      InsertKeeps(p, sorted[1..]);
      forall i | 0 <= i < |rest| ensures sorted[0].idx <= rest[i].idx {
        assert rest[i] in multiset(rest);
        assert rest[i] == p || rest[i] in sorted[1..];
      }
    }
  }

  lemma {:induction false} SortSorted(parts: seq<Part>)
    ensures Sorted(Sort(parts))
  {
    if parts != [] {
      SortSorted(parts[1..]);
      InsertSorted(parts[0], Sort(parts[1..]));
    }
  }

  lemma SmallestFirst(a: seq<Part>, b: seq<Part>)
    requires Sorted(a) && Ascending(b) && multiset(a) == multiset(b) && b != []
    ensures a != [] && a[0] == b[0]
  {
    assert b[0] in multiset(b);
    assert b[0] in a;
    var i :| 0 <= i < |a| && a[i] == b[0];
    assert a[0] in multiset(a);
    assert a[0] in b;
    var j :| 0 <= j < |b| && b[j] == a[0];
    assert a[0].idx <= a[i].idx;
    assert j == 0;
  }

  lemma SameTail(a: seq<Part>, b: seq<Part>)
    requires a != [] && b != [] && a[0] == b[0] && multiset(a) == multiset(b)
    ensures multiset(a[1..]) == multiset(b[1..])
  {
    MultisetHead(a);
    MultisetHead(b);
    assert multiset(a[1..]) == multiset(a) - multiset{a[0]};
    assert multiset(b[1..]) == multiset(b) - multiset{b[0]};
  }

  lemma TailsInOrder(a: seq<Part>, b: seq<Part>)
    requires Sorted(a) && Ascending(b) && a != [] && b != []
    ensures Sorted(a[1..]) && Ascending(b[1..])
  {
  }

  /** A sorted list with the elements of an ascending list is that list. */
  lemma {:induction false} SortedIsUnique(a: seq<Part>, b: seq<Part>)
    requires Sorted(a) && Ascending(b) && multiset(a) == multiset(b)
    ensures a == b
  {
    if b == [] {
      assert |a| == |multiset(a)|;
    } else {
      SmallestFirst(a, b);
      SameTail(a, b);
      TailsInOrder(a, b);
      hide Sorted, Ascending;
      SortedIsUnique(a[1..], b[1..]);
      assert a == [a[0]] + a[1..] && b == [b[0]] + b[1..];
    }
  }

  lemma SplitShape(blob: Bytes, size: int)
    ensures Split(blob, size).Some? <==> size > 0
    ensures size > 0 ==>
      var parts := Split(blob, size).value;
      && Ascending(parts) && Concat(parts) == blob && |parts| == ChunkCount(|blob|, size)
      && forall i | 0 <= i < |parts| :: parts[i].idx == i && 0 < |parts[i].data| <= size
  {
    if size > 0 {
      SplitFromShape(blob, size, 0);
      SplitFromLength(blob, size, 0);
      assert blob[0..] == blob;
      if |blob| == 0 { assert (size - 1) / size == 0; }
    }
  }

  /** `join(split(x)) == x`, in whatever order the chunks come back. */
  lemma JoinAnyOrder(blob: Bytes, size: int, parts: seq<Part>)
    requires size > 0 && multiset(parts) == multiset(Split(blob, size).value)
    ensures Join(parts) == blob
  {
    SplitShape(blob, size);
    SortKeeps(parts);
    SortSorted(parts);
    SortedIsUnique(Sort(parts), Split(blob, size).value);
  }
}
