/** What recovery can make of chunks that come from different replication runs
    of one file: chunk identifiers do not depend on the content, so a holder may
    serve a chunk of an older run. */
module Generations {
  import opened Rows
  import opened Numbers
  import opened Crypto
  import opened Chunker

  /** `data` is chunk `idx` of the blob some run in `runs` produced. */
  ghost predicate ChunkOfSome(runs: set<Sealed>, size: nat, idx: int, data: Bytes)
    requires size > 0
  {
    exists g :: g in runs && ChunkOf(g, size, idx, data)
  }

  ghost predicate ChunkOf(g: Sealed, size: nat, idx: int, data: Bytes)
    requires size > 0
  {
    0 <= idx < |SplitFrom(Layout(g), size, 0)| && SplitFrom(Layout(g), size, 0)[idx].data == data
  }

  lemma SortedFirst(parts: seq<Part>, k: nat)
    requires k < |parts| && parts[k].idx == 0 && forall i | 0 <= i < |parts| :: 0 <= parts[i].idx
    ensures Sort(parts) != [] && Sort(parts)[0].idx == 0 && Sort(parts)[0] in parts
  {
    SortKeeps(parts);
    SortSorted(parts);
    var r := Sort(parts);
    assert parts[k] in multiset(parts);
    assert parts[k] in r;
    var j :| 0 <= j < |r| && r[j] == parts[k];
    assert r[0] in multiset(r);
    assert r[0].idx <= r[j].idx;
  }

  /** The first chunk carries the magic and the whole IV. */
  lemma FirstChunk(g: Sealed, size: nat, data: Bytes)
    requires size >= 22 && |g.iv| == 16 && |g.tag| == 16 && ChunkOf(g, size, 0, data)
    ensures |data| >= 22 && data[6..22] == g.iv
  {
    LayoutParses(g);
    var b := Layout(g);
    assert data == b[0..Min(size, |b|)];
    assert data[6..22] == b[6..22];
  }

  lemma JoinStartsWithFirst(parts: seq<Part>, n: nat)
    requires Sort(parts) != [] && n <= |Sort(parts)[0].data|
    ensures |Join(parts)| >= n && Join(parts)[..n] == Sort(parts)[0].data[..n]
  {
  }

  /** Whatever mixture of runs the holders serve: if the joined chunks decrypt at
      all, the plaintext is that of one run of this very file. */
  lemma MixedGenerations(log: SealLog, runs: set<Sealed>, size: nat, parts: seq<Part>, plaintext: Bytes)
    requires WellSealed(log) && size >= 22 && runs <= log.Keys
    requires forall i | 0 <= i < |parts| :: ChunkOfSome(runs, size, parts[i].idx, parts[i].data)
    requires exists i :: 0 <= i < |parts| && parts[i].idx == 0
    requires Decrypt(log, Join(parts)) == Plain(plaintext)
    ensures exists g :: g in runs && log[g] == plaintext
  {
    var k :| 0 <= k < |parts| && parts[k].idx == 0;
    SortedFirst(parts, k);
    var first := Sort(parts)[0];
    assert ChunkOfSome(runs, size, first.idx, first.data);
    var g :| g in runs && ChunkOf(g, size, first.idx, first.data);
    FirstChunk(g, size, first.data);
    JoinStartsWithFirst(parts, 22);
    var blob := Join(parts);
    assert ParseSeal(blob).iv == blob[..22][6..22] == g.iv;
    assert ParseSeal(blob) == g;
  }

  /** All chunks of one run, in any order, give its plaintext back. */
  lemma OneGeneration(log: SealLog, g: Sealed, size: nat, parts: seq<Part>)
    requires WellSealed(log) && g in log && size > 0
    requires multiset(parts) == multiset(SplitFrom(Layout(g), size, 0))
    ensures Decrypt(log, Join(parts)) == Plain(log[g])
  {
    JoinAnyOrder(Layout(g), size, parts);
    LayoutParses(g);
  }

  function Repeat(b: Byte, n: nat): (r: Bytes)
    ensures |r| == n && forall i | 0 <= i < n :: r[i] == b
  {
    seq(n, i => b)
  }

  /** A mixture of runs that decrypts to something none of them sealed. */
  ghost predicate Mixup(log: SealLog, runs: set<Sealed>, size: nat, parts: seq<Part>, plaintext: Bytes)
    requires size > 0
  {
    && WellSealed(log) && runs <= log.Keys
    && (forall i | 0 <= i < |parts| :: ChunkOfSome(runs, size, parts[i].idx, parts[i].data))
    && (exists i :: 0 <= i < |parts| && parts[i].idx == 0)
    && Decrypt(log, Join(parts)) == Plain(plaintext)
    && forall g | g in runs :: log[g] != plaintext
  }

  /** Chunk `i` of a blob, by its place. */
  lemma {:induction false} NthChunk(b: Bytes, size: nat, idx: nat, i: nat)
    requires size > 0 && (idx + i) * size < |b|
    ensures i < |SplitFrom(b, size, idx)|
    ensures SplitFrom(b, size, idx)[i] == Part(idx + i, b[(idx + i) * size..Min((idx + i) * size + size, |b|)])
    decreases i
  {
    MulMonotone(idx, idx + i, size);
    if i > 0 { NthChunk(b, size, idx + 1, i - 1); }
  }

  lemma ChunkInRange(b: Bytes, size: nat, i: nat)
    requires size > 0 && i < |SplitFrom(b, size, 0)|
    ensures i * size < |b|
  {
    if i * size >= |b| { TooFar(b, size, 0, i); }
  }

  lemma {:induction false} TooFar(b: Bytes, size: nat, idx: nat, i: nat)
    requires size > 0 && (idx + i) * size >= |b|
    ensures |SplitFrom(b, size, idx)| <= i
    decreases i
  {
    if i > 0 && idx * size < |b| { TooFar(b, size, idx + 1, i - 1); }
  }

  function Example(iv: Bytes): Sealed {
    Sealed(iv, Repeat(9, 16), [5])
  }

  /** Two runs of a file, and a third blob whose IV has its beginning from one and
      its end from the other; `cut` is where the bytes change over. */
  function IvOf(cut: nat): Bytes
    requires 6 <= cut <= 22
  {
    Repeat(1, cut - 6) + Repeat(2, 22 - cut)
  }

  lemma Blobs(cut: nat)
    requires 7 <= cut <= 21
    ensures var g1, g2, g3 := Example(IvOf(22)), Example(IvOf(6)), Example(IvOf(cut));
      && |Layout(g1)| == |Layout(g2)| == |Layout(g3)| == 39
      && Layout(g1)[..cut] == Layout(g3)[..cut] && Layout(g2)[cut..] == Layout(g3)[cut..]
      && g1.iv != g2.iv && g1.iv != g3.iv && g2.iv != g3.iv && |g1.iv| == |g2.iv| == |g3.iv| == 16
  {
    var g1, g2, g3 := Example(IvOf(22)), Example(IvOf(6)), Example(IvOf(cut));
    LayoutParses(g1);
    LayoutParses(g2);
    LayoutParses(g3);
    assert g1.iv[15] == 1 && g2.iv[15] == 2 && g3.iv[15] == 2;
    assert g1.iv[0] == 1 && g2.iv[0] == 2 && g3.iv[0] == 1;
  }

  /** Some multiple of a small chunk size falls inside the IV. */
  lemma CutPoint(size: nat) returns (k: nat)
    requires 0 < size < 22
    ensures 7 <= k * size <= 21
  {
    k := 21 / size;
    assert 21 == k * size + 21 % size;
    if size < 7 { assert k * size > 21 - size; } else { MulMonotone(1, k, size); }
  }

  lemma ChunkAt(g: Sealed, size: nat, i: nat)
    requires size > 0 && i * size < |Layout(g)|
    ensures ChunkOf(g, size, i, Layout(g)[i * size..Min(i * size + size, |Layout(g)|)])
  {
    NthChunk(Layout(g), size, 0, i);
  }

  lemma EitherSide(b1: Bytes, b2: Bytes, b3: Bytes, cut: nat, lo: nat, hi: nat)
    requires |b1| == |b2| == |b3| && cut <= |b3| && lo <= hi <= |b3|
    requires b1[..cut] == b3[..cut] && b2[cut..] == b3[cut..]
    ensures hi <= cut ==> b1[lo..hi] == b3[lo..hi]
    ensures cut <= lo ==> b2[lo..hi] == b3[lo..hi]
  {
    if hi <= cut { assert b1[lo..hi] == b1[..cut][lo..hi]; assert b3[lo..hi] == b3[..cut][lo..hi]; }
    if cut <= lo { assert b2[lo..hi] == b2[cut..][lo - cut..hi - cut]; assert b3[lo..hi] == b3[cut..][lo - cut..hi - cut]; }
  }

  lemma WholeChunk(size: nat, k: nat, i: nat)
    ensures i < k ==> i * size + size <= k * size
    ensures i >= k ==> k * size <= i * size
  {
    if i < k { MulMonotone(i + 1, k, size); assert (i + 1) * size == i * size + size; } else { MulMonotone(k, i, size); }
  }

  /** A chunk of the third blob is a chunk of one of the runs. */
  lemma ChunkFromEither(size: nat, k: nat, i: nat)
    requires 0 < size && 7 <= k * size <= 21
    requires i < |SplitFrom(Layout(Example(IvOf(k * size))), size, 0)|
    ensures var part := SplitFrom(Layout(Example(IvOf(k * size))), size, 0)[i];
      part.idx == i && ChunkOfSome({Example(IvOf(22)), Example(IvOf(6))}, size, i, part.data)
  {
    var g1, g2, g3 := Example(IvOf(22)), Example(IvOf(6)), Example(IvOf(k * size));
    Blobs(k * size);
    ChunkInRange(Layout(g3), size, i);
    NthChunk(Layout(g3), size, 0, i);
    hide SplitFrom, Layout, Example, IvOf, ChunkOf;
    ChunkAt(g1, size, i);
    ChunkAt(g2, size, i);
    WholeChunk(size, k, i);
    EitherSide(Layout(g1), Layout(g2), Layout(g3), k * size, i * size, Min(i * size + size, 39));
  }

  lemma MixedParts(size: nat, k: nat)
    requires 0 < size && 7 <= k * size <= 21
    ensures var parts := SplitFrom(Layout(Example(IvOf(k * size))), size, 0);
      && |parts| > 0 && Join(parts) == Layout(Example(IvOf(k * size)))
      && forall i | 0 <= i < |parts| ::
           parts[i].idx == i && ChunkOfSome({Example(IvOf(22)), Example(IvOf(6))}, size, i, parts[i].data)
  {
    var b := Layout(Example(IvOf(k * size)));
    Blobs(k * size);
    JoinAnyOrder(b, size, SplitFrom(b, size, 0));
    NthChunk(b, size, 0, 0);
    hide ChunkOfSome, Join, SplitFrom, Layout;
    forall i | 0 <= i < |SplitFrom(b, size, 0)|
      ensures SplitFrom(b, size, 0)[i].idx == i && ChunkOfSome({Example(IvOf(22)), Example(IvOf(6))}, size, i, SplitFrom(b, size, 0)[i].data)
    {
      ChunkFromEither(size, k, i);
    }
  }

  /** With chunks that cut the IV in two, chunks of two runs of one file can
      decrypt to the plaintext of another file. */
  lemma SmallChunksMixFiles(size: nat)
    requires 0 < size < 22
    ensures exists log: SealLog, runs: set<Sealed>, parts: seq<Part>, plaintext: Bytes :: Mixup(log, runs, size, parts, plaintext)
  {
    var k := CutPoint(size);
    var g1, g2, g3 := Example(IvOf(22)), Example(IvOf(6)), Example(IvOf(k * size));
    Blobs(k * size);
    LayoutParses(g3);
    var log: SealLog := map[g1 := [1], g2 := [2], g3 := [3]];
    assert Decrypt(log, Layout(g3)) == Plain([3]) && WellSealed(log);
    MixedParts(size, k);
    hide SplitFrom, Join, Layout, ChunkOfSome, Example, IvOf, Decrypt, WellSealed;
    var parts := SplitFrom(Layout(g3), size, 0);
    assert parts[0].idx == 0;
    assert Mixup(log, {g1, g2}, size, parts, [3]);
  }

  /** A mixture of runs can decrypt to something none of them sealed iff chunks are
      smaller than 22 bytes. */
  lemma MixupIff(size: nat)
    requires size > 0
    ensures (exists log: SealLog, runs: set<Sealed>, parts: seq<Part>, plaintext: Bytes :: Mixup(log, runs, size, parts, plaintext))
       <==> size < 22
  {
    if size < 22 {
      SmallChunksMixFiles(size);
    } else {
      forall log: SealLog, runs: set<Sealed>, parts: seq<Part>, plaintext: Bytes ensures !Mixup(log, runs, size, parts, plaintext) {
        if Mixup(log, runs, size, parts, plaintext) { MixedGenerations(log, runs, size, parts, plaintext); }
      }
    }
  }
}
