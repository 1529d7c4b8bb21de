/** `stardustlib/conflict_resolver.py`: names for conflict copies and the rename
    that makes one. */
module Resolver {
  import opened Rows
  import opened Paths
  import Merge
  import opened Metadata

  /** The name and the extension of a file, the latter with its dot. */
  function SplitName(base: string): (r: (string, string))
    ensures r.0 + r.1 == base
  {
    var dot := LastIndex(base, '.');
    if dot > 0 then (base[..dot], base[dot..]) else (base, "")
  }

  function Mark(device: string, stamp: string, k: nat): string {
    " (conflict - " + device + " - " + stamp + ")" + if k < 2 then "" else " (" + Decimal(k) + ")"
  }

  /** The `k`-th name tried for a conflict copy of `p`, counting from 1. */
  function Candidate(p: string, device: string, stamp: string, k: nat): string {
    var parts := SplitName(Basename(p));
    var name := parts.0 + Mark(device, stamp, k) + parts.1;
    if Dirname(p) == "" then name else PathJoin(Dirname(p), name)
  }

  /** The first name that no live row has. Tombstones do not count. */
  ghost predicate FirstFree(t: Table, p: string, device: string, stamp: string, name: string) {
    exists k: nat ::
      && k >= 1 && name == Candidate(p, device, stamp, k) && !Live(t, name)
      && forall j: nat | 1 <= j < k :: Live(t, Candidate(p, device, stamp, j))
  }

  function Folder(dir: string): string {
    if dir == "" || dir[|dir| - 1] == '/' then dir else dir + "/"
  }

  lemma JoinShape(dir: string, name: string)
    requires name != "" && name[0] != '/'
    ensures (if dir == "" then name else PathJoin(dir, name)) == Folder(dir) + name
  {
  }

  lemma NameStart(p: string, device: string, stamp: string, k: nat)
    ensures var name := SplitName(Basename(p)).0 + Mark(device, stamp, k) + SplitName(Basename(p)).1;
      name != "" && name[0] != '/'
    ensures |Mark(device, stamp, k)| > 0
  {
    MarkStart(device, stamp, k);
    BasenameStart(p);
    var parts := SplitName(Basename(p));
    hide Mark, SplitName, Basename;
    if parts.0 != "" { assert Basename(p)[0] == parts.0[0]; }
  }

  lemma MarkStart(device: string, stamp: string, k: nat)
    ensures Mark(device, stamp, k) != "" && Mark(device, stamp, k)[0] == ' '
  {
  }

  lemma BasenameStart(p: string)
    ensures Basename(p) != "" ==> Basename(p)[0] != '/'
    ensures p == p[..LastIndex(p, '/') + 1] + Basename(p)
  {
  }

  /** A candidate is the path with the mark put before the extension. */
  lemma CandidateShape(p: string, device: string, stamp: string, k: nat)
    ensures var parts := SplitName(Basename(p));
      Candidate(p, device, stamp, k) == Folder(Dirname(p)) + (parts.0 + Mark(device, stamp, k) + parts.1)
  {
    NameStart(p, device, stamp, k);
    var parts := SplitName(Basename(p));
    hide Mark, SplitName, Basename, Dirname, PathJoin, Folder;
    JoinShape(Dirname(p), parts.0 + Mark(device, stamp, k) + parts.1);
  }

  /** The names written out: the mark stands before the last dot of the name, or at
      the end if no dot follows its first character; from the second name on a number
      follows the mark. */
  lemma CandidateIs(folder: string, name: string, ext: string, device: string, stamp: string, k: nat)
    requires folder == "" || folder == "/" || (|folder| > 1 && folder[|folder| - 1] == '/' && folder[|folder| - 2] != '/')
    requires '/' !in name && '/' !in ext
    requires if ext == "" then name == "" || '.' !in name[1..] else name != "" && ext[0] == '.' && '.' !in ext[1..]
    ensures Candidate(folder + name + ext, device, stamp, k) ==
      folder + name + (" (conflict - " + device + " - " + stamp + ")" + if k < 2 then "" else " (" + Decimal(k) + ")") + ext
  {
    hide Candidate, SplitName, Basename, Dirname, Folder, Decimal;
    var p := folder + (name + ext);
    assert p == folder + name + ext;
    CandidateShape(p, device, stamp, k);
    BasenameIs(folder, name + ext);
    SplitNameIs(name, ext);
    var mark := Mark(device, stamp, k);
    assert folder + (name + mark + ext) == folder + name + mark + ext;
  }

  lemma SplitNameIs(name: string, ext: string)
    requires if ext == "" then name == "" || '.' !in name[1..] else name != "" && ext[0] == '.' && '.' !in ext[1..]
    ensures SplitName(name + ext) == (name, ext)
  {
    var base := name + ext;
    if ext == "" {
      assert base == name;
      if name != "" && name[0] != '.' { assert name == [name[0]] + name[1..]; LastIndexIs(name, '.', -1); }
      if name != "" && name[0] == '.' { LastIndexIs(name, '.', 0); }
    } else {
      assert base[|name| + 1..] == ext[1..];
      LastIndexIs(base, '.', |name|);
      assert base[..|name|] == name && base[|name|..] == ext;
    }
  }

  lemma BasenameIs(folder: string, base: string)
    requires folder == "" || folder == "/" || (|folder| > 1 && folder[|folder| - 1] == '/' && folder[|folder| - 2] != '/')
    requires '/' !in base
    ensures Basename(folder + base) == base && Folder(Dirname(folder + base)) == folder
  {
    var p := folder + base;
    assert p[..|folder|] == folder && p[|folder|..] == base;
    LastIndexIs(p, '/', |folder| - 1);
    FolderIs(folder);
    hide RStrip, Folder;
  }

  lemma FolderIs(folder: string)
    requires folder == "" || folder == "/" || (|folder| > 1 && folder[|folder| - 1] == '/' && folder[|folder| - 2] != '/')
    ensures Folder(if RStrip(folder) == "" then folder else RStrip(folder)) == folder
  {
    if |folder| > 1 {
      assert RStrip(folder) == folder[..|folder| - 1];
      assert folder[..|folder| - 1] + "/" == folder;
    }
  }

  /** Different numbers, different names: the search cannot go round in circles. */
  lemma CandidatesDiffer(p: string, device: string, stamp: string, j: nat, k: nat)
    requires 1 <= j && 1 <= k && j != k
    ensures Candidate(p, device, stamp, j) != Candidate(p, device, stamp, k)
  {
    hide Mark, SplitName, Basename, Dirname, Candidate, Folder;
    var parts := SplitName(Basename(p));
    CandidateShape(p, device, stamp, j);
    CandidateShape(p, device, stamp, k);
    if Candidate(p, device, stamp, j) == Candidate(p, device, stamp, k) {
      var x, y := Mark(device, stamp, j), Mark(device, stamp, k);
      Cancel(Folder(Dirname(p)), parts.0 + x + parts.1, parts.0 + y + parts.1, "");
      Cancel(parts.0, x, y, parts.1);
      MarksDiffer(device, stamp, j, k);
    }
  }

  lemma Cancel(a: string, x: string, y: string, b: string)
    requires a + x + b == a + y + b
    ensures x == y
  {
    assert |x| == |y|;
    assert x == (a + x + b)[|a|..|a| + |x|];
    assert y == (a + y + b)[|a|..|a| + |y|];
  }

  lemma MarksDiffer(device: string, stamp: string, j: nat, k: nat)
    requires 1 <= j && 1 <= k && Mark(device, stamp, j) == Mark(device, stamp, k)
    ensures j == k
  {
    var base := " (conflict - " + device + " - " + stamp + ")";
    assert |Mark(device, stamp, j)| == |base| <==> j < 2;
    assert |Mark(device, stamp, k)| == |base| <==> k < 2;
    if j >= 2 {
      assert base + " (" + Decimal(j) + ")" == base + (" (" + Decimal(j) + ")") == Mark(device, stamp, j);
      assert base + " (" + Decimal(k) + ")" == base + (" (" + Decimal(k) + ")") == Mark(device, stamp, k);
      Cancel(base + " (", Decimal(j), Decimal(k), ")");
      DecimalInjective(j, k);
    }
  }

  /** A conflict copy never has the path it is a copy of. */
  lemma CandidateMoves(p: string, device: string, stamp: string, k: nat)
    ensures Candidate(p, device, stamp, k) != p
  {
    CandidateShape(p, device, stamp, k);
    BasenameStart(p);
    DirnameShape(p);
    NameStart(p, device, stamp, k);
    var parts := SplitName(Basename(p));
    hide Mark, Candidate, Basename, SplitName, Dirname, Folder;
    var head := p[..LastIndex(p, '/') + 1];
    var n := |Folder(Dirname(p))|;
    if n < |head| { assert p[n] == '/'; }
  }

  /** The folder of a path is its head, up to repeated slashes at the end. */
  lemma DirnameShape(p: string)
    ensures var head := p[..LastIndex(p, '/') + 1];
      var folder := Folder(Dirname(p));
      folder == head || (|folder| < |head| && head[|folder|] == '/')
  {
    var head := p[..LastIndex(p, '/') + 1];
    var r := RStrip(head);
    if r != "" {
      assert r + "/" == head[..|r|] + "/";
      assert |r| < |head| && head[|r|] == '/';
      if |head| == |r| + 1 { assert r + "/" == head; }
    }
  }

  class ConflictResolver {
    const store: MetadataStore
    const deviceName: string

    constructor (store: MetadataStore, deviceName: string)
      ensures this.store == store && this.deviceName == deviceName
    {
      this.store, this.deviceName := store, deviceName;
    }

    method DetectConflict(server: int, local: int, base: int) returns (both: bool)
      ensures both <==> Merge.DetectConflict(server, local, base)
    {
      both := server > base && local > base;
    }

    /** `generate_conflict_name` at the time `stamp`. The search ends because the
        table is finite and the names are all different. */
    method GenerateConflictName(p: string, stamp: string) returns (name: string)
      ensures FirstFree(store.rows, p, deviceName, stamp, name) && name != p
    {
      hide Candidate;
      name := Candidate(p, deviceName, stamp, 1);
      CandidateMoves(p, deviceName, stamp, 1);
      var row := store.Lookup(name);
      if row.None? {
        return;
      }
      var k := 2;
      ghost var untried := store.rows.Keys - {name};
      while true
        invariant k >= 2
        invariant forall j: nat | 1 <= j < k :: Live(store.rows, Candidate(p, deviceName, stamp, j))
        invariant forall q | q in store.rows && q !in untried :: exists j: nat :: 1 <= j < k && q == Candidate(p, deviceName, stamp, j)
        decreases untried
      {
        name := Candidate(p, deviceName, stamp, k);
        CandidateMoves(p, deviceName, stamp, k);
        row := store.Lookup(name);
        if row.None? {
          return;
        }
        forall j: nat | 1 <= j < k ensures Candidate(p, deviceName, stamp, j) != name {
          CandidatesDiffer(p, deviceName, stamp, j, k);
        }
        untried := untried - {name};
        k := k + 1;
      }
    }

    /** `resolve_conflict`: the local row moves to a conflict copy; when the rename
        fails, it stays where it is as a pending row. */
    method ResolveConflict(p: string, stamp: string) returns (copy: Option<string>, ghost name: string)
      requires p in store.rows
      modifies store`rows
      ensures FirstFree(old(store.rows), p, deviceName, stamp, name) && name != p
      ensures copy == if name in old(store.rows) then None else Some(name)
      ensures store.rows ==
        if copy.Some? then (old(store.rows) - {p})[name := old(store.rows)[p].(status := Conflict)]
        else SetStatus(old(store.rows), p, Pending)
    {
      var conflictPath := GenerateConflictName(p, stamp);
      name := conflictPath;
      var ok := store.RenamePath(p, conflictPath);
      if !ok {
        store.SetSyncStatus(p, Pending);
        return None, name;
      }
      store.SetSyncStatus(conflictPath, Conflict);
      copy := Some(conflictPath);
    }
  }
}
