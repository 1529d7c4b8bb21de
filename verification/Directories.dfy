/** Directories, which exist only in path names and in a table of explicit ones:
    `list_entries` of `stardustlib/metadata_store.py` and the metadata side of
    `delete_directory` of `stardustlib/jbod_manager.py`. SQL `LIKE` is taken as a
    literal prefix test. */
module Directories {
  import opened Rows
  import opened Paths
  import opened Metadata

  datatype Entry = Entry(isDirectory: bool, size: nat, created: real, modified: real)

  /** The part before the first slash. */
  function Head(s: string): (h: string)
    ensures h <= s && '/' !in h && (|h| < |s| ==> s[|h|] == '/')
  {
    if s == "" || s[0] == '/' then "" else [s[0]] + Head(s[1..])
  }

  function Prefix(dir: string): string {
    if dir != "" && dir[|dir| - 1] == '/' then dir else dir + "/"
  }

  /** The path of an entry as the recursion computes it. */
  function Child(dir: string, name: string): string {
    RStrip(dir) + "/" + name
  }

  /** The row shows up somewhere below the prefix. */
  predicate Below(pre: string, p: string) {
    pre <= p && p != pre
  }

  function NameBelow(pre: string, p: string): string
    requires Below(pre, p)
  {
    Head(p[|pre|..])
  }

  predicate FileChild(t: Table, pre: string, n: string) {
    n != "" && '/' !in n && Live(t, pre + n)
  }

  /** An explicit directory that is listed under the name `n`. */
  predicate Lists(pre: string, q: string, n: string) {
    Below(pre, q) && RStrip(q[|pre|..]) == n && '/' !in n
  }

  /** First components of live paths. */
  ghost predicate HasFiles(t: Table, pre: string, n: string) {
    exists p :: Live(t, p) && Below(pre, p) && NameBelow(pre, p) == n
  }

  /** The names a directory contains; an explicit subdirectory counts too. */
  ghost predicate HasEntry(t: Table, dirs: set<string>, pre: string, n: string) {
    HasFiles(t, pre, n) || exists q :: q in dirs && Lists(pre, q, n)
  }

  /** What one live row contributes. */
  function FileEntry(r: Row, isDirectory: bool): Entry {
    if isDirectory then Entry(true, 0, r.createdAt, r.modifiedAt) else Entry(false, r.fileSize, r.createdAt, r.modifiedAt)
  }

  lemma HeadWhole(s: string)
    ensures '/' !in s ==> Head(s) == s
  {
  }

  /** What the listing says about the name `n` after the rows `rest` are left. */
  ghost predicate Right(t: Table, pre: string, rest: set<string>, n: string, e: Entry) {
    if FileChild(t, pre, n) && pre + n !in rest then e == FileEntry(t[pre + n], false) else e.isDirectory
  }

  ghost predicate Listed(t: Table, pre: string, rest: set<string>, results: map<string, Entry>) {
    && (forall n | n in results :: Right(t, pre, rest, n, results[n]) && HasFiles(t, pre, n))
    && (forall p | Live(t, p) && Below(pre, p) && p !in rest :: NameBelow(pre, p) in results)
  }

  lemma FileChildName(t: Table, pre: string, n: string)
    requires FileChild(t, pre, n)
    ensures Below(pre, pre + n) && (pre + n)[|pre|..] == n && NameBelow(pre, pre + n) == n
  {
    HeadWhole(n);
  }

  lemma RightStep(t: Table, pre: string, rest: set<string>, p: string, n: string, e: Entry)
    requires Right(t, pre, rest, n, e) && p in rest
    requires FileChild(t, pre, n) ==> pre + n != p
    ensures Right(t, pre, rest - {p}, n, e)
  {
  }

  lemma SkipRow(t: Table, pre: string, rest: set<string>, results: map<string, Entry>, p: string)
    requires Listed(t, pre, rest, results) && p in rest && !(Live(t, p) && Below(pre, p))
    ensures Listed(t, pre, rest - {p}, results)
  {
    hide Right, HasFiles, NameBelow, FileChild;
    forall n | n in results ensures Right(t, pre, rest - {p}, n, results[n]) {
      if FileChild(t, pre, n) { FileChildName(t, pre, n); assert Live(t, pre + n) by { LiveChild(t, pre, n); } }
      RightStep(t, pre, rest, p, n, results[n]);
    }
  }

  lemma LiveChild(t: Table, pre: string, n: string)
    requires FileChild(t, pre, n)
    ensures Live(t, pre + n) && '/' !in n
  {
  }

  lemma ListFile(t: Table, pre: string, rest: set<string>, results: map<string, Entry>, p: string)
    requires Listed(t, pre, rest, results) && p in rest && Live(t, p) && Below(pre, p) && '/' !in p[|pre|..]
    ensures Listed(t, pre, rest - {p}, results[p[|pre|..] := FileEntry(t[p], false)])
  {
    var n := p[|pre|..];
    HeadWhole(n);
    assert pre + n == p;
    assert NameBelow(pre, p) == n;
    assert HasFiles(t, pre, n);
    assert Right(t, pre, rest - {p}, n, FileEntry(t[p], false));
    hide Right, HasFiles, NameBelow, FileChild;
    forall m | m in results && m != n ensures Right(t, pre, rest - {p}, m, results[m]) {
      assert (pre + m)[|pre|..] == m;
      RightStep(t, pre, rest, p, m, results[m]);
    }
  }

  lemma ListImplied(t: Table, pre: string, rest: set<string>, results: map<string, Entry>, p: string)
    requires Listed(t, pre, rest, results) && p in rest && Live(t, p) && Below(pre, p) && '/' in p[|pre|..]
    ensures var n := NameBelow(pre, p);
      Listed(t, pre, rest - {p}, if n in results then results else results[n := FileEntry(t[p], true)])
  {
    var n := NameBelow(pre, p);
    assert HasFiles(t, pre, n);
    if n !in results && FileChild(t, pre, n) {
      FileChildName(t, pre, n);
    }
    assert n !in results ==> Right(t, pre, rest, n, FileEntry(t[p], true));
    hide Right, HasFiles, NameBelow, FileChild;
    forall m, e | Right(t, pre, rest, m, e) ensures Right(t, pre, rest - {p}, m, e) {
      if FileChild(t, pre, m) { LiveChild(t, pre, m); assert (pre + m)[|pre|..] == m; }
      RightStep(t, pre, rest, p, m, e);
    }
  }

  /** `list_entries`: the rows come in any order, and the result has the same names
      and kinds for all of them: each direct child once, files before implied
      directories. Only the timestamps of directories depend on the order. */
  method ListEntries(store: MetadataStore, dir: string) returns (results: map<string, Entry>)
    ensures forall n :: n in results <==> HasEntry(store.rows, store.directories.Keys, Prefix(dir), n)
    ensures forall n | n in results :: results[n].isDirectory <==> !FileChild(store.rows, Prefix(dir), n)
    ensures forall n | n in results && FileChild(store.rows, Prefix(dir), n) ::
      var r := store.rows[Prefix(dir) + n];
      results[n].size == r.fileSize && results[n].created == r.createdAt && results[n].modified == r.modifiedAt
    ensures Prefix(dir) == if dir != "" && dir[|dir| - 1] == '/' then dir else dir + "/"
  {
    var pre := Prefix(dir);
    results := ListFiles(store.rows, pre);
    results := AddDirectories(store, pre, results);
  }

  method ListFiles(t: Table, pre: string) returns (results: map<string, Entry>)
    ensures Listed(t, pre, {}, results)
  {
    hide Listed, HasFiles, Right;
    results := map[];
    var rest := t.Keys;
    NothingListed(t, pre);
    while rest != {}
      invariant rest <= t.Keys && Listed(t, pre, rest, results)
      decreases |rest|
    {
      var p :| p in rest;
      if t[p].deleted || !(pre <= p) || p == pre {
        SkipRow(t, pre, rest, results, p);
      } else {
        var relative := p[|pre|..];
        if '/' !in relative {
          ListFile(t, pre, rest, results, p);
          results := results[relative := FileEntry(t[p], false)];
        } else {
          ListImplied(t, pre, rest, results, p);
          if Head(relative) !in results {
            results := results[Head(relative) := FileEntry(t[p], true)];
          }
        }
      }
      rest := rest - {p};
    }
  }

  lemma NothingListed(t: Table, pre: string)
    ensures Listed(t, pre, t.Keys, map[])
  {
  }

  method AddDirectories(store: MetadataStore, pre: string, files: map<string, Entry>) returns (results: map<string, Entry>)
    requires Listed(store.rows, pre, {}, files)
    ensures forall n :: n in results <==> HasEntry(store.rows, store.directories.Keys, pre, n)
    ensures forall n | n in results :: Right(store.rows, pre, {}, n, results[n])
  {
    hide Right, FileChild, Listed, Lists, HasFiles;
    AllListed(store.rows, pre, files);
    results := files;
    var rest := store.directories.Keys;
    ghost var why: map<string, string> := map[];
    while rest != {}
      invariant rest <= store.directories.Keys && results.Keys == files.Keys + why.Keys
      invariant forall n | n in why :: why[n] in store.directories && Lists(pre, why[n], n)
      invariant forall q, n | q in store.directories && q !in rest && Lists(pre, q, n) :: n in results
      invariant forall n | n in results :: Right(store.rows, pre, {}, n, results[n])
      decreases |rest|
    {
      var q :| q in rest;
      ListsOne(pre, q);
      rest := rest - {q};
      if pre <= q && q != pre {
        var relative := RStrip(q[|pre|..]);
        if '/' !in relative && relative !in results {
          var created := store.directories[q];
          NotAFile(store.rows, pre, relative, Entry(true, 0, created, created));
          results, why := results[relative := Entry(true, 0, created, created)], why[relative := q];
        }
      }
    }
    forall n ensures n in results <==> HasEntry(store.rows, store.directories.Keys, pre, n) {
      if n in why { assert Lists(pre, why[n], n); }
    }
  }

  lemma AllListed(t: Table, pre: string, files: map<string, Entry>)
    requires Listed(t, pre, {}, files)
    ensures forall n :: n in files <==> HasFiles(t, pre, n)
    ensures forall n | n in files :: Right(t, pre, {}, n, files[n])
  {
    hide Right;
  }

  lemma ListsOne(pre: string, q: string)
    ensures forall n :: Lists(pre, q, n) <==> Below(pre, q) && RStrip(q[|pre|..]) == n && '/' !in n
  {
  }

  lemma NotAFile(t: Table, pre: string, n: string, e: Entry)
    requires !HasFiles(t, pre, n) && e.isDirectory
    ensures Right(t, pre, {}, n, e)
  {
    if FileChild(t, pre, n) { FileChildName(t, pre, n); }
  }
}
