/** The metadata side of `delete_directory` of `stardustlib/jbod_manager.py`: a
    recursion over directory listings. The physical directories it also removes
    are not part of this module. */
module DirectoryDeletion {
  import opened Rows
  import opened Paths
  import opened Metadata
  import opened Directories

  predicate FilePath(p: string) {
    Normal(p) && p != "/"
  }

  /** A path that a listing can name: nothing ends in a slash there. */
  predicate Plain(p: string) {
    p != "" && p[|p| - 1] != '/'
  }

  predicate StrictAncestor(pre: string, b: string, a: string) {
    Below(pre, b) && Plain(b) && b + "/" <= a
  }

  predicate Ancestor(pre: string, b: string, a: string) {
    StrictAncestor(pre, b, a) || (b == a && Below(pre, a) && Plain(a))
  }

  /** Some live file below the prefix is an ancestor of the path. */
  ghost predicate Hidden(t: Table, pre: string, p: string) {
    exists f :: Live(t, f) && StrictAncestor(pre, f, p)
  }

  ghost predicate Reached(t: Table, pre: string, p: string) {
    Live(t, p) && Below(pre, p) && Plain(p) && !Hidden(t, pre, p)
  }

  function Tombstone(r: Row, now: real): Row {
    r.(deleted := true, version := r.version + 1, status := Pending, modifiedAt := now)
  }

  /** The files under the given entries become tombstones. */
  ghost function DeleteSome(t: Table, pre: string, names: set<string>, now: real): Table {
    map p | p in t :: if Reached(t, pre, p) && NameBelow(pre, p) in names then Tombstone(t[p], now) else t[p]
  }

  ghost function DeleteUnder(t: Table, pre: string, now: real): Table {
    map p | p in t :: if Reached(t, pre, p) then Tombstone(t[p], now) else t[p]
  }

  /** The parent's listing names the path. */
  ghost predicate IsListed(t: Table, dirs: set<string>, a: string) {
    || (exists p :: Live(t, p) && (p == a || a + "/" <= p))
    || (exists q :: q in dirs && RStrip(q) == a)
  }

  /** The directories the recursion gets to: the one it starts from, and every path
      below whose ancestors, itself included, are all listed and no live files. */
  ghost predicate Visits(t: Table, dirs: set<string>, dir: string, a: string) {
    a == RStrip(dir) ||
    (&& Below(Prefix(dir), a) && FilePath(a)
     && forall b | Ancestor(Prefix(dir), b, a) :: IsListed(t, dirs, b) && !Live(t, b))
  }

  /** A directory the recursion gets to has an entry without a name: some live path
      continues there with a double slash, or some explicit directory ends so. */
  ghost predicate Trap(t: Table, dirs: set<string>, dir: string) {
    exists a :: Visits(t, dirs, dir, a) && HasEntry(t, dirs, a + "/", "")
  }

  /** The explicit directories that go. */
  ghost function Gone(t: Table, dirs: set<string>, dir: string): set<string> {
    set a | a in dirs && Visits(t, dirs, dir, a)
  }

  ghost function GoneSome(t: Table, dirs: set<string>, dir: string, names: set<string>): set<string> {
    set a | a in dirs && a != RStrip(dir) && Visits(t, dirs, dir, a) && NameBelow(Prefix(dir), a) in names
  }

  /** The explicit directories left when the entries `names` are dealt with. */
  ghost function DirectoriesLeft(t: Table, d: map<string, real>, dir: string, names: set<string>): map<string, real> {
    d - GoneSome(t, d.Keys, dir, names)
  }

  lemma AllLeft(t: Table, d: map<string, real>, dir: string)
    ensures DirectoriesLeft(t, d, dir, {}) == d
  {
    assert GoneSome(t, d.Keys, dir, {}) == {} by { hide NameBelow, Visits; }
  }

  /* Path arithmetic. */

  lemma Stripped(dir: string)
    requires Normal(dir)
    ensures RStrip(dir) == (if dir == "/" then "" else dir) && RStrip(dir) + "/" == Prefix(dir)
    ensures Prefix(dir) != "" && Prefix(dir)[|Prefix(dir)| - 1] == '/' && !Below(Prefix(dir), RStrip(dir))
  {
    var r := RStrip(dir);
    if dir != "/" { NothingToStrip(dir); } else { assert r == ""; }
  }

  lemma AppendName(r: string, n: string)
    requires r == "" || (Normal(r) && r != "/")
    requires n != "" && '/' !in n
    ensures FilePath(r + "/" + n)
  {
    var c := r + "/" + n;
    forall i | 0 <= i < |c| - 1 ensures !(c[i] == '/' && c[i + 1] == '/') {
      if i + 1 < |r| { NoDouble(r, i); }
    }
    assert c[|c| - 1] == n[|n| - 1];
  }

  lemma NothingToStrip(c: string)
    requires c != "" && c[|c| - 1] != '/'
    ensures RStrip(c) == c && Prefix(c) == c + "/"
  {
  }

  lemma ChildFacts(dir: string, n: string)
    requires Normal(dir) && n != "" && '/' !in n
    ensures Child(dir, n) == Prefix(dir) + n && FilePath(Child(dir, n))
    ensures RStrip(Child(dir, n)) == Child(dir, n) && Prefix(Child(dir, n)) == Prefix(dir) + n + "/"
    ensures |Child(dir, n)| > |dir|
  {
    Stripped(dir);
    AppendName(RStrip(dir), n);
    NothingToStrip(Child(dir, n));
    hide HasDouble, RStrip, Prefix;
  }

  lemma NoDouble(p: string, i: nat)
    requires !HasDouble(p) && i < |p| - 1
    ensures !(p[i] == '/' && p[i + 1] == '/')
  {
  }

  lemma HeadIs(s: string, n: string)
    requires n <= s && '/' !in n && (|n| == |s| || s[|n|] == '/')
    ensures Head(s) == n
  {
    if n != "" { HeadIs(s[1..], n[1..]); assert n == [n[0]] + n[1..]; }
  }

  predicate Name(n: string) {
    n != "" && '/' !in n
  }

  /** The first component below the prefix. */
  lemma Branch(pre: string, p: string)
    requires Below(pre, p)
    ensures var n := NameBelow(pre, p);
      '/' !in n && (p == pre + n || pre + n + "/" <= p) && (n == "" <==> p[|pre|] == '/')
  {
    var rel := p[|pre|..];
    HeadShape(rel);
    hide Head;
    assert p == pre + rel && rel[0] == p[|pre|];
    Reassociate(pre, p, rel, Head(rel));
  }

  lemma Reassociate(pre: string, p: string, rel: string, n: string)
    requires p == pre + rel && (rel == n || (|n| < |rel| && rel == n + "/" + rel[|n| + 1..]))
    ensures p == pre + n || pre + n + "/" <= p
  {
    if rel != n { assert p == (pre + n + "/") + rel[|n| + 1..]; }
  }

  lemma HeadShape(s: string)
    requires s != ""
    ensures s == Head(s) || (|Head(s)| < |s| && s == Head(s) + "/" + s[|Head(s)| + 1..])
    ensures Head(s) == "" <==> s[0] == '/'
  {
    var h := Head(s);
    if h != s { assert s == h + s[|h|..] && s[|h|] == '/'; }
  }

  lemma BranchBack(pre: string, n: string, p: string)
    requires Name(n) && (p == pre + n || pre + n + "/" <= p)
    ensures Below(pre, p) && NameBelow(pre, p) == n
  {
    var rel := p[|pre|..];
    assert pre <= p && n <= rel;
    HeadIs(rel, n);
  }

  /** Ancestors of a path below a child: the child, and those below the child. */
  lemma AncestorSplit(pre: string, n: string, a: string, b: string)
    requires Name(n) && Below(pre + n + "/", a)
    ensures StrictAncestor(pre, b, a) <==> b == pre + n || StrictAncestor(pre + n + "/", b, a)
    ensures Ancestor(pre, b, a) <==> b == pre + n || Ancestor(pre + n + "/", b, a)
  {
    var c := pre + n;
    assert c + "/" <= a && c[|c| - 1] == n[|n| - 1];
    NoSlashInside(pre, n, a);
    if StrictAncestor(pre, b, a) {
      SlashAfter(b, a);
      assert |b| >= |c|;
      if |b| == |c| {
        assert b == a[..|c|] == c;
      } else {
        assert c + "/" == a[..|c| + 1] == b[..|c| + 1];
      }
    }
  }

  lemma SlashAfter(b: string, a: string)
    requires b + "/" <= a
    ensures |b| < |a| && a[|b|] == '/'
  {
    assert (b + "/")[|b|] == '/';
  }

  lemma NoSlashInside(pre: string, n: string, a: string)
    requires '/' !in n && pre + n <= a
    ensures forall i | |pre| <= i < |pre + n| :: a[i] != '/'
  {
    forall i | |pre| <= i < |pre + n| ensures a[i] != '/' {
      assert a[i] == (pre + n)[i] == n[i - |pre|];
    }
  }

  lemma AncestorOfChild(pre: string, n: string, b: string)
    requires Name(n)
    ensures !StrictAncestor(pre, b, pre + n)
    ensures Ancestor(pre, b, pre + n) <==> b == pre + n
  {
    var c := pre + n;
    assert c[|c| - 1] == n[|n| - 1];
    NoSlashInside(pre, n, c);
    assert b + "/" <= c && |b| >= |pre| ==> c[|b|] == '/' by { if b + "/" <= c { SlashAfter(b, c); } }
  }

  lemma StripRel(pre: string, q: string, n: string)
    requires pre != "" && pre[|pre| - 1] == '/' && Name(n)
    ensures Lists(pre, q, n) <==> RStrip(q) == pre + n
  {
    var c := pre + n;
    assert c[|c| - 1] == n[|n| - 1];
    if RStrip(q) == c {
      var rel := q[|pre|..];
      assert q == c + q[|c|..];
      assert rel == n + q[|c|..];
      StripTo(rel, n);
    }
    if Lists(pre, q, n) {
      var rel := q[|pre|..];
      assert rel == n + rel[|n|..];
      assert q == c + rel[|n|..];
      StripTo(q, c);
    }
  }

  lemma StripTo(s: string, n: string)
    requires n <= s && Plain(n) && forall i | |n| <= i < |s| :: s[i] == '/'
    ensures RStrip(s) == n
    decreases |s|
  {
    if |s| > |n| { StripTo(s[..|s| - 1], n); } else { assert s == n; }
  }

  /** A name is in the listing of a directory iff its path is listed. */
  lemma EntryIff(t: Table, dirs: set<string>, pre: string, n: string)
    requires pre != "" && pre[|pre| - 1] == '/' && Name(n)
    ensures HasEntry(t, dirs, pre, n) <==> IsListed(t, dirs, pre + n)
  {
    var c := pre + n;
    forall p ensures Below(pre, p) && NameBelow(pre, p) == n <==> p == c || c + "/" <= p {
      if Below(pre, p) { Branch(pre, p); }
      if p == c || c + "/" <= p { BranchBack(pre, n, p); }
    }
    forall q ensures Lists(pre, q, n) <==> RStrip(q) == c { StripRel(pre, q, n); }
    hide NameBelow, Lists, RStrip, Below;
  }

  lemma EntryNames(t: Table, dirs: set<string>, pre: string, n: string)
    requires HasEntry(t, dirs, pre, n)
    ensures '/' !in n
  {
  }

  /* Visiting a child. */

  lemma VisitsDown(t: Table, dirs: set<string>, dir: string, a: string)
    requires Normal(dir) && Visits(t, dirs, dir, a) && a != RStrip(dir)
    ensures Below(Prefix(dir), a)
    ensures var n := NameBelow(Prefix(dir), a);
      && Name(n) && HasEntry(t, dirs, Prefix(dir), n) && !Live(t, Prefix(dir) + n)
      && Visits(t, dirs, Child(dir, n), a)
  {
    var pre := Prefix(dir);
    Stripped(dir);
    Branch(pre, a);
    NoDouble(a, |pre| - 1);
    var n := NameBelow(pre, a);
    ChildFacts(dir, n);
    assert Plain(a);
    if a == pre + n {
      AncestorOfChild(pre, n, pre + n);
    } else {
      assert a != pre + n + "/" by { assert (pre + n + "/")[|pre + n|] == '/'; }
      AncestorSplit(pre, n, a, pre + n);
      forall b ensures Ancestor(pre + n + "/", b, a) ==> Ancestor(pre, b, a) { AncestorSplit(pre, n, a, b); }
    }
    EntryIff(t, dirs, pre, n);
  }

  lemma VisitsUp(t: Table, dirs: set<string>, dir: string, n: string, a: string)
    requires Normal(dir) && Name(n) && HasEntry(t, dirs, Prefix(dir), n) && !Live(t, Prefix(dir) + n)
    requires Visits(t, dirs, Child(dir, n), a)
    ensures Visits(t, dirs, dir, a) && a != RStrip(dir) && Below(Prefix(dir), a) && NameBelow(Prefix(dir), a) == n
  {
    var pre := Prefix(dir);
    Stripped(dir);
    ChildFacts(dir, n);
    BranchBack(pre, n, a);
    EntryIff(t, dirs, pre, n);
    forall b | Ancestor(pre, b, a) ensures IsListed(t, dirs, b) && !Live(t, b) {
      if a == pre + n { AncestorOfChild(pre, n, b); } else { AncestorSplit(pre, n, a, b); }
    }
  }

  lemma TrapUp(t: Table, dirs: set<string>, dir: string, n: string)
    requires Normal(dir) && Name(n) && HasEntry(t, dirs, Prefix(dir), n) && !Live(t, Prefix(dir) + n)
    requires Trap(t, dirs, Child(dir, n))
    ensures Trap(t, dirs, dir)
  {
    hide Visits;
    var a :| Visits(t, dirs, Child(dir, n), a) && HasEntry(t, dirs, a + "/", "");
    VisitsUp(t, dirs, dir, n, a);
  }

  /** Without a trap every entry has a name. */
  lemma EntriesNamed(t: Table, dirs: set<string>, dir: string, n: string)
    requires Normal(dir) && !Trap(t, dirs, dir) && HasEntry(t, dirs, Prefix(dir), n)
    ensures Name(n)
  {
    EntryNames(t, dirs, Prefix(dir), n);
    Stripped(dir);
    assert Visits(t, dirs, dir, RStrip(dir));
    hide HasEntry, RStrip;
  }

  /* When the recursion ends. */

  /** Every branch of the recursion is at most `depth` directories long. */
  ghost predicate EndsWithin(t: Table, dirs: set<string>, dir: string, depth: nat)
    decreases depth
  {
    depth > 0 &&
    forall n | HasEntry(t, dirs, Prefix(dir), n) && !FileChild(t, Prefix(dir), n) :: EndsWithin(t, dirs, Child(dir, n), depth - 1)
  }

  ghost predicate Bounded(t: Table, dirs: set<string>, bound: nat) {
    forall p | p in t || p in dirs :: |p| <= bound
  }

  lemma StripShorter(q: string)
    ensures |RStrip(q)| <= |q|
  {
  }

  lemma ListedBounded(t: Table, dirs: set<string>, a: string, bound: nat)
    requires Bounded(t, dirs, bound) && IsListed(t, dirs, a)
    ensures |a| <= bound
  {
    if q :| q in dirs && RStrip(q) == a { StripShorter(q); }
  }

  lemma FileChildIff(t: Table, pre: string, n: string)
    requires Name(n)
    ensures FileChild(t, pre, n) <==> Live(t, pre + n)
  {
  }

  lemma {:induction false} Ends(t: Table, dirs: set<string>, dir: string, bound: nat, depth: nat)
    requires Normal(dir) && !Trap(t, dirs, dir) && Bounded(t, dirs, bound) && depth > 0 && depth > bound - |dir|
    ensures EndsWithin(t, dirs, dir, depth)
    decreases depth
  {
    hide Trap, Bounded, IsListed, HasEntry, Prefix, Child, Normal, FileChild;
    forall n | HasEntry(t, dirs, Prefix(dir), n) && !FileChild(t, Prefix(dir), n)
      ensures EndsWithin(t, dirs, Child(dir, n), depth - 1)
    {
      EntriesNamed(t, dirs, dir, n);
      ChildFacts(dir, n);
      Stripped(dir);
      EntryIff(t, dirs, Prefix(dir), n);
      ListedBounded(t, dirs, Child(dir, n), bound);
      FileChildIff(t, Prefix(dir), n);
      FilePathNormal(Child(dir, n));
      if Trap(t, dirs, Child(dir, n)) {
        TrapUp(t, dirs, dir, n);
      }
      Ends(t, dirs, Child(dir, n), bound, depth - 1);
    }
  }

  lemma FilePathNormal(p: string)
    requires FilePath(p)
    ensures Normal(p)
  {
  }

  /** An entry without a name leads back to the very same directory. */
  lemma {:induction false} SameAgain(t: Table, dirs: set<string>, dir: string, depth: nat)
    requires HasEntry(t, dirs, RStrip(dir) + "/", "") && Prefix(dir) == RStrip(dir) + "/"
    ensures !EndsWithin(t, dirs, dir, depth)
    decreases depth
  {
    if depth > 0 {
      var child := Child(dir, "");
      SlashChild(RStrip(dir));
      assert child == RStrip(dir) + "/";
      hide HasEntry, RStrip, Prefix;
      SameAgain(t, dirs, child, depth - 1);
      assert !FileChild(t, Prefix(dir), "");
    }
  }

  lemma SlashChild(r: string)
    requires r == "" || r[|r| - 1] != '/'
    ensures RStrip(r + "/") == r && Prefix(r + "/") == r + "/"
  {
    assert (r + "/")[..|r|] == r;
  }

  lemma {:induction false} NeverEnds(t: Table, dirs: set<string>, dir: string, a: string, depth: nat)
    requires Normal(dir) && Visits(t, dirs, dir, a) && HasEntry(t, dirs, a + "/", "")
    ensures !EndsWithin(t, dirs, dir, depth)
    decreases depth
  {
    Stripped(dir);
    hide Visits, HasEntry, RStrip, Prefix, Normal, Child, FileChild;
    if depth > 0 {
      if a == RStrip(dir) {
        SameAgain(t, dirs, dir, depth);
      } else {
        VisitsDown(t, dirs, dir, a);
        var n := NameBelow(Prefix(dir), a);
        ChildFacts(dir, n);
        FilePathNormal(Child(dir, n));
        FileChildIff(t, Prefix(dir), n);
        NeverEnds(t, dirs, Child(dir, n), a, depth - 1);
      }
    }
  }

  lemma {:induction false} LongestPath(ps: set<string>) returns (bound: nat)
    ensures forall p | p in ps :: |p| <= bound
    decreases |ps|
  {
    if ps == {} {
      bound := 0;
    } else {
      var p :| p in ps;
      bound := LongestPath(ps - {p});
      bound := if bound < |p| then |p| else bound;
      assert ps == ps - {p} + {p};
    }
  }

  /** The recursion has finite depth iff it meets no directory behind which some
      live path, or the end of some explicit directory, has a double slash. */
  lemma EndsIff(t: Table, dirs: set<string>, dir: string)
    requires Normal(dir)
    ensures (exists depth: nat :: EndsWithin(t, dirs, dir, depth)) <==> !Trap(t, dirs, dir)
  {
    if Trap(t, dirs, dir) {
      var a :| Visits(t, dirs, dir, a) && HasEntry(t, dirs, a + "/", "");
      hide Visits, HasEntry;
      forall depth: nat ensures !EndsWithin(t, dirs, dir, depth) { NeverEnds(t, dirs, dir, a, depth); }
    } else {
      var bound := LongestPath(t.Keys + dirs);
      Ends(t, dirs, dir, bound, bound + 1);
    }
  }

  /** In full: what such a double slash looks like. */
  lemma TrapIs(t: Table, dirs: set<string>, a: string)
    requires a == "" || a[|a| - 1] != '/'
    ensures HasEntry(t, dirs, a + "/", "") <==>
      || (exists p :: Live(t, p) && a + "//" <= p)
      || (exists q :: q in dirs && RStrip(q) == a && |q| >= |a| + 2)
  {
    var pre := a + "/";
    assert pre + "/" == a + "//";
    forall p ensures Below(pre, p) && NameBelow(pre, p) == "" <==> a + "//" <= p {
      if a + "//" <= p { assert p[|pre|] == '/'; assert pre <= p; }
      if Below(pre, p) { Branch(pre, p); }
    }
    forall q ensures Lists(pre, q, "") <==> RStrip(q) == a && |q| >= |a| + 2 { SlashesOnly(a, q); }
    hide NameBelow, Lists, RStrip, Below;
  }

  lemma SlashesOnly(a: string, q: string)
    requires a == "" || a[|a| - 1] != '/'
    ensures Lists(a + "/", q, "") <==> RStrip(q) == a && |q| >= |a| + 2
  {
    var pre := a + "/";
    if RStrip(q) == a && |q| >= |a| + 2 {
      assert q == a + q[|a|..] && q[|a|] == '/';
      assert pre <= q && RStrip(q[|pre|..]) == "" by { AllSlashes(q[|pre|..]); }
    }
    if Lists(pre, q, "") {
      assert forall i | |a| <= i < |q| :: q[i] == '/';
      if a == "" { AllSlashes(q); } else { StripTo(q, a); }
    }
  }

  lemma AllSlashes(s: string)
    requires forall i | 0 <= i < |s| :: s[i] == '/'
    ensures RStrip(s) == ""
  {
    if s != "" { AllSlashes(s[..|s| - 1]); }
  }

  /* One entry of a listing. */

  lemma ReachedBelow(t: Table, pre: string, n: string, p: string)
    requires Name(n) && Live(t, p) && Below(pre, p)
    ensures NameBelow(pre, p) == n && Reached(t, pre, p) <==>
      (p == pre + n || (!Live(t, pre + n) && Reached(t, pre + n + "/", p)))
  {
    var c := pre + n;
    Branch(pre, p);
    if NameBelow(pre, p) == n {
      if p == c {
        forall f ensures !StrictAncestor(pre, f, p) { AncestorOfChild(pre, n, f); }
        assert Plain(c) by { assert c[|c| - 1] == n[|n| - 1]; }
      } else if p == c + "/" {
        assert p[|p| - 1] == '/';
      } else {
        forall f ensures StrictAncestor(pre, f, p) <==> f == c || StrictAncestor(c + "/", f, p) { AncestorSplit(pre, n, p, f); }
      }
    } else {
      if p == c || c + "/" <= p { BranchBack(pre, n, p); }
    }
  }

  /** Which rows the entry `n` accounts for, in the table as it is by then. */
  lemma EntryStep(t: Table, pre: string, done: set<string>, n: string, now: real)
    requires Name(n) && n !in done
    ensures var cur := DeleteSome(t, pre, done, now);
      && (Live(t, pre + n) ==> Rows.Delete(cur, pre + n, now) == DeleteSome(t, pre, done + {n}, now))
      && (!Live(t, pre + n) ==> DeleteUnder(cur, pre + n + "/", now) == DeleteSome(t, pre, done + {n}, now))
      && (Live(t, pre + n) <==> Live(cur, pre + n))
  {
    var cur, next := DeleteSome(t, pre, done, now), DeleteSome(t, pre, done + {n}, now);
    BranchBack(pre, n, pre + n);
    hide Hidden;
    forall p | p in t
      ensures next[p] == if Live(t, p) && Below(pre, p) && NameBelow(pre, p) == n && Reached(t, pre, p) then Tombstone(t[p], now) else cur[p]
      ensures Live(t, p) && Below(pre, p) ==>
        (NameBelow(pre, p) == n && Reached(t, pre, p) <==> p == pre + n || (!Live(t, pre + n) && Reached(t, pre + n + "/", p)))
      ensures Reached(t, pre + n + "/", p) ==> Below(pre, p)
    {
      if Live(t, p) && Below(pre, p) { ReachedBelow(t, pre, n, p); }
      if Below(pre + n + "/", p) { BranchBack(pre, n, p); }
    }
    if !Live(t, pre + n) {
      forall p | p in t ensures Reached(cur, pre + n + "/", p) <==> Reached(t, pre + n + "/", p) {
        ReachedLater(t, pre, done, n, now, p);
      }
    }
  }

  /** What is below a child is as it was before its siblings were deleted. */
  lemma SameBelow(t: Table, pre: string, done: set<string>, n: string, now: real, f: string)
    requires Name(n) && n !in done && (f == pre + n || pre + n + "/" <= f)
    ensures Live(DeleteSome(t, pre, done, now), f) <==> Live(t, f)
  {
    BranchBack(pre, n, f);
    hide Hidden;
  }

  lemma ReachedLater(t: Table, pre: string, done: set<string>, n: string, now: real, p: string)
    requires Name(n) && n !in done
    ensures Reached(DeleteSome(t, pre, done, now), pre + n + "/", p) <==> Reached(t, pre + n + "/", p)
  {
    var cur := DeleteSome(t, pre, done, now);
    forall f | Below(pre + n + "/", f) ensures Live(cur, f) <==> Live(t, f) { SameBelow(t, pre, done, n, now, f); }
    hide DeleteSome;
  }

  lemma NoEntries(t: Table, pre: string, now: real)
    ensures DeleteSome(t, pre, {}, now) == t
  {
    hide Hidden, NameBelow;
  }

  /** The entries of a listing account for every file and directory that goes. */
  lemma AllEntries(t: Table, dirs: set<string>, dir: string, names: set<string>, now: real)
    requires Normal(dir) && forall n :: n in names <==> HasEntry(t, dirs, Prefix(dir), n)
    ensures DeleteSome(t, Prefix(dir), names, now) == DeleteUnder(t, Prefix(dir), now)
    ensures GoneSome(t, dirs, dir, names) == Gone(t, dirs, dir) - {RStrip(dir)}
  {
    var pre := Prefix(dir);
    forall p | Live(t, p) && Below(pre, p) ensures NameBelow(pre, p) in names {
      assert HasFiles(t, pre, NameBelow(pre, p));
    }
    forall a | Visits(t, dirs, dir, a) && a != RStrip(dir) ensures NameBelow(pre, a) in names { VisitsDown(t, dirs, dir, a); }
    hide Hidden, NameBelow, Visits, HasEntry;
  }

  /** Directories below a child, in the tables as they are by then. */
  lemma VisitsLater(t: Table, dirs: set<string>, dir: string, done: set<string>, now: real, n: string, a: string)
    requires Normal(dir) && Name(n) && n !in done
    requires a == Prefix(dir) + n || Below(Prefix(dir) + n + "/", a)
    ensures var cur, dirs' := DeleteSome(t, Prefix(dir), done, now), dirs - GoneSome(t, dirs, dir, done);
      && (IsListed(cur, dirs', a) <==> IsListed(t, dirs, a)) && (Live(cur, a) <==> Live(t, a))
  {
    var pre := Prefix(dir);
    var cur, gone := DeleteSome(t, pre, done, now), GoneSome(t, dirs, dir, done);
    SameBelow(t, pre, done, n, now, a);
    forall p | p == a || a + "/" <= p ensures Live(cur, p) <==> Live(t, p) {
      assert p == pre + n || pre + n + "/" <= p by { if p != a && a == pre + n { assert a + "/" == pre + n + "/"; } }
      SameBelow(t, pre, done, n, now, p);
    }
    forall q | q in gone ensures RStrip(q) != a {
      assert Plain(q);
      NothingToStrip(q);
      if q == a { BranchBack(pre, n, a); }
    }
    hide DeleteSome, GoneSome;
  }

  lemma VisitsSame(t: Table, dirs: set<string>, dir: string, done: set<string>, now: real, n: string, a: string)
    requires Normal(dir) && Name(n) && n !in done
    ensures Visits(DeleteSome(t, Prefix(dir), done, now), dirs - GoneSome(t, dirs, dir, done), Child(dir, n), a)
       <==> Visits(t, dirs, Child(dir, n), a)
  {
    ChildFacts(dir, n);
    forall b | Ancestor(Prefix(dir) + n + "/", b, a)
      ensures var cur, dirs' := DeleteSome(t, Prefix(dir), done, now), dirs - GoneSome(t, dirs, dir, done);
        && (IsListed(cur, dirs', b) <==> IsListed(t, dirs, b)) && (Live(cur, b) <==> Live(t, b))
    {
      VisitsLater(t, dirs, dir, done, now, n, b);
    }
    hide DeleteSome, GoneSome, IsListed, FilePath, RStrip;
  }

  lemma TrapLater(t: Table, dirs: set<string>, dir: string, done: set<string>, now: real, n: string)
    requires Normal(dir) && Name(n) && n !in done && HasEntry(t, dirs, Prefix(dir), n) && !Live(t, Prefix(dir) + n)
    requires !Trap(t, dirs, dir)
    ensures !Trap(DeleteSome(t, Prefix(dir), done, now), dirs - GoneSome(t, dirs, dir, done), Child(dir, n))
  {
    var cur, dirs' := DeleteSome(t, Prefix(dir), done, now), dirs - GoneSome(t, dirs, dir, done);
    forall a | Visits(cur, dirs', Child(dir, n), a) ensures !HasEntry(cur, dirs', a + "/", "") {
      VisitsSame(t, dirs, dir, done, now, n, a);
      VisitsUp(t, dirs, dir, n, a);
      FewerEntries(t, Prefix(dir), done, now, dirs, dirs', a + "/");
      hide Visits, HasEntry;
      assert !HasEntry(t, dirs, a + "/", "");
    }
  }

  lemma FewerEntries(t: Table, pre: string, done: set<string>, now: real, dirs: set<string>, dirs': set<string>, other: string)
    requires dirs' <= dirs
    ensures HasEntry(DeleteSome(t, pre, done, now), dirs', other, "") ==> HasEntry(t, dirs, other, "")
  {
    hide Hidden, NameBelow, Lists;
  }

  /** What happens to the explicit directories under the entry `n`. */
  lemma GoneStep(t: Table, dirs: set<string>, dir: string, done: set<string>, now: real, n: string)
    requires Normal(dir) && Name(n) && n !in done && HasEntry(t, dirs, Prefix(dir), n)
    ensures var cur, gone, next := DeleteSome(t, Prefix(dir), done, now), GoneSome(t, dirs, dir, done), GoneSome(t, dirs, dir, done + {n});
      if Live(t, Prefix(dir) + n) then next == gone
      else dirs - gone - Gone(cur, dirs - gone, Child(dir, n)) == dirs - next
  {
    var pre := Prefix(dir);
    var cur, gone, next := DeleteSome(t, pre, done, now), GoneSome(t, dirs, dir, done), GoneSome(t, dirs, dir, done + {n});
    forall a | Visits(t, dirs, dir, a) && a != RStrip(dir) && NameBelow(pre, a) == n
      ensures !Live(t, pre + n) && Visits(t, dirs, Child(dir, n), a)
    {
      VisitsDown(t, dirs, dir, a);
    }
    forall a | !Live(t, pre + n) && Visits(t, dirs, Child(dir, n), a)
      ensures Visits(t, dirs, dir, a) && a != RStrip(dir) && NameBelow(pre, a) == n
    {
      VisitsUp(t, dirs, dir, n, a);
    }
    forall a ensures Visits(cur, dirs - gone, Child(dir, n), a) <==> Visits(t, dirs, Child(dir, n), a) {
      VisitsSame(t, dirs, dir, done, now, n, a);
    }
    hide Visits, NameBelow, DeleteSome, HasEntry, Child;
  }

  /* The recursion. */

  /** `delete_directory` with one reading of the clock: exactly the files reached
      become tombstones, and exactly the directories visited lose their entry. */
  method DeleteDirectory(store: MetadataStore, dir: string, now: real)
    requires Normal(dir) && !Trap(store.rows, store.directories.Keys, dir)
    modifies store`rows, store`directories
    ensures store.rows == DeleteUnder(old(store.rows), Prefix(dir), now)
    ensures store.directories == old(store.directories) - Gone(old(store.rows), old(store.directories).Keys, dir)
  {
    ghost var bound := LongestPath(store.rows.Keys + store.directories.Keys);
    hide Trap, Visits, DeleteUnder, Normal, Prefix;
    DeleteWithin(store, dir, now, bound);
  }

  /** It ends because a listed subdirectory is a longer path than its parent, and
      no longer than some path in the tables. */
  method DeleteWithin(store: MetadataStore, dir: string, now: real, ghost bound: nat)
    requires Normal(dir) && !Trap(store.rows, store.directories.Keys, dir)
    requires Bounded(store.rows, store.directories.Keys, bound)
    modifies store`rows, store`directories
    ensures store.rows == DeleteUnder(old(store.rows), Prefix(dir), now)
    ensures store.directories == old(store.directories) - Gone(old(store.rows), old(store.directories).Keys, dir)
    decreases bound - |dir|, 2
  {
    hide Normal, Trap, Bounded, Prefix, RStrip, DeleteSome, DeleteUnder, Gone, GoneSome, HasEntry, FileChild, Visits;
    var entries := ListEntries(store, dir);
    ghost var t, d := store.rows, store.directories;
    DeleteEntries(store, dir, entries, now, bound);
    AllEntries(t, d.Keys, dir, entries.Keys, now);
    StartVisited(t, d.Keys, dir);
    store.DeleteDirectoryEntry(RStrip(dir));
    WithoutStart(d, Gone(t, d.Keys, dir), RStrip(dir));
  }

  lemma StartVisited(t: Table, dirs: set<string>, dir: string)
    ensures RStrip(dir) in dirs ==> RStrip(dir) in Gone(t, dirs, dir)
  {
  }

  lemma WithoutStart(d: map<string, real>, gone: set<string>, start: string)
    requires start in d ==> start in gone
    ensures d - (gone - {start}) - {start} == d - gone
  {
  }

  method DeleteEntries(store: MetadataStore, dir: string, entries: map<string, Entry>, now: real, ghost bound: nat)
    requires Normal(dir) && !Trap(store.rows, store.directories.Keys, dir)
    requires Bounded(store.rows, store.directories.Keys, bound)
    requires forall n | n in entries :: HasEntry(store.rows, store.directories.Keys, Prefix(dir), n)
    requires forall n | n in entries :: entries[n].isDirectory <==> !FileChild(store.rows, Prefix(dir), n)
    modifies store`rows, store`directories
    ensures store.rows == DeleteSome(old(store.rows), Prefix(dir), entries.Keys, now)
    ensures store.directories == DirectoriesLeft(old(store.rows), old(store.directories), dir, entries.Keys)
    decreases bound - |dir|, 1
  {
    hide Normal, Trap, Bounded, Prefix, RStrip, DeleteSome, DirectoriesLeft, HasEntry, FileChild;
    ghost var t, d := store.rows, store.directories;
    NoEntries(t, Prefix(dir), now);
    AllLeft(t, d, dir);
    var rest := entries.Keys;
    ghost var done: set<string> := {};
    while rest != {}
      invariant done + rest == entries.Keys && done !! rest
      invariant store.rows == DeleteSome(t, Prefix(dir), done, now)
      invariant store.directories == DirectoriesLeft(t, d, dir, done)
      decreases |rest|
    {
      var n :| n in rest;
      DeleteEntry(store, dir, n, entries[n].isDirectory, now, t, d, done, bound);
      rest, done := rest - {n}, done + {n};
    }
  }

  /** One entry of the listing: `t` and `d` are the tables when it was made, `done`
      the entries already dealt with. */
  method DeleteEntry(store: MetadataStore, dir: string, n: string, isDirectory: bool, now: real,
                     ghost t: Table, ghost d: map<string, real>, ghost done: set<string>, ghost bound: nat)
    requires Normal(dir) && !Trap(t, d.Keys, dir) && Bounded(t, d.Keys, bound)
    requires HasEntry(t, d.Keys, Prefix(dir), n) && n !in done && (isDirectory <==> !FileChild(t, Prefix(dir), n))
    requires store.rows == DeleteSome(t, Prefix(dir), done, now) && store.directories == DirectoriesLeft(t, d, dir, done)
    modifies store`rows, store`directories
    ensures store.rows == DeleteSome(t, Prefix(dir), done + {n}, now)
    ensures store.directories == DirectoriesLeft(t, d, dir, done + {n})
    decreases bound - |dir|, 0
  {
    hide Normal, Trap, Bounded, Prefix, RStrip, DeleteSome, DeleteUnder, Gone, GoneSome, HasEntry, FileChild, Rows.Delete, Child, Visits, IsListed;
    ghost var pre := Prefix(dir);
    Stripped(dir);
    EntriesNamed(t, d.Keys, dir, n);
    ChildFacts(dir, n);
    FilePathNormal(Child(dir, n));
    EntryIff(t, d.Keys, pre, n);
    ListedBounded(t, d.Keys, Child(dir, n), bound);
    EntryStep(t, pre, done, n, now);
    GoneStep(t, d.Keys, dir, done, now, n);
    FileChildIff(t, pre, n);
    if isDirectory {
      TrapLater(t, d.Keys, dir, done, now, n);
      StillBounded(t, d.Keys, pre, done, now, store.directories.Keys, bound);
      assert store.directories.Keys == d.Keys - GoneSome(t, d.Keys, dir, done);
      DeleteWithin(store, Child(dir, n), now, bound);
      SameKeys(d, store.directories, d - GoneSome(t, d.Keys, dir, done + {n}));
    } else {
      var row := store.Lookup(Child(dir, n));
      if row.Some? {
        store.Delete(Child(dir, n), now);
      }
    }
  }

  lemma SameKeys(d: map<string, real>, d1: map<string, real>, d2: map<string, real>)
    requires d1.Keys == d2.Keys && d1.Items <= d.Items && d2.Items <= d.Items
    ensures d1 == d2
  {
    forall k | k in d1 ensures d1[k] == d2[k] {
      assert (k, d1[k]) in d1.Items && (k, d2[k]) in d2.Items;
    }
  }

  lemma StillBounded(t: Table, dirs: set<string>, pre: string, done: set<string>, now: real, dirs': set<string>, bound: nat)
    requires Bounded(t, dirs, bound) && dirs' <= dirs
    ensures Bounded(DeleteSome(t, pre, done, now), dirs', bound)
  {
    hide Reached, NameBelow;
  }

  /* What is left. */

  /** An explicit directory goes iff all its ancestors below are listed, and neither
      it nor any of them is a live file. */
  lemma DirectoryGoesIff(t: Table, dirs: set<string>, dir: string, q: string)
    requires Normal(dir) && q in dirs && Below(Prefix(dir), q) && FilePath(q)
    ensures q in Gone(t, dirs, dir) <==>
      !Live(t, q) && forall b | StrictAncestor(Prefix(dir), b, q) :: IsListed(t, dirs, b) && !Live(t, b)
  {
    Stripped(dir);
    NothingToStrip(q);
    assert IsListed(t, dirs, q);
    hide IsListed, FilePath, RStrip, Prefix;
  }

  /** No live file is left below iff none ends in a slash and none is the ancestor
      of another; rows elsewhere are as they were. */
  lemma NothingLeftIff(t: Table, pre: string, now: real)
    ensures (forall p | Live(DeleteUnder(t, pre, now), p) :: !Below(pre, p))
       <==> (forall p | Live(t, p) && Below(pre, p) :: Plain(p) && forall f | Live(t, f) :: !StrictAncestor(pre, f, p))
    ensures forall p | p in t && !Below(pre, p) :: DeleteUnder(t, pre, now)[p] == t[p]
  {
    var t' := DeleteUnder(t, pre, now);
    hide StrictAncestor, Plain;
    forall p | Live(t, p) && Below(pre, p)
      ensures Live(t', p) <==> !(Plain(p) && forall f | Live(t, f) :: !StrictAncestor(pre, f, p))
    {
    }
    forall p | Live(t', p) ensures Live(t, p) { }
  }
}
