/** `_vpath` of `stardustlib/cli/commands.py`: the normal form of paths typed by
    the user. White space is the ASCII kind. */
module VirtualPath {
  import opened Rows
  import opened Paths

  predicate IsSpace(c: char) {
    c == ' ' || c == '\t' || c == '\n' || c == '\r' || c == '\U{000B}' || c == '\U{000C}' || '\U{001C}' <= c <= '\U{001F}'
  }

  function Slashes(s: string): (r: string)
    ensures |r| == |s| && forall i | 0 <= i < |s| :: r[i] == if s[i] == '\\' then '/' else s[i]
  {
    if s == "" then "" else [if s[0] == '\\' then '/' else s[0]] + Slashes(s[1..])
  }

  function StripLeft(s: string): (r: string)
    ensures r == "" || !IsSpace(r[0])
    ensures |r| <= |s| && r == s[|s| - |r|..]
    ensures s != "" && !IsSpace(s[0]) ==> r == s
    ensures forall i | 0 <= i < |s| - |r| :: IsSpace(s[i])
  {
    if s != "" && IsSpace(s[0]) then StripLeft(s[1..]) else s
  }

  function StripRight(s: string): (r: string)
    ensures r <= s && (r == "" || !IsSpace(r[|r| - 1]))
    ensures s != "" && !IsSpace(s[|s| - 1]) ==> r == s
    ensures forall i | |r| <= i < |s| :: IsSpace(s[i])
  {
    if s != "" && IsSpace(s[|s| - 1]) then StripRight(s[..|s| - 1]) else s
  }

  /** Every run of slashes becomes one slash. */
  function Collapse(s: string): string {
    if |s| < 2 then s
    else if s[0] == '/' && s[1] == '/' then Collapse(s[1..])
    else [s[0]] + Collapse(s[1..])
  }

  /** `s.replace("//", "/")`: left to right, without overlap. */
  function Squeeze(s: string): string {
    if |s| < 2 then s
    else if s[0] == '/' && s[1] == '/' then "/" + Squeeze(s[2..])
    else [s[0]] + Squeeze(s[1..])
  }

  function Trim(s: string): string {
    StripRight(StripLeft(Slashes(s)))
  }

  /** One slash at a time and none at the end, except for the root. */
  function Finish(absolute: string): string {
    var c := Collapse(absolute);
    if RStrip(c) == "" then c else RStrip(c)
  }

  /** Input that stands for the root. */
  predicate MeansRoot(s: string) {
    s == "" || s == "." || s == "./"
  }

  /** The normal form in one go. */
  function VPath(path: string): string {
    var s := Trim(path);
    if MeansRoot(s) then "/" else Finish(if s[0] == '/' then s else "/" + s)
  }

  lemma DoubleTail(s: string)
    requires s != ""
    ensures HasDouble(s) <==> (|s| >= 2 && s[0] == '/' && s[1] == '/') || HasDouble(s[1..])
  {
    if HasDouble(s[1..]) {
      var i :| 0 <= i < |s[1..]| - 1 && s[1..][i] == '/' && s[1..][i + 1] == '/';
      assert s[i + 1] == '/' && s[i + 2] == '/';
    }
    if HasDouble(s) {
      var i :| 0 <= i < |s| - 1 && s[i] == '/' && s[i + 1] == '/';
      if i > 0 { assert s[1..][i - 1] == '/' && s[1..][i] == '/'; }
    }
  }

  lemma {:induction false} CollapseFacts(s: string)
    ensures !HasDouble(Collapse(s)) && (s == "" <==> Collapse(s) == "")
    ensures s != "" ==> Collapse(s)[0] == s[0]
    ensures !HasDouble(s) ==> Collapse(s) == s
    ensures forall c | c in Collapse(s) :: c in s
    decreases |s|
  {
    if |s| >= 2 {
      CollapseFacts(s[1..]);
      DoubleTail(s);
      if !(s[0] == '/' && s[1] == '/') {
        var c := [s[0]] + Collapse(s[1..]);
        assert c[1..] == Collapse(s[1..]);
        DoubleTail(c);
      }
    }
  }

  lemma {:induction false} SqueezeFacts(s: string)
    ensures Collapse(Squeeze(s)) == Collapse(s)
    ensures |Squeeze(s)| <= |s| && (HasDouble(s) ==> |Squeeze(s)| < |s|)
    ensures s != "" ==> Squeeze(s) != "" && Squeeze(s)[0] == s[0]
    decreases |s|
  {
    if |s| >= 2 {
      DoubleTail(s);
      if s[0] == '/' && s[1] == '/' {
        SqueezeFacts(s[2..]);
        CollapseSlash(s[2..], Squeeze(s[2..]));
        assert s[1..] == "/" + s[2..];
      } else {
        SqueezeFacts(s[1..]);
        var q := Squeeze(s[1..]);
        assert ([s[0]] + q)[1..] == q;
      }
    }
  }

  lemma CollapseSlash(s: string, q: string)
    requires Collapse(s) == Collapse(q) && (s == "" <==> q == "") && (s != "" ==> s[0] == q[0])
    ensures Collapse("/" + s) == Collapse("/" + q)
  {
    assert ("/" + s)[1..] == s && ("/" + q)[1..] == q;
  }

  /** `_vpath`, squeezing until no double slash is left. */
  method VPathOf(path: Option<string>) returns (s: string)
    ensures s == if path.None? then "/" else VPath(path.value)
  {
    hide HasDouble, RStrip;
    if path.None? {
      return "/";
    }
    s := Trim(path.value);
    if s == "" || s == "." || s == "./" {
      return "/";
    }
    if s[0] != '/' {
      s := "/" + s;
    }
    ghost var c := Collapse(s);
    while HasDouble(s)
      invariant s != "" && s[0] == '/' && Collapse(s) == c
      decreases |s|
    {
      SqueezeFacts(s);
      s := Squeeze(s);
    }
    CollapseFacts(s);
    if |s| > 1 {
      NoAllSlashes(s);
      s := RStrip(s);
    } else {
      RootStays(s);
    }
  }

  lemma NoAllSlashes(s: string)
    requires |s| > 1 && !HasDouble(s)
    ensures RStrip(s) != ""
  {
    assert !(s[0] == '/' && s[1] == '/');
  }

  lemma RootStays(s: string)
    requires |s| == 1 && s[0] == '/'
    ensures RStrip(s) == ""
  {
    assert s[..0] == "";
  }

  lemma FinishFacts(absolute: string)
    requires absolute != "" && absolute[0] == '/' && '\\' !in absolute
    ensures Normal(Finish(absolute)) && '\\' !in Finish(absolute) && |Finish(absolute)| <= |absolute|
  {
    var c := Collapse(absolute);
    CollapseFacts(absolute);
    CollapseShort(absolute);
    var r := RStrip(c);
    if r == "" {
      if |c| > 1 { NoAllSlashes(c); }
      assert c == "/";
    } else {
      PrefixHasNoDouble(c, r);
      hide HasDouble;
      assert r[0] == '/';
    }
  }

  /** Whatever is typed, the result is in the normal form that directory recursion
      needs, without backslashes. */
  lemma VPathIsNormal(path: string)
    ensures Normal(VPath(path)) && '\\' !in VPath(path)
  {
    var s := Trim(path);
    NoBackslash(path);
    hide Finish, Trim, HasDouble, MeansRoot, Normal;
    if !MeansRoot(s) {
      FinishFacts(if s[0] == '/' then s else "/" + s);
    } else {
      RootIsNormal();
    }
  }

  lemma NoBackslash(path: string)
    ensures '\\' !in Trim(path) && (Trim(path) == "" ==> MeansRoot(Trim(path)))
  {
    assert '\\' !in Slashes(path);
    var l := StripLeft(Slashes(path));
    assert '\\' !in l;
    hide StripLeft, Slashes, IsSpace;
  }

  lemma RootIsNormal()
    ensures Normal("/")
  {
  }

  lemma PrefixHasNoDouble(c: string, r: string)
    requires !HasDouble(c) && r <= c
    ensures !HasDouble(r)
  {
    forall i | 0 <= i < |r| - 1 ensures !(r[i] == '/' && r[i + 1] == '/') {
      assert !(c[i] == '/' && c[i + 1] == '/');
    }
  }

  lemma {:induction false} CollapseShort(s: string)
    ensures |Collapse(s)| <= |s|
    decreases |s|
  {
    if |s| >= 2 { CollapseShort(s[1..]); }
  }

  lemma SlashIsNoSpace()
    ensures !IsSpace('/')
  {
  }

  lemma StripLeftKeeps(p: string)
    requires p != "" && !IsSpace(p[0])
    ensures StripLeft(p) == p
  {
  }

  lemma StripRightFacts(p: string)
    requires p != ""
    ensures StripRight(p) <= p && if IsSpace(p[|p| - 1]) then |StripRight(p)| < |p| else StripRight(p) == p
  {
  }

  lemma SlashesKeep(p: string)
    requires '\\' !in p
    ensures Slashes(p) == p
  {
  }

  lemma TrimFacts(p: string)
    requires p != "" && p[0] == '/' && '\\' !in p
    ensures if IsSpace(p[|p| - 1]) then |Trim(p)| < |p| else Trim(p) == p
    ensures '\\' !in Trim(p) && (Trim(p) != "" ==> Trim(p)[0] == '/')
  {
    SlashIsNoSpace();
    SlashesKeep(p);
    StripLeftKeeps(p);
    hide IsSpace, StripLeft, Slashes, StripRight;
    StripRightFacts(p);
    assert Trim(p) == StripRight(p);
  }

  lemma FinishKeeps(p: string)
    requires Normal(p)
    ensures Finish(p) == p
  {
    CollapseFacts(p);
    if p == "/" {
      RootStays(p);
    } else {
      assert RStrip(p) == p;
    }
  }

  /* What the normal form keeps. */

  /** The parts between slashes that are not empty, in order. */
  function Components(s: string): (cs: seq<string>)
    ensures s != "" && s[0] != '/' ==> cs != []
    ensures forall i | 0 <= i < |cs| :: cs[i] != "" && '/' !in cs[i]
  {
    if s == "" then []
    else
      var rest := Components(s[1..]);
      if s[0] == '/' then rest
      else if |s| == 1 || s[1] == '/' then [[s[0]]] + rest
      else [[s[0]] + rest[0]] + rest[1..]
  }

  /** Each component after a slash. */
  function Render(cs: seq<string>): string {
    if cs == [] then "" else "/" + (cs[0] + Render(cs[1..]))
  }

  lemma {:induction false} CollapseComponents(s: string)
    ensures Components(Collapse(s)) == Components(s)
    decreases |s|
  {
    if |s| >= 2 {
      CollapseComponents(s[1..]);
      if !(s[0] == '/' && s[1] == '/') {
        var c := [s[0]] + Collapse(s[1..]);
        CollapseFacts(s[1..]);
        assert c[1..] == Collapse(s[1..]);
        assert s[1..][0] == s[1];
      }
    }
  }

  lemma {:induction false} EndSlashComponents(s: string)
    ensures Components(s + "/") == Components(s)
  {
    if s == "" {
      assert (s + "/")[1..] == "";
    } else {
      assert (s + "/")[1..] == s[1..] + "/";
      EndSlashComponents(s[1..]);
    }
  }

  lemma {:induction false} RStripComponents(s: string)
    ensures Components(RStrip(s)) == Components(s)
  {
    if s != "" && s[|s| - 1] == '/' {
      RStripComponents(s[..|s| - 1]);
      EndSlashComponents(s[..|s| - 1]);
      assert s == s[..|s| - 1] + "/";
    }
  }

  lemma {:induction false} RenderIsNormal(t: string)
    requires t != "" && !HasDouble(t) && t[|t| - 1] != '/'
    ensures Render(Components(t)) == if t[0] == '/' then t else "/" + t
  {
    if |t| == 1 {
      assert t[1..] == "" && t == [t[0]];
    } else {
      DoubleTail(t);
      RenderIsNormal(t[1..]);
      hide HasDouble, Components, Render;
      assert t == [t[0]] + t[1..];
      if t[0] == '/' {
        RenderSlash(t[1..]);
      } else if t[1] == '/' {
        RenderNew(t[0], t[1..]);
      } else {
        RenderMore(t[0], t[1..]);
      }
    }
  }

  lemma RenderSlash(t: string)
    ensures Components("/" + t) == Components(t)
  {
    assert ("/" + t)[1..] == t;
  }

  lemma RenderNew(c: char, t: string)
    requires c != '/' && t != "" && t[0] == '/' && Render(Components(t)) == t
    ensures Render(Components([c] + t)) == "/" + ([c] + t)
  {
    var cs := Components(t);
    assert ([c] + t)[1..] == t;
    assert Components([c] + t) == [[c]] + cs;
    assert ([[c]] + cs)[1..] == cs;
    hide Components;
    assert "/" + [c] + t == "/" + ([c] + t);
  }

  lemma RenderMore(c: char, t: string)
    requires c != '/' && t != "" && t[0] != '/' && Render(Components(t)) == "/" + t
    ensures Render(Components([c] + t)) == "/" + ([c] + t)
  {
    var cs := Components(t);
    assert ([c] + t)[1..] == t;
    assert Components([c] + t) == [[c] + cs[0]] + cs[1..];
    hide Components, Render;
    RenderHead(c, cs);
    assert ("/" + t)[1..] == t;
  }

  lemma RenderHead(c: char, cs: seq<string>)
    requires cs != []
    ensures Render(cs) != "" && Render([[c] + cs[0]] + cs[1..]) == "/" + ([c] + Render(cs)[1..])
  {
    var more := [[c] + cs[0]] + cs[1..];
    assert more[1..] == cs[1..] && more[0] == [c] + cs[0];
    var rest := Render(cs[1..]);
    assert Render(more) == "/" + (([c] + cs[0]) + rest);
    Regroup(c, cs[0], rest);
  }

  lemma Regroup(c: char, a: string, b: string)
    ensures ([c] + a) + b == [c] + (a + b) && ("/" + (a + b))[1..] == a + b
  {
  }

  /** A path in normal form is given by its components. */
  lemma NormalIsRendered(p: string)
    requires Normal(p)
    ensures p == if Components(p) == [] then "/" else Render(Components(p))
  {
    if p != "/" {
      RenderIsNormal(p);
      hide Render, HasDouble;
    }
  }

  /** `r` is what `a` leading and `b` trailing white space characters leave, and has
      none at its own ends. */
  ghost predicate Stripped(s: string, a: nat, b: nat, r: string) {
    && a + |r| + b == |s| && r == s[a..a + |r|]
    && (forall i | 0 <= i < |s| && (i < a || a + |r| <= i) :: IsSpace(s[i]))
    && (r != "" ==> !IsSpace(r[0]) && !IsSpace(r[|r| - 1]))
  }

  /** What was typed is stripped of white space, with the backslashes turned. */
  lemma TrimIs(path: string)
    ensures exists a, b: nat :: Stripped(Slashes(path), a, b, Trim(path))
  {
    var s := Slashes(path);
    var l := StripLeft(s);
    var r := StripRight(l);
    hide IsSpace, Slashes, StripLeft, StripRight;
    var a, b := |s| - |l|, |l| - |r|;
    assert r == l[..|r|] == s[a..a + |r|];
    forall i | 0 <= i < |s| && (i < a || a + |r| <= i) ensures IsSpace(s[i]) {
      if i >= a { assert s[i] == l[i - a]; }
    }
    if r != "" { assert r[0] == l[0]; }
    assert Stripped(s, a, b, r) && Trim(path) == r;
  }

  lemma FinishComponents(absolute: string)
    ensures Components(Finish(absolute)) == Components(absolute)
  {
    CollapseComponents(absolute);
    RStripComponents(Collapse(absolute));
    hide Collapse, RStrip, Components;
  }

  /** The result written out: the root for nothing, a dot or a dot and a slash, and
      otherwise the components that were typed, each after a slash. */
  lemma VPathIs(path: string)
    ensures var s := Trim(path);
      VPath(path) == if s == "" || s == "." || s == "./" || Components(s) == [] then "/" else Render(Components(s))
  {
    var s := Trim(path);
    VPathIsNormal(path);
    NormalIsRendered(VPath(path));
    hide Trim, Normal, Finish, Render;
    if !MeansRoot(s) {
      RenderSlash(s);
      hide Components;
      FinishComponents(if s[0] == '/' then s else "/" + s);
      assert Components(VPath(path)) == Components(s);
    }
  }

  /** The paths that normalising leaves alone. It is not idempotent on everything:
      a name that ends in white space loses it the second time. */
  lemma VPathFixedIff(p: string)
    ensures VPath(p) == p <==> Normal(p) && '\\' !in p && !IsSpace(p[|p| - 1])
  {
    VPathIsNormal(p);
    if Normal(p) && '\\' !in p {
      TrimFacts(p);
      FinishKeeps(p);
      var s := Trim(p);
      assert s == "" || s[0] == '/' ==> (MeansRoot(s) <==> s == "");
      hide Finish, Trim, HasDouble, MeansRoot, IsSpace;
      if s != "" { FinishFacts(s); }
    }
  }
}
