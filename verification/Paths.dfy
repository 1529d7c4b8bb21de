/** Path strings: the functions of Python's `posixpath` and `str` that the
    modelled code calls. */
module Paths {
  /** `s.rfind(c)`. */
  function LastIndex(s: string, c: char): (i: int)
    ensures -1 <= i < |s|
    ensures i == -1 ==> c !in s
    ensures i >= 0 ==> s[i] == c && c !in s[i + 1..]
  {
    if s == "" then -1
    else
      var n := |s| - 1;
      if s[n] == c then n
      else
        var i := LastIndex(s[..n], c);
        assert i >= 0 ==> s[i + 1..] == s[..n][i + 1..] + [s[n]];
        assert s == s[..n] + [s[n]];
        i
  }

  lemma LastIndexIs(s: string, c: char, i: int)
    requires -1 <= i < |s| && (i >= 0 ==> s[i] == c) && c !in s[i + 1..]
    ensures LastIndex(s, c) == i
  {
    hide LastIndex;
    NoneAfter(s, c, i);
    NoneAfter(s, c, LastIndex(s, c));
  }

  lemma NoneAfter(s: string, c: char, i: int)
    requires -1 <= i < |s| && c !in s[i + 1..]
    ensures forall m | i < m < |s| :: s[m] != c
  {
    forall m | i < m < |s| ensures s[m] != c {
      assert s[m] == s[i + 1..][m - i - 1];
    }
  }

  /** `s.rstrip("/")`. */
  function RStrip(s: string): (r: string)
    ensures r <= s && (r == "" || r[|r| - 1] != '/')
    ensures forall i | |r| <= i < |s| :: s[i] == '/'
  {
    if s != "" && s[|s| - 1] == '/' then RStrip(s[..|s| - 1]) else s
  }

  /** `s.lstrip("/")`. */
  function LStrip(s: string): (r: string)
    ensures |r| <= |s| && r == s[|s| - |r|..] && (r == "" || r[0] != '/')
    ensures forall i | 0 <= i < |s| - |r| :: s[i] == '/'
  {
    if s != "" && s[0] == '/' then LStrip(s[1..]) else s
  }

  function Basename(p: string): string {
    p[LastIndex(p, '/') + 1..]
  }

  function Dirname(p: string): string {
    var head := p[..LastIndex(p, '/') + 1];
    if RStrip(head) == "" then head else RStrip(head)
  }

  /** `posixpath.join` of two parts. */
  function PathJoin(a: string, b: string): string {
    if b != "" && b[0] == '/' then b
    else if a == "" || a[|a| - 1] == '/' then a + b
    else a + "/" + b
  }

  function Digit(d: nat): char
    requires d < 10
  {
    "0123456789"[d]
  }

  function Decimal(n: nat): (s: string)
    ensures s != ""
  {
    if n < 10 then [Digit(n)] else Decimal(n / 10) + [Digit(n % 10)]
  }

  lemma {:induction false} DecimalInjective(m: nat, n: nat)
    requires Decimal(m) == Decimal(n)
    ensures m == n
  {
    var a, b := Decimal(m), Decimal(n);
    assert a[|a| - 1] == Digit(m % 10) && b[|b| - 1] == Digit(n % 10);
    if m >= 10 && n >= 10 {
      assert Decimal(m / 10) == a[..|a| - 1] && Decimal(n / 10) == b[..|b| - 1];
      DecimalInjective(m / 10, n / 10);
    }
  }

  /** What a string of digits stands for. */
  function DecimalValue(s: string): int {
    if s == "" then 0 else 10 * DecimalValue(s[..|s| - 1]) + (s[|s| - 1] as int - '0' as int)
  }

  lemma {:induction false} DecimalIs(n: nat)
    ensures DecimalValue(Decimal(n)) == n && (n > 0 ==> Decimal(n)[0] != '0')
    ensures forall i | 0 <= i < |Decimal(n)| :: '0' <= Decimal(n)[i] <= '9'
  {
    var s := Decimal(n);
    if n < 10 {
      assert s[..0] == "";
    } else {
      DecimalIs(n / 10);
      assert s[..|s| - 1] == Decimal(n / 10);
    }
  }

  predicate HasDouble(s: string) {
    exists i :: 0 <= i < |s| - 1 && s[i] == '/' && s[i + 1] == '/'
  }

  /** Absolute, no empty component, no slash at the end except for the root. */
  predicate Normal(p: string) {
    p != "" && p[0] == '/' && !HasDouble(p) && (p == "/" || p[|p| - 1] != '/')
  }
}
