/** String helpers shared by the model: the ASCII part of JavaScript's
    `String.prototype.trim`, `slice(0, n)`, `Array.prototype.join`,
    `lastIndexOf` and the decimal rendering of a status code. */
module Strings {

  /** ASCII whitespace as matched by `\s` and removed by `trim`:
      space, tab, line feed, vertical tab, form feed, carriage return. */
  predicate IsSpace(c: char) {
    c == ' ' || ('\t' <= c <= '\r')
  }

  predicate AllSpace(s: string) {
    forall i | 0 <= i < |s| :: IsSpace(s[i])
  }

  /** `s` with its leading whitespace removed. */
  function TrimStart(s: string): (r: string)
    ensures |r| <= |s| && r == s[|s| - |r|..]
    ensures AllSpace(s[..|s| - |r|])
    ensures r == [] || !IsSpace(r[0])
  {
    if s == [] || !IsSpace(s[0]) then s
    else TrimStart(s[1..])
  }

  /** A whitespace run before a text that does not start with whitespace
      is exactly what `TrimStart` removes. */
  lemma {:induction false} TrimStartSkips(ws: string, t: string)
    requires AllSpace(ws) && |t| > 0 && !IsSpace(t[0])
    ensures TrimStart(ws + t) == t
  {
    if ws == [] {
      assert ws + t == t;
    } else {
      assert (ws + t)[1..] == ws[1..] + t;
      TrimStartSkips(ws[1..], t);
    }
  }

  /** `s` with its trailing whitespace removed. */
  function TrimEnd(s: string): (r: string)
    ensures |r| <= |s| && r == s[..|r|]
    ensures AllSpace(s[|r|..])
    ensures r == [] || !IsSpace(r[|r| - 1])
  {
    if s == [] || !IsSpace(s[|s| - 1]) then s
    else TrimEnd(s[..|s| - 1])
  }

  /** `s.trim()` */
  function Trim(s: string): (r: string)
    ensures r == [] || (!IsSpace(r[0]) && !IsSpace(r[|r| - 1]))
    ensures Contains(s, r)
  {
    var t := TrimStart(s);
    var r := TrimEnd(t);
    assert ContainsAt(s, r, |s| - |t|);
    r
  }

  /** A string that is already trimmed is left alone by `trim`. */
  lemma {:induction false} TrimTrimmed(s: string)
    requires s == [] || (!IsSpace(s[0]) && !IsSpace(s[|s| - 1]))
    ensures Trim(s) == s
  {
  }

  /** `s.slice(0, n)`: the first min(n, |s|) characters of `s`. */
  function Take(s: string, n: nat): (r: string)
    ensures |r| <= n && r <= s
    ensures |s| <= n ==> r == s
    ensures |s| > n ==> |r| == n
  {
    if |s| <= n then s else s[..n]
  }

  /** `s` occurs in `t` starting at position `i`. */
  ghost predicate ContainsAt(t: string, s: string, i: int) {
    0 <= i <= |t| - |s| && t[i..i + |s|] == s
  }

  /** `t` holds `s` as a contiguous piece (`t.includes(s)`). */
  ghost predicate Contains(t: string, s: string) {
    exists i :: ContainsAt(t, s, i)
  }

  lemma ContainsInfix(a: string, s: string, b: string)
    ensures Contains(a + s + b, s)
  {
    assert ContainsAt(a + s + b, s, |a|);
  }

  lemma ContainsInside(t: string, u: string, s: string)
    requires Contains(u, s)
    requires Contains(t, u)
    ensures Contains(t, s)
  {
    var i :| ContainsAt(u, s, i);
    var j :| ContainsAt(t, u, j);
    forall k | 0 <= k < |s| ensures t[j + i + k] == s[k] {
      assert t[j + i + k] == t[j..j + |u|][i + k] == u[i..i + |s|][k];
    }
    assert t[j + i..j + i + |s|] == s;
    assert ContainsAt(t, s, j + i);
  }

  /** `lines.join(sep)` */
  function Join(lines: seq<string>, sep: string): string
  {
    if |lines| == 0 then ""
    else if |lines| == 1 then lines[0]
    else lines[0] + sep + Join(lines[1..], sep)
  }

  /** Every joined element appears in the joined string. */
  lemma {:induction false} JoinContains(lines: seq<string>, sep: string, k: nat)
    requires k < |lines|
    ensures Contains(Join(lines, sep), lines[k])
  {
    if |lines| == 1 {
      ContainsInfix("", lines[0], "");
      assert "" + lines[0] + "" == lines[0];
    } else if k == 0 {
      ContainsInfix("", lines[0], sep + Join(lines[1..], sep));
      assert "" + lines[0] + (sep + Join(lines[1..], sep)) == Join(lines, sep);
    } else {
      JoinContains(lines[1..], sep, k - 1);
      ContainsInfix(lines[0] + sep, Join(lines[1..], sep), "");
      assert lines[0] + sep + Join(lines[1..], sep) + "" == Join(lines, sep);
      ContainsInside(Join(lines, sep), Join(lines[1..], sep), lines[k]);
    }
  }

  /** `s.lastIndexOf(c)`: the last position holding `c`, or -1. */
  function LastIndexOf(s: string, c: char): (r: int)
    ensures -1 <= r < |s|
    ensures r >= 0 ==> s[r] == c
    ensures forall j | r < j < |s| :: s[j] != c
  {
    if s == [] then -1
    else if s[|s| - 1] == c then |s| - 1
    else LastIndexOf(s[..|s| - 1], c)
  }

  function Digit(d: nat): char
    requires d < 10
  {
    "0123456789"[d]
  }

  /** `String(n)` for a non-negative integer: its decimal digits. */
  function Decimal(n: nat): (r: string)
    ensures |r| >= 1
    ensures forall i | 0 <= i < |r| :: '0' <= r[i] <= '9'
  {
    if n < 10 then [Digit(n)] else Decimal(n / 10) + [Digit(n % 10)]
  }
}
