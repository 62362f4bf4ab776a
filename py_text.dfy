/**
  The few Python `str` operations the core relies on, on `string` (a sequence of
  characters): `rstrip` of one character, `startswith`/`endswith` of one
  character, the slice `s[1:-1]`, `replace(c, "")`, SQL `TRIM`, `" | ".join`
  and `str(n)` of an integer.
 */
module PyText {

  /** `str(n)` of an integer: its decimal digits, after a `-` when it is negative. */
  function IntText(n: int): (r: string)
    ensures |r| > 0
  {
    if n < 0 then "-" + NatText(-n) else NatText(n)
  }

  function NatText(n: nat): (r: string)
    ensures |r| > 0
  {
    if n < 10 then ["0123456789"[n]] else NatText(n / 10) + ["0123456789"[n % 10]]
  }

  /** `s.rstrip(c)`: drops every trailing `c`, and nothing else. */
  function RStrip(s: string, c: char): (r: string)
    ensures r <= s
    ensures r == [] || r[|r| - 1] != c
    ensures forall i :: |r| <= i < |s| ==> s[i] == c
  {
    if |s| > 0 && s[|s| - 1] == c then RStrip(s[..|s| - 1], c) else s
  }

  /** `s.lstrip(c)`: drops every leading `c`, and nothing else. */
  function LStrip(s: string, c: char): (r: string)
    ensures |r| <= |s|
    ensures forall i :: 0 <= i < |r| ==> r[i] == s[i + (|s| - |r|)]
    ensures r == [] || r[0] != c
    ensures forall i :: 0 <= i < |s| - |r| ==> s[i] == c
  {
    if |s| > 0 && s[0] == c then LStrip(s[1..], c) else s
  }

  predicate StartsWith(s: string, c: char) {
    |s| > 0 && s[0] == c
  }

  predicate EndsWith(s: string, c: char) {
    |s| > 0 && s[|s| - 1] == c
  }

  /** The slice `s[1:-1]`: empty when `s` has fewer than two characters. */
  function Inner(s: string): (r: string)
    ensures |s| >= 2 ==> |r| == |s| - 2 && forall i :: 0 <= i < |r| ==> r[i] == s[i + 1]
    ensures |s| < 2 ==> r == []
  {
    if |s| < 2 then [] else s[1..|s| - 1]
  }

  /** `s.replace(c, "")`: every character except `c`, in order. */
  function RemoveAll(s: string, c: char): (r: string)
    ensures c !in r
    ensures |r| <= |s|
  {
    if s == [] then [] else RemoveAll(s[..|s| - 1], c) + (if s[|s| - 1] == c then [] else [s[|s| - 1]])
  }

  /** SQL `TRIM(s)`: drops leading and trailing spaces. */
  function Trim(s: string): string {
    RStrip(LStrip(s, ' '), ' ')
  }

  /** `sep.join(items)`. */
  function Join(items: seq<string>, sep: string): string {
    if items == [] then []
    else if |items| == 1 then items[0]
    else items[0] + sep + Join(items[1..], sep)
  }

  /** Stripping only removes: a character of the result was in the input. */
  lemma RStripKeeps(s: string, c: char, x: char)
    requires x in RStrip(s, c)
    ensures x in s
  {
    var r := RStrip(s, c);
    var j :| 0 <= j < |r| && r[j] == x;
    assert s[j] == x;
  }

  lemma LStripKeeps(s: string, c: char, x: char)
    requires x in LStrip(s, c)
    ensures x in s
  {
    var l := LStrip(s, c);
    var j :| 0 <= j < |l| && l[j] == x;
    assert s[j + (|s| - |l|)] == x;
  }


  /** `replace` only removes: every character of the result was in the input. */
  lemma {:induction false} RemoveAllKeeps(s: string, c: char)
    ensures forall x :: x in RemoveAll(s, c) ==> x in s
  {
    if s != [] {
      RemoveAllKeeps(s[..|s| - 1], c);
      assert forall x :: x in s[..|s| - 1] ==> x in s;
    }
  }

  /** Removing a character that does not occur changes nothing. */
  lemma {:induction false} RemoveAbsent(s: string, c: char)
    requires c !in s
    ensures RemoveAll(s, c) == s
  {
    if s != [] {
      RemoveAbsent(s[..|s| - 1], c);
      assert s == s[..|s| - 1] + [s[|s| - 1]];
    }
  }

  /** `replace` works piece by piece. */
  lemma {:induction false} RemoveAllAppend(a: string, b: string, c: char)
    ensures RemoveAll(a + b, c) == RemoveAll(a, c) + RemoveAll(b, c)
    decreases |b|
  {
    if b == [] {
      assert a + b == a;
    } else {
      var b' := b[..|b| - 1];
      assert (a + b)[..|a + b| - 1] == a + b';
      RemoveAllAppend(a, b', c);
    }
  }
}
