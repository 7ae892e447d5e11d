/** String helpers that stand for the few JavaScript built-ins the compilers use. */
module Strings {

  /** `parts.join(sep)` */
  function Join(parts: seq<string>, sep: string): string
    decreases |parts|
  {
    if parts == [] then ""
    else if |parts| == 1 then parts[0]
    else parts[0] + sep + Join(parts[1..], sep)
  }

  /** `Array(n + 1).join(s)`: `n` copies of `s`. */
  function Repeat(s: string, n: nat): (r: string)
    ensures |r| == n * |s|
  {
    if n == 0 then "" else s + Repeat(s, n - 1)
  }

  /** `s.replace(/c/g, r)`: every occurrence of the character `c` replaced by `r`. */
  function ReplaceAll(s: string, c: char, r: string): string
    decreases |s|
  {
    if s == [] then ""
    else (if s[0] == c then r else [s[0]]) + ReplaceAll(s[1..], c, r)
  }

  lemma {:induction false} ReplaceAllAppend(a: string, b: string, c: char, r: string)
    ensures ReplaceAll(a + b, c, r) == ReplaceAll(a, c, r) + ReplaceAll(b, c, r)
  {
    if a != [] {
      assert (a + b)[1..] == a[1..] + b;
      ReplaceAllAppend(a[1..], b, c, r);
    } else {
      assert a + b == b;
    }
  }

  lemma ReplaceAllChar(x: char, c: char, r: string)
    ensures ReplaceAll([x], c, r) == if x == c then r else [x]
  {
    assert [x][1..] == [];
  }

  lemma {:induction false} ReplaceAllAbsent(s: string, c: char, r: string)
    requires c !in s
    ensures ReplaceAll(s, c, r) == s
  {
    if s != [] {
      assert c !in s[1..];
      ReplaceAllAbsent(s[1..], c, r);
    }
  }

  /** A character that occurs neither in `s` nor in the replacement does not occur in the result;
      in particular `c` itself is gone whenever the replacement does not contain it. */
  lemma {:induction false} ReplaceAllAvoids(s: string, c: char, r: string, d: char)
    requires d !in r
    requires d == c || d !in s
    ensures d !in ReplaceAll(s, c, r)
  {
    if s != [] {
      assert d == c || d !in s[1..];
      ReplaceAllAvoids(s[1..], c, r, d);
    }
  }

  /** `s.substr(start, length)` for a non-negative `start`: the start is clamped to the string and a
      negative or overlong length to what is available. */
  function Substr(s: string, start: nat, length: int): (r: string)
    ensures |r| <= |s|
    ensures start + length <= |s| && 0 <= length ==> r == s[start..start + length]
  {
    var from := if start <= |s| then start else |s|;
    var len := if length < 0 then 0 else if length <= |s| - from then length else |s| - from;
    s[from..from + len]
  }
}
