/** Character and string helpers: ASCII case folding, substring search, decimal rendering. */
module Text {
  import Seqs

  /** `toLowerCase` restricted to ASCII: 'A'..'Z' become 'a'..'z', every other character is kept. */
  function LowerChar(c: char): char
  {
    if 'A' <= c <= 'Z' then (c as int + 32) as char else c
  }

  function Lower(s: string): (r: string)
    ensures |r| == |s|
    ensures forall i :: 0 <= i < |s| ==> r[i] == LowerChar(s[i])
  {
    seq(|s|, i requires 0 <= i < |s| => LowerChar(s[i]))
  }

  /** No upper-case ASCII letter occurs in `s`. */
  predicate IsLower(s: string)
  {
    forall i :: 0 <= i < |s| ==> !('A' <= s[i] <= 'Z')
  }

  /** Lower-casing yields a lower-case string and is idempotent. */
  lemma LowerIdempotent(s: string)
    ensures IsLower(Lower(s))
    ensures Lower(Lower(s)) == Lower(s)
  {
    assert forall i :: 0 <= i < |s| ==> LowerChar(LowerChar(s[i])) == LowerChar(s[i]);
  }

  /** JavaScript `s.includes(t)`: `t` occurs in `s` at some position. */
  predicate Contains(s: string, t: string)
  {
    exists i | 0 <= i <= |s| - |t| :: OccursAt(s, t, i)
  }

  /** `t` occurs in `s` starting at position `i`. */
  predicate OccursAt(s: string, t: string, i: int)
  {
    0 <= i <= |s| - |t| && s[i..i + |t|] == t
  }

  /** Every string includes the empty string. */
  lemma ContainsEmpty(s: string)
    ensures Contains(s, "")
  {
    assert OccursAt(s, "", 0);
  }

  /** Every string includes itself. */
  lemma ContainsSelf(s: string)
    ensures Contains(s, s)
  {
    assert OccursAt(s, s, 0);
  }

  /** Python `s.startswith(p)`. */
  predicate StartsWith(s: string, p: string)
  {
    |p| <= |s| && s[..|p|] == p
  }

  function Digit(d: nat): (c: char)
    requires d < 10
    ensures '0' <= c <= '9'
  {
    "0123456789"[d]
  }

  predicate IsDigits(s: string)
  {
    forall i :: 0 <= i < |s| ==> '0' <= s[i] <= '9'
  }

  /** The decimal notation of `n`, without leading zeros (JavaScript's and Python's `str` of an integer). */
  function NatString(n: nat): (r: string)
    ensures |r| >= 1 && IsDigits(r)
    ensures |r| > 1 ==> r[0] != '0'
    decreases n
  {
    if n < 10 then [Digit(n)] else NatString(n / 10) + [Digit(n % 10)]
  }

  /** The value of a string of decimal digits. */
  function DigitsValue(s: string): nat
    requires IsDigits(s)
  {
    if s == [] then 0 else DigitsValue(s[..|s| - 1]) * 10 + (s[|s| - 1] as int - '0' as int)
  }

  /** Rendering a natural number and reading it back gives the number itself. */
  lemma {:induction false} NatStringRoundTrip(n: nat)
    ensures DigitsValue(NatString(n)) == n
    decreases n
  {
    var r := NatString(n);
    if n < 10 {
      assert r[..0] == [];
    } else {
      NatStringRoundTrip(n / 10);
      assert r[..|r| - 1] == NatString(n / 10);
    }
  }

  /** The decimal notation of an integer, with a leading '-' when it is negative. */
  function IntString(i: int): (r: string)
    ensures |r| >= 1 && r[0] != '.'
    ensures forall k :: 0 <= k < |r| ==> r[k] != '.' && r[k] != '/'
  {
    if i < 0 then "-" + NatString(-i) else NatString(i)
  }

  /** Concatenation of `parts` with `sep` between consecutive parts (Python `sep.join(parts)`). */
  function Join(parts: seq<string>, sep: string): string
  {
    if parts == [] then "" else if |parts| == 1 then parts[0] else parts[0] + sep + Join(parts[1..], sep)
  }

  /** What `t` occurs in also occurs in anything that ends with it. */
  lemma ContainsInRight(a: string, b: string, t: string)
    requires Contains(b, t)
    ensures Contains(a + b, t)
  {
    var i :| 0 <= i <= |b| - |t| && OccursAt(b, t, i);
    assert (a + b)[|a| + i..|a| + i + |t|] == b[i..i + |t|];
    assert OccursAt(a + b, t, |a| + i);
  }

  /** What `t` occurs in also occurs in anything that starts with it. */
  lemma ContainsInLeft(a: string, b: string, t: string)
    requires Contains(a, t)
    ensures Contains(a + b, t)
  {
    var i :| 0 <= i <= |a| - |t| && OccursAt(a, t, i);
    assert (a + b)[i..i + |t|] == a[i..i + |t|];
    assert OccursAt(a + b, t, i);
  }

  /** Every part occurs in the joined string. */
  lemma {:induction false} JoinContains(parts: seq<string>, sep: string)
    ensures forall p :: p in parts ==> Contains(Join(parts, sep), p)
  {
    if |parts| == 1 {
      ContainsSelf(parts[0]);
    } else if |parts| > 1 {
      JoinContains(parts[1..], sep);
      var rest := Join(parts[1..], sep);
      assert Join(parts, sep) == parts[0] + (sep + rest);
      forall p | p in parts ensures Contains(Join(parts, sep), p) {
        if p == parts[0] {
          ContainsSelf(p);
          ContainsInLeft(p, sep + rest, p);
        } else {
          assert p in parts[1..];
          ContainsInRight(parts[0] + sep, rest, p);
          assert parts[0] + sep + rest == Join(parts, sep);
        }
      }
    }
  }

  /** The last position of `c` in `s`, or -1 (Python `s.rfind(c)`). */
  function LastIndexOf(s: string, c: char): (r: int)
    ensures -1 <= r < |s|
    ensures r >= 0 ==> s[r] == c
    ensures forall k :: r < k < |s| ==> s[k] != c
  {
    if s == [] then -1 else if s[|s| - 1] == c then |s| - 1 else LastIndexOf(s[..|s| - 1], c)
  }

  /** The first position of `c` in `s` at or after `from`, or -1 (Python `s.find(c, from)`). */
  function IndexOfFrom(s: string, c: char, from: nat): (r: int)
    ensures r == -1 || from <= r < |s|
    ensures r >= 0 ==> s[r] == c
    ensures forall k :: from <= k < |s| && (r == -1 || k < r) ==> s[k] != c
    decreases |s| - from
  {
    if from >= |s| then -1 else if s[from] == c then from else IndexOfFrom(s, c, from + 1)
  }

  /** `s` with every occurrence of `c` removed (Python `s.replace(c, '')`). */
  function RemoveAll(s: string, c: char): (r: string)
    ensures |r| <= |s|
    ensures forall k :: 0 <= k < |r| ==> r[k] != c
    ensures forall k :: 0 <= k < |r| ==> r[k] in s
  {
    if s == [] then [] else (if s[0] == c then [] else [s[0]]) + RemoveAll(s[1..], c)
  }

  /** Removing `c` keeps every other character, as often as it occurs and in its order: the result
      is `s` filtered by `x != c`. */
  lemma {:induction false} RemoveAllKeepsOthers(s: string, c: char)
    ensures RemoveAll(s, c) == Seqs.Filter(x => x != c, s)
    ensures forall x :: multiset(RemoveAll(s, c))[x] == if x == c then 0 else multiset(s)[x]
    ensures Seqs.IsSubsequence(RemoveAll(s, c), s)
  {
    if s != [] {
      RemoveAllKeepsOthers(s[1..], c);
    }
    forall x ensures multiset(RemoveAll(s, c))[x] == if x == c then 0 else multiset(s)[x] {
      Seqs.FilterCount(x => x != c, s, x);
    }
    Seqs.FilterIsSubsequence(x => x != c, s);
  }
}
