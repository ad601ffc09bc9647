/** Small value-level helpers shared by the three solvers: an Option type, the
    Kotlin list and string operations they lean on (drop, indexOf, count,
    case-insensitive prefix and substring tests) and decimal rendering. */
module Common {

  datatype Option<+T> = None | Some(value: T)

  /** Kotlin `drop(n)`: the list without its first n elements (empty when n is too large). */
  function Drop<T>(s: seq<T>, n: nat): (r: seq<T>)
    ensures n <= |s| ==> r == s[n..]
    ensures n >= |s| ==> r == []
  {
    if n >= |s| then [] else s[n..]
  }

  /** Kotlin `indexOf`: the first position holding x, or -1. */
  function IndexOf<T(==)>(s: seq<T>, x: T): (r: int)
    ensures -1 <= r < |s|
    ensures r == -1 <==> x !in s
    ensures 0 <= r ==> s[r] == x && forall j :: 0 <= j < r ==> s[j] != x
  {
    if |s| == 0 then -1
    else if s[0] == x then 0
    else
      var k := IndexOf(s[1..], x);
      if k == -1 then -1 else k + 1
  }

  /** Kotlin `count { it == x }`. */
  function Count<T(==)>(s: seq<T>, x: T): (r: nat)
    ensures r <= |s|
    ensures r == 0 <==> x !in s
  {
    if |s| == 0 then 0
    else
      assert s == s[..|s| - 1] + [s[|s| - 1]];
      Count(s[..|s| - 1], x) + (if s[|s| - 1] == x then 1 else 0)
  }

  /** n copies of x (Kotlin `Array(n) { x }.toList()`). */
  function Repeat<T>(n: nat, x: T): (r: seq<T>)
    ensures |r| == n && forall j :: 0 <= j < |r| ==> r[j] == x
  {
    seq(n, _ => x)
  }

  lemma CountRepeat<T>(n: nat, x: T, y: T)
    ensures Count(Repeat(n, x), y) == if x == y then n else 0
  {
    if n > 0 {
      assert Repeat(n, x)[..n - 1] == Repeat(n - 1, x);
      CountRepeat(n - 1, x, y);
    }
  }

  lemma {:induction false} CountAppend<T>(a: seq<T>, b: seq<T>, x: T)
    ensures Count(a + b, x) == Count(a, x) + Count(b, x)
  {
    if |b| > 0 {
      assert (a + b)[..|a + b| - 1] == a + b[..|b| - 1];
      CountAppend(a, b[..|b| - 1], x);
    } else {
      assert a + b == a;
    }
  }

  predicate StrictlyIncreasing(s: seq<int>)
  {
    forall j, k :: 0 <= j < k < |s| ==> s[j] < s[k]
  }

  /** The number of elements strictly below t. */
  function CountLess(s: seq<int>, t: int): nat
  {
    if |s| == 0 then 0
    else CountLess(s[..|s| - 1], t) + (if s[|s| - 1] < t then 1 else 0)
  }

  // ---------------------------------------------------------------------
  // Characters and strings (ASCII only: the JVM's full Unicode case mapping
  // is not modelled).

  function LowerChar(c: char): (r: char)
    ensures 'A' <= c <= 'Z' ==> 'a' <= r <= 'z'
    ensures !('A' <= c <= 'Z') ==> r == c
  {
    if 'A' <= c <= 'Z' then (c as int - 'A' as int + 'a' as int) as char else c
  }

  /** Kotlin `lowercase()`, restricted to ASCII letters. */
  function Lower(s: string): (r: string)
    ensures |r| == |s| && forall j :: 0 <= j < |s| ==> r[j] == LowerChar(s[j])
  {
    seq(|s|, j requires 0 <= j < |s| => LowerChar(s[j]))
  }

  predicate SameCharIgnoreCase(a: char, b: char)
  {
    LowerChar(a) == LowerChar(b)
  }

  /** Kotlin `s.startsWith(prefix, ignoreCase = true)`. */
  predicate StartsWithIgnoreCase(s: string, prefix: string)
    ensures StartsWithIgnoreCase(s, prefix) <==> |prefix| <= |s| && Lower(s[..|prefix|]) == Lower(prefix)
  {
    |prefix| <= |s| && forall j :: 0 <= j < |prefix| ==> SameCharIgnoreCase(s[j], prefix[j])
  }

  /** Kotlin `s.contains(sub, ignoreCase = true)`. */
  predicate ContainsIgnoreCase(s: string, sub: string)
    ensures StartsWithIgnoreCase(s, sub) ==> ContainsIgnoreCase(s, sub)
    ensures |sub| > |s| ==> !ContainsIgnoreCase(s, sub)
  {
    assert s[0..] == s;
    assert StartsWithIgnoreCase(s[0..], sub) <==> StartsWithIgnoreCase(s, sub);
    exists i :: 0 <= i <= |s| && StartsWithIgnoreCase(s[i..], sub)
  }

  predicate IsDigit(c: char)
  {
    '0' <= c <= '9'
  }

  function DigitChar(d: int): (c: char)
    requires 0 <= d < 10
    ensures IsDigit(c) && c as int - '0' as int == d
  {
    ('0' as int + d) as char
  }

  /** Kotlin's decimal rendering of a non-negative Int. */
  function NatToString(n: nat): (r: string)
    ensures |r| >= 1
    ensures forall j :: 0 <= j < |r| ==> IsDigit(r[j])
    ensures DigitValue(r) == n
    ensures |r| == 1 <==> n < 10
    ensures |r| > 1 ==> r[0] != '0'
  {
    if n < 10 then [DigitChar(n)]
    else
      var high := NatToString(n / 10);
      var r := high + [DigitChar(n % 10)];
      assert r[..|r| - 1] == high;
      assert r[0] == high[0];
      r
  }

  /** The number a string of decimal digits denotes. */
  function DigitValue(s: string): int
  {
    if |s| == 0 then 0
    else DigitValue(s[..|s| - 1]) * 10 + (s[|s| - 1] as int - '0' as int)
  }

  /** Kotlin's decimal rendering of an Int (leading '-' when negative). */
  function IntToString(n: int): (r: string)
    ensures |r| >= 1
    ensures n >= 0 ==> r == NatToString(n)
    ensures n < 0 ==> r[0] == '-' && r[1..] == NatToString(-n)
  {
    if n >= 0 then NatToString(n) else "-" + NatToString(-n)
  }
}
