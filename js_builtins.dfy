/** The few JavaScript built-ins whose exact behaviour the dashboard's
    arithmetic and string handling depend on, written out over Dafny's
    unbounded integers and `seq<char>` strings. */
module JsBuiltins {

  /** JavaScript's `%`: the remainder takes the sign of the dividend
      (truncating division), unlike Dafny's Euclidean `%`. */
  function Rem(a: int, b: int): (r: int)
    requires b > 0
    ensures a >= 0 ==> 0 <= r < b && a == (a / b) * b + r
    ensures a < 0 ==> -b < r <= 0
  {
    if a >= 0 then a % b else -((-a) % b)
  }

  /** The index `Array.prototype.slice` uses for a relative position:
      a negative one counts from the end, and the result is clamped to
      `[0, len]`. */
  function RelativeIndex(i: int, len: nat): (k: nat)
    ensures k <= len
    ensures 0 <= i <= len ==> k == i
    ensures i > len ==> k == len
    ensures -(len as int) <= i < 0 ==> k == len + i
    ensures i < -(len as int) ==> k == 0
  {
    if i < 0 then (if len + i < 0 then 0 else len + i)
    else if i > len then len
    else i
  }

  /** `s.slice(start, end)` on an array: never longer than `s`, the
      plain subsequence when both bounds are in range, and otherwise the
      run of `s` from the clamped start. */
  function Slice<T>(s: seq<T>, start: int, end: int): (r: seq<T>)
    ensures var a, b := RelativeIndex(start, |s|), RelativeIndex(end, |s|);
      r == if a < b then s[a..b] else []
    ensures |r| <= |s|
    ensures 0 <= start <= end <= |s| ==> r == s[start..end]
    ensures forall i :: 0 <= i < |r| ==>
      RelativeIndex(start, |s|) + i < |s| && r[i] == s[RelativeIndex(start, |s|) + i]
  {
    var a, b := RelativeIndex(start, |s|), RelativeIndex(end, |s|);
    if a < b then s[a..b] else []
  }

  /** `s.split(' ')`: the pieces between single spaces, empty pieces
      included, so that `"".split(' ')` is `[""]`. */
  function Split(s: string): (parts: seq<string>)
    ensures |parts| >= 1
    ensures forall i :: 0 <= i < |parts| ==> ' ' !in parts[i]
  {
    if s == [] then [""]
    else
      var rest := Split(s[1..]);
      if s[0] == ' ' then [""] + rest
      else [[s[0]] + rest[0]] + rest[1..]
  }

  /** `parts.join(' ')`. */
  function JoinWithSpace(parts: seq<string>): string
  {
    if |parts| == 0 then ""
    else if |parts| == 1 then parts[0]
    else parts[0] + " " + JoinWithSpace(parts[1..])
  }

  /** Splitting on spaces and joining back with spaces gives the
      original string back. */
  lemma {:induction false} SplitJoin(s: string)
    ensures JoinWithSpace(Split(s)) == s
  {
    if s != [] {
      SplitJoin(s[1..]);
      var rest := Split(s[1..]);
      if s[0] == ' ' {
        assert Split(s) == [""] + rest;
        assert JoinWithSpace(Split(s)) == "" + " " + JoinWithSpace(rest);
      } else {
        assert Split(s) == [[s[0]] + rest[0]] + rest[1..];
        if |rest| == 1 {
          assert JoinWithSpace(Split(s)) == [s[0]] + rest[0];
        } else {
          assert JoinWithSpace(rest) == rest[0] + " " + JoinWithSpace(rest[1..]);
          assert JoinWithSpace(Split(s)) == ([s[0]] + rest[0]) + " " + JoinWithSpace(rest[1..]);
        }
      }
    }
  }

  /** `toUpperCase` on one character, for ASCII letters; every other
      character is kept as it is. */
  function UpperChar(c: char): (u: char)
    ensures 'a' <= c <= 'z' ==> 'A' <= u <= 'Z' && u as int == c as int - 32
    ensures !('a' <= c <= 'z') ==> u == c
  {
    if 'a' <= c <= 'z' then (c as int - 32) as char else c
  }

  /** `s.toUpperCase()`, character by character. */
  function Upper(s: string): (r: string)
    ensures |r| == |s|
    ensures forall i :: 0 <= i < |s| ==> r[i] == UpperChar(s[i])
  {
    if s == [] then [] else [UpperChar(s[0])] + Upper(s[1..])
  }

  /** `s.filter(p)`: the elements that satisfy `p`, in their order. */
  function Filter<T>(s: seq<T>, p: T -> bool): (r: seq<T>)
    ensures |r| <= |s|
    ensures forall i :: 0 <= i < |r| ==> r[i] in s && p(r[i])
    ensures forall i :: 0 <= i < |s| && p(s[i]) ==> s[i] in r
  {
    if s == [] then []
    else (if p(s[0]) then [s[0]] else []) + Filter(s[1..], p)
  }

  /** Filtering keeps every satisfying element as often as it occurs and
      drops the others, so it sees the input only as a multiset. */
  lemma {:induction false} FilterMultiset<T>(s: seq<T>, p: T -> bool)
    ensures forall x :: multiset(Filter(s, p))[x] == if p(x) then multiset(s)[x] else 0
  {
    if s != [] {
      FilterMultiset(s[1..], p);
      assert s == [s[0]] + s[1..];
      assert multiset(s) == multiset{s[0]} + multiset(s[1..]);
    }
  }

  /** Nothing passes a filter that no element satisfies. */
  lemma {:induction false} FilterNone<T>(s: seq<T>, p: T -> bool)
    requires forall i :: 0 <= i < |s| ==> !p(s[i])
    ensures Filter(s, p) == []
  {
    if s != [] {
      FilterNone(s[1..], p);
    }
  }

  /** Rearranging the input does not change how many elements pass. */
  lemma FilterCountPermutation<T>(a: seq<T>, b: seq<T>, p: T -> bool)
    requires multiset(a) == multiset(b)
    ensures |Filter(a, p)| == |Filter(b, p)|
  {
    FilterMultiset(a, p);
    FilterMultiset(b, p);
    assert multiset(Filter(a, p)) == multiset(Filter(b, p));
    assert |multiset(Filter(a, p))| == |Filter(a, p)|;
    assert |multiset(Filter(b, p))| == |Filter(b, p)|;
  }

  /** `Math.round` of a real: the nearest integer, halves rounded up. */
  function MathRound(x: real): (n: int)
    ensures n as real - 0.5 <= x < n as real + 0.5
  {
    (x + 0.5).Floor
  }
}
