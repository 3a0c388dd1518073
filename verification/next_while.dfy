/** The predicate-prefix counter of src/utils/next_while.rs. The peekable
    iterator is a sequence; what it has not yet yielded is a suffix of it. */
module NextWhile {

  /** The length of the longest prefix of `s` whose elements all satisfy `f`. */
  function PrefixCount<T>(s: seq<T>, f: T -> bool): (n: nat)
    ensures n <= |s|
    ensures forall i :: 0 <= i < n ==> f(s[i])
    ensures n < |s| ==> !f(s[n])
  {
    if |s| == 0 || !f(s[0]) then 0 else 1 + PrefixCount(s[1..], f)
  }

  /** The three conditions above pin the count down: no other length meets them. */
  lemma PrefixCountUnique<T>(s: seq<T>, f: T -> bool, n: nat)
    requires n <= |s|
    requires forall i :: 0 <= i < n ==> f(s[i])
    requires n < |s| ==> !f(s[n])
    ensures n == PrefixCount(s, f)
  {
  }

  /** `next_while_count`: pulls elements with `next_if` while they satisfy
      `func`, so the first failing element is peeked but stays in `rest`. */
  method NextWhileCount<T>(source: seq<T>, func: T -> bool) returns (count: nat, rest: seq<T>)
    ensures count <= |source| && rest == source[count..]
    ensures forall i :: 0 <= i < count ==> func(source[i])
    ensures rest == [] || !func(rest[0])
    ensures count == PrefixCount(source, func)
  {
    count := 0;
    rest := source;
    while rest != [] && func(rest[0])
      invariant count <= |source| && rest == source[count..]
      invariant forall i :: 0 <= i < count ==> func(source[i])
      decreases |rest|
    {
      count := count + 1;
      rest := rest[1..];
    }
    PrefixCountUnique(source, func, count);
  }

  /** A second call on what the first left behind counts nothing. */
  lemma NextWhileIdempotent<T>(s: seq<T>, f: T -> bool)
    ensures PrefixCount(s[PrefixCount(s, f)..], f) == 0
  {
  }

  /** The empty iterator, and one whose first element fails, give 0. */
  lemma PrefixCountZero<T>(s: seq<T>, f: T -> bool)
    ensures PrefixCount(s, f) == 0 <==> s == [] || !f(s[0])
  {
  }

  function IsOne(x: int): bool { x == 1 }

  function IsHash(c: char): bool { c == '#' }

  /** The values of the unit test `basics`. */
  lemma BasicsExample()
    ensures PrefixCount([1, 1, 2, 3], IsOne) == 2
    ensures PrefixCount([1, 1, 2, 3][2..], IsOne) == 0
    ensures PrefixCount("### Hello World", IsHash) == 3
    ensures PrefixCount("### Hello World"[3..], IsHash) == 0
  {
    var a := [1, 1, 2, 3];
    assert !IsOne(a[2]);
    PrefixCountUnique(a, IsOne, 2);
    var s := "### Hello World";
    assert s[3] == ' ';
    PrefixCountUnique(s, IsHash, 3);
  }
}
