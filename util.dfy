/** Small shared vocabulary: an optional value, duplicate-free sequences and
    the ascending ordering of timestamps (Python's `sorted` on dictionary
    keys). */
module Util {

  datatype Option<T> = None | Some(value: T)

  predicate Distinct<T(==)>(s: seq<T>)
  {
    forall i, j :: 0 <= i < j < |s| ==> s[i] != s[j]
  }

  predicate StrictlyIncreasing(s: seq<int>)
  {
    forall i, j :: 0 <= i < j < |s| ==> s[i] < s[j]
  }

  /** Inserts `x` into an ascending sequence, in front of the first larger
      element. */
  function Insert(x: int, s: seq<int>): seq<int>
  {
    if s == [] then [x]
    else if x < s[0] then [x] + s
    else [s[0]] + Insert(x, s[1..])
  }

  lemma {:induction false} InsertElements(x: int, s: seq<int>)
    ensures |Insert(x, s)| == |s| + 1
    ensures forall y :: y in Insert(x, s) <==> y in s || y == x
  {
    if s != [] && x >= s[0] {
      InsertElements(x, s[1..]);
      assert s == [s[0]] + s[1..];
    }
  }

  lemma {:induction false} InsertIncreasing(x: int, s: seq<int>)
    requires StrictlyIncreasing(s) && x !in s
    ensures StrictlyIncreasing(Insert(x, s))
  {
    if s != [] && x >= s[0] {
      var rest := Insert(x, s[1..]);
      InsertIncreasing(x, s[1..]);
      InsertElements(x, s[1..]);
      forall i | 0 <= i < |rest|
        ensures s[0] < rest[i]
      {
        assert rest[i] in rest;
      }
    }
  }

  /** `sorted(keys)`: the same keys in ascending order. */
  function Sorted(keys: seq<int>): (r: seq<int>)
    requires Distinct(keys)
    ensures |r| == |keys|
    ensures forall k :: k in r <==> k in keys
    ensures StrictlyIncreasing(r)
  {
    if keys == [] then []
    else
      var n := |keys| - 1;
      var prefix := Sorted(keys[..n]);
      assert keys == keys[..n] + [keys[n]];
      InsertElements(keys[n], prefix);
      InsertIncreasing(keys[n], prefix);
      Insert(keys[n], prefix)
  }

  lemma StrictlyIncreasingIsDistinct(s: seq<int>)
    requires StrictlyIncreasing(s)
    ensures Distinct(s)
  {
  }
}
