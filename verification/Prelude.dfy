/** Small shared vocabulary: options, results, and Go's "missing key reads as zero" map access. */
module Prelude {

  /** Instants are nanosecond counts; Go's zero time.Time ("no deadline") is modelled by None. */
  type Time = int

  datatype Option<+T> = None | Some(value: T)

  datatype Result<+R, +E> = Ok(value: R) | Err(error: E)

  /** m[k] as Go reads it: a missing key yields the zero value. */
  function Get<K>(m: map<K, int>, k: K): int {
    if k in m then m[k] else 0
  }

  ghost predicate Distinct<T>(s: seq<T>) {
    forall i, j :: 0 <= i < j < |s| ==> s[i] != s[j]
  }

  /** s without the element at index i. */
  function Without<T>(s: seq<T>, i: nat): (r: seq<T>)
    requires i < |s|
    ensures |r| == |s| - 1
    ensures forall k :: 0 <= k < i ==> r[k] == s[k]
    ensures forall k :: i <= k < |r| ==> r[k] == s[k + 1]
  {
    s[..i] + s[i + 1..]
  }

  lemma WithoutMembers<T>(s: seq<T>, i: nat)
    requires i < |s| && Distinct(s)
    ensures Distinct(Without(s, i))
    ensures forall x :: x in Without(s, i) <==> x in s && x != s[i]
  {
    var r := Without(s, i);
    forall x | x in s && x != s[i]
      ensures x in r
    {
      var k :| 0 <= k < |s| && s[k] == x;
      assert r[if k < i then k else k - 1] == x;
    }
  }

  lemma SubsetSize<T>(a: set<T>, b: set<T>)
    requires a <= b
    ensures |a| <= |b|
  {
    assert b == a + (b - a);
  }

  /** The index of the first occurrence of x. */
  ghost function IndexOf<T>(s: seq<T>, x: T): (i: nat)
    requires x in s
    ensures i < |s| && s[i] == x
    ensures forall k :: 0 <= k < i ==> s[k] != x
  {
    FirstExists(s, x);
    var i: nat :| i < |s| && s[i] == x && forall k :: 0 <= k < i ==> s[k] != x;
    i
  }

  lemma FirstExists<T>(s: seq<T>, x: T)
    requires x in s
    ensures exists i: nat :: i < |s| && s[i] == x && forall k :: 0 <= k < i ==> s[k] != x
  {
    var n: nat := 0;
    while s[n] != x
      invariant n < |s| && forall k :: 0 <= k < n ==> s[k] != x
      decreases |s| - n
    {
      n := n + 1;
    }
  }
}
