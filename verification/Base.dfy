/** Small vocabulary shared by every module of the project. */
module Base {

  datatype Option<+T> = None | Some(value: T)

  datatype Result<+T, +E> = Success(value: T) | Failure(error: E)

  /** Largest value of the 64-bit counters the kernel keeps. */
  const U64_MAX: nat := 0xFFFF_FFFF_FFFF_FFFF

  newtype Byte = i: int | 0 <= i < 256

  type Bytes = seq<Byte>

  function SaturatingSucc(n: nat): nat {
    if n < U64_MAX then n + 1 else n
  }

  function Lookup<K, V>(m: map<K, V>, k: K, default: V): V {
    if k in m then m[k] else default
  }

  function Min(a: nat, b: nat): nat {
    if a < b then a else b
  }

  /** Multiplication as repeated addition. */
  function Times(n: nat, p: nat): nat {
    if n == 0 then 0 else Times(n - 1, p) + p
  }

  lemma {:induction false} TimesIsProduct(n: nat, p: nat)
    ensures Times(n, p) == n * p
  {
    if n > 0 {
      TimesIsProduct(n - 1, p);
    }
  }

  ghost predicate Distinct<T(!new)>(s: seq<T>) {
    forall i, j :: 0 <= i < j < |s| ==> s[i] != s[j]
  }

  lemma {:induction false} SubsetCardinality<T>(small: set<T>, large: set<T>)
    requires small <= large
    ensures |small| <= |large|
    ensures |small| == |large| ==> small == large
  {
    if small != {} {
      var x :| x in small;
      SubsetCardinality(small - {x}, large - {x});
    }
  }

  lemma {:induction false} DistinctCardinality<T(!new)>(s: seq<T>)
    requires Distinct(s)
    ensures |set x | x in s| == |s|
  {
    var all := set x | x in s;
    if |s| == 0 {
      assert all == {};
    } else {
      var front := s[..|s| - 1];
      DistinctCardinality(front);
      var last := s[|s| - 1];
      assert s == front + [last];
      assert last !in front;
      assert all == (set x | x in front) + {last};
    }
  }
}
