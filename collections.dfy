/** Sequence helpers shared by the model: the array methods `filter` and `find`
    that the store, the pages and the catalogs use, with the facts about them
    proved once. */
module Collections {

  datatype Option<+T> = None | Some(value: T)

  /** `xs.filter(p)`: the elements satisfying `p`, in their original order. */
  function Filter<T(!new)>(s: seq<T>, p: T -> bool): (r: seq<T>)
    ensures |r| <= |s|
    ensures forall i :: 0 <= i < |r| ==> p(r[i])
    ensures forall x :: x in r <==> x in s && p(x)
  {
    if s == [] then []
    else
      assert s == [s[0]] + s[1..];
      (if p(s[0]) then [s[0]] else []) + Filter(s[1..], p)
  }

  /** Filtering distributes over concatenation: together with the one-element
      case this pins down the order of the result. */
  lemma {:induction false} FilterConcat<T(!new)>(a: seq<T>, b: seq<T>, p: T -> bool)
    ensures Filter(a + b, p) == Filter(a, p) + Filter(b, p)
  {
    if a == [] {
      assert a + b == b;
    } else {
      assert (a + b)[1..] == a[1..] + b;
      FilterConcat(a[1..], b, p);
    }
  }

  /** `key` strictly increases along `s`. */
  predicate IncreasingBy<T>(s: seq<T>, key: T -> int)
  {
    forall i, j :: 0 <= i < j < |s| ==> key(s[i]) < key(s[j])
  }

  /** A filter keeps the relative order of what it keeps: when a key strictly
      increases along the sequence, it strictly increases along the result. */
  lemma {:induction false} FilterKeepsOrder<T(!new)>(s: seq<T>, p: T -> bool, key: T -> int)
    requires IncreasingBy(s, key)
    ensures IncreasingBy(Filter(s, p), key)
  {
    if s != [] {
      var tail := s[1..];
      assert IncreasingBy(tail, key) by {
        forall i, j | 0 <= i < j < |tail| ensures key(tail[i]) < key(tail[j]) {
          assert tail[i] == s[i + 1] && tail[j] == s[j + 1];
        }
      }
      var rest := Filter(tail, p);
      FilterKeepsOrder(tail, p, key);
      var r := Filter(s, p);
      if p(s[0]) {
        assert r == [s[0]] + rest;
        forall i, j | 0 <= i < j < |r| ensures key(r[i]) < key(r[j]) {
          var x := rest[j - 1];
          assert x in rest && r[j] == x;
          var k :| 0 <= k < |tail| && tail[k] == x;
          assert s[k + 1] == x;
          if i > 0 {
            assert r[i] == rest[i - 1];
          }
        }
      } else {
        assert r == rest;
      }
    }
  }

  /** A filter that drops both ends of a sequence and keeps all of its middle
      yields the middle. */
  lemma {:induction false} FilterKeepsMiddle<T(!new)>(s: seq<T>, i: nat, j: nat, p: T -> bool)
    requires i <= j <= |s|
    requires Filter(s[..i], p) == [] && Filter(s[i..j], p) == s[i..j] && Filter(s[j..], p) == []
    ensures Filter(s, p) == s[i..j]
  {
    SplitThree(s, i, j);
    FilterDropsEnds(s[..i], s[i..j], s[j..], p);
  }

  lemma {:induction false} SplitThree<T>(s: seq<T>, i: nat, j: nat)
    requires i <= j <= |s|
    ensures s == s[..i] + s[i..j] + s[j..]
  {
  }

  lemma {:induction false} FilterDropsEnds<T(!new)>(a: seq<T>, b: seq<T>, c: seq<T>, p: T -> bool)
    requires Filter(a, p) == [] && Filter(b, p) == b && Filter(c, p) == []
    ensures Filter(a + b + c, p) == b
  {
    FilterConcat(a + b, c, p);
    FilterConcat(a, b, p);
    assert [] + b + [] == b;
  }

  /** A filter drops an element it rejects from between two parts. */
  lemma {:induction false} FilterDropsSeparator<T(!new)>(a: seq<T>, x: T, b: seq<T>, p: T -> bool)
    requires !p(x)
    ensures Filter(a + [x] + b, p) == Filter(a, p) + Filter(b, p)
  {
    var single := [x];
    FilterConcat(a + single, b, p);
    FilterConcat(a, single, p);
    FilterEmpty(single, p);
  }

  /** A predicate that implies another keeps no more elements. */
  lemma {:induction false} FilterStronger<T(!new)>(s: seq<T>, p: T -> bool, q: T -> bool)
    requires forall x :: p(x) ==> q(x)
    ensures |Filter(s, p)| <= |Filter(s, q)|
  {
    if s != [] {
      FilterStronger(s[1..], p, q);
    }
  }

  /** Two equally long sequences where every position kept from the first is
      also kept from the second: the second filter is at least as long. */
  lemma {:induction false} FilterPointwise<T(!new)>(s: seq<T>, t: seq<T>, p: T -> bool, q: T -> bool)
    requires |s| == |t|
    requires forall i :: 0 <= i < |s| && p(s[i]) ==> q(t[i])
    ensures |Filter(s, p)| <= |Filter(t, q)|
  {
    if s != [] {
      FilterPointwise(s[1..], t[1..], p, q);
    }
  }

  /** Filters by equivalent predicates agree. */
  lemma {:induction false} FilterExt<T(!new)>(s: seq<T>, p: T -> bool, q: T -> bool)
    requires forall x :: x in s ==> (p(x) <==> q(x))
    ensures Filter(s, p) == Filter(s, q)
  {
    if s != [] {
      FilterExt(s[1..], p, q);
    }
  }

  /** A filter keeps nothing exactly when no element satisfies the predicate. */
  lemma FilterEmpty<T(!new)>(s: seq<T>, p: T -> bool)
    ensures Filter(s, p) == [] <==> forall i :: 0 <= i < |s| ==> !p(s[i])
  {
    var r := Filter(s, p);
    if r != [] {
      assert r[0] in r;
    }
  }

  /** A filter keeps everything when every element satisfies the predicate. */
  lemma {:induction false} FilterKeepsAll<T(!new)>(s: seq<T>, p: T -> bool)
    requires forall i :: 0 <= i < |s| ==> p(s[i])
    ensures Filter(s, p) == s
  {
    if s != [] {
      FilterKeepsAll(s[1..], p);
    }
  }

  /** `xs.find(p)`: the first element satisfying `p`, or nothing. */
  function Find<T>(s: seq<T>, p: T -> bool): (r: Option<T>)
    ensures r.None? <==> forall i :: 0 <= i < |s| ==> !p(s[i])
    ensures r.Some? ==> exists i :: 0 <= i < |s| && s[i] == r.value && p(s[i])
                                    && forall j :: 0 <= j < i ==> !p(s[j])
  {
    if s == [] then None
    else if p(s[0]) then Some(s[0])
    else
      var r := Find(s[1..], p);
      assert r.Some? ==> exists i :: 0 < i < |s| && s[i] == r.value && p(s[i])
                                     && forall j :: 0 <= j < i ==> !p(s[j]) by {
        if r.Some? {
          var k :| 0 <= k < |s| - 1 && s[1..][k] == r.value && p(s[1..][k])
                   && forall j :: 0 <= j < k ==> !p(s[1..][j]);
          assert forall j :: 1 <= j < k + 1 ==> !p(s[j]) by {
            forall j | 1 <= j < k + 1 ensures !p(s[j]) {
              assert s[j] == s[1..][j - 1];
            }
          }
        }
      }
      r
  }

  /** When at most one element satisfies `p`, `find` returns that element. */
  lemma FindSingle<T>(s: seq<T>, p: T -> bool, x: T)
    requires x in s && p(x)
    requires forall i, j :: 0 <= i < |s| && 0 <= j < |s| && p(s[i]) && p(s[j]) ==> i == j
    ensures Find(s, p) == Some(x)
  {
  }

  /** No element occurs twice. */
  predicate NoDuplicates<T(==)>(s: seq<T>)
  {
    forall i, j :: 0 <= i < j < |s| ==> s[i] != s[j]
  }

  /** A filter of a duplicate-free sequence is duplicate-free. */
  lemma {:induction false} FilterKeepsDistinct<T(!new)>(s: seq<T>, p: T -> bool)
    requires NoDuplicates(s)
    ensures NoDuplicates(Filter(s, p))
  {
    if s != [] {
      FilterKeepsDistinct(s[1..], p);
      assert forall k :: 0 <= k < |s| - 1 ==> s[1..][k] != s[0];
    }
  }
}
