/** Sequence combinators standing for Rust's iterator adaptors
    (`map`, `filter`, `collect`), with the facts the models rely on. */
module Seqs {

  /** `iter().map(f).collect()` */
  function Map<A, B>(f: A -> B, s: seq<A>): (r: seq<B>)
    ensures |r| == |s|
    ensures forall i :: 0 <= i < |s| ==> r[i] == f(s[i])
  {
    if |s| == 0 then [] else [f(s[0])] + Map(f, s[1..])
  }

  /** `iter().filter(p).collect()`: the elements satisfying `p`, in their original order. */
  function Filter<A>(p: A -> bool, s: seq<A>): (r: seq<A>)
    ensures |r| <= |s|
    ensures forall x :: x in r ==> x in s && p(x)
    ensures (forall i :: 0 <= i < |s| ==> p(s[i])) ==> r == s
  {
    if |s| == 0 then []
    else if p(s[0]) then [s[0]] + Filter(p, s[1..])
    else Filter(p, s[1..])
  }

  /** Number of elements satisfying `p`. */
  function Count<A>(p: A -> bool, s: seq<A>): (n: nat)
    ensures n <= |s|
  {
    if |s| == 0 then 0 else (if p(s[0]) then 1 else 0) + Count(p, s[1..])
  }

  /** An element is kept by `Filter` exactly when it is in the input and satisfies `p`. */
  lemma {:induction false} FilterMembership<A>(p: A -> bool, s: seq<A>, x: A)
    ensures x in Filter(p, s) <==> x in s && p(x)
  {
    if |s| > 0 {
      FilterMembership(p, s[1..], x);
      assert s == [s[0]] + s[1..];
    }
  }

  lemma {:induction false} FilterIdempotent<A>(p: A -> bool, s: seq<A>)
    ensures Filter(p, Filter(p, s)) == Filter(p, s)
  {
    if |s| > 0 {
      FilterIdempotent(p, s[1..]);
      if p(s[0]) {
        assert Filter(p, [s[0]] + Filter(p, s[1..])) == [s[0]] + Filter(p, Filter(p, s[1..])) by {
          assert ([s[0]] + Filter(p, s[1..]))[1..] == Filter(p, s[1..]);
        }
      }
    }
  }

  /** `Filter` commutes with a `Map` that does not change the filtering predicate. */
  lemma {:induction false} FilterMapCommute<A, B>(p: A -> bool, q: B -> bool, f: A -> B, s: seq<A>)
    requires forall x :: q(f(x)) == p(x)
    ensures Filter(q, Map(f, s)) == Map(f, Filter(p, s))
  {
    if |s| > 0 {
      FilterMapCommute(p, q, f, s[1..]);
      assert Map(f, s)[1..] == Map(f, s[1..]);
    }
  }

  lemma MapCons<A, B>(f: A -> B, x: A, s: seq<A>)
    ensures Map(f, [x] + s) == [f(x)] + Map(f, s)
  {
  }

  lemma FilterCons<A>(p: A -> bool, x: A, s: seq<A>)
    ensures Filter(p, [x] + s) == if p(x) then [x] + Filter(p, s) else Filter(p, s)
  {
    assert ([x] + s)[1..] == s;
  }

  /** With at most one element satisfying `p`, two such positions coincide. */
  lemma {:induction false} CountAtMostOne<A>(p: A -> bool, s: seq<A>, i: nat, j: nat)
    requires Count(p, s) <= 1
    requires i < |s| && j < |s| && p(s[i]) && p(s[j])
    ensures i == j
  {
    if i > 0 && j > 0 {
      assert Count(p, s[1..]) <= 1;
      CountAtMostOne(p, s[1..], i - 1, j - 1);
    } else if i > 0 || j > 0 {
      var k := if i > 0 then i - 1 else j - 1;
      CountPositive(p, s[1..], k);
    }
  }

  lemma {:induction false} CountPositive<A>(p: A -> bool, s: seq<A>, k: nat)
    requires k < |s| && p(s[k])
    ensures Count(p, s) >= 1
  {
    if k > 0 {
      CountPositive(p, s[1..], k - 1);
    }
  }
}
