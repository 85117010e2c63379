/** Optional values and the few facts about sequences that the other modules share. */
module Lists {

  datatype Option<+T> = None | Some(value: T)

  function Last<T>(a: seq<T>): T
    requires a != []
  {
    a[|a| - 1]
  }

  /** The present values, in order. */
  function Somes<T>(a: seq<Option<T>>): (r: seq<T>)
    ensures |r| <= |a|
  {
    if a == [] then []
    else if a[0].Some? then [a[0].value] + Somes(a[1..])
    else Somes(a[1..])
  }

  lemma HeadFirst<T>(a: seq<T>, b: seq<T>)
    requires a != []
    ensures a + b == [a[0]] + (a[1..] + b)
  {
  }

  lemma Assoc<T>(a: seq<T>, b: seq<T>, c: seq<T>)
    ensures (a + b) + c == a + (b + c)
  {
  }

  lemma {:induction false} SomesConcat<T>(a: seq<Option<T>>, b: seq<Option<T>>)
    ensures Somes(a + b) == Somes(a) + Somes(b)
  {
    if a == [] {
      assert a + b == b;
    } else {
      assert (a + b)[1..] == a[1..] + b;
      SomesConcat(a[1..], b);
      if a[0].Some? {
        Assoc([a[0].value], Somes(a[1..]), Somes(b));
      }
    }
  }

  /** a is b with some elements left out. */
  predicate Subsequence<T(==)>(a: seq<T>, b: seq<T>)
    decreases |b|
  {
    if a == [] then true
    else if b == [] then false
    else (Last(a) == Last(b) && Subsequence(a[..|a| - 1], b[..|b| - 1])) || Subsequence(a, b[..|b| - 1])
  }

  lemma SubsequenceAppend<T>(a: seq<T>, b: seq<T>, x: T)
    requires Subsequence(a, b)
    ensures Subsequence(a, b + [x]) && Subsequence(a + [x], b + [x])
  {
    assert (b + [x])[..|b + [x]| - 1] == b;
    assert (a + [x])[..|a + [x]| - 1] == a;
  }

  lemma {:induction false} SubsequenceLength<T>(a: seq<T>, b: seq<T>)
    requires Subsequence(a, b)
    ensures |a| <= |b|
    ensures |a| == |b| ==> a == b
    decreases |b|
  {
    if a != [] {
      var b' := b[..|b| - 1];
      if Subsequence(a, b') {
        SubsequenceLength(a, b');
      } else {
        SubsequenceLength(a[..|a| - 1], b');
      }
    }
  }

  /** How many elements satisfy p. */
  function Count<T>(a: seq<T>, p: T -> bool): (n: nat)
    ensures n <= |a|
  {
    if a == [] then 0 else (if p(a[0]) then 1 else 0) + Count(a[1..], p)
  }

  lemma {:induction false} CountAppend<T>(a: seq<T>, x: T, p: T -> bool)
    ensures Count(a + [x], p) == Count(a, p) + if p(x) then 1 else 0
  {
    if a == [] {
      assert (a + [x])[1..] == [];
    } else {
      assert (a + [x])[1..] == a[1..] + [x];
      CountAppend(a[1..], x, p);
    }
  }

  lemma {:induction false} CountUpdate<T>(a: seq<T>, k: nat, x: T, p: T -> bool)
    requires k < |a|
    ensures Count(a[k := x], p) == Count(a, p) - (if p(a[k]) then 1 else 0) + if p(x) then 1 else 0
  {
    if k == 0 {
      assert a[k := x][1..] == a[1..];
    } else {
      assert a[k := x][1..] == a[1..][k - 1 := x];
      CountUpdate(a[1..], k - 1, x, p);
    }
  }

  lemma {:induction false} CountSame<T>(a: seq<T>, b: seq<T>, p: T -> bool)
    requires |a| == |b| && forall i | 0 <= i < |a| :: p(a[i]) == p(b[i])
    ensures Count(a, p) == Count(b, p)
  {
    if a != [] {
      CountSame(a[1..], b[1..], p);
    }
  }

  lemma SuffixAppend<T>(q: seq<T>, s: seq<T>, x: T)
    requires |q| <= |s| && q == s[|s| - |q|..]
    ensures q + [x] == (s + [x])[|s| - |q|..]
  {
  }

  /** JavaScript's a.slice(-n) for positive n. */
  function LastN<T>(a: seq<T>, n: nat): (r: seq<T>)
    ensures |r| <= n && |r| <= |a|
  {
    if |a| <= n then a else a[|a| - n..]
  }

  lemma LastNIsTheEnd<T>(a: seq<T>, n: nat)
    ensures |LastN(a, n)| == if |a| < n then |a| else n
    ensures LastN(a, n) == a[|a| - |LastN(a, n)|..]
  {
  }

  /** Cutting a log down after every append keeps the same window as cutting it once. */
  lemma LastNAppend<T>(a: seq<T>, n: nat, x: T)
    ensures LastN(LastN(a, n) + [x], n) == LastN(a + [x], n)
  {
  }
}
