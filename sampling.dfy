/**
 * Sampling without replacement, as the generators do it: draw an index
 * `Math.floor(Math.random() * rest.length)`, push that element, splice it
 * out of the remaining pool, repeat; then sort what was picked.
 */
module Sampling {
  import opened Numeric
  import opened Text

  function Min(a: nat, b: nat): nat {
    if a <= b then a else b
  }

  /** `rest.splice(i, 1)`, as a value. */
  function Remove<T>(s: seq<T>, i: nat): (r: seq<T>)
    requires i < |s|
    ensures |r| == |s| - 1
    ensures multiset(r) + multiset{s[i]} == multiset(s)
  {
    assert s == s[..i] + [s[i]] + s[i + 1..];
    s[..i] + s[i + 1..]
  }

  ghost predicate AllDraws(draws: seq<real>) {
    forall k :: 0 <= k < |draws| ==> IsDraw(draws[k])
  }

  /**
   * The elements a splice loop picks: at most `count`, stopping early when
   * the pool runs dry, each at the index the next draw selects among what is
   * left.
   */
  function Drawn<T>(pool: seq<T>, count: nat, draws: seq<real>): seq<T>
    requires |draws| >= Min(count, |pool|) && AllDraws(draws)
  {
    if count == 0 || pool == [] then []
    else
      var i := DrawIndex(draws[0], |pool|);
      [pool[i]] + Drawn(Remove(pool, i), count - 1, draws[1..])
  }

  lemma {:induction false} DrawnLength<T>(pool: seq<T>, count: nat, draws: seq<real>)
    requires |draws| >= Min(count, |pool|) && AllDraws(draws)
    ensures |Drawn(pool, count, draws)| == Min(count, |pool|)
  {
    if count > 0 && pool != [] {
      var i := DrawIndex(draws[0], |pool|);
      DrawsTail(draws);
      DrawnLength(Remove(pool, i), count - 1, draws[1..]);
      DrawnStep(pool, count, draws);
    }
  }

  lemma DrawsTail(draws: seq<real>)
    requires |draws| > 0 && AllDraws(draws)
    ensures AllDraws(draws[1..])
  {
    forall k | 0 <= k < |draws| - 1
      ensures IsDraw(draws[1..][k])
    {
      assert draws[1..][k] == draws[k + 1];
    }
  }

  /** One turn of the splice loop: the next draw picks, the rest is drawn from what is left. */
  lemma DrawnStep<T>(pool: seq<T>, count: nat, draws: seq<real>)
    requires |draws| >= Min(count, |pool|) && AllDraws(draws)
    requires count > 0 && pool != []
    ensures var i := DrawIndex(draws[0], |pool|);
            Drawn(pool, count, draws) == [pool[i]] + Drawn(Remove(pool, i), count - 1, draws[1..])
  {
  }

  /** Moving `rest[i]` to the picked elements keeps their union. */
  lemma PickStep<T>(picked: seq<T>, rest: seq<T>, i: nat)
    requires i < |rest|
    ensures multiset(picked + [rest[i]]) + multiset(Remove(rest, i)) == multiset(picked) + multiset(rest)
  {
    assert multiset(picked + [rest[i]]) == multiset(picked) + multiset{rest[i]};
  }

  /** A sequence that agrees with `b` and then holds `x` is `b + [x]`. */
  lemma SnocFromElements<T>(a: seq<T>, b: seq<T>, x: T)
    requires |a| == |b| + 1 && a[|b|] == x
    requires forall k :: 0 <= k < |b| ==> a[k] == b[k]
    ensures a == b + [x]
  {
  }

  lemma ConcatAssoc<T>(a: seq<T>, b: seq<T>, c: seq<T>)
    ensures (a + b) + c == a + (b + c)
  {
  }

  /** The elements of a sub-multiset of the pool are in the pool. */
  lemma SubMultisetMembers<T>(s: seq<T>, pool: seq<T>)
    requires multiset(s) <= multiset(pool)
    ensures forall k :: 0 <= k < |s| ==> s[k] in pool
  {
    forall k | 0 <= k < |s| ensures s[k] in pool {
      assert s[k] in multiset(s);
    }
  }

  lemma SubMultisetDistinct<T>(s: seq<T>, pool: seq<T>)
    requires Distinct(pool) && multiset(s) <= multiset(pool)
    ensures Distinct(s)
  {
    forall i, j | 0 <= i < j < |s|
      ensures s[i] != s[j]
    {
      if s[i] == s[j] {
        RepeatedMultiplicity(s, i, j);
        DistinctMultiplicity(pool, s[i]);
        assert false;
      }
    }
  }

  /** An element at two positions occurs at least twice. */
  lemma RepeatedMultiplicity<T>(s: seq<T>, i: nat, j: nat)
    requires i < j < |s| && s[i] == s[j]
    ensures multiset(s)[s[i]] >= 2
  {
    assert s == s[..j] + s[j..];
    assert s[..j][i] == s[i] && s[j..][0] == s[i];
  }

  lemma {:induction false} DistinctMultiplicity<T>(s: seq<T>, x: T)
    requires Distinct(s)
    ensures multiset(s)[x] <= 1
  {
    if s != [] {
      DistinctMultiplicity(s[1..], x);
      assert s == [s[0]] + s[1..];
      if s[0] == x {
        assert x !in s[1..];
      }
    }
  }

  /**
   * Where the splice loop stands after `k` turns: `picked` so far, `rest`
   * still in the pool, and what the remaining turns will pick.
   */
  ghost predicate DrawState<T>(pool: seq<T>, count: nat, draws: seq<real>, picked: seq<T>, rest: seq<T>, k: nat)
  {
    && |draws| >= Min(count, |pool|) && AllDraws(draws)
    && k == |picked| <= count && k <= |draws| && |rest| == |pool| - k
    && |draws[k..]| >= Min(count - k, |rest|) && AllDraws(draws[k..])
    && picked + Drawn(rest, count - k, draws[k..]) == Drawn(pool, count, draws)
    && multiset(picked) + multiset(rest) == multiset(pool)
  }

  lemma DrawStart<T>(pool: seq<T>, count: nat, draws: seq<real>)
    requires |draws| >= Min(count, |pool|) && AllDraws(draws)
    ensures DrawState(pool, count, draws, [], pool, 0)
  {
    assert draws[0..] == draws;
  }

  lemma DrawAdvance<T>(pool: seq<T>, count: nat, draws: seq<real>, picked: seq<T>, rest: seq<T>, k: nat)
    requires DrawState(pool, count, draws, picked, rest, k) && |picked| < count && |rest| > 0
    ensures k < |draws| && IsDraw(draws[k])
    ensures var i := DrawIndex(draws[k], |rest|);
            DrawState(pool, count, draws, picked + [rest[i]], Remove(rest, i), k + 1)
  {
    assert draws[k..][0] == draws[k];
    var i := DrawIndex(draws[k], |rest|);
    DrawnStep(rest, count - k, draws[k..]);
    assert draws[k..][1..] == draws[k + 1..];
    DrawsTail(draws[k..]);
    ConcatAssoc(picked, [rest[i]], Drawn(Remove(rest, i), count - k - 1, draws[k + 1..]));
    PickStep(picked, rest, i);
  }

  lemma DrawFinish<T>(pool: seq<T>, count: nat, draws: seq<real>, picked: seq<T>, rest: seq<T>, k: nat)
    requires DrawState(pool, count, draws, picked, rest, k) && !(|picked| < count && |rest| > 0)
    ensures picked == Drawn(pool, count, draws)
    ensures multiset(picked) <= multiset(pool)
  {
    assert Drawn(rest, count - k, draws[k..]) == [];
  }

  /**
   * The splice loop itself: `while (picked.length < count && rest.length > 0)`,
   * consuming one draw per iteration.
   */
  method DrawWithoutReplacement<T>(pool: seq<T>, count: nat, draws: seq<real>) returns (picked: seq<T>)
    requires |draws| >= Min(count, |pool|) && AllDraws(draws)
    ensures picked == Drawn(pool, count, draws)
    ensures |picked| == Min(count, |pool|)
    ensures multiset(picked) <= multiset(pool)
    ensures forall k :: 0 <= k < |picked| ==> picked[k] in pool
    ensures Distinct(pool) ==> Distinct(picked)
  {
    var rest := pool;
    picked := [];
    var k := 0;
    DrawStart(pool, count, draws);
    while |picked| < count && |rest| > 0
      invariant DrawState(pool, count, draws, picked, rest, k)
      decreases |rest|
    {
      DrawAdvance(pool, count, draws, picked, rest, k);
      var i := DrawIndex(draws[k], |rest|);
      picked := picked + [rest[i]];
      rest := Remove(rest, i);
      k := k + 1;
    }
    DrawFinish(pool, count, draws, picked, rest, k);
    DrawnLength(pool, count, draws);
    SubMultisetMembers(picked, pool);
    if Distinct(pool) {
      SubMultisetDistinct(picked, pool);
    }
  }

  /** Ascending order of a key, non-strict. */
  predicate SortedBy<T>(s: seq<T>, key: T -> int) {
    forall i, j :: 0 <= i < j < |s| ==> key(s[i]) <= key(s[j])
  }

  function Insert<T>(x: T, s: seq<T>, key: T -> int): seq<T> {
    if s == [] || key(x) <= key(s[0]) then [x] + s
    else [s[0]] + Insert(x, s[1..], key)
  }

  /**
   * `Array.prototype.sort` with an ascending comparator on `key`; the
   * library's own algorithm is not modelled, only its result.
   */
  function SortByKey<T>(s: seq<T>, key: T -> int): seq<T> {
    if s == [] then [] else Insert(s[0], SortByKey(s[1..], key), key)
  }

  lemma {:induction false} InsertMultiset<T>(x: T, s: seq<T>, key: T -> int)
    ensures multiset(Insert(x, s, key)) == multiset(s) + multiset{x}
  {
    if s != [] && key(x) > key(s[0]) {
      InsertMultiset(x, s[1..], key);
      assert s == [s[0]] + s[1..];
    }
  }

  predicate KeysAtLeast<T>(s: seq<T>, key: T -> int, lo: int) {
    forall k :: 0 <= k < |s| ==> lo <= key(s[k])
  }

  lemma {:induction false} InsertKeysAtLeast<T>(x: T, s: seq<T>, key: T -> int, lo: int)
    requires KeysAtLeast(s, key, lo) && lo <= key(x)
    ensures KeysAtLeast(Insert(x, s, key), key, lo)
  {
    if s != [] && key(x) > key(s[0]) {
      InsertKeysAtLeast(x, s[1..], key, lo);
    }
  }

  lemma {:induction false} InsertSorted<T>(x: T, s: seq<T>, key: T -> int)
    requires SortedBy(s, key)
    ensures SortedBy(Insert(x, s, key), key)
  {
    if s != [] && key(x) > key(s[0]) {
      InsertSorted(x, s[1..], key);
      InsertKeysAtLeast(x, s[1..], key, key(s[0]));
    }
  }

  /** The sort returns the same elements, in ascending key order. */
  lemma {:induction false} SortByKeyProperties<T>(s: seq<T>, key: T -> int)
    ensures SortedBy(SortByKey(s, key), key)
    ensures multiset(SortByKey(s, key)) == multiset(s)
  {
    if s != [] {
      SortByKeyProperties(s[1..], key);
      InsertSorted(s[0], SortByKey(s[1..], key), key);
      InsertMultiset(s[0], SortByKey(s[1..], key), key);
      assert s == [s[0]] + s[1..];
    }
  }

  /** Sorted elements with pairwise different keys are strictly ascending. */
  lemma SortedDistinctStrict<T>(s: seq<T>, key: T -> int, i: nat, j: nat)
    requires SortedBy(s, key) && Distinct(s)
    requires forall a, b :: a in s && b in s && key(a) == key(b) ==> a == b
    requires i < j < |s|
    ensures key(s[i]) < key(s[j])
  {
  }

  lemma SameMultisetDistinct<T>(s: seq<T>, t: seq<T>)
    requires multiset(s) == multiset(t) && Distinct(t)
    ensures Distinct(s)
  {
    SubMultisetDistinct(s, t);
  }

  /**
   * `getRandomFoodRecommendations`: the first three entries of a shuffle of
   * the pool. The shuffle `sort(() => 0.5 - Math.random())` is any
   * permutation, given as `shuffled`.
   */
  function FoodRecommendations<T>(pool: seq<T>, shuffled: seq<T>): (fd: seq<T>)
    requires multiset(shuffled) == multiset(pool)
    ensures |fd| == Min(3, |pool|)
  {
    assert |shuffled| == |multiset(shuffled)| == |pool|;
    shuffled[..Min(3, |shuffled|)]
  }

  /**
   * The recommendations are taken from the pool without repetition: from a
   * pool of distinct dishes, three different dishes.
   */
  lemma FoodRecommendationsFromPool<T>(pool: seq<T>, shuffled: seq<T>)
    requires multiset(shuffled) == multiset(pool)
    ensures multiset(FoodRecommendations(pool, shuffled)) <= multiset(pool)
    ensures Distinct(pool) ==> Distinct(FoodRecommendations(pool, shuffled))
    ensures |pool| >= 3 ==> |FoodRecommendations(pool, shuffled)| == 3
  {
    var fd := FoodRecommendations(pool, shuffled);
    assert shuffled == fd + shuffled[|fd|..];
    assert multiset(shuffled) == multiset(fd) + multiset(shuffled[|fd|..]);
    if Distinct(pool) {
      SubMultisetDistinct(fd, pool);
    }
  }
}
