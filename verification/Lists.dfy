/** Concatenating the results of a Go loop that appends, and what reordering its input changes. */
module Lists {

  function FlatMap<T, U>(f: T -> seq<U>, xs: seq<T>): seq<U> {
    if xs == [] then [] else f(xs[0]) + FlatMap(f, xs[1..])
  }

  function Flatten<T>(xss: seq<seq<T>>): seq<T> {
    if xss == [] then [] else xss[0] + Flatten(xss[1..])
  }

  lemma {:induction false} FlatMapIsFlatten<T, U>(f: T -> seq<U>, xs: seq<T>, parts: seq<seq<U>>)
    requires |parts| == |xs| && forall i | 0 <= i < |xs| :: parts[i] == f(xs[i])
    ensures FlatMap(f, xs) == Flatten(parts)
  {
    if xs != [] { FlatMapIsFlatten(f, xs[1..], parts[1..]); }
  }

  function Elems<T>(xs: seq<T>): set<T> {
    set x <- xs
  }

  lemma ElemsStep<T>(xs: seq<T>, i: nat)
    requires i < |xs|
    ensures Elems(xs[..i + 1]) == Elems(xs[..i]) + {xs[i]}
  {
    assert xs[..i + 1] == xs[..i] + [xs[i]];
  }

  /** One more round of the appending loop. */
  lemma {:induction false} FlatMapSnoc<T, U>(f: T -> seq<U>, xs: seq<T>, x: T)
    ensures FlatMap(f, xs + [x]) == FlatMap(f, xs) + f(x)
  {
    if xs == [] {
      FlatMapOne(f, x);
      assert xs + [x] == [x];
    } else {
      assert (xs + [x])[1..] == xs[1..] + [x];
      FlatMapSnoc(f, xs[1..], x);
    }
  }

  /** The same for a loop over the indices below `n`. */
  function Gather<U>(f: nat -> seq<U>, n: nat): seq<U> {
    if n == 0 then [] else Gather(f, n - 1) + f(n - 1)
  }

  lemma {:induction false} GatherMember<U>(f: nat -> seq<U>, n: nat, y: U)
    ensures y in Gather(f, n) <==> exists i: nat :: i < n && y in f(i)
  {
    if n > 0 { GatherMember(f, n - 1, y); }
  }

  lemma GatherOne<U>(f: nat -> seq<U>)
    ensures Gather(f, 1) == f(0)
  {
    assert Gather(f, 1) == Gather(f, 0) + f(0);
  }

  lemma FlatMapOne<T, U>(f: T -> seq<U>, x: T)
    ensures FlatMap(f, [x]) == f(x)
  {
    assert FlatMap(f, [x]) == f(x) + FlatMap(f, []);
  }

  lemma {:induction false} FlatMapConcat<T, U>(f: T -> seq<U>, xs: seq<T>, ys: seq<T>)
    ensures FlatMap(f, xs + ys) == FlatMap(f, xs) + FlatMap(f, ys)
  {
    if xs == [] {
      assert xs + ys == ys;
    } else {
      assert (xs + ys)[1..] == xs[1..] + ys;
      FlatMapConcat(f, xs[1..], ys);
    }
  }

  lemma FlatMapStep<T, U>(f: T -> seq<U>, xs: seq<T>, n: nat)
    requires n < |xs|
    ensures FlatMap(f, xs[..n + 1]) == FlatMap(f, xs[..n]) + f(xs[n])
  {
    assert xs[..n + 1] == xs[..n] + [xs[n]];
    FlatMapSnoc(f, xs[..n], xs[n]);
  }

  lemma {:induction false} FlatMapEmpty<T, U>(f: T -> seq<U>, xs: seq<T>)
    requires forall x <- xs :: f(x) == []
    ensures FlatMap(f, xs) == []
  {
    if xs != [] { FlatMapEmpty(f, xs[1..]); }
  }

  lemma FlatMapMove<T, U>(f: T -> seq<U>, done: seq<U>, xs: seq<T>)
    requires xs != []
    ensures done + FlatMap(f, xs) == (done + f(xs[0])) + FlatMap(f, xs[1..])
  {}

  lemma FlatMapSplit<T, U>(f: T -> seq<U>, xs: seq<T>, i: nat, rest: seq<U>)
    requires i < |xs|
    ensures FlatMap(f, xs[i..]) + rest == f(xs[i]) + (FlatMap(f, xs[i + 1..]) + rest)
  {
    assert xs[i..][0] == xs[i] && xs[i..][1..] == xs[i + 1..];
  }

  lemma {:induction false} FlatMapMember<T(!new), U>(f: T -> seq<U>, xs: seq<T>, y: U)
    ensures y in FlatMap(f, xs) <==> exists x :: x in xs && y in f(x)
  {
    if xs != [] {
      FlatMapMember(f, xs[1..], y);
      assert xs == [xs[0]] + xs[1..];
    }
  }

  /** A loop that appends one element per round is a map. */
  lemma {:induction false} FlatMapSame<T, U>(f: T -> seq<U>, g: T -> seq<U>, xs: seq<T>)
    requires forall x <- xs :: f(x) == g(x)
    ensures FlatMap(f, xs) == FlatMap(g, xs)
  {
    if xs != [] { FlatMapSame(f, g, xs[1..]); }
  }

  lemma {:induction false} FlatMapAlike<T, U>(f: T -> seq<U>, xs: seq<T>, ys: seq<T>)
    requires |xs| == |ys| && forall i | 0 <= i < |xs| :: f(xs[i]) == f(ys[i])
    ensures FlatMap(f, xs) == FlatMap(f, ys)
  {
    if xs != [] {
      assert forall i | 0 <= i < |xs[1..]| :: xs[1..][i] == xs[i + 1] && ys[1..][i] == ys[i + 1];
      FlatMapAlike(f, xs[1..], ys[1..]);
    }
  }

  lemma FlatMapIndex<T(!new), U>(f: T -> seq<U>, xs: seq<T>, y: U) returns (i: nat)
    requires y in FlatMap(f, xs)
    ensures i < |xs| && y in f(xs[i])
  {
    FlatMapMember(f, xs, y);
    var x :| x in xs && y in f(x);
    i :| 0 <= i < |xs| && xs[i] == x;
  }

  lemma {:induction false} FlatMapSingletons<T, U>(f: T -> seq<U>, xs: seq<T>, ys: seq<U>)
    requires |xs| == |ys| && forall i | 0 <= i < |xs| :: f(xs[i]) == [ys[i]]
    ensures FlatMap(f, xs) == ys
  {
    if xs != [] {
      FlatMapSingletons(f, xs[1..], ys[1..]);
      assert ys == [ys[0]] + ys[1..];
    }
  }

  /** The bag of everything the loop appends. */
  ghost function Bag<T, U>(f: T -> seq<U>, xs: seq<T>): multiset<U> {
    if xs == [] then multiset{} else multiset(f(xs[0])) + Bag(f, xs[1..])
  }

  lemma {:induction false} FlatMapBag<T, U>(f: T -> seq<U>, xs: seq<T>)
    ensures multiset(FlatMap(f, xs)) == Bag(f, xs)
  {
    if xs != [] { FlatMapBag(f, xs[1..]); }
  }

  function Without<T>(xs: seq<T>, i: nat): seq<T>
    requires i < |xs|
  {
    xs[..i] + xs[i + 1..]
  }

  lemma WithoutBag<T>(xs: seq<T>, i: nat)
    requires i < |xs|
    ensures multiset(Without(xs, i)) == multiset(xs) - multiset{xs[i]}
  {
    assert xs == xs[..i] + [xs[i]] + xs[i + 1..];
  }

  lemma WithoutTail<T>(xs: seq<T>, i: nat)
    requires 0 < i < |xs|
    ensures Without(xs, i)[0] == xs[0] && Without(xs, i)[1..] == Without(xs[1..], i - 1)
  {
    assert Without(xs, i)[1..] == Without(xs[1..], i - 1);
  }

  lemma {:induction false} BagWithout<T, U>(f: T -> seq<U>, xs: seq<T>, i: nat)
    requires i < |xs|
    ensures Bag(f, xs) == Bag(f, Without(xs, i)) + multiset(f(xs[i]))
  {
    if i == 0 {
      assert Without(xs, 0) == xs[1..];
    } else {
      BagWithout(f, xs[1..], i - 1);
      WithoutTail(xs, i);
    }
  }

  lemma {:induction false} BagPermutes<T, U>(f: T -> seq<U>, xs: seq<T>, ys: seq<T>)
    requires multiset(xs) == multiset(ys)
    ensures Bag(f, xs) == Bag(f, ys)
  {
    assert |xs| == |multiset(xs)| == |multiset(ys)| == |ys|;
    if xs != [] {
      assert xs[0] in multiset(ys);
      var i :| 0 <= i < |ys| && ys[i] == xs[0];
      assert Without(xs, 0) == xs[1..];
      BagWithout(f, ys, i);
      WithoutBag(ys, i);
      WithoutBag(xs, 0);
      BagPermutes(f, xs[1..], Without(ys, i));
    }
  }

  /** The loop's output depends on the order of its input only up to order. */
  lemma FlatMapPermutes<T, U>(f: T -> seq<U>, xs: seq<T>, ys: seq<T>)
    requires multiset(xs) == multiset(ys)
    ensures multiset(FlatMap(f, xs)) == multiset(FlatMap(f, ys))
  {
    BagPermutes(f, xs, ys);
    FlatMapBag(f, xs);
    FlatMapBag(f, ys);
  }

  // ------------------------------------------------------------- distinctness

  ghost predicate DistinctBy<T(!new), K(!new)>(key: T -> K, xs: seq<T>) {
    forall i, j | 0 <= i < j < |xs| :: key(xs[i]) != key(xs[j])
  }

  /** A permutation of a list with distinct keys has distinct keys. */
  lemma {:induction false} DistinctPermutes<T(!new), K(!new)>(key: T -> K, xs: seq<T>, ys: seq<T>)
    requires multiset(xs) == multiset(ys)
    requires DistinctBy(key, xs)
    ensures DistinctBy(key, ys)
  {
    forall i, j | 0 <= i < j < |ys| ensures key(ys[i]) != key(ys[j]) {
      if key(ys[i]) == key(ys[j]) {
        var a, b := ys[i], ys[j];
        assert a in multiset(xs) && b in multiset(xs);
        var p :| 0 <= p < |xs| && xs[p] == a;
        var q :| 0 <= q < |xs| && xs[q] == b;
        assert p == q && a == b;
        TwiceInSeq(ys, i, j);
        OnceInSeq(key, xs, p);
        assert false;
      }
    }
  }

  lemma TwiceInSeq<T>(ys: seq<T>, i: nat, j: nat)
    requires i < j < |ys| && ys[i] == ys[j]
    ensures multiset(ys)[ys[i]] >= 2
  {
    assert ys == ys[..i] + [ys[i]] + ys[i + 1..j] + [ys[j]] + ys[j + 1..];
  }

  lemma OnceInSeq<T(!new), K(!new)>(key: T -> K, xs: seq<T>, p: nat)
    requires p < |xs| && DistinctBy(key, xs)
    ensures multiset(xs)[xs[p]] == 1
  {
    assert xs == xs[..p] + [xs[p]] + xs[p + 1..];
    assert xs[p] !in xs[..p] && xs[p] !in xs[p + 1..];
  }

  /** What the loop appends is distinct if each round's output is, and no two rounds overlap. */
  lemma {:induction false} FlatMapDistinct<T(!new), U(!new), K(!new)>(f: T -> seq<U>, key: U -> K, xs: seq<T>)
    requires forall i | 0 <= i < |xs| :: DistinctBy(key, f(xs[i]))
    requires forall i, j | 0 <= i < j < |xs| :: forall y <- f(xs[i]), z <- f(xs[j]) :: key(y) != key(z)
    ensures DistinctBy(key, FlatMap(f, xs))
  {
    if xs != [] {
      FlatMapDistinct(f, key, xs[1..]);
      forall y <- f(xs[0]), z <- FlatMap(f, xs[1..]) ensures key(y) != key(z) {
        FlatMapMember(f, xs[1..], z);
        var x :| x in xs[1..] && z in f(x);
        var j :| 0 <= j < |xs[1..]| && xs[1..][j] == x;
        assert xs[j + 1] == x;
      }
    }
  }

  lemma ConcatDistinct<T(!new), K(!new)>(key: T -> K, xs: seq<T>, ys: seq<T>)
    requires DistinctBy(key, xs) && DistinctBy(key, ys) && forall x <- xs, y <- ys :: key(x) != key(y)
    ensures DistinctBy(key, xs + ys)
  {
    var zs := xs + ys;
    forall i, j | 0 <= i < j < |zs| ensures key(zs[i]) != key(zs[j]) {
      if j < |xs| {
        assert key(xs[i]) != key(xs[j]);
      } else if i >= |xs| {
        assert key(ys[i - |xs|]) != key(ys[j - |xs|]);
      } else {
        assert xs[i] in xs && ys[j - |xs|] in ys;
      }
    }
  }

  // ------------------------------------------------------------- chains of steps

  /** The states `ts` that one step per element of `rs` passes through. */
  ghost predicate Trace<S(!new), R(!new)>(step: (S, R, S) -> bool, ts: seq<S>, rs: seq<R>) {
    |ts| == |rs| + 1 && forall i | 0 <= i < |rs| :: step(ts[i], rs[i], ts[i + 1])
  }

  ghost predicate Chain<S(!new), R(!new)>(step: (S, R, S) -> bool, s: S, rs: seq<R>, u: S) {
    exists ts :: Trace(step, ts, rs) && ts[0] == s && ts[|rs|] == u
  }

  lemma ChainNil<S(!new), R(!new)>(step: (S, R, S) -> bool, s: S)
    ensures Chain(step, s, [], s)
  {
    assert Trace(step, [s], []);
  }

  lemma ChainConcat<S(!new), R(!new)>(step: (S, R, S) -> bool, s: S, rs: seq<R>, m: S, qs: seq<R>, u: S)
    requires Chain(step, s, rs, m) && Chain(step, m, qs, u)
    ensures Chain(step, s, rs + qs, u)
  {
    var ts :| Trace(step, ts, rs) && ts[0] == s && ts[|rs|] == m;
    var us :| Trace(step, us, qs) && us[0] == m && us[|qs|] == u;
    var vs := ts + us[1..];
    forall i | 0 <= i < |rs + qs| ensures step(vs[i], (rs + qs)[i], vs[i + 1]) {
      if i < |rs| {
        assert step(ts[i], rs[i], ts[i + 1]);
      } else {
        var j := i - |rs|;
        assert step(us[j], qs[j], us[j + 1]);
      }
    }
    assert Trace(step, vs, rs + qs);
  }

  lemma ChainSnoc<S(!new), R(!new)>(step: (S, R, S) -> bool, s: S, rs: seq<R>, m: S, r: R, u: S)
    requires Chain(step, s, rs, m) && step(m, r, u)
    ensures Chain(step, s, rs + [r], u)
  {
    assert Trace(step, [m, u], [r]);
    ChainConcat(step, s, rs, m, [r], u);
  }
}
