/** Go's `strings.Split` and `strings.Join`; pieces are split at a single character. */
module Separated {
  function Join(sep: string, xs: seq<string>): string {
    if xs == [] then "" else if |xs| == 1 then xs[0] else xs[0] + sep + Join(sep, xs[1..])
  }

  function Split(sep: char, s: string): (r: seq<string>)
    ensures r != [] && forall x <- r :: sep !in x
  {
    if s == "" then [""] else
      var rest := Split(sep, s[1..]);
      if s[0] == sep then [""] + rest else Extend(s[0], rest)
  }

  /** One more character in front of the first piece. */
  function Extend(c: char, xs: seq<string>): seq<string>
    requires xs != []
  {
    [[c] + xs[0]] + xs[1..]
  }

  lemma {:induction false} JoinOfSplit(sep: char, s: string)
    ensures Join([sep], Split(sep, s)) == s
  {
    if s != "" {
      JoinOfSplit(sep, s[1..]);
      var rest := Split(sep, s[1..]);
      assert s == [s[0]] + s[1..];
      if s[0] == sep {
        assert ([""] + rest)[1..] == rest;
      } else {
        assert Extend(s[0], rest)[1..] == rest[1..];
      }
    }
  }

  lemma ExtendConcat(c: char, xs: seq<string>, ys: seq<string>)
    requires xs != []
    ensures Extend(c, xs + ys) == Extend(c, xs) + ys && [""] + (xs + ys) == ([""] + xs) + ys
  {
    assert (xs + ys)[1..] == xs[1..] + ys;
  }

  lemma {:induction false} SplitConcat(sep: char, a: string, b: string)
    ensures Split(sep, a + [sep] + b) == Split(sep, a) + Split(sep, b)
  {
    var s := a + [sep] + b;
    if a == "" {
      assert s[1..] == b;
    } else {
      assert s[1..] == a[1..] + [sep] + b;
      SplitConcat(sep, a[1..], b);
      ExtendConcat(a[0], Split(sep, a[1..]), Split(sep, b));
    }
  }

  lemma {:induction false} SplitFree(sep: char, a: string)
    requires sep !in a
    ensures Split(sep, a) == [a]
  {
    if a != "" {
      SplitFree(sep, a[1..]);
      assert a == [a[0]] + a[1..];
    }
  }

  lemma {:induction false} SplitOfJoin(sep: char, xs: seq<string>)
    requires xs != [] && forall x <- xs :: sep !in x
    ensures Split(sep, Join([sep], xs)) == xs
  {
    SplitFree(sep, xs[0]);
    if |xs| > 1 {
      SplitOfJoin(sep, xs[1..]);
      SplitConcat(sep, xs[0], Join([sep], xs[1..]));
      assert xs == [xs[0]] + xs[1..];
    }
  }

  lemma {:induction false} JoinConcat(sep: char, xs: seq<string>, ys: seq<string>)
    requires xs != [] && ys != []
    ensures Join([sep], xs + ys) == Join([sep], xs) + [sep] + Join([sep], ys)
  {
    assert (xs + ys)[1..] == xs[1..] + ys;
    if |xs| == 1 {
      assert xs[1..] + ys == ys;
    } else {
      JoinConcat(sep, xs[1..], ys);
    }
  }

  /** Piecewise prefix, said without splitting. */
  lemma SplitPrefix(sep: char, v: string, r: string)
    ensures Split(sep, v) <= Split(sep, r) <==> r == v || v + [sep] <= r
  {
    var vs, rs := Split(sep, v), Split(sep, r);
    if vs <= rs && vs != rs {
      var ys := rs[|vs|..];
      assert rs == vs + ys;
      JoinConcat(sep, vs, ys);
      JoinOfSplit(sep, r);
      JoinOfSplit(sep, v);
    } else if vs == rs {
      JoinOfSplit(sep, r);
      JoinOfSplit(sep, v);
    }
    if v + [sep] <= r {
      var t := r[|v| + 1..];
      assert r == v + [sep] + t;
      SplitConcat(sep, v, t);
    }
  }
}
