/**
 The text primitives the control plane leans on: Go's string order, sorting by a
 string key, decimal formatting, and the search for a separator.
 */
module Text {
  import opened Lists

  /** Go's `<=` on strings. UTF-8 byte order and code point order coincide. */
  predicate Le(a: string, b: string) {
    a == "" || (b != "" && (a[0] < b[0] || (a[0] == b[0] && Le(a[1..], b[1..]))))
  }

  lemma {:induction false} LeTotal(a: string, b: string)
    ensures Le(a, b) || Le(b, a)
  {
    if a != "" && b != "" && a[0] == b[0] { LeTotal(a[1..], b[1..]); }
  }

  lemma {:induction false} LeAntisymmetric(a: string, b: string)
    requires Le(a, b) && Le(b, a)
    ensures a == b
  {
    if a != "" && b != "" {
      LeAntisymmetric(a[1..], b[1..]);
      assert a == [a[0]] + a[1..] && b == [b[0]] + b[1..];
    }
  }

  lemma {:induction false} LeTransitive(a: string, b: string, c: string)
    requires Le(a, b) && Le(b, c)
    ensures Le(a, c)
  {
    if a != "" && a[0] == b[0] == c[0] { LeTransitive(a[1..], b[1..], c[1..]); }
  }

  predicate IsLeast(x: string, s: set<string>) {
    x in s && forall y <- s :: Le(x, y)
  }

  lemma {:induction false} LeastExists(s: set<string>)
    requires s != {}
    ensures exists x :: IsLeast(x, s)
  {
    var a :| a in s;
    if s == {a} {
      LeTotal(a, a);
      assert IsLeast(a, s);
    } else {
      LeastExists(s - {a});
      var x :| IsLeast(x, s - {a});
      LeTotal(a, x);
      LeTotal(a, a);
      var m := if Le(a, x) then a else x;
      forall y <- s ensures Le(m, y) {
        if y != a && m == a { LeTransitive(a, x, y); }
      }
      assert IsLeast(m, s);
    }
  }

  lemma LeastUnique(s: set<string>)
    ensures forall x, y | IsLeast(x, s) && IsLeast(y, s) :: x == y
  {
    forall x, y | IsLeast(x, s) && IsLeast(y, s) ensures x == y {
      LeAntisymmetric(x, y);
    }
  }

  function Least(s: set<string>): (x: string)
    requires s != {}
    ensures IsLeast(x, s)
  {
    LeastExists(s);
    LeastUnique(s);
    var x :| x in s && IsLeast(x, s);
    x
  }

  /** The elements of `s`, as `sort.Strings` leaves the collected keys of a Go map. */
  function SortSet(s: set<string>): seq<string> {
    if s == {} then [] else
      var x := Least(s);
      [x] + SortSet(s - {x})
  }

  lemma {:induction false} SortSetMembers(s: set<string>, x: string)
    ensures x in SortSet(s) <==> x in s
  {
    if s != {} { SortSetMembers(s - {Least(s)}, x); }
  }

  lemma {:induction false} SortSetSorted(s: set<string>)
    ensures forall i, j | 0 <= i < j < |SortSet(s)| ::
              SortSet(s)[i] != SortSet(s)[j] && Le(SortSet(s)[i], SortSet(s)[j])
  {
    if s != {} {
      var x := Least(s);
      SortSetSorted(s - {x});
      forall y <- SortSet(s - {x}) ensures y != x && Le(x, y) { SortSetMembers(s - {x}, y); }
    }
  }

  ghost predicate SortedBy<T(!new)>(key: T -> string, xs: seq<T>) {
    forall i, j | 0 <= i < j < |xs| :: Le(key(xs[i]), key(xs[j]))
  }

  /** What Go's `sort.Slice` promises; it is not stable, so nothing more. */
  ghost predicate SortedPermutation<T(!new)>(key: T -> string, xs: seq<T>, ys: seq<T>) {
    multiset(xs) == multiset(ys) && SortedBy(key, ys)
  }

  function Insert<T>(key: T -> string, x: T, ys: seq<T>): (r: seq<T>)
    ensures multiset(r) == multiset(ys) + multiset{x}
  {
    if ys == [] || Le(key(x), key(ys[0])) then [x] + ys
    else
      HeadTail(ys);
      [ys[0]] + Insert(key, x, ys[1..])
  }

  lemma {:induction false} InsertKeepsSorted<T(!new)>(key: T -> string, x: T, ys: seq<T>)
    requires SortedBy(key, ys)
    ensures SortedBy(key, Insert(key, x, ys))
  {
    if ys != [] {
      if Le(key(x), key(ys[0])) {
        forall y <- ys ensures Le(key(x), key(y)) {
          if y != ys[0] { LeTransitive(key(x), key(ys[0]), key(y)); }
        }
      } else {
        LeTotal(key(x), key(ys[0]));
        InsertKeepsSorted(key, x, ys[1..]);
        var rest := Insert(key, x, ys[1..]);
        forall y <- rest ensures Le(key(ys[0]), key(y)) {
          assert y in multiset(rest);
        }
      }
    }
  }

  function SortBy<T(!new)>(key: T -> string, xs: seq<T>): (ys: seq<T>)
    ensures SortedPermutation(key, xs, ys)
  {
    if xs == [] then [] else
      HeadTail(xs);
      InsertKeepsSorted(key, xs[0], SortBy(key, xs[1..]));
      Insert(key, xs[0], SortBy(key, xs[1..]))
  }

  lemma {:induction false} SortedPermutationIsUnique<T(!new)>(key: T -> string, xs: seq<T>, ys: seq<T>)
    requires multiset(xs) == multiset(ys)
    requires SortedBy(key, xs) && SortedBy(key, ys)
    requires DistinctBy(key, xs)
    ensures xs == ys
  {
    assert |xs| == |multiset(xs)| == |multiset(ys)| == |ys|;
    if xs != [] {
      SameHead(key, xs, ys);
      HeadTail(xs);
      HeadTail(ys);
      SortedPermutationIsUnique(key, xs[1..], ys[1..]);
    }
  }

  lemma HeadTail<T>(xs: seq<T>)
    requires xs != []
    ensures xs == [xs[0]] + xs[1..]
    ensures multiset(xs[1..]) == multiset(xs) - multiset{xs[0]}
  {
    assert xs == [xs[0]] + xs[1..];
  }

  lemma SameHead<T(!new)>(key: T -> string, xs: seq<T>, ys: seq<T>)
    requires xs != [] && ys != [] && multiset(xs) == multiset(ys)
    requires SortedBy(key, xs) && SortedBy(key, ys)
    requires DistinctBy(key, xs)
    ensures xs[0] == ys[0]
  {
    assert xs[0] in multiset(ys) && ys[0] in multiset(xs);
    var i :| 0 <= i < |ys| && ys[i] == xs[0];
    var j :| 0 <= j < |xs| && xs[j] == ys[0];
    if i != 0 && j != 0 {
      LeAntisymmetric(key(xs[0]), key(ys[0]));
      assert false;
    }
  }

  // ------------------------------------------------------------- decimal

  predicate IsDigit(c: char) { '0' <= c <= '9' }

  ghost predicate AllDigits(s: string) { forall c <- s :: IsDigit(c) }

  function Digit(d: nat): (c: char)
    requires d < 10
    ensures IsDigit(c) && c as int == '0' as int + d
  {
    '0' + d as char
  }

  function Decimal(n: nat): (s: string)
    ensures s != "" && AllDigits(s)
  {
    if n < 10 then [Digit(n)] else Decimal(n / 10) + [Digit(n % 10)]
  }

  /** `%d` and `%v` on a Go integer. */
  function Itoa(n: int): (s: string)
    ensures s != ""
  {
    if n < 0 then "-" + Decimal(-n) else Decimal(n)
  }

  lemma {:induction false} DecimalInjective(m: nat, n: nat)
    requires Decimal(m) == Decimal(n)
    ensures m == n
  {
    var s := Decimal(m);
    assert s[|s| - 1] == Digit(m % 10) == Digit(n % 10);
    assert |s| >= 2 <==> m >= 10;
    assert |s| >= 2 <==> n >= 10;
    if m >= 10 {
      assert Decimal(m / 10) == s[..|s| - 1] == Decimal(n / 10);
      DecimalInjective(m / 10, n / 10);
    }
  }

  lemma ItoaInjective(m: int, n: int)
    requires Itoa(m) == Itoa(n)
    ensures m == n
  {
    SignOf(m);
    SignOf(n);
    if m < 0 {
      assert Decimal(-m) == Itoa(m)[1..] == Itoa(n)[1..] == Decimal(-n);
      DecimalInjective(-m, -n);
    } else {
      DecimalInjective(m, n);
    }
  }

  lemma SignOf(n: int)
    ensures n < 0 <==> Itoa(n)[0] == '-'
  {
    if n >= 0 { assert Itoa(n)[0] in Decimal(n); }
  }

  // ------------------------------------------------------------- separators

  /** A separator that occurs in neither prefix is found at the same place in both. */
  lemma FirstSeparator(sep: char, a: string, b: string, x: string, y: string)
    requires sep !in a && sep !in b
    requires a + [sep] + x == b + [sep] + y
    ensures a == b && x == y
  {
    var s := a + [sep] + x;
    assert s[|a|] == sep && s[|b|] == sep;
    assert forall i | 0 <= i < |a| :: s[i] == a[i];
    assert forall i | 0 <= i < |b| :: s[i] == b[i];
    assert a == s[..|a|] && b == s[..|b|];
    assert x == s[|a| + 1..] && y == s[|b| + 1..];
  }

  /** A separator that occurs in neither suffix is found at the same place in both. */
  lemma LastSeparator(sep: char, a: string, b: string, x: string, y: string)
    requires sep !in x && sep !in y
    requires a + [sep] + x == b + [sep] + y
    ensures a == b && x == y
  {
    var s := a + [sep] + x;
    assert |s| == |a| + 1 + |x| == |b| + 1 + |y|;
    assert s[|a|] == sep && s[|b|] == sep;
    assert a == s[..|a|] && b == s[..|b|];
    assert x == s[|a| + 1..] && y == s[|b| + 1..];
  }
}
