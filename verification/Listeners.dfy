/** Listeners of the Gateway that converted Ingresses share: building, merging and comparing. */
module Listeners {
  import opened Api
  import opened Lists

  datatype CertificateRef = CertificateRef(name: string, namespace: Option<string>)

  datatype Tls = Tls(mode: Option<string>, certificateRefs: seq<CertificateRef>)

  /** `allowedRoutes` nests three optional fields: the block, its namespaces, and their `from`. */
  datatype Config = Config(port: int, protocol: string, hostname: Option<string>,
                           allowedRoutes: Option<Option<Option<string>>>, tls: Option<Tls>)

  /** `other` stands for the fields no comparison looks at, which the API server may default. */
  datatype Listener = Listener(name: string, config: Config, other: string)

  datatype TlsListener = TlsListener(hostname: string, secretName: string)

  function NameOf(): Listener -> string { (l: Listener) => l.name }

  function Names(ls: seq<Listener>): set<string> { set l | l in ls :: l.name }

  ghost predicate DistinctNames(ls: seq<Listener>) { DistinctBy(NameOf(), ls) }

  /** What a Go map filled from the list holds under `name`: the last such listener. */
  function LastNamed(ls: seq<Listener>, name: string): (r: Listener)
    requires name in Names(ls)
    ensures r in ls && r.name == name
  {
    var last := |ls| - 1;
    if ls[last].name == name then ls[last]
    else
      assert ls == ls[..last] + [ls[last]];
      LastNamed(ls[..last], name)
  }

  function ByName(ls: seq<Listener>): map<string, Listener> {
    map n | n in Names(ls) :: LastNamed(ls, n)
  }

  lemma ByNameStep(ls: seq<Listener>, i: nat)
    requires i < |ls|
    ensures ByName(ls[..i + 1]) == ByName(ls[..i])[ls[i].name := ls[i]]
    ensures Names(ls[..i + 1]) == Names(ls[..i]) + {ls[i].name}
  {
    var m := ls[..i + 1];
    assert m[..i] == ls[..i] && m == ls[..i] + [ls[i]];
  }

  lemma LastNamedOfDistinct(ls: seq<Listener>, l: Listener)
    requires DistinctNames(ls) && l in ls
    ensures LastNamed(ls, l.name) == l
  {
    var r := LastNamed(ls, l.name);
    var i :| 0 <= i < |ls| && ls[i] == l;
    var j :| 0 <= j < |ls| && ls[j] == r;
    assert NameOf()(ls[i]) == NameOf()(ls[j]);
  }

  // ------------------------------------------------------------- merging

  /** An existing listener makes way for the desired one of its name, at its first occurrence. */
  function Slot(existing: seq<Listener>, desired: seq<Listener>, i: nat): Listener
    requires i < |existing|
  {
    var name := existing[i].name;
    if name in Names(desired) && name !in Names(existing[..i]) then LastNamed(desired, name) else existing[i]
  }

  function Slots(existing: seq<Listener>, desired: seq<Listener>): seq<Listener> {
    seq(|existing|, i requires 0 <= i < |existing| => Slot(existing, desired, i))
  }

  /** A desired listener is new if no existing one has its name. */
  function NewTo(names: set<string>): Listener -> seq<Listener> {
    (l: Listener) => if l.name in names then [] else [l]
  }

  function Merged(existing: seq<Listener>, desired: seq<Listener>): seq<Listener> {
    Slots(existing, desired) + FlatMap(NewTo(Names(existing)), desired)
  }

  method IndexByName(ls: seq<Listener>) returns (m: map<string, Listener>)
    ensures m == ByName(ls)
  {
    m := map[];
    for i := 0 to |ls|
      invariant m == ByName(ls[..i])
    {
      ByNameStep(ls, i);
      m := m[ls[i].name := ls[i]];
    }
    assert ls[..|ls|] == ls;
  }

  ghost predicate Replaced(existing: seq<Listener>, desired: seq<Listener>, i: nat, result: seq<Listener>,
                           left: map<string, Listener>) {
    && i == |result| <= |existing| && left == ByName(desired) - Names(existing[..i])
    && forall j | 0 <= j < i :: result[j] == Slot(existing, desired, j)
  }

  lemma TickOff(m: map<string, Listener>, names: set<string>, name: string)
    ensures (m - names) - {name} == m - (names + {name})
  {}

  lemma ReplacedStep(existing: seq<Listener>, desired: seq<Listener>, i: nat, result: seq<Listener>,
                     left: map<string, Listener>)
    requires Replaced(existing, desired, i, result, left) && i < |existing|
    ensures var name := existing[i].name;
            Replaced(existing, desired, i + 1, result + [if name in left then left[name] else existing[i]],
              left - {name})
  {
    ByNameStep(existing, i);
    TickOff(ByName(desired), Names(existing[..i]), existing[i].name);
  }

  /** The first loop of the merge: existing listeners are replaced in place and ticked off. */
  method ReplaceExisting(existing: seq<Listener>, desired: seq<Listener>, index: map<string, Listener>)
    returns (result: seq<Listener>, left: map<string, Listener>)
    requires index == ByName(desired)
    ensures result == Slots(existing, desired) && left == index - Names(existing)
  {
    result, left := [], index;
    for i := 0 to |existing|
      invariant Replaced(existing, desired, i, result, left)
    {
      var l := existing[i];
      ReplacedStep(existing, desired, i, result, left);
      if l.name in left {
        result := result + [left[l.name]];
        left := left - {l.name};
      } else {
        result := result + [l];
        assert left - {l.name} == left;
      }
    }
    assert existing[..|existing|] == existing;
  }

  method MergeListeners(existing: seq<Listener>, desired: seq<Listener>) returns (result: seq<Listener>)
    ensures result == Merged(existing, desired)
  {
    var index := IndexByName(desired);
    var slots, left := ReplaceExisting(existing, desired, index);
    var more := [];
    for i := 0 to |desired|
      invariant more == FlatMap(NewTo(Names(existing)), desired[..i])
    {
      FlatMapStep(NewTo(Names(existing)), desired, i);
      if desired[i].name in left {
        more := more + [desired[i]];
      }
    }
    assert desired[..|desired|] == desired;
    result := slots + more;
  }

  lemma NewMember(names: set<string>, ls: seq<Listener>, l: Listener)
    ensures l in FlatMap(NewTo(names), ls) <==> l in ls && l.name !in names
  {
    FlatMapMember(NewTo(names), ls, l);
    if l in ls && l.name !in names { assert l in NewTo(names)(l); }
  }

  /** Merging keeps the order of the existing names and every listener it was not asked for. */
  lemma MergeKeepsExisting(existing: seq<Listener>, desired: seq<Listener>, i: nat)
    requires i < |existing|
    ensures i < |Merged(existing, desired)| && Merged(existing, desired)[i].name == existing[i].name
    ensures existing[i].name !in Names(desired) ==> Merged(existing, desired)[i] == existing[i]
  {}

  lemma {:induction false} FirstOfName(ls: seq<Listener>, name: string) returns (i: nat)
    requires name in Names(ls)
    ensures i < |ls| && ls[i].name == name && name !in Names(ls[..i])
  {
    var last := |ls| - 1;
    if name in Names(ls[..last]) {
      i := FirstOfName(ls[..last], name);
      assert ls[..last][..i] == ls[..i];
    } else {
      i := last;
      assert ls == ls[..last] + [ls[last]];
    }
  }

  /** Every desired listener is in the result. */
  lemma MergeHoldsDesired(existing: seq<Listener>, desired: seq<Listener>, l: Listener)
    requires DistinctNames(desired) && l in desired
    ensures l in Merged(existing, desired)
  {
    if l.name in Names(existing) {
      var i := FirstOfName(existing, l.name);
      LastNamedOfDistinct(desired, l);
      assert Merged(existing, desired)[i] == l;
    } else {
      NewMember(Names(existing), desired, l);
    }
  }

  lemma MergeAddsNothingElse(existing: seq<Listener>, desired: seq<Listener>, l: Listener)
    requires l in Merged(existing, desired)
    ensures l in existing || l in desired
  {
    NewMember(Names(existing), desired, l);
    if l in Slots(existing, desired) {
      var i :| 0 <= i < |existing| && l == Slot(existing, desired, i);
    }
  }

  lemma MergeCoversDesired(existing: seq<Listener>, desired: seq<Listener>)
    ensures Names(Merged(existing, desired)) == Names(existing) + Names(desired)
  {
    var m := Merged(existing, desired);
    forall l <- m ensures l.name in Names(existing) + Names(desired) { MergeAddsNothingElse(existing, desired, l); }
    forall l <- existing ensures l.name in Names(m) {
      var i :| 0 <= i < |existing| && existing[i] == l;
      assert m[i].name == l.name && m[i] in m;
    }
    forall l <- desired | l.name !in Names(existing) ensures l.name in Names(m) {
      NewMember(Names(existing), desired, l);
    }
  }

  lemma NothingNew(names: set<string>, ls: seq<Listener>)
    requires Names(ls) <= names
    ensures FlatMap(NewTo(names), ls) == []
  {
    var new_ := FlatMap(NewTo(names), ls);
    if new_ != [] { NewMember(names, ls, new_[0]); }
  }

  lemma MergedAt(existing: seq<Listener>, desired: seq<Listener>, i: nat)
    requires DistinctNames(desired) && i < |Merged(existing, desired)|
    ensures Slot(Merged(existing, desired), desired, i) == Merged(existing, desired)[i]
  {
    var m := Merged(existing, desired);
    var name := m[i].name;
    if i < |existing| {
      forall j | 0 <= j < i ensures m[j].name == existing[j].name { MergeKeepsExisting(existing, desired, j); }
      assert Names(m[..i]) == Names(existing[..i]) by { SameNames(m[..i], existing[..i]); }
    } else {
      assert m[i] == FlatMap(NewTo(Names(existing)), desired)[i - |existing|];
      NewMember(Names(existing), desired, m[i]);
      LastNamedOfDistinct(desired, m[i]);
    }
  }

  lemma SameNames(a: seq<Listener>, b: seq<Listener>)
    requires |a| == |b| && forall j | 0 <= j < |a| :: a[j].name == b[j].name
    ensures Names(a) == Names(b)
  {
    forall l <- a ensures l.name in Names(b) {
      var j :| 0 <= j < |a| && a[j] == l;
      assert b[j] in b;
    }
    forall l <- b ensures l.name in Names(a) {
      var j :| 0 <= j < |b| && b[j] == l;
      assert a[j] in a;
    }
  }

  /** Merging the same listeners again changes nothing. */
  lemma MergeIsIdempotent(existing: seq<Listener>, desired: seq<Listener>)
    requires DistinctNames(desired)
    ensures Merged(Merged(existing, desired), desired) == Merged(existing, desired)
  {
    var m := Merged(existing, desired);
    MergeCoversDesired(existing, desired);
    NothingNew(Names(m), desired);
    forall i | 0 <= i < |m| ensures Slot(m, desired, i) == m[i] { MergedAt(existing, desired, i); }
    assert Slots(m, desired) == m;
  }

  /** The API server wants distinct names; merging keeps them so exactly when the new ones are. */
  lemma MergedNamesDistinctIff(existing: seq<Listener>, desired: seq<Listener>)
    requires DistinctNames(existing)
    ensures DistinctNames(Merged(existing, desired)) <==> DistinctNames(FlatMap(NewTo(Names(existing)), desired))
  {
    var m, more, n := Merged(existing, desired), FlatMap(NewTo(Names(existing)), desired), |existing|;
    assert forall k | 0 <= k < |more| :: more[k] == m[n + k];
    if DistinctNames(m) {
      forall i, j | 0 <= i < j < |more| ensures NameOf()(more[i]) != NameOf()(more[j]) {
        assert NameOf()(m[n + i]) != NameOf()(m[n + j]);
      }
    }
    if DistinctNames(more) {
      forall i, j | 0 <= i < j < |m| ensures NameOf()(m[i]) != NameOf()(m[j]) { MergedApart(existing, desired, i, j); }
    }
  }

  lemma MergedApart(existing: seq<Listener>, desired: seq<Listener>, i: nat, j: nat)
    requires DistinctNames(existing) && DistinctNames(FlatMap(NewTo(Names(existing)), desired))
    requires i < j < |Merged(existing, desired)|
    ensures Merged(existing, desired)[i].name != Merged(existing, desired)[j].name
  {
    var m, more, n := Merged(existing, desired), FlatMap(NewTo(Names(existing)), desired), |existing|;
    if i < n { MergeKeepsExisting(existing, desired, i); }
    if j < n {
      MergeKeepsExisting(existing, desired, j);
      assert NameOf()(existing[i]) != NameOf()(existing[j]);
    } else {
      NewMember(Names(existing), desired, more[j - n]);
      assert i < n ==> existing[i].name in Names(existing);
      assert i >= n ==> NameOf()(more[i - n]) != NameOf()(more[j - n]);
    }
  }

  lemma NewStayDistinct(names: set<string>, ls: seq<Listener>)
    requires DistinctNames(ls)
    ensures DistinctNames(FlatMap(NewTo(names), ls))
  {
    FlatMapDistinct(NewTo(names), NameOf(), ls);
  }
}
