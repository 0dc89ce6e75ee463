/** Annotations the control plane owns on a generated object, told from foreign ones by a marker that lists them. */
module ManagedAnnotations {
  import opened Api
  import opened Lists
  import opened Separated
  import opened Text

  type Annotations = map<string, string>

  const MARKER := "kubelb.k8c.io/managed-annotations"

  /** The keys the marker lists. */
  function Owned(a: Annotations): set<string> {
    Elems(Split(',', Get(a, MARKER))) - {""}
  }

  function Managed(desired: Annotations): set<string> { desired.Keys - {MARKER} }

  function Mark(a: Annotations, keys: set<string>): Annotations {
    if keys == {} then a - {MARKER} else a[MARKER := Join(",", SortSet(keys))]
  }

  /** What one pass leaves: no longer wanted keys go, wanted ones are set, the marker is renewed. */
  function Reconciled(existing: Annotations, desired: Annotations): Annotations {
    Mark((existing - (Owned(existing) - desired.Keys)) + desired, Managed(desired))
  }

  /** Keys of an earlier pass that are no longer wanted. */
  method DropUnwanted(existing: Annotations, desired: Annotations) returns (merged: Annotations)
    ensures merged == existing - (Owned(existing) - desired.Keys)
  {
    merged := existing;
    var keys := Split(',', Get(existing, MARKER));
    for i := 0 to |keys|
      invariant merged == existing - (Elems(keys[..i]) - {""} - desired.Keys)
    {
      ElemsStep(keys, i);
      if keys[i] !in desired && keys[i] != "" {
        merged := merged - {keys[i]};
      }
    }
    assert keys[..|keys|] == keys;
  }

  method ReconcileAnnotations(existing: Annotations, desired: Annotations) returns (merged: Annotations)
    ensures merged == Reconciled(existing, desired)
  {
    merged := DropUnwanted(existing, desired);
    merged := merged + desired;
    var rest, managed := desired.Keys, {};
    while rest != {}
      invariant rest <= desired.Keys && managed == Managed(desired) - rest
      decreases rest
    {
      var key :| key in rest;
      if key != MARKER {
        managed := managed + {key};
      }
      rest := rest - {key};
    }
    assert managed == Managed(desired);
    if managed == {} {
      merged := merged - {MARKER};
    } else {
      merged := merged[MARKER := Join(",", SortSet(managed))];
    }
  }

  // ------------------------------------------------------------- the marker

  /** Keys as Kubernetes admits them: not empty, without commas. */
  ghost predicate Clean(keys: set<string>) { forall k <- keys :: k != "" && ',' !in k }

  lemma MarkerRoundTrip(keys: set<string>)
    requires Clean(keys) && keys != {}
    ensures Split(',', Join(",", SortSet(keys))) == SortSet(keys)
    ensures Elems(SortSet(keys)) == keys
  {
    forall k ensures k in SortSet(keys) <==> k in keys { SortSetMembers(keys, k); }
    SplitOfJoin(',', SortSet(keys));
  }

  lemma OwnedOfMarked(a: Annotations, keys: set<string>)
    requires Clean(keys)
    ensures Owned(Mark(a, keys)) == keys
  {
    if keys == {} {
      assert Split(',', "") == [""];
    } else {
      MarkerRoundTrip(keys);
    }
  }

  // ------------------------------------------------------------- histories

  function Run(existing: Annotations, history: seq<Annotations>): Annotations {
    if history == [] then existing
    else Reconciled(Run(existing, history[..|history| - 1]), history[|history| - 1])
  }

  function Ever(history: seq<Annotations>): set<string> {
    if history == [] then {} else Ever(history[..|history| - 1]) + Managed(history[|history| - 1])
  }

  /** Reference: the pairs last wanted, the initial pairs for keys never wanted, and the marker. */
  function Expected(existing: Annotations, history: seq<Annotations>): Annotations
    requires history != []
  {
    var last := history[|history| - 1];
    Mark((existing - Ever(history)) + last, Managed(last))
  }

  /** Except for the marker, which is renewed anyway. */
  predicate EqualButMarker(a: Annotations, b: Annotations) { a - {MARKER} == b - {MARKER} }

  lemma MarkForgets(a: Annotations, b: Annotations, keys: set<string>)
    requires EqualButMarker(a, b)
    ensures Mark(a, keys) == Mark(b, keys)
  {
    forall k | k != MARKER ensures (k in a <==> k in b) && (k in a ==> a[k] == b[k]) {
      assert k in a <==> k in a - {MARKER};
      assert k in b <==> k in b - {MARKER};
      assert k in a ==> (a - {MARKER})[k] == a[k] && (b - {MARKER})[k] == b[k];
    }
  }

  lemma OnePass(base: Annotations, last: Annotations, desired: Annotations)
    requires Clean(Managed(last)) && base.Keys !! Managed(last)
    ensures Reconciled(Mark(base + last, Managed(last)), desired)
            == Mark((base - Managed(desired)) + desired, Managed(desired))
  {
    OwnedOfMarked(base + last, Managed(last));
    var m := Mark(base + last, Managed(last));
    var a := (m - (Managed(last) - desired.Keys)) + desired;
    var b := (base - Managed(desired)) + desired;
    assert EqualButMarker(a, b);
    MarkForgets(a, b, Managed(desired));
  }

  lemma FirstPass(existing: Annotations, desired: Annotations)
    requires MARKER !in existing
    ensures Reconciled(existing, desired) == Mark((existing - Managed(desired)) + desired, Managed(desired))
  {
    assert Split(',', "") == [""];
    assert Owned(existing) == {};
    var a := (existing - (Owned(existing) - desired.Keys)) + desired;
    assert EqualButMarker(a, (existing - Managed(desired)) + desired);
    MarkForgets(a, (existing - Managed(desired)) + desired, Managed(desired));
  }

  /** After any history of wanted annotations the object is as expected. */
  lemma {:induction false} HistoryIsForgotten(existing: Annotations, history: seq<Annotations>)
    requires MARKER !in existing && history != [] && forall d <- history :: Clean(Managed(d))
    ensures Run(existing, history) == Expected(existing, history)
  {
    var n := |history| - 1;
    var before, desired := history[..n], history[n];
    if before == [] {
      FirstPass(existing, desired);
      assert existing - Ever(history) == existing - Managed(desired);
    } else {
      HistoryIsForgotten(existing, before);
      var base, last := existing - Ever(before), before[n - 1];
      OnePass(base, last, desired);
      assert base - Managed(desired) == existing - Ever(history);
    }
  }

  /** Wanting the same again changes nothing, whatever was there. */
  lemma ReconcileIsIdempotent(existing: Annotations, desired: Annotations)
    requires Clean(Managed(desired))
    ensures Reconciled(Reconciled(existing, desired), desired) == Reconciled(existing, desired)
  {
    var a := (existing - (Owned(existing) - desired.Keys)) + desired;
    var m := Mark(a, Managed(desired));
    OwnedOfMarked(a, Managed(desired));
    var b := (m - (Managed(desired) - desired.Keys)) + desired;
    assert EqualButMarker(b, a);
    MarkForgets(b, a, Managed(desired));
  }

  // ------------------------------------------------------------- third parties

  /** A pass of the control plane, or another party setting or removing one annotation. */
  datatype Event = Want(desired: Annotations) | Edit(key: string, value: Option<string>)

  function Step(a: Annotations, ev: Event): Annotations {
    match ev
    case Want(d) => Reconciled(a, d)
    case Edit(k, v) => if v.Some? then a[k := v.value] else a - {k}
  }

  function RunAll(a: Annotations, evs: seq<Event>): Annotations {
    if evs == [] then a else Step(RunAll(a, evs[..|evs| - 1]), evs[|evs| - 1])
  }

  /** The keys the last pass wanted. */
  function LastWanted(evs: seq<Event>): set<string> {
    if evs == [] then {}
    else match evs[|evs| - 1]
      case Want(d) => Managed(d)
      case Edit(_, _) => LastWanted(evs[..|evs| - 1])
  }

  function Read(a: Annotations, k: string): Option<string> { if k in a then Some(a[k]) else None }

  /**
   Reference, one key at a time and without a marker: who touched it last decides; a pass removes what only the pass
   before wanted.
   */
  function Value(a: Annotations, evs: seq<Event>, k: string): Option<string> {
    if evs == [] then Read(a, k) else
      var before := evs[..|evs| - 1];
      match evs[|evs| - 1]
      case Edit(key, v) => if key == k then v else Value(a, before, k)
      case Want(d) => if k in d then Some(d[k]) else if k in LastWanted(before) then None else Value(a, before, k)
  }

  /** Events as Kubernetes admits them; third parties leave the marker alone. */
  ghost predicate Proper(evs: seq<Event>) {
    forall ev <- evs :: match ev { case Want(d) => Clean(Managed(d)) case Edit(k, _) => k != MARKER }
  }

  lemma EditKeepsOwned(a: Annotations, k: string, v: Option<string>)
    requires k != MARKER
    ensures Owned(Step(a, Edit(k, v))) == Owned(a)
  {}

  lemma PassReads(a: Annotations, d: Annotations, k: string)
    requires k != MARKER
    ensures Read(Reconciled(a, d), k) == if k in d then Some(d[k]) else if k in Owned(a) then None else Read(a, k)
  {}

  /**
   Whatever passes and edits come in whatever order, ownership is remembered and every key reads as the reference
   says.
   */
  lemma {:induction false} EditsBetweenPasses(a: Annotations, evs: seq<Event>, k: string)
    requires MARKER !in a && Proper(evs) && k != MARKER
    ensures Owned(RunAll(a, evs)) == LastWanted(evs) && Read(RunAll(a, evs), k) == Value(a, evs, k)
  {
    if evs == [] {
      assert Split(',', "") == [""];
    } else {
      var n := |evs| - 1;
      var before, ev := evs[..n], evs[n];
      assert ev in evs && forall e <- before :: e in evs;
      EditsBetweenPasses(a, before, k);
      match ev
      case Edit(key, v) => EditKeepsOwned(RunAll(a, before), key, v);
      case Want(d) =>
        var m := RunAll(a, before);
        OwnedOfMarked((m - (Owned(m) - d.Keys)) + d, Managed(d));
        PassReads(m, d, k);
    }
  }
}
