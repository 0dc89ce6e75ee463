/**
 What the mirror protocol can always do: from every reachable state, with a current cache and no further
 interference, a reconciliation runs to its end and leaves what it is for.
 */
module MirrorProgress {
  import opened Api
  import opened Lists
  import opened MirrorProtocol
  import opened MirrorSafety
  import opened MirrorScope
  import opened MirrorTheorems

  datatype History = History(sts: seq<State>, evs: seq<Event>)

  ghost predicate IsRun(cfg: Config, h: History) { Run(cfg, h.sts, h.evs) }

  function Last(h: History): State
    requires h.sts != []
  {
    h.sts[|h.sts| - 1]
  }

  /** `h'` goes on from `h` with calls of the reconciliation of `k` only, none of which fails. */
  ghost predicate Continues(cfg: Config, k: Key, h: History, h': History) {
    && IsRun(cfg, h) && IsRun(cfg, h') && h.sts <= h'.sts && h.evs <= h'.evs
    && forall i | |h.evs| <= i < |h'.evs| :: OfController(h'.evs[i], k) && h'.evs[i] != Abort(k)
  }

  function Push(h: History, ev: Event, st: State): History { History(h.sts + [st], h.evs + [ev]) }

  lemma PushContinues(cfg: Config, k: Key, h: History, ev: Event, st: State)
    requires IsRun(cfg, h) && Next(cfg, Last(h), ev, st) && OfController(ev, k) && ev != Abort(k)
    ensures Continues(cfg, k, h, Push(h, ev, st)) && Last(Push(h, ev, st)) == st
  {
    var g := Push(h, ev, st);
    forall i | 0 <= i < |g.evs| ensures Stepper(cfg)(g.sts[i], g.evs[i], g.sts[i + 1]) {
      if i < |h.evs| { assert Stepper(cfg)(h.sts[i], h.evs[i], h.sts[i + 1]); }
    }
  }

  lemma ContinuesFurther(cfg: Config, k: Key, h: History, g: History, h': History)
    requires Continues(cfg, k, h, g) && Continues(cfg, k, g, h')
    ensures Continues(cfg, k, h, h')
  {
    forall i | |h.evs| <= i < |h'.evs| ensures OfController(h'.evs[i], k) && h'.evs[i] != Abort(k) {
      if i < |g.evs| { assert h'.evs[i] == g.evs[i]; }
    }
  }

  /** Where the reconciliation of `k` stands. */
  ghost predicate At(h: History, k: Key, c: Cell) {
    h.sts != [] && k in Last(h).cells && Last(h).cells[k] == c
  }

  lemma CanReap(cfg: Config, k: Key, h: History, c: Cell) returns (h': History)
    requires IsRun(cfg, h) && At(h, k, c) && c.worker.Reap?
    ensures Continues(cfg, k, h, h') && At(h', k, c.(worker := c.worker.(todo := {})))
    decreases |c.worker.todo|
  {
    h' := h;
    if c.worker.todo != {} {
      var u :| u in c.worker.todo;
      var d := c.(worker := c.worker.(todo := c.worker.todo - {u}));
      var st := SetCell(Last(h), k, d).(mirrors := Condemn(Last(h).mirrors, u));
      assert MirrorStep(Last(h), ReapOne(k, u), st);
      PushContinues(cfg, k, h, ReapOne(k, u), st);
      var g := Push(h, ReapOne(k, u), st);
      h' := CanReap(cfg, k, g, d);
      ContinuesFurther(cfg, k, h, g, h');
    } else {
      assert c.(worker := c.worker.(todo := {})) == c;
    }
  }

  /** A sweep lists every mirror of its origin and reaps all but the one it spares. */
  lemma CanSweep(cfg: Config, k: Key, h: History, c: Cell) returns (h': History)
    requires IsRun(cfg, h) && At(h, k, c) && c.worker.Sweep? && c.worker.seen < |c.hist|
    ensures Continues(cfg, k, h, h') && At(h', k, c.(worker := Reap(c.worker.seen, {}, true)))
  {
    RunKeepsInv(cfg, h.sts, h.evs, |h.sts| - 1);
    var st := Last(h);
    var listed := set u <- st.mirrors | st.mirrors[u].origin == k;
    var d := c.(worker := Reap(c.worker.seen, listed - Spared(c, c.worker.seen), true));
    var ev := List(k, listed, true);
    assert MirrorStep(st, ev, SetCell(st, k, d));
    PushContinues(cfg, k, h, ev, SetCell(st, k, d));
    var g := Push(h, ev, SetCell(st, k, d));
    h' := CanReap(cfg, k, g, d);
    ContinuesFurther(cfg, k, h, g, h');
  }

  lemma CanFinishReap(cfg: Config, k: Key, h: History, c: Cell) returns (h': History)
    requires IsRun(cfg, h) && At(h, k, c) && c.worker.Reap? && c.worker.todo == {} && c.worker.upToDate
    requires c.worker.seen < |c.hist|
    ensures Continues(cfg, k, h, h')
    ensures At(h', k, c.(worker := if c.hist[c.worker.seen].None? then Done(c.worker.seen, true)
                                   else Mirroring(c.worker.seen, true)))
    ensures |h'.evs| == |h.evs| + 1
  {
    var d := c.(worker := if c.hist[c.worker.seen].None? then Done(c.worker.seen, true)
                          else Mirroring(c.worker.seen, true));
    assert MirrorStep(Last(h), ReapDone(k), SetCell(Last(h), k, d));
    PushContinues(cfg, k, h, ReapDone(k), SetCell(Last(h), k, d));
    h' := Push(h, ReapDone(k), SetCell(Last(h), k, d));
  }

  lemma CanMirrorNow(cfg: Config, k: Key, h: History, c: Cell) returns (h': History)
    requires IsRun(cfg, h) && At(h, k, c) && c.worker.Mirroring? && c.worker.upToDate
    requires c.worker.seen < |c.hist| && c.hist[c.worker.seen].Some?
    ensures Continues(cfg, k, h, h') && At(h', k, c.(worker := Done(c.worker.seen, true)))
    ensures |h'.evs| == |h.evs| + 1
  {
    var st, u := Last(h), c.hist[c.worker.seen].value.uid;
    var d := c.(worker := Done(c.worker.seen, true));
    var ev, st' := FindMirror(k, true), SetCell(st, k, d);
    if u !in st.mirrors {
      ev := CreateMirror(k);
      st' := SetCell(st, k, d).(mirrors := st.mirrors[u := Mirror(k, false)], born := st.born[u := k]);
    }
    assert MirrorStep(st, ev, st');
    PushContinues(cfg, k, h, ev, st');
    h' := Push(h, ev, st');
  }

  /** The last step of such a run made the reconciliation succeed, so the mirrors are exact. */
  lemma EndIsExact(cfg: Config, k: Key, h: History, c: Cell, h': History, d: Cell)
    requires Continues(cfg, k, h, h') && |h'.evs| == |h.evs| + 1 && At(h, k, c) && At(h', k, d)
    requires !c.worker.Done? && d.worker.Done? && d.worker.upToDate
    ensures Exact(Last(h'), k, d.worker.seen)
  {
    var n := |h.evs|;
    assert h'.sts[n] == h.sts[n] == Last(h) && h'.sts[n + 1] == Last(h');
    ReconcileIsExact(cfg, h'.sts, h'.evs, n, k);
  }

  /** From the start of a sweep to the end: the mirrors of the origin are those of the version seen. */
  lemma CanFinish(cfg: Config, k: Key, h: History, c: Cell) returns (h': History)
    requires IsRun(cfg, h) && At(h, k, c) && c.worker.Sweep? && c.worker.seen < |c.hist|
    ensures Continues(cfg, k, h, h') && At(h', k, c.(worker := Done(c.worker.seen, true)))
    ensures Exact(Last(h'), k, c.worker.seen)
  {
    var seen := c.worker.seen;
    var g := CanSweep(cfg, k, h, c);
    var d := c.(worker := Reap(seen, {}, true));
    var f := CanFinishReap(cfg, k, g, d);
    ContinuesFurther(cfg, k, h, g, f);
    if c.hist[seen].None? {
      h' := f;
      EndIsExact(cfg, k, g, d, f, c.(worker := Done(seen, true)));
    } else {
      var e := c.(worker := Mirroring(seen, true));
      h' := CanMirrorNow(cfg, k, f, e);
      ContinuesFurther(cfg, k, h, f, h');
      EndIsExact(cfg, k, f, e, h', c.(worker := Done(seen, true)));
    }
  }

  /** Nothing is going on for `k`, and the cache shows its current version. */
  ghost predicate Calm(c: Cell) {
    c.hist != [] && c.cache == |c.hist| - 1 && (c.worker.Idle? || c.worker.Done?)
  }

  lemma CanStart(cfg: Config, k: Key, h: History, c: Cell) returns (h': History)
    requires IsRun(cfg, h) && At(h, k, c) && Calm(c)
    ensures Continues(cfg, k, h, h')
    ensures var answer := if Now(c).Some? then Found(Now(c).value) else Gone;
            At(h', k, c.(worker := MirrorProtocol.Route(cfg, answer, c.cache)))
  {
    var answer := if Now(c).Some? then Found(Now(c).value) else Gone;
    var st := SetCell(Last(h), k, c.(worker := MirrorProtocol.Route(cfg, answer, c.cache)));
    assert FinalizerStep(cfg, Last(h), Start(k, answer), st);
    PushContinues(cfg, k, h, Start(k, answer), st);
    h' := Push(h, Start(k, answer), st);
  }

  lemma CanAddFinalizer(cfg: Config, k: Key, h: History, c: Cell) returns (h': History, d: Cell)
    requires IsRun(cfg, h) && At(h, k, c) && c.worker.Ensure? && c.worker.seen == |c.hist| - 1 && Now(c).Some?
    ensures Continues(cfg, k, h, h') && At(h', k, d)
    ensures d == Append(c, Some(Now(c).value.(cleanup := true, legacy := false)), Sweep(|c.hist|))
  {
    d := Append(c, Some(Now(c).value.(cleanup := true, legacy := false)), Sweep(|c.hist|));
    var st := SetCell(Last(h), k, d);
    assert FinalizerStep(cfg, Last(h), AddFinalizer(k), st);
    PushContinues(cfg, k, h, AddFinalizer(k), st);
    h' := Push(h, AddFinalizer(k), st);
  }

  /**
   A wanted Service can always be mirrored: whatever happened before, one undisturbed reconciliation leaves
   it under the cleanup finalizer with its mirror, and its origin with no other.
   */
  lemma WantedCanBeMirrored(cfg: Config, k: Key, h: History, c: Cell) returns (h': History, s: Svc)
    requires IsRun(cfg, h) && At(h, k, c) && Calm(c) && Now(c).Some? && Wanted(cfg, Now(c).value)
    ensures Continues(cfg, k, h, h') && k in Last(h').cells && Last(h').cells[k].hist != []
    ensures Now(Last(h').cells[k]) == Some(s) && s.uid == Now(c).value.uid && s.cleanup
    ensures s.uid in Last(h').mirrors && Standing(Last(h'), k) <= {s.uid}
  {
    var g := CanStart(cfg, k, h, c);
    var d := Last(g).cells[k];
    if d.worker.Ensure? {
      var f;
      f, d := CanAddFinalizer(cfg, k, g, d);
      ContinuesFurther(cfg, k, h, g, f);
      g := f;
    }
    h' := CanFinish(cfg, k, g, d);
    ContinuesFurther(cfg, k, h, g, h');
    s := Now(d).value;
  }

  /** The mirrors of a Service that is gone can always be reaped. */
  lemma GoneCanBeSwept(cfg: Config, k: Key, h: History, c: Cell) returns (h': History)
    requires IsRun(cfg, h) && At(h, k, c) && Calm(c) && Now(c).None?
    ensures Continues(cfg, k, h, h') && Standing(Last(h'), k) == {}
  {
    var g := CanStart(cfg, k, h, c);
    h' := CanFinish(cfg, k, g, Last(g).cells[k]);
    ContinuesFurther(cfg, k, h, g, h');
  }

  lemma CanDeleteMirror(cfg: Config, k: Key, h: History, c: Cell) returns (h': History)
    requires IsRun(cfg, h) && At(h, k, c) && c.worker.Cleanup? && c.worker.seen < |c.hist|
    requires c.hist[c.worker.seen].Some?
    ensures Continues(cfg, k, h, h') && At(h', k, c.(worker := Unfinalize(c.worker.seen)))
    ensures c.hist[c.worker.seen].value.uid !in Standing(Last(h'), k)
  {
    var u := c.hist[c.worker.seen].value.uid;
    var st := SetCell(Last(h), k, c.(worker := Unfinalize(c.worker.seen))).(mirrors := Condemn(Last(h).mirrors, u));
    assert FinalizerStep(cfg, Last(h), DeleteMirror(k), st);
    PushContinues(cfg, k, h, DeleteMirror(k), st);
    h' := Push(h, DeleteMirror(k), st);
  }

  /** A Service that is no longer wanted can always be cleaned up after: no mirror stands, no finalizer holds it. */
  lemma UnwantedCanBeCleanedUp(cfg: Config, k: Key, h: History, c: Cell) returns (h': History)
    requires IsRun(cfg, h) && At(h, k, c) && Calm(c) && Now(c).Some? && !Wanted(cfg, Now(c).value)
    requires HasCleanupFinalizer(Now(c).value)
    ensures Continues(cfg, k, h, h') && k in Last(h').cells && Last(h').cells[k].hist != []
    ensures Now(c).value.uid !in Standing(Last(h'), k)
    ensures var v := Now(Last(h').cells[k]);
            if Now(c).value.deleting && !Now(c).value.foreign then v.None?
            else v == Some(Now(c).value.(cleanup := false, legacy := false))
  {
    var g := CanStart(cfg, k, h, c);
    var f := CanDeleteMirror(cfg, k, g, Last(g).cells[k]);
    ContinuesFurther(cfg, k, h, g, f);
    var d := Last(f).cells[k];
    var e := Append(d, Settle(Now(c).value.(cleanup := false, legacy := false)), Idle);
    var st := SetCell(Last(f), k, e);
    assert FinalizerStep(cfg, Last(f), RemoveFinalizer(k), st);
    PushContinues(cfg, k, f, RemoveFinalizer(k), st);
    h' := Push(f, RemoveFinalizer(k), st);
    ContinuesFurther(cfg, k, h, f, h');
    assert Standing(st, k) == Standing(Last(f), k);
  }

  /** Such histories exist: a user creates a Service of type LoadBalancer, and the cache catches up. */
  lemma AService(cfg: Config, k: Key) returns (h: History, c: Cell)
    ensures IsRun(cfg, h) && At(h, k, c) && Calm(c) && Now(c).Some? && Wanted(cfg, Now(c).value)
  {
    var s := Svc(0, Spec("LoadBalancer", Some("kubelb")), false, false, false, false);
    var st0 := State(map[k := Cell([None], 0, Idle)], map[], map[], 0);
    var st1 := State(map[k := Cell([None, Some(s)], 0, Idle)], map[], map[], 1);
    c := Cell([None, Some(s)], 1, Idle);
    var st2 := State(map[k := c], map[], map[], 1);
    h := History([st0, st1, st2], [Create(k, s), Sync(k, 1)]);
    assert UserStep(st0, Create(k, s), st1) by {
      assert [None] + [Some(s)] == [None, Some(s)];
      assert SetCell(st0, k, Cell([None, Some(s)], 0, Idle)).cells == st1.cells;
    }
    assert EnvironmentStep(st1, Sync(k, 1), st2) by {
      assert SetCell(st1, k, c).cells == st2.cells;
    }
    assert Stepper(cfg)(st0, Create(k, s), st1) && Stepper(cfg)(st1, Sync(k, 1), st2);
  }
}
