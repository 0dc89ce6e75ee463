/** Which Services the mirror protocol mirrors and which it cleans up after, over every run. */
module MirrorScope {
  import opened Api
  import opened MirrorProtocol
  import opened MirrorTheorems

  /** Reference, on the Service's own fields: live, of type LoadBalancer, of KubeLB's class if classes count. */
  predicate Wanted(cfg: Config, s: Svc) {
    && !s.deleting && s.spec.serviceType == "LoadBalancer"
    && (!cfg.useLoadBalancerClass || (s.spec.loadBalancerClass.Some? && s.spec.loadBalancerClass.value == "kubelb"))
  }

  /** Version `j` was incarnation `u`, wanted, and under the controller's finalizer. */
  ghost predicate WantedAt(cfg: Config, h: seq<Option<Svc>>, j: int, u: Uid) {
    Is(h, j, u) && Wanted(cfg, h[j].value) && h[j].value.cleanup
  }

  /** A cleanup works on an unwanted version, everything else on a wanted one, a sweep also on a missing one. */
  ghost predicate Scoped(cfg: Config, c: Cell) {
    c.worker.Idle? || c.worker.Done? ||
    (&& c.worker.seen < |c.hist|
     && match c.hist[c.worker.seen]
        case None => c.worker.Sweep? || c.worker.Reap?
        case Some(s) =>
          if c.worker.Cleanup? || c.worker.Unfinalize? then !Wanted(cfg, s)
          else Wanted(cfg, s) && (c.worker.Ensure? || s.cleanup))
  }

  ghost predicate BornWanted(cfg: Config, st: State, u: Uid) {
    u in st.born ==> st.born[u] in st.cells && exists j :: WantedAt(cfg, st.cells[st.born[u]].hist, j, u)
  }

  ghost predicate Selective(cfg: Config, st: State) {
    (forall k <- st.cells :: Scoped(cfg, st.cells[k])) && forall u :: BornWanted(cfg, st, u)
  }

  /** A step that bears nothing and forgets no version keeps the reasons mirrors were born for. */
  lemma BornStays(cfg: Config, st: State, st': State, u: Uid)
    requires BornWanted(cfg, st, u) && st'.born == st.born
    requires forall k <- st.cells :: k in st'.cells && st.cells[k].hist <= st'.cells[k].hist
    ensures BornWanted(cfg, st', u)
  {
    if u in st.born {
      var j :| WantedAt(cfg, st.cells[st.born[u]].hist, j, u);
      assert WantedAt(cfg, st'.cells[st.born[u]].hist, j, u);
    }
  }

  lemma UserStepKeepsScoped(cfg: Config, st: State, ev: Event, st': State, k: Key)
    requires Selective(cfg, st) && UserStep(st, ev, st') && k in st'.cells
    ensures Scoped(cfg, st'.cells[k]) && k in st.cells && st.cells[k].hist <= st'.cells[k].hist
  {
    assert Scoped(cfg, st.cells[k]);
  }

  lemma EnvironmentStepKeepsScoped(cfg: Config, st: State, ev: Event, st': State, k: Key)
    requires Selective(cfg, st) && EnvironmentStep(st, ev, st') && k in st'.cells
    ensures Scoped(cfg, st'.cells[k]) && k in st.cells && st.cells[k].hist <= st'.cells[k].hist
  {
    assert Scoped(cfg, st.cells[k]);
  }

  lemma FinalizerStepKeepsScoped(cfg: Config, st: State, ev: Event, st': State, k: Key)
    requires Selective(cfg, st) && FinalizerStep(cfg, st, ev, st') && k in st'.cells
    ensures Scoped(cfg, st'.cells[k]) && k in st.cells && st.cells[k].hist <= st'.cells[k].hist
  {
    assert Scoped(cfg, st.cells[k]);
  }

  lemma MirrorStepKeepsScoped(cfg: Config, st: State, ev: Event, st': State, k: Key)
    requires Selective(cfg, st) && MirrorStep(st, ev, st') && k in st'.cells
    ensures Scoped(cfg, st'.cells[k]) && k in st.cells && st.cells[k].hist <= st'.cells[k].hist
  {
    assert Scoped(cfg, st.cells[k]);
  }

  lemma BirthIsWanted(cfg: Config, st: State, k: Key, st': State, u: Uid)
    requires Selective(cfg, st) && MirrorStep(st, CreateMirror(k), st')
    ensures BornWanted(cfg, st', u)
  {
    var c := st.cells[k];
    assert Scoped(cfg, c) && st'.cells[k].hist == c.hist;
    if u == c.hist[c.worker.seen].value.uid {
      assert WantedAt(cfg, c.hist, c.worker.seen, u);
    } else if u in st.born {
      assert BornWanted(cfg, st, u);
      var j :| WantedAt(cfg, st.cells[st.born[u]].hist, j, u);
      assert st'.cells[st.born[u]].hist == st.cells[st.born[u]].hist;
    }
  }

  lemma StepKeepsScoped(cfg: Config, st: State, ev: Event, st': State, k: Key)
    requires Selective(cfg, st) && Next(cfg, st, ev, st') && k in st'.cells
    ensures Scoped(cfg, st'.cells[k]) && k in st.cells && st.cells[k].hist <= st'.cells[k].hist
  {
    if UserStep(st, ev, st') {
      UserStepKeepsScoped(cfg, st, ev, st', k);
    } else if EnvironmentStep(st, ev, st') {
      EnvironmentStepKeepsScoped(cfg, st, ev, st', k);
    } else if FinalizerStep(cfg, st, ev, st') {
      FinalizerStepKeepsScoped(cfg, st, ev, st', k);
    } else {
      MirrorStepKeepsScoped(cfg, st, ev, st', k);
    }
  }

  /** The origins stay the same, and nothing is born. */
  ghost predicate Barren(st: State, st': State) { st'.cells.Keys == st.cells.Keys && st'.born == st.born }

  lemma OutsideBearsNothing(st: State, ev: Event, st': State)
    requires UserStep(st, ev, st') || EnvironmentStep(st, ev, st')
    ensures Barren(st, st') && !ev.CreateMirror?
  {}

  lemma FinalizersBearNothing(cfg: Config, st: State, ev: Event, st': State)
    requires FinalizerStep(cfg, st, ev, st')
    ensures Barren(st, st') && !ev.CreateMirror?
  {}

  lemma OnlyCreationBears(cfg: Config, st: State, ev: Event, st': State)
    requires Next(cfg, st, ev, st')
    ensures if ev.CreateMirror? then MirrorStep(st, ev, st') && st'.cells.Keys == st.cells.Keys else Barren(st, st')
  {
    if UserStep(st, ev, st') || EnvironmentStep(st, ev, st') {
      OutsideBearsNothing(st, ev, st');
    } else if FinalizerStep(cfg, st, ev, st') {
      FinalizersBearNothing(cfg, st, ev, st');
    }
  }

  lemma StepKeepsSelective(cfg: Config, st: State, ev: Event, st': State)
    requires Selective(cfg, st) && Next(cfg, st, ev, st')
    ensures Selective(cfg, st')
  {
    OnlyCreationBears(cfg, st, ev, st');
    forall k <- st'.cells ensures Scoped(cfg, st'.cells[k]) && k in st.cells && st.cells[k].hist <= st'.cells[k].hist {
      StepKeepsScoped(cfg, st, ev, st', k);
    }
    forall u ensures BornWanted(cfg, st', u) {
      if ev.CreateMirror? { BirthIsWanted(cfg, st, ev.k, st', u); } else { BornStays(cfg, st, st', u); }
    }
  }

  lemma {:induction false} RunKeepsSelective(cfg: Config, sts: seq<State>, evs: seq<Event>, n: nat)
    requires Run(cfg, sts, evs) && n < |sts|
    ensures Selective(cfg, sts[n])
  {
    if n > 0 {
      RunKeepsSelective(cfg, sts, evs, n - 1);
      assert Stepper(cfg)(sts[n - 1], evs[n - 1], sts[n]);
      StepKeepsSelective(cfg, sts[n - 1], evs[n - 1], sts[n]);
    }
  }

  /** Only wanted Services are mirrored: the version a mirror is created for is one, and every mirror had one. */
  lemma OnlyWantedAreMirrored(cfg: Config, sts: seq<State>, evs: seq<Event>, n: nat, k: Key)
    requires Run(cfg, sts, evs) && n < |evs| && evs[n] == CreateMirror(k)
    ensures k in sts[n].cells && sts[n].cells[k].worker.Mirroring?
    ensures sts[n].cells[k].worker.seen < |sts[n].cells[k].hist|
    ensures var v := sts[n].cells[k].hist[sts[n].cells[k].worker.seen]; v.Some? && Wanted(cfg, v.value)
  {
    RunKeepsSelective(cfg, sts, evs, n);
    assert Stepper(cfg)(sts[n], evs[n], sts[n + 1]);
    assert Scoped(cfg, sts[n].cells[k]);
  }

  lemma EveryMirrorWasWanted(cfg: Config, sts: seq<State>, evs: seq<Event>, n: nat, u: Uid) returns (j: nat)
    requires Run(cfg, sts, evs) && n < |sts| && u in sts[n].mirrors
    ensures var k := sts[n].mirrors[u].origin;
            k in sts[n].cells && WantedAt(cfg, sts[n].cells[k].hist, j, u)
  {
    RunKeepsSelective(cfg, sts, evs, n);
    RunKeepsInv(cfg, sts, evs, n);
    assert BornWanted(cfg, sts[n], u);
    j :| WantedAt(cfg, sts[n].cells[sts[n].born[u]].hist, j, u);
  }

  /** Only for an unwanted version is a mirror deleted by name, and only a Service unwanted now loses the finalizer. */
  lemma OnlyUnwantedAreCleanedUp(cfg: Config, sts: seq<State>, evs: seq<Event>, n: nat, k: Key)
    requires Run(cfg, sts, evs) && n < |evs| && (evs[n] == DeleteMirror(k) || evs[n] == RemoveFinalizer(k))
    ensures k in sts[n].cells && (sts[n].cells[k].worker.Cleanup? || sts[n].cells[k].worker.Unfinalize?)
    ensures sts[n].cells[k].worker.seen < |sts[n].cells[k].hist|
    ensures var v := sts[n].cells[k].hist[sts[n].cells[k].worker.seen]; v.Some? && !Wanted(cfg, v.value)
    ensures evs[n].RemoveFinalizer? ==>
              sts[n].cells[k].hist != [] && Now(sts[n].cells[k]).Some? && !Wanted(cfg, Now(sts[n].cells[k]).value)
  {
    RunKeepsSelective(cfg, sts, evs, n);
    assert Stepper(cfg)(sts[n], evs[n], sts[n + 1]);
    assert Scoped(cfg, sts[n].cells[k]);
  }

  /** What a successful read leads to: wanted Services are on their way to a mirror, others to cleanup or nothing. */
  lemma ReadDecides(cfg: Config, sts: seq<State>, evs: seq<Event>, n: nat, k: Key, s: Svc)
    requires Run(cfg, sts, evs) && n < |evs| && evs[n] == Start(k, Found(s))
    ensures k in sts[n].cells && k in sts[n + 1].cells
    ensures var w, seen := sts[n + 1].cells[k].worker, sts[n].cells[k].cache;
            w == if Wanted(cfg, s) then (if s.cleanup then Sweep(seen) else Ensure(seen))
                 else if s.cleanup || s.legacy then Cleanup(seen) else Idle
  {
    assert Stepper(cfg)(sts[n], evs[n], sts[n + 1]);
  }
}
