/** The guarantees of the mirror protocol, over every run from an empty system. */
module MirrorTheorems {
  import opened Api
  import opened Lists
  import opened MirrorProtocol
  import opened MirrorSafety

  ghost function Stepper(cfg: Config): (State, Event, State) -> bool {
    (st: State, ev: Event, st': State) => Next(cfg, st, ev, st')
  }

  /** A run: users, caches, crashes and the controller interleave freely. */
  ghost predicate Run(cfg: Config, sts: seq<State>, evs: seq<Event>) {
    Trace(Stepper(cfg), sts, evs) && Init(sts[0])
  }

  lemma InitIsOk(cfg: Config, st: State)
    requires Init(st)
    ensures Inv(cfg, st)
  {
    forall k <- st.cells ensures CellOk(cfg, st.cells[k], Mine(st, k), Standing(st, k), st.next) {
      assert Mine(st, k) == {} && Standing(st, k) == {};
    }
  }

  lemma {:induction false} RunKeepsInv(cfg: Config, sts: seq<State>, evs: seq<Event>, n: nat)
    requires Run(cfg, sts, evs) && n < |sts|
    ensures Inv(cfg, sts[n])
  {
    if n == 0 {
      InitIsOk(cfg, sts[0]);
    } else {
      RunKeepsInv(cfg, sts, evs, n - 1);
      assert Stepper(cfg)(sts[n - 1], evs[n - 1], sts[n]);
      StepKeepsInv(cfg, sts[n - 1], evs[n - 1], sts[n]);
    }
  }

  // ------------------------------------------------------------- no orphans

  ghost predicate Protected(c: Cell, u: Uid) {
    Live(c, u) && HasCleanupFinalizer(Now(c).value)
  }

  /** A version that lets a reconciliation go straight to mirroring. */
  ghost predicate Inviting(cfg: Config, v: Option<Svc>) {
    v.Some? && InScope(cfg, v.value) && v.value.cleanup
  }

  /**
   Standing mirrors are protected; so is every incarnation the cache may still show as
   inviting, and the one a sweep or creation in progress works for.
   */
  ghost predicate CellSafe(cfg: Config, c: Cell, standing: set<Uid>) {
    && c.hist != []
    && (forall u <- standing :: Protected(c, u))
    && (forall j | c.cache <= j < |c.hist| && Inviting(cfg, c.hist[j]) :: Protected(c, c.hist[j].value.uid))
    && WorkerSafe(c, standing)
  }

  ghost predicate WorkerSafe(c: Cell, standing: set<Uid>) {
    match c.worker
    case Unfinalize(seen) => seen < |c.hist| && c.hist[seen].Some? && c.hist[seen].value.uid !in standing
    case Sweep(seen) => seen < |c.hist| && (c.hist[seen].Some? ==> Protected(c, c.hist[seen].value.uid))
    case Reap(seen, _, _) => seen < |c.hist| && (c.hist[seen].Some? ==> Protected(c, c.hist[seen].value.uid))
    case Mirroring(seen, _) => seen < |c.hist| && c.hist[seen].Some? && Protected(c, c.hist[seen].value.uid)
    case _ => true
  }

  ghost predicate Safe(cfg: Config, st: State) {
    forall k <- st.cells :: CellSafe(cfg, st.cells[k], Standing(st, k))
  }

  /** The new version keeps whatever was protected protected. */
  ghost predicate Keeps(c: Cell, v: Option<Svc>)
    requires c.hist != []
  {
    Now(c).Some? && HasCleanupFinalizer(Now(c).value) ==>
      v.Some? && v.value.uid == Now(c).value.uid && HasCleanupFinalizer(v.value)
  }

  lemma SafeAppend(cfg: Config, c: Cell, v: Option<Svc>, standing: set<Uid>)
    requires CellSafe(cfg, c, standing) && Keeps(c, v)
    ensures CellSafe(cfg, Append(c, v, c.worker), standing)
  {
    var c' := Append(c, v, c.worker);
    forall u | Protected(c, u) ensures Protected(c', u) {}
    forall j | c'.cache <= j < |c'.hist| && Inviting(cfg, c'.hist[j]) ensures Protected(c', c'.hist[j].value.uid) {
      if j < |c.hist| { assert c'.hist[j] == c.hist[j]; }
    }
  }

  lemma SafeAddFinalizer(cfg: Config, c: Cell, standing: set<Uid>)
    requires CellSafe(cfg, c, standing) && c.worker.Ensure? && c.worker.seen == |c.hist| - 1
             && c.hist[c.worker.seen].Some?
    ensures CellSafe(cfg,
            Append(c, Some(c.hist[c.worker.seen].value.(cleanup := true, legacy := false)), Sweep(|c.hist|)), standing)
  {
    SafeAppend(cfg, c, Some(c.hist[c.worker.seen].value.(cleanup := true, legacy := false)), standing);
  }

  /** Only a current copy that is deleting or out of scope loses the finalizer, and its mirror is already condemned. */
  lemma SafeRemoveFinalizer(cfg: Config, c: Cell, mine: set<Uid>, standing: set<Uid>, next: Uid)
    requires CellOk(cfg, c, mine, standing, next) && CellSafe(cfg, c, standing)
    requires c.worker.Unfinalize? && c.worker.seen == |c.hist| - 1
    ensures CellSafe(cfg, Append(c, Settle(c.hist[c.worker.seen].value.(cleanup := false, legacy := false)), Idle),
            standing)
  {
    var s := c.hist[c.worker.seen].value;
    assert forall u <- standing :: Protected(c, u) && u == s.uid;
    assert standing == {};
  }

  lemma SafeStart(cfg: Config, c: Cell, answer: Answer, standing: set<Uid>)
    requires CellSafe(cfg, c, standing) && c.cache < |c.hist| && Answers(answer, c.hist[c.cache])
    ensures CellSafe(cfg, c.(worker := MirrorProtocol.Route(cfg, answer, c.cache)), standing)
  {
    if Inviting(cfg, c.hist[c.cache]) { assert Protected(c, c.hist[c.cache].value.uid); }
  }

  lemma SafeDeleteMirror(cfg: Config, c: Cell, standing: set<Uid>)
    requires CellSafe(cfg, c, standing) && c.worker.Cleanup? && c.worker.seen < |c.hist| && c.hist[c.worker.seen].Some?
    ensures CellSafe(cfg, c.(worker := Unfinalize(c.worker.seen)), standing - {c.hist[c.worker.seen].value.uid})
  {}

  /** A sweep goes on with its copy; mirrors may fall meanwhile. */
  lemma SafeProgress(cfg: Config, c: Cell, w: Worker, standing: set<Uid>, standing': set<Uid>)
    requires CellSafe(cfg, c, standing) && standing' <= standing
    requires c.worker.Sweep? || c.worker.Reap? || c.worker.Mirroring?
    requires w.Done? || ((w.Reap? || w.Mirroring?) && w.seen == c.worker.seen
             && (w.Mirroring? ==> w.seen < |c.hist| && c.hist[w.seen].Some?))
    ensures CellSafe(cfg, c.(worker := w), standing')
  {}

  lemma SafeCreate(cfg: Config, c: Cell, standing: set<Uid>)
    requires CellSafe(cfg, c, standing) && c.worker.Mirroring?
    ensures CellSafe(cfg, c.(worker := Done(c.worker.seen, c.worker.upToDate)),
            standing + {c.hist[c.worker.seen].value.uid})
  {}

  lemma SafeElsewhere(cfg: Config, st: State, st': State, k: Key)
    requires Safe(cfg, st) && k in st.cells && k in st'.cells && st'.cells == st.cells[k := st'.cells[k]]
    requires forall k' <- st.cells | k' != k :: Standing(st', k') <= Standing(st, k')
    requires CellSafe(cfg, st'.cells[k], Standing(st', k))
    ensures Safe(cfg, st')
  {
    forall k' <- st'.cells ensures CellSafe(cfg, st'.cells[k'], Standing(st', k')) {
      if k' != k { assert CellSafe(cfg, st.cells[k'], Standing(st, k')); }
    }
  }

  lemma UserStepKeepsSafe(cfg: Config, st: State, ev: Event, st': State)
    requires Safe(cfg, st) && UserStep(st, ev, st') && !ev.ForceRemove?
    ensures Safe(cfg, st')
  {
    var c := st.cells[ev.k];
    SafeAppend(cfg, c, Now(st'.cells[ev.k]), Standing(st, ev.k));
    assert st'.cells[ev.k] == Append(c, Now(st'.cells[ev.k]), c.worker);
    assert forall k :: Standing(st', k) == Standing(st, k);
    SafeElsewhere(cfg, st, st', ev.k);
  }

  lemma SafeRest(cfg: Config, c: Cell, cache: nat, standing: set<Uid>)
    requires CellSafe(cfg, c, standing) && c.cache <= cache
    ensures CellSafe(cfg, c.(worker := Idle, cache := cache), standing)
    ensures CellSafe(cfg, c.(cache := cache), standing)
  {}

  lemma EnvironmentStepKeepsSafe(cfg: Config, st: State, ev: Event, st': State)
    requires Safe(cfg, st) && EnvironmentStep(st, ev, st')
    ensures Safe(cfg, st')
  {
    forall k <- st'.cells ensures CellSafe(cfg, st'.cells[k], Standing(st', k)) {
      assert Standing(st', k) == Standing(st, k);
      SafeRest(cfg, st.cells[k], st'.cells[k].cache, Standing(st, k));
    }
  }

  lemma CondemningKeepsSafe(cfg: Config, st: State, k: Key, c: Cell, u: Uid, st': State)
    requires Safe(cfg, st) && k in st.cells && st' == SetCell(st, k, c).(mirrors := Condemn(st.mirrors, u))
    requires CellSafe(cfg, c, Standing(st, k) - {u})
    ensures Safe(cfg, st')
  {
    forall k' ensures Standing(st', k') == Standing(st, k') - {u} { StandingShrinks(st, u, k'); }
    SafeElsewhere(cfg, st, st', k);
  }

  lemma CellStepKeepsSafe(cfg: Config, st: State, k: Key, c: Cell, st': State)
    requires Safe(cfg, st) && k in st.cells && st' == SetCell(st, k, c)
    requires CellSafe(cfg, c, Standing(st, k))
    ensures Safe(cfg, st')
  {
    forall k' ensures Standing(st', k') == Standing(st, k') {}
    SafeElsewhere(cfg, st, st', k);
  }

  lemma FinalizerStepKeepsSafe(cfg: Config, st: State, ev: Event, st': State)
    requires Inv(cfg, st) && Safe(cfg, st) && FinalizerStep(cfg, st, ev, st')
    ensures Safe(cfg, st')
  {
    var k := ev.k;
    var c, standing := st.cells[k], Standing(st, k);
    assert CellSafe(cfg, c, standing);
    match ev
    case Start(_, answer) =>
      SafeStart(cfg, c, answer, standing);
      CellStepKeepsSafe(cfg, st, k, st'.cells[k], st');
    case DeleteMirror(_) =>
      SafeDeleteMirror(cfg, c, standing);
      CondemningKeepsSafe(cfg, st, k, st'.cells[k], c.hist[c.worker.seen].value.uid, st');
    case RemoveFinalizer(_) =>
      SafeRemoveFinalizer(cfg, c, Mine(st, k), standing, st.next);
      CellStepKeepsSafe(cfg, st, k, st'.cells[k], st');
    case AddFinalizer(_) =>
      SafeAddFinalizer(cfg, c, standing);
      CellStepKeepsSafe(cfg, st, k, st'.cells[k], st');
  }

  lemma CreateMirrorKeepsSafe(cfg: Config, st: State, k: Key, st': State)
    requires Inv(cfg, st) && Safe(cfg, st) && MirrorStep(st, CreateMirror(k), st')
    ensures Safe(cfg, st')
  {
    var c := st.cells[k];
    var u := c.hist[c.worker.seen].value.uid;
    if u in st.born { BornHere(cfg, st, k, c.worker.seen, u); }
    forall k' ensures Standing(st', k') == Standing(st, k') + if k' == k then {u} else {} { BirthSets(st, k, u, k'); }
    SafeCreate(cfg, c, Standing(st, k));
    SafeElsewhere(cfg, st, st', k);
  }

  lemma MirrorStepKeepsSafe(cfg: Config, st: State, ev: Event, st': State)
    requires Inv(cfg, st) && Safe(cfg, st) && MirrorStep(st, ev, st')
    ensures Safe(cfg, st')
  {
    var k := ev.k;
    var c, standing := st.cells[k], Standing(st, k);
    assert CellSafe(cfg, c, standing);
    if ev.ReapOne? {
      SafeProgress(cfg, c, st'.cells[k].worker, standing, standing - {ev.u});
      CondemningKeepsSafe(cfg, st, k, st'.cells[k], ev.u, st');
    } else if ev.CreateMirror? {
      CreateMirrorKeepsSafe(cfg, st, k, st');
    } else {
      SafeProgress(cfg, c, st'.cells[k].worker, standing, standing);
      CellStepKeepsSafe(cfg, st, k, st'.cells[k], st');
    }
  }

  lemma {:induction false} RunKeepsSafe(cfg: Config, sts: seq<State>, evs: seq<Event>, n: nat)
    requires Run(cfg, sts, evs) && n < |sts| && forall ev <- evs :: !ev.ForceRemove?
    ensures Safe(cfg, sts[n])
  {
    if n == 0 {
      assert forall k :: Standing(sts[0], k) == {};
    } else {
      RunKeepsSafe(cfg, sts, evs, n - 1);
      RunKeepsInv(cfg, sts, evs, n - 1);
      var st, ev, st' := sts[n - 1], evs[n - 1], sts[n];
      assert Stepper(cfg)(st, ev, st') && ev in evs;
      if UserStep(st, ev, st') {
        UserStepKeepsSafe(cfg, st, ev, st');
      } else if EnvironmentStep(st, ev, st') {
        EnvironmentStepKeepsSafe(cfg, st, ev, st');
      } else if FinalizerStep(cfg, st, ev, st') {
        FinalizerStepKeepsSafe(cfg, st, ev, st');
      } else {
        MirrorStepKeepsSafe(cfg, st, ev, st');
      }
    }
  }

  /**
   No orphan: in every run in which only the controller removes its finalizers, a mirror that is
   not being deleted belongs to an existing Service with its UID that still carries one of them.
   */
  lemma NoOrphanedMirror(cfg: Config, sts: seq<State>, evs: seq<Event>, n: nat, u: Uid)
    requires Run(cfg, sts, evs) && n < |sts| && forall ev <- evs :: !ev.ForceRemove?
    requires u in sts[n].mirrors && !sts[n].mirrors[u].deleting
    ensures var k := sts[n].mirrors[u].origin;
            k in sts[n].cells && Protected(sts[n].cells[k], u)
  {
    RunKeepsInv(cfg, sts, evs, n);
    RunKeepsSafe(cfg, sts, evs, n);
    var k := sts[n].mirrors[u].origin;
    assert u in Standing(sts[n], k);
  }

  // ------------------------------------------------------------- sweeping

  /** Even when finalizers are force-removed, a sweep never deletes the mirror of a live Service. */
  lemma SweepSparesEveryLiveService(cfg: Config, sts: seq<State>, evs: seq<Event>, n: nat, k: Key, u: Uid, k': Key)
    requires Run(cfg, sts, evs) && n < |evs| && evs[n] == ReapOne(k, u) && k' in sts[n].cells
    ensures !Live(sts[n].cells[k'], u)
  {
    RunKeepsInv(cfg, sts, evs, n);
    var st := sts[n];
    assert Stepper(cfg)(st, evs[n], sts[n + 1]);
    var c := st.cells[k];
    assert u in Mine(st, k);
    SweepSparesLive(c, c.worker.seen, Mine(st, k), u);
    var i :| i <= c.worker.seen && Is(c.hist, i, u);
    assert Live(st.cells[k'], u) ==> k' == k;
  }

  predicate OfController(ev: Event, k: Key) {
    match ev
    case Start(l, _) => l == k
    case DeleteMirror(l) => l == k
    case RemoveFinalizer(l) => l == k
    case AddFinalizer(l) => l == k
    case List(l, _, _) => l == k
    case ReapOne(l, _) => l == k
    case ReapDone(l) => l == k
    case FindMirror(l, _) => l == k
    case CreateMirror(l) => l == k
    case Abort(l) => l == k
    case _ => false
  }

  /** Reconciling one origin, by name or by label, never touches another origin's mirror. */
  lemma OtherOriginsUntouched(cfg: Config, sts: seq<State>, evs: seq<Event>, n: nat, k: Key, u: Uid)
    requires Run(cfg, sts, evs) && n < |evs| && OfController(evs[n], k)
    requires u in sts[n].mirrors && sts[n].mirrors[u].origin != k
    ensures u in sts[n + 1].mirrors && sts[n + 1].mirrors[u] == sts[n].mirrors[u]
  {
    RunKeepsInv(cfg, sts, evs, n);
    var st, ev := sts[n], evs[n];
    assert Stepper(cfg)(st, ev, sts[n + 1]);
    if ev.DeleteMirror? {
      var c := st.cells[k];
      if c.hist[c.worker.seen].value.uid == u { BornHere(cfg, st, k, c.worker.seen, u); }
    }
    if ev.ReapOne? { assert ev.u in Mine(st, k); }
  }

  /** `ev` ends the reconciliation of `k`: a failed call, a crash, or the start of the next one. */
  predicate Ends(ev: Event, k: Key) { ev == Abort(k) || ev == Crash || (ev.Start? && ev.k == k) }

  /** A reconciliation that may come to reap: its copy says which mirror to spare. */
  predicate Sweeping(w: Worker) { w.Ensure? || w.Sweep? || w.Reap? }

  ghost function Target(c: Cell): Option<Uid> {
    if Sweeping(c.worker) && c.worker.seen < |c.hist| && c.hist[c.worker.seen].Some?
      then Some(c.hist[c.worker.seen].value.uid)
    else None
  }

  function AnswerUid(answer: Answer): Option<Uid> {
    match answer
    case Found(s) => Some(s.uid)
    case _ => None
  }

  /**
   A sweep of `k` after `ev` was one before, for the same UID, or `ev` read the Service and found that UID or
   nothing.
   */
  ghost predicate ReadLink(st: State, ev: Event, st': State, k: Key) {
    k in st'.cells && Sweeping(st'.cells[k].worker) ==>
      k in st.cells &&
      if ev.Start? && ev.k == k then !ev.answer.Failed? && AnswerUid(ev.answer) == Target(st'.cells[k])
      else !Ends(ev, k) && Sweeping(st.cells[k].worker) && Target(st'.cells[k]) == Target(st.cells[k])
  }

  /** A reaping of `k` after `ev` was one before, or `ev` listed what is to be reaped. */
  ghost predicate ReapLink(st: State, ev: Event, st': State, k: Key) {
    k in st'.cells && st'.cells[k].worker.Reap? ==>
      && !Ends(ev, k) && k in st.cells
      && ((st.cells[k].worker.Reap? && st'.cells[k].worker.todo <= st.cells[k].worker.todo)
          || (ev.List? && ev.k == k && st'.cells[k].worker.todo <= ev.listed))
  }

  lemma ReapStays(st: State, ev: Event, st': State, k: Key)
    requires UserStep(st, ev, st') || EnvironmentStep(st, ev, st')
    ensures ReapLink(st, ev, st', k)
  {}

  lemma ReapStep(cfg: Config, st: State, ev: Event, st': State, k: Key)
    requires FinalizerStep(cfg, st, ev, st') || MirrorStep(st, ev, st')
    ensures ReapLink(st, ev, st', k)
  {}

  /** The copy of a sweep is a version. */
  ghost predicate HasCopy(st: State, k: Key) {
    k in st.cells && Sweeping(st.cells[k].worker) ==> st.cells[k].worker.seen < |st.cells[k].hist|
  }

  lemma InvHasCopy(cfg: Config, st: State, k: Key)
    requires Inv(cfg, st)
    ensures HasCopy(st, k)
  {
    if k in st.cells { assert CellOk(cfg, st.cells[k], Mine(st, k), Standing(st, k), st.next); }
  }

  lemma ReadStaysUser(st: State, ev: Event, st': State, k: Key)
    requires HasCopy(st, k) && UserStep(st, ev, st')
    ensures ReadLink(st, ev, st', k)
  {}

  lemma ReadStaysEnvironment(st: State, ev: Event, st': State, k: Key)
    requires HasCopy(st, k) && EnvironmentStep(st, ev, st')
    ensures ReadLink(st, ev, st', k)
  {}

  lemma ReadFinalizer(cfg: Config, st: State, ev: Event, st': State, k: Key)
    requires HasCopy(st, k) && FinalizerStep(cfg, st, ev, st')
    ensures ReadLink(st, ev, st', k)
  {}

  lemma ReadMirror(st: State, ev: Event, st': State, k: Key)
    requires HasCopy(st, k) && MirrorStep(st, ev, st')
    ensures ReadLink(st, ev, st', k)
  {}

  lemma Links(cfg: Config, st: State, ev: Event, st': State, k: Key)
    requires HasCopy(st, k) && Stepper(cfg)(st, ev, st')
    ensures ReapLink(st, ev, st', k) && ReadLink(st, ev, st', k)
  {
    if UserStep(st, ev, st') {
      ReapStays(st, ev, st', k);
      ReadStaysUser(st, ev, st', k);
    } else if EnvironmentStep(st, ev, st') {
      ReapStays(st, ev, st', k);
      ReadStaysEnvironment(st, ev, st', k);
    } else {
      ReapStep(cfg, st, ev, st', k);
      if FinalizerStep(cfg, st, ev, st') {
        ReadFinalizer(cfg, st, ev, st', k);
      } else {
        ReadMirror(st, ev, st', k);
      }
    }
  }

  /** Event `m` listed every mirror in `todo` for `k`, and nothing ended that reconciliation before `n`. */
  ghost predicate Listed(evs: seq<Event>, m: int, n: int, k: Key, todo: set<Uid>) {
    && 0 <= m < n <= |evs| && evs[m].List? && evs[m].k == k && todo <= evs[m].listed
    && forall j | m <= j < n :: !Ends(evs[j], k)
  }

  lemma {:induction false} ReapFollowsListing(sts: seq<State>, evs: seq<Event>, n: nat, k: Key) returns (m: nat)
    requires |sts| == |evs| + 1 && n < |sts| && (k in sts[0].cells ==> sts[0].cells[k].worker.Idle?)
    requires forall i | 0 <= i < |evs| :: ReapLink(sts[i], evs[i], sts[i + 1], k)
    requires k in sts[n].cells && sts[n].cells[k].worker.Reap?
    ensures Listed(evs, m, n, k, sts[n].cells[k].worker.todo)
  {
    var st, ev, st' := sts[n - 1], evs[n - 1], sts[n];
    assert ReapLink(st, ev, st', k);
    if ev.List? && ev.k == k && st'.cells[k].worker.todo <= ev.listed {
      m := n - 1;
    } else {
      m := ReapFollowsListing(sts, evs, n - 1, k);
    }
  }

  /** Event `m` began the reconciliation of `k` going on at `n`, with an answer about `uid`. */
  ghost predicate ReadAs(evs: seq<Event>, m: int, n: int, k: Key, uid: Option<Uid>) {
    && 0 <= m < n <= |evs| && evs[m].Start? && evs[m].k == k && !evs[m].answer.Failed?
      && AnswerUid(evs[m].answer) == uid
    && forall j | m < j < n :: !Ends(evs[j], k)
  }

  lemma {:induction false} SweepFollowsRead(sts: seq<State>, evs: seq<Event>, n: nat, k: Key) returns (m: nat)
    requires |sts| == |evs| + 1 && n < |sts| && (k in sts[0].cells ==> sts[0].cells[k].worker.Idle?)
    requires forall i | 0 <= i < |evs| :: ReadLink(sts[i], evs[i], sts[i + 1], k)
    requires k in sts[n].cells && Sweeping(sts[n].cells[k].worker)
    ensures ReadAs(evs, m, n, k, Target(sts[n].cells[k]))
  {
    assert ReadLink(sts[n - 1], evs[n - 1], sts[n], k);
    if evs[n - 1].Start? && evs[n - 1].k == k {
      m := n - 1;
    } else {
      m := SweepFollowsRead(sts, evs, n - 1, k);
    }
  }

  lemma RunLinks(cfg: Config, sts: seq<State>, evs: seq<Event>, k: Key)
    requires Run(cfg, sts, evs)
    ensures k in sts[0].cells ==> sts[0].cells[k].worker.Idle?
    ensures forall i | 0 <= i < |evs| :: ReapLink(sts[i], evs[i], sts[i + 1], k)
    ensures forall i | 0 <= i < |evs| :: ReadLink(sts[i], evs[i], sts[i + 1], k)
  {
    forall i | 0 <= i < |evs|
      ensures ReapLink(sts[i], evs[i], sts[i + 1], k) && ReadLink(sts[i], evs[i], sts[i + 1], k)
    {
      RunKeepsInv(cfg, sts, evs, i);
      InvHasCopy(cfg, sts[i], k);
      assert Stepper(cfg)(sts[i], evs[i], sts[i + 1]);
      Links(cfg, sts[i], evs[i], sts[i + 1], k);
    }
  }

  lemma ReapIsTargeted(cfg: Config, st: State, k: Key, u: Uid, st': State)
    requires Inv(cfg, st) && Stepper(cfg)(st, ReapOne(k, u), st')
    ensures k in st.cells && st.cells[k].worker.Reap? && u in st.cells[k].worker.todo && Target(st.cells[k]) != Some(u)
  {
    assert CellOk(cfg, st.cells[k], Mine(st, k), Standing(st, k), st.next);
  }

  /**
   Nothing is reaped on a read error: the reconciliation that reaps `u` first read the Service and
   found it gone or with another UID, then listed `u`, and no call failed in between.
   */
  lemma ReapedAfterSuccessfulReads(cfg: Config, sts: seq<State>, evs: seq<Event>, n: nat, k: Key, u: Uid)
    returns (r: nat, m: nat)
    requires Run(cfg, sts, evs) && n < |evs| && evs[n] == ReapOne(k, u)
    ensures r < m < n
    ensures evs[r].Start? && evs[r].k == k
            && (evs[r].answer.Gone? || (evs[r].answer.Found? && evs[r].answer.s.uid != u))
    ensures evs[m].List? && evs[m].k == k && u in evs[m].listed
    ensures forall j | r < j < n :: !Ends(evs[j], k)
  {
    RunKeepsInv(cfg, sts, evs, n);
    RunLinks(cfg, sts, evs, k);
    assert Stepper(cfg)(sts[n], evs[n], sts[n + 1]);
    ReapIsTargeted(cfg, sts[n], k, u, sts[n + 1]);
    r := SweepFollowsRead(sts, evs, n, k);
    m := ReapFollowsListing(sts, evs, n, k);
    assert Ends(evs[r], k);
  }

  /** The mirrors of `k` are exactly that of version `seen`, or none if that version is gone. */
  ghost predicate Exact(st: State, k: Key, seen: nat)
    requires k in st.cells
  {
    && seen < |st.cells[k].hist|
    && match st.cells[k].hist[seen]
       case None => Standing(st, k) == {}
       case Some(s) => Standing(st, k) <= {s.uid} && s.uid in st.mirrors
  }

  lemma SweptIsExact(cfg: Config, st: State, ev: Event, st': State)
    requires Inv(cfg, st) && MirrorStep(st, ev, st') && (ev.ReapDone? || ev.FindMirror?)
    requires st'.cells[ev.k].worker.Done? && st'.cells[ev.k].worker.upToDate
    ensures Exact(st', ev.k, st'.cells[ev.k].worker.seen)
  {
    var c := st.cells[ev.k];
    assert Standing(st', ev.k) == Standing(st, ev.k);
    assert CellOk(cfg, c, Mine(st, ev.k), Standing(st, ev.k), st.next);
  }

  lemma CellExact(cfg: Config, c: Cell, mine: set<Uid>, standing: set<Uid>, next: Uid)
    requires CellOk(cfg, c, mine, standing, next) && c.worker.Mirroring? && c.worker.upToDate
    ensures c.worker.seen < |c.hist| && c.hist[c.worker.seen].Some? && standing <= {c.hist[c.worker.seen].value.uid}
  {}

  lemma CreatedIsExact(cfg: Config, st: State, k: Key, st': State)
    requires Inv(cfg, st) && MirrorStep(st, CreateMirror(k), st') && st'.cells[k].worker.upToDate
    ensures Exact(st', k, st'.cells[k].worker.seen)
  {
    var c := st.cells[k];
    var u := c.hist[c.worker.seen].value.uid;
    if u in st.born { BornHere(cfg, st, k, c.worker.seen, u); }
    BirthSets(st, k, u, k);
    assert Standing(st', k) == Standing(Bear(st, k, u), k);
    CellExact(cfg, c, Mine(st, k), Standing(st, k), st.next);
  }

  lemma DoneBySweep(cfg: Config, st: State, ev: Event, st': State, k: Key)
    requires Next(cfg, st, ev, st') && k in st.cells && k in st'.cells
    requires !st.cells[k].worker.Done? && st'.cells[k].worker.Done?
    ensures MirrorStep(st, ev, st') && (ev.ReapDone? || ev.FindMirror? || ev.CreateMirror?) && ev.k == k
  {}

  /**
   When a reconciliation with up-to-date answers succeeds, the mirrors of its origin are exactly
   the one of the Service it saw, or none if it saw the Service gone.
   */
  lemma ReconcileIsExact(cfg: Config, sts: seq<State>, evs: seq<Event>, n: nat, k: Key)
    requires Run(cfg, sts, evs) && n < |evs| && k in sts[n].cells && k in sts[n + 1].cells
    requires !sts[n].cells[k].worker.Done? && sts[n + 1].cells[k].worker.Done? && sts[n + 1].cells[k].worker.upToDate
    ensures Exact(sts[n + 1], k, sts[n + 1].cells[k].worker.seen)
  {
    RunKeepsInv(cfg, sts, evs, n);
    assert Stepper(cfg)(sts[n], evs[n], sts[n + 1]);
    DoneBySweep(cfg, sts[n], evs[n], sts[n + 1], k);
    if evs[n].CreateMirror? {
      CreatedIsExact(cfg, sts[n], k, sts[n + 1]);
    } else {
      SweptIsExact(cfg, sts[n], evs[n], sts[n + 1]);
    }
  }
}
