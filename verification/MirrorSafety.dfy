/** What every run of the mirror protocol keeps: no orphaned mirror, and sweeps that are exact. */
module MirrorSafety {
  import opened Api
  import opened MirrorProtocol

  ghost predicate Knows(h: seq<Option<Svc>>, n: int, u: Uid) {
    exists i :: i <= n && Is(h, i, u)
  }

  /** A UID's versions are consecutive: once gone, an incarnation does not come back. */
  ghost predicate Contiguous(h: seq<Option<Svc>>) {
    forall i, j, m, u | Is(h, i, u) && Is(h, j, u) && i <= m <= j :: Is(h, m, u)
  }

  /** The mirrors ever created for `k`, and those of them that are there and not condemned. */
  ghost function Mine(st: State, k: Key): set<Uid> { set u <- st.born | st.born[u] == k }

  ghost function Standing(st: State, k: Key): set<Uid> {
    set u <- st.mirrors | st.mirrors[u].origin == k && !st.mirrors[u].deleting
  }

  /** A sweep's copy is no older than the copies the mirrors of its origin were made from. */
  ghost predicate CopyOk(c: Cell, seen: nat, mine: set<Uid>) {
    && seen < |c.hist|
    && (c.hist[seen].Some? ==> Knows(c.hist, c.cache, c.hist[seen].value.uid))
    && (forall u <- mine :: Knows(c.hist, seen, u))
  }

  ghost predicate WorkerOk(cfg: Config, c: Cell, mine: set<Uid>, standing: set<Uid>) {
    match c.worker
    case Idle => true
    case Done(_, _) => true
    case Cleanup(seen) => seen <= c.cache < |c.hist| && c.hist[seen].Some? && !InScope(cfg, c.hist[seen].value)
    case Unfinalize(seen) => seen <= c.cache < |c.hist| && c.hist[seen].Some? && !InScope(cfg, c.hist[seen].value)
    case Ensure(seen) => seen <= c.cache < |c.hist| && c.hist[seen].Some? && InScope(cfg, c.hist[seen].value)
    case Sweep(seen) => CopyOk(c, seen, mine)
    case Reap(seen, todo, upToDate) =>
      && CopyOk(c, seen, mine)
      && (forall u <- todo :: u in mine && !Is(c.hist, seen, u))
      && (upToDate ==> forall u <- standing :: u in todo || Is(c.hist, seen, u))
    case Mirroring(seen, upToDate) =>
      CopyOk(c, seen, mine) && c.hist[seen].Some? && (upToDate ==> forall u <- standing :: Is(c.hist, seen, u))
  }

  ghost predicate CellOk(cfg: Config, c: Cell, mine: set<Uid>, standing: set<Uid>, next: Uid) {
    && c.cache < |c.hist|
    && (forall i, u: Uid | Is(c.hist, i, u) :: u < next)
    && Contiguous(c.hist)
    && (forall u <- mine :: Knows(c.hist, c.cache, u))
    && WorkerOk(cfg, c, mine, standing)
  }

  ghost predicate Separate(st: State) {
    forall k, k', i, j, u | k in st.cells && k' in st.cells && Is(st.cells[k].hist, i, u)
      && Is(st.cells[k'].hist, j, u) :: k == k'
  }

  ghost predicate Labelled(st: State) {
    && (forall u <- st.mirrors :: u in st.born && st.mirrors[u].origin == st.born[u])
    && (forall u <- st.born :: st.born[u] in st.cells)
  }

  ghost predicate Inv(cfg: Config, st: State) {
    && Separate(st) && Labelled(st)
    && forall k <- st.cells :: CellOk(cfg, st.cells[k], Mine(st, k), Standing(st, k), st.next)
  }

  // ------------------------------------------------------------- one cell

  lemma CellWeakens(cfg: Config, c: Cell, mine: set<Uid>, standing: set<Uid>, next: Uid, standing': set<Uid>,
                    next': Uid)
    requires CellOk(cfg, c, mine, standing, next) && standing' <= standing && next <= next'
    ensures CellOk(cfg, c, mine, standing', next')
  {}

  lemma KnowsMore(h: seq<Option<Svc>>, v: Option<Svc>, n: int, u: Uid)
    requires Knows(h, n, u)
    ensures Knows(h + [v], n, u)
  {
    var i :| i <= n && Is(h, i, u);
    assert Is(h + [v], i, u);
  }

  lemma IsAppended(h: seq<Option<Svc>>, v: Option<Svc>, i: int, u: Uid)
    ensures Is(h + [v], i, u) <==> Is(h, i, u) || (i == |h| && v.Some? && v.value.uid == u)
  {}

  /** The next version is gone, the same incarnation, or a fresh one. */
  ghost predicate Succeeds(c: Cell, v: Option<Svc>, next: Uid) {
    v.None? || Live(c, v.value.uid) || v.value.uid == next
  }

  lemma ContiguousAppend(c: Cell, v: Option<Svc>, next: Uid)
    requires Contiguous(c.hist) && Succeeds(c, v, next) && forall i, u: Uid | Is(c.hist, i, u) :: u < next
    ensures Contiguous(c.hist + [v])
  {
    var h := c.hist + [v];
    forall i, j, m, u | Is(h, i, u) && Is(h, j, u) && i <= m <= j ensures Is(h, m, u) {
      IsAppended(c.hist, v, i, u);
      IsAppended(c.hist, v, j, u);
      IsAppended(c.hist, v, m, u);
      if j == |c.hist| && m < |c.hist| && i < |c.hist| {
        assert Is(c.hist, |c.hist| - 1, u);
      }
    }
  }

  lemma CopyAppend(c: Cell, v: Option<Svc>, w: Worker, seen: nat, mine: set<Uid>)
    requires CopyOk(c, seen, mine)
    ensures CopyOk(Append(c, v, w), seen, mine)
  {
    forall u <- mine ensures Knows(c.hist + [v], seen, u) { KnowsMore(c.hist, v, seen, u); }
    if c.hist[seen].Some? { KnowsMore(c.hist, v, c.cache, c.hist[seen].value.uid); }
  }

  lemma WorkerAppend(cfg: Config, c: Cell, v: Option<Svc>, mine: set<Uid>, standing: set<Uid>)
    requires WorkerOk(cfg, c, mine, standing)
    ensures WorkerOk(cfg, Append(c, v, c.worker), mine, standing)
  {
    match c.worker
    case Sweep(seen) => CopyAppend(c, v, c.worker, seen, mine);
    case Reap(seen, todo, _) =>
      CopyAppend(c, v, c.worker, seen, mine);
      forall u ensures Is(c.hist + [v], seen, u) <==> Is(c.hist, seen, u) { IsAppended(c.hist, v, seen, u); }
    case Mirroring(seen, _) =>
      CopyAppend(c, v, c.worker, seen, mine);
      forall u ensures Is(c.hist + [v], seen, u) <==> Is(c.hist, seen, u) { IsAppended(c.hist, v, seen, u); }
    case _ =>
  }

  /** Whoever writes version `v`, a cell whose worker is fine afterwards stays fine. */
  lemma CellAppend(cfg: Config, c: Cell, v: Option<Svc>, w: Worker, mine: set<Uid>, standing: set<Uid>, next: Uid,
                   next': Uid)
    requires CellOk(cfg, c, mine, standing, next) && next <= next'
    requires Succeeds(c, v, next) && (v.Some? ==> v.value.uid < next')
    requires WorkerOk(cfg, Append(c, v, w), mine, standing)
    ensures CellOk(cfg, Append(c, v, w), mine, standing, next')
  {
    ContiguousAppend(c, v, next);
    forall u <- mine ensures Knows(c.hist + [v], c.cache, u) { KnowsMore(c.hist, v, c.cache, u); }
    forall i, u: Uid | Is(c.hist + [v], i, u) ensures u < next' { IsAppended(c.hist, v, i, u); }
  }

  lemma CellSync(cfg: Config, c: Cell, version: nat, mine: set<Uid>, standing: set<Uid>, next: Uid)
    requires CellOk(cfg, c, mine, standing, next) && c.cache <= version < |c.hist|
    ensures CellOk(cfg, c.(cache := version), mine, standing, next)
  {
    forall u | Knows(c.hist, c.cache, u) ensures Knows(c.hist, version, u) {
      var i :| i <= c.cache && Is(c.hist, i, u);
    }
  }

  lemma CellStart(cfg: Config, c: Cell, answer: Answer, mine: set<Uid>, standing: set<Uid>, next: Uid)
    requires CellOk(cfg, c, mine, standing, next) && Answers(answer, c.hist[c.cache])
    ensures CellOk(cfg, c.(worker := MirrorProtocol.Route(cfg, answer, c.cache)), mine, standing, next)
  {
    if c.hist[c.cache].Some? { assert Is(c.hist, c.cache, c.hist[c.cache].value.uid); }
  }

  /** A sweep never lists the incarnation that is live now: its copy is not older than that one's mirror. */
  lemma SweepSparesLive(c: Cell, seen: nat, mine: set<Uid>, u: Uid)
    requires Contiguous(c.hist) && CopyOk(c, seen, mine) && u in mine && !Is(c.hist, seen, u)
    ensures !Live(c, u)
  {
    var i :| i <= seen && Is(c.hist, i, u);
    assert Live(c, u) ==> Is(c.hist, seen, u);
  }

  lemma CellAddFinalizer(cfg: Config, c: Cell, mine: set<Uid>, standing: set<Uid>, next: Uid)
    requires CellOk(cfg, c, mine, standing, next) && c.worker.Ensure? && c.worker.seen == |c.hist| - 1
    ensures CellOk(cfg, Append(c, Some(c.hist[c.worker.seen].value.(cleanup := true, legacy := false)),
            Sweep(|c.hist|)),
                   mine, standing, next)
  {
    var s := c.hist[c.worker.seen].value;
    var v := Some(s.(cleanup := true, legacy := false));
    assert Is(c.hist, c.worker.seen, s.uid);
    assert Knows(c.hist, c.cache, s.uid);
    KnowsMore(c.hist, v, c.cache, s.uid);
    forall u <- mine ensures Knows(c.hist + [v], |c.hist|, u) {
      KnowsMore(c.hist, v, c.cache, u);
      var i :| i <= c.cache && Is(c.hist + [v], i, u);
      assert i <= |c.hist|;
    }
    CellAppend(cfg, c, v, Sweep(|c.hist|), mine, standing, next, next);
  }

  lemma CellCreate(cfg: Config, c: Cell, mine: set<Uid>, standing: set<Uid>, next: Uid)
    requires CellOk(cfg, c, mine, standing, next) && c.worker.Mirroring?
    ensures var u := c.hist[c.worker.seen].value.uid;
            CellOk(cfg, c.(worker := Done(c.worker.seen, c.worker.upToDate)), mine + {u}, standing + {u}, next)
  {}

  lemma CellReap(cfg: Config, c: Cell, u: Uid, mine: set<Uid>, standing: set<Uid>, next: Uid)
    requires CellOk(cfg, c, mine, standing, next) && c.worker.Reap?
    ensures CellOk(cfg, c.(worker := c.worker.(todo := c.worker.todo - {u})), mine, standing - {u}, next)
  {}

  lemma CellList(cfg: Config, c: Cell, listed: set<Uid>, upToDate: bool, mine: set<Uid>, standing: set<Uid>, next: Uid)
    requires CellOk(cfg, c, mine, standing, next) && c.worker.Sweep? && listed <= mine
             && (upToDate ==> standing <= listed)
    ensures CellOk(cfg, c.(worker := Reap(c.worker.seen, listed - Spared(c, c.worker.seen), upToDate)), mine, standing,
            next)
  {}

  // ------------------------------------------------------------- the whole system

  lemma CondemnOnlyMarks(mirrors: map<Uid, Mirror>, u: Uid)
    ensures Condemn(mirrors, u).Keys == mirrors.Keys
    ensures forall v <- mirrors :: Condemn(mirrors, u)[v].origin == mirrors[v].origin
                                   && (mirrors[v].deleting ==> Condemn(mirrors, u)[v].deleting)
  {}

  lemma StandingShrinks(st: State, u: Uid, k: Key)
    ensures Standing(st.(mirrors := Condemn(st.mirrors, u)), k) == Standing(st, k) - {u}
  {}

  /** A step that only replaces one cell and condemns or purges mirrors is judged by that cell alone. */
  lemma OneCell(cfg: Config, st: State, k: Key, c: Cell, mirrors: map<Uid, Mirror>, next: Uid)
    requires Inv(cfg, st) && k in st.cells && st.next <= next
    requires mirrors.Keys <= st.mirrors.Keys
    requires forall u <- mirrors ::
               mirrors[u].origin == st.mirrors[u].origin && (st.mirrors[u].deleting ==> mirrors[u].deleting)
    requires CellOk(cfg, c, Mine(st, k), Standing(st.(mirrors := mirrors), k), next)
    requires Separate(SetCell(st, k, c))
    ensures Inv(cfg, SetCell(st, k, c).(mirrors := mirrors, next := next))
  {
    var st' := SetCell(st, k, c).(mirrors := mirrors, next := next);
    forall k' <- st'.cells ensures CellOk(cfg, st'.cells[k'], Mine(st', k'), Standing(st', k'), next) {
      assert Mine(st', k') == Mine(st, k');
      assert Standing(st', k') == Standing(st.(mirrors := mirrors), k') <= Standing(st, k');
      if k' != k { CellWeakens(cfg, st.cells[k'], Mine(st, k'), Standing(st, k'), st.next, Standing(st', k'), next); }
    }
  }

  lemma SeparateSame(st: State, k: Key, c: Cell)
    requires Separate(st) && k in st.cells && c.hist == st.cells[k].hist
    ensures Separate(SetCell(st, k, c))
  {
    var st' := SetCell(st, k, c);
    assert forall k' <- st'.cells :: st'.cells[k'].hist == st.cells[k'].hist;
  }

  lemma SeparateAppend(cfg: Config, st: State, k: Key, v: Option<Svc>, w: Worker)
    requires Inv(cfg, st) && k in st.cells && Succeeds(st.cells[k], v, st.next)
    ensures Separate(SetCell(st, k, Append(st.cells[k], v, w)))
  {
    var st' := SetCell(st, k, Append(st.cells[k], v, w));
    forall k1, k2, i, j, u | k1 in st'.cells && k2 in st'.cells && Is(st'.cells[k1].hist, i, u)
      && Is(st'.cells[k2].hist, j, u)
      ensures k1 == k2
    {
      IsAppended(st.cells[k].hist, v, i, u);
      IsAppended(st.cells[k].hist, v, j, u);
    }
  }

  lemma AppendKeepsInv(cfg: Config, st: State, k: Key, v: Option<Svc>, next: Uid)
    requires Inv(cfg, st) && k in st.cells && Succeeds(st.cells[k], v, st.next)
    requires st.next <= next && (v.Some? ==> v.value.uid < next)
    ensures Inv(cfg, SetCell(st, k, Append(st.cells[k], v, st.cells[k].worker)).(next := next))
  {
    var c := st.cells[k];
    WorkerAppend(cfg, c, v, Mine(st, k), Standing(st, k));
    CellAppend(cfg, c, v, c.worker, Mine(st, k), Standing(st, k), st.next, next);
    SeparateAppend(cfg, st, k, v, c.worker);
    OneCell(cfg, st, k, Append(c, v, c.worker), st.mirrors, next);
  }

  lemma UserStepKeepsInv(cfg: Config, st: State, ev: Event, st': State)
    requires Inv(cfg, st) && UserStep(st, ev, st')
    ensures Inv(cfg, st')
  {
    var c := st.cells[ev.k];
    match ev
    case Create(k, s) => AppendKeepsInv(cfg, st, k, Some(s), st.next + 1);
    case Edit(k, s) =>
      assert Live(c, s.uid);
      AppendKeepsInv(cfg, st, k, Settle(s), st.next);
    case Delete(k) =>
      assert Live(c, Now(c).value.uid);
      AppendKeepsInv(cfg, st, k, Settle(Now(c).value.(deleting := true)), st.next);
    case ForceRemove(k) =>
      assert Live(c, Now(c).value.uid);
      AppendKeepsInv(cfg, st, k, Settle(Now(c).value.(cleanup := false, legacy := false)), st.next);
  }

  lemma WorkerKeepsInv(cfg: Config, st: State, k: Key, w: Worker, mirrors: map<Uid, Mirror>)
    requires Inv(cfg, st) && k in st.cells && mirrors.Keys <= st.mirrors.Keys
    requires forall u <- mirrors ::
               mirrors[u].origin == st.mirrors[u].origin && (st.mirrors[u].deleting ==> mirrors[u].deleting)
    requires CellOk(cfg, st.cells[k].(worker := w), Mine(st, k), Standing(st.(mirrors := mirrors), k), st.next)
    ensures Inv(cfg, SetCell(st, k, st.cells[k].(worker := w)).(mirrors := mirrors))
  {
    SeparateSame(st, k, st.cells[k].(worker := w));
    OneCell(cfg, st, k, st.cells[k].(worker := w), mirrors, st.next);
  }

  lemma CrashKeepsInv(cfg: Config, st: State, st': State)
    requires Inv(cfg, st) && EnvironmentStep(st, Crash, st')
    ensures Inv(cfg, st')
  {
    forall k <- st'.cells ensures CellOk(cfg, st'.cells[k], Mine(st', k), Standing(st', k), st'.next) {
      var c := st.cells[k];
      CellSync(cfg, c, st'.cells[k].cache, Mine(st, k), Standing(st, k), st.next);
      assert Mine(st', k) == Mine(st, k) && Standing(st', k) == Standing(st, k);
    }
  }

  lemma EnvironmentStepKeepsInv(cfg: Config, st: State, ev: Event, st': State)
    requires Inv(cfg, st) && EnvironmentStep(st, ev, st')
    ensures Inv(cfg, st')
  {
    match ev
    case Sync(k, version) =>
      var c := st.cells[k].(cache := version);
      CellSync(cfg, st.cells[k], version, Mine(st, k), Standing(st, k), st.next);
      SeparateSame(st, k, c);
      OneCell(cfg, st, k, c, st.mirrors, st.next);
    case Purge(u) =>
      forall k <- st.cells ensures Standing(st', k) == Standing(st, k) && Mine(st', k) == Mine(st, k) {}
    case Crash => CrashKeepsInv(cfg, st, st');
    case Abort(k) => WorkerKeepsInv(cfg, st, k, Idle, st.mirrors);
  }

  lemma StartKeepsInv(cfg: Config, st: State, k: Key, answer: Answer, st': State)
    requires Inv(cfg, st) && FinalizerStep(cfg, st, Start(k, answer), st')
    ensures Inv(cfg, st')
  {
    var c := st.cells[k];
    CellStart(cfg, c, answer, Mine(st, k), Standing(st, k), st.next);
    WorkerKeepsInv(cfg, st, k, MirrorProtocol.Route(cfg, answer, c.cache), st.mirrors);
  }

  lemma DeleteMirrorKeepsInv(cfg: Config, st: State, k: Key, st': State)
    requires Inv(cfg, st) && FinalizerStep(cfg, st, DeleteMirror(k), st')
    ensures Inv(cfg, st')
  {
    var c := st.cells[k];
    var u := c.hist[c.worker.seen].value.uid;
    StandingShrinks(st, u, k);
    CellWeakens(cfg, c, Mine(st, k), Standing(st, k), st.next, Standing(st, k) - {u}, st.next);
    CondemnOnlyMarks(st.mirrors, u);
    WorkerKeepsInv(cfg, st, k, Unfinalize(c.worker.seen), Condemn(st.mirrors, u));
  }

  lemma RemoveFinalizerKeepsInv(cfg: Config, st: State, k: Key, st': State)
    requires Inv(cfg, st) && FinalizerStep(cfg, st, RemoveFinalizer(k), st')
    ensures Inv(cfg, st')
  {
    var c := st.cells[k];
    var s := c.hist[c.worker.seen].value;
    var v := Settle(s.(cleanup := false, legacy := false));
    assert Live(c, s.uid);
    CellAppend(cfg, c, v, Idle, Mine(st, k), Standing(st, k), st.next, st.next);
    SeparateAppend(cfg, st, k, v, Idle);
    OneCell(cfg, st, k, Append(c, v, Idle), st.mirrors, st.next);
  }

  lemma AddFinalizerKeepsInv(cfg: Config, st: State, k: Key, st': State)
    requires Inv(cfg, st) && FinalizerStep(cfg, st, AddFinalizer(k), st')
    ensures Inv(cfg, st')
  {
    var c := st.cells[k];
    var s := c.hist[c.worker.seen].value;
    var v := Some(s.(cleanup := true, legacy := false));
    assert Live(c, s.uid);
    CellAddFinalizer(cfg, c, Mine(st, k), Standing(st, k), st.next);
    SeparateAppend(cfg, st, k, v, Sweep(|c.hist|));
    OneCell(cfg, st, k, Append(c, v, Sweep(|c.hist|)), st.mirrors, st.next);
  }

  lemma ListKeepsInv(cfg: Config, st: State, k: Key, listed: set<Uid>, upToDate: bool, st': State)
    requires Inv(cfg, st) && MirrorStep(st, List(k, listed, upToDate), st')
    ensures Inv(cfg, st')
  {
    var c := st.cells[k];
    var w := Reap(c.worker.seen, listed - Spared(c, c.worker.seen), upToDate);
    CellList(cfg, c, listed, upToDate, Mine(st, k), Standing(st, k), st.next);
    WorkerKeepsInv(cfg, st, k, w, st.mirrors);
  }

  lemma ReapOneKeepsInv(cfg: Config, st: State, k: Key, u: Uid, st': State)
    requires Inv(cfg, st) && MirrorStep(st, ReapOne(k, u), st')
    ensures Inv(cfg, st')
  {
    StandingShrinks(st, u, k);
    CellReap(cfg, st.cells[k], u, Mine(st, k), Standing(st, k), st.next);
    CondemnOnlyMarks(st.mirrors, u);
    WorkerKeepsInv(cfg, st, k, st.cells[k].worker.(todo := st.cells[k].worker.todo - {u}), Condemn(st.mirrors, u));
  }

  lemma SweptKeepsInv(cfg: Config, st: State, ev: Event, st': State)
    requires Inv(cfg, st) && MirrorStep(st, ev, st') && (ev.ReapDone? || ev.FindMirror?)
    ensures Inv(cfg, st')
  {
    assert st'.cells[ev.k].hist == st.cells[ev.k].hist;
    WorkerKeepsInv(cfg, st, ev.k, st'.cells[ev.k].worker, st.mirrors);
  }

  /** A UID read from one origin's history was never another origin's. */
  lemma BornHere(cfg: Config, st: State, k: Key, i: nat, u: Uid)
    requires Inv(cfg, st) && k in st.cells && Is(st.cells[k].hist, i, u) && u in st.born
    ensures st.born[u] == k
  {
    var k' := st.born[u];
    assert u in Mine(st, k') && Knows(st.cells[k'].hist, st.cells[k'].cache, u);
  }

  function Bear(st: State, k: Key, u: Uid): State {
    st.(mirrors := st.mirrors[u := Mirror(k, false)], born := st.born[u := k])
  }

  lemma BirthSets(st: State, k: Key, u: Uid, k': Key)
    requires u !in st.mirrors && (u in st.born ==> st.born[u] == k)
    ensures Mine(Bear(st, k, u), k') == Mine(st, k') + if k' == k then {u} else {}
    ensures Standing(Bear(st, k, u), k') == Standing(st, k') + if k' == k then {u} else {}
  {}

  lemma CellSame(cfg: Config, c: Cell, mine: set<Uid>, standing: set<Uid>, mine': set<Uid>, standing': set<Uid>,
                 next: Uid)
    requires CellOk(cfg, c, mine, standing, next) && mine' == mine + {} && standing' == standing + {}
    ensures CellOk(cfg, c, mine', standing', next)
  {
    assert mine' == mine && standing' == standing;
  }

  lemma BirthKeepsInv(cfg: Config, st: State, k: Key, u: Uid)
    requires Inv(cfg, st) && k in st.cells && u !in st.mirrors && (u in st.born ==> st.born[u] == k)
    requires CellOk(cfg, st.cells[k], Mine(st, k) + {u}, Standing(st, k) + {u}, st.next)
    ensures Inv(cfg, Bear(st, k, u))
  {
    var st' := Bear(st, k, u);
    forall k' <- st'.cells ensures CellOk(cfg, st'.cells[k'], Mine(st', k'), Standing(st', k'), st'.next) {
      BirthSets(st, k, u, k');
      if k' != k {
        CellSame(cfg, st.cells[k'], Mine(st, k'), Standing(st, k'), Mine(st', k'), Standing(st', k'), st.next);
      }
    }
  }

  lemma CreateKeepsInv(cfg: Config, st: State, k: Key, st': State)
    requires Inv(cfg, st) && MirrorStep(st, CreateMirror(k), st')
    ensures Inv(cfg, st')
  {
    var c := st.cells[k];
    var u, w := c.hist[c.worker.seen].value.uid, Done(c.worker.seen, c.worker.upToDate);
    if u in st.born { BornHere(cfg, st, k, c.worker.seen, u); }
    CellCreate(cfg, c, Mine(st, k), Standing(st, k), st.next);
    var st1 := SetCell(st, k, c.(worker := w));
    WorkerKeepsInv(cfg, st, k, w, st.mirrors);
    assert Mine(st1, k) == Mine(st, k) && Standing(st1, k) == Standing(st, k);
    BirthKeepsInv(cfg, st1, k, u);
  }

  lemma FinalizerStepKeepsInv(cfg: Config, st: State, ev: Event, st': State)
    requires Inv(cfg, st) && FinalizerStep(cfg, st, ev, st')
    ensures Inv(cfg, st')
  {
    match ev
    case Start(k, answer) => StartKeepsInv(cfg, st, k, answer, st');
    case DeleteMirror(k) => DeleteMirrorKeepsInv(cfg, st, k, st');
    case RemoveFinalizer(k) => RemoveFinalizerKeepsInv(cfg, st, k, st');
    case AddFinalizer(k) => AddFinalizerKeepsInv(cfg, st, k, st');
  }

  lemma MirrorStepKeepsInv(cfg: Config, st: State, ev: Event, st': State)
    requires Inv(cfg, st) && MirrorStep(st, ev, st')
    ensures Inv(cfg, st')
  {
    match ev
    case List(k, listed, upToDate) => ListKeepsInv(cfg, st, k, listed, upToDate, st');
    case ReapOne(k, u) => ReapOneKeepsInv(cfg, st, k, u, st');
    case ReapDone(k) => SweptKeepsInv(cfg, st, ev, st');
    case FindMirror(k, _) => SweptKeepsInv(cfg, st, ev, st');
    case CreateMirror(k) => CreateKeepsInv(cfg, st, k, st');
  }

  lemma StepKeepsInv(cfg: Config, st: State, ev: Event, st': State)
    requires Inv(cfg, st) && Next(cfg, st, ev, st')
    ensures Inv(cfg, st')
  {
    if UserStep(st, ev, st') {
      UserStepKeepsInv(cfg, st, ev, st');
    } else if EnvironmentStep(st, ev, st') {
      EnvironmentStepKeepsInv(cfg, st, ev, st');
    } else if FinalizerStep(cfg, st, ev, st') {
      FinalizerStepKeepsInv(cfg, st, ev, st');
    } else {
      MirrorStepKeepsInv(cfg, st, ev, st');
    }
  }
}
