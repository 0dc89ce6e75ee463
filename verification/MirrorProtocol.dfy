/**
 The tenant-to-management mirror protocol of the Service controller, one API call per step.

 Each origin (namespace/name) has a history of versions, `None` while it does not exist. The
 controller reads through an informer cache that lags behind but never goes back, updates with
 optimistic concurrency, and runs at most one reconciliation per origin at a time. Between any
 two calls users act, caches catch up, or the controller crashes.
 */
module MirrorProtocol {
  import opened Api

  type Key = (string, string)

  /** UIDs are never reused: each creation draws the next one. */
  type Uid = nat

  datatype Spec = Spec(serviceType: string, loadBalancerClass: Option<string>)

  datatype Config = Config(useLoadBalancerClass: bool)

  /** `foreign` stands for finalizers other than the controller's current and legacy ones. */
  datatype Svc = Svc(uid: Uid, spec: Spec, cleanup: bool, legacy: bool, foreign: bool, deleting: bool)

  /** A LoadBalancer in the management cluster, named after a UID and labelled with its origin. */
  datatype Mirror = Mirror(origin: Key, deleting: bool)

  /**
   Where a reconciliation stands; `seen` is the version its copy of the Service is.
   `upToDate` records that the management cluster's answers were up to date.
   */
  datatype Worker =
    | Idle
    | Cleanup(seen: nat)
    | Unfinalize(seen: nat)
    | Ensure(seen: nat)
    | Sweep(seen: nat)
    | Reap(seen: nat, todo: set<Uid>, upToDate: bool)
    | Mirroring(seen: nat, upToDate: bool)
    | Done(seen: nat, upToDate: bool)

  datatype Cell = Cell(hist: seq<Option<Svc>>, cache: nat, worker: Worker)

  /** `born` remembers the origin of every mirror ever created. */
  datatype State = State(cells: map<Key, Cell>, mirrors: map<Uid, Mirror>, born: map<Uid, Key>, next: Uid)

  predicate ShouldReconcile(cfg: Config, spec: Spec) {
    spec.serviceType == "LoadBalancer" && (cfg.useLoadBalancerClass ==> spec.loadBalancerClass == Some("kubelb"))
  }

  predicate HasCleanupFinalizer(s: Svc) { s.cleanup || s.legacy }

  predicate InScope(cfg: Config, s: Svc) { !s.deleting && ShouldReconcile(cfg, s.spec) }

  /** A deleting object without finalizers is gone. */
  function Settle(s: Svc): Option<Svc> {
    if s.deleting && !s.cleanup && !s.legacy && !s.foreign then None else Some(s)
  }

  function Now(c: Cell): Option<Svc>
    requires c.hist != []
  {
    c.hist[|c.hist| - 1]
  }

  /** Version `i` is an incarnation with UID `u`. */
  predicate Is(h: seq<Option<Svc>>, i: int, u: Uid) {
    0 <= i < |h| && h[i].Some? && h[i].value.uid == u
  }

  ghost predicate Live(c: Cell, u: Uid) { Is(c.hist, |c.hist| - 1, u) }

  // ------------------------------------------------------------- steps

  /** What `Get` answers about a Service. */
  datatype Answer = Found(s: Svc) | Gone | Failed

  datatype Event =
    | Create(k: Key, s: Svc)
    | Edit(k: Key, s: Svc)
    | Delete(k: Key)
    | ForceRemove(k: Key)
    | Sync(k: Key, version: nat)
    | Purge(u: Uid)
    | Crash
    | Abort(k: Key)
    | Start(k: Key, answer: Answer)
    | DeleteMirror(k: Key)
    | RemoveFinalizer(k: Key)
    | AddFinalizer(k: Key)
    | List(k: Key, listed: set<Uid>, upToDate: bool)
    | ReapOne(k: Key, u: Uid)
    | ReapDone(k: Key)
    | FindMirror(k: Key, upToDate: bool)
    | CreateMirror(k: Key)

  function Append(c: Cell, v: Option<Svc>, w: Worker): Cell {
    c.(hist := c.hist + [v], worker := w)
  }

  function SetCell(st: State, k: Key, c: Cell): State {
    st.(cells := st.cells[k := c])
  }

  /** `Delete` on a mirror by name: present ones are marked, absent ones answer NotFound, which is fine. */
  function Condemn(mirrors: map<Uid, Mirror>, u: Uid): map<Uid, Mirror> {
    if u in mirrors then mirrors[u := mirrors[u].(deleting := true)] else mirrors
  }

  /** A Service that could not be read is swept for only if it is gone; a failed read ends the reconciliation. */
  function HandleMissing(answer: Answer, seen: nat): Worker
    requires !answer.Found?
  {
    if answer.Failed? then Idle else Sweep(seen)
  }

  /** What the answer to the first read makes a reconciliation do. */
  function Route(cfg: Config, answer: Answer, seen: nat): Worker {
    if !answer.Found? then HandleMissing(answer, seen)
    else if !InScope(cfg, answer.s) then (if HasCleanupFinalizer(answer.s) then Cleanup(seen) else Idle)
    else if answer.s.cleanup then Sweep(seen) else Ensure(seen)
  }

  /** A read fails, or answers with what the cache holds. */
  predicate Answers(answer: Answer, v: Option<Svc>) {
    match answer
    case Failed => true
    case Gone => v.None?
    case Found(s) => v == Some(s)
  }

  /** The UID the sweep spares: that of the copy, if the Service was found. */
  function Spared(c: Cell, seen: nat): set<Uid>
    requires seen < |c.hist|
  {
    match c.hist[seen]
    case None => {}
    case Some(s) => {s.uid}
  }

  /** The names of listed mirrors other than that of the live Service; `None` means the Service is gone. */
  method StaleMirrorNames(listed: seq<Uid>, live: Option<Uid>) returns (stale: seq<Uid>)
    ensures forall u :: u in stale <==> u in listed && live != Some(u)
    ensures |stale| <= |listed|
  {
    stale := [];
    for i := 0 to |listed|
      invariant |stale| <= i && forall u :: u in stale <==> u in listed[..i] && live != Some(u)
    {
      if live != Some(listed[i]) {
        stale := stale + [listed[i]];
      }
    }
  }

  ghost predicate UserStep(st: State, ev: Event, st': State) {
    match ev
    case Create(k, s) =>
      && k in st.cells && st.cells[k].hist != [] && Now(st.cells[k]).None?
      && s.uid == st.next && !s.deleting
      && st' == SetCell(st, k, Append(st.cells[k], Some(s), st.cells[k].worker)).(next := st.next + 1)
    case Edit(k, s) =>
      && k in st.cells && st.cells[k].hist != [] && Now(st.cells[k]).Some?
      && var o := Now(st.cells[k]).value;
      && s.uid == o.uid && s.deleting == o.deleting && (o.cleanup ==> s.cleanup) && (o.legacy ==> s.legacy)
      && st' == SetCell(st, k, Append(st.cells[k], Settle(s), st.cells[k].worker))
    case Delete(k) =>
      && k in st.cells && st.cells[k].hist != [] && Now(st.cells[k]).Some?
      && st' == SetCell(st, k,
        Append(st.cells[k], Settle(Now(st.cells[k]).value.(deleting := true)), st.cells[k].worker))
    case ForceRemove(k) =>
      && k in st.cells && st.cells[k].hist != [] && Now(st.cells[k]).Some?
      && st' == SetCell(st, k, Append(st.cells[k], Settle(Now(st.cells[k]).value.(cleanup := false, legacy := false)),
                                      st.cells[k].worker))
    case _ => false
  }

  /** A restarted controller forgets its work; its cache starts at any version that is not older than before. */
  ghost predicate Restarted(c: Cell, c': Cell) {
    c.cache <= c'.cache < |c.hist| && c' == c.(worker := Idle, cache := c'.cache)
  }

  ghost predicate EnvironmentStep(st: State, ev: Event, st': State) {
    match ev
    case Sync(k, version) =>
      && k in st.cells && st.cells[k].cache < version < |st.cells[k].hist|
      && st' == SetCell(st, k, st.cells[k].(cache := version))
    case Purge(u) =>
      u in st.mirrors && st.mirrors[u].deleting && st' == st.(mirrors := st.mirrors - {u})
    case Crash =>
      && st' == st.(cells := st'.cells) && st'.cells.Keys == st.cells.Keys
      && forall k <- st.cells :: Restarted(st.cells[k], st'.cells[k])
    case Abort(k) =>
      k in st.cells && st' == SetCell(st, k, st.cells[k].(worker := Idle))
    case _ => false
  }

  ghost predicate FinalizerStep(cfg: Config, st: State, ev: Event, st': State) {
    match ev
    case Start(k, answer) =>
      && k in st.cells && (st.cells[k].worker.Idle? || st.cells[k].worker.Done?)
        && st.cells[k].cache < |st.cells[k].hist|
      && var c := st.cells[k];
      Answers(answer, c.hist[c.cache]) && st' == SetCell(st, k, c.(worker := Route(cfg, answer, c.cache)))
    case DeleteMirror(k) =>
      && k in st.cells && st.cells[k].worker.Cleanup?
      && var c := st.cells[k];
      && c.worker.seen < |c.hist| && c.hist[c.worker.seen].Some?
      && st' == SetCell(st, k, c.(worker := Unfinalize(c.worker.seen)))
                .(mirrors := Condemn(st.mirrors, c.hist[c.worker.seen].value.uid))
    case RemoveFinalizer(k) =>
      && k in st.cells && st.cells[k].worker.Unfinalize?
      && var c := st.cells[k];
      && c.worker.seen == |c.hist| - 1 && c.hist[c.worker.seen].Some?
      && st' == SetCell(st, k, Append(c, Settle(c.hist[c.worker.seen].value.(cleanup := false, legacy := false)), Idle))
    case AddFinalizer(k) =>
      && k in st.cells && st.cells[k].worker.Ensure?
      && var c := st.cells[k];
      && c.worker.seen == |c.hist| - 1 && c.hist[c.worker.seen].Some?
      && st' == SetCell(st, k,
        Append(c, Some(c.hist[c.worker.seen].value.(cleanup := true, legacy := false)), Sweep(|c.hist|)))
    case _ => false
  }

  /** The sweep of stale mirrors and the creation of the live one. */
  ghost predicate MirrorStep(st: State, ev: Event, st': State) {
    match ev
    case List(k, listed, upToDate) =>
      && k in st.cells && st.cells[k].worker.Sweep? && st.cells[k].worker.seen < |st.cells[k].hist|
      && var c := st.cells[k];
      && (forall u <- listed :: u in st.born && st.born[u] == k)
      && (upToDate ==> forall u <- st.mirrors | st.mirrors[u].origin == k :: u in listed)
      && st' == SetCell(st, k, c.(worker := Reap(c.worker.seen, listed - Spared(c, c.worker.seen), upToDate)))
    case ReapOne(k, u) =>
      && k in st.cells && st.cells[k].worker.Reap? && u in st.cells[k].worker.todo
      && var c := st.cells[k];
      st' == SetCell(st, k, c.(worker := c.worker.(todo := c.worker.todo - {u}))).(mirrors := Condemn(st.mirrors, u))
    case ReapDone(k) =>
      && k in st.cells && st.cells[k].worker.Reap? && st.cells[k].worker.todo == {}
      && var c := st.cells[k];
      && c.worker.seen < |c.hist|
      && st' == SetCell(st, k, c.(worker := if c.hist[c.worker.seen].None? then Done(c.worker.seen, c.worker.upToDate)
                                            else Mirroring(c.worker.seen, c.worker.upToDate)))
    case FindMirror(k, upToDate) =>
      && k in st.cells && st.cells[k].worker.Mirroring?
      && var c := st.cells[k];
      && c.worker.seen < |c.hist| && c.hist[c.worker.seen].Some?
      && (upToDate ==> c.hist[c.worker.seen].value.uid in st.mirrors)
      && st' == SetCell(st, k, c.(worker := Done(c.worker.seen, c.worker.upToDate && upToDate)))
    case CreateMirror(k) =>
      && k in st.cells && st.cells[k].worker.Mirroring?
      && var c := st.cells[k];
      && c.worker.seen < |c.hist| && c.hist[c.worker.seen].Some?
      && var u := c.hist[c.worker.seen].value.uid;
      && u !in st.mirrors
      && st' == SetCell(st, k, c.(worker := Done(c.worker.seen, c.worker.upToDate)))
                .(mirrors := st.mirrors[u := Mirror(k, false)], born := st.born[u := k])
    case _ => false
  }

  ghost predicate Next(cfg: Config, st: State, ev: Event, st': State) {
    UserStep(st, ev, st') || EnvironmentStep(st, ev, st') || FinalizerStep(cfg, st, ev, st') || MirrorStep(st, ev, st')
  }

  ghost predicate Init(st: State) {
    && st.mirrors == map[] && st.born == map[]
    && forall k <- st.cells :: st.cells[k] == Cell([None], 0, Idle)
  }
}
