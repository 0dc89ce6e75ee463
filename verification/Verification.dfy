/** The two-phase verification that decides when a converted Ingress is done. */
module Verification {
  import opened Api
  import opened Lists
  import opened Separated

  /** The annotation keys the controller reads and writes, and all others. */
  datatype Key =
    | SkipConversion | ConversionStatus | ConvertedHttpRoute | ConvertedGrpcRoute | ConversionWarnings
    | VerificationTimestamp | ConversionSkipReason | NginxCanary | IngressClass | Other(name: string)

  type Annotations = map<Key, string>

  const CONVERTED := "converted"
  const PARTIAL := "partial"
  const PENDING := "pending"
  const SKIPPED := "skipped"
  const SKIP_REASON_CANARY := "canary annotations are not supported"

  /** Times are in nanoseconds. */
  const SECOND := 1_000_000_000
  const VERIFY_DELAY := 5 * SECOND

  function At(a: Annotations, k: Key): string { if k in a then a[k] else "" }

  function Truncated(t: int): int { t - t % SECOND }

  datatype Clock = Clock(format: int -> string, parse: string -> Option<int>)

  /** RFC 3339 without fractions: formatting loses what is below a second, parsing gives the rest back. */
  ghost predicate Rfc3339(c: Clock) {
    forall t :: c.format(t) != "" && c.parse(c.format(t)) == Some(Truncated(t))
  }

  /** One reconciliation: the Ingress as first read, what became of its routes, and the two clock readings. */
  datatype Pass = Pass(seen: Annotations, className: Option<string>, acceptance: map<string, bool>,
                       warnings: seq<string>,
                       timedOut: bool, httpRoutes: seq<string>, grpcRoutes: seq<string>, decidedAt: int, stampedAt: int)

  // ------------------------------------------------------------- decisions

  datatype Verdict = Convert | Skip | SkipCanary

  function ShouldConvert(ingressClass: string, className: Option<string>, a: Annotations): Verdict {
    if At(a, SkipConversion) == "true" then Skip
    else if At(a, ConversionStatus) == CONVERTED || At(a, ConversionStatus) == PARTIAL then Skip
    else if At(a, NginxCanary) == "true" then SkipCanary
    else if ingressClass != "" && (if className.Some? then className.value else At(a, IngressClass)) != ingressClass
      then Skip
    else Convert
  }

  datatype Decision = Decision(status: string, requeue: bool, clearVerifyTime: bool)

  predicate AllAccepted(acceptance: map<string, bool>) { forall r <- acceptance :: acceptance[r] }

  /** Every route was accepted in this pass. */
  predicate Good(p: Pass) { AllAccepted(p.acceptance) && !p.timedOut }

  function DetermineConversionStatus(c: Clock, current: Annotations, p: Pass): Decision {
    if p.timedOut then Decision(PENDING, true, true)
    else if !AllAccepted(p.acceptance) then Decision(PARTIAL, false, true)
    else
      var verifyTime := At(current, VerificationTimestamp);
      if verifyTime == "" || c.parse(verifyTime).None? then Decision(PENDING, true, false)
      else if p.decidedAt - c.parse(verifyTime).value < VERIFY_DELAY then Decision(PENDING, true, false)
      else Decision(if p.warnings != [] then PARTIAL else CONVERTED, false, true)
  }

  /** The verification timestamp after a pass. */
  function Stamp(c: Clock, a: Annotations, p: Pass): string {
    if DetermineConversionStatus(c, a, p).clearVerifyTime then ""
    else if At(a, VerificationTimestamp) == "" then c.format(p.stampedAt)
    else At(a, VerificationTimestamp)
  }

  /** The annotations an update is to leave, key by key. */
  ghost predicate Updated(c: Clock, a: Annotations, p: Pass, a': Annotations) {
    && At(a', ConversionStatus) == DetermineConversionStatus(c, a, p).status
    && At(a', VerificationTimestamp) == Stamp(c, a, p)
    && At(a', ConversionWarnings) == Join("; ", p.warnings)
    && At(a', ConvertedHttpRoute) == Join(",", p.httpRoutes)
    && At(a', ConvertedGrpcRoute) == Join(",", p.grpcRoutes)
    && forall k | k !in {ConversionStatus, VerificationTimestamp, ConversionWarnings, ConvertedHttpRoute,
      ConvertedGrpcRoute} ::
         At(a', k) == At(a, k)
  }

  /** Nothing but key `k` reads differently, and that reads `v`. */
  ghost predicate OnlyChanges(a: Annotations, k: Key, v: string, a': Annotations) {
    At(a', k) == v && forall j | j != k :: At(a', j) == At(a, j)
  }

  class IngressObject {
    var annotations: Annotations

    constructor (a: Annotations)
      ensures annotations == a
    {
      annotations := a;
    }

    method SetOrClear(k: Key, sep: string, values: seq<string>)
      modifies this
      ensures OnlyChanges(old(annotations), k, Join(sep, values), annotations)
    {
      if |values| > 0 {
        annotations := annotations[k := Join(sep, values)];
      } else {
        annotations := annotations - {k};
      }
    }

    method SetStatus(status: string)
      modifies this
      ensures OnlyChanges(old(annotations), ConversionStatus, status, annotations)
    {
      annotations := annotations[ConversionStatus := status];
    }

    method SetRoutes(httpRoutes: seq<string>, grpcRoutes: seq<string>)
      modifies this
      ensures At(annotations, ConvertedHttpRoute) == Join(",", httpRoutes)
      ensures At(annotations, ConvertedGrpcRoute) == Join(",", grpcRoutes)
      ensures forall k | k !in {ConvertedHttpRoute, ConvertedGrpcRoute} :: At(annotations, k) == old(At(annotations, k))
    {
      SetOrClear(ConvertedHttpRoute, ",", httpRoutes);
      SetOrClear(ConvertedGrpcRoute, ",", grpcRoutes);
    }

    method UpdateTimestamp(c: Clock, p: Pass, clear: bool)
      modifies this
      requires clear == DetermineConversionStatus(c, annotations, p).clearVerifyTime
      ensures OnlyChanges(old(annotations), VerificationTimestamp, Stamp(c, old(annotations), p), annotations)
    {
      if clear {
        annotations := annotations - {VerificationTimestamp};
      } else if At(annotations, VerificationTimestamp) == "" {
        annotations := annotations[VerificationTimestamp := c.format(p.stampedAt)];
      }
    }

    /** `current` is this object, read again after the routes were waited for. */
    method UpdateStatusStaged(c: Clock, p: Pass) returns (requeue: bool)
      modifies this
      ensures Updated(c, old(annotations), p, annotations)
      ensures requeue == DetermineConversionStatus(c, old(annotations), p).requeue
    {
      var decision := DetermineConversionStatus(c, annotations, p);
      UpdateTimestamp(c, p, decision.clearVerifyTime);
      SetOrClear(ConversionWarnings, "; ", p.warnings);
      SetStatus(decision.status);
      SetRoutes(p.httpRoutes, p.grpcRoutes);
      return decision.requeue;
    }

    method AnnotateSkipped()
      modifies this
      ensures annotations == old(annotations)[ConversionStatus := SKIPPED][ConversionSkipReason := SKIP_REASON_CANARY]
    {
      if At(annotations, ConversionStatus) == SKIPPED && At(annotations, ConversionSkipReason) == SKIP_REASON_CANARY {
        return;
      }
      annotations := annotations[ConversionStatus := SKIPPED][ConversionSkipReason := SKIP_REASON_CANARY];
    }
  }

  // ------------------------------------------------------------- histories

  /** `Refused` is a reconciliation whose final write the API server refused. */
  datatype Event = Reconcile(pass: Pass) | Refused(pass: Pass) | Edit

  /** A pass that converts and gets its outcome written. */
  predicate Acts(ingressClass: string, ev: Event) {
    ev.Reconcile? && ShouldConvert(ingressClass, ev.pass.className, ev.pass.seen).Convert?
  }

  /**
   A reconciliation may have read an older version first; a user may change anything but never
   writes a verification timestamp.
   */
  ghost predicate Step(c: Clock, ingressClass: string, a: Annotations, ev: Event, a': Annotations) {
    match ev
    case Reconcile(p) =>
      (match ShouldConvert(ingressClass, p.className, p.seen)
       case Convert => Updated(c, a, p, a')
       case Skip => a' == a
       case SkipCanary => a' == a[ConversionStatus := SKIPPED][ConversionSkipReason := SKIP_REASON_CANARY])
    case Refused(_) => a' == a
    case Edit => At(a', VerificationTimestamp) == At(a, VerificationTimestamp) || At(a', VerificationTimestamp) == ""
  }

  ghost function Stepper(c: Clock, ingressClass: string): (Annotations, Event, Annotations) -> bool {
    (a: Annotations, ev: Event, a': Annotations) => Step(c, ingressClass, a, ev, a')
  }

  /** A history that starts without a verification timestamp. */
  ghost predicate History(c: Clock, ingressClass: string, states: seq<Annotations>, evs: seq<Event>) {
    Rfc3339(c) && Trace(Stepper(c, ingressClass), states, evs) && At(states[0], VerificationTimestamp) == ""
  }

  /** Pass `m` stamped `ts`, and no pass written between `m` and `n` saw a route that was not accepted. */
  ghost predicate StampedBy(c: Clock, ingressClass: string, evs: seq<Event>, m: int, n: int, ts: string) {
    && 0 <= m < n <= |evs| && Acts(ingressClass, evs[m]) && c.format(evs[m].pass.stampedAt) == ts
    && forall j | m <= j < n && Acts(ingressClass, evs[j]) :: Good(evs[j].pass)
  }

  /** A standing timestamp is an older one untouched by a good pass, or this pass's own. */
  lemma StampStep(c: Clock, ingressClass: string, a: Annotations, ev: Event, a': Annotations)
    requires Step(c, ingressClass, a, ev, a') && At(a', VerificationTimestamp) != ""
    ensures Acts(ingressClass, ev) ==> Good(ev.pass)
    ensures At(a', VerificationTimestamp) == At(a, VerificationTimestamp)
            || (Acts(ingressClass, ev) && At(a', VerificationTimestamp) == c.format(ev.pass.stampedAt))
  {}

  lemma {:induction false} StampHasAPass(c: Clock, ingressClass: string, states: seq<Annotations>, evs: seq<Event>,
                                         n: nat) returns (m: nat)
    requires History(c, ingressClass, states, evs) && n < |states| && At(states[n], VerificationTimestamp) != ""
    ensures StampedBy(c, ingressClass, evs, m, n, At(states[n], VerificationTimestamp))
  {
    var a, ev, a' := states[n - 1], evs[n - 1], states[n];
    assert Stepper(c, ingressClass)(a, ev, a');
    StampStep(c, ingressClass, a, ev, a');
    if Acts(ingressClass, ev) && At(a', VerificationTimestamp) == c.format(ev.pass.stampedAt) {
      m := n - 1;
    } else {
      m := StampHasAPass(c, ingressClass, states, evs, n - 1);
    }
  }

  lemma ConvertedNeedsDelay(c: Clock, a: Annotations, p: Pass, a': Annotations)
    requires Updated(c, a, p, a') && At(a', ConversionStatus) == CONVERTED
    ensures Good(p) && p.warnings == [] && At(a, VerificationTimestamp) != ""
    ensures c.parse(At(a, VerificationTimestamp)).Some?
            && p.decidedAt - c.parse(At(a, VerificationTimestamp)).value >= VERIFY_DELAY
  {}

  /**
   An Ingress is marked converted only by a pass without warnings that comes more than four
   seconds after an earlier one, every pass written from that one on having seen all routes accepted.
   */
  lemma ConvertedWasVerified(c: Clock, ingressClass: string, states: seq<Annotations>, evs: seq<Event>, n: nat)
    returns (m: nat)
    requires History(c, ingressClass, states, evs) && n < |evs| && Acts(ingressClass, evs[n])
    requires At(states[n + 1], ConversionStatus) == CONVERTED
    ensures m < n && Acts(ingressClass, evs[m])
    ensures forall j | m <= j <= n && Acts(ingressClass, evs[j]) :: Good(evs[j].pass)
    ensures evs[n].pass.warnings == [] && evs[n].pass.decidedAt - evs[m].pass.stampedAt > 4 * SECOND
  {
    assert Stepper(c, ingressClass)(states[n], evs[n], states[n + 1]);
    ConvertedNeedsDelay(c, states[n], evs[n].pass, states[n + 1]);
    m := StampHasAPass(c, ingressClass, states, evs, n);
  }

  /** The controller waits for at least one route, and names every route it waits for. */
  ghost predicate OfController(namespace: string, p: Pass) {
    var names := p.httpRoutes + p.grpcRoutes;
    && names != []
    && (forall r <- p.acceptance :: namespace + "/" + r in names)
    && (forall name <- names :: exists r :: r in p.acceptance && name == namespace + "/" + r)
  }

  /** A pass for the one HTTPRoute ns/r. */
  function OneRoute(accepted: bool, at: int): Pass {
    Pass(map[], None, map["r" := accepted], [], false, ["ns" + "/" + "r"], [], at, at)
  }

  lemma OneRouteIsOfController(accepted: bool, at: int)
    ensures OfController("ns", OneRoute(accepted, at)) && (Good(OneRoute(accepted, at)) <==> accepted)
  {
    var p := OneRoute(accepted, at);
    assert "r" in p.acceptance && p.httpRoutes + p.grpcRoutes == ["ns" + "/" + "r"];
  }

  /** The annotations after such a pass. */
  function OneRouteLeaves(status: string, stamp: string): Annotations {
    var a: Annotations := map[ConversionStatus := status, ConvertedHttpRoute := "ns" + "/" + "r"];
    if stamp == "" then a else a[VerificationTimestamp := stamp]
  }

  /**
   The rejection of a route is forgotten if the pass that saw it could not write: the stamp stands, and the next pass
   converts.
   */
  lemma RefusedWriteHidesRejection(c: Clock) returns (states: seq<Annotations>, evs: seq<Event>)
    requires Rfc3339(c)
    ensures History(c, "", states, evs) && |evs| == 3 && Acts("", evs[0]) && Acts("", evs[2])
    ensures evs[1].Refused? && !AllAccepted(evs[1].pass.acceptance)
    ensures OfController("ns", evs[0].pass) && OfController("ns", evs[1].pass) && OfController("ns", evs[2].pass)
    ensures evs[0].pass.stampedAt < evs[1].pass.decidedAt < evs[2].pass.decidedAt
    ensures At(states[3], ConversionStatus) == CONVERTED
  {
    evs := [Reconcile(OneRoute(true, 0)), Refused(OneRoute(false, 3 * SECOND)), Reconcile(OneRoute(true, 6 * SECOND))];
    OneRouteIsOfController(true, 0);
    OneRouteIsOfController(false, 3 * SECOND);
    OneRouteIsOfController(true, 6 * SECOND);
    var stamped := OneRouteLeaves(PENDING, c.format(0));
    states := [map[], stamped, stamped, OneRouteLeaves(CONVERTED, "")];
    assert Truncated(0) == 0;
    RunsAs(c, states, evs);
  }

  lemma RunsAs(c: Clock, states: seq<Annotations>, evs: seq<Event>)
    requires |evs| == 3 && |states| == 4
    requires Step(c, "", states[0], evs[0], states[1])
    requires Step(c, "", states[1], evs[1], states[2])
    requires Step(c, "", states[2], evs[2], states[3])
    ensures Trace(Stepper(c, ""), states, evs)
  {}

  predicate Terminal(status: string) { status == CONVERTED || status == PARTIAL }

  /** Exactly when a pass ends the verification. */
  lemma TerminalIff(c: Clock, a: Annotations, p: Pass)
    ensures var d := DetermineConversionStatus(c, a, p);
            var ts := c.parse(At(a, VerificationTimestamp));
            && (Terminal(d.status) <==> !d.requeue)
            && (Terminal(d.status) <==>
                  !p.timedOut && (AllAccepted(p.acceptance) ==>
                                    At(a, VerificationTimestamp) != "" && ts.Some?
                                      && p.decidedAt - ts.value >= 5 * SECOND))
  {
    assert PENDING[1] != PARTIAL[1] && |PENDING| != |CONVERTED|;
  }

  /** A pass 5 s after the one whose stamp still stands, all routes accepted, is the last. */
  lemma StandingStampEnds(c: Clock, a: Annotations, p: Pass, stampedAt: int, a': Annotations)
    requires Rfc3339(c) && Updated(c, a, p, a') && Good(p)
    requires At(a, VerificationTimestamp) == c.format(stampedAt) && p.decidedAt - stampedAt >= VERIFY_DELAY
    ensures At(a', ConversionStatus) == (if p.warnings == [] then CONVERTED else PARTIAL)
    ensures At(a', VerificationTimestamp) == ""
  {}

  /**
   After `m` every pass reads the current status first, sees all routes accepted if it acts, and is no canary skip.
   */
  ghost predicate Undisturbed(ingressClass: string, states: seq<Annotations>, evs: seq<Event>, m: nat, n: nat)
    requires n <= |evs| <= |states|
  {
    forall j | m < j < n ::
      && UpToDate(states[j], evs[j]) && (Acts(ingressClass, evs[j]) ==> Good(evs[j].pass))
      && (evs[j].Reconcile? ==> !ShouldConvert(ingressClass, evs[j].pass.className, evs[j].pass.seen).SkipCanary?)
  }

  /** One undisturbed step keeps a final status, or the stamp. */
  lemma StampOrDone(c: Clock, ingressClass: string, a: Annotations, ev: Event, a': Annotations, stampedAt: int)
    requires Rfc3339(c) && Step(c, ingressClass, a, ev, a') && UpToDate(a, ev)
    requires Acts(ingressClass, ev) ==> Good(ev.pass)
    requires ev.Reconcile? ==> !ShouldConvert(ingressClass, ev.pass.className, ev.pass.seen).SkipCanary?
    requires Terminal(At(a, ConversionStatus)) || At(a, VerificationTimestamp) == c.format(stampedAt)
    ensures Terminal(At(a', ConversionStatus)) || At(a', VerificationTimestamp) == c.format(stampedAt)
  {}

  lemma {:induction false} StampStandsOrDone(c: Clock, ingressClass: string, states: seq<Annotations>,
                                             evs: seq<Event>, m: nat, n: nat)
    requires Rfc3339(c) && Trace(Stepper(c, ingressClass), states, evs) && m < n < |states|
    requires Acts(ingressClass, evs[m]) && Good(evs[m].pass) && At(states[m], VerificationTimestamp) == ""
    requires Undisturbed(ingressClass, states, evs, m, n)
    ensures Terminal(At(states[n], ConversionStatus))
            || At(states[n], VerificationTimestamp) == c.format(evs[m].pass.stampedAt)
  {
    assert Stepper(c, ingressClass)(states[n - 1], evs[n - 1], states[n]);
    if n - 1 > m {
      StampStandsOrDone(c, ingressClass, states, evs, m, n - 1);
      StampOrDone(c, ingressClass, states[n - 1], evs[n - 1], states[n], evs[m].pass.stampedAt);
    }
  }

  /**
   Any accepted pass at least 5 s after the first is terminal: in every history in which pass `m`
   stamps the Ingress and nothing disturbs the verification since, a pass that acts 5 s later ends it.
   */
  lemma AcceptedAfterDelayIsTerminal(c: Clock, ingressClass: string, states: seq<Annotations>, evs: seq<Event>, m: nat,
                                     n: nat)
    requires Rfc3339(c) && Trace(Stepper(c, ingressClass), states, evs) && m < n < |evs|
    requires Acts(ingressClass, evs[m]) && Good(evs[m].pass) && At(states[m], VerificationTimestamp) == ""
    requires Undisturbed(ingressClass, states, evs, m, n + 1) && Acts(ingressClass, evs[n])
    requires evs[n].pass.decidedAt - evs[m].pass.stampedAt >= 5 * SECOND
    ensures At(states[n + 1], ConversionStatus) == (if evs[n].pass.warnings == [] then CONVERTED else PARTIAL)
    ensures At(states[n + 1], VerificationTimestamp) == ""
  {
    StampStandsOrDone(c, ingressClass, states, evs, m, n);
    assert UpToDate(states[n], evs[n]);
    assert Stepper(c, ingressClass)(states[n], evs[n], states[n + 1]);
    StandingStampEnds(c, states[n], evs[n].pass, evs[m].pass.stampedAt, states[n + 1]);
  }

  /** A timestamp nobody can parse is never replaced: good passes leave the Ingress pending for good. */
  lemma {:induction false} UnparsableTimestampIsStuck(c: Clock, ingressClass: string, states: seq<Annotations>,
                                                      evs: seq<Event>, n: nat)
    requires Trace(Stepper(c, ingressClass), states, evs) && n < |states|
    requires At(states[0], VerificationTimestamp) != "" && c.parse(At(states[0], VerificationTimestamp)).None?
    requires forall ev <- evs :: Acts(ingressClass, ev) && Good(ev.pass)
    ensures At(states[n], VerificationTimestamp) == At(states[0], VerificationTimestamp)
    ensures n > 0 ==> At(states[n], ConversionStatus) == PENDING
  {
    if n > 0 {
      UnparsableTimestampIsStuck(c, ingressClass, states, evs, n - 1);
      assert Stepper(c, ingressClass)(states[n - 1], evs[n - 1], states[n]);
      assert evs[n - 1] in evs;
    }
  }

  /** A pass that reads the current status first, or writes nothing. */
  predicate UpToDate(a: Annotations, ev: Event) {
    ev.Refused? || (ev.Reconcile? && At(ev.pass.seen, ConversionStatus) == At(a, ConversionStatus))
  }

  /** Converted and partial are absorbing until a user clears them, as long as passes read the current status. */
  lemma {:induction false} TerminalIsAbsorbing(c: Clock, ingressClass: string, states: seq<Annotations>,
                                               evs: seq<Event>, n: nat)
    requires Trace(Stepper(c, ingressClass), states, evs) && n < |states|
    requires Terminal(At(states[0], ConversionStatus)) && forall i | 0 <= i < |evs| :: UpToDate(states[i], evs[i])
    ensures states[n] == states[0]
  {
    if n > 0 {
      TerminalIsAbsorbing(c, ingressClass, states, evs, n - 1);
      assert UpToDate(states[n - 1], evs[n - 1]);
      assert Stepper(c, ingressClass)(states[n - 1], evs[n - 1], states[n]);
    }
  }

  /** What a pass must do for a finished Ingress to keep its status, whatever version it read first. */
  lemma KeepsTerminalIff(c: Clock, ingressClass: string, a: Annotations, p: Pass, a': Annotations)
    requires Terminal(At(a, ConversionStatus)) && At(a, VerificationTimestamp) == ""
             && Step(c, ingressClass, a, Reconcile(p), a')
    ensures At(a', ConversionStatus) == At(a, ConversionStatus) <==>
              match ShouldConvert(ingressClass, p.className, p.seen)
              case Skip => true
              case SkipCanary => false
              case Convert => At(a, ConversionStatus) == PARTIAL && !p.timedOut && !AllAccepted(p.acceptance)
  {
    assert PARTIAL[1] != PENDING[1] && SKIPPED[0] != PARTIAL[0] && |SKIPPED| == |PENDING| == |PARTIAL| != |CONVERTED|;
  }

  /** A pass that first read an older version does reopen a finished Ingress. */
  lemma StaleReadReopens(c: Clock) returns (a: Annotations, p: Pass, a': Annotations)
    requires Rfc3339(c)
    ensures Terminal(At(a, ConversionStatus)) && OfController("ns", p) && Step(c, "", a, Reconcile(p), a')
    ensures At(a', ConversionStatus) == PENDING
  {
    a, p := OneRouteLeaves(CONVERTED, ""), OneRoute(true, 0);
    a' := OneRouteLeaves(PENDING, c.format(0));
    OneRouteIsOfController(true, 0);
  }

  // ------------------------------------------------------------- which Ingresses are converted

  /** Reference: the class an Ingress asks for, the field of its spec, or else the annotation. */
  predicate HasClass(p: Pass, name: string) {
    match p.className
    case Some(own) => name == own
    case None => if IngressClass in p.seen then name == p.seen[IngressClass] else name == ""
  }

  /** Reference: the Ingress is not to be converted, whoever it belongs to. */
  predicate Exempt(a: Annotations) {
    || (SkipConversion in a && a[SkipConversion] == "true")
    || (ConversionStatus in a && (a[ConversionStatus] == "converted" || a[ConversionStatus] == "partial"))
  }

  predicate IsCanary(a: Annotations) { NginxCanary in a && a[NginxCanary] == "true" }

  /** A canary as the controller marks it. */
  function Marked(a: Annotations): Annotations {
    a[ConversionStatus := "skipped"][ConversionSkipReason := "canary annotations are not supported"]
  }

  /** A pass writes a conversion exactly for an Ingress of its class that is neither exempt nor a canary. */
  lemma ActsIff(c: Clock, ingressClass: string, a: Annotations, p: Pass, a': Annotations)
    requires Step(c, ingressClass, a, Reconcile(p), a')
    ensures Acts(ingressClass, Reconcile(p))
       <==> !Exempt(p.seen) && !IsCanary(p.seen) && (ingressClass == "" || HasClass(p, ingressClass))
    ensures Acts(ingressClass, Reconcile(p)) ==> Updated(c, a, p, a')
    ensures !Acts(ingressClass, Reconcile(p)) ==> a' == if !Exempt(p.seen) && IsCanary(p.seen) then Marked(a) else a
  {}

  /** No pass changes an Ingress it read as exempt, or as another class's and no canary. */
  lemma {:induction false} ExemptAndForeignAreUntouched(c: Clock, ingressClass: string, states: seq<Annotations>,
                                                        evs: seq<Event>, n: nat)
    requires Trace(Stepper(c, ingressClass), states, evs) && n < |states|
    requires forall ev <- evs :: !ev.Edit? &&
               (Exempt(ev.pass.seen) ||
                (ingressClass != "" && !HasClass(ev.pass, ingressClass) && !IsCanary(ev.pass.seen)))
    ensures states[n] == states[0]
  {
    if n > 0 {
      ExemptAndForeignAreUntouched(c, ingressClass, states, evs, n - 1);
      assert Stepper(c, ingressClass)(states[n - 1], evs[n - 1], states[n]);
      assert evs[n - 1] in evs;
      if evs[n - 1].Reconcile? { ActsIff(c, ingressClass, states[n - 1], evs[n - 1].pass, states[n]); }
    }
  }

  /** The canary test comes before the class test: a foreign Ingress is left alone unless it is a canary. */
  lemma ForeignUntouchedIff(c: Clock, ingressClass: string, a: Annotations, p: Pass, a': Annotations)
    requires ingressClass != "" && !HasClass(p, ingressClass) && Step(c, ingressClass, a, Reconcile(p), a')
    ensures a' == a <==> Exempt(p.seen) || !IsCanary(p.seen) || a == Marked(a)
  {
    ActsIff(c, ingressClass, a, p, a');
  }

  /** Such a canary: class nginx, and the controller of class kubelb writes into it. */
  lemma ForeignCanaryIsMarked(c: Clock) returns (a: Annotations, p: Pass, a': Annotations)
    ensures HasClass(p, "nginx") && p.seen == a && Step(c, "kubelb", a, Reconcile(p), a')
    ensures a' != a && a' == Marked(a)
  {
    a := map[NginxCanary := "true"];
    p := OneRoute(true, 0).(seen := a, className := Some("nginx"));
    a' := Marked(a);
    assert ConversionStatus in a' && ConversionStatus !in a;
  }

  /** However many passes read a canary that is not exempt, it ends up marked, and nothing else about it changes. */
  lemma {:induction false} CanaryIsMarked(c: Clock, ingressClass: string, states: seq<Annotations>, evs: seq<Event>,
                                          n: nat)
    requires Trace(Stepper(c, ingressClass), states, evs) && 0 < n < |states|
    requires IsCanary(states[0]) && !Exempt(states[0])
    requires forall i | 0 <= i < |evs| :: evs[i].Reconcile? && evs[i].pass.seen == states[i]
    ensures states[n] == Marked(states[0])
  {
    assert Stepper(c, ingressClass)(states[n - 1], evs[n - 1], states[n]);
    if n > 1 { CanaryIsMarked(c, ingressClass, states, evs, n - 1); }
    assert "skipped"[0] == 's' && "converted"[0] == 'c' && "partial"[0] == 'p';
    ActsIff(c, ingressClass, states[n - 1], evs[n - 1].pass, states[n]);
  }

  /** Every pass over an Ingress of its class that is neither exempt nor a canary leaves a status and its routes. */
  lemma OwnIngressIsConverted(c: Clock, ingressClass: string, states: seq<Annotations>, evs: seq<Event>, n: nat)
    requires Trace(Stepper(c, ingressClass), states, evs) && n < |evs| && evs[n].Reconcile?
    requires !Exempt(evs[n].pass.seen) && !IsCanary(evs[n].pass.seen)
    requires ingressClass == "" || HasClass(evs[n].pass, ingressClass)
    ensures At(states[n + 1], ConversionStatus) in {"pending", "partial", "converted"}
    ensures At(states[n + 1], ConvertedHttpRoute) == Join(",", evs[n].pass.httpRoutes)
    ensures At(states[n + 1], ConvertedGrpcRoute) == Join(",", evs[n].pass.grpcRoutes)
  {
    assert Stepper(c, ingressClass)(states[n], evs[n], states[n + 1]);
    ActsIff(c, ingressClass, states[n], evs[n].pass, states[n + 1]);
  }
}
