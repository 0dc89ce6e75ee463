/** Two Ingresses that share one Gateway: when their passes settle, and when they overwrite each other for ever. */
module SharedGateways {
  import opened Api
  import opened Gateways
  import opened Listeners

  /** Listeners of one name are configured alike, annotations of one key have one value. */
  ghost predicate Harmonious(c: GatewayConfig, d: GatewayConfig) {
    && (forall l <- Built(c.tls), m <- Built(d.tls) | l.name == m.name :: l.config == m.config)
    && (forall k | k in c.annotations && k in d.annotations :: c.annotations[k] == d.annotations[k])
  }

  /** A Gateway that needs no write for `c`. */
  ghost predicate Satisfies(g: Gateway, c: GatewayConfig) {
    DistinctNames(g.listeners) && Agrees(g.listeners, Built(c.tls)) && Carries(g.annotations, c.annotations)
  }

  lemma SatisfiedIff(g: Gateway, c: GatewayConfig)
    requires NoCollision(Hosts(c.tls)) && DistinctNames(g.listeners)
    ensures Decision(Some(g), c) == Nothing <==> Satisfies(g, c)
  {
    BuiltNamesDistinctIff(c.tls);
    SameIffAgrees(g.listeners, Built(c.tls));
  }

  /** No Gateway satisfies two configurations that disagree, so one of them always has something to write. */
  lemma SatisfyingBothIsHarmonious(g: Gateway, c: GatewayConfig, d: GatewayConfig)
    requires Satisfies(g, c) && Satisfies(g, d)
    ensures Harmonious(c, d)
  {}

  /** A merge leaves the listeners of foreign names as they are, under whatever defaults were stored. */
  lemma ForeignListenerStays(e: seq<Listener>, desired: seq<Listener>, stored: seq<Listener>, name: string)
    requires DistinctNames(e) && DistinctNames(desired) && StoredAs(Merged(e, desired), stored)
    requires name in Names(e) && name !in Names(desired)
    ensures name in Names(stored) && LastNamed(stored, name).config == LastNamed(e, name).config
  {
    var l := LastNamed(e, name);
    var i :| 0 <= i < |e| && e[i] == l;
    MergeKeepsExisting(e, desired, i);
    MergedAgrees(e, desired);
    StoredKeepsDistinct(Merged(e, desired), stored);
    LastNamedOfDistinct(stored, stored[i]);
  }

  lemma SameConfigs(e: seq<Listener>, stored: seq<Listener>, name: string)
    requires DistinctNames(e) && StoredAs(e, stored) && name in Names(e)
    ensures name in Names(stored) && LastNamed(stored, name).config == LastNamed(e, name).config
  {
    var l := LastNamed(e, name);
    var i :| 0 <= i < |e| && e[i] == l;
    StoredKeepsDistinct(e, stored);
    LastNamedOfDistinct(stored, stored[i]);
  }

  lemma ListenersSurvive(g: Gateway, c: GatewayConfig, d: GatewayConfig, g': Gateway)
    requires Satisfies(g, c) && Harmonious(c, d) && NoCollision(Hosts(c.tls)) && NoCollision(Hosts(d.tls))
    requires After(Some(g), Decision(Some(g), d), Some(g')) && Satisfies(g', d)
    ensures Agrees(g'.listeners, Built(c.tls))
  {
    BuiltNamesDistinctIff(d.tls);
    forall l <- Built(c.tls)
      ensures l.name in Names(g'.listeners) && LastNamed(g'.listeners, l.name).config == l.config
    {
      if l.name in Names(Built(d.tls)) {
        var m := LastNamed(Built(d.tls), l.name);
        assert l.config == m.config;
      } else if Decision(Some(g), d).Update? {
        if SameListeners(g.listeners, Merged(g.listeners, Built(d.tls))) {
          SameConfigs(g.listeners, g'.listeners, l.name);
        } else {
          ForeignListenerStays(g.listeners, Built(d.tls), g'.listeners, l.name);
        }
      }
    }
  }

  lemma AnnotationsSurvive(g: Gateway, c: GatewayConfig, d: GatewayConfig, g': Gateway)
    requires Carries(g.annotations, c.annotations) && Harmonious(c, d) && Carries(g'.annotations, d.annotations)
    requires After(Some(g), Decision(Some(g), d), Some(g'))
    ensures Carries(g'.annotations, c.annotations)
  {
    forall k <- c.annotations ensures Get(g'.annotations, k) == c.annotations[k] {
      assert k in d.annotations ==> Get(g'.annotations, k) == d.annotations[k];
    }
  }

  /** After a pass for each, the first Ingress has nothing left to write if and only if the two are in harmony. */
  lemma SharedGatewaySettlesIff(stored: Option<Gateway>, c: GatewayConfig, d: GatewayConfig, g: Gateway, g': Gateway)
    requires NoCollision(Hosts(c.tls)) && NoCollision(Hosts(d.tls))
             && (stored.Some? ==> DistinctNames(stored.value.listeners))
    requires After(stored, Decision(stored, c), Some(g)) && After(Some(g), Decision(Some(g), d), Some(g'))
    ensures Decision(Some(g'), d) == Nothing
    ensures Decision(Some(g'), c) == Nothing <==> Harmonious(c, d)
  {
    PassEstablishes(stored, c, Some(g));
    PassEstablishes(Some(g), d, Some(g'));
    SatisfiedIff(g', c);
    SatisfiedIff(g', d);
    if Harmonious(c, d) {
      ListenersSurvive(g, c, d, g');
      AnnotationsSurvive(g, c, d, g');
    } else if Satisfies(g', c) {
      SatisfyingBothIsHarmonious(g', c, d);
    }
  }

  /** The two take turns. */
  function Turn(n: nat, c: GatewayConfig, d: GatewayConfig): GatewayConfig { if n % 2 == 0 then c else d }

  lemma TurnsAlternate(n: nat, c: GatewayConfig, d: GatewayConfig)
    requires n > 0
    ensures n % 2 == 1 ==> Turn(n - 1, c, d) == c && Turn(n, c, d) == d
    ensures n % 2 == 0 ==> Turn(n - 1, c, d) == d && Turn(n, c, d) == c
  {}

  ghost predicate TakeTurns(gs: seq<Gateway>, c: GatewayConfig, d: GatewayConfig) {
    && gs != [] && DistinctNames(gs[0].listeners)
    && forall n | 0 <= n < |gs| - 1 :: After(Some(gs[n]), Decision(Some(gs[n]), Turn(n, c, d)), Some(gs[n + 1]))
  }

  lemma PassSatisfies(g: Gateway, c: GatewayConfig, g': Gateway)
    requires NoCollision(Hosts(c.tls)) && DistinctNames(g.listeners) && After(Some(g), Decision(Some(g), c), Some(g'))
    ensures Satisfies(g', c)
  {
    PassEstablishes(Some(g), c, Some(g'));
  }

  lemma {:induction false} TurnsSatisfy(gs: seq<Gateway>, c: GatewayConfig, d: GatewayConfig, n: nat)
    requires NoCollision(Hosts(c.tls)) && NoCollision(Hosts(d.tls)) && TakeTurns(gs, c, d) && n < |gs|
    ensures DistinctNames(gs[n].listeners) && (n > 0 ==> Satisfies(gs[n], Turn(n - 1, c, d)))
  {
    if n > 0 {
      TurnsSatisfy(gs, c, d, n - 1);
      PassSatisfies(gs[n - 1], Turn(n - 1, c, d), gs[n]);
    }
  }

  lemma HarmonyIsMutual(c: GatewayConfig, d: GatewayConfig)
    requires Harmonious(c, d)
    ensures Harmonious(d, c)
  {}

  lemma DiscordIsMutual(c: GatewayConfig, d: GatewayConfig)
    requires !Harmonious(c, d)
    ensures !Harmonious(d, c)
  {
    if Harmonious(d, c) { HarmonyIsMutual(d, c); }
  }

  lemma DiscordWrites(g: Gateway, c: GatewayConfig, d: GatewayConfig)
    requires NoCollision(Hosts(d.tls)) && Satisfies(g, c) && !Harmonious(c, d)
    ensures Decision(Some(g), d).Update?
  {
    SatisfiedIff(g, d);
    if Satisfies(g, d) { SatisfyingBothIsHarmonious(g, c, d); }
  }

  /** Out of harmony every pass after the first finds something to write, for ever. */
  lemma DiscordNeverSettles(gs: seq<Gateway>, c: GatewayConfig, d: GatewayConfig, n: nat)
    requires NoCollision(Hosts(c.tls)) && NoCollision(Hosts(d.tls)) && TakeTurns(gs, c, d) && !Harmonious(c, d)
    requires 0 < n < |gs|
    ensures Decision(Some(gs[n]), Turn(n, c, d)).Update?
  {
    TurnsSatisfy(gs, c, d, n);
    TurnsAlternate(n, c, d);
    if n % 2 == 1 {
      DiscordWrites(gs[n], c, d);
    } else {
      DiscordIsMutual(c, d);
      DiscordWrites(gs[n], d, c);
    }
  }

  lemma {:induction false} HttpsIsBuilt(tls: seq<TlsListener>, t: TlsListener)
    requires t in Firsts(tls, |tls|)
    ensures Https(t) in Built(tls)
  {
    var ts := Firsts(tls, |tls|);
    var k :| 0 <= k < |ts| && ts[k] == t;
    assert Built(tls)[k + 1] == Https(t);
  }

  /** Two Ingresses with different certificates for one host are out of harmony: each takes the listener back. */
  lemma CertificatesFight(c: GatewayConfig, d: GatewayConfig, host: string, secret: string, other: string)
    requires TlsListener(host, secret) in Firsts(c.tls, |c.tls|) && TlsListener(host, other) in Firsts(d.tls, |d.tls|)
    requires secret != other
    ensures !Harmonious(c, d)
  {
    HttpsIsBuilt(c.tls, TlsListener(host, secret));
    HttpsIsBuilt(d.tls, TlsListener(host, other));
    OnlyItsHost(TlsListener(host, secret), host, secret);
    OnlyItsHost(TlsListener(host, other), host, secret);
  }
}
