/** One pass over the shared Gateway: build what an Ingress wants, merge it in, and write only if something changed. */
module Gateways {
  import opened Api
  import opened Listeners

  datatype Gateway = Gateway(className: string, listeners: seq<Listener>, annotations: map<string, string>)

  datatype GatewayConfig = GatewayConfig(className: string, tls: seq<TlsListener>, annotations: map<string, string>)

  datatype Write = Nothing | Create(gateway: Gateway) | Update(gateway: Gateway)

  // ------------------------------------------------------------- building listeners

  function ReplaceAll(s: string, c: char, with: string): string {
    if s == "" then "" else (if s[0] == c then with else [s[0]]) + ReplaceAll(s[1..], c, with)
  }

  function ListenerNameFromHostname(hostname: string): string {
    if hostname == "*" then "https-wildcard"
    else "https-" + ReplaceAll(ReplaceAll(hostname, '.', "-"), '*', "wildcard")
  }

  const FROM_ALL := Some(Some(Some("All")))

  const HTTP := Listener("http", Config(80, "HTTP", None, FROM_ALL, None), "")

  function Https(t: TlsListener): Listener {
    Listener(ListenerNameFromHostname(t.hostname),
             Config(443, "HTTPS", Some(t.hostname), FROM_ALL,
                    Some(Tls(Some("Terminate"), [CertificateRef(t.secretName, None)]))), "")
  }

  function Hosts(tls: seq<TlsListener>): set<string> { set t | t in tls :: t.hostname }

  /** The first `n` entries, without those whose host name came before. */
  function Firsts(tls: seq<TlsListener>, n: nat): seq<TlsListener>
    requires n <= |tls|
  {
    if n == 0 then []
    else Firsts(tls, n - 1) + (if tls[n - 1].hostname in Hosts(tls[..n - 1]) then [] else [tls[n - 1]])
  }

  function HttpsListeners(ts: seq<TlsListener>): seq<Listener> {
    seq(|ts|, i requires 0 <= i < |ts| => Https(ts[i]))
  }

  function Built(tls: seq<TlsListener>): seq<Listener> { [HTTP] + HttpsListeners(Firsts(tls, |tls|)) }

  lemma HostsStep(tls: seq<TlsListener>, n: nat)
    requires n < |tls|
    ensures Hosts(tls[..n + 1]) == Hosts(tls[..n]) + {tls[n].hostname}
  {
    assert tls[..n + 1] == tls[..n] + [tls[n]];
  }

  method BuildListeners(tls: seq<TlsListener>) returns (listeners: seq<Listener>)
    ensures listeners == Built(tls)
  {
    listeners := [HTTP];
    var seen: set<string> := {};
    for i := 0 to |tls|
      invariant listeners == [HTTP] + HttpsListeners(Firsts(tls, i)) && seen == Hosts(tls[..i])
    {
      HostsStep(tls, i);
      if tls[i].hostname !in seen {
        seen := seen + {tls[i].hostname};
        listeners := listeners + [Https(tls[i])];
        assert HttpsListeners(Firsts(tls, i + 1)) == HttpsListeners(Firsts(tls, i)) + [Https(tls[i])];
      }
    }
    assert tls[..|tls|] == tls;
  }

  lemma {:induction false} FirstsHaveAllHosts(tls: seq<TlsListener>, n: nat)
    requires n <= |tls|
    ensures Hosts(Firsts(tls, n)) == Hosts(tls[..n])
  {
    if n > 0 {
      FirstsHaveAllHosts(tls, n - 1);
      HostsStep(tls, n - 1);
      var ts, t := Firsts(tls, n - 1), tls[n - 1];
      assert Hosts(ts + [t]) == Hosts(ts) + {t.hostname};
    }
  }

  lemma {:induction false} FirstsAreDistinct(tls: seq<TlsListener>, n: nat)
    requires n <= |tls|
    ensures var ts := Firsts(tls, n); forall i, j | 0 <= i < j < |ts| :: ts[i].hostname != ts[j].hostname
  {
    if n > 0 {
      FirstsAreDistinct(tls, n - 1);
      FirstsHaveAllHosts(tls, n - 1);
      var ts := Firsts(tls, n - 1);
      forall i | 0 <= i < |ts| ensures ts[i].hostname in Hosts(tls[..n - 1]) { assert ts[i].hostname in Hosts(ts); }
    }
  }

  lemma {:induction false} FirstsFrom(tls: seq<TlsListener>, n: nat, t: TlsListener)
    requires n <= |tls|
    ensures t in Firsts(tls, n) <==> exists i :: 0 <= i < n && tls[i] == t && t.hostname !in Hosts(tls[..i])
  {
    if n > 0 { FirstsFrom(tls, n - 1, t); }
  }

  /** Serves host `h` over TLS on port 443 with this secret. */
  predicate Terminates(l: Listener, h: string, secret: string) {
    && l.config.protocol == "HTTPS" && l.config.port == 443 && l.config.hostname == Some(h)
    && l.config.tls == Some(Tls(Some("Terminate"), [CertificateRef(secret, None)]))
  }

  lemma OnlyItsHost(t: TlsListener, h: string, secret: string)
    ensures Terminates(Https(t), h, secret) <==> t == TlsListener(h, secret)
  {
    var refs := Https(t).config.tls.value.certificateRefs;
    assert refs == [CertificateRef(secret, None)] ==> refs[0] == CertificateRef(secret, None);
  }

  /** Besides plain HTTP, exactly the hosts with a TLS entry are served, each with the secret of its first one. */
  lemma BuiltTerminatesTls(tls: seq<TlsListener>, h: string, secret: string)
    ensures (exists l <- Built(tls) :: Terminates(l, h, secret))
       <==> (exists i :: 0 <= i < |tls| && tls[i] == TlsListener(h, secret) && h !in Hosts(tls[..i]))
  {
    var t, ts := TlsListener(h, secret), Firsts(tls, |tls|);
    FirstsFrom(tls, |tls|, t);
    if t in ts {
      var k :| 0 <= k < |ts| && ts[k] == t;
      OnlyItsHost(t, h, secret);
      assert Built(tls)[k + 1] == Https(t);
    }
    forall l <- Built(tls) | Terminates(l, h, secret) ensures t in ts {
      var k :| 0 <= k < |Built(tls)| && Built(tls)[k] == l;
      OnlyItsHost(ts[k - 1], h, secret);
    }
  }

  /** Serves any host without TLS on port 80. */
  predicate Plain(l: Listener) {
    && l.name == "http" && l.config.port == 80 && l.config.protocol == "HTTP"
    && l.config.hostname.None? && l.config.tls.None?
  }

  /** There is one plain listener, all others terminate TLS, and all admit routes from every namespace. */
  lemma BuiltServesPlainHttp(tls: seq<TlsListener>)
    ensures Built(tls) != [] && Plain(Built(tls)[0])
    ensures forall l <- Built(tls)[1..] :: exists t <- tls :: Terminates(l, t.hostname, t.secretName)
    ensures forall l <- Built(tls) :: l.config.allowedRoutes == Some(Some(Some("All")))
  {
    var ts := Firsts(tls, |tls|);
    forall l <- Built(tls)[1..] ensures exists t <- tls :: Terminates(l, t.hostname, t.secretName) {
      var k :| 0 <= k < |ts| && l == Https(ts[k]);
      FirstsFrom(tls, |tls|, ts[k]);
      OnlyItsHost(ts[k], ts[k].hostname, ts[k].secretName);
    }
  }

  /** Different host names give different listener names. */
  ghost predicate NoCollision(hosts: set<string>) {
    forall h, l | h in hosts && l in hosts && h != l :: ListenerNameFromHostname(h) != ListenerNameFromHostname(l)
  }

  lemma NotHttp(hostname: string)
    ensures ListenerNameFromHostname(hostname) != HTTP.name
  {
    assert |ListenerNameFromHostname(hostname)| > |HTTP.name|;
  }

  lemma BuiltDistinctByIndex(ts: seq<TlsListener>)
    ensures DistinctNames([HTTP] + HttpsListeners(ts))
       <==> forall i, j | 0 <= i < j < |ts| ::
         ListenerNameFromHostname(ts[i].hostname) != ListenerNameFromHostname(ts[j].hostname)
  {
    var ls := [HTTP] + HttpsListeners(ts);
    forall j | 0 < j < |ls| ensures ls[j] == Https(ts[j - 1]) && ls[j].name != ls[0].name {
      NotHttp(ts[j - 1].hostname);
    }
    if DistinctNames(ls) {
      forall i, j | 0 <= i < j < |ts|
        ensures ListenerNameFromHostname(ts[i].hostname) != ListenerNameFromHostname(ts[j].hostname)
      {
        assert NameOf()(ls[i + 1]) != NameOf()(ls[j + 1]);
      }
    }
  }

  /** The listeners built for an Ingress have distinct names exactly when its TLS hosts do not collide. */
  lemma BuiltNamesDistinctIff(tls: seq<TlsListener>)
    ensures DistinctNames(Built(tls)) <==> NoCollision(Hosts(tls))
  {
    var ts := Firsts(tls, |tls|);
    FirstsAreDistinct(tls, |tls|);
    FirstsHaveAllHosts(tls, |tls|);
    assert tls[..|tls|] == tls;
    BuiltDistinctByIndex(ts);
    if DistinctNames(Built(tls)) {
      forall h, l | h in Hosts(tls) && l in Hosts(tls) && h != l
        ensures ListenerNameFromHostname(h) != ListenerNameFromHostname(l)
      {
        var i :| 0 <= i < |ts| && ts[i].hostname == h;
        var j :| 0 <= j < |ts| && ts[j].hostname == l;
      }
    }
    forall i | 0 <= i < |ts| ensures ts[i].hostname in Hosts(tls) { assert ts[i].hostname in Hosts(ts); }
  }

  lemma {:induction false} ReplaceAllNone(s: string, c: char, with: string)
    requires c !in s
    ensures ReplaceAll(s, c, with) == s
  {
    if s != "" { ReplaceAllNone(s[1..], c, with); }
  }

  lemma {:induction false} DotsToDashes(a: string, b: string)
    requires '-' !in a && '-' !in b && ReplaceAll(a, '.', "-") == ReplaceAll(b, '.', "-")
    ensures a == b
  {
    if a != "" && b != "" {
      var x, y := ReplaceAll(a, '.', "-"), ReplaceAll(b, '.', "-");
      assert x[1..] == ReplaceAll(a[1..], '.', "-") && y[1..] == ReplaceAll(b[1..], '.', "-");
      DotsToDashes(a[1..], b[1..]);
      assert a[0] == b[0] && a == [a[0]] + a[1..] && b == [b[0]] + b[1..];
    }
  }

  lemma {:induction false} DotsStarFree(s: string)
    requires '*' !in s
    ensures '*' !in ReplaceAll(s, '.', "-")
  {
    if s != "" { DotsStarFree(s[1..]); }
  }

  /** Hosts without dashes and wildcards never collide. */
  lemma PlainHostsDoNotCollide(a: string, b: string)
    requires '-' !in a && '-' !in b && '*' !in a && '*' !in b
    requires ListenerNameFromHostname(a) == ListenerNameFromHostname(b)
    ensures a == b
  {
    DotsStarFree(a);
    DotsStarFree(b);
    var x, y := ReplaceAll(a, '.', "-"), ReplaceAll(b, '.', "-");
    ReplaceAllNone(x, '*', "wildcard");
    ReplaceAllNone(y, '*', "wildcard");
    assert x == ("https-" + x)[6..] == ("https-" + y)[6..] == y;
    DotsToDashes(a, b);
  }

  /** Hosts with dashes can. */
  lemma DashedHostsCollide()
    ensures ListenerNameFromHostname("a.b") == ListenerNameFromHostname("a-b")
    ensures !DistinctNames(Built([TlsListener("a.b", "s"), TlsListener("a-b", "t")]))
  {
    assert ReplaceAll("a.b"[1..][1..], '.', "-") == "b" && ReplaceAll("a-b"[1..][1..], '.', "-") == "b";
    assert ReplaceAll("a.b", '.', "-") == "a-b" == ReplaceAll("a-b", '.', "-");
    var tls := [TlsListener("a.b", "s"), TlsListener("a-b", "t")];
    assert tls[0].hostname[1] != tls[1].hostname[1];
    BuiltNamesDistinctIff(tls);
  }

  lemma DotlessName(host: string)
    requires '.' !in host && '*' !in host
    ensures ListenerNameFromHostname(host) == "https-" + host
  {
    ReplaceAllNone(host, '.', "-");
    ReplaceAllNone(host, '*', "wildcard");
    assert "*"[0] == '*';
  }

  /** Of single labels, the one that spells the wildcard out collides with it. */
  lemma WildcardCollidesIff(host: string)
    requires '.' !in host && '*' !in host
    ensures ListenerNameFromHostname(host) == ListenerNameFromHostname("*") <==> host == "wildcard"
  {
    DotlessName(host);
    assert "https-wildcard" == "https-" + "wildcard";
    assert ("https-" + host)[6..] == host && ("https-" + "wildcard")[6..] == "wildcard";
  }

  // ------------------------------------------------------------- comparing

  method CertificateRefsEqual(a: seq<CertificateRef>, b: seq<CertificateRef>) returns (r: bool)
    ensures r <==> a == b
  {
    if |a| != |b| { return false; }
    for i := 0 to |a|
      invariant a[..i] == b[..i]
    {
      if a[i].name != b[i].name || a[i].namespace != b[i].namespace {
        assert a[i] != b[i];
        return false;
      }
      assert a[..i + 1] == a[..i] + [a[i]] && b[..i + 1] == b[..i] + [b[i]];
    }
    assert a[..|a|] == a && b[..|b|] == b;
    return true;
  }

  method ListenerConfigEqual(a: Listener, b: Listener) returns (r: bool)
    ensures r <==> a.config == b.config
  {
    var x, y := a.config, b.config;
    if x.port != y.port || x.protocol != y.protocol || x.hostname != y.hostname { return false; }
    if x.allowedRoutes.None? != y.allowedRoutes.None? { return false; }
    if x.allowedRoutes.Some? {
      var from, other := x.allowedRoutes.value, y.allowedRoutes.value;
      if from.None? != other.None? { return false; }
      if from.Some? && from.value != other.value { return false; }
    }
    if x.tls.None? != y.tls.None? { return false; }
    if x.tls.Some? {
      if x.tls.value.mode != y.tls.value.mode { return false; }
      r := CertificateRefsEqual(x.tls.value.certificateRefs, y.tls.value.certificateRefs);
      return;
    }
    return true;
  }

  /** Every listener of `b` is in `a` under its name, with the same compared fields, and the lengths agree. */
  ghost predicate SameListeners(a: seq<Listener>, b: seq<Listener>) {
    |a| == |b| && Agrees(a, b)
  }

  ghost predicate Agrees(a: seq<Listener>, b: seq<Listener>) {
    forall l <- b :: l.name in Names(a) && LastNamed(a, l.name).config == l.config
  }

  method ListenersEqual(a: seq<Listener>, b: seq<Listener>) returns (r: bool)
    ensures r <==> SameListeners(a, b)
  {
    if |a| != |b| { return false; }
    var index := IndexByName(a);
    for i := 0 to |b|
      invariant forall l <- b[..i] :: l.name in Names(a) && LastNamed(a, l.name).config == l.config
    {
      if b[i].name !in index { return false; }
      var same := ListenerConfigEqual(index[b[i].name], b[i]);
      if !same { return false; }
      assert b[..i + 1] == b[..i] + [b[i]];
    }
    assert b[..|b|] == b;
    return true;
  }

  lemma MergedAgreesAt(existing: seq<Listener>, desired: seq<Listener>, l: Listener)
    requires DistinctNames(existing) && Agrees(existing, desired) && l in Slots(existing, desired)
    ensures l.name in Names(existing) && LastNamed(existing, l.name).config == l.config
  {
    var i :| 0 <= i < |existing| && l == Slot(existing, desired, i);
    LastNamedOfDistinct(existing, existing[i]);
  }

  /** No listener needs writing exactly when every desired one is already there as desired. */
  lemma SameIffAgrees(existing: seq<Listener>, desired: seq<Listener>)
    requires DistinctNames(existing) && DistinctNames(desired)
    ensures SameListeners(existing, Merged(existing, desired)) <==> Agrees(existing, desired)
  {
    var m := Merged(existing, desired);
    if SameListeners(existing, m) {
      forall l <- desired ensures l.name in Names(existing) && LastNamed(existing, l.name).config == l.config {
        MergeHoldsDesired(existing, desired, l);
      }
    }
    if Agrees(existing, desired) {
      NothingNew(Names(existing), desired);
      assert m == Slots(existing, desired);
      forall l <- m ensures l.name in Names(existing) && LastNamed(existing, l.name).config == l.config {
        MergedAgreesAt(existing, desired, l);
      }
    }
  }

  // ------------------------------------------------------------- one pass

  /** The desired annotations that read differently now. */
  function Stale(existing: map<string, string>, desired: map<string, string>): set<string> {
    set k | k in desired && Get(existing, k) != desired[k]
  }

  function WithKeys(existing: map<string, string>, desired: map<string, string>, keys: set<string>): map<string, string>
    requires keys <= desired.Keys
  {
    existing + map k | k in keys :: desired[k]
  }

  function Overlaid(existing: map<string, string>, desired: map<string, string>): map<string, string> {
    WithKeys(existing, desired, Stale(existing, desired))
  }

  ghost predicate Carries(existing: map<string, string>, desired: map<string, string>) {
    forall k <- desired :: Get(existing, k) == desired[k]
  }

  lemma WithKeysStep(existing: map<string, string>, desired: map<string, string>, keys: set<string>, k: string)
    requires keys <= desired.Keys && k in desired && k !in keys
    ensures WithKeys(existing, desired, keys + {k}) == WithKeys(existing, desired, keys)[k := desired[k]]
    ensures Get(WithKeys(existing, desired, keys), k) == Get(existing, k)
  {}

  method MergeAnnotations(existing: map<string, string>, desired: map<string, string>)
    returns (result: map<string, string>, updated: bool)
    ensures result == Overlaid(existing, desired) && (updated <==> !Carries(existing, desired))
  {
    result, updated := existing, false;
    var rest := desired.Keys;
    ghost var stale := Stale(existing, desired);
    ghost var done: set<string> := {};
    while rest != {}
      invariant rest <= desired.Keys && done == stale - rest
      invariant result == WithKeys(existing, desired, done) && (updated <==> done != {})
      decreases rest
    {
      var k :| k in rest;
      WithKeysStep(existing, desired, done, k);
      if Get(result, k) != desired[k] {
        result := result[k := desired[k]];
        updated := true;
        done := done + {k};
      }
      rest := rest - {k};
    }
    assert done == stale;
  }

  function BuildGateway(config: GatewayConfig): Gateway {
    Gateway(config.className, Built(config.tls), config.annotations)
  }

  ghost function Decision(stored: Option<Gateway>, config: GatewayConfig): Write {
    match stored
    case None => Create(BuildGateway(config))
    case Some(g) =>
      var merged := Merged(g.listeners, Built(config.tls));
      var same := SameListeners(g.listeners, merged);
      if same && Carries(g.annotations, config.annotations) then Nothing
      else Update(g.(listeners := if same then g.listeners else merged,
        annotations := Overlaid(g.annotations, config.annotations)))
  }

  method ReconcileGateway(stored: Option<Gateway>, config: GatewayConfig) returns (w: Write)
    ensures w == Decision(stored, config)
  {
    var desired := BuildListeners(config.tls);
    if stored.None? { return Create(Gateway(config.className, desired, config.annotations)); }
    var g := stored.value;
    var merged := MergeListeners(g.listeners, desired);
    var same := ListenersEqual(g.listeners, merged);
    var listeners := if same then g.listeners else merged;
    var annotations, updated := MergeAnnotations(g.annotations, config.annotations);
    if !same || updated {
      return Update(g.(listeners := listeners, annotations := annotations));
    }
    return Nothing;
  }

  /** The API server stores what was written, defaulting only fields that are never compared. */
  ghost predicate StoredAs(written: seq<Listener>, stored: seq<Listener>) {
    |written| == |stored| &&
    forall i | 0 <= i < |written| :: stored[i].name == written[i].name && stored[i].config == written[i].config
  }

  ghost predicate After(stored: Option<Gateway>, w: Write, stored': Option<Gateway>) {
    match w
    case Nothing => stored' == stored
    case Create(g) =>
      && stored'.Some? && StoredAs(g.listeners, stored'.value.listeners)
      && stored'.value.annotations == g.annotations
    case Update(g) =>
      && stored'.Some? && StoredAs(g.listeners, stored'.value.listeners)
      && stored'.value.annotations == g.annotations
  }

  lemma StoredKeepsDistinct(written: seq<Listener>, stored: seq<Listener>)
    requires StoredAs(written, stored) && DistinctNames(written)
    ensures DistinctNames(stored)
  {
    forall i, j | 0 <= i < j < |stored| ensures NameOf()(stored[i]) != NameOf()(stored[j]) {
      assert NameOf()(written[i]) != NameOf()(written[j]);
    }
  }

  lemma StoredKeepsAgreement(written: seq<Listener>, stored: seq<Listener>, desired: seq<Listener>)
    requires StoredAs(written, stored) && DistinctNames(written) && Agrees(written, desired)
    ensures Agrees(stored, desired)
  {
    StoredKeepsDistinct(written, stored);
    forall l <- desired ensures l.name in Names(stored) && LastNamed(stored, l.name).config == l.config {
      var w := LastNamed(written, l.name);
      var i :| 0 <= i < |written| && written[i] == w;
      LastNamedOfDistinct(stored, stored[i]);
    }
  }

  lemma MergedAgrees(existing: seq<Listener>, desired: seq<Listener>)
    requires DistinctNames(existing) && DistinctNames(desired)
    ensures DistinctNames(Merged(existing, desired)) && Agrees(Merged(existing, desired), desired)
  {
    NewStayDistinct(Names(existing), desired);
    MergedNamesDistinctIff(existing, desired);
    forall l <- desired
      ensures l.name in Names(Merged(existing, desired)) && LastNamed(Merged(existing, desired), l.name) == l
    {
      MergeHoldsDesired(existing, desired, l);
      LastNamedOfDistinct(Merged(existing, desired), l);
    }
  }

  lemma AgreesWithItself(ls: seq<Listener>)
    requires DistinctNames(ls)
    ensures Agrees(ls, ls)
  {
    forall l <- ls ensures l.name in Names(ls) && LastNamed(ls, l.name) == l { LastNamedOfDistinct(ls, l); }
  }

  lemma OverlaidCarries(existing: map<string, string>, desired: map<string, string>)
    ensures Carries(Overlaid(existing, desired), desired)
  {}

  /** What a pass leaves: distinct names, every desired listener as desired, every desired annotation. */
  lemma PassEstablishes(stored: Option<Gateway>, config: GatewayConfig, stored': Option<Gateway>)
    requires NoCollision(Hosts(config.tls)) && (stored.Some? ==> DistinctNames(stored.value.listeners))
    requires After(stored, Decision(stored, config), stored')
    ensures stored'.Some? && DistinctNames(stored'.value.listeners)
    ensures Agrees(stored'.value.listeners, Built(config.tls)) && Carries(stored'.value.annotations, config.annotations)
  {
    var desired := Built(config.tls);
    BuiltNamesDistinctIff(config.tls);
    if stored.None? {
      AgreesWithItself(desired);
      StoredKeepsDistinct(desired, stored'.value.listeners);
      StoredKeepsAgreement(desired, stored'.value.listeners, desired);
    } else {
      var e := stored.value.listeners;
      OverlaidCarries(stored.value.annotations, config.annotations);
      SameIffAgrees(e, desired);
      MergedAgrees(e, desired);
      var written := if SameListeners(e, Merged(e, desired)) then e else Merged(e, desired);
      if Decision(stored, config).Update? {
        StoredKeepsDistinct(written, stored'.value.listeners);
        StoredKeepsAgreement(written, stored'.value.listeners, desired);
      }
    }
  }

  /** Convergence: a second pass with the same input writes nothing. */
  lemma SecondPassWritesNothing(stored: Option<Gateway>, config: GatewayConfig, stored': Option<Gateway>)
    requires NoCollision(Hosts(config.tls)) && (stored.Some? ==> DistinctNames(stored.value.listeners))
    requires After(stored, Decision(stored, config), stored')
    ensures Decision(stored', config) == Nothing
  {
    PassEstablishes(stored, config, stored');
    BuiltNamesDistinctIff(config.tls);
    SameIffAgrees(stored'.value.listeners, Built(config.tls));
  }

  /** What clients find after a pass: plain HTTP on port 80, and every TLS host with the secret of its first entry. */
  lemma PassServes(stored: Option<Gateway>, config: GatewayConfig, stored': Option<Gateway>, i: nat)
    requires NoCollision(Hosts(config.tls)) && (stored.Some? ==> DistinctNames(stored.value.listeners))
    requires After(stored, Decision(stored, config), stored')
    ensures stored'.Some? && exists l <- stored'.value.listeners :: Plain(l)
    ensures i < |config.tls| && config.tls[i].hostname !in Hosts(config.tls[..i]) ==>
              exists l <- stored'.value.listeners :: Terminates(l, config.tls[i].hostname, config.tls[i].secretName)
  {
    var desired := Built(config.tls);
    PassEstablishes(stored, config, stored');
    BuiltServesPlainHttp(config.tls);
    assert desired[0] in desired;
    assert Plain(LastNamed(stored'.value.listeners, "http"));
    if i < |config.tls| && config.tls[i].hostname !in Hosts(config.tls[..i]) {
      var t := config.tls[i];
      BuiltTerminatesTls(config.tls, t.hostname, t.secretName);
      var l :| l in desired && Terminates(l, t.hostname, t.secretName);
      assert Terminates(LastNamed(stored'.value.listeners, l.name), t.hostname, t.secretName);
    }
  }
}
