/**
 The names under which ports, endpoints and xDS resources are filed, and how far
 each format string separates the things it names.
 */
module Keys {
  import opened Text

  /** `EnvoyListenerPattern`. */
  function PortKey(port: int, protocol: string): string {
    Itoa(port) + "-" + protocol
  }

  /** `EnvoyEndpointPattern`. */
  function LbEndpointKey(namespace: string, name: string, index: nat): string {
    namespace + "-" + name + "-ep-" + Decimal(index)
  }

  /** `EnvoyEndpointRoutePattern`; the namespace of the origin route is not part of it. */
  function RouteEndpointKey(namespace: string, svcNamespace: string, svcName: string, route: string): string {
    "tenant-" + namespace + "-route-" + svcNamespace + "-" + svcName + "-" + route
  }

  /** `EnvoyResourceIdentifierPattern`, which extends the endpoint key by the port key. */
  function LbResourceName(namespace: string, name: string, index: nat, port: int, protocol: string): string {
    LbEndpointKey(namespace, name, index) + "-port-" + PortKey(port, protocol)
  }

  /** `EnvoyRoutePortIdentifierPattern`. */
  function RouteResourceName(namespace: string, svcNamespace: string, svcName: string,
                             routeNamespace: string, route: string, port: int, protocol: string): string {
    "tenant-" + namespace + "-route-" + svcNamespace + "-" + svcName + "-" + routeNamespace + "-" + route
    + "-port-" + PortKey(port, protocol)
  }

  /** `RouteServiceMapKey`. */
  function ServiceStatusKey(namespace: string, name: string): string {
    namespace + "/" + name
  }

  /** `endpointAddressReferencePattern`, the key of the per-snapshot address cache. */
  function AddressCacheKey(namespace: string, reference: string): string {
    namespace + "-address-" + reference
  }

  lemma DecimalHasNoDash(n: nat)
    ensures '-' !in Decimal(n)
  {
    assert !IsDigit('-');
  }

  lemma UnsignedPortKeyInjective(m: nat, p: string, n: nat, q: string)
    requires PortKey(m, p) == PortKey(n, q)
    ensures m == n && p == q
  {
    DecimalHasNoDash(m);
    DecimalHasNoDash(n);
    assert PortKey(m, p) == Decimal(m) + ['-'] + p;
    assert PortKey(n, q) == Decimal(n) + ['-'] + q;
    FirstSeparator('-', Decimal(m), Decimal(n), p, q);
    DecimalInjective(m, n);
  }

  lemma PortKeySign(m: int, p: string)
    ensures m < 0 <==> PortKey(m, p)[0] == '-'
    ensures m < 0 ==> PortKey(m, p)[1..] == PortKey(-m, p)
  {
    SignOf(m);
  }

  /** Port keys separate every (port, protocol) pair, whatever the protocol string. */
  lemma PortKeyInjective(m: int, p: string, n: int, q: string)
    requires PortKey(m, p) == PortKey(n, q)
    ensures m == n && p == q
  {
    PortKeySign(m, p);
    PortKeySign(n, q);
    if m < 0 {
      UnsignedPortKeyInjective(-m, p, -n, q);
    } else {
      UnsignedPortKeyInjective(m, p, n, q);
    }
  }

  /** Endpoint keys of load balancers collide exactly when the dashed namespace and name do. */
  lemma LbEndpointKeyCollision(ns: string, n: string, i: nat, ms: string, m: string, j: nat)
    ensures LbEndpointKey(ns, n, i) == LbEndpointKey(ms, m, j)
      <==> i == j && ns + "-" + n == ms + "-" + m
  {
    if LbEndpointKey(ns, n, i) == LbEndpointKey(ms, m, j) {
      var a, b := ns + "-" + n + "-ep", ms + "-" + m + "-ep";
      assert LbEndpointKey(ns, n, i) == a + ['-'] + Decimal(i);
      assert LbEndpointKey(ms, m, j) == b + ['-'] + Decimal(j);
      DecimalHasNoDash(i);
      DecimalHasNoDash(j);
      LastSeparator('-', a, b, Decimal(i), Decimal(j));
      DecimalInjective(i, j);
      assert a[..|a| - 3] == ns + "-" + n && b[..|b| - 3] == ms + "-" + m;
    }
  }

  /** Within one namespace, or between names of one length such as UIDs, endpoint keys never collide. */
  lemma LbEndpointKeyInjective(ns: string, n: string, i: nat, ms: string, m: string, j: nat)
    requires ns == ms || |n| == |m|
    requires LbEndpointKey(ns, n, i) == LbEndpointKey(ms, m, j)
    ensures ns == ms && n == m && i == j
  {
    LbEndpointKeyCollision(ns, n, i, ms, m, j);
    var s := ns + "-" + n;
    assert s[..|ns|] == ns && s[..|ms|] == ms;
    assert s[|ns| + 1..] == n && s[|ms| + 1..] == m;
  }

  /** Between namespaces they can: the dash is not a separator the parts cannot contain. */
  lemma LbEndpointKeyAmbiguous()
    ensures LbEndpointKey("a-b", "c", 0) == LbEndpointKey("a", "b-c", 0)
  {
    LbEndpointKeyCollision("a-b", "c", 0, "a", "b-c", 0);
  }

  /** Endpoint keys of a tenant's backends collide exactly when the dashed Service namespace, Service and route do. */
  lemma RouteEndpointKeyCollision(ns: string, sns: string, svc: string, r: string, sns': string, svc': string,
                                  r': string)
    ensures RouteEndpointKey(ns, sns, svc, r) == RouteEndpointKey(ns, sns', svc', r')
      <==> sns + "-" + svc + "-" + r == sns' + "-" + svc' + "-" + r'
  {
    var h := "tenant-" + ns + "-route-";
    var x, y := sns + "-" + svc + "-" + r, sns' + "-" + svc' + "-" + r';
    assert RouteEndpointKey(ns, sns, svc, r) == h + x && RouteEndpointKey(ns, sns', svc', r') == h + y;
    assert (h + x)[|h|..] == x && (h + y)[|h|..] == y;
  }

  /** Two routes of one name in different namespaces share their backend's endpoint key, not its resource name. */
  lemma RouteKeysDisagree(ns: string, sns: string, svc: string, rns: string, rns': string, r: string, port: int,
                          proto: string)
    requires rns != rns'
    ensures RouteResourceName(ns, sns, svc, rns, r, port, proto)
            != RouteResourceName(ns, sns, svc, rns', r, port, proto)
  {
    var h := "tenant-" + ns + "-route-" + sns + "-" + svc + "-";
    var tail := "-" + r + "-port-" + PortKey(port, proto);
    assert RouteResourceName(ns, sns, svc, rns, r, port, proto) == h + rns + tail;
    assert RouteResourceName(ns, sns, svc, rns', r, port, proto) == h + rns' + tail;
    SameMiddle(h, rns, rns', tail);
  }

  lemma SameMiddle(h: string, a: string, b: string, tail: string)
    ensures h + a + tail == h + b + tail <==> a == b
  {
    if h + a + tail == h + b + tail {
      assert |a| == |b|;
      assert (h + a + tail)[|h|..|h| + |a|] == a && (h + b + tail)[|h|..|h| + |b|] == b;
    }
  }

  /** Resource names separate what the two keys separate, for the ports and protocols Kubernetes admits. */
  lemma LbResourceNameInjective(e: string, m: nat, p: string, f: string, n: nat, q: string)
    requires '-' !in p && '-' !in q
    requires e + "-port-" + PortKey(m, p) == f + "-port-" + PortKey(n, q)
    ensures e == f && m == n && p == q
  {
    var a, b := e + "-port-" + Decimal(m), f + "-port-" + Decimal(n);
    assert e + "-port-" + PortKey(m, p) == a + ['-'] + p;
    assert f + "-port-" + PortKey(n, q) == b + ['-'] + q;
    LastSeparator('-', a, b, p, q);
    DecimalHasNoDash(m);
    DecimalHasNoDash(n);
    assert a == (e + "-port") + ['-'] + Decimal(m);
    assert b == (f + "-port") + ['-'] + Decimal(n);
    LastSeparator('-', e + "-port", f + "-port", Decimal(m), Decimal(n));
    DecimalInjective(m, n);
    assert (e + "-port")[..|e|] == e && (f + "-port")[..|f|] == f;
  }

  /** In one namespace the address cache never confuses two references. */
  lemma AddressCacheKeyInjective(ns: string, r: string, s: string)
    requires AddressCacheKey(ns, r) == AddressCacheKey(ns, s)
    ensures r == s
  {
    var k := AddressCacheKey(ns, r);
    assert k[|ns| + 9..] == r;
    assert k[|ns| + 9..] == s;
  }
}
