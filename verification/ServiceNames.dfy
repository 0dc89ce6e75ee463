/** Names of generated Services: any text becomes a DNS label of bounded length. */
module ServiceNames {
  const MAX_NAME_LENGTH := 60
  const NAME_SUFFIX_LENGTH := 4

  predicate IsLetter(c: char) { 'a' <= c <= 'z' }

  predicate IsLetDig(c: char) { IsLetter(c) || '0' <= c <= '9' }

  predicate IsLetDigHyp(c: char) { IsLetDig(c) || c == '-' }

  predicate AllLetDigHyp(s: string) { forall c <- s :: IsLetDigHyp(c) }

  /** Section 2.3.1 of RFC 1035, lower case. */
  predicate IsLabel(s: string) {
    s != "" && IsLetter(s[0]) && IsLetDig(s[|s| - 1]) && AllLetDigHyp(s)
  }

  /** Lower-casing leaves what may stand in a label alone; elsewhere it is Unicode's business. */
  ghost predicate Lowers(lower: char -> char) { forall c | IsLetDigHyp(c) :: lower(c) == c }

  /** The first digits of a digest in hexadecimal. */
  ghost predicate HexDigest(hash: string -> string) {
    forall s :: |hash(s)| == NAME_SUFFIX_LENGTH && forall c <- hash(s) :: IsLetDig(c)
  }

  function Sanitize(lower: char -> char, c: char): char {
    if IsLetDigHyp(lower(c)) then lower(c) else '-'
  }

  function SanitizeAll(lower: char -> char, s: string): string {
    seq(|s|, i requires 0 <= i < |s| => Sanitize(lower, s[i]))
  }

  function TrimLeft(s: string): (r: string)
    ensures r == "" || r[0] != '-'
    ensures AllLetDigHyp(s) ==> AllLetDigHyp(r)
    ensures (s == "" || s[0] != '-') ==> r == s
  {
    if s != "" && s[0] == '-' then TrimLeft(s[1..]) else s
  }

  function TrimRight(s: string): (r: string)
    ensures r <= s && (r == "" || r[|r| - 1] != '-')
    ensures (s == "" || s[|s| - 1] != '-') ==> r == s
    ensures s != "" && s[0] != '-' ==> r != ""
    ensures forall i | |r| <= i < |s| :: s[i] == '-'
  {
    if s != "" && s[|s| - 1] == '-' then TrimRight(s[..|s| - 1]) else s
  }

  function Dns1035Name(lower: char -> char, name: string): string {
    var output := TrimRight(TrimLeft(SanitizeAll(lower, name)));
    if output == "" then "k" else if !IsLetter(output[0]) then "k-" + output else output
  }

  method BuildDns1035Name(lower: char -> char, name: string) returns (output: string)
    ensures output == Dns1035Name(lower, name)
  {
    var builder := "";
    for i := 0 to |name|
      invariant |builder| == i && forall j | 0 <= j < i :: builder[j] == Sanitize(lower, name[j])
    {
      var c := lower(name[i]);
      if 'a' <= c <= 'z' || '0' <= c <= '9' || c == '-' {
        builder := builder + [c];
      } else {
        builder := builder + ['-'];
      }
    }
    assert builder == SanitizeAll(lower, name);
    output := TrimRight(TrimLeft(builder));
    if output == "" { return "k"; }
    if output[0] < 'a' || output[0] > 'z' {
      output := "k-" + output;
    }
  }

  function TruncateName(hash: string -> string, name: string): string
    requires |name| >= MAX_NAME_LENGTH
  {
    TrimRight(name[..MAX_NAME_LENGTH - (NAME_SUFFIX_LENGTH + 1)]) + "-" + hash(name)
  }

  function GenerateRouteServiceName(lower: char -> char, hash: string -> string, route: string, service: string,
                                    namespace: string): string {
    var output := Dns1035Name(lower, namespace + "-" + route + "-" + service);
    if |output| >= MAX_NAME_LENGTH then TruncateName(hash, output) else output
  }

  lemma SanitizedIsLetDigHyp(lower: char -> char, s: string)
    ensures AllLetDigHyp(SanitizeAll(lower, s))
  {}

  /** Whatever the input, a label comes out. */
  lemma Dns1035NameIsLabel(lower: char -> char, name: string)
    ensures IsLabel(Dns1035Name(lower, name))
  {
    SanitizedIsLetDigHyp(lower, name);
    var left := TrimLeft(SanitizeAll(lower, name));
    var output := TrimRight(left);
    assert AllLetDigHyp(output) by { forall c <- output ensures c in left {} }
    assert AllLetDigHyp("k-") && AllLetDigHyp("k");
    if output != "" {
      assert left[0] == output[0] && IsLetDig(output[|output| - 1]) by {
        assert output[|output| - 1] in output;
      }
      var s := "k-" + output;
      assert s[|s| - 1] == output[|output| - 1];
      assert AllLetDigHyp(s);
    }
  }

  lemma SanitizeKeepsLabels(lower: char -> char, s: string)
    requires Lowers(lower) && AllLetDigHyp(s)
    ensures SanitizeAll(lower, s) == s
  {
    forall i | 0 <= i < |s| ensures Sanitize(lower, s[i]) == s[i] { assert s[i] in s; }
  }

  /** Labels, and only labels, are left as they are. */
  lemma LabelsAreFixedPoints(lower: char -> char, s: string)
    requires Lowers(lower)
    ensures Dns1035Name(lower, s) == s <==> IsLabel(s)
  {
    Dns1035NameIsLabel(lower, s);
    if IsLabel(s) { SanitizeKeepsLabels(lower, s); }
  }

  lemma Dns1035NameIsIdempotent(lower: char -> char, name: string)
    requires Lowers(lower)
    ensures Dns1035Name(lower, Dns1035Name(lower, name)) == Dns1035Name(lower, name)
  {
    Dns1035NameIsLabel(lower, name);
    LabelsAreFixedPoints(lower, Dns1035Name(lower, name));
  }

  lemma TruncationKeepsLabels(hash: string -> string, name: string)
    requires HexDigest(hash) && IsLabel(name) && |name| >= MAX_NAME_LENGTH
    ensures IsLabel(TruncateName(hash, name)) && |TruncateName(hash, name)| <= MAX_NAME_LENGTH
  {
    var cut := name[..MAX_NAME_LENGTH - (NAME_SUFFIX_LENGTH + 1)];
    var prefix, suffix := TrimRight(cut), hash(name);
    var r := prefix + "-" + suffix;
    assert r[0] == prefix[0] == cut[0] == name[0];
    assert r[|r| - 1] == suffix[|suffix| - 1] && suffix[|suffix| - 1] in suffix;
    forall c <- r ensures IsLetDigHyp(c) {
      assert c in prefix ==> c in name;
      assert c in prefix || c == '-' || c in suffix;
    }
  }

  /** Every generated Service name is a label of at most 60 characters. */
  lemma GeneratedNamesAreLegal(lower: char -> char, hash: string -> string, route: string, service: string,
                               namespace: string)
    requires HexDigest(hash)
    ensures var r := GenerateRouteServiceName(lower, hash, route, service, namespace);
            IsLabel(r) && |r| <= MAX_NAME_LENGTH
  {
    var name := namespace + "-" + route + "-" + service;
    Dns1035NameIsLabel(lower, name);
    if |Dns1035Name(lower, name)| >= MAX_NAME_LENGTH { TruncationKeepsLabels(hash, Dns1035Name(lower, name)); }
  }

  lemma JoinedLabels(a: string, b: string)
    requires IsLabel(a) && IsLabel(b)
    ensures IsLabel(a + "-" + b)
  {
    var s := a + "-" + b;
    assert s[0] == a[0] && s[|s| - 1] == b[|b| - 1];
    forall c <- s ensures IsLetDigHyp(c) { assert c in a || c == '-' || c in b; }
  }

  /** Reference: `p` is `s` without the dashes at its end. */
  predicate DashesTrimmed(p: string, s: string) {
    p <= s && (p == "" || p[|p| - 1] != '-') && forall i | |p| <= i < |s| :: s[i] == '-'
  }

  /** Labels stay readable: all of them if they fit, else their first 55 characters and a digest. */
  lemma NamesAreReadable(lower: char -> char, hash: string -> string, route: string, service: string, namespace: string)
    requires Lowers(lower) && IsLabel(route) && IsLabel(service) && IsLabel(namespace)
    ensures var joined, r := namespace + "-" + route + "-" + service,
                             GenerateRouteServiceName(lower, hash, route, service, namespace);
            if |joined| < 60 then r == joined
            else exists p :: DashesTrimmed(p, joined[..55]) && r == p + "-" + hash(joined)
  {
    var joined := namespace + "-" + route + "-" + service;
    JoinedLabels(namespace, route);
    JoinedLabels(namespace + "-" + route, service);
    LabelsAreFixedPoints(lower, joined);
    if |joined| >= 60 { assert DashesTrimmed(TrimRight(joined[..55]), joined[..55]); }
  }
}
