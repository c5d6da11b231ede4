/** Hostnames and zones. */
module Names {
  import opened Lifecycle
  import opened Text
  import opened Ordering

  /** Go's white space. */
  predicate IsSpace(c: char) {
    var n := c as int;
    || 9 <= n <= 13 || n == 0x20 || n == 0x85 || n == 0xA0 || n == 0x1680 || 0x2000 <= n <= 0x200A
    || n == 0x2028 || n == 0x2029 || n == 0x202F || n == 0x205F || n == 0x3000
  }

  function TrimSpaceLeft(s: string): string {
    if s != "" && IsSpace(s[0]) then TrimSpaceLeft(s[1..]) else s
  }

  function TrimSpaceRight(s: string): string {
    if s != "" && IsSpace(s[|s| - 1]) then TrimSpaceRight(s[..|s| - 1]) else s
  }

  function TrimSpace(s: string): string { TrimSpaceRight(TrimSpaceLeft(s)) }

  predicate SubdomainChar(s: string, i: nat)
    requires i < |s|
  {
    Alnum(s[i]) || s[i] == '-' || (s[i] == '.' && 0 < i < |s| - 1 && Alnum(s[i - 1]) && Alnum(s[i + 1]))
  }

  /** `validation.IsDNS1123Subdomain`: dot-separated labels that start and end alphanumeric. */
  predicate Subdomain(s: string) {
    && 0 < |s| <= 253
    && Alnum(s[0]) && Alnum(s[|s| - 1])
    && forall i :: 0 <= i < |s| ==> SubdomainChar(s, i)
  }

  function CutWildcard(s: string): string { if HasPrefix(s, "*.") then s[2..] else s }

  function NormalizeHostname(value: string): Option<string> {
    var v := ToLower(TrimDot(TrimSpace(value)));
    var check := CutWildcard(v);
    if '*' in check || !Subdomain(check) then None else Some(v)
  }

  /** A published name: a subdomain, or a wildcard label before one. */
  predicate Hostname(name: string) { Subdomain(CutWildcard(name)) }

  /** Normalised names are hostnames, and normalising again, here or in the writer, changes nothing. */
  lemma NormalizedIsFixed(value: string)
    requires NormalizeHostname(value).Some?
    ensures
      var v := NormalizeHostname(value).value;
      Hostname(v) && ToLower(TrimDot(v)) == v && NormalizeHostname(v) == Some(v)
  {
    var v := NormalizeHostname(value).value;
    LowerIdempotent(TrimDot(TrimSpace(value)));
    HostnameEnds(v);
  }

  lemma HostnameEnds(v: string)
    requires Hostname(v)
    ensures v != "" && v[|v| - 1] != '.' && TrimSpace(v) == v && TrimDot(v) == v
  {
    var check := CutWildcard(v);
    assert check[|check| - 1] == v[|v| - 1];
    assert !IsSpace(v[0]) && !IsSpace(v[|v| - 1]);
  }

  /** The names that normalisation leaves alone are exactly the hostnames, and a trailing dot changes
      nothing. */
  lemma HostnamesAreFixed(v: string)
    ensures NormalizeHostname(v) == Some(v) <==> Hostname(v)
    ensures Hostname(v) ==> NormalizeHostname(v + ".") == Some(v)
  {
    if Hostname(v) {
      HostnameEnds(v);
      var check := CutWildcard(v);
      forall i | 0 <= i < |check| ensures check[i] != '*' && LowerChar(check[i]) == check[i] {
        assert SubdomainChar(check, i);
      }
      assert ToLower(v) == v;
      var dotted := v + ".";
      assert dotted[0] == v[0] && TrimSpace(dotted) == dotted && TrimDot(dotted) == v by {
        assert !IsSpace(v[0]) && !IsSpace(dotted[|dotted| - 1]);
      }
    }
  }

  function ZoneText(zone: string): string { ToLower(TrimDot(zone)) }

  function ZoneHost(hostname: string): string { CutWildcard(ToLower(TrimDot(hostname))) }

  /** `zone` is the host itself or ends it at a label boundary. */
  predicate Within(host: string, zone: string) {
    zone != "" && (host == zone || HasSuffix(host, "." + zone))
  }

  ghost predicate InZones(hostname: string, zones: seq<string>) {
    exists z :: z in zones && Within(ZoneHost(hostname), ZoneText(z))
  }

  /** A longest matching zone, or nothing when none matches. */
  ghost predicate Best(hostname: string, zones: seq<string>, best: string) {
    && (best == "" <==> !InZones(hostname, zones))
    && (best != "" ==> exists z :: z in zones && ZoneText(z) == best && Within(ZoneHost(hostname), best))
    && (forall z :: z in zones && Within(ZoneHost(hostname), ZoneText(z)) ==> |ZoneText(z)| <= |best|)
  }

  method MatchingZone(hostname: string, zones: seq<string>) returns (best: string)
    ensures Best(hostname, zones, best)
  {
    var host := CutWildcard(ToLower(TrimDot(hostname)));
    best := "";
    for i := 0 to |zones|
      invariant Best(hostname, zones[..i], best)
    {
      assert zones[..i + 1] == zones[..i] + [zones[i]];
      var zone := ToLower(TrimDot(zones[i]));
      ghost var before := best;
      if (host == zone || HasSuffix(host, "." + zone)) && |zone| > |best| {
        best := zone;
      }
      BestStep(hostname, zones[..i], zones[i], before, best);
    }
    assert zones[..|zones|] == zones;
  }

  lemma BestStep(hostname: string, zones: seq<string>, next: string, before: string, best: string)
    requires Best(hostname, zones, before)
    requires best == if (ZoneHost(hostname) == ZoneText(next) || HasSuffix(ZoneHost(hostname), "." + ZoneText(next)))
                     && |ZoneText(next)| > |before| then ZoneText(next) else before
    ensures Best(hostname, zones + [next], best)
  {
    var more := zones + [next];
    var host := ZoneHost(hostname);
    hide ZoneText, ZoneHost;
    assert next in more;
    forall z | z in more ensures z in zones || z == next { }
    if InZones(hostname, zones) {
      var z :| z in zones && Within(host, ZoneText(z));
      assert z in more;
      var y :| y in zones && ZoneText(y) == before && Within(host, before);
      assert y in more;
    }
  }

  lemma WithinEnds(host: string, zone: string)
    requires Within(host, zone)
    ensures |zone| <= |host| && host[|host| - |zone|..] == zone
  {
    if host != zone {
      assert host[|host| - |zone|..] == host[|host| - |zone| - 1..][1..];
    }
  }

  /** The match does not depend on the order or the repetition of the zones. */
  lemma BestUnique(hostname: string, a: seq<string>, b: seq<string>, x: string, y: string)
    requires forall z :: z in a <==> z in b
    requires Best(hostname, a, x) && Best(hostname, b, y)
    ensures x == y
  {
    hide ZoneText, ZoneHost;
    var host := ZoneHost(hostname);
    if x != "" {
      var p :| p in a && ZoneText(p) == x && Within(host, x);
      assert p in b && InZones(hostname, b);
      var q :| q in b && ZoneText(q) == y && Within(host, y);
      assert q in a;
      WithinEnds(host, x);
      WithinEnds(host, y);
      hide Within;
    } else {
      assert InZones(hostname, b) ==> InZones(hostname, a);
    }
  }

  /** Some last fields. */
  ghost predicate EndsWith(fields: seq<string>, last: seq<string>) {
    |last| <= |fields| && fields[|fields| - |last|..] == last
  }

  /** ZONES END AT LABELS: a host is within a zone exactly when the zone's labels are its last labels. */
  lemma WithinIsLabels(host: string, zone: string)
    requires zone != ""
    ensures Within(host, zone) <==> EndsWith(Fields(host, '.'), Fields(zone, '.'))
  {
    hide Fields, JoinFields;
    var h, z := Fields(host, '.'), Fields(zone, '.');
    FieldsJoin(host, '.');
    FieldsJoin(zone, '.');
    if host != zone && HasSuffix(host, "." + zone) {
      var front := host[..|host| - |zone| - 1];
      assert host == front + "." + zone;
      FieldsConcat(front, zone, '.');
    }
    if EndsWith(h, z) {
      var front := h[..|h| - |z|];
      assert h == front + z;
      if front == [] {
        assert h == z;
      } else {
        JoinConcat(front, z, '.');
        var f := JoinFields(front, '.');
        assert host == f + "." + zone;
        assert host[|f|..] == "." + zone;
      }
    }
  }

  predicate Spaces(s: string) { forall i :: 0 <= i < |s| ==> IsSpace(s[i]) }

  lemma {:induction false} TrimLeftCuts(s: string)
    ensures
      var r := TrimSpaceLeft(s);
      |r| <= |s| && s[|s| - |r|..] == r && Spaces(s[..|s| - |r|]) && (r != "" ==> !IsSpace(r[0]))
  {
    if s != "" && IsSpace(s[0]) {
      TrimLeftCuts(s[1..]);
      var r := TrimSpaceLeft(s[1..]);
      forall i | 0 <= i < |s| - |r| ensures IsSpace(s[i]) {
        assert i > 0 ==> s[i] == s[1..][..|s| - 1 - |r|][i - 1];
      }
    }
  }

  lemma {:induction false} TrimRightCuts(s: string)
    ensures
      var r := TrimSpaceRight(s);
      |r| <= |s| && s[..|r|] == r && Spaces(s[|r|..]) && (r != "" ==> !IsSpace(r[|r| - 1]) && r[0] == s[0])
  {
    if s != "" && IsSpace(s[|s| - 1]) {
      var n := |s| - 1;
      TrimRightCuts(s[..n]);
      var r := TrimSpaceRight(s[..n]);
      forall i | |r| <= i < |s| ensures IsSpace(s[i]) {
        assert i < n ==> s[i] == s[..n][|r|..][i - |r|];
      }
    }
  }

  /** `v` between spaces, in any letter case, with or without a final dot. */
  ghost predicate Denotes(value: string, v: string) {
    exists i, j :: 0 <= i <= j <= |value| && SpelledAt(value, i, j, v)
  }

  ghost predicate SpelledAt(value: string, i: nat, j: nat, v: string)
    requires i <= j <= |value|
  {
    && Spaces(value[..i]) && Spaces(value[j..])
    && (ToLower(value[i..j]) == v || ToLower(value[i..j]) == v + ".")
  }

  lemma {:induction false} TrimLeftOf(s: string, i: nat)
    requires i < |s| && Spaces(s[..i]) && !IsSpace(s[i])
    ensures TrimSpaceLeft(s) == s[i..]
  {
    if i > 0 {
      assert IsSpace(s[..i][0]);
      forall k | 0 <= k < i - 1 ensures IsSpace(s[1..][k]) { assert IsSpace(s[..i][k + 1]); }
      TrimLeftOf(s[1..], i - 1);
    }
  }

  lemma {:induction false} TrimRightOf(s: string, j: nat)
    requires 0 < j <= |s| && Spaces(s[j..]) && !IsSpace(s[j - 1])
    ensures TrimSpaceRight(s) == s[..j]
  {
    var n := |s| - 1;
    if j <= n {
      assert IsSpace(s[j..][n - j]);
      forall k | 0 <= k < n - j ensures IsSpace(s[..n][j..][k]) { assert IsSpace(s[j..][k]); }
      TrimRightOf(s[..n], j);
    }
  }

  lemma TrimSpaceOf(s: string, i: nat, j: nat)
    requires i < j <= |s| && Spaces(s[..i]) && Spaces(s[j..]) && !IsSpace(s[i]) && !IsSpace(s[j - 1])
    ensures TrimSpace(s) == s[i..j]
  {
    TrimLeftOf(s, i);
    var t := s[i..];
    assert t[j - i..] == s[j..];
    TrimRightOf(t, j - i);
  }

  /** NORMALISATION, exactly: a value is accepted when it spells a hostname, and gives that hostname. */
  lemma NormalizeExact(value: string, v: string)
    ensures NormalizeHostname(value) == Some(v) <==> Hostname(v) && Denotes(value, v)
  {
    hide IsSpace, Subdomain, TrimSpaceLeft, TrimSpaceRight;
    if NormalizeHostname(value) == Some(v) {
      var l := TrimSpaceLeft(value);
      var m := TrimSpace(value);
      TrimLeftCuts(value);
      TrimRightCuts(l);
      var i := |value| - |l|;
      var j := i + |m|;
      assert value[i..j] == m && value[j..] == l[|m|..];
      assert SpelledAt(value, i, j, v);
    }
    if Hostname(v) && Denotes(value, v) {
      var i, j :| 0 <= i <= j <= |value| && SpelledAt(value, i, j, v);
      SpelledNormalizes(value, i, j, v);
    }
  }

  lemma LowerSpace(c: char)
    ensures IsSpace(LowerChar(c)) <==> IsSpace(c)
    ensures LowerChar(c) == '.' <==> c == '.'
  {
  }

  lemma SpelledCore(m: string, v: string)
    requires Hostname(v) && (ToLower(m) == v || ToLower(m) == v + ".")
    ensures m != "" && !IsSpace(m[0]) && !IsSpace(m[|m| - 1]) && ToLower(TrimDot(m)) == v
  {
    HostnameEnds(v);
    HostnameSolid(v);
    DotSolid();
    hide IsSpace, Subdomain, Hostname;
    var l := ToLower(m);
    assert l[0] == v[0] && l[0] == LowerChar(m[0]) && l[|m| - 1] == LowerChar(m[|m| - 1]);
    LowerSpace(m[0]);
    LowerSpace(m[|m| - 1]);
  }

  lemma SpelledNormalizes(value: string, i: nat, j: nat, v: string)
    requires Hostname(v) && i <= j <= |value| && SpelledAt(value, i, j, v)
    ensures NormalizeHostname(value) == Some(v)
  {
    hide IsSpace, Subdomain, TrimSpace, ToLower, Hostname;
    SpelledCore(value[i..j], v);
    TrimSpaceOf(value, i, j);
    HostnameEnds(v);
    HostnamesAreFixed(v);
    assert ToLower(v) == v by { NormalizedIsFixed(v); }
  }

  lemma DotSolid()
    ensures !IsSpace('.')
  {
  }

  lemma HostnameSolid(v: string)
    requires Hostname(v)
    ensures v != "" && !IsSpace(v[0]) && !IsSpace(v[|v| - 1])
  {
    var check := CutWildcard(v);
    assert check[|check| - 1] == v[|v| - 1];
  }

  lemma ZoneSpelling(zone: string, v: string)
    requires v == "" || v[|v| - 1] != '.'
    ensures ZoneText(zone) == v <==> ToLower(zone) == v || ToLower(zone) == v + "."
  {
    var lower := ToLower(zone);
    if lower == v + "." {
      assert lower[|lower| - 1] == LowerChar(zone[|lower| - 1]);
    }
    if lower == v && v != "" {
      assert v[|v| - 1] == LowerChar(zone[|v| - 1]);
    }
  }

  lemma WithinEnd(host: string, zone: string)
    requires Within(host, zone)
    ensures host != "" && zone[|zone| - 1] == host[|host| - 1]
  {
    WithinEnds(host, zone);
  }

  lemma HostnameBare(name: string)
    requires Hostname(name)
    ensures ZoneHost(name) == CutWildcard(name)
    ensures CutWildcard(name) != "" && CutWildcard(name)[|CutWildcard(name)| - 1] != '.'
  {
    HostnameEnds(name);
    HostnamesAreFixed(name);
    NormalizedIsFixed(name);
  }

  /** IN A ZONE, from the labels: a hostname, its wildcard label apart, is in the zones exactly when the labels
      of some zone, in any letter case and with or without a final dot, are its last labels. */
  lemma InZonesExact(name: string, zones: seq<string>)
    requires Hostname(name)
    ensures
      InZones(name, zones) <==>
        exists z, v ::
          && z in zones && v != "" && (ToLower(z) == v || ToLower(z) == v + ".")
          && EndsWith(Fields(CutWildcard(name), '.'), Fields(v, '.'))
  {
    HostnameBare(name);
    hide Fields, ZoneHost, Hostname, CutWildcard, ZoneText, ToLower, Within;
    var host := CutWildcard(name);
    if InZones(name, zones) {
      var z :| z in zones && Within(host, ZoneText(z));
      var v := ZoneText(z);
      assert v != "" by { WithinFilled(host, v); }
      WithinEnd(host, v);
      ZoneSpelling(z, v);
      WithinIsLabels(host, v);
    }
    if exists z, v ::
        && z in zones && v != "" && (ToLower(z) == v || ToLower(z) == v + ".")
        && EndsWith(Fields(host, '.'), Fields(v, '.'))
    {
      var z, v :|
        && z in zones && v != "" && (ToLower(z) == v || ToLower(z) == v + ".")
        && EndsWith(Fields(host, '.'), Fields(v, '.'));
      WithinIsLabels(host, v);
      WithinEnd(host, v);
      ZoneSpelling(z, v);
    }
  }

  lemma WithinFilled(host: string, zone: string)
    requires Within(host, zone)
    ensures zone != ""
  {
  }
}
