/** Object names: legal, blind to the UID, and never shared by two (source, provider) pairs unless the
    hash collides on them. */
module Naming {
  import opened Text
  import opened Objects

  /** The characters the scan of `sanitize` writes; it never writes a dash first or after a dash. */
  ghost predicate Scanned(s: string) {
    && (forall i :: 0 <= i < |s| ==> Alnum(s[i]) || s[i] == '-')
    && (s != "" ==> Alnum(s[0]))
  }

  lemma {:induction false} ScanShape(s: string)
    ensures Scanned(Scan(s))
  {
    if s != "" { ScanShape(s[..|s| - 1]); }
  }

  /** `sanitize` */
  method SanitizeText(value: string) returns (r: string)
    ensures r == Sanitize(value)
  {
    var s := ToLower(value);
    var result, lastDash := "", false;
    for i := 0 to |s|
      invariant result == Scan(s[..i])
      invariant lastDash <==> result != "" && result[|result| - 1] == '-'
    {
      assert s[..i + 1][..i] == s[..i];
      if Alnum(s[i]) {
        result := result + [s[i]];
        lastDash := false;
      } else if !lastDash && |result| != 0 {
        result := result + "-";
        lastDash := true;
      }
    }
    assert s[..|s|] == s;
    r := TrimDashes(result);
  }

  /** Letters, digits and dashes, and no dash at either end. */
  ghost predicate Trimmed(s: string) {
    && (forall i :: 0 <= i < |s| ==> Alnum(s[i]) || s[i] == '-')
    && (s != "" ==> Alnum(s[0]) && Alnum(s[|s| - 1]))
  }

  lemma {:induction false} TrimRightShape(s: string)
    requires forall i :: 0 <= i < |s| ==> Alnum(s[i]) || s[i] == '-'
    requires s != "" ==> Alnum(s[0])
    ensures Trimmed(TrimRight(s)) && |TrimRight(s)| <= |s|
  {
    if s != "" && s[|s| - 1] == '-' { TrimRightShape(s[..|s| - 1]); }
  }

  lemma {:induction false} TrimLeftShape(s: string)
    requires forall i :: 0 <= i < |s| ==> Alnum(s[i]) || s[i] == '-'
    ensures
      var r := TrimLeft(s);
      && |r| <= |s| && (r != "" ==> Alnum(r[0]))
      && forall i :: 0 <= i < |r| ==> Alnum(r[i]) || r[i] == '-'
  {
    if s != "" && s[0] == '-' { TrimLeftShape(s[1..]); }
  }

  lemma TrimShape(s: string)
    requires forall i :: 0 <= i < |s| ==> Alnum(s[i]) || s[i] == '-'
    ensures Trimmed(TrimDashes(s)) && |TrimDashes(s)| <= |s|
  {
    TrimLeftShape(s);
    TrimRightShape(TrimLeft(s));
  }

  /** The letters and digits of a text, in order. */
  function Letters(s: string): string {
    if s == "" then ""
    else
      var n := |s| - 1;
      Letters(s[..n]) + if Alnum(s[n]) then [s[n]] else ""
  }

  lemma LettersNext(s: string)
    requires s != ""
    ensures Letters(s) == Letters(s[..|s| - 1]) + if Alnum(s[|s| - 1]) then [s[|s| - 1]] else ""
  {
  }

  lemma {:induction false} LettersSplit(a: string, b: string)
    ensures Letters(a + b) == Letters(a) + Letters(b)
  {
    if b == "" {
      assert a + b == a;
    } else {
      hide Letters;
      var n := |b| - 1;
      LettersNext(b);
      LettersNext(a + b);
      LettersSplit(a, b[..n]);
      assert (a + b)[..|a + b| - 1] == a + b[..n];
    }
  }

  lemma {:induction false} ScanLetters(s: string)
    ensures Letters(Scan(s)) == Letters(s)
  {
    if s != "" {
      var n := |s| - 1;
      ScanLetters(s[..n]);
      var rest := Scan(s[..n]);
      LettersSplit(rest, [s[n]]);
      LettersSplit(rest, "-");
    }
  }

  lemma {:induction false} TrimRightLetters(s: string)
    ensures Letters(TrimRight(s)) == Letters(s)
  {
    if s != "" && s[|s| - 1] == '-' { TrimRightLetters(s[..|s| - 1]); }
  }

  lemma {:induction false} TrimLeftLetters(s: string)
    ensures Letters(TrimLeft(s)) == Letters(s)
  {
    if s != "" && s[0] == '-' {
      TrimLeftLetters(s[1..]);
      assert s == "-" + s[1..];
      LettersSplit("-", s[1..]);
    }
  }

  /** Nothing readable is lost: the letters and digits of a text, lower-cased, survive in their order. */
  lemma SanitizeKeepsLetters(s: string)
    ensures Letters(Sanitize(s)) == Letters(ToLower(s))
  {
    var scanned := Scan(ToLower(s));
    ScanLetters(ToLower(s));
    TrimLeftLetters(scanned);
    TrimRightLetters(TrimLeft(scanned));
  }

  /** Letters and digits with single dashes between them. */
  ghost predicate Tidy(s: string) { Trimmed(s) && forall i :: 0 < i < |s| ==> s[i - 1] != '-' || s[i] != '-' }

  lemma {:induction false} TidyScans(s: string)
    requires (s != "" ==> Alnum(s[0])) && forall i :: 0 <= i < |s| ==> Alnum(s[i]) || s[i] == '-'
    requires forall i :: 0 < i < |s| ==> s[i - 1] != '-' || s[i] != '-'
    ensures Scan(s) == s
  {
    if s != "" { TidyScans(s[..|s| - 1]); }
  }

  lemma {:induction false} ScanSingle(s: string)
    ensures forall i :: 0 < i < |Scan(s)| ==> Scan(s)[i - 1] != '-' || Scan(s)[i] != '-'
  {
    if s != "" { ScanSingle(s[..|s| - 1]); }
  }

  lemma {:induction false} TrimRightPrefix(s: string)
    ensures TrimRight(s) <= s
  {
    if s != "" && s[|s| - 1] == '-' { TrimRightPrefix(s[..|s| - 1]); }
  }

  /** The result is tidy, and what is tidy stays as it is. */
  lemma SanitizeTidies(s: string)
    ensures Tidy(Sanitize(s)) && (Sanitize(s) == s <==> Tidy(s))
  {
    var scanned := Scan(ToLower(s));
    ScanShape(ToLower(s));
    ScanSingle(ToLower(s));
    TrimRightShape(scanned);
    TrimRightPrefix(scanned);
    hide Scan, TrimRight;
    assert TrimLeft(scanned) == scanned;
    if Tidy(s) {
      assert ToLower(s) == s;
      TidyScans(s);
      TrimRightEnd(s);
    }
  }

  lemma TrimRightEnd(s: string)
    requires Trimmed(s)
    ensures TrimRight(s) == s
  {
  }

  lemma PrefixShape(id: Identity, provider: string)
    ensures Trimmed(NamePrefix(id, provider)) && 0 < |NamePrefix(id, provider)| <= MAX_PREFIX
  {
    var text := id.kind + "-" + id.name + "-" + provider;
    ScanShape(ToLower(text));
    TrimShape(Scan(ToLower(text)));
    var prefix := Sanitize(text);
    if |prefix| > MAX_PREFIX {
      TrimShape(prefix[..MAX_PREFIX]);
    }
    assert Trimmed("source");
  }

  predicate Hex(c: char) { '0' <= c <= '9' || 'a' <= c <= 'f' }

  /** What the hash returns: sixteen lower-case hexadecimal digits. */
  ghost predicate HexDigits(s: string) { |s| == 16 && forall i :: 0 <= i < 16 ==> Hex(s[i]) }

  /** Every name is a host name of section 2.1 of RFC 1123, of at most 253 characters. */
  lemma NameLegal(hash16: string -> string, id: Identity, provider: string)
    requires HexDigits(hash16(IdentityValue(id) + [NUL] + provider))
    ensures
      var name := ObjectName(hash16, id, provider);
      Trimmed(name) && 0 < |name| <= 253
  {
    PrefixShape(id, provider);
  }

  lemma NulJoin(a: string, b: string, c: string, d: string)
    requires NUL !in a && NUL !in c && a + [NUL] + b == c + [NUL] + d
    ensures a == c && b == d
  {
    var s := a + [NUL] + b;
    assert s[|a|] == NUL && s[|c|] == NUL;
    assert |a| == |c|;
    assert s[..|a|] == a && s[..|c|] == c;
    assert s[|a| + 1..] == b && s[|c| + 1..] == d;
  }

  predicate NulFree(id: Identity) {
    NUL !in id.apiVersion && NUL !in id.kind && NUL !in id.namespace && NUL !in id.name
  }

  lemma IdentityTextInjective(a: Identity, p: string, b: Identity, q: string)
    requires NulFree(a) && NulFree(b)
    requires IdentityValue(a) + [NUL] + p == IdentityValue(b) + [NUL] + q
    ensures a.(uid := b.uid) == b && p == q
  {
    var a3, b3 := a.name + [NUL] + p, b.name + [NUL] + q;
    var a2, b2 := a.namespace + [NUL] + a3, b.namespace + [NUL] + b3;
    var a1, b1 := a.kind + [NUL] + a2, b.kind + [NUL] + b2;
    assert IdentityValue(a) + [NUL] + p == a.apiVersion + [NUL] + a1;
    assert IdentityValue(b) + [NUL] + q == b.apiVersion + [NUL] + b1;
    NulJoin(a.apiVersion, a1, b.apiVersion, b1);
    NulJoin(a.kind, a2, b.kind, b2);
    NulJoin(a.namespace, a3, b.namespace, b3);
    NulJoin(a.name, p, b.name, q);
  }

  /** ISOLATION. Two names are equal exactly when they are of one source and provider, the UID apart,
      given that the hash does not collide on the two texts it is given. */
  lemma NamesIsolate(hash16: string -> string, a: Identity, p: string, b: Identity, q: string)
    requires NulFree(a) && NulFree(b)
    requires |hash16(IdentityValue(a) + [NUL] + p)| == 16 && |hash16(IdentityValue(b) + [NUL] + q)| == 16
    requires hash16(IdentityValue(a) + [NUL] + p) == hash16(IdentityValue(b) + [NUL] + q) ==>
               IdentityValue(a) + [NUL] + p == IdentityValue(b) + [NUL] + q
    ensures ObjectName(hash16, a, p) == ObjectName(hash16, b, q) <==> a.(uid := b.uid) == b && p == q
  {
    var x, y := ObjectName(hash16, a, p), ObjectName(hash16, b, q);
    hide NamePrefix;
    if x == y {
      assert x[|x| - 16..] == hash16(IdentityValue(a) + [NUL] + p);
      assert y[|y| - 16..] == hash16(IdentityValue(b) + [NUL] + q);
      IdentityTextInjective(a, p, b, q);
    }
    if a.(uid := b.uid) == b && p == q {
      assert IdentityValue(a) == IdentityValue(b) && NamePrefix(a, p) == NamePrefix(b, q) by { SameText(a, b, p); }
    }
  }

  lemma SameText(a: Identity, b: Identity, p: string)
    requires a.(uid := b.uid) == b
    ensures IdentityValue(a) == IdentityValue(b) && NamePrefix(a, p) == NamePrefix(b, p)
  {
  }
}
