/** The string operations of the source, on strings of code points. Case folding is the ASCII one. */
module Text {

  function LowerChar(c: char): char {
    if 'A' <= c <= 'Z' then (c as int - 'A' as int + 'a' as int) as char else c
  }

  function ToLower(s: string): (r: string)
    ensures |r| == |s| && forall i :: 0 <= i < |r| ==> r[i] == LowerChar(s[i])
  {
    seq(|s|, i requires 0 <= i < |s| => LowerChar(s[i]))
  }

  /** `strings.TrimSuffix(s, ".")` */
  function TrimDot(s: string): string {
    if s != "" && s[|s| - 1] == '.' then s[..|s| - 1] else s
  }

  predicate HasPrefix(s: string, prefix: string) { prefix <= s }

  predicate HasSuffix(s: string, suffix: string) {
    |suffix| <= |s| && s[|s| - |suffix|..] == suffix
  }

  predicate Alnum(c: char) { 'a' <= c <= 'z' || '0' <= c <= '9' }

  lemma LowerIdempotent(s: string)
    ensures ToLower(ToLower(s)) == ToLower(s)
  {
  }

  /** `strings.Split(s, sep)` for a separator of one character. */
  function Fields(s: string, sep: char): (r: seq<string>)
    ensures r != []
  {
    if s == "" then [""] else NextFields(Fields(s[..|s| - 1], sep), s[|s| - 1], sep)
  }

  /** One more character. */
  function NextFields(rest: seq<string>, c: char, sep: char): seq<string>
    requires rest != []
  {
    if c == sep then rest + [""] else rest[..|rest| - 1] + [rest[|rest| - 1] + [c]]
  }

  /** `strings.Join(fields, sep)` */
  function JoinFields(fields: seq<string>, sep: char): string
    requires fields != []
  {
    if |fields| == 1 then fields[0] else JoinFields(fields[..|fields| - 1], sep) + [sep] + fields[|fields| - 1]
  }

  lemma FieldsNext(s: string, sep: char)
    requires s != ""
    ensures Fields(s, sep) == NextFields(Fields(s[..|s| - 1], sep), s[|s| - 1], sep)
  {
  }

  lemma JoinOne(f: string, sep: char)
    ensures JoinFields([f], sep) == f
  {
  }

  lemma JoinNext(rest: seq<string>, c: char, sep: char)
    requires rest != []
    ensures JoinFields(NextFields(rest, c, sep), sep) == JoinFields(rest, sep) + [c]
  {
    var r, m := NextFields(rest, c, sep), |rest| - 1;
    if c == sep {
      assert r[..|r| - 1] == rest;
    } else {
      assert r[..m] == rest[..m] && r[m] == rest[m] + [c];
    }
  }

  lemma NextHolds(rest: seq<string>, c: char, sep: char)
    requires rest != [] && forall p :: p in rest ==> sep !in p
    ensures forall p :: p in NextFields(rest, c, sep) ==> sep !in p
  {
    var last := rest[|rest| - 1];
    assert last in rest;
    assert c != sep ==> sep !in last + [c];
    forall p | p in NextFields(rest, c, sep) ensures p in rest || p == last + [c] || p == "" { }
  }

  /** Splitting cuts exactly at the separators. */
  lemma {:induction false} FieldsJoin(s: string, sep: char)
    ensures JoinFields(Fields(s, sep), sep) == s && forall p :: p in Fields(s, sep) ==> sep !in p
  {
    hide Fields, JoinFields, NextFields;
    if s == "" {
      OneField("", sep);
      JoinOne("", sep);
    } else {
      var n := |s| - 1;
      FieldsJoin(s[..n], sep);
      FieldsNext(s, sep);
      JoinNext(Fields(s[..n], sep), s[n], sep);
      NextHolds(Fields(s[..n], sep), s[n], sep);
      assert s == s[..n] + [s[n]];
    }
  }

  lemma {:induction false} FieldsAppend(s: string, t: string, sep: char)
    requires sep !in t
    ensures
      var rest := Fields(s, sep);
      Fields(s + t, sep) == rest[..|rest| - 1] + [rest[|rest| - 1] + t]
  {
    hide Fields;
    var rest := Fields(s, sep);
    if t == "" {
      assert s + t == s && rest[|rest| - 1] + t == rest[|rest| - 1];
    } else {
      FieldsNext(s + t, sep);
      var n := |t| - 1;
      FieldsAppend(s, t[..n], sep);
      assert t[n] in t;
      assert (s + t)[..|s + t| - 1] == s + t[..n];
      assert rest[|rest| - 1] + t[..n] + [t[n]] == rest[|rest| - 1] + t;
    }
  }

  lemma FieldsSeparated(s: string, sep: char)
    ensures Fields(s + [sep], sep) == Fields(s, sep) + [""]
  {
    assert (s + [sep])[..|s|] == s;
  }

  lemma OneField(f: string, sep: char)
    requires sep !in f
    ensures Fields(f, sep) == [f]
  {
    FieldsAppend("", f, sep);
    assert "" + f == f;
  }

  /** Joining fields that hold no separator loses nothing. */
  lemma {:induction false} JoinSplits(fields: seq<string>, sep: char)
    requires fields != [] && forall f :: f in fields ==> sep !in f
    ensures Fields(JoinFields(fields, sep), sep) == fields
  {
    hide Fields;
    var n := |fields| - 1;
    var last := fields[n];
    assert last in fields;
    if n == 0 {
      OneField(last, sep);
    } else {
      var front := JoinFields(fields[..n], sep);
      JoinSplits(fields[..n], sep);
      FieldsSeparated(front, sep);
      FieldsAppend(front + [sep], last, sep);
      assert JoinFields(fields, sep) == front + [sep] + last;
      hide JoinFields;
      var rest := fields[..n] + [""];
      assert rest[..|rest| - 1] == fields[..n] && rest[|rest| - 1] + last == last;
    }
  }

  lemma {:induction false} FieldsConcat(a: string, b: string, sep: char)
    ensures Fields(a + [sep] + b, sep) == Fields(a, sep) + Fields(b, sep)
  {
    var s := a + [sep] + b;
    if b == "" {
      assert s == a + [sep];
      FieldsSeparated(a, sep);
    } else {
      hide Fields;
      var n := |b| - 1;
      FieldsConcat(a, b[..n], sep);
      assert s[..|s| - 1] == a + [sep] + b[..n] && s[|s| - 1] == b[n];
      FieldsNext(s, sep);
      FieldsNext(b, sep);
      NextConcat(Fields(a, sep), Fields(b[..n], sep), b[n], sep);
    }
  }

  lemma NextConcat(front: seq<string>, rest: seq<string>, c: char, sep: char)
    requires rest != []
    ensures NextFields(front + rest, c, sep) == front + NextFields(rest, c, sep)
  {
  }

  lemma {:induction false} JoinConcat(a: seq<string>, b: seq<string>, sep: char)
    requires a != [] && b != []
    ensures JoinFields(a + b, sep) == JoinFields(a, sep) + [sep] + JoinFields(b, sep)
  {
    var n := |b| - 1;
    assert (a + b)[..|a + b| - 1] == a + b[..n];
    if n == 0 {
      assert a + b[..n] == a;
    } else {
      JoinConcat(a, b[..n], sep);
    }
  }
}
