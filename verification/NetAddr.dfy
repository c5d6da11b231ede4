/** IP addresses and their text, as Go's `netip` prints and reads it. IPv6 text is that of section 4 of
    RFC 5952: lower-case hexadecimal groups without leading zeros, the first longest run of at least two
    zero groups compressed. The reader takes any text of eight groups or with one `::`, any letter case
    and leading zeros; a group in dotted decimal form is not read, since no canonical label holds a dot. */
module NetAddr {
  import opened Lifecycle
  import opened Text

  datatype Address = V4(octets: seq<int>) | V6(groups: seq<int>, zone: string)

  predicate Groups(groups: seq<int>) { |groups| == 8 && forall i :: 0 <= i < 8 ==> 0 <= groups[i] < 0x1_0000 }

  predicate Octets(octets: seq<int>) { |octets| == 4 && forall i :: 0 <= i < 4 ==> 0 <= octets[i] < 256 }

  predicate Proper(a: Address) {
    match a
    case V4(octets) => Octets(octets)
    case V6(groups, _) => Groups(groups)
  }

  /** An IPv4 address mapped into IPv6. */
  predicate Is4In6(a: Address) { a.V6? && |a.groups| == 8 && a.groups[..5] == [0, 0, 0, 0, 0] && a.groups[5] == 0xFFFF }

  function Digit(d: int): char
    requires 0 <= d < 16
  {
    if d < 10 then (d + '0' as int) as char else (d - 10 + 'a' as int) as char
  }

  function DigitValue(c: char): Option<int> {
    if '0' <= c <= '9' then Some(c as int - '0' as int)
    else if 'a' <= c <= 'f' then Some(c as int - 'a' as int + 10)
    else if 'A' <= c <= 'F' then Some(c as int - 'A' as int + 10)
    else None
  }

  /** A number without leading zeros. */
  function PrintNat(n: nat, base: int): string
    requires 2 <= base <= 16
    decreases n
  {
    if n < base then [Digit(n)] else PrintNat(n / base, base) + [Digit(n % base)]
  }

  function ReadNat(s: string, base: nat): Option<nat> {
    if s == "" then None
    else
      var d := DigitValue(s[|s| - 1]);
      if d.None? || d.value >= base then None
      else if |s| == 1 then Some(d.value)
      else
        var rest := ReadNat(s[..|s| - 1], base);
        if rest.None? then None else Some(rest.value * base + d.value)
  }

  lemma DigitReads(d: int)
    requires 0 <= d < 16
    ensures DigitValue(Digit(d)) == Some(d)
    ensures Digit(d) == '0' ==> d == 0
  {
  }

  predicate PrintedDigit(c: char) { '0' <= c <= '9' || 'a' <= c <= 'f' }

  lemma DivideBack(n: nat, base: int)
    requires 2 <= base <= n
    ensures n / base * base + n % base == n && 0 < n / base < n && 0 <= n % base < base
  {
  }

  lemma {:induction false} ReadLonger(s: string, c: char, base: nat)
    requires ReadNat(s, base).Some? && DigitValue(c).Some? && DigitValue(c).value < base
    ensures ReadNat(s + [c], base) == Some(ReadNat(s, base).value * base + DigitValue(c).value)
  {
    assert (s + [c])[..|s|] == s;
  }

  /** Printing then reading gives the number back; nothing but digits is printed. */
  lemma {:induction false} NatReads(n: nat, base: int)
    requires 2 <= base <= 16
    ensures
      var s := PrintNat(n, base);
      ReadNat(s, base) == Some(n) && s != "" && forall i :: 0 <= i < |s| ==> PrintedDigit(s[i])
    ensures n > 0 ==> PrintNat(n, base)[0] != '0'
    decreases n
  {
    if n < base {
      DigitReads(n);
    } else {
      DivideBack(n, base);
      NatReads(n / base, base);
      DigitReads(n % base);
      ReadLonger(PrintNat(n / base, base), Digit(n % base), base);
      hide ReadNat, DigitValue;
    }
  }

  lemma PrintLonger(n: nat, base: int)
    requires 2 <= base <= 16
    ensures |PrintNat(n, base)| == if n < base then 1 else |PrintNat(n / base, base)| + 1
  {
  }

  lemma HexLength(n: nat)
    requires n < 0x1_0000
    ensures |PrintNat(n, 16)| <= 4
  {
    hide PrintNat;
    PrintLonger(n, 16);
    PrintLonger(n / 16, 16);
    PrintLonger(n / 16 / 16, 16);
    PrintLonger(n / 16 / 16 / 16, 16);
  }

  lemma DecimalLength(n: nat)
    requires n < 1000
    ensures |PrintNat(n, 10)| <= 3
  {
    hide PrintNat;
    PrintLonger(n, 10);
    PrintLonger(n / 10, 10);
    PrintLonger(n / 10 / 10, 10);
  }

  /** A group: one to four hexadecimal digits. */
  function ReadGroup(s: string): Option<nat> { if |s| > 4 then None else ReadNat(s, 16) }

  /** An octet: decimal, at most 255, no leading zero. */
  function ReadOctet(s: string): Option<nat> {
    var n := ReadNat(s, 10);
    if n.None? || |s| > 3 || n.value > 255 || (|s| > 1 && s[0] == '0') then None else n
  }

  /** Every text read, or nothing when one is not. */
  function ReadAll(read: string -> Option<nat>, texts: seq<string>): Option<seq<int>> {
    if texts == [] then Some([])
    else
      var n := |texts| - 1;
      var rest, last := ReadAll(read, texts[..n]), read(texts[n]);
      if rest.None? || last.None? then None else Some(rest.value + [last.value])
  }

  function Texts(numbers: seq<int>, base: int): seq<string>
    requires 2 <= base <= 16 && forall i :: 0 <= i < |numbers| ==> numbers[i] >= 0
  {
    seq(|numbers|, i requires 0 <= i < |numbers| => PrintNat(numbers[i], base))
  }

  /** What is read one by one and printed one by one comes back as a list. */
  lemma {:induction false} AllReads(read: string -> Option<nat>, numbers: seq<int>, base: int)
    requires 2 <= base <= 16 && forall i :: 0 <= i < |numbers| ==> numbers[i] >= 0
    requires forall i :: 0 <= i < |numbers| ==> read(PrintNat(numbers[i], base)) == Some(numbers[i])
    ensures ReadAll(read, Texts(numbers, base)) == Some(numbers)
  {
    if numbers != [] {
      var n := |numbers| - 1;
      AllReads(read, numbers[..n], base);
      assert Texts(numbers, base)[..n] == Texts(numbers[..n], base);
      assert numbers == numbers[..n] + [numbers[n]];
    }
  }

  /** The number of zero groups from `i` on. */
  function Zeros(groups: seq<int>, i: nat): nat
    decreases |groups| - i
  {
    if i < |groups| && groups[i] == 0 then 1 + Zeros(groups, i + 1) else 0
  }

  /** Where the run to compress starts, among the positions before `n`: the first of the longest runs of at
      least two zero groups, or nowhere. */
  function Longest(groups: seq<int>, n: nat): Option<nat> {
    if n == 0 then None
    else
      var best := Longest(groups, n - 1);
      var length := Zeros(groups, n - 1);
      if length >= 2 && (best.None? || length > Zeros(groups, best.value)) then Some(n - 1) else best
  }

  /** Section 4.2 of RFC 5952: a run of one zero group is not compressed, a longest run is, and of equal
      ones the first. */
  lemma {:induction false} LongestIs(groups: seq<int>, n: nat)
    ensures
      match Longest(groups, n)
      case None => forall i :: 0 <= i < n ==> Zeros(groups, i) < 2
      case Some(s) =>
        && s < n && Zeros(groups, s) >= 2
        && (forall i :: 0 <= i < n ==> Zeros(groups, i) <= Zeros(groups, s))
        && (forall i :: 0 <= i < s ==> Zeros(groups, i) < Zeros(groups, s))
  {
    if n > 0 { LongestIs(groups, n - 1); }
  }

  lemma {:induction false} ZerosAre(groups: seq<int>, i: nat)
    ensures i <= |groups| ==> i + Zeros(groups, i) <= |groups|
    ensures forall j :: i <= j < i + Zeros(groups, i) ==> j < |groups| && groups[j] == 0
    decreases |groups| - i
  {
    if i < |groups| && groups[i] == 0 {
      ZerosAre(groups, i + 1);
      forall j | i <= j < i + Zeros(groups, i) ensures j < |groups| && groups[j] == 0 {
        assert j == i || i + 1 <= j < i + 1 + Zeros(groups, i + 1);
      }
    } else {
      assert Zeros(groups, i) == 0;
    }
  }

  function JoinGroups(groups: seq<int>): string
    requires forall i :: 0 <= i < |groups| ==> groups[i] >= 0
  {
    if groups == [] then "" else JoinFields(Texts(groups, 16), ':')
  }

  function PrintGroups(groups: seq<int>): string
    requires Groups(groups)
  {
    match Longest(groups, 8)
    case None => JoinGroups(groups)
    case Some(s) =>
      ZerosAre(groups, s);
      LongestIs(groups, 8);
      JoinGroups(groups[..s]) + "::" + JoinGroups(groups[s + Zeros(groups, s)..])
  }

  /** The position of the first `::`. */
  function FirstDouble(s: string): Option<nat> {
    if |s| < 2 then None
    else if s[0] == ':' && s[1] == ':' then Some(0)
    else
      var rest := FirstDouble(s[1..]);
      if rest.None? then None else Some(rest.value + 1)
  }

  lemma {:induction false} DoubleFits(s: string)
    ensures FirstDouble(s).Some? ==> FirstDouble(s).value + 2 <= |s|
  {
    if |s| >= 2 { DoubleFits(s[1..]); }
  }

  function ReadPart(s: string): Option<seq<int>> {
    if s == "" then Some([]) else ReadAll(ReadGroup, Fields(s, ':'))
  }

  /** Eight groups, or fewer around one `::` that stands for the missing zeros, at least one. */
  function ReadGroups(s: string): Option<seq<int>> {
    match FirstDouble(s)
    case None =>
      var all := ReadPart(s);
      if all.None? || |all.value| != 8 then None else all
    case Some(i) =>
      DoubleFits(s);
      var left, right := ReadPart(s[..i]), ReadPart(s[i + 2..]);
      if left.None? || right.None? || |left.value| + |right.value| > 7 then None
      else Some(left.value + seq(8 - |left.value| - |right.value|, _ => 0) + right.value)
  }

  lemma TextsPlain(groups: seq<int>)
    requires forall i :: 0 <= i < |groups| ==> 0 <= groups[i] < 0x1_0000
    ensures
      forall f :: f in Texts(groups, 16) ==> f != "" && |f| <= 4 && forall i :: 0 <= i < |f| ==> PrintedDigit(f[i])
    ensures ReadAll(ReadGroup, Texts(groups, 16)) == Some(groups)
  {
    hide PrintNat, ReadNat;
    forall i | 0 <= i < |groups|
      ensures
        var f := PrintNat(groups[i], 16);
        f != "" && |f| <= 4 && ReadNat(f, 16) == Some(groups[i]) && forall j :: 0 <= j < |f| ==> PrintedDigit(f[j])
    {
      NatReads(groups[i], 16);
      HexLength(groups[i]);
    }
    AllReads(ReadGroup, groups, 16);
  }

  /** Printed groups: digits and single colons, none at either end. */
  ghost predicate Spaced(s: string) {
    && (forall i :: 0 <= i < |s| ==> PrintedDigit(s[i]) || s[i] == ':')
    && (forall i :: 0 <= i < |s| - 1 ==> !(s[i] == ':' && s[i + 1] == ':'))
    && (s != "" ==> s[0] != ':' && s[|s| - 1] != ':')
  }

  lemma SpacedMore(s: string, f: string)
    requires Spaced(s) && s != "" && f != "" && forall i :: 0 <= i < |f| ==> PrintedDigit(f[i])
    ensures Spaced(s + ":" + f) && s + ":" + f != ""
  {
    var t := s + ":" + f;
    forall i | 0 <= i < |t| - 1 ensures !(t[i] == ':' && t[i + 1] == ':') {
      if i == |s| - 1 {
        assert t[i] == s[i];
      } else if i >= |s| {
        assert t[i + 1] == f[i - |s|];
      }
    }
  }

  lemma {:induction false} JoinSpaced(fields: seq<string>)
    requires fields != [] && forall f :: f in fields ==> f != "" && forall i :: 0 <= i < |f| ==> PrintedDigit(f[i])
    ensures Spaced(JoinFields(fields, ':')) && JoinFields(fields, ':') != ""
  {
    var n := |fields| - 1;
    assert fields[n] in fields;
    if n > 0 {
      hide Spaced;
      JoinSpaced(fields[..n]);
      SpacedMore(JoinFields(fields[..n], ':'), fields[n]);
    }
  }

  /** A part of the groups, printed, is spaced and reads back. */
  lemma PartReads(groups: seq<int>)
    requires forall i :: 0 <= i < |groups| ==> 0 <= groups[i] < 0x1_0000
    ensures Spaced(JoinGroups(groups)) && (groups != [] ==> JoinGroups(groups) != "")
    ensures ReadPart(JoinGroups(groups)) == Some(groups)
  {
    if groups != [] {
      TextsPlain(groups);
      hide PrintNat, ReadNat, ReadAll, JoinFields;
      var fields := Texts(groups, 16);
      JoinSpaced(fields);
      forall f | f in fields ensures ':' !in f { }
      JoinSplits(fields, ':');
    }
  }

  lemma {:induction false} NoDouble(s: string)
    requires forall i :: 0 <= i < |s| - 1 ==> !(s[i] == ':' && s[i + 1] == ':')
    ensures FirstDouble(s).None?
  {
    if |s| >= 2 { NoDouble(s[1..]); }
  }

  lemma {:induction false} DoubleAfter(s: string, t: string)
    requires forall i :: 0 <= i < |s| - 1 ==> !(s[i] == ':' && s[i + 1] == ':')
    requires s != "" ==> s[|s| - 1] != ':'
    ensures FirstDouble(s + "::" + t) == Some(|s|)
  {
    var all := s + "::" + t;
    if s != "" {
      assert all[1..] == s[1..] + "::" + t;
      DoubleAfter(s[1..], t);
      assert all[0] == s[0] && (|s| > 1 ==> all[1] == s[1]);
    }
  }

  /** Printing then reading gives the groups back. */
  lemma GroupsRead(groups: seq<int>)
    requires Groups(groups)
    ensures ReadGroups(PrintGroups(groups)) == Some(groups)
  {
    var text := PrintGroups(groups);
    match Longest(groups, 8)
    case None =>
      PartReads(groups);
      NoDouble(text);
    case Some(s) =>
      LongestIs(groups, 8);
      ZerosAre(groups, s);
      var e := s + Zeros(groups, s);
      CompressedReads(groups, s, e);
  }

  lemma CutAround(left: string, right: string)
    ensures
      var text := left + "::" + right;
      text[..|left|] == left && text[|left| + 2..] == right
  {
  }

  lemma FillZeros(groups: seq<int>, s: nat, e: nat)
    requires |groups| == 8 && s <= e <= 8 && forall i :: s <= i < e ==> groups[i] == 0
    ensures groups[..s] + seq(e - s, _ => 0) + groups[e..] == groups
  {
  }

  lemma CompressedReads(groups: seq<int>, s: nat, e: nat)
    requires Groups(groups) && s < e <= 8 && forall i :: s <= i < e ==> groups[i] == 0
    ensures ReadGroups(JoinGroups(groups[..s]) + "::" + JoinGroups(groups[e..])) == Some(groups)
  {
    hide JoinGroups, ReadPart, FirstDouble;
    var left, right := JoinGroups(groups[..s]), JoinGroups(groups[e..]);
    PartReads(groups[..s]);
    PartReads(groups[e..]);
    assert FirstDouble(left + "::" + right) == Some(|left|) by { DoubleAfter(left, right); }
    hide Spaced;
    CutAround(left, right);
    DoubleFits(left + "::" + right);
    FillZeros(groups, s, e);
    ReadsAround(left + "::" + right, |left|, groups[..s], groups[e..]);
  }

  lemma ReadsAround(text: string, i: nat, left: seq<int>, right: seq<int>)
    requires FirstDouble(text) == Some(i) && i + 2 <= |text|
    requires ReadPart(text[..i]) == Some(left) && ReadPart(text[i + 2..]) == Some(right) && |left| + |right| <= 7
    ensures ReadGroups(text) == Some(left + seq(8 - |left| - |right|, _ => 0) + right)
  {
    hide ReadPart, FirstDouble;
  }

  function PrintOctets(octets: seq<int>): string
    requires Octets(octets)
  {
    JoinFields(Texts(octets, 10), '.')
  }

  function ReadOctets(s: string): Option<seq<int>> {
    var all := ReadAll(ReadOctet, Fields(s, '.'));
    if all.None? || |all.value| != 4 then None else all
  }

  /** `Addr.String`, of addresses that are not IPv4 mapped into IPv6. */
  function Print(a: Address): string
    requires Proper(a) && !Is4In6(a)
  {
    match a
    case V4(octets) => PrintOctets(octets)
    case V6(groups, zone) => PrintGroups(groups) + if zone == "" then "" else "%" + zone
  }

  /** The first of the characters that tell the kinds of address apart. */
  function FirstMark(s: string): Option<char> {
    if s == "" then None else if s[0] in {'.', ':', '%'} then Some(s[0]) else FirstMark(s[1..])
  }

  function FirstPercent(s: string): nat {
    if s == "" || s[0] == '%' then 0 else 1 + FirstPercent(s[1..])
  }

  lemma {:induction false} PercentFits(s: string)
    ensures FirstPercent(s) <= |s|
  {
    if s != "" && s[0] != '%' { PercentFits(s[1..]); }
  }

  /** The zone is what follows the first percent sign; it must not be empty. */
  function ReadV6(s: string): Option<Address> {
    PercentFits(s);
    var i := FirstPercent(s);
    var groups := ReadGroups(s[..i]);
    if groups.None? || i == |s| - 1 then None
    else Some(V6(groups.value, if i == |s| then "" else s[i + 1..]))
  }

  /** `netip.ParseAddr` */
  function ParseAddr(s: string): Option<Address> {
    match FirstMark(s)
    case Some('.') => (var octets := ReadOctets(s); if octets.None? then None else Some(V4(octets.value)))
    case Some(':') => ReadV6(s)
    case _ => None
  }

  function Power(base: nat, n: nat): nat { if n == 0 then 1 else Power(base, n - 1) * base }

  lemma {:induction false} NatBound(s: string, base: nat)
    requires ReadNat(s, base).Some?
    ensures ReadNat(s, base).value < Power(base, |s|)
  {
    if |s| > 1 {
      NatBound(s[..|s| - 1], base);
      ScaleUp(ReadNat(s[..|s| - 1], base).value, Power(base, |s| - 1), DigitValue(s[|s| - 1]).value, base);
    } else {
      assert Power(base, 1) == Power(base, 0) * base;
    }
  }

  lemma ScaleUp(n: nat, limit: nat, d: nat, base: nat)
    requires n < limit && d < base
    ensures n * base + d < limit * base
  {
    assert (n + 1) * base <= limit * base;
  }

  lemma GroupBound(s: string)
    requires ReadGroup(s).Some?
    ensures ReadGroup(s).value < 0x1_0000
  {
    NatBound(s, 16);
    hide ReadNat;
    assert Power(16, 1) == 16 && Power(16, 2) == 256 && Power(16, 3) == 4096 && Power(16, 4) == 65536 by {
      assert Power(16, 0) == 1;
    }
    assert |s| == 0 ==> Power(16, |s|) == 1;
  }

  lemma {:induction false} AllRead(read: string -> Option<nat>, texts: seq<string>)
    requires ReadAll(read, texts).Some?
    ensures |ReadAll(read, texts).value| == |texts|
    ensures forall i :: 0 <= i < |texts| ==> read(texts[i]) == Some(ReadAll(read, texts).value[i])
  {
    if texts != [] { AllRead(read, texts[..|texts| - 1]); }
  }

  lemma PartBound(s: string)
    requires ReadPart(s).Some?
    ensures forall i :: 0 <= i < |ReadPart(s).value| ==> 0 <= ReadPart(s).value[i] < 0x1_0000
  {
    if s != "" {
      var fields := Fields(s, ':');
      AllRead(ReadGroup, fields);
      var r := ReadPart(s).value;
      forall i | 0 <= i < |r| ensures 0 <= r[i] < 0x1_0000 { GroupBound(fields[i]); }
    }
  }

  lemma GroupsProper(s: string)
    requires ReadGroups(s).Some?
    ensures Groups(ReadGroups(s).value)
  {
    DoubleFits(s);
    match FirstDouble(s)
    case None => PartBound(s);
    case Some(i) =>
      PartBound(s[..i]);
      PartBound(s[i + 2..]);
  }

  lemma OctetsProper(s: string)
    requires ReadOctets(s).Some?
    ensures Octets(ReadOctets(s).value)
  {
    AllRead(ReadOctet, Fields(s, '.'));
  }

  /** Whatever is read is an address. */
  lemma ParsedProper(s: string)
    requires ParseAddr(s).Some?
    ensures Proper(ParseAddr(s).value)
  {
    if FirstMark(s) == Some('.') {
      OctetsProper(s);
    } else {
      PercentFits(s);
      GroupsProper(s[..FirstPercent(s)]);
    }
  }

  lemma {:induction false} MarkFirst(s: string, t: string, i: nat)
    requires i < |s| && s[i] in {'.', ':', '%'} && forall j :: 0 <= j < i ==> s[j] !in {'.', ':', '%'}
    ensures FirstMark(s + t) == Some(s[i])
  {
    if i > 0 {
      assert (s + t)[1..] == s[1..] + t;
      MarkFirst(s[1..], t, i - 1);
    }
  }

  lemma {:induction false} PercentAfter(s: string, t: string)
    requires '%' !in s && (t == "" || t[0] == '%')
    ensures FirstPercent(s + t) == |s|
  {
    if s == "" {
      assert s + t == t;
    } else {
      assert s[0] in s;
      assert (s + t)[1..] == s[1..] + t;
      PercentAfter(s[1..], t);
    }
  }

  ghost predicate GroupText(s: string) { forall i :: 0 <= i < |s| ==> PrintedDigit(s[i]) || s[i] == ':' }

  lemma PartText(groups: seq<int>)
    requires forall i :: 0 <= i < |groups| ==> 0 <= groups[i] < 0x1_0000
    ensures GroupText(JoinGroups(groups)) && (|groups| > 1 ==> ':' in JoinGroups(groups))
  {
    PartReads(groups);
    hide PrintNat;
    if |groups| > 1 { ColonBetween(Texts(groups, 16)); }
  }

  lemma DoubleText(left: string, right: string)
    requires GroupText(left) && GroupText(right)
    ensures GroupText(left + "::" + right) && ':' in left + "::" + right
  {
    assert (left + "::" + right)[|left|] == ':';
  }

  /** The printed groups: digits and colons, a colon among them. */
  lemma GroupsText(groups: seq<int>)
    requires Groups(groups)
    ensures
      var s := PrintGroups(groups);
      ':' in s && forall i :: 0 <= i < |s| ==> PrintedDigit(s[i]) || s[i] == ':'
  {
    hide JoinGroups, Longest, Zeros;
    match Longest(groups, 8)
    case None => PartText(groups);
    case Some(s) =>
      LongestIs(groups, 8);
      ZerosAre(groups, s);
      var e := s + Zeros(groups, s);
      PartText(groups[..s]);
      PartText(groups[e..]);
      DoubleText(JoinGroups(groups[..s]), JoinGroups(groups[e..]));
  }

  lemma ColonBetween(fields: seq<string>)
    requires |fields| > 1
    ensures ':' in JoinFields(fields, ':')
  {
    var front := JoinFields(fields[..|fields| - 1], ':');
    assert JoinFields(fields, ':')[|front|] == ':';
  }

  lemma FirstColon(s: string) returns (i: nat)
    requires ':' in s && forall j :: 0 <= j < |s| ==> PrintedDigit(s[j]) || s[j] == ':'
    ensures i < |s| && s[i] == ':' && forall j :: 0 <= j < i ==> s[j] !in {'.', ':', '%'}
  {
    i := 0;
    while s[i] != ':'
      invariant i < |s| && forall j :: 0 <= j < i ==> s[j] != ':'
      decreases |s| - i
    {
      i := i + 1;
      assert i < |s|;
    }
  }

  /** Every printed IPv6 address reads back, zone and all. */
  lemma V6Reads(a: Address)
    requires Proper(a) && a.V6? && !Is4In6(a)
    ensures ParseAddr(Print(a)) == Some(a)
  {
    hide PrintGroups, ReadGroups, FirstMark, FirstPercent, Groups;
    var base := PrintGroups(a.groups);
    var tail := if a.zone == "" then "" else "%" + a.zone;
    GroupsText(a.groups);
    GroupsRead(a.groups);
    assert '%' !in base;
    var i := FirstColon(base);
    MarkFirst(base, tail, i);
    PercentAfter(base, tail);
    ZoneCut(base, a.zone, tail);
  }

  lemma ZoneCut(base: string, zone: string, tail: string)
    requires tail == if zone == "" then "" else "%" + zone
    requires FirstPercent(base + tail) == |base|
    ensures
      ReadV6(base + tail) == if ReadGroups(base).None? then None else Some(V6(ReadGroups(base).value, zone))
  {
    hide ReadGroups, FirstPercent;
    assert (base + tail)[..|base|] == base;
    assert zone != "" ==> (base + tail)[|base| + 1..] == zone;
  }

  /** A decimal number without a leading zero is what its value prints. */
  lemma {:induction false} PrintsBack(s: string)
    requires ReadNat(s, 10).Some? && (|s| == 1 || s[0] != '0')
    ensures PrintNat(ReadNat(s, 10).value, 10) == s && (s[0] != '0' ==> ReadNat(s, 10).value > 0)
  {
    var n := |s| - 1;
    var d := DigitValue(s[n]).value;
    assert Digit(d) == s[n];
    if n > 0 {
      var front := s[..n];
      PrintsBack(front);
      var m := ReadNat(front, 10).value;
      assert (m * 10 + d) / 10 == m && (m * 10 + d) % 10 == d;
      assert s == front + [s[n]];
    } else {
      assert s == [s[0]];
    }
  }

  lemma OctetReads(n: nat)
    requires n < 256
    ensures ReadOctet(PrintNat(n, 10)) == Some(n) && '.' !in PrintNat(n, 10)
  {
    NatReads(n, 10);
    DecimalLength(n);
    PrintLonger(n, 10);
    hide PrintNat, ReadNat;
  }

  /** IPv4 text: an address is read from exactly the text it prints. */
  lemma OctetsCodec(octets: seq<int>, s: string)
    requires Octets(octets)
    ensures ReadOctets(s) == Some(octets) <==> s == PrintOctets(octets)
  {
    var texts := Texts(octets, 10);
    forall i | 0 <= i < |octets| ensures ReadOctet(texts[i]) == Some(octets[i]) && '.' !in texts[i] {
      OctetReads(octets[i]);
    }
    hide PrintNat, ReadOctet;
    AllReads(ReadOctet, octets, 10);
    JoinSplits(texts, '.');
    var fields := Fields(s, '.');
    FieldsJoin(s, '.');
    if ReadOctets(s) == Some(octets) {
      AllRead(ReadOctet, fields);
      forall i | 0 <= i < |fields| ensures fields[i] == texts[i] {
        OctetPrints(fields[i]);
      }
      assert fields == texts;
    }
  }

  lemma OctetPrints(s: string)
    requires ReadOctet(s).Some?
    ensures PrintNat(ReadOctet(s).value, 10) == s
  {
    PrintsBack(s);
  }

  /** Joined fields start with the first one, and the separator follows it. */
  lemma {:induction false} JoinStarts(fields: seq<string>, sep: char)
    requires |fields| > 1
    ensures
      var s := JoinFields(fields, sep);
      |fields[0]| < |s| && s[..|fields[0]|] == fields[0] && s[|fields[0]|] == sep
  {
    var n := |fields| - 1;
    if n > 1 {
      JoinStarts(fields[..n], sep);
    } else {
      assert JoinFields(fields[..1], sep) == fields[0];
    }
  }

  /** The printed octets start with a digit, and the first mark in them is a dot. */
  lemma OctetsText(octets: seq<int>)
    requires Octets(octets)
    ensures
      var s := PrintOctets(octets);
      s != "" && PrintedDigit(s[0]) && FirstMark(s) == Some('.')
  {
    var first := PrintNat(octets[0], 10);
    NatReads(octets[0], 10);
    hide PrintNat, ReadNat, FirstMark;
    var s := PrintOctets(octets);
    JoinStarts(Texts(octets, 10), '.');
    hide JoinFields;
    forall j | 0 <= j < |first| ensures s[j] == first[j] { assert s[..|first|][j] == first[j]; }
    MarkFirst(s, "", |first|);
    assert s + "" == s;
  }

  /** IPv4 addresses and the text they are read from. */
  lemma V4Codec(a: Address, s: string)
    requires a.V4? && Proper(a)
    ensures ParseAddr(s) == Some(a) <==> s == Print(a)
    ensures PrintedDigit(Print(a)[0])
  {
    hide PrintOctets, ReadOctets;
    OctetsText(a.octets);
    OctetsCodec(a.octets, s);
  }

  lemma PrintFilled(a: Address)
    requires Proper(a) && !Is4In6(a)
    ensures Print(a) != ""
  {
    match a
    case V4(octets) => OctetsText(octets);
    case V6(groups, _) => GroupsText(groups);
  }
}
