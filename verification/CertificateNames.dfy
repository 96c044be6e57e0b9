/**
  The certificate-name matcher (`src/ssl_verify.c`): the `strstr`/`strchr` form
  of the wildcard test against its label-by-label meaning (compare section
  6.4.3 of RFC 6125), and the scan over subject alternative names (section
  4.2.1.6 of RFC 5280).
*/
module CertificateNames {
  import opened Basics

  // ---------- the C string functions the matcher calls ----------

  /** `strlen` of the string that starts at the beginning of `buffer`. */
  function StrLen(buffer: string): (n: nat)
    ensures n <= |buffer| && '\0' !in buffer[..n]
    ensures n < |buffer| ==> buffer[n] == '\0'
  {
    if buffer == [] || buffer[0] == '\0' then 0 else 1 + StrLen(buffer[1..])
  }

  /** The string a C function sees in `buffer`. */
  function CString(buffer: string): string { buffer[..StrLen(buffer)] }

  /** It ends where the first NUL is. */
  lemma CStringEnds(buffer: string)
    ensures CString(buffer) <= buffer && '\0' !in CString(buffer)
    ensures CString(buffer) == buffer <==> '\0' !in buffer
    ensures CString(buffer) != buffer ==> buffer[|CString(buffer)|] == '\0'
  {
    if CString(buffer) != buffer {
      assert buffer[..|buffer|] == buffer;
    }
  }

  function StrChr(s: string, c: char): (at: Option<nat>)
    ensures at.None? <==> c !in s
    ensures at.Some? ==> at.value < |s| && s[at.value] == c && c !in s[..at.value]
  {
    if s == [] then None
    else if s[0] == c then Some(0)
    else match StrChr(s[1..], c) case None => None case Some(k) => Some(k + 1)
  }

  predicate OccursAt(s: string, pattern: string, k: nat) {
    k <= |s| && pattern <= s[k..]
  }

  function StrStr(s: string, pattern: string): (at: Option<nat>)
    ensures at.Some? ==> OccursAt(s, pattern, at.value)
    ensures at.Some? ==> forall k: nat :: k < at.value ==> !OccursAt(s, pattern, k)
    ensures at.None? ==> forall k: nat :: !OccursAt(s, pattern, k)
  {
    if pattern <= s then
      assert s[0..] == s;
      Some(0)
    else if s == [] then
      None
    else
      var rest := StrStr(s[1..], pattern);
      assert forall k: nat :: 0 < k <= |s| ==> s[k..] == s[1..][k - 1..];
      assert forall k: nat :: 0 < k ==> (OccursAt(s, pattern, k) <==> OccursAt(s[1..], pattern, k - 1));
      assert s[0..] == s;
      match rest case None => None case Some(k) => Some(k + 1)
  }

  // ---------- the wildcard matcher ----------

  function MatchesWildcardName(subject: string, cert: string): (matches: bool) {
    var equal := subject == cert;
    if !equal && |cert| > 3 && cert[0] == '*' && cert[1] == '.' then
      if StrChr(cert[2..], '.').Some? then
        var tmp := StrStr(subject, cert[1..]);
        tmp.Some? && subject[tmp.value..] != cert[2..] && tmp == StrChr(subject, '.')
      else equal
    else equal
  }

  /** The labels of a name: the pieces between its dots. */
  function Labels(name: string): (labels: seq<string>)
    ensures 0 < |labels|
    decreases |name|
  {
    match StrChr(name, '.')
    case None => [name]
    case Some(k) => [name[..k]] + Labels(name[k + 1..])
  }

  /**
    What the matcher decides. A wildcard stands for one leading label. Every
    other label of the certificate must equal the subject's label at the same
    place, save that the last one need only begin it: text after the matched
    suffix is let through.
  */
  predicate NameMatches(subject: string, cert: string) {
    subject == cert ||
    (&& "*." <= cert && |cert| > 3 && '.' in cert[2..]
     && LabelsMatch(Labels(subject)[1..], Labels(cert)[1..]))
  }

  predicate LabelsMatch(subject: seq<string>, cert: seq<string>) {
    && 0 < |cert| <= |subject|
    && (forall i :: 0 <= i < |cert| - 1 ==> subject[i] == cert[i])
    && cert[|cert| - 1] <= subject[|cert| - 1]
  }

  lemma NoDotBefore(s: string, k: nat, i: nat)
    requires i < |s| && s[i] == '.' && k <= |s| && '.' !in s[..k]
    ensures k <= i
  {
    forall j | 0 <= j < k ensures s[j] != '.' {
      assert s[j] == s[..k][j];
    }
  }

  lemma DotInPrefix(pattern: string, name: string)
    ensures pattern <= name && '.' in pattern ==> '.' in name
  {
    if pattern <= name && '.' in pattern {
      var i :| 0 <= i < |pattern| && pattern[i] == '.';
      assert name[i] == '.';
    }
  }

  lemma PrefixWithinLabel(name: string, pattern: string)
    requires '.' !in pattern
    ensures pattern <= name <==> pattern <= Labels(name)[0]
  {
    match StrChr(name, '.')
    case None =>
    case Some(k) =>
      if pattern <= name {
        assert name[..|pattern|] == pattern;
        NoDotBefore(name, |pattern|, k);
        assert pattern <= name[..k];
      }
  }

  /** One name begins another exactly when its labels do. */
  lemma {:induction false} PrefixByLabels(name: string, pattern: string)
    ensures pattern <= name <==> LabelsMatch(Labels(name), Labels(pattern))
    decreases |pattern|
  {
    match StrChr(pattern, '.')
    case None =>
      PrefixWithinLabel(name, pattern);
    case Some(p) =>
      match StrChr(name, '.') {
        case None =>
          DotInPrefix(pattern, name);
        case Some(k) =>
          PrefixByLabels(name[k + 1..], pattern[p + 1..]);
          PrefixFromTail(name, k, pattern, p);
      }
  }

  lemma PrefixFromTail(name: string, k: nat, pattern: string, p: nat)
    requires StrChr(name, '.') == Some(k) && StrChr(pattern, '.') == Some(p)
    requires pattern[p + 1..] <= name[k + 1..] <==> LabelsMatch(Labels(name[k + 1..]), Labels(pattern[p + 1..]))
    ensures pattern <= name <==> LabelsMatch(Labels(name), Labels(pattern))
  {
    var n, q := Labels(name[k + 1..]), Labels(pattern[p + 1..]);
    LabelsTail(name[..k], n, pattern[..p], q);
    PrefixAtDot(name, k, pattern, p);
    assert Labels(name) == [name[..k]] + n && Labels(pattern) == [pattern[..p]] + q;
  }

  lemma LabelsTail(s: string, subject: seq<string>, c: string, cert: seq<string>)
    requires 0 < |cert|
    ensures LabelsMatch([s] + subject, [c] + cert) <==> s == c && LabelsMatch(subject, cert)
  {
    var ss, cc := [s] + subject, [c] + cert;
    if LabelsMatch(ss, cc) {
      assert ss[0] == cc[0];
      forall i | 0 <= i < |cert| - 1 ensures subject[i] == cert[i] {
        assert ss[i + 1] == cc[i + 1];
      }
      assert ss[|cc| - 1] == subject[|cert| - 1];
    }
  }

  lemma PrefixAtDot(name: string, k: nat, pattern: string, p: nat)
    requires k < |name| && name[k] == '.' && '.' !in name[..k]
    requires p < |pattern| && pattern[p] == '.' && '.' !in pattern[..p]
    ensures pattern <= name <==> name[..k] == pattern[..p] && pattern[p + 1..] <= name[k + 1..]
  {
    if pattern <= name {
      assert name[p] == '.';
      NoDotBefore(name, k, p);
      NoDotBefore(pattern, p, k);
    }
    if name[..k] == pattern[..p] && pattern[p + 1..] <= name[k + 1..] {
      assert |name[..k]| == |pattern[..p]|;
      assert name == name[..k] + ['.'] + name[k + 1..];
      assert pattern == pattern[..p] + ['.'] + pattern[p + 1..];
    }
  }

  /** The earliest occurrence of a suffix that starts with a dot is at the first dot exactly
      when that suffix occurs there. */
  lemma EarliestAtFirstDot(subject: string, suffix: string)
    requires suffix != [] && suffix[0] == '.'
    ensures var dot := StrChr(subject, '.');
            (StrStr(subject, suffix).Some? && StrStr(subject, suffix) == dot)
            <==> (dot.Some? && OccursAt(subject, suffix, dot.value))
  {
    var dot, at := StrChr(subject, '.'), StrStr(subject, suffix);
    if at.Some? {
      assert subject[at.value..][0] == '.';
      NoDotBefore(subject, dot.value, at.value);
    }
  }

  lemma EqualByLabels(a: string, b: string)
    ensures a == b <==> Labels(a) == Labels(b)
  {
    PrefixByLabels(a, b);
    PrefixByLabels(b, a);
  }

  /** The labels after the first are those of the text after the first dot. */
  lemma LabelsAfterDot(s: string, dot: nat)
    requires StrChr(s, '.') == Some(dot)
    ensures Labels(s)[1..] == Labels(s[dot + 1..])
    ensures s[dot..] == ['.'] + s[dot + 1..]
  {
    assert Labels(s) == [s[..dot]] + Labels(s[dot + 1..]);
  }

  lemma SameHead(c: char, s: string, p: string)
    ensures [c] + p <= [c] + s <==> p <= s
    ensures [c] + p == [c] + s <==> p == s
  {
    DotPrefix([c] + s, [c] + p);
    assert ([c] + s)[1..] == s && ([c] + p)[1..] == p;
  }

  /** Comparing labels after the first is comparing texts from the first dot on. */
  lemma SuffixFacts(subject: string, cert: string, dot: nat, star: nat)
    requires StrChr(subject, '.') == Some(dot) && StrChr(cert, '.') == Some(star)
    ensures Labels(subject)[1..] == Labels(cert)[1..] <==> subject[dot..] == cert[star..]
    ensures LabelsMatch(Labels(subject)[1..], Labels(cert)[1..]) <==> cert[star..] <= subject[dot..]
  {
    var s, c := subject[dot + 1..], cert[star + 1..];
    LabelsAfterDot(subject, dot);
    LabelsAfterDot(cert, star);
    EqualByLabels(s, c);
    PrefixByLabels(s, c);
    SameHead('.', s, c);
  }

  /** The compact matcher decides the label-by-label meaning; its `strcmp` conjunct is redundant. */
  lemma MatcherMeaning(subject: string, cert: string)
    ensures MatchesWildcardName(subject, cert) <==> NameMatches(subject, cert)
  {
    assert "*." <= cert <==> |cert| >= 2 && cert[0] == '*' && cert[1] == '.';
    if subject != cert && |cert| > 3 && "*." <= cert && '.' in cert[2..] {
      EarliestAtFirstDot(subject, cert[1..]);
      FirstDot(cert, 1);
      var at, dot := StrStr(subject, cert[1..]), StrChr(subject, '.');
      if at.Some? { assert |subject[at.value..]| >= |cert[1..]| > |cert[2..]|; }
      if dot.Some? {
        SuffixFacts(subject, cert, dot.value, 1);
      } else {
        assert Labels(subject)[1..] == [];
      }
    }
  }

  lemma FirstDot(s: string, k: nat)
    requires k < |s| && s[k] == '.' && '.' !in s[..k]
    ensures StrChr(s, '.') == Some(k)
  {
    var at := StrChr(s, '.').value;
    NoDotBefore(s, k, at);
    NoDotBefore(s, at, k);
  }

  lemma DotPrefix(s: string, p: string)
    requires s != [] && p != [] && s[0] == p[0]
    ensures p <= s <==> p[1..] <= s[1..]
  {
    assert s == [s[0]] + s[1..] && p == [p[0]] + p[1..];
  }

  /** The stricter meaning of section 6.4.3 of RFC 6125: every label but the first must be equal. */
  predicate StrictlyMatches(subject: string, cert: string) {
    subject == cert ||
    ("*." <= cert && |cert| > 3 && '.' in cert[2..] && Labels(subject)[1..] == Labels(cert)[1..])
  }

  /** After its first label the subject begins with the wildcard's suffix, and goes on. */
  predicate TextFollowsSuffix(subject: string, cert: string) {
    && "*." <= cert && |cert| > 3 && '.' in cert[2..]
    && var dot := StrChr(subject, '.');
       dot.Some? && cert[1..] < subject[dot.value..]
  }

  /** The matcher has the strict meaning on exactly the pairs where no text follows the suffix. */
  lemma StrictExactly(subject: string, cert: string)
    ensures MatchesWildcardName(subject, cert) == StrictlyMatches(subject, cert)
        <==> !TextFollowsSuffix(subject, cert)
  {
    MatcherMeaning(subject, cert);
    var dot := StrChr(subject, '.');
    if "*." <= cert && |cert| > 3 && '.' in cert[2..] {
      FirstDot(cert, 1);
      if dot.Some? {
        SuffixFacts(subject, cert, dot.value, 1);
      } else {
        assert Labels(subject)[1..] == [];
        LabelsAfterDot(cert, 1);
      }
    }
  }

  /** Such a pair. */
  lemma TextAfterSuffix()
    ensures MatchesWildcardName("x.a.bc", "*.a.b") && !StrictlyMatches("x.a.bc", "*.a.b")
  {
    var subject, cert := "x.a.bc", "*.a.b";
    FirstDot(subject, 1);
    FirstDot(cert, 1);
    assert cert[2..][1] == '.';
    SuffixFacts(subject, cert, 1, 1);
    MatcherMeaning(subject, cert);
  }

  // ---------- subject alternative names ----------

  /** One entry of the list; a DNS entry keeps the length of the ASN.1 string and its UTF-8 form. */
  datatype AltName = Dns(length: nat, utf8: string) | IpAddress(data: seq<byte>) | Other

  function Digit(n: nat): char
    requires n < 10
  {
    ['0', '1', '2', '3', '4', '5', '6', '7', '8', '9'][n]
  }

  /** `%d` of an octet. */
  function Decimal(n: nat): (text: string)
    ensures text != []
    ensures forall i :: 0 <= i < |text| ==> '0' <= text[i] <= '9'
  {
    if n < 10 then [Digit(n)] else Decimal(n / 10) + [Digit(n % 10)]
  }

  /** The text of an address from octet `k` on. */
  function DottedFrom(ip: seq<byte>, k: nat): (text: string)
    requires |ip| == 4 && k < 4
    ensures forall i :: 0 <= i < |text| ==> text[i] == '.' || '0' <= text[i] <= '9'
    decreases 4 - k
  {
    if k == 3 then Decimal(ip[3]) else Decimal(ip[k]) + "." + DottedFrom(ip, k + 1)
  }

  /** `sprintf` with `"%d.%d.%d.%d"`. */
  function Dotted(ip: seq<byte>): string
    requires |ip| == 4
  {
    DottedFrom(ip, 0)
  }

  function Lower(c: char): char {
    if 'A' <= c <= 'Z' then (c as int + 32) as char else c
  }

  /** `strcasecmp(a, b) == 0`. */
  predicate CaseEqual(a: string, b: string) {
    |a| == |b| && forall i :: 0 <= i < |a| ==> Lower(a[i]) == Lower(b[i])
  }

  function DropTrailingDot(name: string): string {
    if name != [] && name[|name| - 1] == '.' then name[..|name| - 1] else name
  }

  /** What it means for one entry to name the subject. */
  predicate AltNameAccepts(entry: AltName, subject: string) {
    match entry
    case Dns(length, utf8) =>
      length == StrLen(utf8) && NameMatches(subject, DropTrailingDot(CString(utf8)))
    case IpAddress(data) => |data| == 4 && subject == Dotted(data)
    case Other => false
  }

  predicate AltNamesAccept(entries: seq<AltName>, subject: string) {
    exists i :: 0 <= i < |entries| && AltNameAccepts(entries[i], subject)
  }

  method MatchesSanList(entries: seq<AltName>, subject: string) returns (found: bool)
    ensures found <==> AltNamesAccept(entries, subject)
  {
    var i := 0;
    while i < |entries|
      invariant 0 <= i <= |entries|
      invariant forall j :: 0 <= j < i ==> !AltNameAccepts(entries[j], subject)
    {
      var san := entries[i];
      i := i + 1;
      match san {
        case Dns(length, utf8) =>
          if length != StrLen(utf8) {
            continue;
          }
          var certName := CString(utf8);
          var len := |certName|;
          if len != 0 && certName[len - 1..] == "." {
            certName := certName[..len - 1];
          }
          assert certName == DropTrailingDot(CString(utf8));
          MatcherMeaning(subject, certName);
          if MatchesWildcardName(subject, certName) {
            return true;
          }
        case IpAddress(data) =>
          if |data| == 4 {
            var ipBuffer := Dotted(data);
            CaseFoldIsExact(subject, data);
            if CaseEqual(subject, ipBuffer) {
              return true;
            }
          }
        case Other =>
      }
    }
    return false;
  }

  /** When the conversion kept the length, the length test is exactly "no embedded NUL". */
  lemma LengthTestMeansNoNul(entry: AltName)
    requires entry.Dns? && |entry.utf8| == entry.length
    ensures entry.length == StrLen(entry.utf8) <==> '\0' !in entry.utf8
    ensures '\0' !in entry.utf8 ==> CString(entry.utf8) == entry.utf8
  {
    var n := StrLen(entry.utf8);
    if n == entry.length { assert entry.utf8[..n] == entry.utf8; }
  }

  /** The case-insensitive comparison with a dotted address is equality. */
  lemma CaseFoldIsExact(subject: string, ip: seq<byte>)
    requires |ip| == 4
    ensures CaseEqual(subject, Dotted(ip)) <==> subject == Dotted(ip)
  {
    var d := Dotted(ip);
    forall i | CaseEqual(subject, d) && 0 <= i < |d| ensures subject[i] == d[i] {
      assert Lower(subject[i]) == Lower(d[i]) == d[i];
    }
  }

  function DigitValue(c: char): int { c as int - '0' as int }

  function Value(text: string): int {
    if text == [] then 0 else 10 * Value(text[..|text| - 1]) + DigitValue(text[|text| - 1])
  }

  lemma {:induction false} ValueOfDecimal(n: nat)
    ensures Value(Decimal(n)) == n
  {
    var text := Decimal(n);
    if n < 10 {
      assert text[..0] == [] && DigitValue(Digit(n)) == n;
    } else {
      ValueOfDecimal(n / 10);
      assert text[..|text| - 1] == Decimal(n / 10) && text[|text| - 1] == Digit(n % 10);
      assert DigitValue(Digit(n % 10)) == n % 10;
    }
  }

  /** The decimal numeral of `n` without leading zeros. */
  predicate Canonical(text: string, n: nat) {
    && text != [] && (forall i :: 0 <= i < |text| ==> '0' <= text[i] <= '9')
    && (|text| > 1 ==> text[0] != '0')
    && Value(text) == n
  }

  lemma {:induction false} DecimalIsCanonical(n: nat)
    ensures Canonical(Decimal(n), n) && (n > 0 ==> Decimal(n)[0] != '0')
  {
    ValueOfDecimal(n);
    if n >= 10 { DecimalIsCanonical(n / 10); }
  }

  lemma {:induction false} ValuePositive(text: string)
    requires text != [] && (forall i :: 0 <= i < |text| ==> '0' <= text[i] <= '9')
    ensures Value(text) >= 0 && (text[0] != '0' ==> Value(text) > 0)
    decreases |text|
  {
    if |text| > 1 {
      ValuePositive(text[..|text| - 1]);
    } else {
      assert text[..0] == [];
    }
  }

  lemma {:induction false} CanonicalIsDecimal(text: string, n: nat)
    requires Canonical(text, n)
    ensures text == Decimal(n)
    decreases |text|
  {
    var m := |text| - 1;
    var head, d := text[..m], DigitValue(text[m]);
    assert text == head + [text[m]];
    assert Digit(d) == text[m];
    if m > 0 {
      ValuePositive(head);
      CanonicalIsDecimal(head, Value(head));
      assert n == 10 * Value(head) + d && n / 10 == Value(head) && n % 10 == d;
    } else {
      assert head == [];
    }
  }

  /** The labels of an address are the numerals of its octets. */
  lemma LabelsOfOctet(text: string, rest: string)
    requires '.' !in text
    ensures Labels(text) == [text] && Labels(text + "." + rest) == [text] + Labels(rest)
  {
    var name := text + "." + rest;
    assert name[|text|] == '.' && name[..|text|] == text && name[|text| + 1..] == rest;
    var k := StrChr(name, '.').value;
    NoDotBefore(name, k, |text|);
    NoDotBefore(name, |text|, k);
  }

  lemma NoDotInDecimal(n: nat)
    ensures '.' !in Decimal(n)
  {
    forall i | 0 <= i < |Decimal(n)| ensures Decimal(n)[i] != '.' { }
  }

  function Numerals(ip: seq<byte>, k: nat): seq<string>
    requires k <= |ip|
    decreases |ip| - k
  {
    if k == |ip| then [] else [Decimal(ip[k])] + Numerals(ip, k + 1)
  }

  lemma {:induction false} NumeralAt(ip: seq<byte>, k: nat, i: nat)
    requires k <= i < |ip|
    ensures |Numerals(ip, k)| == |ip| - k && Numerals(ip, k)[i - k] == Decimal(ip[i])
    decreases |ip| - k
  {
    if k == i {
      NumeralsCount(ip, k);
    } else {
      NumeralAt(ip, k + 1, i);
    }
  }

  lemma {:induction false} NumeralsCount(ip: seq<byte>, k: nat)
    requires k <= |ip|
    ensures |Numerals(ip, k)| == |ip| - k
    decreases |ip| - k
  {
    if k < |ip| { NumeralsCount(ip, k + 1); }
  }

  lemma {:induction false} LabelsOfDotted(ip: seq<byte>, k: nat)
    requires |ip| == 4 && k < 4
    ensures Labels(DottedFrom(ip, k)) == Numerals(ip, k)
    decreases 4 - k
  {
    var text := Decimal(ip[k]);
    NoDotInDecimal(ip[k]);
    if k == 3 {
      LabelsOfOctet(text, "");
      assert Numerals(ip, 4) == [];
    } else {
      var rest := DottedFrom(ip, k + 1);
      LabelsOfDotted(ip, k + 1);
      LabelsOfOctet(text, rest);
      assert DottedFrom(ip, k) == text + "." + rest;
    }
  }

  /** Four labels that are the numerals of the octets, in their order. */
  predicate Spells(subject: string, data: seq<byte>) {
    |data| == 4 && |Labels(subject)| == 4 && forall i :: 0 <= i < 4 ==> Canonical(Labels(subject)[i], data[i])
  }

  lemma DottedSpells(data: seq<byte>)
    requires |data| == 4
    ensures Spells(Dotted(data), data)
  {
    DottedLabel(data, 0);
    forall i | 0 <= i < 4 ensures Canonical(Labels(Dotted(data))[i], data[i]) {
      DottedLabel(data, i);
      DecimalIsCanonical(data[i]);
    }
  }

  lemma DottedLabel(data: seq<byte>, i: nat)
    requires |data| == 4 && i < 4
    ensures |Labels(Dotted(data))| == 4 && Labels(Dotted(data))[i] == Decimal(data[i])
  {
    LabelsOfDotted(data, 0);
    NumeralAt(data, 0, i);
  }

  lemma SameLabel(subject: string, data: seq<byte>, i: nat)
    requires Spells(subject, data) && i < 4
    ensures |Labels(Dotted(data))| == 4 && Labels(subject)[i] == Labels(Dotted(data))[i]
  {
    DottedLabel(data, i);
    var text := Labels(subject)[i];
    CanonicalIsDecimal(text, data[i]);
  }

  lemma SameNames(a: string, b: string)
    requires |Labels(a)| == |Labels(b)| && forall i :: 0 <= i < |Labels(a)| ==> Labels(a)[i] == Labels(b)[i]
    ensures a == b
  {
    EqualByLabels(a, b);
  }

  lemma SpellsOnlyDotted(subject: string, data: seq<byte>)
    requires Spells(subject, data)
    ensures subject == Dotted(data)
  {
    SameLabel(subject, data, 0);
    forall i | 0 <= i < 4 ensures Labels(subject)[i] == Labels(Dotted(data))[i] { SameLabel(subject, data, i); }
    SameNames(subject, Dotted(data));
  }

  /**
    What an address entry accepts: a subject with four labels that are the decimal
    numerals of the four octets, in their order, without leading zeros.
  */
  lemma AddressAccepts(data: seq<byte>, subject: string)
    ensures AltNameAccepts(IpAddress(data), subject)
        <==> |data| == 4 && |Labels(subject)| == 4 && forall i :: 0 <= i < 4 ==> Canonical(Labels(subject)[i], data[i])
  {
    if |data| == 4 {
      DottedSpells(data);
      if Spells(subject, data) { SpellsOnlyDotted(subject, data); }
    }
  }

  /** The text between which labels stand. */
  function Join(labels: seq<string>): string
    requires labels != []
  {
    if |labels| == 1 then labels[0] else labels[0] + "." + Join(labels[1..])
  }

  lemma JoinHead(first: string, rest: seq<string>)
    requires rest != []
    ensures Join([first] + rest) == first + "." + Join(rest)
  {
    assert ([first] + rest)[1..] == rest;
  }

  /** The labels are the dot-free pieces of the name, in order. */
  lemma {:induction false} LabelsMeaning(name: string)
    ensures Join(Labels(name)) == name
    ensures forall i :: 0 <= i < |Labels(name)| ==> '.' !in Labels(name)[i]
    decreases |name|
  {
    var at := StrChr(name, '.');
    if at.Some? {
      var rest := Labels(name[at.value + 1..]);
      LabelsMeaning(name[at.value + 1..]);
      JoinHead(name[..at.value], rest);
      assert Labels(name) == [name[..at.value]] + rest;
    } else {
      assert Labels(name) == [name];
    }
  }

  /**
    What a DNS entry accepts, when the conversion kept its length: with an embedded
    NUL nothing; else what its name matches, where one trailing dot does not count.
  */
  lemma DnsAccepts(utf8: string, name: string, subject: string)
    requires utf8 == name + "." || (utf8 == name && (name == [] || name[|name| - 1] != '.'))
    ensures AltNameAccepts(Dns(|utf8|, utf8), subject) <==> '\0' !in utf8 && NameMatches(subject, name)
  {
    LengthTestMeansNoNul(Dns(|utf8|, utf8));
    if utf8 == name + "." {
      assert utf8[..|utf8| - 1] == name && utf8[|utf8| - 1] == '.';
    }
  }

  lemma SplitAtDot(a: string, x: string, b: string, y: string)
    requires '.' !in a && '.' !in b && a + "." + x == b + "." + y
    ensures a == b && x == y
  {
    var s := a + "." + x;
    assert s[|a|] == '.' && s[|b|] == '.';
    assert s[..|a|] == a && s[..|b|] == b;
    NoDotBefore(s, |a|, |b|);
    NoDotBefore(s, |b|, |a|);
    assert s[|a| + 1..] == x && s[|b| + 1..] == y;
  }

  lemma DottedFromSplits(a: seq<byte>, b: seq<byte>, k: nat)
    requires |a| == 4 && |b| == 4 && k < 3 && DottedFrom(a, k) == DottedFrom(b, k)
    ensures Decimal(a[k]) == Decimal(b[k]) && DottedFrom(a, k + 1) == DottedFrom(b, k + 1)
  {
    SplitAtDot(Decimal(a[k]), DottedFrom(a, k + 1), Decimal(b[k]), DottedFrom(b, k + 1));
  }

  lemma {:induction false} DottedFromIsInjective(a: seq<byte>, b: seq<byte>, k: nat)
    requires |a| == 4 && |b| == 4 && k < 4 && DottedFrom(a, k) == DottedFrom(b, k)
    ensures a[k..] == b[k..]
    decreases 4 - k
  {
    assert a[k..] == [a[k]] + a[k + 1..] && b[k..] == [b[k]] + b[k + 1..];
    ValueOfDecimal(a[k]);
    ValueOfDecimal(b[k]);
    if k < 3 {
      DottedFromSplits(a, b, k);
      DottedFromIsInjective(a, b, k + 1);
    }
  }

  /** No two addresses are written alike, so no two match the same subject. */
  lemma DottedIsInjective(a: seq<byte>, b: seq<byte>, subject: string)
    requires AltNameAccepts(IpAddress(a), subject) && AltNameAccepts(IpAddress(b), subject)
    ensures a == b
  {
    DottedFromIsInjective(a, b, 0);
    assert a[0..] == a && b[0..] == b;
  }

  lemma DecimalIsShort(n: byte)
    ensures |Decimal(n)| <= 3
  {
    assert Decimal(n) == if n < 10 then [Digit(n)] else Decimal(n / 10) + [Digit(n % 10)];
    if n >= 10 {
      var m: nat := n / 10;
      assert Decimal(m) == if m < 10 then [Digit(m)] else Decimal(m / 10) + [Digit(m % 10)];
      if m >= 10 { assert Decimal(m / 10) == [Digit(m / 10)]; }
    }
  }

  /** The dotted text and its terminator fit the 64-byte buffer it is printed into. */
  lemma DottedFitsBuffer(ip: seq<byte>)
    requires |ip| == 4
    ensures 7 <= |Dotted(ip)| <= 15 < 64
  {
    DecimalIsShort(ip[0]);
    DecimalIsShort(ip[1]);
    DecimalIsShort(ip[2]);
    DecimalIsShort(ip[3]);
    assert |DottedFrom(ip, 2)| == |Decimal(ip[2])| + 1 + |Decimal(ip[3])|;
    assert |DottedFrom(ip, 1)| == |Decimal(ip[1])| + 1 + |DottedFrom(ip, 2)|;
  }
}
