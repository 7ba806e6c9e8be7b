/** Matching a certificate's DNS name against a host name. */
module CertificateNames {
  import opened Wrappers
  import opened Text

  // Lower-casing, and the IDNA form of a name when it has one.
  datatype Encoding = Encoding(lower: string -> string, idna: string -> Option<string>)

  function StripDots(s: string): string {
    if s != "" && s[|s| - 1] == '.' then StripDots(s[..|s| - 1]) else s
  }

  function Count(s: string, c: char): nat {
    if s == "" then 0 else (if s[0] == c then 1 else 0) + Count(s[1..], c)
  }

  predicate Alphanumeric(c: char) {
    'a' <= c <= 'z' || 'A' <= c <= 'Z' || '0' <= c <= '9'
  }

  predicate LabelOk(part: string) {
    && 1 <= |part| <= 63 && part[0] != '-' && part[|part| - 1] != '-'
    && forall k | 0 <= k < |part| :: part[k] == '-' || Alphanumeric(part[k])
  }

  predicate NameOk(name: string) {
    && 1 <= |name| <= 253 && |Split(name, '.')| >= 2
    && forall k | 0 <= k < |Split(name, '.')| :: LabelOk(Split(name, '.')[k])
  }

  // The ASCII form of a DNS name; with `allowWildcard`, one leading "*." is kept.
  function AsciiName(encoding: Encoding, value: string, allowWildcard: bool): Option<string> {
    var candidate := encoding.lower(StripDots(Strip(value)));
    var wildcard := allowWildcard && "*." <= candidate;
    match encoding.idna(if wildcard then candidate[2..] else candidate)
    case None => None
    case Some(name) => if !NameOk(name) then None else Some(if wildcard then "*." + name else name)
  }

  predicate EndsWith(s: string, suffix: string) {
    |suffix| <= |s| && s[|s| - |suffix|..] == suffix
  }

  predicate Matches(encoding: Encoding, pattern: string, hostname: string) {
    var expected, actual := AsciiName(encoding, pattern, true), AsciiName(encoding, hostname, false);
    expected.Some? && actual.Some?
    && if '*' !in expected.value then expected == actual
       else if !("*." <= expected.value) || Count(expected.value, '*') != 1 then false
       else Count(actual.value, '.') == Count(expected.value, '.') && EndsWith(actual.value, expected.value[1..])
  }

  lemma {:induction false} CountsTheSplits(s: string)
    ensures |Split(s, '.')| == Count(s, '.') + 1
  {
    if s != "" {
      CountsTheSplits(s[1..]);
    }
  }

  lemma {:induction false} CountsNone(s: string, c: char)
    requires c !in s
    ensures Count(s, c) == 0
  {
    if s != "" {
      CountsNone(s[1..], c);
    }
  }

  lemma NoStarInName(name: string)
    requires NameOk(name)
    ensures '*' !in name
  {
    JoinSplit(name, '.');
    NoStarInJoin(Split(name, '.'));
  }

  lemma {:induction false} NoStarInJoin(parts: seq<string>)
    requires |parts| >= 1 && forall k | 0 <= k < |parts| :: '*' !in parts[k]
    ensures '*' !in Join(parts, '.')
  {
    if |parts| > 1 {
      NoStarInJoin(parts[1..]);
    }
  }

  lemma SuffixGivesLabels(head: string, base: string)
    requires Count(head + ['.'] + base, '.') == Count(base, '.') + 1
    ensures Split(head + ['.'] + base, '.')[..1] == Split(head, '.')
    ensures Split(head + ['.'] + base, '.') == Split(head, '.') + Split(base, '.')
  {
    CountsTheSplits(head + ['.'] + base);
    CountsTheSplits(base);
    SplitAppend(head, base, '.');
  }

  lemma JoinOfOne(s: string)
    ensures Join([s], '.') == s
  {
  }

  lemma LabelsGiveSuffix(actual: string, base: string)
    requires Split(actual, '.') == Split(actual, '.')[..1] + Split(base, '.')
    ensures Count(actual, '.') == Count(base, '.') + 1 && EndsWith(actual, "." + base)
  {
    hide Split, Count, Join;
    CountsTheSplits(actual);
    CountsTheSplits(base);
    var labels := Split(actual, '.');
    JoinSplit(actual, '.');
    JoinSplit(base, '.');
    JoinAppend([labels[0]], Split(base, '.'), '.');
    JoinOfOne(labels[0]);
    assert labels[..1] == [labels[0]];
    assert actual == labels[0] + ['.'] + base;
    assert actual[|actual| - |base| - 1..] == "." + base;
  }

  // Equally many dots and the same tail is the same as one label in front of the base's labels.
  lemma SuffixIsLabels(actual: string, base: string)
    ensures Count(actual, '.') == Count(base, '.') + 1 && EndsWith(actual, "." + base)
       <==> Split(actual, '.') == Split(actual, '.')[..1] + Split(base, '.')
  {
    hide Split, Count;
    if Count(actual, '.') == Count(base, '.') + 1 && EndsWith(actual, "." + base) {
      var head := actual[..|actual| - |base| - 1];
      assert actual == head + ['.'] + base;
      SuffixGivesLabels(head, base);
    }
    if Split(actual, '.') == Split(actual, '.')[..1] + Split(base, '.') {
      LabelsGiveSuffix(actual, base);
    }
  }

  // A pattern's labels: a wildcard stands for exactly one label (section 6.4.3 of RFC 6125).
  predicate LabelsMatch(pattern: string, labels: seq<string>) {
    if "*." <= pattern then |labels| >= 1 && labels[0] != "" && labels[1..] == Split(pattern[2..], '.')
    else labels == Split(pattern, '.')
  }

  /** The dot count and the suffix decide exactly what comparing label lists decides: a wildcard pattern matches one
      non-empty label in front of its base, and a plain pattern matches only itself. */
  lemma MatchesExactlyByLabels(encoding: Encoding, pattern: string, hostname: string)
    ensures var expected, actual := AsciiName(encoding, pattern, true), AsciiName(encoding, hostname, false);
            Matches(encoding, pattern, hostname)
            <==> expected.Some? && actual.Some? && LabelsMatch(expected.value, Split(actual.value, '.'))
  {
    var expected, actual := AsciiName(encoding, pattern, true), AsciiName(encoding, hostname, false);
    if expected.Some? && actual.Some? {
      var labels := Split(actual.value, '.');
      if "*." <= expected.value {
        var base := expected.value[2..];
        WildcardName(encoding, pattern);
        NoStarInName(base);
        WildcardCounts(base);
        assert expected.value == "*." + base;
        SuffixIsLabels(actual.value, base);
        assert expected.value[1..] == "." + base && expected.value[1..][1..] == base;
        assert labels[0] != "";
        assert labels == labels[..1] + Split(base, '.') <==> labels[1..] == Split(base, '.');
      } else {
        PlainName(encoding, pattern);
        NoStarInName(expected.value);
        JoinSplit(expected.value, '.');
        JoinSplit(actual.value, '.');
      }
    }
  }

  lemma WildcardCounts(base: string)
    requires '*' !in base
    ensures Count("*." + base, '*') == 1 && Count("*." + base, '.') == Count(base, '.') + 1
  {
    CountsNone(base, '*');
    assert ("*." + base)[1..] == "." + base && ("." + base)[1..] == base;
  }

  lemma WildcardName(encoding: Encoding, pattern: string)
    requires var expected := AsciiName(encoding, pattern, true); expected.Some? && "*." <= expected.value
    ensures NameOk(AsciiName(encoding, pattern, true).value[2..])
  {
    var expected := AsciiName(encoding, pattern, true).value;
    assert expected[0] == '*';
    if NameOk(expected) {
      NoStarInName(expected);
    }
  }

  lemma PlainName(encoding: Encoding, pattern: string)
    requires var expected := AsciiName(encoding, pattern, true); expected.Some? && !("*." <= expected.value)
    ensures NameOk(AsciiName(encoding, pattern, true).value)
  {
  }

  /** A wildcard never covers its own base, and never two labels. */
  lemma WildcardCoversOneLabel(encoding: Encoding, pattern: string, hostname: string)
    requires Matches(encoding, pattern, hostname)
    ensures var expected, actual := AsciiName(encoding, pattern, true).value, AsciiName(encoding, hostname, false).value;
            "*." <= expected ==> actual != expected[2..]
                                 && |Split(actual, '.')| == |Split(expected[2..], '.')| + 1
  {
    MatchesExactlyByLabels(encoding, pattern, hostname);
  }

  // Two or more labels of letters, digits and inner hyphens, at most 63 characters each and 253 in all.
  predicate HostName(name: string) {
    && 1 <= |name| <= 253 && |Split(name, '.')| >= 2
    && forall part | part in Split(name, '.') ::
         && 1 <= |part| <= 63 && part[0] != '-' && part[|part| - 1] != '-'
         && forall c | c in part :: c == '-' || 'a' <= c <= 'z' || 'A' <= c <= 'Z' || '0' <= c <= '9'
  }

  /** A name that neither begins nor ends with a blank, nor ends with a dot, is accepted exactly when its lower-case form has
      an IDNA form that is a host name, and as that; where a wildcard is allowed, a leading "*." is set aside and put back. */
  lemma AcceptedExactly(encoding: Encoding, value: string, allowWildcard: bool)
    requires value != "" && !Blank(value[0]) && !Blank(value[|value| - 1]) && value[|value| - 1] != '.'
    ensures var name := encoding.lower(value);
            AsciiName(encoding, value, allowWildcard)
            == if allowWildcard && "*." <= name then
                 match encoding.idna(name[2..])
                 case Some(base) => if HostName(base) then Some("*." + base) else None
                 case None => None
               else
                 match encoding.idna(name)
                 case Some(plain) => if HostName(plain) then Some(plain) else None
                 case None => None
  {
    assert StripDots(Strip(value)) == value;
    var name := encoding.lower(value);
    HostNameExactly(encoding.idna(name));
    if "*." <= name {
      HostNameExactly(encoding.idna(name[2..]));
    }
    hide Strip, StripDots, NameOk, HostName;
  }

  lemma HostNameExactly(name: Option<string>)
    ensures name.Some? ==> (NameOk(name.value) <==> HostName(name.value))
  {
    hide Split;
    if name.Some? {
      var parts := Split(name.value, '.');
      if NameOk(name.value) {
        assert forall part | part in parts :: LabelOk(part);
      }
      if HostName(name.value) {
        forall k | 0 <= k < |parts| ensures LabelOk(parts[k]) {
          assert parts[k] in parts && forall j | 0 <= j < |parts[k]| :: parts[k][j] in parts[k];
        }
      }
    }
  }

  lemma {:induction false} StripDotsTwice(s: string)
    ensures StripDots(s + ".") == StripDots(s)
  {
    assert (s + ".")[..|s|] == s;
  }

  /** A trailing dot makes no difference to a name that neither begins nor ends with a blank. */
  lemma TrailingDotIsIgnored(encoding: Encoding, value: string, allowWildcard: bool)
    requires value != "" && !Blank(value[0]) && !Blank(value[|value| - 1])
    ensures AsciiName(encoding, value + ".", allowWildcard) == AsciiName(encoding, value, allowWildcard)
  {
    StripDotsTwice(value);
    assert Strip(value) == value && Strip(value + ".") == value + ".";
    hide Strip, StripDots, NameOk;
  }
}
