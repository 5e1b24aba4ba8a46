/** What the list parser and the entry grammar make of text, character by character. */
module AllowlistText {
  import opened Prelude
  import opened Text
  import opened Allowlist
  import opened AllowlistTheorems
  import opened AllowlistRemedy

  // ----- Letters and white space -----

  /** The ASCII capitals fold to their small letters, and nothing else changes. */
  lemma CapitalsFold(c: char)
    ensures var big, small := "ABCDEFGHIJKLMNOPQRSTUVWXYZ", "abcdefghijklmnopqrstuvwxyz";
            && |big| == |small| == 26
            && (forall k | 0 <= k < 26 :: LowerChar(big[k]) == small[k])
            && (c !in big ==> LowerChar(c) == c)
  {
    var big := "ABCDEFGHIJKLMNOPQRSTUVWXYZ";
    if 'A' <= c <= 'Z' {
      assert big[c as int - 'A' as int] == c;
    }
  }

  /** The characters that count as white space. */
  lemma SpaceIff(c: char)
    ensures IsSpace(c) <==>
            || c in "\t\n\U{0B}\U{0C}\r \U{85}\U{A0}\U{1680}\U{2028}\U{2029}\U{202F}\U{205F}\U{3000}"
            || c in "\U{2000}\U{2001}\U{2002}\U{2003}\U{2004}\U{2005}\U{2006}\U{2007}\U{2008}\U{2009}\U{200A}"
  {
    var one := "\t\n\U{0B}\U{0C}\r \U{85}\U{A0}\U{1680}\U{2028}\U{2029}\U{202F}\U{205F}\U{3000}";
    var two := "\U{2000}\U{2001}\U{2002}\U{2003}\U{2004}\U{2005}\U{2006}\U{2007}\U{2008}\U{2009}\U{200A}";
    assert one == ['\t', '\n', '\U{0B}', '\U{0C}', '\r', ' ', '\U{85}', '\U{A0}', '\U{1680}', '\U{2028}', '\U{2029}',
                   '\U{202F}', '\U{205F}', '\U{3000}'];
    assert two == ['\U{2000}', '\U{2001}', '\U{2002}', '\U{2003}', '\U{2004}', '\U{2005}', '\U{2006}', '\U{2007}',
                   '\U{2008}', '\U{2009}', '\U{200A}'];
    if '\U{2000}' <= c <= '\U{200A}' {
      assert two[c as int - 0x2000] == c;
    } else if '\t' <= c <= '\r' {
      assert one[c as int - 9] == c;
    }
  }

  predicate White(s: string) {
    forall k | 0 <= k < |s| :: IsSpace(s[k])
  }

  /** White space goes from both ends, and as much of it as there is. */
  ghost predicate TrimsAt(s: string, i: nat, j: nat) {
    && i <= j <= |s| && White(s[..i]) && White(s[j..])
    && (i < j ==> !IsSpace(s[i]) && !IsSpace(s[j - 1]))
  }

  lemma {:induction false} Trims(s: string) returns (i: nat, j: nat)
    ensures TrimsAt(s, i, j) && TrimSpace(s) == s[i..j]
    decreases |s|
  {
    i, j := 0, |s|;
    if s != "" && IsSpace(s[0]) {
      i, j := Trims(s[1..]);
      FrontGoes(s, i, j);
      i, j := i + 1, j + 1;
    } else if s != "" && IsSpace(s[|s| - 1]) {
      i, j := Trims(s[..|s| - 1]);
      BackGoes(s, i, j);
    }
  }

  lemma FrontGoes(s: string, i: nat, j: nat)
    requires s != "" && IsSpace(s[0]) && TrimsAt(s[1..], i, j)
    ensures TrimsAt(s, i + 1, j + 1) && s[1..][i..j] == s[i + 1..j + 1]
  {
    assert s[1..][j..] == s[j + 1..] && s[..i + 1] == [s[0]] + s[1..][..i];
  }

  lemma BackGoes(s: string, i: nat, j: nat)
    requires s != "" && IsSpace(s[|s| - 1]) && TrimsAt(s[..|s| - 1], i, j)
    ensures TrimsAt(s, i, j) && s[..|s| - 1][i..j] == s[i..j]
  {
    var t := s[..|s| - 1];
    assert t[..i] == s[..i] && s[j..] == t[j..] + [s[|s| - 1]];
  }

  lemma TrimsOnce(s: string, i: nat, j: nat, k: nat, l: nat)
    requires TrimsAt(s, i, j) && TrimsAt(s, k, l)
    ensures s[i..j] == s[k..l]
  {
    assert forall n | 0 <= n < i :: s[n] == s[..i][n];
    assert forall n | 0 <= n < k :: s[n] == s[..k][n];
    assert forall n | j <= n < |s| :: s[n] == s[j..][n - j];
    assert forall n | l <= n < |s| :: s[n] == s[l..][n - l];
  }

  /** Trimming takes all the white space off both ends and nothing else. */
  lemma TrimSpaceIff(s: string, t: string)
    ensures TrimSpace(s) == t <==> exists i: nat, j: nat :: TrimsAt(s, i, j) && t == s[i..j]
  {
    var i, j := Trims(s);
    forall k: nat, l: nat | TrimsAt(s, k, l) ensures TrimSpace(s) == s[k..l] {
      TrimsOnce(s, i, j, k, l);
    }
  }

  // ----- Parsing a list -----

  /** Free of commas, blanks and newlines. */
  predicate OneField(s: string) {
    ',' !in s && ' ' !in s && '\n' !in s
  }

  /** What one field contributes. */
  function Contribution(a: string): seq<string> {
    if Lower(TrimSpace(a)) == "" then [] else [Lower(TrimSpace(a))]
  }

  lemma KeptCons(a: string, fields: seq<string>)
    ensures Kept([a] + fields) == Contribution(a) + Kept(fields)
  {
    assert ([a] + fields)[1..] == fields;
  }

  /** Parsing, said without its helpers: a field up to a comma, a blank or a newline gives
      one entry, in lower case and without white space, if that leaves anything; then comes
      the rest. */
  lemma ParsesFieldByField(a: string, sep: char, rest: string)
    requires a != "" && OneField(a) && (sep == ',' || sep == ' ' || sep == '\n')
    ensures Kept(Fields(a + [sep] + rest)) == Contribution(a) + Kept(Fields(rest))
    ensures Kept(Fields(a)) == Contribution(a)
    ensures Kept(Fields([sep] + rest)) == Kept(Fields(rest))
    ensures Kept(Fields("")) == []
  {
    forall c | c in a ensures !Separator(c) {}
    FieldsCons(a, sep, rest);
    KeptCons(a, Fields(rest));
    KeptCons(a, []);
    assert [a] + [] == [a];
    assert ([sep] + rest)[1..] == rest;
  }

  lemma {:induction false} KeptAreFields(fields: seq<string>, e: string) returns (f: string)
    requires e in Kept(fields)
    ensures f in fields && e == Normal(f) && e != ""
  {
    if e in Kept(fields[1..]) {
      f := KeptAreFields(fields[1..], e);
    } else {
      f := fields[0];
    }
  }

  /** No entry of any list holds a separator or a capital, or white space at an end. */
  lemma ParsedEntries(raw: string, e: string)
    requires e in Kept(Fields(raw))
    ensures e != "" && OneField(e) && !IsSpace(e[0]) && !IsSpace(e[|e| - 1])
    ensures forall c | c in e :: !('A' <= c <= 'Z')
  {
    var f := KeptAreFields(Fields(raw), e);
    NormalTwice(f);
    Trimmed(e);
    var t := TrimSpace(f);
    var i, j := Trims(f);
    forall c | c in e ensures c != ',' && c != ' ' && c != '\n' && !('A' <= c <= 'Z') {
      var k :| 0 <= k < |e| && e[k] == c;
      assert t[k] == f[i + k] && f[i + k] in f && c == LowerChar(t[k]);
      assert !Separator(f[i + k]);
    }
  }

  // ----- Labels and ports -----

  /** A label: small letters, digits, dashes and underscores, 63 of them at most, and no
      dash at an end. */
  lemma LabelIff(l: string)
    ensures GoodLabel(l) <==>
              && 1 <= |l| <= 63 && l[0] != '-' && l[|l| - 1] != '-'
              && forall c | c in l ::
                   c in "abcdefghijklmnopqrstuvwxyz" || c in "0123456789" || c == '-' || c == '_'
  {
    forall c ensures LabelChar(c) <==>
              c in "abcdefghijklmnopqrstuvwxyz" || c in "0123456789" || c == '-' || c == '_' {
      SmallLetters(c);
      DecimalDigits(c);
    }
  }

  /** A number as it is written. */
  function Decimal(n: nat): string {
    if n < 10 then [('0' as int + n) as char] else Decimal(n / 10) + [('0' as int + n % 10) as char]
  }

  lemma {:induction false} DecimalIs(n: nat)
    ensures AllDigits(Decimal(n)) && Number(Decimal(n)) == n && (n > 0 ==> Decimal(n)[0] != '0')
  {
    var s := Decimal(n);
    if n < 10 {
      assert s[..0] == "" && Number("") == 0;
      assert IsDigit(s[0]);
    } else {
      DecimalIs(n / 10);
      assert s[..|s| - 1] == Decimal(n / 10);
      assert IsDigit(s[|s| - 1]);
      assert forall c | c in s :: c in Decimal(n / 10) || c == s[|s| - 1];
    }
  }

  predicate Zeros(s: string) {
    forall c | c in s :: c == '0'
  }

  lemma {:induction false} ZerosAdd(z: string, s: string)
    requires Zeros(z) && AllDigits(s)
    ensures AllDigits(z + s) && Number(z + s) == Number(s)
  {
    if z == "" {
      assert z + s == s;
    } else {
      assert z[0] in z && forall c | c in z[1..] :: c in z;
      ZerosAdd(z[1..], s);
      LeadingZero(z[1..] + s);
      assert z + s == "0" + (z[1..] + s);
    }
  }

  lemma OneDigit(s: string)
    requires AllDigits(s)
    ensures |s| == 1 ==> Number(s) == s[0] as int - '0' as int
  {
    if |s| == 1 {
      assert s[..0] == "";
    }
  }

  /** Digits are zeros and a number written out. */
  lemma {:induction false} DigitsAre(s: string) returns (z: string)
    requires AllDigits(s) && Number(s) > 0
    ensures Zeros(z) && s == z + Decimal(Number(s))
  {
    if s[0] != '0' {
      DecimalIs(Number(s));
      CanonicalUnique(s, Decimal(Number(s)));
      z := "";
    } else {
      ZeroOff(s);
      z := DigitsAre(s[1..]);
      z := "0" + z;
    }
  }

  lemma ZeroOff(s: string)
    requires AllDigits(s) && Number(s) > 0 && s[0] == '0'
    ensures AllDigits(s[1..]) && Number(s[1..]) == Number(s) && s == "0" + s[1..]
  {
    OneDigit(s);
    var rest := s[1..];
    assert s == "0" + rest;
    assert forall c | c in rest :: c in s;
    LeadingZero(rest);
  }

  /** A port: a number from 1 to 65535 in decimal, with any number of zeros and perhaps a
      plus sign before it. */
  ghost predicate PortNumber(port: string, n: nat) {
    exists z :: Zeros(z) && (port == z + Decimal(n) || port == "+" + z + Decimal(n))
  }

  lemma PortIff(port: string)
    ensures GoodPort(port) <==> exists n | 1 <= n <= 65535 :: PortNumber(port, n)
  {
    if GoodPort(port) {
      PortIsWritten(port);
    }
    if n :| 1 <= n <= 65535 && PortNumber(port, n) {
      var z :| Zeros(z) && (port == z + Decimal(n) || port == "+" + z + Decimal(n));
      WrittenPort(z, n);
      SignFirst(z, Decimal(n));
    }
  }

  lemma SignFirst(z: string, d: string)
    ensures "+" + z + d == "+" + (z + d)
  {
  }

  lemma PortIsWritten(port: string)
    requires GoodPort(port)
    ensures 1 <= Atoi(port).value <= 65535 && PortNumber(port, Atoi(port).value)
  {
    if port[0] == '+' {
      var z := DigitsAre(port[1..]);
      SignFirst(z, Decimal(Number(port[1..])));
      assert port == "+" + port[1..];
    } else if port[0] != '-' {
      var z := DigitsAre(port);
    }
  }

  lemma WrittenPort(z: string, n: nat)
    requires Zeros(z) && 1 <= n <= 65535
    ensures GoodPort(z + Decimal(n)) && GoodPort("+" + (z + Decimal(n)))
  {
    DecimalIs(n);
    var s := z + Decimal(n);
    ZerosAdd(z, Decimal(n));
    DigitsAreClean(s);
    assert ("+" + s)[1..] == s;
  }

  // ----- Spellings of a target -----

  /** A host's capitals and its final dot make no difference to the proxy, and a target
      without a port is on 443. */
  lemma SpellingIgnored(list: seq<string>, host: string, same: string, port: string)
    requires ':' !in host && Clean(host) && Lower(host) == Lower(same) && ':' !in port && Clean(port)
    requires host != "" ==> host[|host| - 1] != '.'
    ensures Permitted(list, host) <==> Permitted(list, host + ":" + "443")
    ensures Permitted(list, host + ":" + port) <==> Permitted(list, same + ":" + port)
    ensures Permitted(list, host + ":" + port) <==> Permitted(list, (host + ".") + ":" + port)
  {
    SameSpelling(host, same);
    NoPort(list, host);
    SameHost(list, host, same, port);
    FinalDot(host);
    SameHost(list, host, host + ".", port);
  }

  lemma FinalDot(host: string)
    requires ':' !in host && Clean(host)
    ensures ':' !in host + "." && Clean(host + ".") && DropLastDot(host + ".") == host
  {
    assert (host + ".")[..|host|] == host;
  }

  lemma NoPort(list: seq<string>, host: string)
    requires ':' !in host && Clean(host)
    ensures Permitted(list, host) <==> Permitted(list, host + ":" + "443")
  {
    DefaultIsClean();
    TargetOf(host, "443");
    TargetDecides(list, host, host + ":" + "443");
  }

  lemma DefaultIsClean()
    ensures ':' !in "443" && Clean("443")
  {
  }

  lemma SameHost(list: seq<string>, a: string, b: string, port: string)
    requires ':' !in a && Clean(a) && ':' !in b && Clean(b) && ':' !in port && Clean(port)
    requires Lower(DropLastDot(a)) == Lower(DropLastDot(b))
    ensures Permitted(list, a + ":" + port) <==> Permitted(list, b + ":" + port)
  {
    TargetOf(a, port);
    TargetOf(b, port);
    TargetDecides(list, a + ":" + port, b + ":" + port);
  }

  lemma TargetDecides(list: seq<string>, a: string, b: string)
    requires Target(a) == Target(b)
    ensures Permitted(list, a) <==> Permitted(list, b)
  {
  }

  lemma SameSpelling(host: string, same: string)
    requires ':' !in host && Clean(host) && Lower(host) == Lower(same)
    requires host != "" ==> host[|host| - 1] != '.'
    ensures ':' !in same && Clean(same) && DropLastDot(host) == host && DropLastDot(same) == same
  {
    forall k | 0 <= k < |same| ensures LowerChar(same[k]) == LowerChar(host[k]) && host[k] in host {
      assert Lower(same)[k] == Lower(host)[k];
    }
  }

  lemma TargetOf(host: string, port: string)
    requires ':' !in host && Clean(host) && ':' !in port && Clean(port)
    ensures Target(host) == (Lower(DropLastDot(host)), "443")
    ensures Target(host + ":" + port) == (Lower(DropLastDot(host)), port)
  {
    SplitPlain(host, port);
  }
}
