/** Which entries admit what they name, and what the suggested remedy opens. */
module AllowlistRemedy {
  import opened Prelude
  import opened Text
  import opened Allowlist
  import opened AllowlistTheorems

  // ----- Host names -----

  lemma {:induction false} LabelsChars(host: string)
    requires GoodLabels(host)
    ensures forall c | c in host :: c == '.' || LabelChar(c)
    ensures host != "" && host[0] != '.' && host[|host| - 1] != '.'
    decreases |host|
  {
    if '.' in host {
      var i := IndexOf(host, '.');
      var first, rest := host[..i], host[i + 1..];
      assert Split(host, '.') == [first] + Split(rest, '.');
      assert GoodLabel(first) by {
        assert Split(host, '.')[0] in Split(host, '.');
      }
      forall l | l in Split(rest, '.') ensures GoodLabel(l) {
        assert l in Split(host, '.');
      }
      LabelsChars(rest);
      assert host == first + "." + rest;
    } else {
      assert Split(host, '.')[0] == host && host in Split(host, '.');
    }
  }

  /** A DNS name or a dotted address as a target may spell it: any case, perhaps a final
      dot. */
  predicate Spells(host: string, name: string) {
    Lower(DropLastDot(host)) == name && GoodLabels(name)
  }

  lemma SpelledPlainly(host: string, name: string)
    requires Spells(host, name)
    ensures ':' !in host && Clean(host)
  {
    LabelsChars(name);
    var h := DropLastDot(host);
    forall c | c in h ensures c != ':' && c != '[' && c != ']' {
      var k :| 0 <= k < |h| && h[k] == c;
      assert name[k] in name && name[k] == LowerChar(c);
    }
    forall c | c in host ensures c != ':' && c != '[' && c != ']' {
      assert c in h || c == '.';
    }
  }

  /** A port as a client writes it: decimal, unsigned, no leading zero. */
  predicate Canonical(port: string) {
    AllDigits(port) && port[0] != '0'
  }

  predicate PortText(port: string) {
    Canonical(port) && Number(port) <= 65535
  }

  lemma DigitsAreClean(port: string)
    requires AllDigits(port)
    ensures ':' !in port && Clean(port) && forall c | c in port :: !IsSpace(c) && LowerChar(c) == c
    ensures port[0] != '+' && port[0] != '-' && Atoi(port) == Some(Number(port))
  {
    assert IsDigit(port[0]);
  }

  lemma {:induction false} CanonicalPositive(port: string)
    requires Canonical(port)
    ensures Number(port) >= 1
    decreases |port|
  {
    if |port| == 1 {
      assert IsDigit(port[0]);
    } else {
      assert IsDigit(port[|port| - 1]);
      assert port[..|port| - 1][0] == port[0];
      CanonicalPositive(port[..|port| - 1]);
    }
  }

  /** One number, one canonical spelling. */
  lemma {:induction false} CanonicalUnique(a: string, b: string)
    requires Canonical(a) && Canonical(b) && Number(a) == Number(b)
    ensures a == b
    decreases |a|
  {
    var i, j := |a| - 1, |b| - 1;
    assert IsDigit(a[i]) && IsDigit(b[j]);
    var x, y := a[..i], b[..j];
    assert a == x + [a[i]] && b == y + [b[j]];
    assert Number(x) == Number(y) && a[i] == b[j];
    if x == "" && y != "" {
      assert y[0] == b[0];
      CanonicalPositive(y);
    } else if x != "" && y == "" {
      assert x[0] == a[0];
      CanonicalPositive(x);
    } else if x != "" {
      assert x[0] == a[0] && y[0] == b[0];
      CanonicalUnique(x, y);
    }
  }

  // ----- The suggested remedy -----

  /** A target a run may have been denied: a host alone, or with a port. */
  predicate Asked(hostport: string, host: string, port: string) {
    (hostport == host && port == "443") || (hostport == host + ":" + port && PortText(port))
  }

  lemma AskedTarget(hostport: string, host: string, name: string, port: string)
    requires Asked(hostport, host, port) && Spells(host, name)
    ensures Target(hostport) == (name, port)
    ensures SuggestEntry(hostport) == if DefaultPort(port) then name else name + ":" + port
  {
    SpelledPlainly(host, name);
    LabelsChars(name);
    if hostport != host {
      DigitsAreClean(port);
      SplitPlain(host, port);
    }
  }

  /** Text without space or capitals is its own normal form. */
  lemma AlreadyNormal(s: string)
    requires forall c | c in s :: !IsSpace(c) && LowerChar(c) == c
    ensures Normal(s) == s
  {
    if s != "" {
      assert s[0] in s && s[|s| - 1] in s;
    }
    assert TrimSpace(s) == s;
    forall k | 0 <= k < |s| ensures LowerChar(s[k]) == s[k] {
      assert s[k] in s;
    }
  }

  /** A character of a name or of a port. */
  predicate EntryChar(c: char) {
    LabelChar(c) || c == '.' || c == ':' || c == '+'
  }

  lemma NoneForbidden(s: string)
    requires forall c | c in s :: EntryChar(c)
    ensures '/' !in s && '*' !in s && !(exists c | c in " \t\n,@?#" :: c in s)
    ensures Normal(s) == s
  {
    forall c | c in " \t\n,@?#" ensures c !in s {
      var k :| 0 <= k < 7 && " \t\n,@?#"[k] == c;
      assert c == [' ', '\t', '\n', ',', '@', '?', '#'][k];
    }
    AlreadyNormal(s);
  }

  /** Names, alone or with a port in range, are accepted as they are. */
  lemma NameAccepted(isIP: string -> bool, name: string)
    requires GoodLabels(name)
    ensures ValidateEntry(isIP, name) == Ok(name) && Parts(name) == (name, "") && !("." <= name)
  {
    LabelsChars(name);
    NoneForbidden(name);
  }

  lemma PortAccepted(isIP: string -> bool, host: string, port: string)
    requires GoodLabels(host) || ("." <= host && GoodLabels(host[1..]) && '.' in host[1..])
    requires (forall c | c in port :: IsDigit(c)) && GoodPort(port)
    ensures ValidateEntry(isIP, host + ":" + port) == Ok(host + ":" + port)
    ensures Parts(host + ":" + port) == (host, port) && port != ""
  {
    HostChars(host);
    SplitPlain(host, port);
    PortNotEmpty(port);
    JoinedChars(host, port);
    NoneForbidden(host + ":" + port);
    HostAccepted(isIP, host);
    CheckPasses(isIP, host + ":" + port, host, port);
  }

  lemma CheckPasses(isIP: string -> bool, e: string, host: string, port: string)
    requires SplitHostPort(e) == Some((host, port)) && GoodPort(port) && '/' !in e && '*' !in e
             && !(exists c | c in " \t\n,@?#" :: c in e)
    requires var bare := DropFirstDot(host);
             bare != "" && (("." <= host && '.' in bare && GoodLabels(bare)) || (!("." <= host) && GoodLabels(bare)))
    ensures Check(isIP, e).None?
  {
    assert e != "";
  }

  lemma JoinedChars(host: string, port: string)
    requires (forall c | c in host :: c == '.' || LabelChar(c)) && forall c | c in port :: IsDigit(c)
    ensures forall c | c in host + ":" + port :: EntryChar(c)
  {
    forall c | c in host + ":" + port ensures EntryChar(c) {
      assert c in host || c == ':' || c in port;
    }
  }

  /** The part of the grammar that looks at the host. */
  lemma HostAccepted(isIP: string -> bool, host: string)
    requires GoodLabels(host) || ("." <= host && GoodLabels(host[1..]) && '.' in host[1..])
    ensures var bare := DropFirstDot(host);
            bare != "" && (("." <= host && '.' in bare && GoodLabels(bare)) || (!("." <= host) && GoodLabels(bare)))
  {
    if GoodLabels(host) {
      LabelsChars(host);
    } else {
      LabelsChars(host[1..]);
    }
  }

  lemma PortNotEmpty(port: string)
    requires GoodPort(port)
    ensures port != ""
  {
  }

  lemma HostChars(host: string)
    requires GoodLabels(host) || ("." <= host && GoodLabels(host[1..]))
    ensures (forall c | c in host :: c == '.' || LabelChar(c)) && ':' !in host && Clean(host)
  {
    if GoodLabels(host) {
      LabelsChars(host);
    } else {
      LabelsChars(host[1..]);
      assert host == "." + host[1..];
    }
  }

  /** The remedy works and opens nothing more: the suggested entry is accepted, admits the
      denied target, and admits another exactly when the host is the same and the ports
      are equal or both default. */
  lemma RemedyIsExact(isIP: string -> bool, hostport: string, host: string, name: string, port: string, other: string)
    requires Asked(hostport, host, port) && Spells(host, name)
    ensures var s := SuggestEntry(hostport);
            && ValidateEntry(isIP, s) == Ok(s)
            && Permitted([s], hostport)
            && (Permitted([s], other) <==>
                  && Target(other).0 == name
                  && (Target(other).1 == port || (DefaultPort(Target(other).1) && DefaultPort(port))))
  {
    AskedTarget(hostport, host, name, port);
    var s := SuggestEntry(hostport);
    if DefaultPort(port) {
      NameAccepted(isIP, name);
    } else {
      DigitsAreClean(port);
      CanonicalPositive(port);
      PortAccepted(isIP, name, port);
    }
    OneEntry(s, hostport);
    OneEntry(s, other);
  }

  lemma OneEntry(e: string, hostport: string)
    ensures Permitted([e], hostport) <==> Admits(e, Target(hostport).0, Target(hostport).1)
  {
    assert e in [e];
  }

  // ----- Entries that do not admit what they name -----

  /** What is taken for granted of IP addresses: no brackets, no final dot. */
  ghost predicate SaneIP(isIP: string -> bool) {
    forall a | isIP(a) :: Clean(a) && (a != "" ==> a[|a| - 1] != '.')
  }

  lemma LowerParts(e: string)
    requires Lower(e) == e
    ensures Lower(Parts(e).0) == Parts(e).0 && Lower(DropFirstDot(Parts(e).0)) == DropFirstDot(Parts(e).0)
  {
    var h := Parts(e).0;
    forall k | 0 <= k < |h| ensures LowerChar(h[k]) == h[k] {
      var hp := SplitHostPort(e);
      if hp.Some? {
        assert h[k] == if e[0] == '[' then e[k + 1] else e[k];
      }
    }
  }

  /** The host of an accepted entry has no brackets and no dot at its end. */
  lemma BareHost(isIP: string -> bool, e: string)
    requires SaneIP(isIP) && Check(isIP, e).None?
    ensures var bare := DropFirstDot(Parts(e).0);
            bare != "" && bare[|bare| - 1] != '.' && Clean(bare)
  {
    var bare := DropFirstDot(Parts(e).0);
    AddressOrName(isIP, e);
    if !isIP(bare) {
      HostChars(bare);
      LabelsChars(bare);
    }
  }

  lemma AddressOrName(isIP: string -> bool, e: string)
    requires Check(isIP, e).None?
    ensures var bare := DropFirstDot(Parts(e).0); bare != "" && (isIP(bare) || GoodLabels(bare))
  {
  }

  /** The target an accepted entry names normalises to the entry's own host. */
  lemma OwnTarget(isIP: string -> bool, raw: string, q: string)
    requires SaneIP(isIP) && ValidateEntry(isIP, raw).Ok? && Clean(q) && ':' !in q
    ensures var bare := DropFirstDot(Parts(ValidateEntry(isIP, raw).value).0);
            Target(JoinHostPort(bare, q)) == (bare, q)
  {
    var e := ValidateEntry(isIP, raw).value;
    LowerTwice(TrimSpace(raw));
    LowerParts(e);
    BareHost(isIP, e);
    SplitJoined(DropFirstDot(Parts(e).0), q);
  }

  /** An accepted entry admits the host it names, on the port it names (without one: on
      80 and 443), if and only if it names no port, or one in plain decimal and no suffix. */
  lemma OwnHostIff(isIP: string -> bool, raw: string, q: string)
    requires SaneIP(isIP) && ValidateEntry(isIP, raw).Ok?
    requires var port := Parts(ValidateEntry(isIP, raw).value).1;
             if port == "" then DefaultPort(q) else Canonical(q) && Atoi(port) == Some(Number(q))
    ensures var e := ValidateEntry(isIP, raw).value;
            var (host, port) := Parts(e);
            Permitted([e], JoinHostPort(DropFirstDot(host), q)) <==> port == "" || (Canonical(port) && !("." <= host))
  {
    var e := ValidateEntry(isIP, raw).value;
    var (host, port) := Parts(e);
    assert Clean(q) && ':' !in q by {
      if port != "" {
        DigitsAreClean(q);
      }
    }
    OwnTarget(isIP, raw, q);
    OneEntry(e, JoinHostPort(DropFirstDot(host), q));
    if port != "" && Canonical(port) {
      DigitsAreClean(port);
      CanonicalUnique(port, q);
    }
  }

  /** The first failing family: any name with two labels, behind a dot and with a port,
      is accepted and does not admit the name on that port. */
  lemma DottedPortFails(isIP: string -> bool, name: string, port: string)
    requires GoodLabels(name) && '.' in name && PortText(port)
    ensures ValidateEntry(isIP, "." + name + ":" + port) == Ok("." + name + ":" + port)
    ensures !Permitted(["." + name + ":" + port], name + ":" + port)
  {
    DigitsAreClean(port);
    CanonicalPositive(port);
    NameTarget(name, port);
    assert ("." + name)[1..] == name;
    PortAccepted(isIP, "." + name, port);
    OneEntry("." + name + ":" + port, name + ":" + port);
  }

  /** The second: any name with a zero before its port. */
  lemma ZeroPortFails(isIP: string -> bool, name: string, port: string)
    requires GoodLabels(name) && PortText(port)
    ensures ValidateEntry(isIP, name + ":" + ("0" + port)) == Ok(name + ":" + ("0" + port))
    ensures !Permitted([name + ":" + ("0" + port)], name + ":" + port)
  {
    CanonicalPositive(port);
    NameTarget(name, port);
    LeadingZero(port);
    PortAccepted(isIP, name, "0" + port);
    OneEntry(name + ":" + ("0" + port), name + ":" + port);
  }

  lemma NameTarget(name: string, port: string)
    requires GoodLabels(name) && AllDigits(port)
    ensures Target(name + ":" + port) == (name, port)
  {
    DigitsAreClean(port);
    HostChars(name);
    SplitPlain(name, port);
    NameIsLower(name);
  }

  lemma NameIsLower(name: string)
    requires GoodLabels(name)
    ensures Lower(DropLastDot(name)) == name
  {
    LabelsChars(name);
    forall k | 0 <= k < |name| ensures LowerChar(name[k]) == name[k] {
      assert name[k] in name;
    }
  }

  lemma {:induction false} LeadingZero(port: string)
    requires AllDigits(port)
    ensures AllDigits("0" + port) && Number("0" + port) == Number(port) && Atoi("0" + port) == Some(Number(port))
    decreases |port|
  {
    var s := "0" + port;
    assert s[..|s| - 1] == "0" + port[..|port| - 1];
    assert forall c | c in s :: c == '0' || c in port;
    assert s[0] == '0';
    if |port| == 1 {
      assert s[..1] == "0" && "0"[..0] == "" && port[..0] == "";
    } else {
      assert AllDigits(port[..|port| - 1]);
      LeadingZero(port[..|port| - 1]);
    }
  }
}
