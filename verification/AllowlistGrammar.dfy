/** The language of allowlist entries, written down as what it generates. */
module AllowlistGrammar {
  import opened Text
  import opened Allowlist
  import opened AllowlistTheorems
  import opened AllowlistRemedy

  /** An address, a name, or a dot and a name of two labels or more. */
  predicate GoodHost(isIP: string -> bool, host: string) {
    if "." <= host then |Labels(host[1..])| >= 2 && GoodLabels(host[1..])
    else host != "" && (isIP(host) || GoodLabels(host))
  }

  /** None of the characters that would make an entry something else than a host. */
  predicate PlainText(s: string) {
    '/' !in s && '*' !in s && !(exists c | c in " \t\n,@?#" :: c in s)
  }

  /** `e` is made of a host and a port: the host alone, `host:port` with the port
      perhaps empty, or `[host]:port`. */
  predicate MadeOf(isIP: string -> bool, e: string, host: string, port: string) {
    && GoodHost(isIP, host) && (port == "" || GoodPort(port))
    && Clean(host) && Clean(port) && ':' !in port && PlainText(host) && PlainText(port)
    && ((e == host && port == "" && ':' !in host) || (e == host + ":" + port && ':' !in host)
        || e == "[" + host + "]:" + port)
  }

  ghost predicate Entry(isIP: string -> bool, e: string) {
    exists host, port :: MadeOf(isIP, e, host, port)
  }

  lemma TwoLabels(host: string)
    ensures |Labels(host)| >= 2 <==> '.' in host
  {
  }

  lemma PlainParts(a: string, b: string)
    ensures PlainText(a + b) <==> PlainText(a) && PlainText(b)
  {
    assert forall c :: c in a + b <==> c in a || c in b;
  }

  /** How an address that splits was put together. */
  lemma SplitForms(e: string)
    requires SplitHostPort(e).Some?
    ensures var (host, port) := SplitHostPort(e).value;
            (e == host + ":" + port && ':' !in host) || e == "[" + host + "]:" + port
  {
    var i := LastIndexOf(e, ':');
    if e[0] == '[' {
      assert e == "[" + e[1..i - 1] + "]:" + e[i + 1..];
    } else {
      assert e == e[..i] + ":" + e[i + 1..];
    }
  }

  lemma Assembled(e: string, host: string, port: string)
    requires e == host + ":" + port || e == "[" + host + "]:" + port
    ensures PlainText(e) <==> PlainText(host) && PlainText(port)
  {
    PlainParts(host, ":");
    PlainParts(host + ":", port);
    PlainParts("[", host);
    PlainParts("[" + host, "]:");
    PlainParts("[" + host + "]:", port);
    PlainLiterals();
  }

  lemma PlainLiterals()
    ensures PlainText(":") && PlainText("[") && PlainText("]:")
  {
    forall c | c in " \t\n,@?#" ensures c != ':' && c != '[' && c != ']' {
      var k :| 0 <= k < 7 && " \t\n,@?#"[k] == c;
      assert c == [' ', '\t', '\n', ',', '@', '?', '#'][k];
    }
  }

  /** The host part of the check is the grammar's. */
  lemma HostChecked(isIP: string -> bool, host: string)
    ensures GoodHost(isIP, host) <==>
              var bare := DropFirstDot(host);
              bare != "" && ((!("." <= host) && isIP(bare)) || (("." <= host ==> '.' in bare) && GoodLabels(bare)))
  {
    TwoLabels(DropFirstDot(host));
    if GoodLabels(DropFirstDot(host)) {
      LabelsChars(DropFirstDot(host));
    }
  }

  lemma CheckedHost(isIP: string -> bool, e: string)
    ensures Check(isIP, e).None? <==>
              && e != "" && PlainText(e) && (SplitHostPort(e).None? ==> ':' !in e)
              && (Parts(e).1 == "" || GoodPort(Parts(e).1)) && GoodHost(isIP, Parts(e).0)
  {
    HostChecked(isIP, Parts(e).0);
  }

  lemma CleanHost(isIP: string -> bool, host: string)
    requires SaneIP(isIP) && GoodHost(isIP, host)
    ensures Clean(host) && host != ""
  {
    if "." <= host {
      HostChars(host);
    } else if !isIP(host) {
      HostChars(host);
    }
  }

  lemma AcceptedIsMade(isIP: string -> bool, e: string)
    requires SaneIP(isIP) && Check(isIP, e).None?
    ensures Entry(isIP, e)
  {
    CheckedHost(isIP, e);
    var (host, port) := Parts(e);
    CleanHost(isIP, host);
    if SplitHostPort(e).Some? {
      SplitForms(e);
      SplitIsClean(e);
      Assembled(e, host, port);
    }
    assert MadeOf(isIP, e, host, port);
  }

  lemma MadeIsAccepted(isIP: string -> bool, e: string, host: string, port: string)
    requires SaneIP(isIP) && MadeOf(isIP, e, host, port)
    ensures Check(isIP, e).None?
  {
    CleanHost(isIP, host);
    if e == host && port == "" && ':' !in host {
      assert Parts(e) == (host, "");
    } else {
      Assembled(e, host, port);
      if e == "[" + host + "]:" + port {
        SplitBracketed(host, port);
      } else {
        SplitPlain(host, port);
      }
      assert Parts(e) == (host, port);
    }
    CheckedHost(isIP, e);
  }

  /** Validation accepts exactly the entries of the language, once normalised, and hands
      them on as they are. */
  lemma AcceptsExactly(isIP: string -> bool, raw: string)
    requires SaneIP(isIP)
    ensures ValidateEntry(isIP, raw).Ok? <==> Entry(isIP, Normal(raw))
    ensures ValidateEntry(isIP, raw).Ok? ==> ValidateEntry(isIP, raw).value == Normal(raw)
  {
    if ValidateEntry(isIP, raw).Ok? {
      AcceptedIsMade(isIP, Normal(raw));
    }
    if host, port :| MadeOf(isIP, Normal(raw), host, port) {
      MadeIsAccepted(isIP, Normal(raw), host, port);
    }
  }
}
