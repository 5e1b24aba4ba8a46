/** What the allowlist promises: entries survive the trip from a request to the proxy,
    suffixes match whole labels, and a denial's remedy opens what it names and no more. */
module AllowlistTheorems {
  import opened Prelude
  import opened Text
  import opened Allowlist

  // ----- From the request to the proxy -----

  /** Validating a validated entry changes nothing. */
  lemma ValidateTwice(isIP: string -> bool, raw: string)
    requires ValidateEntry(isIP, raw).Ok?
    ensures ValidateEntry(isIP, ValidateEntry(isIP, raw).value) == ValidateEntry(isIP, raw)
  {
    NormalTwice(raw);
  }

  /** An entry the list parser hands on as it is. */
  predicate Plain(entry: string) {
    entry != "" && Normal(entry) == entry && forall c | c in entry :: !Separator(c)
  }

  lemma ValidIsPlain(isIP: string -> bool, raw: string)
    requires ValidateEntry(isIP, raw).Ok?
    ensures Plain(ValidateEntry(isIP, raw).value)
  {
    NormalTwice(raw);
    var e := Normal(raw);
    assert ',' in " \t\n,@?#" && ' ' in " \t\n,@?#" && '\n' in " \t\n,@?#" by {
      assert " \t\n,@?#"[0] == ' ' && " \t\n,@?#"[2] == '\n' && " \t\n,@?#"[3] == ',';
    }
    forall c | c in e ensures !Separator(c) {}
  }

  lemma FieldEndIs(raw: string, n: nat)
    requires n <= |raw| && (forall c | c in raw[..n] :: !Separator(c)) && (n < |raw| ==> Separator(raw[n]))
    ensures FieldEnd(raw) == n
  {
    var m := FieldEnd(raw);
    forall k | 0 <= k < n ensures !Separator(raw[k]) {
      assert raw[k] == raw[..n][k];
    }
    forall k | 0 <= k < m ensures !Separator(raw[k]) {
      assert raw[k] == raw[..m][k];
    }
  }

  lemma FieldsCons(a: string, sep: char, rest: string)
    requires a != "" && Separator(sep) && forall c | c in a :: !Separator(c)
    ensures Fields(a + [sep] + rest) == [a] + Fields(rest)
    ensures Fields(a) == [a]
  {
    var s := a + [sep] + rest;
    assert a[0] in a;
    assert s[..|a|] == a && s[|a|] == sep;
    FieldEndIs(s, |a|);
    assert s[|a|..] == [sep] + rest && ([sep] + rest)[1..] == rest;
    assert a[..|a|] == a && a[|a|..] == "";
    FieldEndIs(a, |a|);
  }

  lemma {:induction false} FieldsOfJoin(list: seq<string>)
    requires forall e | e in list :: Plain(e)
    ensures Fields(Join(list, ',')) == list
  {
    if list != [] {
      assert list[0] in list;
      FieldsCons(list[0], ',', Join(list[1..], ','));
      if |list| == 1 {
        assert list == [list[0]];
      } else {
        FieldsOfJoin(list[1..]);
        assert list == [list[0]] + list[1..];
      }
    }
  }

  lemma {:induction false} KeptAll(list: seq<string>)
    requires forall e | e in list :: Plain(e)
    ensures Kept(list) == list
  {
    if list != [] {
      assert list[0] in list;
      KeptAll(list[1..]);
    }
  }

  /** Joining a validated list with commas and parsing it again is the identity. */
  lemma ParseJoin(isIP: string -> bool, entries: seq<string>, list: seq<string>)
    requires |list| == |entries| && forall k | 0 <= k < |entries| :: ValidateEntry(isIP, entries[k]) == Ok(list[k])
    ensures Kept(Fields(Join(list, ','))) == list
  {
    forall e | e in list ensures Plain(e) {
      var k :| 0 <= k < |list| && list[k] == e;
      ValidIsPlain(isIP, entries[k]);
    }
    FieldsOfJoin(list);
    KeptAll(list);
  }

  /** End to end: a private proxy made from a request's entries permits a target if and
      only if the base list does or one requested entry, alone, does. */
  lemma EndToEnd(isIP: string -> bool, base: seq<string>, entries: seq<string>, list: seq<string>, hostport: string)
    requires |list| == |entries| && forall k | 0 <= k < |entries| :: ValidateEntry(isIP, entries[k]) == Ok(list[k])
    ensures Permitted(base + Kept(Fields(Join(list, ','))), hostport) <==>
              || Permitted(base, hostport)
              || exists raw :: raw in entries && Permitted([ValidateEntry(isIP, raw).value], hostport)
  {
    ParseJoin(isIP, entries, list);
    var (host, port) := Target(hostport);
    if e :| e in base + list && Admits(e, host, port) {
      if e !in base {
        var k :| 0 <= k < |list| && list[k] == e;
        assert entries[k] in entries && e in [ValidateEntry(isIP, entries[k]).value];
      }
    }
    if raw :| raw in entries && Permitted([ValidateEntry(isIP, raw).value], hostport) {
      var k :| 0 <= k < |entries| && entries[k] == raw;
      assert list[k] in base + list;
    }
  }

  // ----- Suffixes and labels -----

  function Labels(host: string): seq<string> {
    Split(host, '.')
  }

  predicate EndsWith(labels: seq<string>, tail: seq<string>) {
    |tail| <= |labels| && labels[|labels| - |tail|..] == tail
  }

  lemma SuffixEnds(host: string, bare: string)
    requires HasSuffix(host, "." + bare)
    ensures EndsWith(Labels(host), Labels(bare))
  {
    var pre := host[..|host| - |bare| - 1];
    assert host == pre + ['.'] + bare;
    SplitAppend(pre, bare, '.');
    Tail(Labels(pre), Labels(bare));
  }

  lemma Tail(a: seq<string>, b: seq<string>)
    ensures EndsWith(a + b, b)
  {
  }

  lemma EndsSuffix(host: string, bare: string)
    requires EndsWith(Labels(host), Labels(bare))
    ensures host == bare || HasSuffix(host, "." + bare)
  {
    var pre := Labels(host)[..|Labels(host)| - |Labels(bare)|];
    JoinSplit(host, '.');
    JoinSplit(bare, '.');
    assert Labels(host) == pre + Labels(bare);
    if pre == [] {
      assert Labels(host) == Labels(bare);
    } else {
      JoinAppend(pre, Labels(bare), '.');
      Ends(Join(pre, '.'), bare);
    }
  }

  lemma Ends(pre: string, bare: string)
    ensures HasSuffix(pre + ['.'] + bare, "." + bare)
  {
    assert pre + ['.'] + bare == pre + ("." + bare);
  }

  lemma SuffixIsLabels(host: string, bare: string)
    ensures host == bare || HasSuffix(host, "." + bare) <==> EndsWith(Labels(host), Labels(bare))
  {
    if HasSuffix(host, "." + bare) {
      SuffixEnds(host, bare);
    }
    if EndsWith(Labels(host), Labels(bare)) {
      EndsSuffix(host, bare);
    }
  }

  /** A port-free entry matches label by label, on the default ports only: the same
      labels, or for a leading dot any host whose labels end in the entry's. */
  lemma LabelMatching(entry: string, host: string, port: string)
    requires Parts(entry).1 == ""
    ensures var h := Parts(entry).0;
            Admits(entry, host, port) <==>
              && (port == "80" || port == "443")
              && if "." <= h then EndsWith(Labels(host), Labels(h[1..])) else Labels(host) == Labels(h)
  {
    var h := Parts(entry).0;
    if "." <= h {
      assert h == "." + h[1..];
      SuffixIsLabels(host, h[1..]);
    } else {
      JoinSplit(host, '.');
      JoinSplit(h, '.');
    }
  }

  // ----- Hosts and ports -----

  predicate Clean(s: string) {
    '[' !in s && ']' !in s
  }

  lemma SplitJoined(host: string, port: string)
    requires Clean(host) && Clean(port) && ':' !in port
    ensures SplitHostPort(JoinHostPort(host, port)) == Some((host, port))
  {
    if ':' in host {
      SplitBracketed(host, port);
    } else {
      SplitPlain(host, port);
    }
  }

  lemma SplitBracketed(host: string, port: string)
    requires Clean(host) && Clean(port) && ':' !in port
    ensures SplitHostPort("[" + host + "]:" + port) == Some((host, port))
  {
    var s := "[" + host + "]:" + port;
    LastColon(s, host, port);
    FirstBracket(s, host, port);
    BracketedParts(s, host, port);
  }

  lemma BracketedParts(s: string, host: string, port: string)
    requires s == "[" + host + "]:" + port
    ensures s[0] == '[' && s[1..] == host + "]:" + port
    ensures s[1..|host| + 1] == host && s[|host| + 3..] == port
  {
  }

  lemma LastColon(s: string, host: string, port: string)
    requires s == "[" + host + "]:" + port && Clean(port) && ':' !in port
    ensures ':' in s && LastIndexOf(s, ':') == |host| + 2 && ']' !in s[|host| + 2..]
  {
    assert s[|host| + 2] == ':' && s[|host| + 3..] == port;
    LastIndexOfUnique(s, ':', |host| + 2);
    assert s[|host| + 2..] == ":" + port;
  }

  lemma FirstBracket(s: string, host: string, port: string)
    requires s == "[" + host + "]:" + port && Clean(host)
    ensures ']' in s && IndexOf(s, ']') == |host| + 1
  {
    assert s[..|host| + 1] == "[" + host && s[|host| + 1] == ']';
    IndexOfUnique(s, ']', |host| + 1);
  }

  lemma SplitPlain(host: string, port: string)
    requires Clean(host) && Clean(port) && ':' !in port && ':' !in host
    ensures SplitHostPort(host + ":" + port) == Some((host, port))
  {
    var s := host + ":" + port;
    assert s[|host|] == ':' && s[|host| + 1..] == port && s[..|host|] == host;
    LastIndexOfUnique(s, ':', |host|);
    assert s[0] == if host == "" then ':' else host[0];
  }

  /** Whatever splits, splits into a host and a port without brackets, and a port without
      a colon. */
  lemma SplitIsClean(s: string)
    requires SplitHostPort(s).Some?
    ensures var (host, port) := SplitHostPort(s).value; Clean(host) && Clean(port) && ':' !in port
  {
    var i := LastIndexOf(s, ':');
    var (host, port) := SplitHostPort(s).value;
    assert forall c | c in port :: c in s && c in s[i..];
    if s[0] == '[' {
      assert forall c | c in host :: c in s[1..];
      assert forall c | c in port :: c in s[1..];
      assert ']' !in s[..IndexOf(s, ']')];
      assert forall c | c in host :: c in s[..i - 1];
    } else {
      assert forall c | c in host :: c in s;
    }
  }
}
