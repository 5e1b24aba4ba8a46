/** The egress allowlist: its grammar, its matcher, and the entry a denial suggests.

    Whether a string is an IP address is asked of `isIP`, which may be any predicate. */
module Allowlist {
  import opened Prelude
  import opened Text

  // ----- Hosts and ports -----

  /** net.SplitHostPort; `None` stands for its errors. */
  function SplitHostPort(s: string): Option<(string, string)> {
    if ':' !in s then None
    else
      var i := LastIndexOf(s, ':');
      if s[0] == '[' then
        if ']' !in s || IndexOf(s, ']') + 1 != i then None
        else if '[' in s[1..] || ']' in s[i..] then None
        else Some((s[1..i - 1], s[i + 1..]))
      else if ':' in s[..i] || '[' in s || ']' in s then None
      else Some((s[..i], s[i + 1..]))
  }

  /** net.JoinHostPort */
  function JoinHostPort(host: string, port: string): string {
    if ':' in host then "[" + host + "]:" + port else host + ":" + port
  }

  /** The host a request names, and its port, 443 unless it says otherwise. */
  function Target(hostport: string): (string, string) {
    var hp := SplitHostPort(hostport);
    var (host, port) := if hp.Some? then hp.value else (hostport, "443");
    (Lower(DropLastDot(host)), port)
  }

  /** An entry's host, and its port if it has one. */
  function Parts(entry: string): (string, string) {
    var hp := SplitHostPort(entry);
    if hp.Some? then hp.value else (entry, "")
  }

  predicate DefaultPort(port: string) {
    port == "80" || port == "443"
  }

  /** One turn of the matcher's loop. */
  predicate Admits(entry: string, host: string, port: string) {
    var (entryHost, entryPort) := Parts(entry);
    if entryPort != "" then entryPort == port && host == entryHost
    else
      DefaultPort(port)
      && if "." <= entryHost then host == DropFirstDot(entryHost) || HasSuffix(host, entryHost) else host == entryHost
  }

  predicate Permitted(list: seq<string>, hostport: string) {
    exists entry | entry in list :: Admits(entry, Target(hostport).0, Target(hostport).1)
  }

  method Permits(list: seq<string>, hostport: string) returns (ok: bool)
    ensures ok <==> Permitted(list, hostport)
  {
    var (host, port) := Target(hostport);
    for i := 0 to |list|
      invariant forall k | 0 <= k < i :: !Admits(list[k], host, port)
    {
      assert list[i] in list;
      var (entryHost, entryPort) := Parts(list[i]);
      if entryPort != "" {
        if entryPort == port && host == entryHost {
          return true;
        }
        continue;
      }
      if port != "80" && port != "443" {
        continue;
      }
      if "." <= entryHost {
        var bare := DropFirstDot(entryHost);
        if host == bare || HasSuffix(host, entryHost) {
          return true;
        }
        continue;
      }
      if host == entryHost {
        return true;
      }
    }
    return false;
  }

  // ----- Parsing a list -----

  predicate Separator(c: char) {
    c == ',' || c == ' ' || c == '\n'
  }

  /** strings.FieldsFunc: the maximal runs without a separator. */
  function Fields(raw: string): (fs: seq<string>)
    ensures forall f | f in fs :: f != "" && forall c | c in f :: !Separator(c)
    decreases |raw|
  {
    if raw == "" then []
    else if Separator(raw[0]) then Fields(raw[1..])
    else
      var n := FieldEnd(raw);
      [raw[..n]] + Fields(raw[n..])
  }

  function FieldEnd(raw: string): (n: nat)
    ensures n <= |raw| && (forall c | c in raw[..n] :: !Separator(c)) && (n < |raw| ==> Separator(raw[n]))
    ensures raw != "" && !Separator(raw[0]) ==> n > 0
  {
    if raw == "" || Separator(raw[0]) then 0 else
      var n := 1 + FieldEnd(raw[1..]);
      assert raw[..n] == [raw[0]] + raw[1..][..n - 1];
      n
  }

  function Normal(raw: string): string {
    Lower(TrimSpace(raw))
  }

  function Kept(fields: seq<string>): seq<string> {
    if fields == [] then []
    else
      var entry := Normal(fields[0]);
      if entry != "" then [entry] + Kept(fields[1..]) else Kept(fields[1..])
  }

  method ParseAllowlist(raw: string) returns (list: seq<string>)
    ensures list == Kept(Fields(raw))
  {
    list := [];
    var fields := Fields(raw);
    for i := 0 to |fields|
      invariant list + Kept(fields[i..]) == Kept(fields)
    {
      assert fields[i..][0] == fields[i] && fields[i..][1..] == fields[i + 1..];
      var entry := Normal(fields[i]);
      if entry != "" {
        assert list + ([entry] + Kept(fields[i + 1..])) == list + [entry] + Kept(fields[i + 1..]);
        list := list + [entry];
      }
    }
  }

  // ----- Validating an entry -----

  datatype Complaint = Empty | NotBare | Wildcard | NotOneHost | BadHostPort | BadPort | NoHost | WholeTLD | BadLabel

  predicate IsDigit(c: char) {
    '0' <= c <= '9'
  }

  predicate AllDigits(s: string) {
    s != "" && forall c | c in s :: IsDigit(c)
  }

  function Number(s: string): nat
    requires forall c | c in s :: IsDigit(c)
  {
    if s == "" then 0 else
      assert IsDigit(s[|s| - 1]);
      var d: int := s[|s| - 1] as int - '0' as int;
      10 * Number(s[..|s| - 1]) + d
  }

  /** strconv.Atoi: an optional sign, then digits. */
  function Atoi(s: string): Option<int> {
    var signed := s != "" && (s[0] == '+' || s[0] == '-');
    var digits := if signed then s[1..] else s;
    if !AllDigits(digits) then None
    else
      var n: int := Number(digits);
      Some(if signed && s[0] == '-' then -n else n)
  }

  predicate GoodPort(port: string) {
    Atoi(port).Some? && 1 <= Atoi(port).value <= 65535
  }

  predicate LabelChar(c: char) {
    'a' <= c <= 'z' || IsDigit(c) || c == '-' || c == '_'
  }

  predicate GoodLabel(l: string) {
    l != "" && |l| <= 63 && l[0] != '-' && l[|l| - 1] != '-' && forall c | c in l :: LabelChar(c)
  }

  predicate GoodLabels(host: string) {
    forall l | l in Split(host, '.') :: GoodLabel(l)
  }

  /** The grammar of one entry, on its normal form. */
  function Check(isIP: string -> bool, entry: string): Option<Complaint> {
    if entry == "" then Some(Empty)
    else if '/' in entry then Some(NotBare)
    else if '*' in entry then Some(Wildcard)
    else if exists c | c in " \t\n,@?#" :: c in entry then Some(NotOneHost)
    else if SplitHostPort(entry).None? && ':' in entry then Some(BadHostPort)
    else
      var (host, port) := Parts(entry);
      var bare := DropFirstDot(host);
      if port != "" && !GoodPort(port) then Some(BadPort)
      else if bare == "" then Some(NoHost)
      else if !("." <= host) && isIP(bare) then None
      else if "." <= host && '.' !in bare then Some(WholeTLD)
      else if !GoodLabels(bare) then Some(BadLabel)
      else None
  }

  function ValidateEntry(isIP: string -> bool, raw: string): Result<string, Complaint> {
    var entry := Normal(raw);
    var c := Check(isIP, entry);
    if c.Some? then Err(c.value) else Ok(entry)
  }

  /** The first entry refused, if any, decides. */
  method ValidateAllowlist(isIP: string -> bool, entries: seq<string>) returns (r: Result<seq<string>, Complaint>)
    ensures r.Ok? <==> forall raw | raw in entries :: ValidateEntry(isIP, raw).Ok?
    ensures r.Ok? ==> |r.value| == |entries| && forall k | 0 <= k < |entries| ::
            ValidateEntry(isIP, entries[k]) == Ok(r.value[k])
    ensures r.Err? ==> exists k :: 0 <= k < |entries| && ValidateEntry(isIP, entries[k]) == Err(r.error)
                                   && forall j | 0 <= j < k :: ValidateEntry(isIP, entries[j]).Ok?
  {
    var list := [];
    for i := 0 to |entries|
      invariant |list| == i
      invariant forall k | 0 <= k < i :: ValidateEntry(isIP, entries[k]) == Ok(list[k])
    {
      var v := ValidateEntry(isIP, entries[i]);
      if v.Err? {
        return Err(v.error);
      }
      list := list + [v.value];
    }
    return Ok(list);
  }

  // ----- The suggested remedy -----

  function SuggestEntry(hostport: string): string {
    var hp := SplitHostPort(hostport);
    if hp.None? then Lower(DropLastDot(hostport))
    else
      var host := Lower(DropLastDot(hp.value.0));
      if DefaultPort(hp.value.1) then host else JoinHostPort(host, hp.value.1)
  }
}
