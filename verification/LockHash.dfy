/** The lockfile hash of a volume: which directory holds the clone, and the text whose
    digest is published. */
module LockHash {
  import opened Prelude
  import opened WarmTree
  import opened Text

  /** The invalidation set, in hashing order. */
  const LOCKFILES: seq<string> := [
    "Cargo.lock", "Gemfile.lock", "Pipfile.lock", "composer.lock",
    "flake.lock", "go.mod", "mix.lock", "npm-shrinkwrap.json",
    "package-lock.json", "pnpm-lock.yaml", "poetry.lock", "yarn.lock"
  ]

  /** hex(SHA-256(.)) writes 64 characters. */
  ghost predicate IsDigest(sha: string -> string) {
    forall x: string :: |sha(x)| == 64
  }

  /** The digest tells these texts apart. */
  ghost predicate NoCollision(sha: string -> string, texts: set<string>) {
    forall x, y | x in texts && y in texts && sha(x) == sha(y) :: x == y
  }

  /** os.Stat on a path below the volume; a link resolves to nothing here. */
  predicate Exists(t: Tree, p: Rel) {
    p in t && !t[p].Link?
  }

  predicate HasLockfile(t: Tree, dir: Rel) {
    exists i | 0 <= i < |LOCKFILES| :: Exists(t, dir + [LOCKFILES[i]])
  }

  /** `^[a-z0-9._-]+$` */
  predicate PlainName(name: string) {
    name != "" && forall c | c in name :: 'a' <= c <= 'z' || '0' <= c <= '9' || c in "._-"
  }

  function Candidates(t: Tree): set<string> {
    set p | p in t && |p| == 1 && t[p].Dir? && PlainName(p[0]) && HasLockfile(t, p) :: p[0]
  }

  lemma OnlyOne(names: set<string>)
    requires |names| == 1
    ensures exists n :: n in names && forall m | m in names :: m == n
  {
    var n :| n in names;
    assert |names - {n}| == 0;
    assert names == {n};
  }

  /** Where the clone lives: the volume root when it holds a lockfile, else its only
      subdirectory that does, else the root. */
  function DetectRepoDir(t: Tree): (string, Rel) {
    if HasLockfile(t, []) then (".", [])
    else
      var names := Candidates(t);
      if |names| == 1 then
        OnlyOne(names);
        var name :| name in names; (name, [name])
      else (".", [])
  }

  /** A directory one level down that looks like the clone. */
  predicate LooksCloned(t: Tree, name: string) {
    [name] in t && t[[name]].Dir? && PlainName(name) && HasLockfile(t, [name])
  }

  lemma CandidatesAre(t: Tree, name: string)
    ensures name in Candidates(t) <==> LooksCloned(t, name)
  {
    if name in Candidates(t) {
      var p :| p in t && |p| == 1 && t[p].Dir? && PlainName(p[0]) && HasLockfile(t, p) && p[0] == name;
      assert p == [name];
    }
    if LooksCloned(t, name) {
      assert [name][0] == name;
    }
  }

  /** The clone lies one level down exactly when the root holds no lockfile and one
      directory, and only one, looks like it. */
  lemma RepoDirIff(t: Tree, name: string)
    requires name != "."
    ensures DetectRepoDir(t) == (name, [name]) <==>
              !HasLockfile(t, []) && LooksCloned(t, name) && forall other | LooksCloned(t, other) :: other == name
  {
    forall other ensures other in Candidates(t) <==> LooksCloned(t, other) {
      CandidatesAre(t, other);
    }
    var names := Candidates(t);
    if |names| == 1 {
      OnlyOne(names);
    }
    if name in names && forall other | other in names :: other == name {
      assert names == {name};
    }
  }

  /** os.ReadFile of a lockfile: missing, unreadable (a directory), or its content. */
  datatype Reading = Missing | Unreadable | Content(text: string)

  function Read(t: Tree, p: Rel): Reading {
    if !Exists(t, p) then Missing
    else if t[p].Dir? then Unreadable
    else Content(t[p].content)
  }

  /** What the volume holds at each lockfile's place, in hashing order. */
  function Readings(t: Tree): (rs: seq<Reading>)
    ensures |rs| == |LOCKFILES|
  {
    var root := DetectRepoDir(t).1;
    seq(|LOCKFILES|, i requires 0 <= i < |LOCKFILES| => Read(t, root + [LOCKFILES[i]]))
  }

  predicate Readable(rs: seq<Reading>) {
    forall r | r in rs :: !r.Unreadable?
  }

  function Line(sha: string -> string, name: string, r: Reading): string {
    match r
    case Content(text) => name + " " + sha(text) + "\n"
    case _ => ""
  }

  /** One line for each lockfile present, in order. */
  function Lines(sha: string -> string, names: seq<string>, rs: seq<Reading>): string
    requires |names| == |rs|
  {
    if names == [] then "" else Line(sha, names[0], rs[0]) + Lines(sha, names[1..], rs[1..])
  }

  /** The text that is digested. */
  function Preimage(sha: string -> string, t: Tree): string {
    "dir " + DetectRepoDir(t).0 + "\n" + Lines(sha, LOCKFILES, Readings(t))
  }

  /** LockHash: the digest, and the clone's directory. */
  function Hash(sha: string -> string, t: Tree): Result<(string, string), ()> {
    if Readable(Readings(t)) then Ok((sha(Preimage(sha, t)), DetectRepoDir(t).0)) else Err(())
  }

  lemma LinesFrom(sha: string -> string, names: seq<string>, rs: seq<Reading>, i: nat)
    requires i < |names| == |rs|
    ensures Lines(sha, names[i..], rs[i..]) == Line(sha, names[i], rs[i]) + Lines(sha, names[i + 1..], rs[i + 1..])
  {
    assert names[i..][1..] == names[i + 1..] && rs[i..][1..] == rs[i + 1..];
  }

  /** The loop of LockHash over any list of names, writing line after line into `text`. */
  method WriteLines(sha: string -> string, names: seq<string>, t: Tree, root: Rel, head: string)
    returns (r: Result<string, ()>)
    ensures var rs := seq(|names|, i requires 0 <= i < |names| => Read(t, root + [names[i]]));
            r == if Readable(rs) then Ok(head + Lines(sha, names, rs)) else Err(())
  {
    ghost var rs := seq(|names|, i requires 0 <= i < |names| => Read(t, root + [names[i]]));
    var text := head;
    var i := 0;
    while i < |names|
      invariant i <= |names|
      invariant Readable(rs[..i])
      invariant text + Lines(sha, names[i..], rs[i..]) == head + Lines(sha, names, rs)
    {
      var reading := Read(t, root + [names[i]]);
      assert reading == rs[i];
      NextLine(sha, names, rs, i, text);
      OneMoreReadable(rs, i);
      if reading.Unreadable? {
        return Err(());
      }
      if reading.Content? {
        text := text + (names[i] + " " + sha(reading.text) + "\n");
      }
      i := i + 1;
    }
    assert rs[..i] == rs && names[i..] == [] && text + "" == text;
    return Ok(text);
  }

  lemma OneMoreReadable(rs: seq<Reading>, i: nat)
    requires i < |rs| && Readable(rs[..i])
    ensures rs[i].Unreadable? ==> !Readable(rs)
    ensures !rs[i].Unreadable? ==> Readable(rs[..i + 1])
  {
    assert rs[..i + 1] == rs[..i] + [rs[i]];
  }

  /** Writing the line of the i-th name leaves the lines of the rest to write. */
  lemma NextLine(sha: string -> string, names: seq<string>, rs: seq<Reading>, i: nat, text: string)
    requires i < |names| == |rs|
    ensures text + Line(sha, names[i], rs[i]) + Lines(sha, names[i + 1..], rs[i + 1..]) ==
            text + Lines(sha, names[i..], rs[i..])
    ensures !rs[i].Content? ==> Lines(sha, names[i + 1..], rs[i + 1..]) == Lines(sha, names[i..], rs[i..])
  {
    LinesFrom(sha, names, rs, i);
    Append(text, Line(sha, names[i], rs[i]), Lines(sha, names[i + 1..], rs[i + 1..]));
    assert !rs[i].Content? ==> Line(sha, names[i], rs[i]) == "";
  }

  lemma Append(a: string, b: string, c: string)
    ensures a + b + c == a + (b + c)
  {
  }

  method ComputeHash(sha: string -> string, t: Tree) returns (r: Result<(string, string), ()>)
    ensures r == Hash(sha, t)
  {
    var (repoDir, root) := DetectRepoDir(t);
    var text := WriteLines(sha, LOCKFILES, t, root, "dir " + repoDir + "\n");
    r := if text.Ok? then Ok((sha(text.value), repoDir)) else Err(());
  }

  function Contents(rs: seq<Reading>): set<string> {
    set r | r in rs && r.Content? :: r.text
  }

  /** Every text digested while hashing a volume. */
  function Digested(sha: string -> string, t: Tree): set<string> {
    {Preimage(sha, t)} + Contents(Readings(t))
  }

  /** Two volumes look the same to the hash. */
  ghost predicate SameLocks(a: Tree, b: Tree) {
    DetectRepoDir(a).0 == DetectRepoDir(b).0 && Readings(a) == Readings(b)
  }

  /** Distinct names without spaces or line breaks. */
  ghost predicate GoodNames(names: seq<string>) {
    && (forall n | n in names :: ' ' !in n)
    && (forall i, j | 0 <= i < j < |names| :: names[i] != names[j])
  }

  /** A number that grows along LOCKFILES: first character, then shorter names. */
  function Code(name: string): int
    requires name != ""
  {
    name[0] as int * 100 - |name|
  }

  lemma {:induction false} Increasing(i: nat, j: nat)
    requires i < j < |LOCKFILES|
    ensures Code(LOCKFILES[i]) < Code(LOCKFILES[j])
    decreases j
  {
    if i < j - 1 {
      Increasing(i, j - 1);
    }
  }

  lemma NoSpaces(i: nat)
    requires i < |LOCKFILES|
    ensures ' ' !in LOCKFILES[i]
  {
  }

  lemma LockfilesGood()
    ensures GoodNames(LOCKFILES)
  {
    forall n | n in LOCKFILES ensures ' ' !in n {
      var i :| 0 <= i < |LOCKFILES| && LOCKFILES[i] == n;
      NoSpaces(i);
    }
    forall i, j | 0 <= i < j < |LOCKFILES| ensures LOCKFILES[i] != LOCKFILES[j] {
      Increasing(i, j);
    }
  }

  function FirstWord(s: string): string
    requires ' ' in s
  {
    s[..IndexOf(s, ' ')]
  }

  lemma FirstWordOf(name: string, rest: string)
    requires ' ' !in name
    ensures ' ' in name + " " + rest && FirstWord(name + " " + rest) == name
  {
    var s := name + " " + rest;
    assert s[..|name|] == name;
    IndexOfUnique(s, ' ', |name|);
  }

  /** A non-empty run of lines opens with one of its names. */
  lemma {:induction false} OpensWithName(sha: string -> string, names: seq<string>, rs: seq<Reading>)
    requires GoodNames(names) && |names| == |rs| && Lines(sha, names, rs) != ""
    ensures ' ' in Lines(sha, names, rs) && FirstWord(Lines(sha, names, rs)) in names
  {
    if rs[0].Content? {
      var rest := sha(rs[0].text) + "\n" + Lines(sha, names[1..], rs[1..]);
      assert Lines(sha, names, rs) == names[0] + " " + rest;
      FirstWordOf(names[0], rest);
    } else {
      EmptyLine(sha, names, rs);
      OpensWithName(sha, names[1..], rs[1..]);
    }
  }

  /** Absence and presence of a lockfile never give the same text. */
  lemma AbsentDiffers(sha: string -> string, names: seq<string>, absent: seq<Reading>, present: seq<Reading>)
    requires GoodNames(names) && |names| == |absent| == |present| > 0
    requires absent[0].Missing? && present[0].Content?
    ensures Lines(sha, names, absent) != Lines(sha, names, present)
  {
    var rest := sha(present[0].text) + "\n" + Lines(sha, names[1..], present[1..]);
    assert Lines(sha, names, present) == names[0] + " " + rest;
    FirstWordOf(names[0], rest);
    EmptyLine(sha, names, absent);
    if Lines(sha, names[1..], absent[1..]) != "" {
      OpensWithName(sha, names[1..], absent[1..]);
    }
  }

  lemma {:induction false} LinesInjective(sha: string -> string, names: seq<string>, a: seq<Reading>, b: seq<Reading>)
    requires IsDigest(sha) && NoCollision(sha, Contents(a) + Contents(b))
    requires GoodNames(names) && |names| == |a| == |b| && Readable(a) && Readable(b)
    requires Lines(sha, names, a) == Lines(sha, names, b)
    ensures a == b
  {
    if names != [] {
      assert a[0] in a && b[0] in b;
      FirstLineInjective(sha, names, a, b);
      assert Contents(a[1..]) <= Contents(a) && Contents(b[1..]) <= Contents(b);
      LinesInjective(sha, names[1..], a[1..], b[1..]);
      assert a == [a[0]] + a[1..] && b == [b[0]] + b[1..];
    }
  }

  lemma FirstLineInjective(sha: string -> string, names: seq<string>, a: seq<Reading>, b: seq<Reading>)
    requires IsDigest(sha) && GoodNames(names) && |names| == |a| == |b| > 0
    requires a[0].Content? && b[0].Content? && sha(a[0].text) == sha(b[0].text) ==> a[0] == b[0]
    requires !a[0].Unreadable? && !b[0].Unreadable?
    requires Lines(sha, names, a) == Lines(sha, names, b)
    ensures a[0] == b[0] && Lines(sha, names[1..], a[1..]) == Lines(sha, names[1..], b[1..])
  {
    if a[0].Missing? && b[0].Content? {
      AbsentDiffers(sha, names, a, b);
    } else if a[0].Content? && b[0].Missing? {
      AbsentDiffers(sha, names, b, a);
    } else if a[0].Content? {
      ContentInjective(sha, names, a, b);
    } else {
      EmptyLine(sha, names, a);
      EmptyLine(sha, names, b);
    }
  }

  lemma ContentInjective(sha: string -> string, names: seq<string>, a: seq<Reading>, b: seq<Reading>)
    requires IsDigest(sha) && |names| == |a| == |b| > 0 && a[0].Content? && b[0].Content?
    requires sha(a[0].text) == sha(b[0].text) ==> a[0] == b[0]
    requires Lines(sha, names, a) == Lines(sha, names, b)
    ensures a[0] == b[0] && Lines(sha, names[1..], a[1..]) == Lines(sha, names[1..], b[1..])
  {
    ContentLine(sha, names, a);
    ContentLine(sha, names, b);
    SameWidthSplit(names[0] + " ", sha(a[0].text), "\n", Lines(sha, names[1..], a[1..]),
                   sha(b[0].text), Lines(sha, names[1..], b[1..]));
  }

  lemma EmptyLine(sha: string -> string, names: seq<string>, rs: seq<Reading>)
    requires |names| == |rs| > 0 && !rs[0].Content?
    ensures Lines(sha, names, rs) == Lines(sha, names[1..], rs[1..])
  {
  }

  lemma ContentLine(sha: string -> string, names: seq<string>, rs: seq<Reading>)
    requires |names| == |rs| > 0 && rs[0].Content?
    ensures Lines(sha, names, rs) == (names[0] + " ") + sha(rs[0].text) + "\n" + Lines(sha, names[1..], rs[1..])
  {
  }

  lemma SameWidthSplit(head: string, x: string, mid: string, r: string, x': string, r': string)
    requires |x| == |x'| && head + x + mid + r == head + x' + mid + r'
    ensures x == x' && r == r'
  {
    var s := head + x + mid + r;
    assert x == s[|head|..|head| + |x|] == x';
    assert r == s[|head| + |x| + |mid|..] == r';
  }

  lemma RepoDirIsOneLine(t: Tree)
    ensures '\n' !in DetectRepoDir(t).0
  {
  }

  /** Hash equality means: same clone directory, same lockfiles present, same contents,
      unless the digest collides on two of the very texts it was given. */
  lemma HashInjective(sha: string -> string, a: Tree, b: Tree)
    requires IsDigest(sha) && NoCollision(sha, Digested(sha, a) + Digested(sha, b))
    requires Hash(sha, a).Ok? && Hash(sha, b).Ok?
    ensures Hash(sha, a).value.0 == Hash(sha, b).value.0 <==> SameLocks(a, b)
  {
    if Preimage(sha, a) == Preimage(sha, b) {
      PreimageInjective(sha, a, b);
    }
  }

  lemma PreimageInjective(sha: string -> string, a: Tree, b: Tree)
    requires IsDigest(sha) && NoCollision(sha, Contents(Readings(a)) + Contents(Readings(b)))
    requires Readable(Readings(a)) && Readable(Readings(b))
    requires Preimage(sha, a) == Preimage(sha, b)
    ensures SameLocks(a, b)
  {
    var da, db := DetectRepoDir(a).0, DetectRepoDir(b).0;
    RepoDirIsOneLine(a);
    RepoDirIsOneLine(b);
    HeadsAgree("dir " + da, Lines(sha, LOCKFILES, Readings(a)), "dir " + db, Lines(sha, LOCKFILES, Readings(b)));
    assert da == ("dir " + da)[4..] == ("dir " + db)[4..] == db;
    LockfilesGood();
    LinesInjective(sha, LOCKFILES, Readings(a), Readings(b));
  }

  lemma HeadsAgree(h: string, r: string, h': string, r': string)
    requires '\n' !in h && '\n' !in h' && h + "\n" + r == h' + "\n" + r'
    ensures h == h' && r == r'
  {
    var s := h + "\n" + r;
    assert s[..|h|] == h && s[..|h'|] == h';
    IndexOfUnique(s, '\n', |h|);
    IndexOfUnique(s, '\n', |h'|);
    assert s[|h| + 1..] == r;
  }

  // ----- The names written out -----

  predicate IsLockfile(name: string) {
    name in [
      "Cargo.lock", "Gemfile.lock", "Pipfile.lock", "composer.lock", "flake.lock", "go.mod", "mix.lock",
      "npm-shrinkwrap.json", "package-lock.json", "pnpm-lock.yaml", "poetry.lock", "yarn.lock"
    ]
  }

  lemma LockfilesAre(name: string)
    ensures name in LOCKFILES <==> IsLockfile(name)
  {
  }

  /** What a volume shows of one lockfile: its content, nothing, or something unreadable. */
  ghost predicate Shows(t: Tree, dir: Rel, name: string, r: Reading) {
    var p := dir + [name];
    match r
    case Missing => p !in t || t[p].Link?
    case Unreadable => p in t && t[p] == Dir
    case Content(text) => p in t && t[p] == File(text)
  }

  lemma ReadShows(t: Tree, dir: Rel, name: string, r: Reading)
    ensures Read(t, dir + [name]) == r <==> Shows(t, dir, name, r)
  {
  }

  lemma ReadingsAre(t: Tree, i: nat)
    requires i < |LOCKFILES|
    ensures Shows(t, DetectRepoDir(t).1, LOCKFILES[i], Readings(t)[i])
  {
    ReadShows(t, DetectRepoDir(t).1, LOCKFILES[i], Readings(t)[i]);
  }

  /** A directory counts as holding the clone when one of the twelve is in it and is no
      link. */
  lemma HasLockfileIff(t: Tree, dir: Rel)
    ensures HasLockfile(t, dir) <==> exists name :: IsLockfile(name) && dir + [name] in t && !t[dir + [name]].Link?
  {
    if HasLockfile(t, dir) {
      var i :| 0 <= i < |LOCKFILES| && Exists(t, dir + [LOCKFILES[i]]);
      LockfilesAre(LOCKFILES[i]);
    }
    if name :| IsLockfile(name) && dir + [name] in t && !t[dir + [name]].Link? {
      LockfilesAre(name);
      var i :| 0 <= i < |LOCKFILES| && LOCKFILES[i] == name;
      assert Exists(t, dir + [LOCKFILES[i]]);
    }
  }

  /** Hashing fails exactly on a lockfile that is a directory. */
  lemma HashFailsIff(sha: string -> string, t: Tree)
    ensures Hash(sha, t).Err? <==> exists name :: IsLockfile(name) && Shows(t, DetectRepoDir(t).1, name, Unreadable)
  {
    var dir, rs := DetectRepoDir(t).1, Readings(t);
    if Hash(sha, t).Err? {
      var i :| 0 <= i < |rs| && rs[i].Unreadable?;
      ReadingsAre(t, i);
      LockfilesAre(LOCKFILES[i]);
    }
    if name :| IsLockfile(name) && Shows(t, dir, name, Unreadable) {
      LockfilesAre(name);
      var i :| 0 <= i < |LOCKFILES| && LOCKFILES[i] == name;
      ReadShows(t, dir, name, Unreadable);
      assert rs[i] in rs;
    }
  }

  /** Equal hashes, told without the list: the same directory, and every one of the twelve
      lockfiles absent from both or in both with the same content. */
  lemma HashEqualIff(sha: string -> string, a: Tree, b: Tree)
    requires IsDigest(sha) && NoCollision(sha, Digested(sha, a) + Digested(sha, b))
    requires Hash(sha, a).Ok? && Hash(sha, b).Ok?
    ensures Hash(sha, a).value.0 == Hash(sha, b).value.0 <==>
              && DetectRepoDir(a).0 == DetectRepoDir(b).0
              && forall name, r | IsLockfile(name) ::
                   Shows(a, DetectRepoDir(a).1, name, r) <==> Shows(b, DetectRepoDir(b).1, name, r)
  {
    HashInjective(sha, a, b);
    var p, q := DetectRepoDir(a).1, DetectRepoDir(b).1;
    if SameLocks(a, b) {
      forall name, r | IsLockfile(name) ensures Shows(a, p, name, r) <==> Shows(b, q, name, r) {
        SameAt(a, b, name, r);
      }
    }
    if forall name, r | IsLockfile(name) :: Shows(a, p, name, r) <==> Shows(b, q, name, r) {
      forall i | 0 <= i < |LOCKFILES| ensures Readings(a)[i] == Readings(b)[i] {
        LockfilesAre(LOCKFILES[i]);
        ReadingsAre(a, i);
        ReadShows(b, q, LOCKFILES[i], Readings(a)[i]);
      }
    }
  }

  lemma SameAt(a: Tree, b: Tree, name: string, r: Reading)
    requires SameLocks(a, b) && IsLockfile(name)
    ensures Shows(a, DetectRepoDir(a).1, name, r) <==> Shows(b, DetectRepoDir(b).1, name, r)
  {
    LockfilesAre(name);
    var i :| 0 <= i < |LOCKFILES| && LOCKFILES[i] == name;
    ReadShows(a, DetectRepoDir(a).1, name, r);
    ReadShows(b, DetectRepoDir(b).1, name, r);
    assert Readings(a)[i] == Readings(b)[i];
  }

  /** The line of one lockfile. */
  function Entry(sha: string -> string, t: Tree, dir: Rel, name: string): string {
    match Read(t, dir + [name])
    case Content(text) => name + " " + sha(text) + "\n"
    case _ => ""
  }

  lemma FourLines(sha: string -> string, names: seq<string>, t: Tree, dir: Rel, rs: seq<Reading>, i: nat)
    requires i + 4 <= |names| == |rs| && forall k | 0 <= k < |names| :: rs[k] == Read(t, dir + [names[k]])
    ensures Lines(sha, names[i..], rs[i..]) ==
            Entry(sha, t, dir, names[i]) + (Entry(sha, t, dir, names[i + 1]) + (Entry(sha, t, dir, names[i + 2])
            + (Entry(sha, t, dir, names[i + 3]) + Lines(sha, names[i + 4..], rs[i + 4..]))))
  {
    LinesFrom(sha, names, rs, i);
    LinesFrom(sha, names, rs, i + 1);
    LinesFrom(sha, names, rs, i + 2);
    LinesFrom(sha, names, rs, i + 3);
  }

  lemma TwelveLines(sha: string -> string, n: seq<string>, t: Tree, dir: Rel, rs: seq<Reading>)
    requires |n| == |rs| == 12 && forall k | 0 <= k < |n| :: rs[k] == Read(t, dir + [n[k]])
    ensures Lines(sha, n, rs) ==
            Entry(sha, t, dir, n[0]) + (Entry(sha, t, dir, n[1]) + (Entry(sha, t, dir, n[2])
            + (Entry(sha, t, dir, n[3]) + (Entry(sha, t, dir, n[4]) + (Entry(sha, t, dir, n[5])
            + (Entry(sha, t, dir, n[6]) + (Entry(sha, t, dir, n[7]) + (Entry(sha, t, dir, n[8])
            + (Entry(sha, t, dir, n[9]) + (Entry(sha, t, dir, n[10]) + (Entry(sha, t, dir, n[11]) + "")))))))))))
  {
    assert n[0..] == n && rs[0..] == rs && n[12..] == [] && rs[12..] == [];
    FourLines(sha, n, t, dir, rs, 0);
    FourLines(sha, n, t, dir, rs, 4);
    FourLines(sha, n, t, dir, rs, 8);
  }

  /** The text that is digested, line by line: the directory, then each lockfile present
      with the digest of its content, in alphabetical order. */
  lemma PreimageReads(sha: string -> string, t: Tree)
    ensures var (name, dir) := DetectRepoDir(t);
            Preimage(sha, t) ==
            "dir " + name + "\n"
            + (Entry(sha, t, dir, "Cargo.lock") + (Entry(sha, t, dir, "Gemfile.lock")
            + (Entry(sha, t, dir, "Pipfile.lock") + (Entry(sha, t, dir, "composer.lock")
            + (Entry(sha, t, dir, "flake.lock") + (Entry(sha, t, dir, "go.mod") + (Entry(sha, t, dir, "mix.lock")
            + (Entry(sha, t, dir, "npm-shrinkwrap.json") + (Entry(sha, t, dir, "package-lock.json")
            + (Entry(sha, t, dir, "pnpm-lock.yaml") + (Entry(sha, t, dir, "poetry.lock")
            + (Entry(sha, t, dir, "yarn.lock") + ""))))))))))))
  {
    TwelveLines(sha, LOCKFILES, t, DetectRepoDir(t).1, Readings(t));
  }

  // ----- Where the clone is, written out -----

  /** A name of small letters, digits, dots, underscores and dashes. */
  lemma PlainNameIff(name: string)
    ensures PlainName(name) <==>
              name != "" && forall c | c in name ::
                c in "abcdefghijklmnopqrstuvwxyz" || c in "0123456789" || c == '.' || c == '_' || c == '-'
  {
    forall c | c in name
      ensures 'a' <= c <= 'z' || '0' <= c <= '9' || c in "._-" <==>
              c in "abcdefghijklmnopqrstuvwxyz" || c in "0123456789" || c == '.' || c == '_' || c == '-'
    {
      SmallLetters(c);
      DecimalDigits(c);
    }
  }

  /** Failing a single clone one level down, the root stands for it. */
  lemma ElseRoot(t: Tree)
    ensures (forall name :: DetectRepoDir(t) != (name, [name])) ==> DetectRepoDir(t) == (".", [])
  {
  }
}
