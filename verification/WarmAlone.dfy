/** Commits and cleaners that nobody interrupts: the machine does what the store's methods
    do. */
module WarmAlone {
  import opened Prelude
  import opened Text
  import opened WarmTree
  import opened WarmCache
  import opened WarmSafety
  import opened WarmTheorems
  import opened WarmPartial
  import opened WarmPublication
  import opened WarmRaces
  import CacheStore
  import LockHash

  // ----- A cleaner -----

  /** A pass in the middle of its listing. */
  ghost predicate Passing(v: World, k: nat, before: map<string, Tree>, current: string, todo: set<string>) {
    && k in v.cleaners && v.cleaners[k] == Scan(current, todo)
    && CacheStore.Cleaning(before, v.dirs, todo, current, v.inUse)
  }

  /** Nothing but the directory and this cleaner has moved. */
  ghost predicate OnlyCleans(v: World, w: World, k: nat) {
    w == v.(dirs := w.dirs, cleaners := w.cleaners) && w.cleaners - {k} == v.cleaners - {k}
  }

  lemma Skips(w0: World, es0: seq<Event>, v: World, k: nat, before: map<string, Tree>, current: string,
      todo: set<string>, name: string) returns (es: seq<Event>, w: World)
    requires v == Run(w0, es0) && Passing(v, k, before, current, todo) && name in todo
    requires CacheStore.Spared(name, current, v.inUse)
    ensures w == Run(w0, es) && OnlyCleans(v, w, k) && Passing(w, k, before, current, todo - {name})
  {
    es, w := CleanOn(w0, es0, v, k, name);
    assert w.dirs == v.dirs;
    assert w.cleaners - {k} == v.cleaners - {k};
  }

  lemma Deletes(w0: World, es0: seq<Event>, v: World, k: nat, before: map<string, Tree>, current: string,
      todo: set<string>, name: string) returns (es: seq<Event>, w: World)
    requires v == Run(w0, es0) && Passing(v, k, before, current, todo) && name in todo && !IsGen(name)
    ensures w == Run(w0, es) && OnlyCleans(v, w, k) && Passing(w, k, before, current, todo - {name})
  {
    es, w := CleanOn(w0, es0, v, k, name);
    es, w := CleanOn(w0, es, w, k, "");
    assert IsTrash(name);
    CacheStore.OneGone(before, v.dirs, todo, current, v.inUse, name);
    assert w.cleaners - {k} == v.cleaners - {k};
  }

  lemma Renames(w0: World, es0: seq<Event>, v: World, k: nat, before: map<string, Tree>, current: string,
      todo: set<string>, name: string) returns (es: seq<Event>, w: World)
    requires v == Run(w0, es0) && Passing(v, k, before, current, todo) && name in todo && IsGen(name)
    requires !CacheStore.Spared(name, current, v.inUse) && CanRename(v.dirs, name)
    ensures w == Run(w0, es) && OnlyCleans(v, w, k) && Passing(w, k, before, current, todo - {name})
  {
    es, w := CleanOn(w0, es0, v, k, name);
    es, w := RenamesAway(w0, es, w, k, current, todo - {name}, name);
    CacheStore.OneGone(before, v.dirs, todo, current, v.inUse, name);
    SameOthers(v.cleaners, w.cleaners, k);
  }

  lemma Blocked(w0: World, es0: seq<Event>, v: World, k: nat, before: map<string, Tree>, current: string,
      todo: set<string>, name: string) returns (es: seq<Event>, w: World)
    requires v == Run(w0, es0) && Passing(v, k, before, current, todo) && name in todo && IsGen(name)
    requires !CacheStore.Spared(name, current, v.inUse) && !CanRename(v.dirs, name)
    ensures w == Run(w0, es) && OnlyCleans(v, w, k) && Passing(w, k, before, current, todo - {name})
  {
    es, w := CleanOn(w0, es0, v, k, name);
    es, w := CleanOn(w0, es, w, k, "");
    SameOthers(v.cleaners, w.cleaners, k);
  }

  lemma SameOthers(a: map<nat, CleanPc>, b: map<nat, CleanPc>, k: nat)
    requires k in a && k in b && b == a[k := b[k]]
    ensures b - {k} == a - {k}
  {
  }

  lemma RenamesAway(w0: World, es0: seq<Event>, v: World, k: nat, current: string, rest: set<string>, name: string)
      returns (es: seq<Event>, w: World)
    requires v == Run(w0, es0) && k in v.cleaners && v.cleaners[k] == RenameGen(current, rest, name)
    requires CanRename(v.dirs, name)
    ensures w == Run(w0, es)
    ensures w == v.(dirs := v.dirs - {name} - {Trash(name)}, cleaners := v.cleaners[k := Scan(current, rest)])
  {
    es, w := CleanOn(w0, es0, v, k, "");
    es, w := CleanOn(w0, es, w, k, "");
    assert w.dirs == v.dirs - {name} - {Trash(name)};
    assert w.cleaners == v.cleaners[k := Scan(current, rest)];
  }

  lemma OneEntryOn(w0: World, es0: seq<Event>, v: World, k: nat, before: map<string, Tree>, current: string,
      todo: set<string>, name: string) returns (es: seq<Event>, w: World)
    requires v == Run(w0, es0) && Passing(v, k, before, current, todo) && name in todo
    ensures w == Run(w0, es) && OnlyCleans(v, w, k) && Passing(w, k, before, current, todo - {name})
  {
    if !IsGen(name) {
      es, w := Deletes(w0, es0, v, k, before, current, todo, name);
    } else if CacheStore.Spared(name, current, v.inUse) {
      es, w := Skips(w0, es0, v, k, before, current, todo, name);
    } else if CanRename(v.dirs, name) {
      es, w := Renames(w0, es0, v, k, before, current, todo, name);
    } else {
      es, w := Blocked(w0, es0, v, k, before, current, todo, name);
    }
  }

  lemma {:induction false} PassOn(w0: World, es0: seq<Event>, v: World, k: nat, before: map<string, Tree>,
      current: string, todo: set<string>) returns (es: seq<Event>, w: World)
    requires v == Run(w0, es0) && Passing(v, k, before, current, todo)
    ensures w == Run(w0, es) && OnlyCleans(v, w, k) && k !in w.cleaners
    ensures CacheStore.Cleaned(before, w.dirs, current, v.inUse)
    decreases todo
  {
    if todo == {} {
      es, w := Then(w0, es0, v, CleanGo(k, ""));
    } else {
      var name :| name in todo;
      es, w := OneEntryOn(w0, es0, v, k, before, current, todo, name);
      es, w := PassOn(w0, es, w, k, before, current, todo - {name});
    }
  }

  /** A cleaner that nobody interrupts goes through its whole pass and leaves behind what
      CleanGenerations does. */
  lemma CleanAlone(v: World, k: nat) returns (es: seq<Event>, w: World)
    requires k !in v.cleaners
    ensures w == Run(v, es) && w == v.(dirs := w.dirs)
    ensures CacheStore.Cleaned(v.dirs, w.dirs, if v.manifest.Some? then v.manifest.value.gen else "", v.inUse)
  {
    var current;
    es, w, current := ListAll(v, [], v, k);
    var todo := set n | n in v.dirs && (IsGen(n) || IsTrash(n));
    assert CacheStore.Cleaning(v.dirs, w.dirs, todo, current, w.inUse);
    PutAndTaken(v.cleaners, k, w.cleaners[k]);
    es, w := PassOn(v, es, w, k, v.dirs, current, todo);
    GoneAgain(w.cleaners, k);
  }

  lemma PutAndTaken(cleaners: map<nat, CleanPc>, k: nat, pc: CleanPc)
    requires k !in cleaners
    ensures cleaners[k := pc] - {k} == cleaners
  {
  }

  lemma GoneAgain(cleaners: map<nat, CleanPc>, k: nat)
    requires k !in cleaners
    ensures cleaners - {k} == cleaners
  {
  }

  // ----- A commit -----

  /** A commit left alone with readable lockfiles succeeds: the manifest is replaced by one
      with the volume's own hash, and the new generation is the volume. */
  lemma CommitAlone(sha: string -> string, w0: World, es0: seq<Event>, cid: nat) returns (es: seq<Event>)
    requires Start(w0) && HashesWith(w0, sha)
    requires cid in Run(w0, es0).commits && Run(w0, es0).commits[cid].pc == ReadLocks
    requires var v := Run(w0, es0);
             At(v.vols, v.commits[cid].id) != map[] && LockHash.Hash(sha, At(v.vols, v.commits[cid].id)).Ok?
    ensures var v := Run(w0, es0);
            var w := Run(v, es);
            var c := v.commits[cid];
            var (hash, repoDir) := LockHash.Hash(sha, At(v.vols, c.id)).value;
            && cid in w.commits && w.commits[cid].pc == Committed(true)
            && w.manifest == Some(Manifest(v.repo, hash, repoDir, c.gen))
            && c.gen in w.dirs && w.dirs[c.gen] == At(v.vols, c.id)
            && w.boots == v.boots && w.vols == v.vols
  {
    var v := Run(w0, es0);
    StartKeeps(w0);
    RunKeeps(w0, es0);
    HashStays(w0, es0);
    assert v.hash(At(v.vols, v.commits[cid].id)) == LockHash.Hash(sha, At(v.vols, v.commits[cid].id));
    var w;
    es, w := ReachPublish(v, [], v, cid);
    es := SwapsExactly(v, es, w, cid);
  }

  lemma SwapsExactly(v0: World, es0: seq<Event>, v: World, cid: nat) returns (es: seq<Event>)
    requires v == Run(v0, es0) && Inv(v) && cid in v.commits && v.commits[cid].pc == Publish
    requires v.hash(v.commits[cid].locks.src).Ok?
    ensures var w := Run(v0, es);
            var c := v.commits[cid];
            && cid in w.commits && w.commits[cid].pc == Committed(true)
            && w.manifest == Some(Manifest(v.repo, v.hash(c.locks.src).value.0, v.hash(c.locks.src).value.1, c.gen))
            && c.gen in w.dirs && w.dirs[c.gen] == c.locks.src && w.boots == v.boots && w.vols == v.vols
  {
    var w, mf := SwapDone(v, cid);
    es := TwoSteps(v0, es0, v, CommitGo(cid, Enter([]), true));
    ManifestOf(v, cid);
  }

  lemma ManifestOf(v: World, cid: nat)
    requires Inv(v) && cid in v.commits && v.commits[cid].pc == Publish
    ensures var c := v.commits[cid];
            var w := Apply(Apply(v, CommitGo(cid, Enter([]), true)), CommitGo(cid, Enter([]), true));
            && v.hash(c.locks.src) == Ok((c.locks.hash, c.locks.repoDir))
            && w.manifest == Some(Manifest(v.repo, c.locks.hash, c.locks.repoDir, c.gen))
            && cid in w.commits && w.commits[cid].pc == Committed(true)
  {
    assert CommitAt(FactsOf(v), v.vols, v.dirs, v.commits[cid]);
    Published(v, cid, Enter([]));
    PublishIs(v, cid, Enter([]));
    var w1 := Apply(v, CommitGo(cid, Enter([]), true));
    ApplyKeeps(v, CommitGo(cid, Enter([]), true));
    Unmarks(w1, cid, Enter([]));
  }

  /** A commit that fails leaves no directory of its generation. */
  lemma FailedCommitLeavesNothing(w0: World, es: seq<Event>, cid: nat)
    requires Start(w0) && cid in Run(w0, es).commits && Run(w0, es).commits[cid].pc == Committed(false)
    ensures At(Run(w0, es).dirs, Run(w0, es).commits[cid].gen) == map[]
  {
    StartKeeps(w0);
    RunKeeps(w0, es);
    var w := Run(w0, es);
    assert CommitAt(FactsOf(w), w.vols, w.dirs, w.commits[cid]);
  }

  // ----- Names, written out -----

  /** A generation's name: `g-` and at least one small letter or digit. */
  lemma GenNameIff(name: string)
    ensures IsGen(name) <==>
              exists rest :: rest != "" && name == "g-" + rest
                             && forall c | c in rest :: c in "abcdefghijklmnopqrstuvwxyz" || c in "0123456789"
  {
    forall c ensures '0' <= c <= '9' || 'a' <= c <= 'z' <==> c in "abcdefghijklmnopqrstuvwxyz" || c in "0123456789" {
      SmallLetters(c);
      DecimalDigits(c);
    }
    if IsGen(name) {
      assert name == "g-" + name[2..];
    }
    if rest :| rest != "" && name == "g-" + rest
               && forall c | c in rest :: c in "abcdefghijklmnopqrstuvwxyz" || c in "0123456789" {
      assert name[2..] == rest;
    }
  }
}
