/** Whether a generation just published can be lost while the manifest names it, told from
    the state at the moment of publication. */
module WarmPublication {
  import opened Prelude
  import opened WarmTree
  import opened WarmCache
  import opened WarmSafety
  import opened WarmTheorems
  import opened WarmPartial

  /** A cleaner that read an older manifest, and has `g` still before it. */
  predicate Stale(pc: CleanPc, g: string) {
    match pc
    case ReadCurrent => false
    case ListDir(current) => current != g
    case Scan(current, todo) => current != g && g in todo
    case RenameGen(current, todo, name) => name == g || (current != g && g in todo)
    case RemoveDir(current, todo, _) => current != g && g in todo
  }

  ghost predicate AnyStale(cleaners: map<nat, CleanPc>, g: string) {
    exists k :: k in cleaners && Stale(cleaners[k], g)
  }

  /** The manifest on disk is this one, and its generation is not there. */
  predicate LostNow(w: World, mf: Manifest) {
    w.manifest == Some(mf) && mf.gen !in w.dirs
  }

  ghost predicate CanBeLost(w: World, mf: Manifest) {
    exists es :: LostNow(Run(w, es), mf)
  }

  // ----- Without a stale cleaner, never -----

  /** As long as the manifest is this one, its generation is there and nobody is after it. */
  ghost predicate Kept(w: World, mf: Manifest) {
    mf.gen in w.published && (w.manifest == Some(mf) ==> mf.gen in w.dirs && !AnyStale(w.cleaners, mf.gen))
  }

  lemma CleanerStaysFresh(pc: CleanPc, mf: Manifest, dirs: map<string, Tree>, inUse: map<Mark, nat>, name: string)
    requires !Stale(pc, mf.gen)
    ensures var m := CleanNext(pc, Some(mf), dirs, inUse, name); m.pc.Some? ==> !Stale(m.pc.value, mf.gen)
  {
  }

  lemma NobodyTurnsStale(w: World, e: Event, mf: Manifest)
    requires w.manifest == Some(mf) && !AnyStale(w.cleaners, mf.gen)
    ensures !AnyStale(Apply(w, e).cleaners, mf.gen)
  {
    forall k | k in Apply(w, e).cleaners ensures !Stale(Apply(w, e).cleaners[k], mf.gen) {
      assert k in w.cleaners ==> !Stale(w.cleaners[k], mf.gen);
      if !e.CleanGo? {
        CleanersElsewhere(w, e, k);
      } else if e.k in w.cleaners {
        assert !Stale(w.cleaners[e.k], mf.gen);
        CleanerStaysFresh(w.cleaners[e.k], mf, w.dirs, w.inUse, e.name);
        CleanersApart(w, e, k);
      }
    }
  }

  lemma CleanersApart(w: World, e: Event, k: nat)
    requires e.CleanGo? && e.k in w.cleaners && k in Apply(w, e).cleaners
    ensures var m := CleanNext(w.cleaners[e.k], w.manifest, w.dirs, w.inUse, e.name);
            if k == e.k then m.pc == Some(Apply(w, e).cleaners[k])
            else k in w.cleaners && Apply(w, e).cleaners[k] == w.cleaners[k]
  {
  }

  /** A manifest that has been replaced does not come back. */
  lemma ManifestMoves(w: World, e: Event, mf: Manifest)
    requires CommitsOk(FactsOf(w), w.vols, w.dirs, w.commits) && mf.gen in w.published && w.manifest != Some(mf)
    ensures Apply(w, e).manifest != Some(mf)
  {
    if e.CommitGo? && e.cid in w.commits {
      var c := w.commits[e.cid];
      assert CommitAt(FactsOf(w), w.vols, w.dirs, c);
      KnownCommit(FactsOf(w), At(w.vols, c.id), At(w.dirs, c.gen), c);
      WritesOwnName(w, e.cid, e.task, e.writeOk);
    } else {
      OthersKeepManifest(w, e);
    }
  }

  lemma WritesOwnName(w: World, cid: nat, t: Task, ok: bool)
    requires cid in w.commits
    ensures var m := CommitStep(w, cid, t, ok).manifest;
            m == w.manifest || (w.commits[cid].pc.Publish? && m.Some? && m.value.gen == w.commits[cid].gen)
  {
  }

  lemma KeptStays(w: World, e: Event, mf: Manifest)
    requires Inv(w) && Kept(w, mf)
    ensures Kept(Apply(w, e), mf)
  {
    PublishedStays(w, e, mf.gen);
    if w.manifest == Some(mf) {
      NobodyTurnsStale(w, e, mf);
      LostIff(w, e, mf.gen);
      assert e.CleanGo? && e.k in w.cleaners ==> !Stale(w.cleaners[e.k], mf.gen);
    } else {
      ManifestMoves(w, e, mf);
    }
  }

  lemma {:induction false} KeptForever(w: World, es: seq<Event>, mf: Manifest)
    requires Inv(w) && Kept(w, mf)
    ensures !LostNow(Run(w, es), mf)
    decreases |es|
  {
    if es != [] {
      ApplyKeeps(w, es[0]);
      KeptStays(w, es[0], mf);
      KeptForever(Apply(w, es[0]), es[1..], mf);
    }
  }

  // ----- With one, it can be -----

  /** The stale cleaner comes to the point where it looks at `g`. */
  lemma ReachScan(w0: World, es0: seq<Event>, v: World, k: nat, g: string) returns (es: seq<Event>, w: World)
    requires v == Run(w0, es0) && IsGen(g) && g in v.dirs && k in v.cleaners && Stale(v.cleaners[k], g)
    requires v.cleaners[k].RenameGen? ==> v.cleaners[k].name != g
    requires v.cleaners[k].RemoveDir? ==> IsTrash(v.cleaners[k].name)
    ensures w == Run(w0, es) && w == v.(dirs := w.dirs, cleaners := w.cleaners) && g in w.dirs
    ensures k in w.cleaners && w.cleaners[k].Scan? && Stale(w.cleaners[k], g)
  {
    es, w := es0, v;
    if v.cleaners[k].ListDir? {
      es, w := CleanOn(w0, es, w, k, "");
    } else if v.cleaners[k].RenameGen? {
      assert Trash(v.cleaners[k].name)[0] == 't' && g[0] == 'g';
      es, w := CleanOn(w0, es, w, k, "");
    }
    if w.cleaners[k].RemoveDir? {
      assert w.cleaners[k].name[0] == 't' && g[0] == 'g';
      es, w := CleanOn(w0, es, w, k, "");
    }
  }

  lemma StaleTakes(w0: World, es0: seq<Event>, v: World, k: nat, g: string) returns (es: seq<Event>, w: World)
    requires v == Run(w0, es0) && IsGen(g) && g in v.dirs && Uses(v.inUse, Gen(g)) == 0
    requires k in v.cleaners && Stale(v.cleaners[k], g) && (v.cleaners[k].RemoveDir? ==> IsTrash(v.cleaners[k].name))
    ensures w == Run(w0, es) && w.manifest == v.manifest && g !in w.dirs
  {
    es, w := StaleDecides(w0, es0, v, k, g);
    es, w := DecidedTakes(w0, es, w, k, g);
  }

  lemma StaleDecides(w0: World, es0: seq<Event>, v: World, k: nat, g: string) returns (es: seq<Event>, w: World)
    requires v == Run(w0, es0) && IsGen(g) && g in v.dirs && Uses(v.inUse, Gen(g)) == 0
    requires k in v.cleaners && Stale(v.cleaners[k], g) && (v.cleaners[k].RemoveDir? ==> IsTrash(v.cleaners[k].name))
    ensures w == Run(w0, es) && w == v.(dirs := w.dirs, cleaners := w.cleaners) && g in w.dirs
    ensures k in w.cleaners && DecidedOn(w.cleaners[k], g)
  {
    es, w := es0, v;
    if !(v.cleaners[k].RenameGen? && v.cleaners[k].name == g) {
      es, w := ReachScan(w0, es, w, k, g);
      es, w := CleanOn(w0, es, w, k, g);
    }
  }

  lemma DecidedTakes(w0: World, es0: seq<Event>, v: World, k: nat, g: string) returns (es: seq<Event>, w: World)
    requires v == Run(w0, es0) && IsGen(g) && g in v.dirs && k in v.cleaners && DecidedOn(v.cleaners[k], g)
    ensures w == Run(w0, es) && w.manifest == v.manifest && g !in w.dirs
  {
    es, w := ClearTheWay(w0, es0, v, g);
    TrashIsApart(g);
    es, w := CleanOn(w0, es, w, k, "");
  }

  /** Nobody but its own commit holds a generation being published. */
  lemma OnlyOwner(w: World, cid: nat)
    requires Inv(w) && cid in w.commits && w.commits[cid].gen !in w.published
    ensures BootHolders(w.boots, Gen(w.commits[cid].gen)) == {}
    ensures CommitHolders(w.commits, Gen(w.commits[cid].gen)) <= {cid}
  {
    var g := w.commits[cid].gen;
    forall id | id in w.boots ensures !BootHolds(w.boots[id], Gen(g)) {
      assert BootOk(FactsOf(w), w.dirs, At(w.vols, id), w.boots[id]);
    }
  }

  lemma PublishAndUnmark(w: World, cid: nat, t: Task) returns (v: World)
    requires Inv(w) && cid in w.commits && w.commits[cid].pc == Publish
    ensures var w1 := Apply(w, CommitGo(cid, t, true));
            v == Apply(w1, CommitGo(cid, t, true)) && Inv(v) && v.manifest == w1.manifest && v.cleaners == w.cleaners
    ensures w.commits[cid].gen in v.dirs && Uses(v.inUse, Gen(w.commits[cid].gen)) == 0
  {
    Published(w, cid, t);
    var w1 := Apply(w, CommitGo(cid, t, true));
    ApplyKeeps(w, CommitGo(cid, t, true));
    Unmarks(w1, cid, t);
    v := Apply(w1, CommitGo(cid, t, true));
    ApplyKeeps(w1, CommitGo(cid, t, true));
    CountsDown(w, w1, v, cid);
  }

  lemma CountsDown(w: World, w1: World, v: World, cid: nat)
    requires Inv(w) && cid in w.commits && w.commits[cid].pc == Publish && Inv(v) && w1.boots == w.boots
             && v.boots == w1.boots
    requires w1.commits == w.commits[cid := w.commits[cid].(pc := UnmarkGenDir(true))]
    requires v.commits == w1.commits[cid := w1.commits[cid].(pc := Committed(true))]
    ensures Uses(v.inUse, Gen(w.commits[cid].gen)) == 0
  {
    OneEntry(w.commits, cid, w1.commits[cid], v.commits[cid]);
    NobodyHolds(w, v, cid);
  }

  lemma NobodyHolds(w: World, v: World, cid: nat)
    requires Inv(w) && cid in w.commits && w.commits[cid].pc == Publish && MarksOk(v.inUse, v.boots, v.commits)
    requires v.boots == w.boots && v.commits == w.commits[cid := w.commits[cid].(pc := Committed(true))]
    ensures Uses(v.inUse, Gen(w.commits[cid].gen)) == 0
  {
    var g := w.commits[cid].gen;
    assert CommitAt(FactsOf(w), w.vols, w.dirs, w.commits[cid]);
    OnlyOwner(w, cid);
    assert CommitHolders(v.commits, Gen(g)) == {} by {
      forall c | c in v.commits ensures !CommitHolds(v.commits[c], Gen(g)) {
        assert c != cid ==> v.commits[c] == w.commits[c] && v.commits[c].gen != g;
      }
    }
    assert Uses(v.inUse, Gen(g)) == Holders(v.boots, v.commits, Gen(g));
  }

  lemma Published(w: World, cid: nat, t: Task)
    requires Inv(w) && cid in w.commits && w.commits[cid].pc == Publish
    ensures var g := w.commits[cid].gen;
            var w1 := Apply(w, CommitGo(cid, t, true));
            && w1.manifest.Some? && w1.manifest.value.gen == g && w1.manifest.value.repo == w.repo
            && g in w1.published && g in w1.dirs && w1.cleaners == w.cleaners && w1.boots == w.boots
            && w1.commits == w.commits[cid := w.commits[cid].(pc := UnmarkGenDir(true))]
  {
    PublishIs(w, cid, t);
    HasDirectory(FactsOf(w), w.vols, w.dirs, w.commits, cid);
    StoreSame(w.dirs, w.commits[cid].gen);
  }

  lemma HasDirectory(f: Facts, vols: map<string, Tree>, dirs: map<string, Tree>, commits: map<nat, Commit>, cid: nat)
    requires CommitsOk(f, vols, dirs, commits) && cid in commits && commits[cid].pc == Publish
    ensures commits[cid].gen in dirs && dirs[commits[cid].gen] != map[]
  {
    assert CommitAt(f, vols, dirs, commits[cid]);
  }

  lemma PublishIs(w: World, cid: nat, t: Task)
    requires cid in w.commits && w.commits[cid].pc == Publish
    ensures var c := w.commits[cid];
            Apply(w, CommitGo(cid, t, true)) ==
            w.(dirs := Store(w.dirs, c.gen, At(w.dirs, c.gen)),
               commits := w.commits[cid := c.(pc := UnmarkGenDir(true))],
               manifest := Some(Manifest(w.repo, c.locks.hash, c.locks.repoDir, c.gen)),
               published := w.published[c.gen := At(w.dirs, c.gen)])
  {
  }

  lemma Unmarks(w: World, cid: nat, t: Task)
    requires DirsOk(w.dirs, w.used) && cid in w.commits && w.commits[cid].pc == UnmarkGenDir(true)
             && w.commits[cid].gen in w.dirs
    ensures var v := Apply(w, CommitGo(cid, t, true));
            && v.manifest == w.manifest && v.cleaners == w.cleaners && v.boots == w.boots && v.dirs == w.dirs
            && v.commits == w.commits[cid := w.commits[cid].(pc := Committed(true))]
  {
    StoreSame(w.dirs, w.commits[cid].gen);
  }

  /** The exact condition at publication: the generation can be lost while the manifest
      still names it if and only if some cleaner has read an older manifest and has not
      finished with the directory listing that shows, or will show, the new generation. */
  lemma PublicationLostIff(w0: World, es: seq<Event>, cid: nat, t: Task)
    requires Start(w0)
    requires var w := Run(w0, es); cid in w.commits && w.commits[cid].pc == Publish
    ensures var w := Run(w0, es);
            var w1 := Apply(w, CommitGo(cid, t, true));
            && w1.manifest.Some? && w1.manifest.value.gen == w.commits[cid].gen
            && (CanBeLost(w1, w1.manifest.value) <==> AnyStale(w.cleaners, w.commits[cid].gen))
  {
    StartKeeps(w0);
    RunKeeps(w0, es);
    PublishedLostIff(Run(w0, es), cid, t);
  }

  lemma PublishedLostIff(w: World, cid: nat, t: Task)
    requires Inv(w) && cid in w.commits && w.commits[cid].pc == Publish
    ensures var w1 := Apply(w, CommitGo(cid, t, true));
            && w1.manifest.Some? && w1.manifest.value.gen == w.commits[cid].gen
            && (CanBeLost(w1, w1.manifest.value) <==> AnyStale(w.cleaners, w.commits[cid].gen))
  {
    var w1 := Apply(w, CommitGo(cid, t, true));
    Published(w, cid, t);
    ApplyKeeps(w, CommitGo(cid, t, true));
    var mf := w1.manifest.value;
    if AnyStale(w.cleaners, mf.gen) {
      var v := PublishAndUnmark(w, cid, t);
      var k :| k in v.cleaners && Stale(v.cleaners[k], mf.gen);
      assert CleanerOk(v.used, v.commits, v.cleaners[k]);
      StaleLoses(w1, CommitGo(cid, t, true), v, k, mf);
    } else {
      assert Kept(w1, mf);
      forall es ensures !LostNow(Run(w1, es), mf) {
        KeptForever(w1, es, mf);
      }
    }
  }

  lemma StaleLoses(w1: World, e: Event, v: World, k: nat, mf: Manifest)
    requires v == Apply(w1, e) && v.manifest == Some(mf) && IsGen(mf.gen) && mf.gen in v.dirs
             && Uses(v.inUse, Gen(mf.gen)) == 0
    requires k in v.cleaners && Stale(v.cleaners[k], mf.gen)
             && (v.cleaners[k].RemoveDir? ==> IsTrash(v.cleaners[k].name))
    ensures CanBeLost(w1, mf)
  {
    var es, w := Then(w1, [], w1, e);
    es, w := StaleTakes(w1, es, w, k, mf.gen);
    assert LostNow(Run(w1, es), mf);
  }
}
