/** Runs in which the cache's promises fail, from a daemon that starts with nothing on disk:
    a cleaner finds no manifest, and only then a commit publishes. */
module WarmRaces {
  import opened Prelude
  import opened WarmTree
  import opened WarmCache
  import opened WarmSafety
  import opened WarmTheorems
  import opened WarmPartial
  import opened WarmPublication
  import LockHash

  // ----- A commit left alone gets to publish -----

  /** One quiet step of a commit. */
  lemma CommitOn(w0: World, es0: seq<Event>, v: World, cid: nat, t: Task, m: CommitMove)
      returns (es: seq<Event>, w: World)
    requires v == Run(w0, es0) && Inv(v) && cid in v.commits && !m.publish
    requires var c := v.commits[cid];
             m == CommitNext(v.hash, c, At(v.vols, c.id), At(v.dirs, c.gen), v.inUse, t, true)
    ensures w == Run(w0, es) && Inv(w) && w == v.(dirs := w.dirs, inUse := w.inUse, commits := w.commits)
    ensures cid in w.commits && w.commits[cid] == v.commits[cid].(pc := m.pc, locks := m.locks)
    ensures At(w.dirs, v.commits[cid].gen) == m.gen
  {
    es, w := Then(w0, es0, v, CommitGo(cid, t, true));
    ApplyKeeps(v, CommitGo(cid, t, true));
    AtStore(v.dirs, v.commits[cid].gen, m.gen);
  }

  lemma SomeReady(todo: set<Task>) returns (t: Task)
    requires todo != {} && OneRead(todo)
    ensures Ready(todo, t)
  {
    t :| t in todo;
    if u :| u in todo && u.Read? {
      t := u;
    }
  }

  /** One operation of the copy, on whatever is next. */
  lemma CopyOn(w0: World, es0: seq<Event>, v: World, cid: nat, src: Tree, dst: Tree, todo: set<Task>)
      returns (es: seq<Event>, w: World, dst': Tree, todo': set<Task>)
    requires v == Run(w0, es0) && Inv(v) && cid in v.commits && v.commits[cid].pc == CopyVol(todo) && todo != {}
    requires At(v.vols, v.commits[cid].id) == src && At(v.dirs, v.commits[cid].gen) == dst && CopyInv(src, dst, todo)
    ensures w == Run(w0, es) && Inv(w) && w == v.(dirs := w.dirs, inUse := w.inUse, commits := w.commits)
    ensures cid in w.commits && w.commits[cid] == v.commits[cid].(pc := CopyVol(todo'))
    ensures At(w.dirs, v.commits[cid].gen) == dst'
    ensures CopyInv(src, dst', todo') && Shrinks(src, dst, todo, dst', todo')
  {
    var t;
    t, dst', todo' := NextCopy(src, dst, todo);
    var c := v.commits[cid];
    var m := CommitMove(CopyVol(todo'), c.locks, dst', v.inUse, false);
    CopyMoves(v.hash, c, src, dst, v.inUse, todo, t, dst', todo');
    es, w := CommitOn(w0, es0, v, cid, t, m);
  }

  lemma NextCopy(src: Tree, dst: Tree, todo: set<Task>) returns (t: Task, dst': Tree, todo': set<Task>)
    requires CopyInv(src, dst, todo) && todo != {}
    ensures Ready(todo, t) && CopyStep(src, src, dst, todo, t) == Copy(Going, dst', todo')
    ensures CopyInv(src, dst', todo') && Shrinks(src, dst, todo, dst', todo')
  {
    t := SomeReady(todo);
    CopyAdvances(src, dst, todo, t);
    WalkShrinks(src, dst, todo, t);
    var s := CopyStep(src, src, dst, todo, t);
    dst', todo' := s.dst, s.todo;
  }

  lemma CopyMoves(hash: HashFn, c: Commit, src: Tree, dst: Tree, inUse: map<Mark, nat>, todo: set<Task>, t: Task,
      dst': Tree, todo': set<Task>)
    requires c.pc == CopyVol(todo) && Ready(todo, t) && CopyStep(src, src, dst, todo, t) == Copy(Going, dst', todo')
    ensures CommitNext(hash, c, src, dst, inUse, t, true) == CommitMove(CopyVol(todo'), c.locks, dst', inUse, false)
  {
  }

  /** The copy runs to its end, whatever the tree. */
  lemma CopyCompletes(w0: World, es0: seq<Event>, v: World, cid: nat, src: Tree, dst: Tree, todo: set<Task>)
      returns (es: seq<Event>, w: World)
    requires v == Run(w0, es0) && Inv(v) && cid in v.commits && v.commits[cid].pc == CopyVol(todo)
    requires At(v.vols, v.commits[cid].id) == src && At(v.dirs, v.commits[cid].gen) == dst && CopyInv(src, dst, todo)
    ensures w == Run(w0, es) && Inv(w) && w == v.(dirs := w.dirs, inUse := w.inUse, commits := w.commits)
    ensures cid in w.commits && w.commits[cid] == v.commits[cid].(pc := UnmarkVol(Going))
    decreases |Unmet(src, dst, todo)|, |src.Keys - dst.Keys|, |Unopened(todo)|, |todo|
  {
    if todo == {} {
      es, w := CopyEnded(w0, es0, v, cid);
    } else {
      var dst', todo';
      es, w, dst', todo' := CopyOn(w0, es0, v, cid, src, dst, todo);
      es, w := CopyCompletes(w0, es, w, cid, src, dst', todo');
    }
  }

  lemma CopyEnded(w0: World, es0: seq<Event>, v: World, cid: nat) returns (es: seq<Event>, w: World)
    requires v == Run(w0, es0) && Inv(v) && cid in v.commits && v.commits[cid].pc == CopyVol({})
    ensures w == Run(w0, es) && Inv(w) && w == v.(dirs := w.dirs, inUse := w.inUse, commits := w.commits)
    ensures cid in w.commits && w.commits[cid] == v.commits[cid].(pc := UnmarkVol(Going))
  {
    var c := v.commits[cid];
    es, w := CommitOn(w0, es0, v, cid, Enter([]),
                      CommitMove(UnmarkVol(Going), c.locks, At(v.dirs, c.gen), v.inUse, false));
  }

  /** From its first step to the manifest swap. */
  lemma ReachPublish(w0: World, es0: seq<Event>, v: World, cid: nat) returns (es: seq<Event>, w: World)
    requires v == Run(w0, es0) && Inv(v) && cid in v.commits && v.commits[cid].pc == ReadLocks
    requires At(v.vols, v.commits[cid].id) != map[] && v.hash(At(v.vols, v.commits[cid].id)).Ok?
    ensures w == Run(w0, es) && Inv(w) && w == v.(dirs := w.dirs, inUse := w.inUse, commits := w.commits)
    ensures cid in w.commits && w.commits[cid].pc == Publish && w.commits[cid].gen == v.commits[cid].gen
    ensures w.commits[cid].locks.src == At(v.vols, v.commits[cid].id)
  {
    es, w := ReachCopy(w0, es0, v, cid);
    es, w := CopyAll(w0, es, w, cid);
    var d := w.commits[cid];
    es, w := CommitOn(w0, es, w, cid, Enter([]),
                      CommitMove(Publish, d.locks, At(w.dirs, d.gen), Unmarked(w.inUse, Vol(d.id)), false));
  }

  lemma CopyAll(w0: World, es0: seq<Event>, v: World, cid: nat) returns (es: seq<Event>, w: World)
    requires v == Run(w0, es0) && Inv(v) && cid in v.commits && v.commits[cid].pc == CopyVol(START)
    requires At(v.vols, v.commits[cid].id) != map[]
    ensures w == Run(w0, es) && Inv(w) && w == v.(dirs := w.dirs, inUse := w.inUse, commits := w.commits)
    ensures cid in w.commits && w.commits[cid] == v.commits[cid].(pc := UnmarkVol(Going))
  {
    var c := v.commits[cid];
    assert CommitAt(FactsOf(v), v.vols, v.dirs, c);
    es, w := CopyCompletes(w0, es0, v, cid, At(v.vols, c.id), At(v.dirs, c.gen), START);
  }

  lemma ReachCopy(w0: World, es0: seq<Event>, v: World, cid: nat) returns (es: seq<Event>, w: World)
    requires v == Run(w0, es0) && Inv(v) && cid in v.commits && v.commits[cid].pc == ReadLocks
    requires v.hash(At(v.vols, v.commits[cid].id)).Ok?
    ensures w == Run(w0, es) && Inv(w) && w == v.(dirs := w.dirs, inUse := w.inUse, commits := w.commits)
    ensures cid in w.commits && w.commits[cid].pc == CopyVol(START)
    ensures w.commits[cid].gen == v.commits[cid].gen && w.commits[cid].id == v.commits[cid].id
    ensures w.commits[cid].locks.src == At(v.vols, v.commits[cid].id)
  {
    var c := v.commits[cid];
    var vol, h := At(v.vols, c.id), v.hash(At(v.vols, c.id)).value;
    var l := Locks(vol, h.0, h.1);
    es, w := CommitOn(w0, es0, v, cid, Enter([]), CommitMove(MarkGenDir, l, At(v.dirs, c.gen), v.inUse, false));
    es, w := CommitOn(w0, es, w, cid, Enter([]),
                      CommitMove(MarkVol, l, At(w.dirs, c.gen), Marked(w.inUse, Gen(c.gen)), false));
    es, w := CommitOn(w0, es, w, cid, Enter([]),
                      CommitMove(CopyVol(START), l, At(w.dirs, c.gen), Marked(w.inUse, Vol(c.id)), false));
  }

  // ----- The run -----

  const G1 := "g-1"

  /** Nothing on disk, nothing under way. */
  function Fresh(hash: HashFn): World {
    World(hash, "o/n", None, map[], map[], map[], map[], map[], map[], {}, {}, {}, map[])
  }

  lemma FreshStarts(hash: HashFn)
    ensures Start(Fresh(hash))
  {
  }

  /** A cold run, and what its workload makes of the volume. */
  lemma ColdRun(hash: HashFn, tree: Tree) returns (es: seq<Event>, w: World)
    requires WellFormed(tree)
    ensures w == Run(Fresh(hash), es)
    ensures w == Fresh(hash).(vols := map["r" := tree], ready := {"r"}, ids := {"r"})
  {
    assert [] in EMPTY_DIR;
    var w0 := Fresh(hash);
    es, w := ColdBoot(hash);
    es, w := Then(w0, es, w, BootReturn("r"));
    assert w == w0.(vols := map["r" := EMPTY_DIR], ready := {"r"}, ids := {"r"});
    es, w := Then(w0, es, w, Work("r", tree));
  }

  lemma ColdBoot(hash: HashFn) returns (es: seq<Event>, w: World)
    ensures w == Run(Fresh(hash), es)
    ensures w == Fresh(hash).(vols := map["r" := EMPTY_DIR], ids := {"r"}, boots := map["r" := Cold])
  {
    assert [] in EMPTY_DIR;
    var w0 := Fresh(hash);
    es, w := Then(w0, [], w0, BootBegin("r"));
    assert w == w0.(ids := {"r"}, boots := map["r" := ReadManifest(0)]);
    es, w := BootOn(w0, es, w, "r", Enter([]), BootMove(MakeEmpty, map[], map[]));
    assert w == w0.(ids := {"r"}, boots := map["r" := MakeEmpty]);
    es, w := BootOn(w0, es, w, "r", Enter([]), BootMove(Cold, EMPTY_DIR, map[]));
  }

  /** A cleaner finds no manifest; then a commit of that volume comes to its swap. */
  lemma StalePublication(hash: HashFn, tree: Tree) returns (es: seq<Event>, w: World)
    requires WellFormed(tree) && hash(tree).Ok?
    ensures w == Run(Fresh(hash), es) && Inv(w) && w.boots == map[] && w.ids == {"r"} && w.vols == map["r" := tree]
    ensures w.cleaners == map[0 := ListDir("")] && w.repo == "o/n"
    ensures 0 in w.commits && w.commits[0].pc == Publish && w.commits[0].gen == G1 && w.commits[0].locks.src == tree
  {
    var w0 := Fresh(hash);
    es, w := ColdRun(hash, tree);
    es, w := StartPass(w0, es, w, 0, "");
    assert IsGen(G1) && tree != map[];
    es, w := Then(w0, es, w, CommitBegin(0, "r", G1));
    FreshStarts(hash);
    StartKeeps(w0);
    RunKeeps(w0, es);
    es, w := ReachPublish(w0, es, w, 0);
  }

  /** The swap and the unmarking, with nobody in between. */
  lemma Settles(w0: World, es0: seq<Event>, v: World, cid: nat) returns (es: seq<Event>, w: World, mf: Manifest)
    requires v == Run(w0, es0) && Inv(v) && cid in v.commits && v.commits[cid].pc == Publish
    ensures w == Run(w0, es) && w.manifest == Some(mf) && mf.gen == v.commits[cid].gen && mf.repo == v.repo
    ensures w.boots == v.boots && w.ids == v.ids && w.vols == v.vols && w.cleaners == v.cleaners
    ensures mf.gen in w.dirs && mf.gen in w.published && w.dirs[mf.gen] == w.published[mf.gen]
    ensures w.published[mf.gen] == v.commits[cid].locks.src && Uses(w.inUse, Gen(mf.gen)) == 0
  {
    w, mf := SwapDone(v, cid);
    es := TwoSteps(w0, es0, v, CommitGo(cid, Enter([]), true));
  }

  lemma SwapDone(v: World, cid: nat) returns (w: World, mf: Manifest)
    requires Inv(v) && cid in v.commits && v.commits[cid].pc == Publish
    ensures w == Apply(Apply(v, CommitGo(cid, Enter([]), true)), CommitGo(cid, Enter([]), true))
    ensures w.manifest == Some(mf) && mf.gen == v.commits[cid].gen && mf.repo == v.repo
    ensures w.boots == v.boots && w.ids == v.ids && w.vols == v.vols && w.cleaners == v.cleaners
    ensures mf.gen in w.dirs && mf.gen in w.published && w.dirs[mf.gen] == w.published[mf.gen]
    ensures w.published[mf.gen] == v.commits[cid].locks.src && Uses(w.inUse, Gen(mf.gen)) == 0
  {
    w := PublishAndUnmark(v, cid, Enter([]));
    Published(v, cid, Enter([]));
    mf := w.manifest.value;
    BystandersStay(v, CommitGo(cid, Enter([]), true));
    SettledCommit(v, w, cid);
  }

  lemma BystandersStay(v: World, e: Event)
    requires e.CommitGo?
    ensures var w := Apply(Apply(v, e), e); w.boots == v.boots && w.ids == v.ids && w.vols == v.vols
  {
    OnlyCommits(v, e);
    OnlyCommits(Apply(v, e), e);
  }

  lemma TwoSteps(w0: World, es0: seq<Event>, v: World, e: Event) returns (es: seq<Event>)
    requires v == Run(w0, es0)
    ensures Apply(Apply(v, e), e) == Run(w0, es)
  {
    var w;
    es, w := Then(w0, es0, v, e);
    es, w := Then(w0, es, w, e);
  }

  lemma SettledCommit(v: World, w: World, cid: nat)
    requires Inv(v) && Inv(w) && cid in v.commits && v.commits[cid].pc == Publish && v.commits[cid].gen in w.dirs
    requires w == Apply(Apply(v, CommitGo(cid, Enter([]), true)), CommitGo(cid, Enter([]), true))
    ensures var c := v.commits[cid];
            c.gen in w.published && w.published[c.gen] == c.locks.src && w.dirs[c.gen] == c.locks.src
  {
    Published(v, cid, Enter([]));
    var w1 := Apply(v, CommitGo(cid, Enter([]), true));
    ApplyKeeps(v, CommitGo(cid, Enter([]), true));
    Unmarks(w1, cid, Enter([]));
    assert CommitAt(FactsOf(w), w.vols, w.dirs, w.commits[cid]);
  }

  /** Published, with a cleaner still at work that knows nothing of it. */
  lemma StaleCleaner(hash: HashFn, tree: Tree) returns (es: seq<Event>, w: World, mf: Manifest)
    requires WellFormed(tree) && hash(tree).Ok?
    ensures w == Run(Fresh(hash), es) && w.manifest == Some(mf) && mf.gen == G1 && !Corrupt(mf)
    ensures w.boots == map[] && w.ids == {"r"} && w.vols == map["r" := tree] && w.cleaners == map[0 := ListDir("")]
    ensures G1 in w.dirs && w.dirs[G1] == tree && G1 in w.published && w.published[G1] == tree
    ensures Uses(w.inUse, Gen(G1)) == 0
  {
    es, w := StalePublication(hash, tree);
    es, w, mf := Settles(Fresh(hash), es, w, 0);
    assert IsGen(G1);
  }

  lemma OnlyCommits(w: World, e: Event)
    requires e.CommitGo?
    ensures var w' := Apply(w, e); w'.boots == w.boots && w'.ids == w.ids && w'.vols == w.vols
  {
  }

  // ----- A lost generation -----

  /** The generation just published is taken away, whatever was committed. */
  lemma AnyTreeCanBeLost(sha: string -> string, tree: Tree) returns (w0: World, es: seq<Event>)
    requires WellFormed(tree) && LockHash.Hash(sha, tree).Ok?
    ensures Start(w0) && HashesWith(w0, sha)
    ensures var w := Run(w0, es); w.manifest.Some? && w.manifest.value.gen !in w.dirs
  {
    var hash := t => LockHash.Hash(sha, t);
    w0 := Fresh(hash);
    FreshStarts(hash);
    var w, mf;
    es, w, mf := StaleCleaner(hash, tree);
    assert IsGen(G1) && Stale(w.cleaners[0], G1);
    es, w := StaleTakes(w0, es, w, 0, G1);
  }

  // ----- A boot in part -----

  /** A second run's boot reads the manifest and marks. */
  lemma SecondBoot(w0: World, es0: seq<Event>, v: World, mf: Manifest) returns (es: seq<Event>, w: World)
    requires v == Run(w0, es0) && v.manifest == Some(mf) && !Corrupt(mf)
    requires "s" !in v.ids && "s" !in v.vols && "s" !in v.boots
    ensures w == Run(w0, es) && w == v.(boots := w.boots, ids := w.ids, inUse := w.inUse)
    ensures "s" in w.boots && w.boots["s"] == CopyGen(0, mf, START)
  {
    es, w := Then(w0, es0, v, BootBegin("s"));
    es, w := BootOn(w0, es, w, "s", Enter([]), BootMove(MarkGen(0, mf), map[], w.inUse));
    es, w := BootOn(w0, es, w, "s", Enter([]), BootMove(CopyGen(0, mf, START), map[], Marked(w.inUse, Gen(mf.gen))));
    assert v.vols - {"s"} == v.vols;
  }

  lemma {:induction false} RunAppend(w: World, xs: seq<Event>, ys: seq<Event>)
    ensures Run(w, xs + ys) == Run(Run(w, xs), ys)
    decreases |xs|
  {
    if xs == [] {
      assert xs + ys == ys;
    } else {
      assert (xs + ys)[1..] == xs[1..] + ys;
      RunAppend(Apply(w, xs[0]), xs[1..], ys);
    }
  }

  /** Whatever a commit publishes that is not empty, there is a run in which a boot reports
      booted=true with its manifest and holds only a part of it. */
  lemma AnyTreeCanBootInPart(sha: string -> string, tree: Tree)
      returns (w0: World, es: seq<Event>, id: string, mf: Manifest)
    requires WellFormed(tree) && tree != EMPTY_DIR && LockHash.Hash(sha, tree).Ok?
    ensures Start(w0) && HashesWith(w0, sha) && BootedInPart(Run(w0, es), id, mf)
    ensures Run(w0, es).published[mf.gen] == tree
  {
    var hash := t => LockHash.Hash(sha, t);
    w0, id := Fresh(hash), "s";
    FreshStarts(hash);
    var w;
    es, w, mf := StaleCleaner(hash, tree);
    es, w := DecidedAndMarked(w0, es, w, mf, tree);
    var more := PartHappens(w, id, 0, mf, 0);
    RunAppend(w0, es, more);
    StartKeeps(w0);
    RunKeeps(w0, es);
    PublishedForGood(w, more, mf.gen);
    es := es + more;
  }

  /** The cleaner decides on the generation, and then the boot marks it. */
  lemma DecidedAndMarked(w0: World, es0: seq<Event>, v: World, mf: Manifest, tree: Tree)
      returns (es: seq<Event>, w: World)
    requires Start(w0) && v == Run(w0, es0) && v.manifest == Some(mf) && !Corrupt(mf) && v.ids == {"r"}
    requires v.boots == map[] && v.vols.Keys == {"r"} && v.cleaners == map[0 := ListDir("")]
    requires mf.gen in v.dirs && mf.gen in v.published && v.published[mf.gen] == tree && WellFormed(tree)
    requires Uses(v.inUse, Gen(mf.gen)) == 0
    ensures w == Run(w0, es) && w.published == v.published
    ensures "s" in w.boots && w.boots["s"] == CopyGen(0, mf, START) && At(w.vols, "s") == map[]
    ensures mf.gen in w.dirs && w.dirs[mf.gen] == tree && 0 in w.cleaners && DecidedOn(w.cleaners[0], mf.gen)
  {
    assert Stale(v.cleaners[0], mf.gen);
    es, w := StaleDecides(w0, es0, v, 0, mf.gen);
    es, w := SecondBoot(w0, es, w, mf);
    StartKeeps(w0);
    RunKeeps(w0, es);
    assert WholeOrGone(w.published, w.dirs);
  }

  lemma {:induction false} PublishedForGood(w: World, es: seq<Event>, g: string)
    requires Inv(w) && g in w.published
    ensures g in Run(w, es).published && Run(w, es).published[g] == w.published[g]
    decreases |es|
  {
    if es != [] {
      ApplyKeeps(w, es[0]);
      PublishedStays(w, es[0], g);
      PublishedForGood(Apply(w, es[0]), es[1..], g);
    }
  }

  // ----- A tree to do it with -----

  const ONE_FILE: Tree := map[[] := Dir, ["a"] := File("x")]

  lemma OneFile(sha: string -> string)
    ensures WellFormed(ONE_FILE) && ONE_FILE != EMPTY_DIR && LockHash.Hash(sha, ONE_FILE).Ok?
  {
    assert ["a"] in ONE_FILE && ["a"] !in EMPTY_DIR;
    OneFileReads();
  }

  lemma OneFileReads()
    ensures LockHash.Readable(LockHash.Readings(ONE_FILE))
  {
    var root := LockHash.DetectRepoDir(ONE_FILE).1;
    forall n ensures !LockHash.Read(ONE_FILE, root + [n]).Unreadable? {
      assert root + [n] != [];
    }
  }

  /** The comment at cache.go:292-294 says that a generation just published survives; here
      it does not. */
  lemma CurrentGenerationCanBeLost(sha: string -> string) returns (w0: World, es: seq<Event>)
    ensures Start(w0) && HashesWith(w0, sha)
    ensures var w := Run(w0, es); w.manifest.Some? && w.manifest.value.gen !in w.dirs
  {
    OneFile(sha);
    w0, es := AnyTreeCanBeLost(sha, ONE_FILE);
  }

  /** The comment at cache.go:199-203 promises a complete generation or a cold boot; here a
      boot ends with neither. */
  lemma BootInPartHappens(sha: string -> string) returns (w0: World, es: seq<Event>, id: string, mf: Manifest)
    ensures Start(w0) && HashesWith(w0, sha) && BootedInPart(Run(w0, es), id, mf)
  {
    OneFile(sha);
    w0, es, id, mf := AnyTreeCanBootInPart(sha, ONE_FILE);
  }
}
