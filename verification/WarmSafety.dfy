/** What every interleaving of the warm cache keeps. */
module WarmSafety {
  import opened Prelude
  import opened WarmTree
  import opened WarmCache

  // ----- The invariant -----

  /** What is fixed about a repository, and every tree ever published for it. */
  datatype Facts = Facts(hash: HashFn, repo: string, published: map<string, Tree>)

  function FactsOf(w: World): Facts {
    Facts(w.hash, w.repo, w.published)
  }

  ghost predicate GoodManifest(f: Facts, mf: Manifest) {
    && mf.repo == f.repo != "" && IsGen(mf.gen) && mf.gen in f.published && WellFormed(f.published[mf.gen])
    && f.hash(f.published[mf.gen]) == Ok((mf.lockHash, mf.repoDir))
  }

  /** A published generation's path holds the whole published tree, or nothing. */
  ghost predicate WholeOrGone(published: map<string, Tree>, dirs: map<string, Tree>) {
    forall g | g in published && g in dirs :: dirs[g] == published[g]
  }

  ghost predicate PublishedOk(f: Facts, manifest: Option<Manifest>, dirs: map<string, Tree>, used: set<string>) {
    && f.repo != ""
    && (manifest.Some? && !Corrupt(manifest.value) ==> GoodManifest(f, manifest.value))
    && (forall g | g in f.published :: IsGen(g) && g in used && WellFormed(f.published[g]))
    && WholeOrGone(f.published, dirs)
  }

  ghost predicate DirsOk(dirs: map<string, Tree>, used: set<string>) {
    forall n | n in dirs :: dirs[n] != map[] && (IsGen(n) ==> n in used)
  }

  ghost predicate VolsOk(vols: map<string, Tree>, ready: set<string>) {
    forall id | id in ready && id in vols :: WellFormed(vols[id])
  }

  ghost predicate IdsOk(boots: map<string, BootPc>, ready: set<string>, ids: set<string>) {
    ready <= ids && boots.Keys <= ids && ready !! boots.Keys
  }

  /** Every commit has a generation name of its own. */
  ghost predicate CommitNamesOk(commits: map<nat, Commit>, used: set<string>, ready: set<string>) {
    && (forall c | c in commits :: IsGen(commits[c].gen) && commits[c].gen in used && commits[c].id in ready)
    && (forall c, d | c in commits && d in commits && commits[c].gen == commits[d].gen :: c == d)
  }

  /** A part of a tree: what is there is right, and the path to it too. */
  ghost predicate PartOf(part: Tree, whole: Tree) {
    WellFormed(part) && Sound(whole, part)
  }

  /** The walk missed something: the generation is gone, and nothing of it is open. */
  ghost predicate Cut(whole: Tree, dirs: map<string, Tree>, vol: Tree, gen: string, todo: set<Task>) {
    gen !in dirs && PartOf(vol, whole) && forall t | t in todo :: !t.Read?
  }

  /** A finished copy: the whole tree, or a part of it when the generation is gone. */
  ghost predicate Copied(whole: Tree, dirs: map<string, Tree>, vol: Tree, gen: string) {
    PartOf(vol, whole) && (vol == whole || gen !in dirs)
  }

  /** A boot at `pc` whose volume holds `vol`. */
  ghost predicate BootOk(f: Facts, dirs: map<string, Tree>, vol: Tree, pc: BootPc) {
    match pc
    case ReadManifest(a) => a <= 3 && vol == map[]
    case MarkGen(a, mf) => a < 3 && GoodManifest(f, mf) && vol == map[]
    case CopyGen(a, mf, todo) =>
      a < 3 && GoodManifest(f, mf)
          && (CopyInv(f.published[mf.gen], vol, todo) || Cut(f.published[mf.gen], dirs, vol, mf.gen, todo))
    case UnmarkGen(a, mf, o) => a < 3 && GoodManifest(f, mf) && o != Broken
        && (o == Going ==> Copied(f.published[mf.gen], dirs, vol, mf.gen))
    case ClearVol(a, o) => a < 3 && o == Vanished
    case MakeEmpty => vol == map[]
    case Booted(mf) => GoodManifest(f, mf) && Copied(f.published[mf.gen], dirs, vol, mf.gen)
    case Cold => vol == EMPTY_DIR
    case BootFailed => true
  }

  ghost predicate BootsOk(f: Facts, dirs: map<string, Tree>, vols: map<string, Tree>, boots: map<string, BootPc>) {
    forall id | id in boots :: BootOk(f, dirs, At(vols, id), boots[id])
  }

  /** The generation is still being filled. */
  predicate Building(pc: CommitPc) {
    pc.ReadLocks? || pc.MarkGenDir? || pc.MarkVol? || pc.CopyVol? || pc.UnmarkVol? || pc.Publish?
  }

  ghost predicate Hashed(f: Facts, l: Locks) {
    f.hash(l.src) == Ok((l.hash, l.repoDir))
  }

  /** A commit of generation `name` at `pc`, whose run's volume holds `vol` and whose
      generation directory holds `gen`. */
  ghost predicate CommitOk(f: Facts, vol: Tree, gen: Tree, name: string, l: Locks, pc: CommitPc) {
    && (name in f.published <==> pc == UnmarkGenDir(true) || pc == Committed(true))
    && match pc
       case ReadLocks => gen == map[]
       case MarkGenDir => gen == map[] && Hashed(f, l) && (vol == map[] || vol == l.src)
       case MarkVol => gen == map[] && Hashed(f, l) && (vol == map[] || vol == l.src)
       case CopyVol(todo) =>
         && Hashed(f, l)
         && if vol == map[] then gen == map[] && todo == START else vol == l.src && CopyInv(l.src, gen, todo)
       case UnmarkVol(o) => o != Broken && Hashed(f, l) && (o == Going ==> gen == l.src && WellFormed(l.src))
       case Publish => Hashed(f, l) && gen == l.src && WellFormed(l.src)
       case UnmarkGenDir(p) => p ==> Hashed(f, l) && f.published[name] == l.src
       case RemoveGenDir => true
       case Committed(ok) => if ok then Hashed(f, l) && f.published[name] == l.src else gen == map[]
  }

  ghost predicate CommitAt(f: Facts, vols: map<string, Tree>, dirs: map<string, Tree>, c: Commit) {
    CommitOk(f, At(vols, c.id), At(dirs, c.gen), c.gen, c.locks, c.pc)
  }

  ghost predicate CommitsOk(f: Facts, vols: map<string, Tree>, dirs: map<string, Tree>, commits: map<nat, Commit>) {
    forall cid | cid in commits :: CommitAt(f, vols, dirs, commits[cid])
  }

  /** A directory some cleaner may have listed: its commit had marked it before. */
  ghost predicate Listed(used: set<string>, commits: map<nat, Commit>, n: string) {
    && (IsGen(n) || IsTrash(n))
    && (IsGen(n) ==> n in used)
    && (forall c | c in commits && commits[c].gen == n :: !commits[c].pc.ReadLocks? && !commits[c].pc.MarkGenDir?)
  }

  /** A generation a cleaner has decided to take away: nobody is filling it. */
  ghost predicate Doomed(used: set<string>, commits: map<nat, Commit>, n: string) {
    IsGen(n) && n in used && forall c | c in commits && commits[c].gen == n :: !Building(commits[c].pc)
  }

  ghost predicate AllListed(used: set<string>, commits: map<nat, Commit>, todo: set<string>) {
    forall n | n in todo :: Listed(used, commits, n)
  }

  ghost predicate CleanerOk(used: set<string>, commits: map<nat, Commit>, pc: CleanPc) {
    match pc
    case Scan(_, todo) => AllListed(used, commits, todo)
    case RenameGen(current, todo, name) => name != current && Doomed(used, commits, name)
        && AllListed(used, commits, todo)
    case RemoveDir(_, todo, name) => IsTrash(name) && AllListed(used, commits, todo)
    case _ => true
  }

  ghost predicate CleanersOk(used: set<string>, commits: map<nat, Commit>, cleaners: map<nat, CleanPc>) {
    forall k | k in cleaners :: CleanerOk(used, commits, cleaners[k])
  }

  // ----- Marks -----

  predicate BootHolds(pc: BootPc, m: Mark) {
    (pc.CopyGen? || pc.UnmarkGen?) && m == Gen(pc.mf.gen)
  }

  predicate HoldsGen(pc: CommitPc) {
    pc.MarkVol? || pc.CopyVol? || pc.UnmarkVol? || pc.Publish? || pc.UnmarkGenDir?
  }

  predicate HoldsVol(pc: CommitPc) {
    pc.CopyVol? || pc.UnmarkVol?
  }

  predicate CommitHolds(c: Commit, m: Mark) {
    (m == Gen(c.gen) && HoldsGen(c.pc)) || (m == Vol(c.id) && HoldsVol(c.pc))
  }

  function BootHolders(boots: map<string, BootPc>, m: Mark): set<string> {
    set id | id in boots && BootHolds(boots[id], m)
  }

  function CommitHolders(commits: map<nat, Commit>, m: Mark): set<nat> {
    set cid | cid in commits && CommitHolds(commits[cid], m)
  }

  function Holders(boots: map<string, BootPc>, commits: map<nat, Commit>, m: Mark): nat {
    |BootHolders(boots, m)| + |CommitHolders(commits, m)|
  }

  /** Each count is the number of threads holding that mark. */
  ghost predicate MarksOk(inUse: map<Mark, nat>, boots: map<string, BootPc>, commits: map<nat, Commit>) {
    forall m :: Uses(inUse, m) == Holders(boots, commits, m)
  }

  ghost predicate Inv(w: World) {
    && PublishedOk(FactsOf(w), w.manifest, w.dirs, w.used)
    && DirsOk(w.dirs, w.used) && VolsOk(w.vols, w.ready) && IdsOk(w.boots, w.ready, w.ids)
    && CommitNamesOk(w.commits, w.used, w.ready)
    && BootsOk(FactsOf(w), w.dirs, w.vols, w.boots)
    && CommitsOk(FactsOf(w), w.vols, w.dirs, w.commits)
    && CleanersOk(w.used, w.commits, w.cleaners)
    && MarksOk(w.inUse, w.boots, w.commits)
  }

  // ----- Counting lemmas -----

  lemma CardAdd<T>(s: set<T>, x: T)
    requires x !in s
    ensures |s + {x}| == |s| + 1
  {
  }

  predicate BootHeld(boots: map<string, BootPc>, id: string, m: Mark) {
    id in boots && BootHolds(boots[id], m)
  }

  /** One boot moving changes its own holding and nothing else. */
  lemma BootMoves(boots: map<string, BootPc>, boots': map<string, BootPc>, id: string, m: Mark)
    requires boots' - {id} == boots - {id}
    ensures |BootHolders(boots', m)| ==
            |BootHolders(boots, m)| + Bit(BootHeld(boots', id, m)) - Bit(BootHeld(boots, id, m))
  {
    HoldersSplitBoot(boots, id, m);
    HoldersSplitBoot(boots', id, m);
  }

  lemma HoldersSplitBoot(boots: map<string, BootPc>, id: string, m: Mark)
    ensures |BootHolders(boots, m)| == |BootHolders(boots - {id}, m)| + Bit(BootHeld(boots, id, m))
  {
    var rest := BootHolders(boots - {id}, m);
    if BootHeld(boots, id, m) {
      assert BootHolders(boots, m) == rest + {id};
      CardAdd(rest, id);
    } else {
      assert BootHolders(boots, m) == rest;
    }
  }

  predicate CommitHeld(commits: map<nat, Commit>, cid: nat, m: Mark) {
    cid in commits && CommitHolds(commits[cid], m)
  }

  lemma CommitMoves(commits: map<nat, Commit>, commits': map<nat, Commit>, cid: nat, m: Mark)
    requires commits' - {cid} == commits - {cid}
    ensures |CommitHolders(commits', m)| ==
            |CommitHolders(commits, m)| + Bit(CommitHeld(commits', cid, m)) - Bit(CommitHeld(commits, cid, m))
  {
    HoldersSplitCommit(commits, cid, m);
    HoldersSplitCommit(commits', cid, m);
  }

  lemma HoldersSplitCommit(commits: map<nat, Commit>, cid: nat, m: Mark)
    ensures |CommitHolders(commits, m)| == |CommitHolders(commits - {cid}, m)| + Bit(CommitHeld(commits, cid, m))
  {
    var rest := CommitHolders(commits - {cid}, m);
    if CommitHeld(commits, cid, m) {
      assert CommitHolders(commits, m) == rest + {cid};
      CardAdd(rest, cid);
    } else {
      assert CommitHolders(commits, m) == rest;
    }
  }

  lemma UsesMarked(inUse: map<Mark, nat>, m: Mark, n: Mark)
    ensures Uses(Marked(inUse, m), n) == Uses(inUse, n) + if n == m then 1 else 0
  {
  }

  lemma UsesUnmarked(inUse: map<Mark, nat>, m: Mark, n: Mark)
    requires Uses(inUse, m) > 0
    ensures Uses(Unmarked(inUse, m), n) == Uses(inUse, n) - if n == m then 1 else 0
  {
  }

  lemma HeldIsCounted(w: World, cid: nat, m: Mark)
    requires MarksOk(w.inUse, w.boots, w.commits) && CommitHeld(w.commits, cid, m)
    ensures Uses(w.inUse, m) > 0
  {
    HoldersSplitCommit(w.commits, cid, m);
    assert Uses(w.inUse, m) == Holders(w.boots, w.commits, m);
  }

  lemma HeldByBootIsCounted(w: World, id: string, m: Mark)
    requires MarksOk(w.inUse, w.boots, w.commits) && BootHeld(w.boots, id, m)
    ensures Uses(w.inUse, m) > 0
  {
    HoldersSplitBoot(w.boots, id, m);
    assert Uses(w.inUse, m) == Holders(w.boots, w.commits, m);
  }

  lemma FreeIsUnheld(w: World, m: Mark)
    requires MarksOk(w.inUse, w.boots, w.commits) && Uses(w.inUse, m) == 0
    ensures forall cid | cid in w.commits :: !CommitHolds(w.commits[cid], m)
  {
    forall cid | cid in w.commits ensures !CommitHolds(w.commits[cid], m) {
      HoldersSplitCommit(w.commits, cid, m);
      assert Uses(w.inUse, m) == Holders(w.boots, w.commits, m);
    }
  }

  /** A boot's step moves each count by the change in what that boot holds. */
  lemma BootCounts(pc: BootPc, manifest: Option<Manifest>, dirs: map<string, Tree>, vol: Tree, inUse: map<Mark, nat>,
      t: Task, m: Mark)
    requires pc.UnmarkGen? ==> Uses(inUse, Gen(pc.mf.gen)) > 0
    ensures var b := BootNext(pc, manifest, dirs, vol, inUse, t);
            Uses(b.inUse, m) == Uses(inUse, m) + Bit(BootHolds(b.pc, m)) - Bit(BootHolds(pc, m))
  {
    if pc.MarkGen? {
      UsesMarked(inUse, Gen(pc.mf.gen), m);
    } else if pc.UnmarkGen? {
      UsesUnmarked(inUse, Gen(pc.mf.gen), m);
    }
  }

  lemma BootKeepsMarks(w: World, id: string, t: Task)
    requires MarksOk(w.inUse, w.boots, w.commits) && id in w.boots
    ensures var w' := BootStep(w, id, t); MarksOk(w'.inUse, w'.boots, w'.commits)
  {
    var pc := w.boots[id];
    var b := BootNext(pc, w.manifest, w.dirs, At(w.vols, id), w.inUse, t);
    var boots' := w.boots[id := b.pc];
    if pc.UnmarkGen? {
      HeldByBootIsCounted(w, id, Gen(pc.mf.gen));
    }
    forall m ensures Uses(b.inUse, m) == |BootHolders(boots', m)| + |CommitHolders(w.commits, m)| {
      assert Uses(w.inUse, m) == Holders(w.boots, w.commits, m);
      BootCounts(pc, w.manifest, w.dirs, At(w.vols, id), w.inUse, t, m);
      assert boots' - {id} == w.boots - {id};
      BootMoves(w.boots, boots', id, m);
    }
  }

  lemma CommitCounts(hash: HashFn, c: Commit, vol: Tree, gen: Tree, inUse: map<Mark, nat>, t: Task, writeOk: bool,
      m: Mark)
    requires c.pc.UnmarkVol? ==> Uses(inUse, Vol(c.id)) > 0
    requires c.pc.UnmarkGenDir? ==> Uses(inUse, Gen(c.gen)) > 0
    ensures var d := CommitNext(hash, c, vol, gen, inUse, t, writeOk);
            Uses(d.inUse, m) == Uses(inUse, m) + Bit(CommitHolds(c.(pc := d.pc), m)) - Bit(CommitHolds(c, m))
  {
    if c.pc.MarkGenDir? || c.pc.MarkVol? {
      MarkCounts(hash, c, vol, gen, inUse, t, writeOk, m);
    } else if c.pc.UnmarkVol? || c.pc.UnmarkGenDir? {
      UnmarkCounts(hash, c, vol, gen, inUse, t, writeOk, m);
    } else {
      QuietCounts(hash, c, vol, gen, inUse, t, writeOk);
    }
  }

  lemma MarkCounts(hash: HashFn, c: Commit, vol: Tree, gen: Tree, inUse: map<Mark, nat>, t: Task, writeOk: bool,
      m: Mark)
    requires c.pc.MarkGenDir? || c.pc.MarkVol?
    ensures var d := CommitNext(hash, c, vol, gen, inUse, t, writeOk);
            Uses(d.inUse, m) == Uses(inUse, m) + Bit(CommitHolds(c.(pc := d.pc), m)) - Bit(CommitHolds(c, m))
  {
    UsesMarked(inUse, if c.pc.MarkVol? then Vol(c.id) else Gen(c.gen), m);
  }

  lemma UnmarkCounts(hash: HashFn, c: Commit, vol: Tree, gen: Tree, inUse: map<Mark, nat>, t: Task, writeOk: bool,
      m: Mark)
    requires c.pc.UnmarkVol? || c.pc.UnmarkGenDir?
    requires Uses(inUse, if c.pc.UnmarkVol? then Vol(c.id) else Gen(c.gen)) > 0
    ensures var d := CommitNext(hash, c, vol, gen, inUse, t, writeOk);
            Uses(d.inUse, m) == Uses(inUse, m) + Bit(CommitHolds(c.(pc := d.pc), m)) - Bit(CommitHolds(c, m))
  {
    UsesUnmarked(inUse, if c.pc.UnmarkVol? then Vol(c.id) else Gen(c.gen), m);
  }

  /** Every other step leaves the in-use set alone, and what the commit holds. */
  lemma QuietCounts(hash: HashFn, c: Commit, vol: Tree, gen: Tree, inUse: map<Mark, nat>, t: Task, writeOk: bool)
    requires !c.pc.MarkGenDir? && !c.pc.MarkVol? && !c.pc.UnmarkVol? && !c.pc.UnmarkGenDir?
    ensures var d := CommitNext(hash, c, vol, gen, inUse, t, writeOk);
            d.inUse == inUse && HoldsGen(d.pc) == HoldsGen(c.pc) && HoldsVol(d.pc) == HoldsVol(c.pc)
  {
  }

  lemma CommitKeepsMarks(w: World, cid: nat, t: Task, writeOk: bool)
    requires MarksOk(w.inUse, w.boots, w.commits) && cid in w.commits
    ensures var w' := CommitStep(w, cid, t, writeOk); MarksOk(w'.inUse, w'.boots, w'.commits)
  {
    var c := w.commits[cid];
    var d := CommitNext(w.hash, c, At(w.vols, c.id), At(w.dirs, c.gen), w.inUse, t, writeOk);
    var commits' := w.commits[cid := c.(pc := d.pc, locks := d.locks)];
    if c.pc.UnmarkVol? {
      HeldIsCounted(w, cid, Vol(c.id));
    } else if c.pc.UnmarkGenDir? {
      HeldIsCounted(w, cid, Gen(c.gen));
    }
    forall m ensures Uses(d.inUse, m) == |BootHolders(w.boots, m)| + |CommitHolders(commits', m)| {
      assert Uses(w.inUse, m) == Holders(w.boots, w.commits, m);
      CommitCounts(w.hash, c, At(w.vols, c.id), At(w.dirs, c.gen), w.inUse, t, writeOk, m);
      assert commits' - {cid} == w.commits - {cid};
      CommitMoves(w.commits, commits', cid, m);
    }
  }

  // ----- Steps of a boot -----

  lemma BootAdvances(f: Facts, manifest: Option<Manifest>, dirs: map<string, Tree>, vol: Tree, inUse: map<Mark, nat>,
      pc: BootPc, t: Task)
    requires manifest.Some? && !Corrupt(manifest.value) ==> GoodManifest(f, manifest.value)
    requires WholeOrGone(f.published, dirs) && BootOk(f, dirs, vol, pc)
    ensures var b := BootNext(pc, manifest, dirs, vol, inUse, t); BootOk(f, dirs, b.vol, b.pc)
  {
    if pc.MarkGen? {
      CopyStarts(f.published[pc.mf.gen]);
    } else if pc.CopyGen? {
      BootCopyAdvances(f, manifest, dirs, vol, inUse, pc, t);
    }
  }

  lemma BootCopyAdvances(f: Facts, manifest: Option<Manifest>, dirs: map<string, Tree>, vol: Tree,
      inUse: map<Mark, nat>, pc: BootPc, t: Task)
    requires WholeOrGone(f.published, dirs) && BootOk(f, dirs, vol, pc) && pc.CopyGen?
    ensures var b := BootNext(pc, manifest, dirs, vol, inUse, t); BootOk(f, dirs, b.vol, b.pc)
  {
    var src := f.published[pc.mf.gen];
    if CopyInv(src, vol, pc.todo) {
      if pc.todo == {} {
        CopyEnds(src, vol);
      } else if Ready(pc.todo, t) && pc.mf.gen in dirs {
        CopyAdvances(src, vol, pc.todo, t);
      } else if Ready(pc.todo, t) && t.Read? {
        ReadCuts(f, dirs, vol, pc.mf.gen, pc.todo, t);
      }
    }
  }

  /** Reading an open directory of a generation that has been renamed away leaves a walk
      that can only stop on "no such file", or have nothing left to do. */
  lemma ReadCuts(f: Facts, dirs: map<string, Tree>, vol: Tree, gen: string, todo: set<Task>, t: Task)
    requires gen in f.published && gen !in dirs && CopyInv(f.published[gen], vol, todo) && Ready(todo, t) && t.Read?
    ensures var c := CopyStep(At(dirs, gen), Held(dirs, gen), vol, todo, t);
            c.dst == vol && c.outcome != Broken
                && (c.outcome == Going ==> Cut(f.published[gen], dirs, vol, gen, c.todo))
  {
    assert TaskOk(f.published[gen], vol, t);
    OpenIsPart(f.published[gen], vol, t.at);
  }

  /** What has been written up to an opened directory is a tree of its own. */
  lemma OpenIsPart(src: Tree, vol: Tree, p: Rel)
    requires WellFormed(src) && Sound(src, vol) && Closed(vol) && p in vol
    ensures PartOf(vol, src)
  {
    if p != [] {
      AncestorsWritten(src, vol, p, 0);
      assert p[..0] == [];
    }
  }

  // ----- Steps of a commit -----

  lemma CommitAdvances(f: Facts, c: Commit, vol: Tree, gen: Tree, inUse: map<Mark, nat>, t: Task, writeOk: bool)
    requires CommitOk(f, vol, gen, c.gen, c.locks, c.pc) && (vol == map[] || WellFormed(vol))
    ensures var d := CommitNext(f.hash, c, vol, gen, inUse, t, writeOk);
            CommitOk(if d.publish then f.(published := f.published[c.gen := d.gen])
                else f, vol, d.gen, c.gen, d.locks, d.pc)
  {
    if c.pc.MarkVol? {
      if vol != map[] {
        CopyStarts(vol);
      }
    } else if c.pc.CopyVol? {
      CommitCopyAdvances(f, c, vol, gen, inUse, t, writeOk);
    }
  }

  lemma CommitCopyAdvances(f: Facts, c: Commit, vol: Tree, gen: Tree, inUse: map<Mark, nat>, t: Task, writeOk: bool)
    requires CommitOk(f, vol, gen, c.gen, c.locks, c.pc) && c.pc.CopyVol?
    ensures var d := CommitNext(f.hash, c, vol, gen, inUse, t, writeOk);
            !d.publish && CommitOk(f, vol, d.gen, c.gen, d.locks, d.pc)
  {
    if vol != map[] {
      if c.pc.todo == {} {
        CopyEnds(vol, gen);
      } else if Ready(c.pc.todo, t) {
        CopyAdvances(vol, gen, c.pc.todo, t);
      }
    }
  }

  // ----- Every event keeps the invariant -----

  lemma AtStore<K>(m: map<K, Tree>, k: K, t: Tree)
    ensures At(Store(m, k, t), k) == t
    ensures forall j | j != k :: At(Store(m, k, t), j) == At(m, j)
  {
  }

  lemma BootGoKeeps(w: World, id: string, t: Task)
    requires Inv(w) && id in w.boots
    ensures Inv(BootStep(w, id, t))
  {
    var w' := BootStep(w, id, t);
    var b := BootNext(w.boots[id], w.manifest, w.dirs, At(w.vols, id), w.inUse, t);
    AtStore(w.vols, id, b.vol);
    BootKeepsBoots(w, id, t, b);
    CommitsIgnore(w, id, w'.vols);
    BootKeepsMarks(w, id, t);
  }

  lemma BootKeepsBoots(w: World, id: string, t: Task, b: BootMove)
    requires Inv(w) && id in w.boots && b == BootNext(w.boots[id], w.manifest, w.dirs, At(w.vols, id), w.inUse, t)
    ensures BootsOk(FactsOf(w), w.dirs, Store(w.vols, id, b.vol), w.boots[id := b.pc])
  {
    AtStore(w.vols, id, b.vol);
    BootAdvances(FactsOf(w), w.manifest, w.dirs, At(w.vols, id), w.inUse, w.boots[id], t);
  }

  /** Commits read ready runs' volumes only. */
  lemma CommitsIgnore(w: World, id: string, vols': map<string, Tree>)
    requires CommitsOk(FactsOf(w), w.vols, w.dirs, w.commits) && CommitNamesOk(w.commits, w.used, w.ready)
    requires id !in w.ready && forall j | j != id :: At(vols', j) == At(w.vols, j)
    ensures CommitsOk(FactsOf(w), vols', w.dirs, w.commits)
  {
    forall cid | cid in w.commits ensures CommitAt(FactsOf(w), vols', w.dirs, w.commits[cid]) {
      assert CommitAt(FactsOf(w), w.vols, w.dirs, w.commits[cid]);
    }
  }

  lemma BootBeginKeeps(w: World, id: string)
    requires Inv(w) && id !in w.ids && id !in w.vols
    ensures Inv(Apply(w, BootBegin(id)))
  {
    var w' := Apply(w, BootBegin(id));
    BootSwapKeepsMarks(w, w'.boots, id);
    assert CommitNamesOk(w'.commits, w'.used, w'.ready);
  }

  lemma BootSwapKeepsMarks(w: World, boots': map<string, BootPc>, id: string)
    requires MarksOk(w.inUse, w.boots, w.commits) && boots' - {id} == w.boots - {id}
    requires forall m :: !BootHeld(w.boots, id, m) && !BootHeld(boots', id, m)
    ensures MarksOk(w.inUse, boots', w.commits)
  {
    forall m ensures Uses(w.inUse, m) == Holders(boots', w.commits, m) {
      assert Uses(w.inUse, m) == Holders(w.boots, w.commits, m);
      BootMoves(w.boots, boots', id, m);
    }
  }

  lemma FinishedVolume(f: Facts, dirs: map<string, Tree>, vol: Tree, pc: BootPc)
    requires BootOk(f, dirs, vol, pc) && (pc.Booted? || pc.Cold?)
    ensures WellFormed(vol)
  {
  }

  lemma BootReturnKeeps(w: World, id: string)
    requires Inv(w) && id in w.boots && (w.boots[id].Booted? || w.boots[id].Cold?)
    ensures Inv(Apply(w, BootReturn(id)))
  {
    var w' := Apply(w, BootReturn(id));
    assert VolsOk(w'.vols, w'.ready) by {
      FinishedVolume(FactsOf(w), w.dirs, At(w.vols, id), w.boots[id]);
    }
    BootSwapKeepsMarks(w, w'.boots, id);
    assert BootsOk(FactsOf(w), w.dirs, w.vols, w'.boots);
  }

  /** Changing one ready run's volume only concerns the commits reading it. */
  lemma VolumeChangeKeeps(w: World, id: string, vols': map<string, Tree>)
    requires Inv(w) && id in w.ready && (id in vols' ==> WellFormed(vols'[id]))
    requires forall j | j != id :: At(vols', j) == At(w.vols, j) && (j in vols' <==> j in w.vols)
    requires forall cid | cid in w.commits && w.commits[cid].id == id ::
             CommitAt(FactsOf(w), vols', w.dirs, w.commits[cid])
    ensures Inv(w.(vols := vols'))
  {
    assert CommitsOk(FactsOf(w), vols', w.dirs, w.commits) by {
      forall cid | cid in w.commits ensures CommitAt(FactsOf(w), vols', w.dirs, w.commits[cid]) {
        assert CommitAt(FactsOf(w), w.vols, w.dirs, w.commits[cid]);
      }
    }
    assert BootsOk(FactsOf(w), w.dirs, vols', w.boots);
    assert VolsOk(vols', w.ready) by {
      forall j | j in w.ready && j in vols' ensures WellFormed(vols'[j]) {
        assert j != id ==> At(vols', j) == At(w.vols, j);
      }
    }
  }

  lemma ReleaseKeeps(w: World, id: string)
    requires Inv(w) && id in w.ready && Uses(w.inUse, Vol(id)) == 0
    ensures Inv(Apply(w, Release(id)))
  {
    var vols' := w.vols - {id};
    FreeIsUnheld(w, Vol(id));
    forall cid | cid in w.commits && w.commits[cid].id == id
        ensures CommitAt(FactsOf(w), vols', w.dirs, w.commits[cid]) {
      assert CommitAt(FactsOf(w), w.vols, w.dirs, w.commits[cid]);
      assert !CommitHolds(w.commits[cid], Vol(id));
    }
    VolumeChangeKeeps(w, id, vols');
  }

  lemma WorkKeeps(w: World, id: string, tree: Tree)
    requires Inv(w) && id in w.ready && id in w.vols && WellFormed(tree) && !BeingRead(w, id)
    ensures Inv(Apply(w, Work(id, tree)))
  {
    var vols' := w.vols[id := tree];
    forall cid | cid in w.commits && w.commits[cid].id == id
        ensures CommitAt(FactsOf(w), vols', w.dirs, w.commits[cid]) {
      assert CommitAt(FactsOf(w), w.vols, w.dirs, w.commits[cid]);
      assert !Copying(w.commits[cid]);
    }
    VolumeChangeKeeps(w, id, vols');
  }

  // ----- Commits -----

  lemma NewCommitMarks(w: World, cid: nat, c: Commit)
    requires MarksOk(w.inUse, w.boots, w.commits) && cid !in w.commits && c.pc.ReadLocks?
    ensures MarksOk(w.inUse, w.boots, w.commits[cid := c])
  {
    forall m ensures Uses(w.inUse, m) == Holders(w.boots, w.commits[cid := c], m) {
      assert Uses(w.inUse, m) == Holders(w.boots, w.commits, m);
      assert w.commits[cid := c] - {cid} == w.commits - {cid};
      CommitMoves(w.commits, w.commits[cid := c], cid, m);
    }
  }

  lemma CommitBeginKeeps(w: World, cid: nat, id: string, gen: string)
    requires Inv(w) && cid !in w.commits && id in w.ready && IsGen(gen) && gen !in w.used
    ensures Inv(Apply(w, CommitBegin(cid, id, gen)))
  {
    var w' := Apply(w, CommitBegin(cid, id, gen));
    assert CommitAt(FactsOf(w), w.vols, w.dirs, w'.commits[cid]);
    assert CommitsOk(FactsOf(w), w.vols, w.dirs, w'.commits);
    NewCommitUnlisted(w, w'.commits[cid], cid);
    NewCommitMarks(w, cid, w'.commits[cid]);
  }

  lemma NewCommitUnlisted(w: World, c: Commit, cid: nat)
    requires CleanersOk(w.used, w.commits, w.cleaners) && cid !in w.commits && c.gen !in w.used && IsGen(c.gen)
    ensures CleanersOk(w.used + {c.gen}, w.commits[cid := c], w.cleaners)
  {
    TrashIsApart(c.gen);
    forall k | k in w.cleaners ensures CleanerOk(w.used + {c.gen}, w.commits[cid := c], w.cleaners[k]) {
      assert CleanerOk(w.used, w.commits, w.cleaners[k]);
      forall n | Listed(w.used, w.commits, n) ensures Listed(w.used + {c.gen}, w.commits[cid := c], n) {}
    }
  }

  lemma CommitGoKeeps(w: World, cid: nat, t: Task, writeOk: bool)
    requires Inv(w) && cid in w.commits
    ensures Inv(CommitStep(w, cid, t, writeOk))
  {
    var c := w.commits[cid];
    assert CommitAt(FactsOf(w), w.vols, w.dirs, c);
    CommitKeepsMarks(w, cid, t, writeOk);
    CommitKeepsCleaners(w, cid, t, writeOk);
    CommitKeepsNames(w, cid, t, writeOk);
    var d := CommitNext(w.hash, c, At(w.vols, c.id), At(w.dirs, c.gen), w.inUse, t, writeOk);
    CommitEffect(w.hash, c, At(w.vols, c.id), At(w.dirs, c.gen), w.inUse, t, writeOk);
    GenChangeKeeps(w, c.gen, d.gen);
    CommitKeepsThreads(w, cid, t, writeOk, d);
  }

  lemma CommitKeepsNames(w: World, cid: nat, t: Task, writeOk: bool)
    requires CommitNamesOk(w.commits, w.used, w.ready) && cid in w.commits
    ensures CommitNamesOk(CommitStep(w, cid, t, writeOk).commits, w.used, w.ready)
  {
  }

  lemma CommitKeepsThreads(w: World, cid: nat, t: Task, writeOk: bool, d: CommitMove)
    requires Inv(w) && cid in w.commits
    requires d == CommitNext(w.hash, w.commits[cid], At(w.vols, w.commits[cid].id), At(w.dirs, w.commits[cid].gen),
             w.inUse, t, writeOk)
    ensures var w' := CommitStep(w, cid, t, writeOk);
            && (d.publish ==> PublishedOk(FactsOf(w'), w'.manifest, w'.dirs, w'.used))
            && BootsOk(FactsOf(w'), w'.dirs, w'.vols, w'.boots)
            && CommitsOk(FactsOf(w'), w'.vols, w'.dirs, w'.commits)
  {
    var c := w.commits[cid];
    assert CommitAt(FactsOf(w), w.vols, w.dirs, c);
    CommitAdvances(FactsOf(w), c, At(w.vols, c.id), At(w.dirs, c.gen), w.inUse, t, writeOk);
    CommitEffect(w.hash, c, At(w.vols, c.id), At(w.dirs, c.gen), w.inUse, t, writeOk);
    if d.publish {
      PublishKeeps(w, cid, Store(w.dirs, c.gen, d.gen), d);
    } else {
      QuietCommitKeeps(w, cid, d);
    }
  }

  lemma QuietCommitKeeps(w: World, cid: nat, d: CommitMove)
    requires Inv(w) && cid in w.commits
    requires var c := w.commits[cid]; CommitOk(FactsOf(w), At(w.vols, c.id), d.gen, c.gen, d.locks, d.pc)
    requires w.commits[cid].gen in w.published ==> d.gen == At(w.dirs, w.commits[cid].gen)
    ensures var c := w.commits[cid];
            var dirs' := Store(w.dirs, c.gen, d.gen);
            && BootsOk(FactsOf(w), dirs', w.vols, w.boots)
            && CommitsOk(FactsOf(w), w.vols, dirs', w.commits[cid := c.(pc := d.pc, locks := d.locks)])
  {
    var c := w.commits[cid];
    var c', dirs' := c.(pc := d.pc, locks := d.locks), Store(w.dirs, c.gen, d.gen);
    AtStore(w.dirs, c.gen, d.gen);
    PublishedStay(w, cid, d.gen);
    assert CommitAt(FactsOf(w), w.vols, dirs', c');
    CommitsElsewhere(FactsOf(w), w.vols, w.dirs, dirs', w.commits, w.commits[cid := c'], cid, w.used, w.ready);
  }

  /** No commit brings a published generation back. */
  lemma PublishedStay(w: World, cid: nat, gen: Tree)
    requires BootsOk(FactsOf(w), w.dirs, w.vols, w.boots) && cid in w.commits
    requires w.commits[cid].gen in w.published ==> gen == At(w.dirs, w.commits[cid].gen)
    ensures BootsOk(FactsOf(w), Store(w.dirs, w.commits[cid].gen, gen), w.vols, w.boots)
  {
    GoneBoots(FactsOf(w), w.dirs, Store(w.dirs, w.commits[cid].gen, gen), w.vols, w.boots);
  }

  /** A published generation that is gone stays gone, and boots do not mind. */
  lemma GoneBoots(f: Facts, dirs: map<string, Tree>, dirs': map<string, Tree>, vols: map<string, Tree>,
      boots: map<string, BootPc>)
    requires BootsOk(f, dirs, vols, boots) && forall g | g in f.published && g !in dirs :: g !in dirs'
    ensures BootsOk(f, dirs', vols, boots)
  {
    forall id | id in boots ensures BootOk(f, dirs', At(vols, id), boots[id]) {
      assert BootOk(f, dirs, At(vols, id), boots[id]);
    }
  }

  /** Only copying and removing touch the directory; only Publish swaps the manifest. */
  lemma CommitEffect(hash: HashFn, c: Commit, vol: Tree, gen: Tree, inUse: map<Mark, nat>, t: Task, writeOk: bool)
    ensures var d := CommitNext(hash, c, vol, gen, inUse, t, writeOk);
            && (d.publish ==> c.pc.Publish? && d.locks == c.locks)
            && (c.pc.CopyVol? || c.pc.RemoveGenDir? || d.gen == gen)
  {
  }

  lemma StoreSame(m: map<string, Tree>, k: string)
    requires k in m ==> m[k] != map[]
    ensures Store(m, k, At(m, k)) == m
  {
  }

  /** A directory no manifest was ever written for may change freely. */
  lemma GenChangeKeeps(w: World, g: string, t: Tree)
    requires PublishedOk(FactsOf(w), w.manifest, w.dirs, w.used) && DirsOk(w.dirs, w.used) && g in w.used
    requires g in w.published ==> t == At(w.dirs, g)
    ensures var dirs' := Store(w.dirs, g, t);
            PublishedOk(FactsOf(w), w.manifest, dirs', w.used) && DirsOk(dirs', w.used)
  {
    AtStore(w.dirs, g, t);
  }

  /** One commit's step leaves every other commit where it was. */
  lemma CommitsElsewhere(f: Facts, vols: map<string, Tree>, dirs: map<string, Tree>, dirs': map<string, Tree>,
                         commits: map<nat, Commit>, commits': map<nat, Commit>, cid: nat, used: set<string>,
                             ready: set<string>)
    requires CommitsOk(f, vols, dirs, commits) && CommitNamesOk(commits, used, ready)
    requires cid in commits && cid in commits' && commits' == commits[cid := commits'[cid]]
             && commits'[cid].gen == commits[cid].gen
    requires forall g | g != commits[cid].gen :: At(dirs', g) == At(dirs, g)
    requires CommitAt(f, vols, dirs', commits'[cid])
    ensures CommitsOk(f, vols, dirs', commits')
  {
    forall e | e in commits' ensures CommitAt(f, vols, dirs', commits'[e]) {
      if e != cid {
        assert CommitAt(f, vols, dirs, commits[e]);
      }
    }
  }

  /** Publishing a new name keeps everything already said about older ones. */
  lemma PublishKeeps(w: World, cid: nat, dirs': map<string, Tree>, d: CommitMove)
    requires Inv(w) && cid in w.commits && dirs' == Store(w.dirs, w.commits[cid].gen, d.gen)
    requires w.commits[cid].pc.Publish? && d.locks == w.commits[cid].locks && d.gen == At(w.dirs, w.commits[cid].gen)
    requires var c := w.commits[cid];
             CommitOk(Facts(w.hash, w.repo, w.published[c.gen := d.gen]), At(w.vols, c.id), d.gen, c.gen, d.locks, d.pc)
    ensures var c := w.commits[cid];
            var f' := Facts(w.hash, w.repo, w.published[c.gen := d.gen]);
            && PublishedOk(f', Some(Manifest(w.repo, c.locks.hash, c.locks.repoDir, c.gen)), dirs', w.used)
            && BootsOk(f', dirs', w.vols, w.boots)
            && CommitsOk(f', w.vols, dirs', w.commits[cid := c.(pc := d.pc, locks := d.locks)])
  {
    var c := w.commits[cid];
    assert CommitAt(FactsOf(w), w.vols, w.dirs, c);
    StoreSame(w.dirs, c.gen);
    GrowBoots(FactsOf(w), w.dirs, c.gen, d.gen, w.vols, w.boots);
    GrowCommits(w, cid, d.gen);
    PublishedGrows(FactsOf(w), w.manifest, w.dirs, w.used, c.gen, c.locks);
  }

  lemma GrowBoots(f: Facts, dirs: map<string, Tree>, g: string, tree: Tree, vols: map<string, Tree>,
      boots: map<string, BootPc>)
    requires BootsOk(f, dirs, vols, boots) && g !in f.published
    ensures BootsOk(f.(published := f.published[g := tree]), dirs, vols, boots)
  {
    forall id | id in boots ensures BootOk(f.(published := f.published[g := tree]), dirs, At(vols, id), boots[id]) {
      GrowBoot(f, dirs, g, tree, At(vols, id), boots[id]);
    }
  }

  lemma GrowCommits(w: World, cid: nat, tree: Tree)
    requires CommitsOk(FactsOf(w), w.vols, w.dirs, w.commits) && CommitNamesOk(w.commits, w.used, w.ready)
    requires cid in w.commits && w.commits[cid].gen !in w.published
    ensures var f' := Facts(w.hash, w.repo, w.published[w.commits[cid].gen := tree]);
            forall e | e in w.commits && e != cid :: CommitAt(f', w.vols, w.dirs, w.commits[e])
  {
    var f, g := FactsOf(w), w.commits[cid].gen;
    forall e | e in w.commits && e != cid
      ensures CommitAt(Facts(w.hash, w.repo, w.published[g := tree]), w.vols, w.dirs, w.commits[e])
    {
      assert CommitAt(f, w.vols, w.dirs, w.commits[e]);
      GrowCommit(f, g, tree, At(w.vols, w.commits[e].id), At(w.dirs, w.commits[e].gen), w.commits[e]);
    }
  }

  lemma GrowBoot(f: Facts, dirs: map<string, Tree>, g: string, tree: Tree, vol: Tree, pc: BootPc)
    requires BootOk(f, dirs, vol, pc) && g !in f.published
    ensures BootOk(f.(published := f.published[g := tree]), dirs, vol, pc)
  {
  }

  lemma GrowCommit(f: Facts, g: string, tree: Tree, vol: Tree, gen: Tree, c: Commit)
    requires CommitOk(f, vol, gen, c.gen, c.locks, c.pc) && g !in f.published && g != c.gen
    ensures CommitOk(f.(published := f.published[g := tree]), vol, gen, c.gen, c.locks, c.pc)
  {
  }

  lemma PublishedGrows(f: Facts, manifest: Option<Manifest>, dirs: map<string, Tree>, used: set<string>, g: string,
      l: Locks)
    requires PublishedOk(f, manifest, dirs, used) && g !in f.published && IsGen(g) && g in used
    requires At(dirs, g) == l.src && WellFormed(l.src) && Hashed(f, l)
    ensures var f' := f.(published := f.published[g := l.src]);
            PublishedOk(f', Some(Manifest(f.repo, l.hash, l.repoDir, g)), dirs, used)
  {
  }

  lemma CommitKeepsCleaners(w: World, cid: nat, t: Task, writeOk: bool)
    requires CleanersOk(w.used, w.commits, w.cleaners) && cid in w.commits
    ensures var w' := CommitStep(w, cid, t, writeOk); CleanersOk(w'.used, w'.commits, w'.cleaners)
  {
    var c, c' := w.commits[cid], CommitStep(w, cid, t, writeOk).commits[cid];
    CommitGoesOn(w.hash, c, At(w.vols, c.id), At(w.dirs, c.gen), w.inUse, t, writeOk);
    MovedCommitKeepsCleaners(w.used, w.commits, w.cleaners, cid, c');
  }

  /** No step goes back to where a generation is unmarked, or starts filling again. */
  lemma CommitGoesOn(hash: HashFn, c: Commit, vol: Tree, gen: Tree, inUse: map<Mark, nat>, t: Task, writeOk: bool)
    ensures var pc' := CommitNext(hash, c, vol, gen, inUse, t, writeOk).pc;
            && (!c.pc.ReadLocks? && !c.pc.MarkGenDir? ==> !pc'.ReadLocks? && !pc'.MarkGenDir?)
            && (!Building(c.pc) ==> !Building(pc'))
  {
  }

  lemma MovedCommitKeepsCleaners(used: set<string>, commits: map<nat, Commit>, cleaners: map<nat, CleanPc>, cid: nat,
      c': Commit)
    requires CleanersOk(used, commits, cleaners) && cid in commits && c'.gen == commits[cid].gen
    requires !commits[cid].pc.ReadLocks? && !commits[cid].pc.MarkGenDir? ==> !c'.pc.ReadLocks? && !c'.pc.MarkGenDir?
    requires !Building(commits[cid].pc) ==> !Building(c'.pc)
    ensures CleanersOk(used, commits[cid := c'], cleaners)
  {
    forall k | k in cleaners ensures CleanerOk(used, commits[cid := c'], cleaners[k]) {
      assert CleanerOk(used, commits, cleaners[k]);
      forall n | Listed(used, commits, n) ensures Listed(used, commits[cid := c'], n) {}
    }
  }

  // ----- Cleaners -----

  lemma CleanGoKeeps(w: World, k: nat, name: string)
    requires Inv(w) && k in w.cleaners
    ensures Inv(CleanStep(w, k, name))
  {
    var pc := w.cleaners[k];
    var m := CleanNext(pc, w.manifest, w.dirs, w.inUse, name);
    assert CleanerOk(w.used, w.commits, pc);
    CleanKeepsDirs(w, pc, name);
    CleanAdvances(w, pc, name);
  }

  lemma CleanAdvances(w: World, pc: CleanPc, name: string)
    requires Inv(w) && CleanerOk(w.used, w.commits, pc)
    ensures var m := CleanNext(pc, w.manifest, w.dirs, w.inUse, name);
            m.pc.Some? ==> CleanerOk(w.used, w.commits, m.pc.value)
  {
    if pc.ListDir? {
      ListingIsListed(w);
    } else if pc.Scan? && name in pc.todo {
      assert Listed(w.used, w.commits, name);
      if IsGen(name) && Uses(w.inUse, Gen(name)) == 0 {
        IdleIsDoomed(w, name);
      }
    } else if pc.RenameGen? {
      TrashIsApart(pc.name);
    }
  }

  lemma CleanKeepsDirs(w: World, pc: CleanPc, name: string)
    requires Inv(w) && CleanerOk(w.used, w.commits, pc)
    ensures Inv(w.(dirs := CleanNext(pc, w.manifest, w.dirs, w.inUse, name).dirs))
  {
    if pc.RenameGen? && CanRename(w.dirs, pc.name) {
      RenameKeeps(w, pc.name);
    } else if pc.RemoveDir? {
      TrashChangeKeeps(w, pc.name, map[]);
    } else {
      assert CleanNext(pc, w.manifest, w.dirs, w.inUse, name).dirs == w.dirs;
    }
  }

  /** Whatever a listing finds, a commit that would fill it has marked it already. */
  lemma ListingIsListed(w: World)
    requires Inv(w)
    ensures AllListed(w.used, w.commits, set n | n in w.dirs && (IsGen(n) || IsTrash(n)))
  {
    forall n | n in w.dirs && (IsGen(n) || IsTrash(n)) ensures Listed(w.used, w.commits, n) {
      forall c | c in w.commits && w.commits[c].gen == n
          ensures !w.commits[c].pc.ReadLocks? && !w.commits[c].pc.MarkGenDir? {
        assert CommitAt(FactsOf(w), w.vols, w.dirs, w.commits[c]);
      }
    }
  }

  /** A listed generation found without marks is not being filled, now or later. */
  lemma IdleIsDoomed(w: World, name: string)
    requires MarksOk(w.inUse, w.boots, w.commits) && Listed(w.used, w.commits, name)
    requires IsGen(name) && Uses(w.inUse, Gen(name)) == 0
    ensures Doomed(w.used, w.commits, name)
  {
    FreeIsUnheld(w, Gen(name));
    forall c | c in w.commits && w.commits[c].gen == name ensures !Building(w.commits[c].pc) {
      assert !CommitHolds(w.commits[c], Gen(name));
    }
  }

  /** A step on the directory that leaves every generation under construction alone. */
  lemma DirsChangeKeeps(w: World, dirs': map<string, Tree>)
    requires Inv(w) && DirsOk(dirs', w.used)
    requires forall g | g in dirs' && IsGen(g) :: g in w.dirs && dirs'[g] == w.dirs[g]
    requires forall c | c in w.commits && Building(w.commits[c].pc) ::
             At(dirs', w.commits[c].gen) == At(w.dirs, w.commits[c].gen)
    ensures Inv(w.(dirs := dirs'))
  {
    assert WholeOrGone(w.published, dirs');
    GoneBoots(FactsOf(w), w.dirs, dirs', w.vols, w.boots);
    forall c | c in w.commits ensures CommitAt(FactsOf(w), w.vols, dirs', w.commits[c]) {
      assert CommitAt(FactsOf(w), w.vols, w.dirs, w.commits[c]);
    }
  }

  lemma RenameElsewhere(dirs: map<string, Tree>, n: string)
    requires n in dirs
    ensures forall g | g != n && g != Trash(n) :: At((dirs - {n})[Trash(n) := dirs[n]], g) == At(dirs, g)
  {
  }

  lemma RenameKeeps(w: World, n: string)
    requires Inv(w) && Doomed(w.used, w.commits, n) && n in w.dirs
    ensures Inv(w.(dirs := (w.dirs - {n})[Trash(n) := w.dirs[n]]))
  {
    TrashIsApart(n);
    RenameElsewhere(w.dirs, n);
    DirsChangeKeeps(w, (w.dirs - {n})[Trash(n) := w.dirs[n]]);
  }

  /** Deleting under a trash name touches no generation. */
  lemma TrashChangeKeeps(w: World, n: string, t: Tree)
    requires Inv(w) && IsTrash(n)
    ensures Inv(w.(dirs := Store(w.dirs, n, t)))
  {
    var dirs' := Store(w.dirs, n, t);
    AtStore(w.dirs, n, t);
    assert n[0] == 't';
    forall c | c in w.commits && Building(w.commits[c].pc)
        ensures At(dirs', w.commits[c].gen) == At(w.dirs, w.commits[c].gen) {
      assert IsGen(w.commits[c].gen);
    }
    DirsChangeKeeps(w, dirs');
  }

  /** Deleting a generation whose commit failed. */
  lemma FailedUnlinkKeeps(w: World, cid: nat, gone: set<Rel>)
    requires Inv(w) && cid in w.commits && w.commits[cid].pc.RemoveGenDir?
    ensures Inv(Apply(w, CommitUnlink(cid, gone)))
  {
    var dirs' := Unlinked(w.dirs, w.commits[cid].gen, gone);
    assert Apply(w, CommitUnlink(cid, gone)) == w.(dirs := dirs');
    FailedChangeKeeps(w, cid, At(w.dirs, w.commits[cid].gen) - gone);
  }

  lemma FailedChangeKeeps(w: World, cid: nat, t: Tree)
    requires Inv(w) && cid in w.commits && w.commits[cid].pc.RemoveGenDir?
    ensures Inv(w.(dirs := Store(w.dirs, w.commits[cid].gen, t)))
  {
    var g := w.commits[cid].gen;
    assert CommitAt(FactsOf(w), w.vols, w.dirs, w.commits[cid]);
    AtStore(w.dirs, g, t);
    GenChangeKeeps(w, g, t);
    GoneBoots(FactsOf(w), w.dirs, Store(w.dirs, g, t), w.vols, w.boots);
    assert CommitAt(FactsOf(w), w.vols, Store(w.dirs, g, t), w.commits[cid]);
    CommitsElsewhere(FactsOf(w), w.vols, w.dirs, Store(w.dirs, g, t), w.commits, w.commits, cid, w.used, w.ready);
  }

  // ----- All events, all runs -----

  lemma ApplyKeeps(w: World, e: Event)
    requires Inv(w)
    ensures Inv(Apply(w, e))
  {
    match e
    case BootBegin(_) => RunKeepsInv(w, e);
    case BootGo(id, t) => if id in w.boots { BootGoKeeps(w, id, t); }
    case BootReturn(_) => RunKeepsInv(w, e);
    case Work(_, _) => RunKeepsInv(w, e);
    case Release(_) => RunKeepsInv(w, e);
    case CommitBegin(cid, id, gen) =>
      if cid !in w.commits && id in w.ready && IsGen(gen) && gen !in w.used { CommitBeginKeeps(w, cid, id, gen); }
    case CommitGo(cid, t, writeOk) => if cid in w.commits { CommitGoKeeps(w, cid, t, writeOk); }
    case CommitUnlink(cid, gone) =>
      if cid in w.commits && w.commits[cid].pc.RemoveGenDir? { FailedUnlinkKeeps(w, cid, gone); }
    case CleanBegin(_) => CleanerKeepsInv(w, e);
    case CleanGo(k, name) => if k in w.cleaners { CleanGoKeeps(w, k, name); }
    case CleanUnlink(_, _) => CleanerKeepsInv(w, e);
  }

  /** Events of the runs themselves. */
  lemma RunKeepsInv(w: World, e: Event)
    requires Inv(w) && (e.BootBegin? || e.BootReturn? || e.Work? || e.Release?)
    ensures Inv(Apply(w, e))
  {
    if Apply(w, e) != w {
      match e
      case BootBegin(id) => BootBeginKeeps(w, id);
      case BootReturn(id) => BootReturnKeeps(w, id);
      case Work(id, tree) => WorkKeeps(w, id, tree);
      case Release(id) => ReleaseKeeps(w, id);
    }
  }

  lemma CleanerKeepsInv(w: World, e: Event)
    requires Inv(w) && (e.CleanBegin? || e.CleanUnlink?)
    ensures Inv(Apply(w, e))
  {
    if e.CleanUnlink? && e.k in w.cleaners && w.cleaners[e.k].RemoveDir? {
      assert CleanerOk(w.used, w.commits, w.cleaners[e.k]);
      TrashChangeKeeps(w, w.cleaners[e.k].name, At(w.dirs, w.cleaners[e.k].name) - e.gone);
    }
  }

  lemma {:induction false} RunKeeps(w: World, es: seq<Event>)
    requires Inv(w)
    ensures Inv(Run(w, es))
    decreases |es|
  {
    if es != [] {
      ApplyKeeps(w, es[0]);
      RunKeeps(Apply(w, es[0]), es[1..]);
    }
  }
}
