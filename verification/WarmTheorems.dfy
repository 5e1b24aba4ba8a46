/** The warm cache's promises, over every run of the machine from a daemon start. */
module WarmTheorems {
  import opened Prelude
  import opened WarmTree
  import opened WarmCache
  import opened WarmSafety
  import LockHash

  /** A daemon start: no threads and no marks; on disk, a manifest (if any) that is corrupt
      or whose generation is whole or gone, and whatever directories an earlier life left. */
  ghost predicate Start(w: World) {
    && w.boots == map[] && w.commits == map[] && w.cleaners == map[] && w.inUse == map[]
    && w.ready == {} && w.ids == {}
    && PublishedOk(FactsOf(w), w.manifest, w.dirs, w.used)
    && DirsOk(w.dirs, w.used)
  }

  /** The machine hashes volumes as LockHash does. */
  ghost predicate HashesWith(w: World, sha: string -> string) {
    forall t :: w.hash(t) == LockHash.Hash(sha, t)
  }

  lemma {:induction false} HashStays(w: World, es: seq<Event>)
    ensures Run(w, es).hash == w.hash
    decreases |es|
  {
    if es != [] {
      ApplyKeepsHash(w, es[0]);
      HashStays(Apply(w, es[0]), es[1..]);
    }
  }

  lemma ApplyKeepsHash(w: World, e: Event)
    ensures Apply(w, e).hash == w.hash
  {
    if e.BootGo? || e.CommitGo? || e.CleanGo? {
      StepsKeepHash(w, e);
    }
  }

  lemma StepsKeepHash(w: World, e: Event)
    requires e.BootGo? || e.CommitGo? || e.CleanGo?
    ensures Apply(w, e).hash == w.hash
  {
  }

  lemma StartKeeps(w: World)
    requires Start(w)
    ensures Inv(w)
  {
    forall m ensures Uses(w.inUse, m) == Holders(w.boots, w.commits, m) {
      assert BootHolders(w.boots, m) == {} && CommitHolders(w.commits, m) == {};
    }
  }

  /** What a boot ends with, in every interleaving.  Booted: the tree its manifest was
      written for, with the manifest's hash, whole unless that generation is gone by now;
      then it may be a part of it (WarmPartial says when).  Cold: an empty directory. */
  lemma BootIsExact(sha: string -> string, w0: World, es: seq<Event>, id: string)
    requires Start(w0) && HashesWith(w0, sha) && id in Run(w0, es).boots
    ensures var w := Run(w0, es);
            match w.boots[id]
            case Booted(mf) =>
              && mf.gen in w.published && PartOf(At(w.vols, id), w.published[mf.gen])
              && (mf.gen in w.dirs ==> At(w.vols, id) == w.published[mf.gen] == w.dirs[mf.gen])
              && LockHash.Hash(sha, w.published[mf.gen]) == Ok((mf.lockHash, mf.repoDir))
            case Cold => At(w.vols, id) == EMPTY_DIR
            case _ => true
  {
    StartKeeps(w0);
    RunKeeps(w0, es);
    var w := Run(w0, es);
    assert BootOk(FactsOf(w), w.dirs, At(w.vols, id), w.boots[id]);
    HashStays(w0, es);
    if w.boots[id].Booted? {
      assert w0.hash(w.published[w.boots[id].mf.gen]) == LockHash.Hash(sha, w.published[w.boots[id].mf.gen]);
    }
  }

  /** A boot fails in exactly one way: it reads a corrupt manifest. */
  lemma BootFailsIff(w0: World, es: seq<Event>, e: Event, id: string)
    requires Start(w0)
    requires var w := Run(w0, es); id in w.boots ==> w.boots[id] != BootFailed
    ensures var w := Run(w0, es);
            var w' := Apply(w, e);
            id in w'.boots && w'.boots[id] == BootFailed <==>
              && e.BootGo? && e.id == id && id in w.boots && w.boots[id].ReadManifest? && w.boots[id].attempt < 3
              && w.manifest.Some? && Corrupt(w.manifest.value)
  {
    StartKeeps(w0);
    RunKeeps(w0, es);
    FailsIff(Run(w0, es), e, id);
  }

  lemma FailsIff(w: World, e: Event, id: string)
    requires Inv(w) && (id in w.boots ==> w.boots[id] != BootFailed)
    ensures var w' := Apply(w, e);
            id in w'.boots && w'.boots[id] == BootFailed <==>
              && e.BootGo? && e.id == id && id in w.boots && w.boots[id].ReadManifest? && w.boots[id].attempt < 3
              && w.manifest.Some? && Corrupt(w.manifest.value)
  {
    if e.BootGo? && e.id == id && id in w.boots {
      assert BootOk(FactsOf(w), w.dirs, At(w.vols, id), w.boots[id]);
      StepFailsIff(FactsOf(w), w.manifest, w.dirs, At(w.vols, id), w.inUse, w.boots[id], e.task);
    } else if id in w.boots {
      BootUntouched(w, e, id);
    } else if id in Apply(w, e).boots {
      BootNew(w, e, id);
    }
  }

  lemma StepFailsIff(f: Facts, manifest: Option<Manifest>, dirs: map<string, Tree>, vol: Tree, inUse: map<Mark, nat>,
      pc: BootPc, t: Task)
    requires BootOk(f, dirs, vol, pc) && pc != BootFailed
    ensures BootNext(pc, manifest, dirs, vol, inUse, t).pc == BootFailed <==>
              pc.ReadManifest? && pc.attempt < 3 && manifest.Some? && Corrupt(manifest.value)
  {
  }

  /** A boot under way, and its volume, are its own. */
  lemma BootUntouched(w: World, e: Event, id: string)
    requires IdsOk(w.boots, w.ready, w.ids) && id in w.boots && !(e.BootGo? && e.id == id)
    ensures id in Apply(w, e).boots ==>
            Apply(w, e).boots[id] == w.boots[id] && At(Apply(w, e).vols, id) == At(w.vols, id)
  {
    if e.BootGo? {
      if e.id in w.boots {
        AtStore(w.vols, e.id, BootNext(w.boots[e.id], w.manifest, w.dirs, At(w.vols, e.id), w.inUse, e.task).vol);
      }
    } else if e.Work? || e.Release? || e.BootBegin? || e.BootReturn? {
      RunsKeepBoot(w, e, id);
    } else {
      StepsKeepBoots(w, e);
    }
  }

  lemma RunsKeepBoot(w: World, e: Event, id: string)
    requires IdsOk(w.boots, w.ready, w.ids) && id in w.boots && (e.Work? || e.Release? || e.BootBegin? || e.BootReturn?)
    ensures id in Apply(w, e).boots ==>
            Apply(w, e).boots[id] == w.boots[id] && At(Apply(w, e).vols, id) == At(w.vols, id)
  {
    if e.Work? || e.Release? {
      VolumeKeepsBoots(w, e, id);
    } else {
      ComingAndGoing(w, e);
    }
  }

  lemma ComingAndGoing(w: World, e: Event)
    requires e.BootBegin? || e.BootReturn?
    ensures Apply(w, e).vols == w.vols
    ensures Apply(w, e).boots in {w.boots, w.boots - {e.id}}
            || (e.id !in w.ids && Apply(w, e).boots == w.boots[e.id := ReadManifest(0)])
  {
  }

  lemma VolumeKeepsBoots(w: World, e: Event, id: string)
    requires id !in w.ready && (e.Work? || e.Release?)
    ensures Apply(w, e).boots == w.boots && At(Apply(w, e).vols, id) == At(w.vols, id)
  {
  }

  lemma StepsKeepBoots(w: World, e: Event)
    requires !e.BootGo? && !e.Work? && !e.Release? && !e.BootBegin? && !e.BootReturn?
    ensures Apply(w, e).boots == w.boots && Apply(w, e).vols == w.vols
  {
  }

  lemma BootNew(w: World, e: Event, id: string)
    requires id !in w.boots && id in Apply(w, e).boots
    ensures Apply(w, e).boots[id] == ReadManifest(0)
  {
  }

  predicate Sound(manifest: Option<Manifest>) {
    manifest.Some? ==> !Corrupt(manifest.value)
  }

  /** No commit ever writes a corrupt manifest. */
  lemma SoundStays(w: World, e: Event)
    requires w.repo != "" && CommitNamesOk(w.commits, w.used, w.ready) && Sound(w.manifest)
    ensures Sound(Apply(w, e).manifest)
  {
    if e.CommitGo? && e.cid in w.commits {
      WritesSound(w, e.cid, e.task, e.writeOk);
    } else {
      OthersKeepManifest(w, e);
    }
  }

  lemma WritesSound(w: World, cid: nat, t: Task, ok: bool)
    requires cid in w.commits && w.repo != "" && IsGen(w.commits[cid].gen) && Sound(w.manifest)
    ensures Sound(CommitStep(w, cid, t, ok).manifest)
  {
  }

  lemma OthersKeepManifest(w: World, e: Event)
    requires !(e.CommitGo? && e.cid in w.commits)
    ensures Apply(w, e).manifest == w.manifest
  {
  }

  /** On a sound manifest no boot ever fails, whatever commits and cleaners do. */
  lemma NoBootFails(w0: World, es: seq<Event>, id: string)
    requires Start(w0) && Sound(w0.manifest) && id in Run(w0, es).boots
    ensures Run(w0, es).boots[id] != BootFailed
  {
    StartKeeps(w0);
    NoBootFailsFrom(w0, es);
  }

  lemma {:induction false} NoBootFailsFrom(w: World, es: seq<Event>)
    requires Inv(w) && Sound(w.manifest) && forall id | id in w.boots :: w.boots[id] != BootFailed
    ensures var w' := Run(w, es); Sound(w'.manifest) && forall id | id in w'.boots :: w'.boots[id] != BootFailed
    decreases |es|
  {
    if es != [] {
      var w' := Apply(w, es[0]);
      ApplyKeeps(w, es[0]);
      SoundStays(w, es[0]);
      forall id | id in w'.boots ensures w'.boots[id] != BootFailed {
        FailsIff(w, es[0], id);
      }
      NoBootFailsFrom(w', es[1..]);
    }
  }

  /** A restart: whatever state the daemon is stopped in, what it leaves on disk is a sound
      start for the next one. */
  lemma RestartIsAStart(w0: World, es: seq<Event>)
    requires Start(w0)
    ensures var w := Run(w0, es);
            Start(w.(boots := map[], commits := map[], cleaners := map[], inUse := map[], ready := {}, ids := {}))
  {
    StartKeeps(w0);
    RunKeeps(w0, es);
  }

  /** A commit that succeeds has published, under its own name, exactly the volume whose
      lockfiles it read, with their hash. */
  lemma CommitIsExact(sha: string -> string, w0: World, es: seq<Event>, cid: nat)
    requires Start(w0) && HashesWith(w0, sha) && cid in Run(w0, es).commits
             && Run(w0, es).commits[cid].pc == Committed(true)
    ensures var w := Run(w0, es);
            var c := w.commits[cid];
            && c.gen in w.published && w.published[c.gen] == c.locks.src
            && LockHash.Hash(sha, c.locks.src) == Ok((c.locks.hash, c.locks.repoDir))
            && (c.gen in w.dirs ==> w.dirs[c.gen] == c.locks.src)
  {
    StartKeeps(w0);
    RunKeeps(w0, es);
    var w := Run(w0, es);
    assert CommitAt(FactsOf(w), w.vols, w.dirs, w.commits[cid]);
    HashStays(w0, es);
    assert w0.hash(w.commits[cid].locks.src) == LockHash.Hash(sha, w.commits[cid].locks.src);
  }

  /** Whatever manifest is on disk, its hash is the hash of the tree it was written for,
      and its generation's path holds that tree or nothing. */
  lemma ManifestIsTrue(sha: string -> string, w0: World, es: seq<Event>)
    requires Start(w0) && HashesWith(w0, sha) && Run(w0, es).manifest.Some? && !Corrupt(Run(w0, es).manifest.value)
    ensures var w := Run(w0, es);
            var mf := w.manifest.value;
            && mf.gen in w.published
            && LockHash.Hash(sha, w.published[mf.gen]) == Ok((mf.lockHash, mf.repoDir))
            && (mf.gen in w.dirs ==> w.dirs[mf.gen] == w.published[mf.gen])
  {
    StartKeeps(w0);
    RunKeeps(w0, es);
    HashStays(w0, es);
    var w := Run(w0, es);
    assert w0.hash(w.published[w.manifest.value.gen]) == LockHash.Hash(sha, w.published[w.manifest.value.gen]);
  }

  /** Each in-use count is the number of threads that hold the mark. */
  lemma MarksCountHolders(w0: World, es: seq<Event>, m: Mark)
    requires Start(w0)
    ensures var w := Run(w0, es);
            Uses(w.inUse, m) == |BootHolders(w.boots, m)| + |CommitHolders(w.commits, m)|
  {
    StartKeeps(w0);
    RunKeeps(w0, es);
    var w := Run(w0, es);
    assert Uses(w.inUse, m) == Holders(w.boots, w.commits, m);
  }

  /** While a generation is being filled, only its own commit changes its directory:
      no cleaner renames or deletes it, although checking for marks and renaming are two
      steps. */
  lemma BuildIsUndisturbed(w0: World, es: seq<Event>, cid: nat, e: Event)
    requires Start(w0) && cid in Run(w0, es).commits && Building(Run(w0, es).commits[cid].pc)
    requires !(e.CommitGo? && e.cid == cid)
    ensures var w := Run(w0, es);
            At(Apply(w, e).dirs, w.commits[cid].gen) == At(w.dirs, w.commits[cid].gen)
  {
    StartKeeps(w0);
    RunKeeps(w0, es);
    OnlyBuilderWrites(Run(w0, es), cid, e);
  }

  lemma OnlyBuilderWrites(w: World, cid: nat, e: Event)
    requires Inv(w) && cid in w.commits && Building(w.commits[cid].pc) && !(e.CommitGo? && e.cid == cid)
    ensures At(Apply(w, e).dirs, w.commits[cid].gen) == At(w.dirs, w.commits[cid].gen)
  {
    if e.CommitGo? || e.CommitUnlink? {
      CommitsSpare(w, cid, e);
    } else if e.CleanGo? || e.CleanUnlink? {
      CleanersSpare(w, cid, e);
    } else {
      OthersKeepDirs(w, e);
    }
  }

  lemma OthersKeepDirs(w: World, e: Event)
    requires !e.CommitGo? && !e.CommitUnlink? && !e.CleanGo? && !e.CleanUnlink?
    ensures Apply(w, e).dirs == w.dirs
  {
  }

  lemma CleanersSpare(w: World, cid: nat, e: Event)
    requires CleanersOk(w.used, w.commits, w.cleaners) && CommitNamesOk(w.commits, w.used, w.ready)
    requires cid in w.commits && Building(w.commits[cid].pc) && (e.CleanGo? || e.CleanUnlink?)
    ensures At(Apply(w, e).dirs, w.commits[cid].gen) == At(w.dirs, w.commits[cid].gen)
  {
    var g := w.commits[cid].gen;
    if e.k in w.cleaners {
      assert CleanerOk(w.used, w.commits, w.cleaners[e.k]);
      if e.CleanGo? {
        CleanerSpares(w, w.cleaners[e.k], e.name, g, cid);
      } else if w.cleaners[e.k].RemoveDir? {
        assert g[0] == 'g' && w.cleaners[e.k].name[0] == 't';
        AtStore(w.dirs, w.cleaners[e.k].name, At(w.dirs, w.cleaners[e.k].name) - e.gone);
      }
    }
  }

  lemma CommitsSpare(w: World, cid: nat, e: Event)
    requires CommitNamesOk(w.commits, w.used, w.ready) && cid in w.commits && Building(w.commits[cid].pc)
    requires (e.CommitGo? && e.cid != cid) || e.CommitUnlink?
    ensures At(Apply(w, e).dirs, w.commits[cid].gen) == At(w.dirs, w.commits[cid].gen)
  {
    if e.CommitGo? && e.cid in w.commits {
      var c := w.commits[e.cid];
      AtStore(w.dirs, c.gen,
          CommitNext(w.hash, c, At(w.vols, c.id), At(w.dirs, c.gen), w.inUse, e.task, e.writeOk).gen);
    } else if e.CommitUnlink? && e.cid in w.commits && w.commits[e.cid].pc.RemoveGenDir? {
      AtStore(w.dirs, w.commits[e.cid].gen, At(w.dirs, w.commits[e.cid].gen) - e.gone);
    }
  }

  lemma CleanerSpares(w: World, pc: CleanPc, name: string, g: string, cid: nat)
    requires CleanerOk(w.used, w.commits, pc) && IsGen(g)
    requires cid in w.commits && Building(w.commits[cid].pc) && w.commits[cid].gen == g
    ensures At(CleanNext(pc, w.manifest, w.dirs, w.inUse, name).dirs, g) == At(w.dirs, g)
  {
    assert g[0] == 'g';
    if pc.RenameGen? && pc.name in w.dirs {
      assert Trash(pc.name)[0] == 't';
      RenameElsewhere(w.dirs, pc.name);
    } else if pc.RemoveDir? {
      assert pc.name[0] == 't';
    }
  }

  /** The manifest may outlive its generation, and this is exactly when: a cleaner that
      read an earlier manifest renames the current generation away. */
  lemma CurrentGenerationLostIff(w0: World, es: seq<Event>, e: Event)
    requires Start(w0)
    requires var w := Run(w0, es); w.manifest.Some? && !Corrupt(w.manifest.value) && w.manifest.value.gen in w.dirs
    ensures var w := Run(w0, es);
            var g := w.manifest.value.gen;
            g !in Apply(w, e).dirs <==>
              && e.CleanGo? && e.k in w.cleaners && w.cleaners[e.k].RenameGen? && w.cleaners[e.k].name == g
              && w.cleaners[e.k].current != g && CanRename(w.dirs, g)
  {
    StartKeeps(w0);
    RunKeeps(w0, es);
    LostIff(Run(w0, es), e, Run(w0, es).manifest.value.gen);
  }

  lemma LostIff(w: World, e: Event, g: string)
    requires Inv(w) && g in w.published && g in w.dirs
    ensures g !in Apply(w, e).dirs <==>
              && e.CleanGo? && e.k in w.cleaners && w.cleaners[e.k].RenameGen? && w.cleaners[e.k].name == g
              && w.cleaners[e.k].current != g && CanRename(w.dirs, g)
  {
    if e.CommitGo? || e.CommitUnlink? {
      CommitsSparePublished(w, e, g);
    } else if e.CleanGo? || e.CleanUnlink? {
      CleanersTake(w, e, g);
    } else {
      OthersKeepDirs(w, e);
    }
  }

  /** What a commit's step does about a generation published before: nothing. */
  lemma CommitLeaves(w: World, cid: nat, t: Task, ok: bool, g: string)
    requires cid in w.commits && CommitAt(FactsOf(w), w.vols, w.dirs, w.commits[cid])
    requires g in w.published && (g in w.dirs ==> w.dirs[g] != map[])
    ensures var w' := CommitStep(w, cid, t, ok);
            && (g in w'.dirs <==> g in w.dirs) && g in w'.published && w'.published[g] == w.published[g]
  {
    var c := w.commits[cid];
    var d := CommitNext(w.hash, c, At(w.vols, c.id), At(w.dirs, c.gen), w.inUse, t, ok);
    if c.gen == g {
      KnownMove(w.hash, FactsOf(w), c, At(w.vols, c.id), At(w.dirs, c.gen), w.inUse, t, ok);
      StoreSame(w.dirs, g);
    } else {
      StoreElsewhere(w.dirs, c.gen, d.gen, g);
    }
  }

  lemma StoreElsewhere(dirs: map<string, Tree>, k: string, t: Tree, g: string)
    requires g != k
    ensures g in Store(dirs, k, t) <==> g in dirs
  {
  }

  lemma KnownMove(hash: HashFn, f: Facts, c: Commit, vol: Tree, gen: Tree, inUse: map<Mark, nat>, t: Task, ok: bool)
    requires CommitOk(f, vol, gen, c.gen, c.locks, c.pc) && c.gen in f.published
    ensures var d := CommitNext(hash, c, vol, gen, inUse, t, ok); d.gen == gen && !d.publish
  {
    CommitEffect(hash, c, vol, gen, inUse, t, ok);
    KnownCommit(f, vol, gen, c);
  }

  /** A commit that copies, removes or publishes has published nothing yet. */
  lemma KnownCommit(f: Facts, vol: Tree, gen: Tree, c: Commit)
    requires CommitOk(f, vol, gen, c.gen, c.locks, c.pc)
    ensures c.pc.CopyVol? || c.pc.RemoveGenDir? || c.pc.Publish? ==> c.gen !in f.published
  {
  }

  lemma CommitsSparePublished(w: World, e: Event, g: string)
    requires CommitsOk(FactsOf(w), w.vols, w.dirs, w.commits) && DirsOk(w.dirs, w.used)
    requires g in w.published && (e.CommitGo? || e.CommitUnlink?)
    ensures g in Apply(w, e).dirs <==> g in w.dirs
  {
    if e.cid in w.commits {
      assert CommitAt(FactsOf(w), w.vols, w.dirs, w.commits[e.cid]);
      if e.CommitGo? {
        CommitLeaves(w, e.cid, e.task, e.writeOk, g);
      } else {
        UnlinkLeaves(w, e.cid, e.gone, g);
      }
    }
  }

  lemma UnlinkLeaves(w: World, cid: nat, gone: set<Rel>, g: string)
    requires cid in w.commits && CommitAt(FactsOf(w), w.vols, w.dirs, w.commits[cid]) && g in w.published
    ensures g in Apply(w, CommitUnlink(cid, gone)).dirs <==> g in w.dirs
  {
    var c := w.commits[cid];
    KnownCommit(FactsOf(w), At(w.vols, c.id), At(w.dirs, c.gen), c);
  }

  lemma CleanersTake(w: World, e: Event, g: string)
    requires CleanersOk(w.used, w.commits, w.cleaners) && IsGen(g) && g in w.dirs && (e.CleanGo? || e.CleanUnlink?)
    ensures g !in Apply(w, e).dirs <==>
              && e.CleanGo? && e.k in w.cleaners && w.cleaners[e.k].RenameGen? && w.cleaners[e.k].name == g
              && w.cleaners[e.k].current != g && CanRename(w.dirs, g)
  {
    if e.k in w.cleaners {
      assert CleanerOk(w.used, w.commits, w.cleaners[e.k]);
      if e.CleanGo? {
        CleanerTakes(w.cleaners[e.k], w.manifest, w.dirs, w.inUse, e.name, g);
      } else if w.cleaners[e.k].RemoveDir? {
        assert g[0] == 'g' && w.cleaners[e.k].name[0] == 't';
      }
    }
  }

  lemma CleanerTakes(pc: CleanPc, manifest: Option<Manifest>, dirs: map<string, Tree>, inUse: map<Mark, nat>,
      name: string, g: string)
    requires IsGen(g) && g in dirs && (pc.RemoveDir? ==> IsTrash(pc.name))
    ensures g !in CleanNext(pc, manifest, dirs, inUse, name).dirs <==>
            pc.RenameGen? && pc.name == g && CanRename(dirs, g)
  {
    assert g[0] == 'g';
    if pc.RenameGen? {
      assert Trash(pc.name)[0] == 't';
    } else if pc.RemoveDir? {
      assert pc.name[0] == 't';
    }
  }
}
