/** Every run of the cache machine, seen from the run lifecycle: there is a run of the
    lifecycle with the same runs, the same commits, the same marks and the same volumes. */
module CacheLedger {
  import opened Prelude
  import L = Lifecycle
  import W = WarmCache
  import WarmTree
  import opened WarmSafety
  import opened WarmPartial
  import WarmTheorems

  /** Both count the same marks on every volume. */
  ghost predicate SameMarks(inUse: map<W.Mark, nat>, marks: map<string, nat>) {
    forall id :: W.Uses(inUse, W.Vol(id)) == L.Count(marks, id)
  }

  /** Where the lifecycle sees a commit that the cache has at `pc`. */
  function Seen(pc: W.CommitPc): L.CommitPc {
    match pc
    case ReadLocks => L.Mark
    case MarkGenDir => L.Mark
    case MarkVol => L.Mark
    case CopyVol(_) => L.Copying
    case UnmarkVol(_) => L.Copying
    case _ => L.Recheck
  }

  /** Each step of a commit in the cache is nothing to the lifecycle (`None`), or the one
      step the lifecycle's commit takes there; the marks stay the same in both. */
  lemma CommitIsSeen(hash: W.HashFn, c: W.Commit, vol: WarmTree.Tree, gen: WarmTree.Tree, inUse: map<W.Mark, nat>,
      t: WarmTree.Task, writeOk: bool, tracked: set<string>, res: L.Res) returns (ok: Option<bool>)
    requires SameMarks(inUse, res.marks)
    requires (c.pc.UnmarkVol? ==> W.Uses(inUse, W.Vol(c.id)) > 0)
             && (c.pc.UnmarkGenDir? ==> W.Uses(inUse, W.Gen(c.gen)) > 0)
    ensures var d := W.CommitNext(hash, c, vol, gen, inUse, t, writeOk);
            if ok.None? then Seen(d.pc) == Seen(c.pc) && SameMarks(d.inUse, res.marks)
            else
              var m := L.CommitStep(c.id, Seen(c.pc), tracked, res, ok.value);
              m.thread == Some(L.Committing(c.id, Seen(d.pc))) && SameMarks(d.inUse, m.res.marks)
  {
    var d := W.CommitNext(hash, c, vol, gen, inUse, t, writeOk);
    forall m ensures W.Uses(d.inUse, m) ==
        W.Uses(inUse, m) + Bit(CommitHolds(c.(pc := d.pc), m)) - Bit(CommitHolds(c, m)) {
      CommitCounts(hash, c, vol, gen, inUse, t, writeOk, m);
    }
    if Seen(d.pc) == Seen(c.pc) {
      VolumesUntouched(inUse, d.inUse, c, d.pc, res.marks);
      ok := None;
    } else {
      SeenMoves(hash, c, vol, gen, inUse, t, writeOk);
      ok := Some(!(c.pc.ReadLocks? && hash(vol).Err?));
      var m := L.CommitStep(c.id, Seen(c.pc), tracked, res, ok.value);
      forall id ensures W.Uses(d.inUse, W.Vol(id)) == L.Count(m.res.marks, id) {
        assert W.Uses(inUse, W.Vol(id)) == L.Count(res.marks, id);
      }
    }
  }

  lemma VolumesUntouched(inUse: map<W.Mark, nat>, inUse': map<W.Mark, nat>, c: W.Commit, pc': W.CommitPc,
      marks: map<string, nat>)
    requires SameMarks(inUse, marks) && Seen(pc') == Seen(c.pc)
    requires forall m ::
               W.Uses(inUse', m) == W.Uses(inUse, m) + Bit(CommitHolds(c.(pc := pc'), m)) - Bit(CommitHolds(c, m))
    ensures SameMarks(inUse', marks)
  {
    forall id ensures W.Uses(inUse', W.Vol(id)) == L.Count(marks, id) {
      assert CommitHolds(c.(pc := pc'), W.Vol(id)) == CommitHolds(c, W.Vol(id));
    }
  }

  lemma SeenMoves(hash: W.HashFn, c: W.Commit, vol: WarmTree.Tree, gen: WarmTree.Tree, inUse: map<W.Mark, nat>,
      t: WarmTree.Task, writeOk: bool)
    requires Seen(W.CommitNext(hash, c, vol, gen, inUse, t, writeOk).pc) != Seen(c.pc)
    ensures var d := W.CommitNext(hash, c, vol, gen, inUse, t, writeOk);
            || (c.pc.ReadLocks? && hash(vol).Err? && Seen(d.pc) == L.Recheck)
            || (c.pc.MarkVol? && Seen(d.pc) == L.Copying)
            || (c.pc.UnmarkVol? && Seen(d.pc) == L.Recheck)
  {
  }

  // ----- Whole runs -----

  const WARM := L.Spec(true, false, false)

  /** The same runs, the same commits, the same marks, the same volumes. */
  ghost predicate Matches(w: W.World, l: L.Ledger) {
    && l.tracked == w.ready && l.specs.Keys == w.ready && (forall id | id in l.specs :: l.specs[id] == WARM)
    && CommitsMatch(w.commits, l.threads) && SameMarks(w.inUse, l.res.marks)
    && VolumesMatch(w, l.res.volumes)
  }

  ghost predicate CommitsMatch(commits: map<nat, W.Commit>, threads: map<nat, L.Thread>) {
    && threads.Keys == commits.Keys
    && forall c | c in commits :: threads[c] == L.Committing(commits[c].id, Seen(commits[c].pc))
  }

  ghost predicate VolumesMatch(w: W.World, volumes: set<string>) {
    forall id :: id in volumes <==> id in w.ready && id in w.vols
  }

  /** A boot that returns is a run that has been created. */
  lemma ReturnIsSeen(w: W.World, l: L.Ledger, id: string) returns (life: seq<L.Event>)
    requires Inv(w) && Matches(w, l) && id in w.boots && (w.boots[id].Booted? || w.boots[id].Cold?)
    ensures Matches(W.Apply(w, W.BootReturn(id)), L.Run(l, life))
  {
    assert id !in w.ready;
    ReturnedHasVolume(w, id);
    var t := FreshKey(l.threads);
    var l';
    life, l' := CreatedWarm(l, t, id);
  }

  lemma ReturnedHasVolume(w: W.World, id: string)
    requires Inv(w) && id in w.boots && (w.boots[id].Booted? || w.boots[id].Cold?)
    ensures id in w.vols
  {
    assert BootOk(FactsOf(w), w.dirs, W.At(w.vols, id), w.boots[id]);
    FinishedVolume(FactsOf(w), w.dirs, W.At(w.vols, id), w.boots[id]);
  }

  lemma CreatedWarm(l: L.Ledger, t: nat, id: string) returns (life: seq<L.Event>, l': L.Ledger)
    requires t !in l.threads && id !in l.specs
    ensures l' == L.Run(l, life) && l'.threads == l.threads && l'.specs == l.specs[id := WARM]
    ensures l'.tracked == l.tracked + {id} && l'.res.marks == l.res.marks && l'.res.volumes == l.res.volumes + {id}
  {
    life, l' := L.Then(l, [], l, L.Create(t, id, WARM));
    life, l' := L.Then(l, life, l', L.Step(t, true));
    assert l'.threads == l.threads[t := L.Creating(id, L.OpenProxy)];
    life, l' := L.Then(l, life, l', L.Step(t, true));
    assert l'.threads == l.threads[t := L.Creating(id, L.StartContainer)];
    life, l' := L.Then(l, life, l', L.Step(t, true));
    assert l'.threads == l.threads[t := L.Creating(id, L.Insert)];
    life, l' := L.Then(l, life, l', L.Step(t, true));
    assert l'.threads == l.threads;
  }

  /** A volume that goes, from under a run that stays: a commit's late release during a
      Destroy that fails. */
  lemma VolumeGoes(l: L.Ledger, t: nat, u: nat, id: string) returns (life: seq<L.Event>, l': L.Ledger)
    requires t !in l.threads && u !in l.threads && t != u && id in l.tracked && id in l.specs && l.specs[id] == WARM
    requires L.Count(l.res.marks, id) == 0
    ensures l' == L.Run(l, life) && l'.threads == l.threads && l'.specs == l.specs && l'.tracked == l.tracked
    ensures l'.res.marks == l.res.marks && l'.res.volumes == l.res.volumes - {id}
  {
    life, l' := LateCommit(l, t, u, id);
    life, l' := L.Then(l, life, l', L.Step(u, false));
    assert l'.threads == l.threads[t := L.Committing(id, L.LateRelease)];
    life, l' := L.Then(l, life, l', L.Step(t, true));
    assert l'.threads == l.threads && l'.tracked == l.tracked;
  }

  lemma LateCommit(l: L.Ledger, t: nat, u: nat, id: string) returns (life: seq<L.Event>, l': L.Ledger)
    requires t !in l.threads && u !in l.threads && t != u && id in l.tracked && id in l.specs && l.specs[id] == WARM
    ensures l' == L.Run(l, life) && l'.specs == l.specs && l'.res == l.res && l'.tracked == l.tracked - {id}
    ensures l'.threads == l.threads[t := L.Committing(id, L.LateRelease)][u := L.Destroying(id, L.Remove)]
  {
    life, l' := L.Then(l, [], l, L.CommitWarm(t, id));
    life, l' := L.Then(l, life, l', L.Step(t, false));
    assert l'.threads == l.threads[t := L.Committing(id, L.Recheck)];
    life, l' := L.Then(l, life, l', L.Destroy(u, id));
    life, l' := L.Then(l, life, l', L.Step(t, false));
  }

  lemma ReleaseIsSeen(w: W.World, l: L.Ledger, id: string) returns (life: seq<L.Event>)
    requires Matches(w, l) && id in w.ready && id in w.vols && W.Uses(w.inUse, W.Vol(id)) == 0
    ensures Matches(W.Apply(w, W.Release(id)), L.Run(l, life))
  {
    assert W.Uses(w.inUse, W.Vol(id)) == L.Count(l.res.marks, id);
    var t := FreshKey(l.threads);
    var u := FreshKey(l.threads[t := L.Committing(id, L.Mark)]);
    var l';
    life, l' := VolumeGoes(l, t, u, id);
  }

  lemma CommitBeginIsSeen(w: W.World, l: L.Ledger, cid: nat, id: string, gen: string) returns (life: seq<L.Event>)
    requires Matches(w, l) && cid !in w.commits && id in w.ready && W.IsGen(gen) && gen !in w.used
    ensures Matches(W.Apply(w, W.CommitBegin(cid, id, gen)), L.Run(l, life))
  {
    var l';
    life, l' := L.Then(l, [], l, L.CommitWarm(cid, id));
    assert l'.threads == l.threads[cid := L.Committing(id, L.Mark)];
  }

  lemma CommitGoIsSeen(w: W.World, l: L.Ledger, cid: nat, t: WarmTree.Task, ok: bool) returns (life: seq<L.Event>)
    requires Inv(w) && Matches(w, l) && cid in w.commits
    ensures Matches(W.CommitStep(w, cid, t, ok), L.Run(l, life))
  {
    var c := w.commits[cid];
    HeldMarks(w, cid);
    var vol, gen := W.At(w.vols, c.id), W.At(w.dirs, c.gen);
    var yes := CommitIsSeen(w.hash, c, vol, gen, w.inUse, t, ok, l.tracked, l.res);
    if yes.None? {
      life := [];
      QuietCommitSeen(w, l, cid, t, ok);
    } else {
      life := CommitStepSeen(w, l, cid, t, ok, yes.value);
    }
  }

  lemma QuietCommitSeen(w: W.World, l: L.Ledger, cid: nat, t: WarmTree.Task, ok: bool)
    requires Matches(w, l) && cid in w.commits
    requires var c := w.commits[cid];
             var d := W.CommitNext(w.hash, c, W.At(w.vols, c.id), W.At(w.dirs, c.gen), w.inUse, t, ok);
             Seen(d.pc) == Seen(c.pc) && SameMarks(d.inUse, l.res.marks)
    ensures Matches(W.CommitStep(w, cid, t, ok), L.Run(l, []))
  {
  }

  lemma HeldMarks(w: W.World, cid: nat)
    requires Inv(w) && cid in w.commits
    ensures var c := w.commits[cid];
            && (c.pc.UnmarkVol? ==> W.Uses(w.inUse, W.Vol(c.id)) > 0)
            && (c.pc.UnmarkGenDir? ==> W.Uses(w.inUse, W.Gen(c.gen)) > 0)
  {
    var c := w.commits[cid];
    if c.pc.UnmarkVol? {
      HeldIsCounted(w, cid, W.Vol(c.id));
    } else if c.pc.UnmarkGenDir? {
      HeldIsCounted(w, cid, W.Gen(c.gen));
    }
  }

  lemma CommitStepSeen(w: W.World, l: L.Ledger, cid: nat, t: WarmTree.Task, ok: bool, yes: bool)
      returns (life: seq<L.Event>)
    requires Matches(w, l) && cid in w.commits && w.commits[cid].id in w.ready
    requires var c := w.commits[cid];
             var d := W.CommitNext(w.hash, c, W.At(w.vols, c.id), W.At(w.dirs, c.gen), w.inUse, t, ok);
             var m := L.CommitStep(c.id, Seen(c.pc), l.tracked, l.res, yes);
             m.thread == Some(L.Committing(c.id, Seen(d.pc))) && SameMarks(d.inUse, m.res.marks)
    ensures Matches(W.CommitStep(w, cid, t, ok), L.Run(l, life))
  {
    var l';
    life, l' := L.Then(l, [], l, L.Step(cid, yes));
    var m := L.CommitStep(w.commits[cid].id, Seen(w.commits[cid].pc), l.tracked, l.res, yes);
    UnfinishedKeepsVolumes(w.commits[cid].id, Seen(w.commits[cid].pc), l.tracked, l.res, yes);
    assert l' == l.(threads := l.threads[cid := m.thread.value], res := m.res);
  }

  lemma UnfinishedKeepsVolumes(id: string, pc: L.CommitPc, tracked: set<string>, res: L.Res, ok: bool)
    requires L.CommitStep(id, pc, tracked, res, ok).thread.Some?
    ensures var m := L.CommitStep(id, pc, tracked, res, ok); m.tracked == tracked && m.res.volumes == res.volumes
  {
  }

  /** Boots on their way, cleaners and workloads mean nothing to the lifecycle. */
  lemma OthersAreUnseen(w: W.World, l: L.Ledger, e: W.Event)
    requires Inv(w) && Matches(w, l)
    requires e.BootBegin? || e.Work? || e.CommitUnlink? || e.CleanBegin? || e.CleanGo? || e.CleanUnlink?
    ensures Matches(W.Apply(w, e), l)
  {
    if e.Work? {
      WorkIsUnseen(w, e);
    } else {
      DirsAreUnseen(w, e);
    }
  }

  lemma WorkIsUnseen(w: W.World, e: W.Event)
    requires e.Work?
    ensures var w' := W.Apply(w, e); w' == w.(vols := w'.vols) && w'.vols.Keys == w.vols.Keys
  {
  }

  lemma DirsAreUnseen(w: W.World, e: W.Event)
    requires e.BootBegin? || e.CommitUnlink? || e.CleanBegin? || e.CleanGo? || e.CleanUnlink?
    ensures var w' := W.Apply(w, e);
            w' == w.(dirs := w'.dirs, cleaners := w'.cleaners, boots := w'.boots, ids := w'.ids)
  {
    if e.CleanGo? {
      CleaningIsUnseen(w, e);
    }
  }

  lemma CleaningIsUnseen(w: W.World, e: W.Event)
    requires e.CleanGo?
    ensures var w' := W.Apply(w, e); w' == w.(dirs := w'.dirs, cleaners := w'.cleaners)
  {
  }

  lemma BootIsUnseen(w: W.World, l: L.Ledger, id: string, t: WarmTree.Task)
    requires Inv(w) && Matches(w, l) && id in w.boots
    ensures Matches(W.BootStep(w, id, t), l)
  {
    var b := W.BootNext(w.boots[id], w.manifest, w.dirs, W.At(w.vols, id), w.inUse, t);
    if w.boots[id].UnmarkGen? {
      HeldByBootIsCounted(w, id, W.Gen(w.boots[id].mf.gen));
    }
    BootMarksNoVolume(w.boots[id], w.manifest, w.dirs, W.At(w.vols, id), w.inUse, t, l.res.marks);
    OnlyOneVolume(w.vols, id, b.vol);
    assert id !in w.ready;
  }

  lemma BootMarksNoVolume(pc: W.BootPc, manifest: Option<W.Manifest>, dirs: map<string, WarmTree.Tree>,
      vol: WarmTree.Tree, inUse: map<W.Mark, nat>, t: WarmTree.Task, marks: map<string, nat>)
    requires SameMarks(inUse, marks) && (pc.UnmarkGen? ==> W.Uses(inUse, W.Gen(pc.mf.gen)) > 0)
    ensures SameMarks(W.BootNext(pc, manifest, dirs, vol, inUse, t).inUse, marks)
  {
    forall id ensures W.Uses(W.BootNext(pc, manifest, dirs, vol, inUse, t).inUse, W.Vol(id)) == L.Count(marks, id) {
      BootCounts(pc, manifest, dirs, vol, inUse, t, W.Vol(id));
      assert W.Uses(inUse, W.Vol(id)) == L.Count(marks, id);
    }
  }

  lemma OnlyOneVolume(vols: map<string, WarmTree.Tree>, id: string, vol: WarmTree.Tree)
    ensures forall j | j != id :: j in W.Store(vols, id, vol) <==> j in vols
  {
  }

  lemma EventIsSeen(w: W.World, l: L.Ledger, e: W.Event) returns (life: seq<L.Event>)
    requires Inv(w) && Matches(w, l)
    ensures Matches(W.Apply(w, e), L.Run(l, life))
  {
    if e.BootGo? || e.BootReturn? || e.Release? {
      life := RunEventIsSeen(w, l, e);
    } else if e.CommitBegin? || e.CommitGo? {
      life := CommitEventIsSeen(w, l, e);
    } else {
      life := [];
      OthersAreUnseen(w, l, e);
    }
  }

  lemma RunEventIsSeen(w: W.World, l: L.Ledger, e: W.Event) returns (life: seq<L.Event>)
    requires Inv(w) && Matches(w, l) && (e.BootGo? || e.BootReturn? || e.Release?)
    ensures Matches(W.Apply(w, e), L.Run(l, life))
  {
    life := [];
    match e
    case BootGo(id, t) => if id in w.boots { BootIsUnseen(w, l, id, t); }
    case BootReturn(id) =>
      if id in w.boots && (w.boots[id].Booted? || w.boots[id].Cold?) { life := ReturnIsSeen(w, l, id); }
    case Release(id) =>
      if id in w.ready && id in w.vols && W.Uses(w.inUse, W.Vol(id)) == 0 {
        life := ReleaseIsSeen(w, l, id);
      } else {
        NothingReleased(w, id);
      }
  }

  lemma CommitEventIsSeen(w: W.World, l: L.Ledger, e: W.Event) returns (life: seq<L.Event>)
    requires Inv(w) && Matches(w, l) && (e.CommitBegin? || e.CommitGo?)
    ensures Matches(W.Apply(w, e), L.Run(l, life))
  {
    if e.CommitBegin? {
      life := BeginEventIsSeen(w, l, e);
    } else {
      life := GoEventIsSeen(w, l, e);
    }
  }

  lemma BeginEventIsSeen(w: W.World, l: L.Ledger, e: W.Event) returns (life: seq<L.Event>)
    requires Inv(w) && Matches(w, l) && e.CommitBegin?
    ensures Matches(W.Apply(w, e), L.Run(l, life))
  {
    life := [];
    if e.cid !in w.commits && e.id in w.ready && W.IsGen(e.gen) && e.gen !in w.used {
      life := CommitBeginIsSeen(w, l, e.cid, e.id, e.gen);
    }
  }

  lemma GoEventIsSeen(w: W.World, l: L.Ledger, e: W.Event) returns (life: seq<L.Event>)
    requires Inv(w) && Matches(w, l) && e.CommitGo?
    ensures Matches(W.Apply(w, e), L.Run(l, life))
  {
    life := [];
    if e.cid in w.commits {
      life := CommitGoIsSeen(w, l, e.cid, e.task, e.writeOk);
    }
  }

  lemma NothingReleased(w: W.World, id: string)
    requires !(id in w.ready && id in w.vols && W.Uses(w.inUse, W.Vol(id)) == 0)
    ensures W.Apply(w, W.Release(id)) == w
  {
    assert id !in w.vols ==> w.vols - {id} == w.vols;
  }

  lemma {:induction false} Appended(l: L.Ledger, xs: seq<L.Event>, ys: seq<L.Event>)
    ensures L.Run(l, xs + ys) == L.Run(L.Run(l, xs), ys)
    decreases |xs|
  {
    if xs == [] {
      assert xs + ys == ys;
    } else {
      assert (xs + ys)[1..] == xs[1..] + ys;
      Appended(L.Apply(l, xs[0]), xs[1..], ys);
    }
  }

  lemma {:induction false} RunIsSeen(w: W.World, l: L.Ledger, es: seq<W.Event>) returns (life: seq<L.Event>)
    requires Inv(w) && Matches(w, l)
    ensures Matches(W.Run(w, es), L.Run(l, life))
    decreases |es|
  {
    life := [];
    if es != [] {
      var first := EventIsSeen(w, l, es[0]);
      ApplyKeeps(w, es[0]);
      var rest := RunIsSeen(W.Apply(w, es[0]), L.Run(l, first), es[1..]);
      Appended(l, first, rest);
      life := first + rest;
    }
  }

  /** Every run of the cache from a daemon start is, in its runs, commits, marks and volumes,
      a run of the lifecycle: what the lifecycle's theorems say of marks and volumes holds
      of the cache's own. */
  lemma CacheRunIsLifecycleRun(w0: W.World, es: seq<W.Event>) returns (life: seq<L.Event>)
    requires WarmTheorems.Start(w0)
    ensures Matches(W.Run(w0, es), L.Run(L.EMPTY, life))
  {
    WarmTheorems.StartKeeps(w0);
    life := RunIsSeen(w0, L.EMPTY, es);
  }
}
